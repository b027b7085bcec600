# A model of the bootloader's hard core

This project models, in Dafny, the parts of the bootloader that a boot depends on and that are hard to get right, and
proves what they promise.

- **The formatter** (`number`, `skip_atoi`, `vsprintf`; four copies with the same logic, in stages 2 to 5). One model
  with the width of `long` as a parameter (`CInt.LongWidth`: 32 in stages 2 to 4, 64 in stage 5). `Directive` and
  `Format` say what a format means (parse, then render); `Numbers` and `Vsprintf` are the C loops over a byte buffer,
  a format cursor and an argument cursor, and are proved to write exactly that; `NumberReading` and `FormatLaws` prove
  what the meaning itself satisfies, and `FormatReading` reads what is printed back into the arguments.
- **The floppy loader** (`fpy_copy_bytes` and `load_protected`). `Fdc` is the controller (Intel 82077AA) as an
  automaton; `FloppyDriver`, `FloppyIrq` and `FloppyCopy` are the driver's functions over it, with an arbitrary
  environment behind every look at the status register; `LoadProtected` puts the stages together with the linker's
  layout.
- **The handshake under interrupts.** `Handshake` is `fpy_copy_bytes` as single steps, one for each port access and
  each access to the two shared flags, with the interrupt handler and the controller free to act between any two of
  them. `HandshakeInvariant` has the invariant and its preservation step by step, `HandshakeRuns` the theorems about
  whole runs of a call, `HandshakeHandler` where the handler writes, `HandshakeSessions` calls that follow each other,
  `HandshakeWitnesses` the runs that show where a property ends, `HandshakeLeftovers` what a call that was cut short
  does to the next (`HandshakeMisread` where it is harmless), and `HandshakeCommands` what is sent, and that these
  runs and the methods of `FloppyCopy` agree.
- **The machine's tables and stubs.** `Paging` has the page tables of stage 4 against a 4-level walk (Intel SDM,
  volume 3, section 4.5), `Gdt` the packed descriptor against the descriptor format (section 3.4.5), `IdtStub` the
  32-bit interrupt entry stub on a stack that may wrap around, `CopyKernel` stage 1's BIOS reads. `Chs` has the sector
  arithmetic they share.

The pieces meet: the bss that `load_protected` clears holds the page tables, and
`LoadProtected.BootedPagingIsIdentity` starts from exactly what `LoadProtected.Load` ensures.

`dafny verify dfyconfig.toml` checks the project (Dafny 4.11).

## Where the code differs from what one might expect

The model follows the code.

- `number` and `vsprintf` depart from the C standard: `0` stays active when a precision is given, `#` also prefixes
  zero, precision 0 still prints "0", a negative `*` precision counts as 0, and `L` is ignored. The least `long`
  negates to itself and is nevertheless printed correctly (`NumberReading.NumberReadsBack` has no exception for it).
- `fpy_cmd_gen_res` does not always consume seven bytes when it succeeds. Bytes four to seven come from
  `fpy_read_data` unchecked, and a read that gives up takes nothing. `HandshakeWitnesses.SuccessMayLeaveResult` is
  such a run; `FloppyDriver.Controller.GenRes` and `HandshakeRuns.TurnEndsClean` say when the controller is idle
  again: exactly when none of the reads gave up.
- `fpy_cmd_read_sector` ignores the verdict of `fpy_wait_irq`, and `load_protected` ignores both results.
- What keeps the handler out of a command, where the controller was not left in a seek, is `fpy_prepare_irq_no_handle`
  alone (`HandshakeWitnesses.SafetyRestsOnPrepare`). That the copy starts only after the execution holds even without
  the last loop on `mrq` and without the wait, because `fpy_read_data` looks at `mrq` itself
  (`HandshakeRuns.CopyStartsAfterExecution` is proved for every such variant). The loop on `mrq` is what makes
  `fpy_read_data` find the result there at its first look; the wait does not replace it
  (`HandshakeWitnesses.ResultRestsOnFinalWait`).
- The verdict of `fpy_wait_irq` is about the flag as it was compared, not as it is cleared. A seek's interrupt that
  comes late makes it return "no error" and clear an error message (`HandshakeWitnesses.VerdictMayMissAMessage`); the
  two disagree exactly when an interrupt after the comparison has changed the flag (`HandshakeRuns.WaitVerdict`).
- `load_protected` starts the second load whatever became of the first. If a command byte of the first timed out in
  the middle of a command, the controller takes the bytes of the next seek and read for the rest of that command. The
  second load can then succeed with wrong bytes exactly if the first was cut in a seek, or in a read of which five or
  six bytes are missing (`HandshakeLeftovers.GoesWrongIff`): the controller reads another sector, or runs a command
  that reports success and leaves the buffer as it was. With three bytes missing or fewer the next seek completes the
  read, whose result stops the second load; with four, seven or eight the bytes of the seek and the read make a read
  that no sector can answer, and the second load fails with nothing copied (`HandshakeMisread.MisreadCopiesNothing`).
  And the handler can then write between two bytes of a command exactly if it was cut in a seek
  (`HandshakeLeftovers.CutsInIff`). After every other end of the first load, success or not, the second is as good as
  a first one (`HandshakeSessions.BothLoadsGoRight`).
- The sector number of `fpy_copy_bytes` is 8 bits wide. Past sector 255 it starts again at 0, so that the copy is a
  slice of the disk exactly up to there (`FloppyCopy.SliceIffNoWrap`).
- `copy_kernel` without a geometry is right exactly for the first track (`CopyKernel.FallbackAgrees`).

## The environment

These assumptions are part of the model, in `Handshake.Enabled` and in the constructors and preconditions.

- The controller raises one interrupt when it completes a seek or a recalibration, and one when an execution ends; one
  that is still pending when the next is raised merges with it. A seek's interrupt arrives before the last byte of the
  next read command is accepted, a read's interrupt before its first result byte is taken.
- Wherever something is said of the controller, each look at the status shows its own status, with `dataio` exactly in
  the result phase and never `mrq` during execution. What is said of the bytes that are sent holds for any status.
- Read data, in double density, with a sector size of 512 bytes and a sector number up to the last one named, puts its
  sector at the start of the transfer buffer if it reports success, and does not report success off the disk; any
  other command reads no sector. Commands that write, scan, format or read an id leave the buffer as it is. DMA writes
  only the 0x300 bytes it is programmed for.
- Success is what the bits of the status registers say (`Fdc.NormalEnd`), and not what the driver checks; that the two
  agree is `Fdc.ChecksPassIff`.
- A seek steps the head to the track its third byte names. Implied seeks are enabled (stage3/floppy.c:85), so a read
  does not depend on where the head is.
- A byte written in the execution or result phase is lost.
- The handler runs to its end between two steps of the main line. One interrupt stays on one privilege level, and an
  interrupt handler is a C function that leaves the saved frame alone.
- Where a contract speaks of a prompt environment, the controller is ready at every look, every execution that can end
  well does so at the first look, and an interrupt is there at every look at the flag. All other claims hold without
  it.
- Arguments of `vsprintf` have the types the format takes them with, `%s` arguments are readable as far as they are
  read, and the buffer holds the output and its NUL.

## Model

| member | source | states |
|---|---|---|
| Digits.EvalOfDigits | stage5/printf.c:100-104 | The digits of any number in any base 2 to 16, evaluated in that base, give the number back |
| Digits.NoLeadingZero | stage5/printf.c:100-104 | A positive number's digits do not begin with a zero, in any base |
| Digits.DigitCountBound | stage5/printf.c:67-67 | A number below 2^k has at most k digits in any base: why 66 bytes of scratch are enough |
| Numbers.ScratchDigits | stage5/printf.c:99-104 | The scratch buffer ends up with the digits in reverse; never more of them than `long` has bits |
| Numbers.TakeSignAndPrefix | stage5/printf.c:79-98 | The sign character, the unsigned magnitude left to print (the least `long` included), and the width less sign and prefix |
| Numbers.PadWhileAbove | stage5/printf.c:122-129 | A decrementing loop writes exactly the difference of its counters, and leaves the counter one below the limit or where it was less one, which later loops rely on |
| Numbers.EmitFront | stage5/printf.c:108-123 | Padding, sign, prefix and zero padding are written, and the counter is negative afterwards unless LEFT is set |
| Numbers.EmitNumber | stage5/printf.c:108-130 | The writing half emits exactly the text of the pieces and touches nothing after it |
| Numbers.PiecesAreLayout | stage5/printf.c:105-129 | What the counting loops emit is the declarative layout: zeros up to the precision, padding up to the width in one place |
| Numbers.Number | stage5/printf.c:61-131 | For every long, base, size, precision and flags the buffer is extended by exactly NumberText, or None is returned for a bad base with nothing written |
| NumberReading.NumberShape | stage5/printf.c:105-130 | The text is spaces, sign, prefix, zeros, digits, spaces; at most one of the three width paddings is there, and which one is decided by LEFT and ZEROPAD |
| NumberReading.NumberLength | stage5/printf.c:105-130 | The length is the larger of the size and sign + prefix + max(digits, precision) |
| NumberReading.NumberReadsBack | stage5/printf.c:61-131 | A reader that strips padding, sign and prefix recovers the number, or its unsigned value when SIGN is clear, for every long including the least |
| NumberReading.NumberInjective | stage5/printf.c:61-131 | With base, size, precision and flags fixed, equal texts come from equal numbers |
| Vsprintf.AtoiStep | stage5/printf.c:43-43 | One round of the loop in wrapping 32-bit arithmetic computes the wrapped value of one more digit |
| Vsprintf.SkipAtoi | stage5/printf.c:38-45 | The result is the wrapped value of the longest run of digits, and the cursor stops right after it, never past the NUL |
| FormatLaws.SkipAtoiUndoesNumber | stage5/printf.c:38-45 | What number() prints in base 10 is read back, for every value an int holds, every precision and whatever follows it, if and only if the width has not padded it |
| Vsprintf.Strnlen | stage5/printf.c:22-31 | The smaller of the limit and the index of the first NUL |
| Vsprintf.ScanFlagChars | stage5/printf.c:154-174 | The goto loop collects the flags of the longest run of flag characters and stops on the first other one or the NUL |
| Vsprintf.ReadWidth | stage5/printf.c:176-188 | Width, flags, argument cursor and format cursor are those of the specification; a negative `*` sets LEFT |
| Vsprintf.ReadPrecision | stage5/printf.c:190-203 | Likewise for the precision: missing or negative after the dot is 0, no dot is -1 |
| Vsprintf.ReadQualifier | stage5/printf.c:205-210 | Likewise for the qualifier |
| Vsprintf.PadPreDecrement | stage5/printf.c:217-222 | The pre-decrementing loop writes one blank less than its counter and leaves it at 0 or below |
| Vsprintf.PutCharacter | stage5/printf.c:216-223 | `%c` writes the character padded on the side LEFT tells, to the width exactly |
| Vsprintf.PutString | stage5/printf.c:225-236 | `%s` writes the string up to its NUL or the precision, padded likewise; a missing precision is no limit |
| Vsprintf.IntegerArgument | stage5/printf.c:287-296 | The unsigned long passed on denotes the argument after the conversions of h, l and signedness |
| Vsprintf.ConvertInteger | stage5/printf.c:262-297 | The six integer conversions write the text that FormatReading.IntegerReadsBack reads back into the argument |
| Vsprintf.Convert | stage5/printf.c:215-297 | Each conversion writes exactly its chunk of text, makes exactly its stores and takes exactly its arguments |
| Vsprintf.FormatDirective | stage5/printf.c:154-297 | One directive: text, stores and arguments are the specification's, the cursor stays in front of the NUL even when the directive is cut short, and what is left of the format is what the scanner leaves |
| Vsprintf.FormatItem | stage5/printf.c:148-298 | One turn of the loop, literal or directive, with net progress of the cursor |
| Vsprintf.Vsprintf | stage5/printf.c:133-301 | For every NUL-terminated format, every matching argument list and a large enough buffer: the buffer holds exactly the rendered output and a NUL, the length is returned, every `%n` stores the length so far, nothing beyond the NUL changes, and no character after the format's NUL is read |
| Directive.FlagsAreASet | stage5/printf.c:154-174 | Flags in any order and with any repetition set exactly the bits that are mentioned |
| Directive.DirectiveReadsBack | stage5/printf.c:154-210 | Any directive spelled from flags, width, precision, qualifier and conversion is scanned to exactly these, and the scanner stops right after the conversion character |
| FormatReading.ArgumentIsCValue | stage5/printf.c:287-296 | What number() is handed stands for the argument's value in C: congruent to it modulo the width of its type (16 bits for h, those of long for l, else 32), and in the signed or the unsigned range |
| FormatReading.IntegerReadsBack | stage5/printf.c:262-297 | What any of the six integer conversions prints, read in base 8 for o, 16 for x and X and 10 for d, i and u, is that value, signed for d and i alone; x prints no capital letter and X no small one |
| FormatReading.PrintedIntegerReadsBack | stage5/printf.c:154-297 | So it is for every directive that the scanner finds in a format, whatever its flags, width, precision and qualifier, `*` included |
| FormatReading.PointerReadsBack | stage5/printf.c:238-246 | `%p` reads back in base 16 as the pointer, and without a width the text has at least two characters for each of its bytes |
| FormatReading.SignAndPrefixPrinted | stage5/printf.c:79-98 | A minus is in the text if and only if a signed number is negative, a plus if and only if it is not and PLUS is set, and an x or X if and only if SPECIAL is set in base 16 and SMALL is or is not |
| FormatReading.BlankAndZeroPrinted | stage5/printf.c:86-121 | SPACE without PLUS puts a blank in front of a number that is not negative; SPECIAL in base 8 puts a zero right in front of the digits |
| FormatReading.JustifyFills | stage5/printf.c:216-236 | The result is as long as the larger of text and width, begins or ends with the text as LEFT tells, and is blank elsewhere |
| FormatReading.StringTextIsPrefix | stage5/printf.c:225-230 | What is printed of a string is a part of its beginning without a NUL, ended only by the precision, the NUL or the end |
| FormatReading.StarWidthIsSpelled | stage5/printf.c:179-188 | A `*` width prints the same as the absolute value of its argument spelled out, with a '-' flag if it was negative (the least int, which has none, aside) |
| FormatReading.StarPrecisionIsSpelled | stage5/printf.c:195-203 | A `*` precision prints the same as its argument spelled out, or 0 if it was negative |
| FormatReading.StoresLengthSoFar | stage5/printf.c:248-256 | `%n` or `%ln` after any format stores the length of the text that the format prints, as int or long, and prints nothing |
| FormatReading.UnknownPrintsItself | stage5/printf.c:279-286 | A character that is no conversion is printed with its '%'; a '%' at the end of the format alone |
| FormatLaws.ParseAppend | stage5/printf.c:148-286 | If the first format ends on a directive boundary, parsing the concatenation is the concatenation of the parses |
| FormatLaws.ParseDistributesIffComplete | stage5/printf.c:279-286 | Parsing distributes over concatenation exactly for the formats no directive of which is cut short |
| FormatLaws.RenderSameArgs | stage5/printf.c:176-297 | Output depends on the arguments that are consumed and on no others |
| FormatLaws.RenderShift | stage5/printf.c:248-256 | Starting later in the buffer changes nothing but the `%n` counts, by exactly that much |
| FormatLaws.FormatHomomorphism | stage5/printf.c:148-301 | Formatting f followed by g is formatting both and concatenating, with the `%n` values of g shifted by the length of the first output |
| FormatLaws.QuotePrintsItself | stage5/printf.c:258-260 | Any string with every percent sign doubled prints itself, with no arguments and no stores |
| Chs.LbaRoundTrip | shared/floppy_read.h:34-37 | Every linear sector number has an address in range, and the address leads back to it |
| Chs.AddressRoundTrip | shared/floppy_read.h:34-37 | Every address in range comes from its linear number: with the row above, a bijection |
| CopyKernel.LocateSector | stage1/boot.c:15-23 | stage 1 computes the same address from an 8-bit index as the loader does, or the fallback when there is no geometry |
| CopyKernel.FallbackAgrees | stage1/boot.c:15-23 | Without a geometry the address is right if and only if the index lies on the first track |
| CopyKernel.CxDecodes | stage1/boot.c:31-31 | CX decodes to the same cylinder and sector if and only if they have 10 and 6 bits |
| CopyKernel.RegistersDecode | stage1/boot.c:28-32 | In every request the BIOS finds function 2, the count and the destination; it finds cylinder, head, sector and drive in CX and DX if and only if the sector has 6 bits |
| CopyKernel.RequestAsksForAddress | stage1/boot.c:28-32 | The BIOS takes the very address out of the registers if and only if the sector has 6 bits |
| CopyKernel.AttemptsFind | stage1/boot.c:15-34 | On a disk of at most 63 sectors a track whose geometry is known, or on whose first track the index lies, every read asks for the address whose linear number is the index |
| CopyKernel.AttemptsRead | stage1/boot.c:25-34 | Every request after a reset is function 2, read sectors, with the count, the drive and the destination that were asked for |
| CopyKernel.CopyKernel | stage1/boot.c:10-40 | The BIOS sees one to three identical attempts, a reset and a read each; all but the last failed, and fewer than three means the last succeeded; each read is function 2 with the count, drive and destination given; under the condition of the row above every read finds the index |
| Fdc.ChecksAreExact | shared/floppy_impl.h:124-152 | Each of the three checks passes a byte if and only if the bits 0xC8, 0x37 and 0x33 of ST0, ST1 and ST2 are clear |
| Fdc.ChecksPassIff | shared/floppy_impl.h:124-152 | The three checks pass a result if and only if the status registers report a normal end |
| Fdc.WriteCommand | shared/floppy_impl.h:189-206 | Every proper prefix of a command whose size matches its opcode keeps the controller in the command phase, and the whole command completes it |
| FloppyDriver.Controller.SendCommandByte | shared/floppy_impl.h:174-187 | Either the byte is written, right after a status with mrq set, or nothing is written, the phase is unchanged and a thousand looks in a row have shown mrq clear |
| FloppyDriver.Controller.SendBytes | shared/floppy_impl.h:194-202 | The loop: bytes go out in order, each right after a status with mrq set; from Idle with a matching size the controller is exactly as far into the command as bytes were written, and in a prompt environment all are |
| FloppyDriver.Controller.SendCommand | shared/floppy_impl.h:189-206 | For every status stream, one the controller cannot show included: a prefix of the command is written in order, all of it when there is no error, each byte right after a status with mrq set; the first look ends the call if and only if it shows mrq clear or dataio set. Where the status is the controller's own: with a result pending or an execution going on nothing is written; from Idle with a matching size no byte ever goes into the execution or result phase, and in a prompt environment there is no error |
| FloppyDriver.Controller.ReadData | shared/floppy_impl.h:164-172 | Either the next result byte is taken, or 0xFF is returned with nothing taken after a thousand looks in a row without mrq |
| FloppyDriver.Controller.GenRes | shared/floppy_impl.h:215-234 | Success: the status registers report a normal end (by their bits, see Fdc.ChecksPassIff) and the bytes were taken in order, seven less one for each of the last four reads that gave up, and idle if none did. Failure: at least four bytes stay behind, and without a timeout the status really was bad |
| FloppyIrq.Driver.CheckInterrupt | shared/floppy_impl.h:453-466 | With a result or an execution pending nothing is written and an error is returned; from Idle only the sense command is written, and no error without a timeout means that the whole answer was taken |
| FloppyIrq.Driver.InterruptHandler | shared/floppy.h:198-212 | A prepared interrupt only sets the flag to 1 and touches the controller not at all; otherwise the flag tells whether sensing went well |
| FloppyIrq.Driver.WaitIrq | shared/floppy.h:220-228 | The flag consumed was non-zero and is zero afterwards; no error exactly when it was 1; completed waits never exceed interrupts |
| FloppyCopy.ReadCommandFinds | shared/floppy_impl.h:293-313 | The nine bytes are a read-data command, and the controller, which reads for no other, finds in them the very sector the linear number stands for |
| FloppyCopy.UnitSelects | shared/floppy_impl.h:303-304 | The second byte of a command has the drive in its two low bits and the head above them |
| FloppyCopy.SeekHead | shared/floppy_impl.h:502-512 | Exactly the first bytes of the seek command are written, all of them on success, which leaves the controller idle and the head on the track of the address; with a result pending nothing is sent |
| FloppyCopy.ReadSector | shared/floppy_impl.h:293-321 | From Idle, success means that exactly the read command was written, by which alone the device delivers a sector, and the buffer holds the one asked for; a bad result is left pending |
| FloppyCopy.CopyBlock | shared/floppy_read.h:34-75 | One turn: the destination holds the sector's first bytes, and nothing else outside the transfer buffer has changed; after any failure not even those |
| FloppyCopy.TurnProgresses | shared/floppy_read.h:66-82 | A turn as CopyBlock promises it extends what has been copied by one block, or stops with exactly the blocks done |
| FloppyCopy.CopyBytes | shared/floppy_read.h:30-85 | Success if and only if every block was copied; an error in turn k leaves exactly the first k blocks, each byte the disk's; nothing else outside the buffer changes. The controller is sent the seek and the read of each sector in order and nothing else; with a result pending nothing is sent or changed. From Idle in a prompt environment it succeeds if and only if the disk has all the sectors |
| FloppyCopy.LoadedIsSlice | shared/floppy_read.h:80-82 | Without wrap-around of the sector number what is loaded is one slice of the disk |
| FloppyCopy.SliceIffNoWrap | shared/floppy_read.h:82-82 | It is that slice for every disk if and only if sector + ceil(count / 512) is at most 256 |
| LoadProtected.ResetBss | loader_protected/load.c:23-26 | Exactly the bytes from start to end become zero |
| LoadProtected.Load | loader_protected/load.c:30-39 | In the linker's layout and after good reads both stages equal their disk images and the bss is zero, no load clobbering an earlier one; nothing is written but the two stages, the bss and the transfer buffer; waits that are over since the call began never exceed the interrupts that came since then, so that none ends on a flag from before; if both loads succeed, stage 5 ending by sector 255 is enough for both images; after a bad result for stage 4 nothing is written for stage 5. In a prompt environment both loads succeed if and only if the disk has their sectors |
| LoadProtected.BssHoldsEmptyTables | loader_protected/load.c:37-37 | Page tables in the cleared bss are empty |
| LoadProtected.BootedPagingIsIdentity | stage4/paging.c:25-42 | From the cleared bss alone, setup_paging's tables translate an address exactly when it lies below 1 GiB, to itself |
| HandshakeInvariant.KeepsSync | shared/floppy_impl.h:189-321 | Every step of the main line, the handler and the controller keeps pending interrupts, flags and controller in step with the program counter |
| HandshakeInvariant.KeepsProgress | shared/floppy_read.h:66-82 | Every step keeps: the bytes copied so far are the disk's, and there are as many as the counters say |
| HandshakeInvariant.KeepsCount | shared/floppy.h:198-228 | Every step keeps: waits, and one more while the flag is up, do not exceed interrupts |
| HandshakeInvariant.KeepsInv | shared/floppy_read.h:30-85 | The whole invariant is inductive, for every variant that prepares |
| HandshakeRuns.RunKeepsInv | shared/floppy_read.h:30-85 | It holds in every state of every run |
| HandshakeHandler.KeepsKeptOut | shared/floppy.h:198-218 | Every step of every variant that prepares keeps the handler out, whether the bytes sent are understood or lost on an earlier read |
| HandshakeHandler.HandlerNeverCutsIn | shared/floppy.h:198-218 | In no interleaving does the handler write the FIFO between two bytes of a main-line command or while the controller is in the middle of one, from any state in which the controller was not left in the middle of a seek |
| HandshakeRuns.CopyStartsAfterExecution | shared/floppy_read.h:63-71 | Whenever bytes are copied this turn's read has left the execution phase with a good result, and the buffer holds this turn's sector |
| HandshakeRuns.RunCopiesSlice | shared/floppy_read.h:30-85 | In every interleaving, at every moment, what has been copied is right; at a successful end it is the slice that was asked for, and at a failure exactly the blocks done |
| HandshakeRuns.WaitsNeverExceedInterrupts | shared/floppy.h:220-228 | In every run of every variant, from any state in which it is so, completed waits since fpy_setup_idt, and one more while the flag is non-zero, never exceed interrupts delivered |
| HandshakeRuns.RunKeepsFlagSync | shared/floppy.h:195-228 | In every run of the source the flag, the wait and the result stay in step, whatever an earlier call left in the flag |
| HandshakeRuns.ResultIsThereToRead | shared/floppy_impl.h:203-204 | With the preparation and the last loop on mrq fpy_read_data only looks while a result is there |
| HandshakeRuns.WaitVerdict | shared/floppy.h:222-227 | The verdict is no error if and only if the flag was 1 when it was compared; it disagrees with the flag about to be cleared if and only if an interrupt after the comparison has changed the flag |
| HandshakeRuns.TurnEndsClean | shared/floppy_read.h:63-82 | A successful turn ends with the handler handling again and nothing pending; the flag is 0 if and only if the read's interrupt was in before the wait cleared it, and the controller is idle if and only if no read of the result gave up |
| HandshakeRuns.BadResultIsLeftBehind | shared/floppy_impl.h:217-228 | A turn that fails on its result leaves the controller in the result phase |
| HandshakeRuns.FirstLookDecides | shared/floppy_impl.h:191-193 | The first look of a command ends the call if and only if the controller is not ready for a byte: mrq is clear, or it is executing or has a result |
| HandshakeRuns.PendingResultBlocks | shared/floppy_impl.h:191-193 | With a result pending, no run of a later call sends, takes or copies anything, whatever interrupts come |
| HandshakeSessions.FailedLoadBlocksTheNext | loader_protected/load.c:33-36 | When stage 4's load fails on a result, stage 5's copies nothing, in every interleaving of both |
| HandshakeSessions.NextCallIsReady | loader_protected/load.c:32-36 | After a call has ended the next one is ready if and only if this one was not cut in a seek, nor in a read with more than three bytes missing; after a success it always is |
| HandshakeSessions.NextCallIsSteady | loader_protected/load.c:32-36 | After a call has ended the handler keeps out of the next one, as above, if this one was not cut in a seek, and that is the exact condition for the next to start steady |
| HandshakeSessions.EveryCallIsReady | loader_protected/load.c:32-36 | In any number of calls that follow each other a call starts ready, so that the rows above hold of it, if none before it was cut in a seek or in a read with more than three bytes missing |
| HandshakeSessions.EveryCallIsSteady | loader_protected/load.c:32-36 | The handler keeps out of a call if none before it was cut in a seek |
| HandshakeSessions.EveryCallIsCounted | loader_protected/load.c:32-36 | The count of waits holds in every call, whatever the calls before it left |
| HandshakeSessions.BothLoadsGoRight | loader_protected/load.c:32-36 | load_protected, in every interleaving of both calls: the first goes right; no wait of the second goes without an interrupt; the handler keeps out of it unless the first was cut in a seek; what it copies is right, and the slice on success, unless the first was cut in a seek or in a read with more than three bytes missing; a result the first left makes it copy nothing |
| HandshakeLeftovers.RunToCut | shared/floppy_impl.h:174-201 | A call can be cut short after any number of bytes of its seek or its read, and leaves the controller exactly that far in the command |
| HandshakeLeftovers.MisledCall | shared/floppy_impl.h:189-206 | If the bytes of a seek and a read make a controller that was left in a command execute some other command, the call can succeed with the first byte of what that one leaves in the buffer |
| HandshakeLeftovers.TrapCloses | loader_protected/load.c:33-36 | For each place in a seek, and after the third and the fourth byte of a read, there are two loads from one disk of which the first is cut short there and the second succeeds with a wrong byte |
| HandshakeLeftovers.GoesWrongIff | loader_protected/load.c:33-36 | After a load that was cut short, the next can succeed with wrong bytes if and only if it was cut in a seek, or in a read with five or six bytes missing, over all disks, geometries, loads and interleavings |
| HandshakeMisread.MisreadCopiesNothing | shared/floppy_impl.h:189-321 | After a cut in a read with more than three bytes missing, if the command that the next seek and read complete is a read no sector answers, the next call copies nothing and does not succeed, in every interleaving |
| HandshakeLeftovers.CutsInIff | shared/floppy.h:198-212 | After a load that was cut short, the handler can cut into a command of the next if and only if it was cut in a seek |
| HandshakeWitnesses.WithoutPrepareHandlerCutsIn | shared/floppy_impl.h:314-315 | Without fpy_prepare_irq_no_handle there is a run in which a late seek interrupt is sensed in the middle of the read command |
| HandshakeWitnesses.SafetyRestsOnPrepare | shared/floppy_impl.h:314-318 | The handler keeps out in all runs, from every state in which the controller was not left in a seek, if and only if that call is made, with or without the wait and the last loop on mrq |
| HandshakeWitnesses.LooksDuringExecution | shared/floppy_impl.h:203-204 | Without the last loop on mrq there is a run in which fpy_read_data looks while the read executes, the wait being over with the seek's interrupt |
| HandshakeWitnesses.ResultRestsOnFinalWait | shared/floppy_impl.h:203-204 | With the preparation a result is there at every look of fpy_read_data, in all runs, if and only if the last loop on mrq is made |
| HandshakeWitnesses.VerdictMayMissAMessage | shared/floppy.h:222-227 | There is a run in which the wait returns no error and clears an error message |
| HandshakeWitnesses.GivingUpGoesUnnoticed | shared/floppy_impl.h:229-233 | From the fourth result byte on, a run in which every read gives up goes on to the copy |
| HandshakeWitnesses.SuccessMayLeaveResult | shared/floppy_impl.h:215-234 | There is a run of fpy_copy_bytes that succeeds with four result bytes still in the controller |
| HandshakeCommands.RunSendsInOrder | shared/floppy_read.h:34-65 | In every run of every variant the main line sends the seek and the read of each sector in order and nothing else; of a turn that fails, some first bytes |
| HandshakeCommands.MethodAndStepsAgree | shared/floppy_read.h:30-85 | What the method CopyBytes ensures of a success and any successful run of the steps have the same bytes at the destination and the same bytes sent |
| HandshakeCommands.FailuresAgree | shared/floppy_read.h:30-85 | So do a failure of the method and a run that fails after the same number of blocks; both have sent the commands of these blocks and some first bytes of the next turn's |
| Paging.FillTables | stage4/paging.c:25-42 | The loop and the two links leave exactly the entries meant, and every other word as it was |
| Paging.SetupPaging | stage4/paging.c:20-42 | The tables are built wherever the linker puts them, page-aligned and apart, and nothing else changes |
| Paging.FirstGibIdentity | stage4/paging.c:25-42 | The processor's walk maps every address below 1 GiB to itself, present, writable, supervisor only |
| Paging.RestFaults | stage4/paging.c:15-18 | When the other upper entries are absent, every other canonical address faults |
| Paging.PagingIsIdentity | stage4/paging.c:25-42 | After setup_paging on zeroed tables both hold, for every canonical address |
| Gdt.UnpackField | shared/gdt.h:6-25 | Any field of any packed bit-field struct is read back from its offset |
| Gdt.DecodeOfFields | shared/gdt.h:6-25 | The processor's decoder finds every field of the struct where the compiler packs it |
| Gdt.Descriptor.SegmentCreate | stage2/gdt.c:35-61 | The descriptor decodes to the very base, to the limit (exactly up to 0xFFFF, else with its low 12 bits set), and to the rights set; what is not assigned stays |
| Gdt.LimitRounding | stage2/gdt.c:38-46 | The limit granted is never below the request, at most 4095 above, and equal if and only if it fits or ends in 0xFFF |
| IdtStub.TableMatchesProcessor | shared/idt.h:15-51 | The table expects an error code for exactly the vectors on which the processor pushes one |
| IdtStub.Cpu.StackIsInfos | shared/idt_32.h:9-19 | The saved words, read from the saved edi upwards, are struct int_infos |
| IdtStub.Cpu.Interrupt | shared/idt_handlers32.S:5-31 | For every vector, stack and handler that leaves the frame alone: the handler's argument points at matching int_infos, and after iret every register, the flags and the stack pointer are the interrupted ones; every word the handler writes is in memory, and every other one outside the 13 words below the old stack pointer is as it was |

## Left out

- Numbers.Number: `size` and `precision` are unbounded integers here; the source is described as long as its `int` arithmetic on them does not overflow.
- Vsprintf.Vsprintf: the output is shorter than 2^31 bytes in the source, which the model does not ask for; a `%n` store keeps the whole count, and the buffer does not overlap the format, the arguments or the targets.
- The flags word is a record of its seven bits, and or-ing in 0x20 is modelled on characters.
- FloppyDriver.Controller.SendCommand: the source's loops on mrq may run for ever; the model gives up after `patience` looks, any number of them, and says so in its result.
- FloppyDriver.Controller.GenRes: "exactly seven bytes" is false of the code; see the exact condition in its row.
- FloppyCopy.CopyBytes: interrupts arrive here only while the driver waits; all other interleavings are those of `Handshake`. From the middle of a command that an earlier call left unfinished only the frame is promised.
- HandshakeLeftovers.GoesWrongIff: the geometry is any the driver can be given, not only a floppy's; of a read the controller goes by opcode, density, cylinder, head, sector, sector size and last sector, not by the unit, multi-track, gap and data-length bytes, and any other command may report success.
- FloppyIrq.Driver.CheckInterrupt: promises nothing about the controller in the middle of a command.
- The controller does not look at the drive and head a command's second byte selects (`FloppyCopy.UnitSelects` says which they are).
- FloppyCopy.SeekHead: a read is not tied to the track the head is on, because implied seeks are enabled.
- IdtStub.Cpu.Interrupt: memory is a map from word addresses to words; accesses that overlap at unaligned addresses are not modelled.
- The 82077AA refuses a command that follows a seek without sensing its interrupt; the automaton does not.
- Intel's reserved address bits above MAXPHYADDR, caching and global bits, and execute-disable being on.
- Interrupts that change the privilege level, and the 64-bit interrupt stubs.
- The 0x300-byte count and auto-init mode of the DMA channel, motor, delays and timeouts of the drive.
- Format, write, deleted-sector, read-track, read-ID, calibrate, configure, version and lock commands.
- `printf` and `sprintf` around `vsprintf`, and `printf`'s 1024-byte buffer.
- BIOS services other than reset and read, A20, cpuid, memory map, PIT, PIC masking, serial port, screen, progress bar, hexdump, mode switches and control registers, and the decoding of the cylinder count.
