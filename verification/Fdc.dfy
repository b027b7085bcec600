/**
  The floppy disk controller (Intel 82077AA) as an automaton: command bytes in, execution, result bytes out.
  The main status register shows `dataio` exactly in the result phase, and never `mrq` during execution.
 */
module Fdc {
  import opened CInt

  datatype Phase =
    | Idle
    | Command(received: seq<byte>, left: nat)
    | Execution(command: seq<byte>)
    | Result(bytes: seq<byte>)

  datatype Msr = Msr(mrq: bool, dataio: bool)

  /** The status register in a phase, if the controller is `ready` to move a byte just now. */
  function Status(p: Phase, ready: bool): Msr
  {
    Msr(ready && !p.Execution?, p.Result?)
  }

  const READ_SECT: byte := 0x06
  const CHECK_INT: byte := 0x08
  const SEEK: byte := 0x0F

  /** How many bytes a command has, its opcode included; unknown opcodes are taken alone. */
  function CommandLength(opcode: byte): (n: nat)
    ensures n >= 1
  {
    match opcode % 0x20
    case 0x02 => 9
    case 0x03 => 3
    case 0x04 => 2
    case 0x05 => 9
    case 0x06 => 9
    case 0x07 => 2
    case 0x09 => 9
    case 0x0A => 2
    case 0x0C => 9
    case 0x0D => 6
    case 0x0F => 3
    case 0x13 => 4
    case _ => 1
  }

  /** Commands that move data or look for an ID: they execute, and end with seven result bytes. */
  predicate Executes(opcode: byte) { opcode % 0x20 in {0x02, 0x05, 0x06, 0x09, 0x0A, 0x0C, 0x0D} }

  /** Commands without result bytes: specify, recalibrate, seek, configure. */
  predicate Silent(opcode: byte) { opcode % 0x20 in {0x03, 0x07, 0x0F, 0x13} }

  /** Commands that move the head, and raise an interrupt without leaving a result: recalibrate and seek. */
  predicate MovesHead(opcode: byte) { opcode % 0x20 in {0x07, 0x0F} }

  /** Read data, in double density: bit 6 selects MFM, bits 7 and 5 (multi-track, skip) are free. */
  predicate ReadsData(opcode: byte) { opcode % 0x20 == 0x06 && (opcode / 0x40) % 2 == 1 }

  /** Of the commands that execute, write data, write deleted data, read ID and format move nothing to memory. */
  predicate MovesNothing(opcode: byte) { opcode % 0x20 in {0x05, 0x09, 0x0A, 0x0D} }

  /** A byte written in phase `p` is the last one of a command that moves the head. */
  predicate CompletesSeek(p: Phase)
    requires WellFormed(p)
  {
    p.Command? && p.left == 1 && MovesHead(p.received[0])
  }

  /** The track the head is on after byte `b`: the last byte of a seek says which, and a recalibration leads to 0. */
  function TrackAfter(track: byte, p: Phase, b: byte): byte
    requires WellFormed(p)
  {
    if !CompletesSeek(p) then track else if p.received[0] % 0x20 == 0x07 then 0 else b
  }

  /** The last byte of a command is in; `answer` is what the controller says to a command without execution. */
  function Complete(command: seq<byte>, answer: seq<byte>): Phase
    requires command != [] && answer != []
  {
    if Executes(command[0]) then Execution(command)
    else if Silent(command[0]) then Idle
    else Result(answer)
  }

  predicate Accepting(p: Phase) { p.Idle? || p.Command? }

  predicate WellFormed(p: Phase)
  {
    match p
    case Idle => true
    case Command(received, left) => received != [] && left >= 1 && |received| + left == CommandLength(received[0])
    case Execution(command) => command != [] && Executes(command[0]) && |command| == CommandLength(command[0])
    case Result(bytes) => bytes != []
  }

  /** A byte written to the FIFO; outside of the command phase it is lost. */
  function Write(p: Phase, b: byte, answer: seq<byte>): (r: Phase)
    requires WellFormed(p) && answer != []
    ensures WellFormed(r)
  {
    match p
    case Idle =>
      if CommandLength(b) == 1 then Complete([b], answer) else Command([b], CommandLength(b) - 1)
    case Command(received, left) =>
      if left == 1 then Complete(received + [b], answer) else Command(received + [b], left - 1)
    case _ => p
  }

  /** A byte read from the FIFO in the result phase. */
  function Read(p: Phase): (r: Phase)
    requires p.Result? && WellFormed(p)
    ensures WellFormed(r)
  {
    if |p.bytes| == 1 then Idle else Result(p.bytes[1..])
  }

  /** Writing the bytes of a command one after the other. */
  function WriteAll(p: Phase, bs: seq<byte>, answer: seq<byte>): (r: Phase)
    requires WellFormed(p) && answer != []
    ensures WellFormed(r)
  {
    if bs == [] then p else Write(WriteAll(p, bs[..|bs| - 1], answer), bs[|bs| - 1], answer)
  }

  /** From Idle, a proper prefix of a command of the right length keeps the controller in the command phase,
      and the whole command completes it. */
  lemma {:induction false} WriteCommand(cmd: seq<byte>, n: nat, answer: seq<byte>)
    requires cmd != [] && |cmd| == CommandLength(cmd[0]) && n <= |cmd| && answer != []
    ensures WriteAll(Idle, cmd[..n], answer)
         == if n == 0 then Idle else if n < |cmd| then Command(cmd[..n], |cmd| - n) else Complete(cmd, answer)
  {
    if n > 0 {
      WriteCommand(cmd, n - 1, answer);
      assert cmd[..n][..n - 1] == cmd[..n - 1];
      assert cmd[..n - 1] + [cmd[n - 1]] == cmd[..n];
      assert cmd[..|cmd|] == cmd;
    }
  }

  // ---------------------------------------------------------------- status bytes

  predicate Bit(b: byte, k: nat)
    requires k < 8
  {
    (b / [1, 2, 4, 8, 16, 32, 64, 128][k]) % 2 == 1
  }

  /** fpy_check_st0: the drive is ready and the command ended normally. */
  predicate St0Ok(st0: byte) { !Bit(st0, 3) && st0 / 64 == 0 }

  predicate St1Ok(st1: byte) { !Bit(st1, 5) && !Bit(st1, 4) && !Bit(st1, 2) && !Bit(st1, 1) && !Bit(st1, 0) }

  predicate St2Ok(st2: byte) { !Bit(st2, 5) && !Bit(st2, 4) && !Bit(st2, 1) && !Bit(st2, 0) }

  /** What fpy_read_data returns when it gives up fails each of the three checks. */
  lemma TimeoutFailsChecks()
    ensures !St0Ok(0xFF) && !St1Ok(0xFF) && !St2Ok(0xFF)
  {
  }

  /** What the controller reports when a command has ended normally: in ST0 the interrupt code 0 and no "not ready", in
      ST1 and ST2 none of the error bits (end of cylinder, bit 7 of ST1, is no error). */
  predicate NormalEnd(st0: bv8, st1: bv8, st2: bv8)
  {
    st0 & 0xC8 == 0 && st1 & 0x37 == 0 && st2 & 0x33 == 0
  }

  /** The interrupt code of an invalid command. */
  predicate InvalidCode(st0: bv8) { st0 & 0xC0 == 0x80 }

  /** Seven result bytes that report success. */
  predicate ReportsSuccess(bytes: seq<byte>)
  {
    |bytes| == 7 && NormalEnd(bytes[0] as bv8, bytes[1] as bv8, bytes[2] as bv8)
  }

  /** The driver's checks are about exactly the bits that the controller reports an error with. */
  lemma ChecksAreExact(b: byte)
    ensures St0Ok(b) <==> (b as bv8) & 0xC8 == 0
    ensures St1Ok(b) <==> (b as bv8) & 0x37 == 0
    ensures St2Ok(b) <==> (b as bv8) & 0x33 == 0
    ensures InvalidCode(b as bv8) ==> !St0Ok(b)
  {
    FirstCheckIsExact(b);
    SecondCheckIsExact(b);
    ThirdCheckIsExact(b);
  }

  lemma FirstCheckIsExact(b: byte)
    ensures St0Ok(b) <==> (b as bv8) & 0xC8 == 0
    ensures InvalidCode(b as bv8) ==> !St0Ok(b)
  {
  }

  lemma SecondCheckIsExact(b: byte)
    ensures St1Ok(b) <==> (b as bv8) & 0x37 == 0
  {
  }

  lemma ThirdCheckIsExact(b: byte)
    ensures St2Ok(b) <==> (b as bv8) & 0x33 == 0
  {
  }

  /** All three of them pass exactly on a result that reports success. */
  lemma ChecksPassIff(bytes: seq<byte>)
    requires |bytes| == 7
    ensures St0Ok(bytes[0]) && St1Ok(bytes[1]) && St2Ok(bytes[2]) <==> ReportsSuccess(bytes)
  {
    hide St0Ok, St1Ok, St2Ok;
    ChecksAreExact(bytes[0]);
    ChecksAreExact(bytes[1]);
    ChecksAreExact(bytes[2]);
  }
}
