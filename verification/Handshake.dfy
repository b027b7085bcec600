/**
  fpy_copy_bytes() and the interrupt handler, interleaved at every port access and every access to the two
  shared flags. The main line is a program counter over the source's loops; the handler runs atomically between
  two steps; the controller finishes executions when it likes.

  The environment is bound by what follows: one interrupt per seek and per read; a seek's interrupt arrives before
  the last byte of the next read command is accepted; a read's interrupt arrives before its first result byte is
  taken.
 */
module Handshake {
  import opened CInt
  import opened Chs
  import opened Fdc
  import opened FloppyDriver
  import opened FloppyIrq
  import opened FloppyCopy

  datatype Which = SeekCmd | ReadCmd

  /** Where the main line is.
      Check: fpy_send_command's first look; Poll: its loop on mrq before byte `i`; Try: fpy_send_command_byte's
      looks; Put: about to write byte `i`; Final: the loop on mrq after the last byte; Prepare: about to call
      fpy_prepare_irq_no_handle; Spin, Compare, Fetch, Clear: fpy_wait_irq; Data: fpy_read_data's looks for result
      byte `j`; Take: about to read it; Copy: about to copy byte `i` of the block. */
  datatype Pc =
    | LoopHead
    | Check(cmd: Which)
    | Poll(cmd: Which, i: nat)
    | Try(cmd: Which, i: nat, tries: nat)
    | Put(cmd: Which, i: nat)
    | Final(cmd: Which)
    | Prepare
    | Spin
    | Compare
    | Fetch
    | Clear
    | Data(j: nat, tries: nat)
    | Take(j: nat)
    | Copy(i: nat)
    | Ended(ok: bool)

  /** The source has all three; a variant may drop the preparation, the last mrq loop or the wait. */
  datatype Variant = Variant(prepare: bool, finalWait: bool, waitIrq: bool)

  const SOURCE := Variant(true, true, true)

  datatype Config = Config(disk: seq<byte>, g: Geometry, drive: byte, sector: byte, count: int) {
    predicate Valid() { g.Valid() && g.heads < 256 && g.sectors < 256 }
  }

  /** The controller, its pending interrupts, the transfer buffer, and the last result: how many of its bytes were
      taken, and how many times fpy_read_data gave up on one. */
  datatype Device = Device(phase: Phase, seekPending: bool, readPending: bool, buffer: seq<byte>,
                           result: seq<byte>, taken: nat, missed: nat)

  /** The shared flags; what fpy_wait_irq saw when it compared the flag, whether an interrupt came after that, its
      verdict, and whether the read's interrupt was still to come when it cleared the flag; and the counts since
      fpy_setup_idt. */
  datatype Flags = Flags(noHandle: bool, received: Received, seen: Received, disturbed: bool, verdict: Verdict,
                         late: bool, interrupts: nat, waits: nat)

  /** Blocks done, bytes copied, and command bytes sent. */
  datatype Job = Job(blocks: nat, out: seq<byte>, sent: seq<byte>)

  const NO_JOB := Job(0, [], [])

  datatype State = State(pc: Pc, dev: Device, irq: Flags, job: Job)

  /** `left` of the source's `count`, and its `sector`, in block `blocks`. */
  function Left(c: Config, s: State): int { c.count - SECTOR_SIZE * s.job.blocks }

  function Sector(c: Config, s: State): byte { (c.sector + s.job.blocks) % 256 }

  function CommandBytes(c: Config, s: State, cmd: Which): (bs: seq<byte>)
    requires c.Valid()
    ensures |bs| == Length(cmd)
  {
    AddressFitsBytes(Sector(c, s), c.g);
    var a := AddressOf(Sector(c, s), c.g);
    if cmd == SeekCmd then SeekCommand(c.drive, a) else ReadCommand(c.drive, a, c.g.sectors)
  }

  function Length(cmd: Which): nat { if cmd == SeekCmd then 3 else 9 }

  /** One step: of the main line, with what the environment shows it; the delivery of an interrupt, with what
      sensing it did; the end of an execution. */
  datatype Step =
    | Main(ready: bool, answer: Answer)
    | Deliver(seek: bool, phase: Phase, wrote: bool, ok: bool)
    | Finish(result: seq<byte>, buffer: seq<byte>)

  ghost predicate PcFits(pc: Pc)
  {
    match pc
    case Poll(cmd, i) => i < Length(cmd)
    case Try(cmd, i, tries) => i < Length(cmd) && tries < TRIES
    case Put(cmd, i) => i < Length(cmd)
    case Data(j, tries) => j < 7 && tries < TRIES
    case Take(j) => j < 7
    case Copy(i) => i < SECTOR_SIZE
    case _ => true
  }

  ghost predicate Enabled(c: Config, s: State, step: Step)
  {
    match step
    case Main(_, _) =>
      && PcFits(s.pc) && !s.pc.Ended? && WellFormed(s.dev.phase) && |s.dev.buffer| >= SECTOR_SIZE
      && (s.pc == Put(ReadCmd, 8) ==> !s.dev.seekPending)
      && (s.pc == Take(0) ==> !s.dev.readPending)
    case Deliver(seek, phase, wrote, ok) =>
      && (if seek then s.dev.seekPending else s.dev.readPending)
      && (if s.irq.noHandle then phase == s.dev.phase && !wrote && ok
          else Sensed(s.dev.phase, phase, wrote, if ok then NoError else Error))
      && WellFormed(phase)
    case Finish(result, buffer) =>
      && s.dev.phase.Execution? && |result| == 7 && |buffer| >= SECTOR_SIZE
      && (ReportsSuccess(result) && Reads(s.dev.phase.command) ==>
            var sector := SectorOf(c.disk, c.g, s.dev.phase.command); sector != [] && buffer[..SECTOR_SIZE] == sector)
      && (s.dev.phase.command != [] && MovesNothing(s.dev.phase.command[0]) ==> buffer == s.dev.buffer)
  }

  function Apply(v: Variant, c: Config, s: State, step: Step): State
    requires c.Valid() && Enabled(c, s, step)
  {
    match step
    case Main(ready, answer) => ApplyMain(v, c, s, ready, answer)
    case Deliver(seek, phase, wrote, ok) =>
      s.(dev := s.dev.(phase := phase, seekPending := if seek then false else s.dev.seekPending,
                       readPending := if seek then s.dev.readPending else false),
         irq := s.irq.(noHandle := false, received := if ok then One else Message, disturbed := true,
                       interrupts := s.irq.interrupts + 1))
    case Finish(result, buffer) =>
      s.(dev := s.dev.(phase := Result(result), buffer := buffer, result := result, taken := 0, missed := 0,
                       readPending := true))
  }

  function ApplyMain(v: Variant, c: Config, s: State, ready: bool, answer: Answer): State
    requires c.Valid() && Enabled(c, s, Main(ready, answer))
  {
    var m := Status(s.dev.phase, ready);
    match s.pc
    case Put(cmd, i) => ApplyPut(c, s, cmd, i, answer)
    case Prepare => s.(pc := Check(ReadCmd), irq := s.irq.(noHandle := v.prepare || s.irq.noHandle))
    case Spin => s.(pc := if s.irq.received == Nothing then Spin else Compare)
    case Compare =>
      var irq := s.irq.(seen := s.irq.received, disturbed := false);
      if s.irq.received == One then s.(pc := Clear, irq := irq.(verdict := NoError)) else s.(pc := Fetch, irq := irq)
    case Fetch => s.(pc := Clear, irq := s.irq.(verdict := Error))
    case Clear =>
      s.(pc := Data(0, 0),
         irq := s.irq.(received := Nothing, waits := s.irq.waits + 1, late := s.dev.readPending))
    case Data(j, tries) => ApplyData(s, m, j, tries)
    case Take(j) => ApplyTake(s, j)
    case Copy(i) => ApplyCopy(c, s, i)
    case _ => s.(pc := Look(v, c, s, m))
  }

  /** The steps that look at the loop condition or at the status, and go on or stay. */
  function Look(v: Variant, c: Config, s: State, m: Msr): Pc
  {
    match s.pc
    case LoopHead => if Left(c, s) > 0 then Check(SeekCmd) else Ended(true)
    case Check(cmd) => if !m.mrq || m.dataio then Ended(false) else Poll(cmd, 0)
    case Poll(cmd, i) => if m.mrq then Try(cmd, i, 0) else s.pc
    case Try(cmd, i, tries) =>
      if m.mrq then Put(cmd, i) else if tries + 1 < TRIES then Try(cmd, i, tries + 1) else Ended(false)
    case Final(cmd) =>
      if cmd == SeekCmd then (if m.mrq then Prepare else s.pc)
      else if m.mrq || !v.finalWait then (if v.waitIrq then Spin else Data(0, 0)) else s.pc
    case _ => s.pc
  }

  function ApplyPut(c: Config, s: State, cmd: Which, i: nat, answer: Answer): State
    requires c.Valid() && i < Length(cmd) && WellFormed(s.dev.phase)
  {
    var b, last := CommandBytes(c, s, cmd)[i], i + 1 == Length(cmd);
    s.(pc := if last then Final(cmd) else Poll(cmd, i + 1),
       dev := s.dev.(phase := Write(s.dev.phase, b, answer),
                     seekPending := s.dev.seekPending || CompletesSeek(s.dev.phase)),
       job := s.job.(sent := s.job.sent + [b]))
  }

  /** fpy_read_data's look at the status, the last of a thousand giving up. */
  function ApplyData(s: State, m: Msr, j: nat, tries: nat): State
  {
    if m.mrq then s.(pc := Take(j))
    else if tries + 1 < TRIES then s.(pc := Data(j, tries + 1))
    else s.(pc := NextByte(j, 0xFF), dev := s.dev.(missed := s.dev.missed + 1))
  }

  /** The data register read: a result byte, or a byte of no meaning when there is no result. */
  function ApplyTake(s: State, j: nat): State
    requires WellFormed(s.dev.phase)
  {
    if s.dev.phase.Result? then
      s.(pc := NextByte(j, s.dev.phase.bytes[0]), dev := s.dev.(phase := Read(s.dev.phase), taken := s.dev.taken + 1))
    else s.(pc := NextByte(j, 0xFF))
  }

  /** fpy_cmd_gen_res with byte `j` in hand: the first three are checked. */
  function NextByte(j: nat, b: byte): Pc
  {
    var ok := (j == 0 ==> St0Ok(b)) && (j == 1 ==> St1Ok(b)) && (j == 2 ==> St2Ok(b));
    if !ok then Ended(false) else if j < 6 then Data(j + 1, 0) else Copy(0)
  }

  /** One byte of the copy loop, and the end of the turn after the last one. */
  function ApplyCopy(c: Config, s: State, i: nat): State
    requires i < |s.dev.buffer|
  {
    var out := s.job.out + [s.dev.buffer[i]];
    if i + 1 < SECTOR_SIZE && i + 1 < Left(c, s) then s.(pc := Copy(i + 1), job := s.job.(out := out))
    else s.(pc := LoopHead, job := Job(s.job.blocks + 1, out, s.job.sent))
  }

  predicate Rested(p: Phase) { p.Idle? || p.Result? }

  /** A command that executes has been begun; for the driver, a read. */
  predicate InRead(p: Phase) { p.Command? && p.received != [] && Executes(p.received[0]) }

  /** And at most `n` of its bytes are missing. */
  predicate Begun(p: Phase, n: int) { InRead(p) && p.left <= n }

  /** No interrupt that is pending would make the handler write to the FIFO. */
  predicate Harmless(s: State)
  {
    s.dev.phase.Result? || (!s.dev.readPending && (s.dev.seekPending ==> s.irq.noHandle))
  }

  /** Every wait consumed an interrupt of its own, and a flag that is up stands for one more. */
  predicate Counted(s: State)
  {
    && s.irq.waits + (if s.irq.received == Nothing then 0 else 1) <= s.irq.interrupts
    && (s.pc.Compare? || s.pc.Fetch? || s.pc.Clear? ==> s.irq.received != Nothing)
  }

  /** A call may begin: the controller is between commands, or in a read that the three bytes of the seek will
      complete. The flag may be up, the next interrupt prepared for, and interrupts and waits counted, whatever
      earlier calls have left. */
  predicate Ready(s: State)
  {
    && s.pc == LoopHead && s.job == NO_JOB && Counted(s)
    && WellFormed(s.dev.phase) && (Rested(s.dev.phase) || Begun(s.dev.phase, 3))
    && |s.dev.buffer| >= SECTOR_SIZE && Harmless(s)
  }

  /** At least the handler will keep out: the controller is in the middle of no command, or of one that executes. */
  predicate Steady(s: State)
  {
    && s.pc == LoopHead && WellFormed(s.dev.phase) && (s.dev.phase.Command? ==> InRead(s.dev.phase))
    && |s.dev.buffer| >= SECTOR_SIZE && Harmless(s)
  }

  /** The first call, right after fpy_setup_idt: an idle controller, and nothing pending, up or counted. */
  predicate Initial(s: State)
  {
    && s.pc == LoopHead && s.dev.phase == Idle && !s.dev.seekPending && !s.dev.readPending
    && !s.irq.noHandle && s.irq.received == Nothing && s.job == NO_JOB
    && |s.dev.buffer| >= SECTOR_SIZE && s.irq.interrupts == 0 && s.irq.waits == 0
  }

  /** A run: every step is enabled where it is taken. */
  ghost predicate Run(v: Variant, c: Config, s: State, steps: seq<Step>)
    requires c.Valid()
    decreases |steps|, 0
  {
    steps != [] ==>
      Run(v, c, s, steps[..|steps| - 1]) && Enabled(c, End(v, c, s, steps[..|steps| - 1]), steps[|steps| - 1])
  }

  ghost function End(v: Variant, c: Config, s: State, steps: seq<Step>): State
    requires c.Valid() && Run(v, c, s, steps)
    decreases |steps|, 1
  {
    if steps == [] then s else Apply(v, c, End(v, c, s, steps[..|steps| - 1]), steps[|steps| - 1])
  }

  /** Between the first and the last byte of a main-line command. */
  predicate MidCommand(pc: Pc)
  {
    (pc.Poll? || pc.Try? || pc.Put?) && pc.i >= 1
  }
}
