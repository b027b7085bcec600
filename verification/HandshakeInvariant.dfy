/** What every reachable state of the interleaving satisfies, and that every step keeps it. */
module HandshakeInvariant {
  import opened CInt
  import opened Chs
  import opened Fdc
  import opened FloppyDriver
  import opened FloppyIrq
  import opened FloppyCopy
  import opened Handshake

  predicate Quiet(s: State) { !s.dev.seekPending && !s.dev.readPending && !s.irq.noHandle }

  /** The transfer buffer holds the sector this turn asks for. */
  predicate Holds(c: Config, s: State)
    requires c.Valid() && |s.dev.buffer| >= SECTOR_SIZE
  {
    var sector := SectorOf(c.disk, c.g, CommandBytes(c, s, ReadCmd));
    sector != [] && s.dev.buffer[..SECTOR_SIZE] == sector
  }

  /** The read command executes, or has left its seven result bytes untouched. */
  predicate Reading(c: Config, s: State)
    requires c.Valid() && |s.dev.buffer| >= SECTOR_SIZE
  {
    if s.dev.phase.Execution? then s.dev.phase.command == CommandBytes(c, s, ReadCmd) && !s.dev.readPending
    else
      && s.dev.phase == Result(s.dev.result) && |s.dev.result| == 7 && s.dev.taken == s.dev.missed == 0
      && (ReportsSuccess(s.dev.result) ==> Holds(c, s))
      && (s.dev.readPending || !s.irq.noHandle)
  }

  /** `j` result bytes have been asked for, and the first three were good. */
  predicate Draining(c: Config, s: State, j: nat)
    requires c.Valid() && |s.dev.buffer| >= SECTOR_SIZE
  {
    && Quiet(s) && |s.dev.result| == 7
    && s.dev.taken + s.dev.missed == j <= 7 && (if j <= 3 then s.dev.missed == 0 else 3 <= s.dev.taken)
    && s.dev.phase == (if s.dev.taken == 7 then Idle else Result(s.dev.result[s.dev.taken..]))
    && (ReportsSuccess(s.dev.result) ==> Holds(c, s))
    && (j >= 1 ==> St0Ok(s.dev.result[0])) && (j >= 2 ==> St1Ok(s.dev.result[1])) && (j >= 3 ==> St2Ok(s.dev.result[2]))
  }

  /** After a turn: the result is gone up to its last bytes, if reading them timed out. */
  predicate LeftDrained(s: State)
  {
    s.dev.taken + s.dev.missed == 7 && s.dev.missed <= 4 && |s.dev.result| == 7 &&
    s.dev.phase == (if s.dev.taken == 7 then Idle else Result(s.dev.result[s.dev.taken..]))
  }

  /** Pending interrupts, flags and controller, point by point. */
  ghost predicate Sync(c: Config, s: State)
    requires c.Valid() && |s.dev.buffer| >= SECTOR_SIZE && PcFits(s.pc) && WellFormed(s.dev.phase)
  {
    match s.pc
    case LoopHead =>
      Harmless(s) && if s.job.blocks > 0 then Quiet(s) && LeftDrained(s) else Rested(s.dev.phase) || Begun(s.dev.phase, 3)
    case Check(cmd) => Harmless(s) && (Rested(s.dev.phase) || (cmd == SeekCmd && Begun(s.dev.phase, 3)))
    case Poll(cmd, i) => SyncSend(c, s, cmd, i) || (cmd == SeekCmd && Skewed(s, i))
    case Try(cmd, i, _) => SyncSend(c, s, cmd, i) || (cmd == SeekCmd && Skewed(s, i) && !s.dev.phase.Execution?)
    case Put(cmd, i) => SyncSend(c, s, cmd, i) || (cmd == SeekCmd && Skewed(s, i) && !s.dev.phase.Execution?)
    case Final(cmd) =>
      if cmd == SeekCmd then Sought(s) else !s.dev.seekPending && Reading(c, s)
    case Prepare => Sought(s) && !s.dev.phase.Execution?
    case Spin => !s.dev.seekPending && Reading(c, s)
    case Compare => !s.dev.seekPending && Reading(c, s)
    case Fetch => !s.dev.seekPending && Reading(c, s)
    case Clear => !s.dev.seekPending && Reading(c, s)
    case Data(j, _) => if j == 0 then !s.dev.seekPending && Reading(c, s) else Draining(c, s, j)
    case Take(j) => if j == 0 then !s.dev.seekPending && Reading(c, s) && s.dev.phase.Result? else Draining(c, s, j)
    case Copy(_) => Draining(c, s, 7)
    case Ended(ok) =>
      && Harmless(s) && (ok ==> Rested(s.dev.phase) || Begun(s.dev.phase, 3))
      && (s.dev.phase.Command? ==> Begun(s.dev.phase, 3) || OwnPrefix(c, s))
  }

  /** The controller is in the middle of this turn's seek or read. */
  ghost predicate OwnPrefix(c: Config, s: State)
    requires c.Valid()
  {
    exists cmd, n :: 1 <= n < Length(cmd) && CutAfter(c, s, cmd, n)
  }

  predicate CutAfter(c: Config, s: State, cmd: Which, n: nat)
    requires c.Valid() && n < Length(cmd)
  {
    s.dev.phase == Command(CommandBytes(c, s, cmd)[..n], Length(cmd) - n)
  }

  lemma SendingIsOwnPrefix(c: Config, s: State, cmd: Which, i: nat)
    requires c.Valid() && i < Length(cmd) && AfterSending(s.dev.phase, CommandBytes(c, s, cmd), i) && s.dev.phase.Command?
    ensures OwnPrefix(c, s)
  {
    assert CutAfter(c, s, cmd, i);
  }

  lemma OwnPrefixSame(c: Config, s: State, t: State)
    requires c.Valid() && s.job.blocks == t.job.blocks && s.dev.phase == t.dev.phase && OwnPrefix(c, s)
    ensures OwnPrefix(c, t)
  {
    var cmd, n :| 1 <= n < Length(cmd) && CutAfter(c, s, cmd, n);
    CommandBytesSame(c, s, t);
    assert CutAfter(c, t, cmd, n);
  }

  /** The bytes of the seek complete an earlier read, which then executes or has its result pending. */
  predicate Skewed(s: State, i: nat)
    requires WellFormed(s.dev.phase)
  {
    Harmless(s) && (Begun(s.dev.phase, 3 - i) || s.dev.phase.Execution? || s.dev.phase.Result?)
  }

  /** The seek is out: done, or lost on a read that executes or has ended. */
  predicate Sought(s: State)
  {
    match s.dev.phase
    case Idle => !s.dev.readPending
    case Result(_) => true
    case Execution(_) => Harmless(s)
    case Command(_, _) => false
  }

  ghost predicate SyncSend(c: Config, s: State, cmd: Which, i: nat)
    requires c.Valid() && i < Length(cmd)
  {
    && AfterSending(s.dev.phase, CommandBytes(c, s, cmd), i)
    && !s.dev.readPending && (s.dev.seekPending ==> s.irq.noHandle)
  }

  /** The bytes copied so far are the disk's, and how many there are. */
  ghost predicate Progress(c: Config, s: State)
  {
    && Loaded(s.job.out, c.disk, c.sector, 0, |s.job.out|)
    && (s.pc != LoopHead && s.pc != Ended(true) ==> Left(c, s) > 0)
    && (s.pc == Ended(true) ==> Left(c, s) <= 0)
    && SECTOR_SIZE * s.job.blocks < Max(c.count, 0) + SECTOR_SIZE
    && |s.job.out| == (if s.pc.Copy? then SECTOR_SIZE * s.job.blocks + s.pc.i
                       else Min(SECTOR_SIZE * s.job.blocks, Max(c.count, 0)))
    && (s.pc.Copy? ==> s.pc.i < Left(c, s))
  }

  ghost predicate Inv(c: Config, s: State)
    requires c.Valid()
  {
    && PcFits(s.pc) && WellFormed(s.dev.phase) && |s.dev.buffer| >= SECTOR_SIZE
    && Sync(c, s) && Progress(c, s) && Counted(s)
  }

  lemma ReadyInv(c: Config, s: State)
    requires c.Valid() && Ready(s)
    ensures Inv(c, s)
  {
  }

  lemma InitialIsReady(s: State)
    requires Initial(s)
    ensures Ready(s)
  {
  }

  // ---------------------------------------------------------------- the environment's steps

  lemma FinishKeepsSync(v: Variant, c: Config, s: State, step: Step)
    requires c.Valid() && Inv(c, s) && step.Finish? && Enabled(c, s, step)
    ensures Sync(c, Apply(v, c, s, step))
  {
    hide SectorOf, CommandBytes, ReportsSuccess, Loaded, AfterSending;
    if (s.pc.Poll? || s.pc.Try? || s.pc.Put?) && SyncSend(c, s, s.pc.cmd, s.pc.i) {
      SendingAccepts(s.dev.phase, CommandBytes(c, s, s.pc.cmd), s.pc.i);
    }
    CommandBytesSame(c, s, Apply(v, c, s, step));
    CommandShape(c, s, ReadCmd);
  }

  lemma CommandBytesSame(c: Config, s: State, t: State)
    requires c.Valid() && s.job.blocks == t.job.blocks
    ensures forall cmd :: CommandBytes(c, t, cmd) == CommandBytes(c, s, cmd)
  {
  }

  lemma DeliverKeepsSync(v: Variant, c: Config, s: State, step: Step)
    requires c.Valid() && Inv(c, s) && step.Deliver? && Enabled(c, s, step)
    ensures Sync(c, Apply(v, c, s, step))
  {
    hide SectorOf, CommandBytes, ReportsSuccess, Loaded, AfterSending, OwnPrefix;
    CommandBytesSame(c, s, Apply(v, c, s, step));
    if s.pc.Ended? && s.dev.phase.Command? && OwnPrefix(c, s) { OwnPrefixSame(c, s, Apply(v, c, s, step)); }
  }

  // ---------------------------------------------------------------- the main line

  lemma SendingStartsIdle(c: Config, s: State, cmd: Which)
    requires c.Valid()
    ensures AfterSending(Idle, CommandBytes(c, s, cmd), 0)
  {
  }

  /** The looks at the status while a command is sent. */
  lemma SendLookKeepsSync(v: Variant, c: Config, s: State, step: Step)
    requires c.Valid() && Inv(c, s) && step.Main? && Enabled(c, s, step)
    requires s.pc.Check? || s.pc.Poll? || s.pc.Try?
    ensures Sync(c, Apply(v, c, s, step))
  {
    hide SectorOf, CommandBytes, ReportsSuccess, Loaded, AfterSending, Reading, Draining, WellFormed, OwnPrefix;
    CommandBytesSame(c, s, Apply(v, c, s, step));
    SendingStartsIdle(c, s, s.pc.cmd);
    if (s.pc.Poll? || s.pc.Try?) && SyncSend(c, s, s.pc.cmd, s.pc.i) {
      SendingAccepts(s.dev.phase, CommandBytes(c, s, s.pc.cmd), s.pc.i);
      if s.dev.phase.Command? {
        SendingIsOwnPrefix(c, s, s.pc.cmd, s.pc.i);
        OwnPrefixSame(c, s, Apply(v, c, s, step));
      }
    }
  }

  /** The other looks: at the loop condition, at the status after a command, at the flag. */
  lemma LookKeepsSync(v: Variant, c: Config, s: State, step: Step)
    requires c.Valid() && v.prepare && Inv(c, s) && step.Main? && Enabled(c, s, step)
    requires s.pc.LoopHead? || s.pc.Final? || s.pc.Prepare? || s.pc.Spin? || s.pc.Compare? || s.pc.Fetch? || s.pc.Clear?
    ensures Sync(c, Apply(v, c, s, step))
  {
    hide SectorOf, CommandBytes, ReportsSuccess, Loaded, AfterSending, WellFormed;
    CommandBytesSame(c, s, Apply(v, c, s, step));
  }

  lemma CommandShape(c: Config, s: State, cmd: Which)
    requires c.Valid()
    ensures var bs := CommandBytes(c, s, cmd);
            && CommandLength(bs[0]) == |bs| && (cmd == SeekCmd ==> Silent(bs[0]) && !Executes(bs[0]))
            && (cmd == ReadCmd ==> Executes(bs[0])) && (cmd == SeekCmd <==> MovesHead(bs[0]))
            && (cmd == SeekCmd ==> bs[0] == SEEK) && (cmd == ReadCmd ==> Reads(bs) && !MovesNothing(bs[0]))
  {
    AddressFitsBytes(Sector(c, s), c.g);
    CommandsAreComplete(c.drive, AddressOf(Sector(c, s), c.g), c.g.sectors);
  }

  lemma LastByteSent(p: Phase, bs: seq<byte>)
    requires bs != [] && AfterSending(p, bs, |bs|)
    ensures Silent(bs[0]) && !Executes(bs[0]) ==> p == Idle
  {
  }

  /** A command sent from Idle is a seek that completes exactly with the last byte of a seek. */
  lemma CompletesAtLast(p: Phase, bs: seq<byte>, i: nat)
    requires WellFormed(p) && i < |bs| && AfterSending(p, bs, i) && |bs| > 1
    ensures CompletesSeek(p) <==> i + 1 == |bs| && MovesHead(bs[0])
  {
  }

  lemma PutKeepsSync(v: Variant, c: Config, s: State, step: Step)
    requires c.Valid() && v.prepare && Inv(c, s) && step.Main? && Enabled(c, s, step) && s.pc.Put?
    requires SyncSend(c, s, s.pc.cmd, s.pc.i)
    ensures Sync(c, Apply(v, c, s, step))
  {
    hide SectorOf, CommandBytes, ReportsSuccess, Loaded, AfterSending, CommandLength, Silent, Executes, Write, WellFormed,
         CompletesSeek;
    var t := Apply(v, c, s, step);
    var cmd, i := s.pc.cmd, s.pc.i;
    var bs := CommandBytes(c, s, cmd);
    CommandBytesSame(c, s, t);
    CommandShape(c, s, cmd);
    CompletesAtLast(s.dev.phase, bs, i);
    SendingStep(s.dev.phase, t.dev.phase, bs, i);
    if i + 1 == |bs| { LastByteSent(t.dev.phase, bs); }
  }

  /** A byte more of a command that executes: it gets on, executes, or is lost on its result. */
  lemma BegunStep(p: Phase, b: byte, answer: Answer)
    requires WellFormed(p) && !p.Execution? && (p.Command? ==> Executes(p.received[0])) && !p.Idle?
    ensures !CompletesSeek(p)
    ensures var q := Write(p, b, answer);
            if p.Result? then q == p
            else if p.left == 1 then q.Execution?
            else q.Command? && q.left == p.left - 1 && q.received != [] && q.received[0] == p.received[0]
  {
  }

  lemma SkewedPutKeepsSync(v: Variant, c: Config, s: State, step: Step)
    requires c.Valid() && Inv(c, s) && step.Main? && Enabled(c, s, step) && s.pc.Put? && s.pc.cmd == SeekCmd
    requires Skewed(s, s.pc.i) && !s.dev.phase.Execution?
    ensures Sync(c, Apply(v, c, s, step))
  {
    hide SectorOf, CommandBytes, ReportsSuccess, Loaded, AfterSending, CommandLength, Silent, Executes, Write, WellFormed,
         CompletesSeek;
    BegunStep(s.dev.phase, CommandBytes(c, s, SeekCmd)[s.pc.i], step.answer);
  }

  lemma FirstDataKeepsSync(v: Variant, c: Config, s: State, step: Step)
    requires c.Valid() && Inv(c, s) && step.Main? && Enabled(c, s, step)
    requires s.pc.Data? && s.pc.j == 0
    ensures Sync(c, Apply(v, c, s, step))
  {
    hide SectorOf, CommandBytes, ReportsSuccess, Loaded, AfterSending, WellFormed;
    CommandBytesSame(c, s, Apply(v, c, s, step));
  }

  lemma FirstTakeKeepsSync(v: Variant, c: Config, s: State, step: Step)
    requires c.Valid() && Inv(c, s) && step.Main? && Enabled(c, s, step)
    requires s.pc == Take(0)
    ensures Sync(c, Apply(v, c, s, step))
  {
    hide SectorOf, CommandBytes, ReportsSuccess, Loaded, AfterSending, WellFormed;
    CommandBytesSame(c, s, Apply(v, c, s, step));
    assert s.dev.result[0..] == s.dev.result;
  }

  lemma DrainingMore(c: Config, s: State, t: State, j: nat)
    requires c.Valid() && |s.dev.buffer| >= SECTOR_SIZE && 3 <= j < 7 && Draining(c, s, j)
    requires t == s.(pc := t.pc, dev := s.dev.(missed := s.dev.missed + 1))
    ensures Draining(c, t, j + 1)
  {
    hide Holds, ReportsSuccess, St0Ok, St1Ok, St2Ok;
    HoldsSame(c, s, t);
  }

  lemma DataKeepsSync(v: Variant, c: Config, s: State, step: Step)
    requires c.Valid() && Inv(c, s) && step.Main? && Enabled(c, s, step)
    requires s.pc.Data? && s.pc.j >= 1
    ensures Sync(c, Apply(v, c, s, step))
  {
    hide SectorOf, CommandBytes, ReportsSuccess, Loaded, AfterSending, WellFormed, Reading, Holds, St0Ok, St1Ok, St2Ok;
    var t := Apply(v, c, s, step);
    TimeoutFailsChecks();
    HoldsSame(c, s, t);
    if t.dev.missed > s.dev.missed && s.pc.j >= 3 { DrainingMore(c, s, t, s.pc.j); }
  }

  lemma HoldsSame(c: Config, s: State, t: State)
    requires c.Valid() && s.job.blocks == t.job.blocks && s.dev.buffer == t.dev.buffer && |s.dev.buffer| >= SECTOR_SIZE
    ensures Holds(c, t) == Holds(c, s)
  {
    CommandBytesSame(c, s, t);
  }

  lemma TakeKeepsSync(v: Variant, c: Config, s: State, step: Step)
    requires c.Valid() && Inv(c, s) && step.Main? && Enabled(c, s, step)
    requires s.pc.Take? && s.pc.j >= 1
    ensures Sync(c, Apply(v, c, s, step))
  {
    hide SectorOf, CommandBytes, ReportsSuccess, Loaded, AfterSending, WellFormed, Reading;
    CommandBytesSame(c, s, Apply(v, c, s, step));
    assert s.dev.taken < 7 && s.dev.phase == Result(s.dev.result[s.dev.taken..]);
    assert s.dev.result[s.dev.taken..][1..] == s.dev.result[s.dev.taken + 1..];
  }

  lemma CopyKeepsSync(v: Variant, c: Config, s: State, step: Step)
    requires c.Valid() && Inv(c, s) && step.Main? && Enabled(c, s, step) && s.pc.Copy?
    ensures Sync(c, Apply(v, c, s, step))
  {
    hide SectorOf, CommandBytes, ReportsSuccess, Loaded, AfterSending, Reading;
    var t := Apply(v, c, s, step);
    if t.pc.Copy? { CommandBytesSame(c, s, t); }
  }

  lemma KeepsSync(v: Variant, c: Config, s: State, step: Step)
    requires c.Valid() && v.prepare && Inv(c, s) && Enabled(c, s, step)
    ensures PcFits(Apply(v, c, s, step).pc) && WellFormed(Apply(v, c, s, step).dev.phase)
    ensures |Apply(v, c, s, step).dev.buffer| >= SECTOR_SIZE && Sync(c, Apply(v, c, s, step))
  {
    hide SectorOf, CommandBytes, ReportsSuccess, Loaded, Sync, Progress, Apply;
    StaysWellFormed(v, c, s, step);
    match step
    case Deliver(_, _, _, _) => DeliverKeepsSync(v, c, s, step);
    case Finish(_, _) => FinishKeepsSync(v, c, s, step);
    case Main(_, _) =>
      match s.pc
      case Check(_) => SendLookKeepsSync(v, c, s, step);
      case Poll(_, _) => SendLookKeepsSync(v, c, s, step);
      case Try(_, _, _) => SendLookKeepsSync(v, c, s, step);
      case Put(cmd, i) =>
        if SyncSend(c, s, cmd, i) {
          PutKeepsSync(v, c, s, step);
        } else {
          PutIsSkewed(c, s);
          SkewedPutKeepsSync(v, c, s, step);
        }
      case Data(j, _) => if j == 0 { FirstDataKeepsSync(v, c, s, step); } else { DataKeepsSync(v, c, s, step); }
      case Take(j) => if j == 0 { FirstTakeKeepsSync(v, c, s, step); } else { TakeKeepsSync(v, c, s, step); }
      case Copy(_) => CopyKeepsSync(v, c, s, step);
      case _ => LookKeepsSync(v, c, s, step);
  }

  lemma PutIsSkewed(c: Config, s: State)
    requires c.Valid() && Inv(c, s) && s.pc.Put? && !SyncSend(c, s, s.pc.cmd, s.pc.i)
    ensures s.pc.cmd == SeekCmd && Skewed(s, s.pc.i) && !s.dev.phase.Execution?
  {
  }

  lemma StaysWellFormed(v: Variant, c: Config, s: State, step: Step)
    requires c.Valid() && Inv(c, s) && Enabled(c, s, step)
    ensures var t := Apply(v, c, s, step); PcFits(t.pc) && WellFormed(t.dev.phase) && |t.dev.buffer| >= SECTOR_SIZE
  {
    hide SectorOf, ReportsSuccess, Loaded, Sync, Progress, Sensed, WellFormed, ApplyMain;
    match step
    case Main(ready, answer) => MainStaysWellFormed(v, c, s, ready, answer);
    case Finish(result, _) => ResultFits(result);
    case Deliver(_, _, _, _) =>
  }

  lemma MainStaysWellFormed(v: Variant, c: Config, s: State, ready: bool, answer: Answer)
    requires c.Valid() && Enabled(c, s, Main(ready, answer))
    ensures var t := ApplyMain(v, c, s, ready, answer);
            PcFits(t.pc) && WellFormed(t.dev.phase) && t.dev.buffer == s.dev.buffer
  {
    hide CommandBytes, Write, Read, Status, St0Ok, St1Ok, St2Ok, CommandLength, WellFormed;
  }

  lemma ResultFits(bs: seq<byte>)
    requires bs != []
    ensures WellFormed(Result(bs))
  {
  }

  lemma MainKeepsCount(v: Variant, c: Config, s: State, ready: bool, answer: Answer)
    requires c.Valid() && Counted(s) && Enabled(c, s, Main(ready, answer))
    ensures Counted(ApplyMain(v, c, s, ready, answer))
  {
    hide CommandBytes, WellFormed, Write, Read, Status, St0Ok, St1Ok, St2Ok, CommandLength;
  }

  lemma KeepsCount(v: Variant, c: Config, s: State, step: Step)
    requires c.Valid() && Counted(s) && Enabled(c, s, step)
    ensures Counted(Apply(v, c, s, step))
  {
    hide SectorOf, ReportsSuccess, Sensed, WellFormed, ApplyMain;
    if step.Main? { MainKeepsCount(v, c, s, step.ready, step.answer); }
  }

  lemma LoadedAppend(out: seq<byte>, b: byte, disk: seq<byte>, sector: byte)
    requires Loaded(out, disk, sector, 0, |out|)
    requires OnDisk(disk, sector, |out|) && b == DiskByte(disk, sector, |out|)
    ensures Loaded(out + [b], disk, sector, 0, |out| + 1)
  {
    forall i | 0 <= i < |out| + 1
      ensures OnDisk(disk, sector, i) && (out + [b])[0 + i] == DiskByte(disk, sector, i)
    {
      if i < |out| { assert out[0 + i] == DiskByte(disk, sector, i); }
    }
  }

  /** Byte `i` of the buffer is the byte of the disk that comes next. */
  lemma BufferByte(c: Config, s: State, i: nat)
    requires c.Valid() && |s.dev.buffer| >= SECTOR_SIZE && Holds(c, s) && i < SECTOR_SIZE
    ensures OnDisk(c.disk, c.sector, SECTOR_SIZE * s.job.blocks + i)
    ensures s.dev.buffer[i] == DiskByte(c.disk, c.sector, SECTOR_SIZE * s.job.blocks + i)
  {
    hide SectorOf, AddressOf, Sector;
    var lba := Sector(c, s);
    CommandFindsSector(c, s, lba);
    SectorByte(s.dev.buffer, c.disk, lba, i);
    BlockOf(s.job.blocks, i);
    SectorOfBlock(c, s);
  }

  lemma SectorOfBlock(c: Config, s: State)
    ensures Sector(c, s) == (c.sector + s.job.blocks) % 256
  {
  }

  lemma SectorByte(buffer: seq<byte>, disk: seq<byte>, lba: byte, i: nat)
    requires |buffer| >= SECTOR_SIZE && SECTOR_SIZE * (lba + 1) <= |disk| && i < SECTOR_SIZE
    requires buffer[..SECTOR_SIZE] == disk[SECTOR_SIZE * lba..SECTOR_SIZE * (lba + 1)]
    ensures buffer[i] == disk[SECTOR_SIZE * lba + i]
  {
    assert buffer[i] == buffer[..SECTOR_SIZE][i];
  }

  lemma CommandFindsSector(c: Config, s: State, lba: byte)
    requires c.Valid() && lba == Sector(c, s)
    ensures SectorOf(c.disk, c.g, CommandBytes(c, s, ReadCmd))
         == if SECTOR_SIZE * (lba + 1) <= |c.disk| then c.disk[SECTOR_SIZE * lba..SECTOR_SIZE * (lba + 1)] else []
  {
    hide SectorOf, AddressOf, ReadCommand, Sector;
    AddressFitsBytes(lba, c.g);
    ReadCommandFinds(c.disk, c.g, c.drive, lba, CommandBytes(c, s, ReadCmd));
  }

  lemma CopyKeepsProgress(v: Variant, c: Config, s: State, step: Step)
    requires c.Valid() && Inv(c, s) && step.Main? && Enabled(c, s, step) && s.pc.Copy?
    ensures Progress(c, Apply(v, c, s, step))
  {
    hide SectorOf, CommandBytes, Loaded, Holds;
    BufferByte(c, s, s.pc.i);
    LoadedAppend(s.job.out, s.dev.buffer[s.pc.i], c.disk, c.sector);
  }

  lemma LookKeepsProgress(v: Variant, c: Config, s: State, step: Step)
    requires c.Valid() && Inv(c, s) && step.Main? && Enabled(c, s, step) && !s.pc.Copy?
    ensures Progress(c, Apply(v, c, s, step))
  {
    hide SectorOf, CommandBytes, Loaded, ReportsSuccess, Sync, WellFormed, Write, Read, Status, St0Ok, St1Ok, St2Ok,
         CommandLength, AfterSending;
  }

  lemma KeepsProgress(v: Variant, c: Config, s: State, step: Step)
    requires c.Valid() && Inv(c, s) && Enabled(c, s, step)
    ensures Progress(c, Apply(v, c, s, step))
  {
    hide SectorOf, CommandBytes, Loaded, ReportsSuccess, Sync, Sensed, WellFormed, ApplyMain;
    if step.Main? {
      if s.pc.Copy? { CopyKeepsProgress(v, c, s, step); } else { LookKeepsProgress(v, c, s, step); }
    }
  }

  lemma KeepsInv(v: Variant, c: Config, s: State, step: Step)
    requires c.Valid() && v.prepare && Inv(c, s) && Enabled(c, s, step)
    ensures Inv(c, Apply(v, c, s, step))
  {
    hide SectorOf, CommandBytes, Loaded, ReportsSuccess, Sync, Sensed, Progress, Apply, Enabled, Counted;
    KeepsSync(v, c, s, step);
    KeepsCount(v, c, s, step);
    KeepsProgress(v, c, s, step);
  }
}
