/** What the main line sends in a run, and that runs of steps and the method `FloppyCopy.CopyBytes` do the same. */
module HandshakeCommands {
  import opened CInt
  import opened Fdc
  import opened FloppyDriver
  import opened FloppyIrq
  import opened FloppyCopy
  import opened Handshake
  import opened HandshakeInvariant
  import opened HandshakeRuns

  /** What has been sent of this turn's two commands. */
  function OfThisTurn(c: Config, s: State): seq<byte>
    requires c.Valid() && PcFits(s.pc)
  {
    var seek, read := CommandBytes(c, s, SeekCmd), CommandBytes(c, s, ReadCmd);
    match s.pc
    case LoopHead => []
    case Check(cmd) => if cmd == SeekCmd then [] else seek
    case Poll(cmd, i) => if cmd == SeekCmd then seek[..i] else seek + read[..i]
    case Try(cmd, i, _) => if cmd == SeekCmd then seek[..i] else seek + read[..i]
    case Put(cmd, i) => if cmd == SeekCmd then seek[..i] else seek + read[..i]
    case Final(cmd) => if cmd == SeekCmd then seek else seek + read
    case Prepare => seek
    case _ => seek + read
  }

  /** The commands of the turns that are done, in order, and what has been sent of this turn's; of a turn that failed,
      some first bytes. */
  ghost predicate SentInOrder(c: Config, s: State)
    requires c.Valid() && PcFits(s.pc)
  {
    var done := Commands(c.drive, c.g, c.sector, s.job.blocks);
    match s.pc
    case Ended(ok) =>
      if ok then s.job.sent == done else Sent(done, s.job.sent, SectorCommands(c.drive, c.g, Sector(c, s)), false)
    case _ => s.job.sent == done + OfThisTurn(c, s)
  }

  lemma TurnIsSectorCommands(c: Config, s: State)
    requires c.Valid()
    ensures CommandBytes(c, s, SeekCmd) + CommandBytes(c, s, ReadCmd) == SectorCommands(c.drive, c.g, Sector(c, s))
  {
  }

  /** What has been sent of a turn is a first part of its commands. */
  lemma TurnIsPrefix(c: Config, s: State)
    requires c.Valid() && PcFits(s.pc) && !s.pc.Ended?
    ensures OfThisTurn(c, s) <= CommandBytes(c, s, SeekCmd) + CommandBytes(c, s, ReadCmd)
  {
    hide CommandBytes;
  }

  lemma PutSends(c: Config, s: State, t: State, answer: Answer)
    requires c.Valid() && s.pc.Put? && PcFits(s.pc) && WellFormed(s.dev.phase) && SentInOrder(c, s)
    requires t == ApplyPut(c, s, s.pc.cmd, s.pc.i, answer)
    ensures SentInOrder(c, t)
  {
    hide CommandBytes, Commands, Write;
    CommandBytesSame(c, s, t);
    var i, bs := s.pc.i, CommandBytes(c, s, s.pc.cmd);
    assert bs[..i] + [bs[i]] == bs[..i + 1] && bs[..|bs|] == bs;
    assert OfThisTurn(c, t) == OfThisTurn(c, s) + [bs[i]];
  }

  lemma BlockDone(c: Config, s: State, t: State)
    requires c.Valid() && s.pc.Copy? && PcFits(s.pc) && SentInOrder(c, s)
    requires t.pc == LoopHead && t.job.blocks == s.job.blocks + 1 && t.job.sent == s.job.sent
    ensures SentInOrder(c, t)
  {
    hide CommandBytes, SectorCommands;
    TurnIsSectorCommands(c, s);
  }

  lemma EndingSends(c: Config, s: State, t: State)
    requires c.Valid() && PcFits(s.pc) && !s.pc.Ended? && SentInOrder(c, s)
    requires t == s.(pc := t.pc, dev := t.dev) && (t.pc == Ended(false) || (t.pc == Ended(true) && s.pc == LoopHead))
    ensures SentInOrder(c, t)
  {
    hide CommandBytes, Commands, SectorCommands;
    TurnIsPrefix(c, s);
    TurnIsSectorCommands(c, s);
  }

  /** All other steps: nothing is sent, and the place in the turn stands for as much as before. */
  lemma LookSends(v: Variant, c: Config, s: State, step: Step)
    requires c.Valid() && Enabled(c, s, step) && PcFits(s.pc) && SentInOrder(c, s) && step.Main? && !s.pc.Put?
    requires PcFits(Apply(v, c, s, step).pc)
    requires Apply(v, c, s, step).job == s.job && !Apply(v, c, s, step).pc.Ended?
    ensures SentInOrder(c, Apply(v, c, s, step))
  {
    hide CommandBytes, Commands, SectorCommands, St0Ok, St1Ok, St2Ok, Read, WellFormed;
    CommandBytesSame(c, s, Apply(v, c, s, step));
    assert CommandBytes(c, s, SeekCmd)[..0] == [] && CommandBytes(c, s, ReadCmd)[..0] == [];
  }

  lemma CopySends(c: Config, s: State, t: State)
    requires c.Valid() && s.pc.Copy? && PcFits(s.pc) && PcFits(t.pc) && SentInOrder(c, s)
    requires t.pc.Copy? && t.job.blocks == s.job.blocks && t.job.sent == s.job.sent
    ensures SentInOrder(c, t)
  {
    CommandBytesSame(c, s, t);
  }

  lemma KeepsSent(v: Variant, c: Config, s: State, step: Step)
    requires c.Valid() && Enabled(c, s, step) && PcFits(s.pc) && SentInOrder(c, s)
    ensures PcFits(Apply(v, c, s, step).pc) && SentInOrder(c, Apply(v, c, s, step))
  {
    hide CommandBytes, Commands, SectorCommands, SentInOrder, OfThisTurn, Sensed, WellFormed, Write, Read, Status, NextByte;
    var t := Apply(v, c, s, step);
    if step.Main? {
      MainStaysWellFormed(v, c, s, step.ready, step.answer);
      if s.pc.Put? {
        PutSends(c, s, t, step.answer);
      } else if s.pc.Copy? {
        if t.pc.Copy? { CopySends(c, s, t); } else { BlockDone(c, s, t); }
      } else if t.pc.Ended? {
        HowItEnds(v, c, s, step);
        EndingSends(c, s, t);
      } else {
        LookSends(v, c, s, step);
      }
    } else {
      NothingSent(c, s, t);
    }
  }

  lemma NothingSent(c: Config, s: State, t: State)
    requires c.Valid() && PcFits(s.pc) && SentInOrder(c, s) && t.pc == s.pc && t.job == s.job
    ensures SentInOrder(c, t)
  {
    CommandBytesSame(c, s, t);
  }

  lemma HowItEnds(v: Variant, c: Config, s: State, step: Step)
    requires c.Valid() && step.Main? && Enabled(c, s, step) && !s.pc.Put? && !s.pc.Copy? && Apply(v, c, s, step).pc.Ended?
    ensures var t := Apply(v, c, s, step);
            t == s.(pc := t.pc, dev := t.dev) && (t.pc == Ended(false) || (t.pc == Ended(true) && s.pc == LoopHead))
  {
    hide CommandBytes, WellFormed, St0Ok, St1Ok, St2Ok;
  }

  /** In every run of every variant, with or without interrupts in between, the main line sends the seek and the
      read of each sector in order, and nothing else. */
  lemma {:induction false} RunSendsInOrder(v: Variant, c: Config, s: State, steps: seq<Step>)
    requires c.Valid() && Ready(s) && Run(v, c, s, steps)
    ensures PcFits(End(v, c, s, steps).pc) && SentInOrder(c, End(v, c, s, steps))
    decreases |steps|
  {
    hide Apply, Enabled, SentInOrder, PcFits;
    if steps == [] {
      NothingYet(c, s);
    } else {
      var front := steps[..|steps| - 1];
      RunSendsInOrder(v, c, s, front);
      KeepsSent(v, c, End(v, c, s, front), steps[|steps| - 1]);
    }
  }

  lemma NothingYet(c: Config, s: State)
    requires c.Valid() && Ready(s)
    ensures PcFits(s.pc) && SentInOrder(c, s)
  {
  }

  lemma SameLoad(mem: seq<byte>, dest: nat, out: seq<byte>, disk: seq<byte>, sector: byte, count: nat)
    requires Loaded(mem, disk, sector, dest, count) && Loaded(out, disk, sector, 0, count) && |out| == count
    ensures dest + count <= |mem| && mem[dest..dest + count] == out
  {
    forall i | 0 <= i < count ensures mem[dest + i] == out[i] {
      assert OnDisk(disk, sector, i) && mem[dest + i] == DiskByte(disk, sector, i) && out[0 + i] == DiskByte(disk, sector, i);
    }
  }

  lemma BlocksDone(count: nat, blocks: nat)
    requires SECTOR_SIZE * blocks >= count && SECTOR_SIZE * blocks < count + SECTOR_SIZE
    ensures blocks == BlocksOf(count)
  {
  }

  lemma RunCountsBlocks(c: Config, s: State, steps: seq<Step>)
    requires c.Valid() && c.count > 0 && Ready(s) && Run(SOURCE, c, s, steps) && End(SOURCE, c, s, steps).pc == Ended(true)
    ensures End(SOURCE, c, s, steps).job.blocks == BlocksOf(c.count)
  {
    hide Run, End, Sync, Loaded, Ready, BlocksOf;
    ReadyInv(c, s);
    RunKeepsInv(SOURCE, c, s, steps);
    BlocksDone(c.count, End(SOURCE, c, s, steps).job.blocks);
  }

  /** The method and the steps are the same fpy_copy_bytes: from what `CopyBytes` ensures of a success, and from any
      run of the source that succeeds, come the same bytes at the destination and the same bytes sent. */
  lemma MethodAndStepsAgree(c: Config, s: State, steps: seq<Step>, t: Task, u: View, v: View, blocks: nat)
    requires c.Valid() && Ready(s) && Run(SOURCE, c, s, steps) && End(SOURCE, c, s, steps).pc == Ended(true)
    requires c.count > 0 && t == Task(c.disk, c.g, c.drive, c.sector, t.dest, c.count) && t.Fits(|u.mem|)
    requires Copied(t, u, v, blocks, Fetched) && !u.phase.Command?
    ensures var job := End(SOURCE, c, s, steps).job;
            && t.dest + c.count <= |v.mem| && v.mem[t.dest..t.dest + c.count] == job.out
            && Writes(v.trace) == Writes(u.trace) + job.sent
  {
    hide Run, End, Loaded, Ready, Commands, Writes, OnlyBlocks;
    var job := End(SOURCE, c, s, steps).job;
    RunCopiesSlice(SOURCE, c, s, steps);
    RunSendsInOrder(SOURCE, c, s, steps);
    RunCountsBlocks(c, s, steps);
    BlocksDone(c.count, blocks);
    SameLoad(v.mem, t.dest, job.out, c.disk, c.sector, c.count);
  }

  /** And so they do where a call fails after the same number of blocks: the same bytes are at the destination, and both
      have sent the commands of these blocks and some first bytes of the next turn's. */
  lemma FailuresAgree(c: Config, s: State, steps: seq<Step>, t: Task, u: View, v: View, blocks: nat, r: Transfer)
    requires c.Valid() && Ready(s) && Run(SOURCE, c, s, steps) && End(SOURCE, c, s, steps).pc == Ended(false)
    requires c.count > 0 && t == Task(c.disk, c.g, c.drive, c.sector, t.dest, c.count) && t.Fits(|u.mem|)
    requires Copied(t, u, v, blocks, r) && r != Fetched && !u.phase.Command? && End(SOURCE, c, s, steps).job.blocks == blocks
    ensures var job, n, done := End(SOURCE, c, s, steps).job, SECTOR_SIZE * blocks,
                                Commands(c.drive, c.g, c.sector, blocks);
            && t.dest + n <= |v.mem| && v.mem[t.dest..t.dest + n] == job.out
            && Sent(Writes(u.trace) + done, Writes(v.trace), NextTurn(c, blocks), r == BadResult)
            && Sent(done, job.sent, NextTurn(c, blocks), false)
  {
    hide Run, End, Loaded, Ready, Commands, Writes, OnlyBlocks, Sent, SectorCommands;
    var job := End(SOURCE, c, s, steps).job;
    RunCopiesSlice(SOURCE, c, s, steps);
    RunSendsInOrder(SOURCE, c, s, steps);
    SameLoad(v.mem, t.dest, job.out, c.disk, c.sector, SECTOR_SIZE * blocks);
  }

  function NextTurn(c: Config, blocks: nat): seq<byte>
    requires c.Valid()
  {
    SectorCommands(c.drive, c.g, (c.sector + blocks) % 256)
  }
}
