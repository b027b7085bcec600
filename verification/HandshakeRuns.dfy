/** The handshake over whole runs: where the handler stays out, what the copy reads, and what the flags count. */
module HandshakeRuns {
  import opened CInt
  import opened Fdc
  import opened FloppyDriver
  import opened FloppyIrq
  import opened FloppyCopy
  import opened Handshake
  import opened HandshakeInvariant

  lemma {:induction false} RunKeepsInv(v: Variant, c: Config, s: State, steps: seq<Step>)
    requires c.Valid() && v.prepare && Inv(c, s) && Run(v, c, s, steps)
    ensures Inv(c, End(v, c, s, steps))
    decreases |steps|
  {
    hide Inv, Apply, Enabled;
    if steps != [] {
      var front := steps[..|steps| - 1];
      RunKeepsInv(v, c, s, front);
      KeepsInv(v, c, End(v, c, s, front), steps[|steps| - 1]);
    }
  }

  // ---------------------------------------------------------------- the copy

  /** When bytes are copied out of the buffer, this turn's read has left the execution phase with a good result,
      and the buffer holds this turn's sector. */
  lemma CopyStartsAfterExecution(v: Variant, c: Config, s: State, steps: seq<Step>)
    requires c.Valid() && v.prepare && Ready(s) && Run(v, c, s, steps) && End(v, c, s, steps).pc.Copy?
    ensures var t := End(v, c, s, steps);
            && !t.dev.phase.Execution? && ReportsSuccess(t.dev.result)
            && |t.dev.buffer| >= SECTOR_SIZE && Holds(c, t)
  {
    hide Inv, Run, End;
    ReadyInv(c, s);
    RunKeepsInv(v, c, s, steps);
    CopyState(c, End(v, c, s, steps));
  }

  lemma CopyState(c: Config, t: State)
    requires c.Valid() && Inv(c, t) && t.pc.Copy?
    ensures !t.dev.phase.Execution? && ReportsSuccess(t.dev.result) && |t.dev.buffer| >= SECTOR_SIZE && Holds(c, t)
  {
    hide Holds, Progress, St0Ok, St1Ok, St2Ok, WellFormed, ReportsSuccess;
    ChecksPassIff(t.dev.result);
  }

  /** In every interleaving, at every moment, what has been copied is right; at a successful end it is the slice of
      the disk that was asked for. */
  lemma RunCopiesSlice(v: Variant, c: Config, s: State, steps: seq<Step>)
    requires c.Valid() && v.prepare && Ready(s) && Run(v, c, s, steps)
    ensures var t := End(v, c, s, steps);
            && Loaded(t.job.out, c.disk, c.sector, 0, |t.job.out|)
            && (t.pc == Ended(true) ==> |t.job.out| == Max(c.count, 0))
            && (t.pc == Ended(false) ==> |t.job.out| == SECTOR_SIZE * t.job.blocks < c.count)
            && (t.pc == Ended(true) && c.count > 0 && c.sector + BlocksOf(c.count) <= 256 ==>
                  && SECTOR_SIZE * c.sector + c.count <= |c.disk|
                  && t.job.out == c.disk[SECTOR_SIZE * c.sector..SECTOR_SIZE * c.sector + c.count])
  {
    hide Loaded, Sync, Run, End;
    ReadyInv(c, s);
    RunKeepsInv(v, c, s, steps);
    var t := End(v, c, s, steps);
    if t.pc == Ended(true) && c.count > 0 && c.sector + BlocksOf(c.count) <= 256 {
      LoadedIsSlice(t.job.out, c.disk, c.sector, 0, c.count);
      assert t.job.out[0..0 + c.count] == t.job.out;
    }
  }

  lemma {:induction false} RunKeepsCount(v: Variant, c: Config, s: State, steps: seq<Step>)
    requires c.Valid() && Counted(s) && Run(v, c, s, steps)
    ensures Counted(End(v, c, s, steps))
    decreases |steps|
  {
    hide Counted, Apply, Enabled;
    if steps != [] {
      var front := steps[..|steps| - 1];
      RunKeepsCount(v, c, s, front);
      KeepsCount(v, c, End(v, c, s, front), steps[|steps| - 1]);
    }
  }

  /** Waits completed, and one more while the flag is up, never exceed the interrupts delivered: in any run, from
      any state in which that is so. */
  lemma WaitsNeverExceedInterrupts(v: Variant, c: Config, s: State, steps: seq<Step>)
    requires c.Valid() && Counted(s) && Run(v, c, s, steps)
    ensures var f := End(v, c, s, steps).irq;
            f.waits + (if f.received == Nothing then 0 else 1) <= f.interrupts
  {
    hide Run, End;
    RunKeepsCount(v, c, s, steps);
  }

  // ---------------------------------------------------------------- what the last loop on mrq is for

  /** From the wait to the first result byte, the result is there; a call never ends during execution. */
  predicate AfterRead(s: State)
  {
    && (s.pc.Spin? || s.pc.Compare? || s.pc.Fetch? || s.pc.Clear? || (s.pc.Data? && s.pc.j == 0) ==> s.dev.phase.Result?)
    && (s.pc.Ended? ==> !s.dev.phase.Execution?)
  }

  lemma KeepsAfterRead(v: Variant, c: Config, s: State, step: Step)
    requires c.Valid() && v.finalWait && Inv(c, s) && AfterRead(s) && Enabled(c, s, step)
    ensures AfterRead(Apply(v, c, s, step))
  {
    hide SectorOf, CommandBytes, ReportsSuccess, Loaded, Progress, AfterSending, WellFormed, Write, St0Ok, St1Ok,
         St2Ok, CommandLength, Holds, MovesNothing, Reads;
    if s.pc.Try? && SyncSend(c, s, s.pc.cmd, s.pc.i) { SendingAccepts(s.dev.phase, CommandBytes(c, s, s.pc.cmd), s.pc.i); }
  }

  lemma {:induction false} RunKeepsAfterRead(v: Variant, c: Config, s: State, steps: seq<Step>)
    requires c.Valid() && v.prepare && v.finalWait && Ready(s) && Run(v, c, s, steps)
    ensures Inv(c, End(v, c, s, steps)) && AfterRead(End(v, c, s, steps))
    decreases |steps|
  {
    hide Inv, AfterRead, Enabled, Apply;
    if steps == [] {
      ReadyInv(c, s);
      ReadyFlagSync(s);
    } else {
      var front, step := steps[..|steps| - 1], steps[|steps| - 1];
      RunKeepsAfterRead(v, c, s, front);
      KeepsInv(v, c, End(v, c, s, front), step);
      KeepsAfterRead(v, c, End(v, c, s, front), step);
    }
  }

  /** fpy_read_data only ever looks while a result is there to be read. */
  ghost predicate ResultIsThere(v: Variant)
  {
    forall c: Config, s: State, steps: seq<Step> :: c.Valid() && Ready(s) && Run(v, c, s, steps) ==>
      var t := End(v, c, s, steps); t.pc.Data? || t.pc.Take? ==> t.dev.phase.Result?
  }

  lemma ResultIsThereToRead(v: Variant, c: Config, s: State, steps: seq<Step>)
    requires c.Valid() && v.prepare && v.finalWait && Ready(s) && Run(v, c, s, steps)
    ensures var t := End(v, c, s, steps); t.pc.Data? || t.pc.Take? ==> t.dev.phase.Result?
  {
    hide Holds, Progress, ReportsSuccess, Ready, Run, End, WellFormed, SectorOf, MovesNothing, Counted;
    RunKeepsAfterRead(v, c, s, steps);
  }

  // ---------------------------------------------------------------- the flags, turn by turn

  /** The flag and the wait of the source, point by point. */
  predicate FlagSync(s: State)
  {
    && AfterRead(s)
    && match s.pc
       case Fetch => s.irq.seen == Message && (!s.irq.disturbed ==> s.irq.received == s.irq.seen)
       case Clear =>
         && s.irq.seen != Nothing && (s.irq.verdict == NoError <==> s.irq.seen == One)
         && (!s.irq.disturbed ==> s.irq.received == s.irq.seen)
       case Data(j, _) => if j == 0 then Awaiting(s) else Settled(s)
       case Take(j) => if j == 0 then Awaiting(s) else Settled(s)
       case Copy(_) => Settled(s)
       case LoopHead => s.job.blocks > 0 ==> Settled(s)
       case _ => true
  }

  /** The flag has been cleared; the read's interrupt is in, or will put it up again. */
  predicate Awaiting(s: State)
  {
    if s.irq.late then s.dev.readPending || s.irq.received != Nothing
    else !s.dev.readPending && s.irq.received == Nothing
  }

  predicate Settled(s: State) { s.irq.late <==> s.irq.received != Nothing }

  lemma EnvironmentKeepsFlagSync(c: Config, s: State, step: Step)
    requires c.Valid() && Inv(c, s) && FlagSync(s) && Enabled(c, s, step) && !step.Main?
    ensures FlagSync(Apply(SOURCE, c, s, step))
  {
    hide SectorOf, CommandBytes, ReportsSuccess, Loaded, Progress, AfterSending, WellFormed, Holds, ApplyMain;
  }

  lemma MainKeepsFlagSync(c: Config, s: State, ready: bool, answer: Answer)
    requires c.Valid() && Inv(c, s) && FlagSync(s) && Enabled(c, s, Main(ready, answer))
    ensures FlagSync(ApplyMain(SOURCE, c, s, ready, answer))
  {
    hide SectorOf, CommandBytes, ReportsSuccess, Loaded, Progress, AfterSending, WellFormed, Write, Read, St0Ok, St1Ok,
         St2Ok, CommandLength, Holds, MovesNothing, Reads, Executes, CompletesSeek;
    TimeoutFailsChecks();
    KeepsAfterRead(SOURCE, c, s, Main(ready, answer));
  }

  lemma {:induction false} RunKeepsFlagSync(c: Config, s: State, steps: seq<Step>)
    requires c.Valid() && Ready(s) && Run(SOURCE, c, s, steps)
    ensures Inv(c, End(SOURCE, c, s, steps)) && FlagSync(End(SOURCE, c, s, steps))
    decreases |steps|
  {
    hide Inv, FlagSync, Enabled, ApplyMain;
    if steps == [] {
      ReadyInv(c, s);
      ReadyFlagSync(s);
    } else {
      var front, step := steps[..|steps| - 1], steps[|steps| - 1];
      RunKeepsFlagSync(c, s, front);
      var t := End(SOURCE, c, s, front);
      KeepsInv(SOURCE, c, t, step);
      if step.Main? { MainKeepsFlagSync(c, t, step.ready, step.answer); } else { EnvironmentKeepsFlagSync(c, t, step); }
    }
  }

  lemma ReadyFlagSync(s: State)
    requires Ready(s)
    ensures FlagSync(s) && AfterRead(s)
  {
  }

  /** fpy_wait_irq's verdict is about the flag as it was compared. It disagrees with the flag that is about to be
      cleared exactly when an interrupt that came after the comparison has changed the flag. */
  lemma WaitVerdict(c: Config, s: State, steps: seq<Step>)
    requires c.Valid() && Ready(s) && Run(SOURCE, c, s, steps)
    ensures var t := End(SOURCE, c, s, steps);
            t.pc == Clear ==>
              && (t.irq.verdict == NoError <==> t.irq.seen == One)
              && ((t.irq.verdict == NoError <==> t.irq.received == One)
                  <==> !(t.irq.disturbed && t.irq.received != t.irq.seen))
  {
    hide Sync, Progress;
    RunKeepsFlagSync(c, s, steps);
  }

  /** Each successful turn ends with the handler handling again and nothing pending; the flag is 0 exactly when
      the read's interrupt was in before the wait cleared it, and the controller is idle exactly when no
      read of the result gave up. */
  lemma TurnEndsClean(c: Config, s: State, steps: seq<Step>)
    requires c.Valid() && Ready(s) && Run(SOURCE, c, s, steps)
    requires End(SOURCE, c, s, steps).pc == LoopHead && End(SOURCE, c, s, steps).job.blocks > 0
    ensures var t := End(SOURCE, c, s, steps);
            && Quiet(t) && (t.irq.received == Nothing <==> !t.irq.late)
            && t.dev.taken + t.dev.missed == 7 && t.dev.missed <= 4 && (t.dev.phase == Idle <==> t.dev.missed == 0)
  {
    RunKeepsFlagSync(c, s, steps);
  }

  // ---------------------------------------------------------------- failures stick

  /** fpy_send_command's first look decides: the command is begun exactly if the look shows mrq and no result. */
  lemma FirstLookDecides(v: Variant, c: Config, s: State, steps: seq<Step>, look: Step, cmd: Which)
    requires c.Valid() && Run(v, c, s, steps) && End(v, c, s, steps).pc == Check(cmd)
    requires look.Main? && Enabled(c, End(v, c, s, steps), look)
    ensures var t, u := End(v, c, s, steps), Apply(v, c, End(v, c, s, steps), look);
            && u.dev == t.dev && u.job == t.job && (u.pc == Ended(false) || u.pc == Poll(cmd, 0))
            && (u.pc == Ended(false) <==> !look.ready || t.dev.phase.Execution? || t.dev.phase.Result?)
  {
  }

  /** A turn that fails on its result leaves the controller in the result phase. */
  lemma BadResultIsLeftBehind(c: Config, s: State, ready: bool, answer: Answer)
    requires c.Valid() && Inv(c, s) && FlagSync(s) && Enabled(c, s, Main(ready, answer)) && (s.pc.Data? || s.pc.Take?)
    requires ApplyMain(SOURCE, c, s, ready, answer).pc == Ended(false)
    ensures ApplyMain(SOURCE, c, s, ready, answer).dev.phase.Result?
  {
    hide SectorOf, CommandBytes, ReportsSuccess, Loaded, Progress, St0Ok, St1Ok, St2Ok, Holds;
  }

  /** With a result pending, a call gets no further than its first look at the status: nothing is sent, nothing
      is taken, nothing is copied, whatever interrupts come. */
  lemma {:induction false} PendingResultBlocks(v: Variant, c: Config, s: State, steps: seq<Step>)
    requires c.Valid() && c.count > 0 && Run(v, c, s, steps)
    requires s.pc == LoopHead && s.dev.phase.Result? && s.job == NO_JOB
    ensures var t := End(v, c, s, steps);
            && (t.pc == LoopHead || t.pc == Check(SeekCmd) || t.pc == Ended(false))
            && t.dev.phase == s.dev.phase && t.job == s.job
    decreases |steps|
  {
    hide WellFormed;
    if steps != [] { PendingResultBlocks(v, c, s, steps[..|steps| - 1]); }
  }
}
