/** Calls of fpy_copy_bytes one after the other, and what a call that failed leaves to the next. */
module HandshakeSessions {
  import opened Fdc
  import opened FloppyDriver
  import opened FloppyCopy
  import opened Handshake
  import opened HandshakeInvariant
  import opened HandshakeHandler
  import opened HandshakeRuns

  /** The state the next call starts from: flags, controller and pending interrupts as this one left them. */
  function NextCall(s: State): State { s.(pc := LoopHead, job := NO_JOB) }

  /** Left in the middle of a seek. */
  predicate CutInSeek(p: Phase) { p.Command? && !InRead(p) }

  /** Left in the middle of a seek, or of a read with more bytes missing than a seek has. */
  predicate CutEarly(p: Phase) { p.Command? && !Begun(p, 3) }

  /** Once a call has ended, the next one starts ready unless a command byte timed out in a seek, or early in a
      read. */
  lemma NextCallIsReady(c: Config, s: State, steps: seq<Step>)
    requires c.Valid() && Ready(s) && Run(SOURCE, c, s, steps) && End(SOURCE, c, s, steps).pc.Ended?
    ensures var t := End(SOURCE, c, s, steps);
            && (Ready(NextCall(t)) <==> !CutEarly(t.dev.phase))
            && (t.pc == Ended(true) ==> Ready(NextCall(t)))
  {
    hide Progress, Run, End;
    RunKeepsFlagSync(c, s, steps);
  }

  /** And the handler still keeps out of it unless a byte timed out in a seek. */
  lemma NextCallIsSteady(c: Config, s: State, steps: seq<Step>)
    requires c.Valid() && Steady(s) && Run(SOURCE, c, s, steps) && End(SOURCE, c, s, steps).pc.Ended?
    ensures var t := End(SOURCE, c, s, steps); Steady(NextCall(t)) <==> !CutInSeek(t.dev.phase)
  {
    hide Run, End;
    SteadyKeepsOut(c, s);
    RunKeepsOut(SOURCE, c, s, steps);
  }

  lemma ReadyIsSteady(s: State)
    requires Ready(s)
    ensures Steady(s)
  {
  }

  /** load_protected: when stage 4's load fails on a result, stage 5's copies nothing, in every interleaving. */
  lemma FailedLoadBlocksTheNext(c4: Config, s: State, steps: seq<Step>, ready: bool, answer: Answer,
                                c5: Config, more: seq<Step>)
    requires c4.Valid() && c5.Valid() && c5.count > 0 && Ready(s) && Run(SOURCE, c4, s, steps)
    requires var t := End(SOURCE, c4, s, steps);
             && (t.pc.Data? || t.pc.Take?) && Enabled(c4, t, Main(ready, answer))
             && ApplyMain(SOURCE, c4, t, ready, answer).pc == Ended(false)
             && Run(SOURCE, c5, NextCall(ApplyMain(SOURCE, c4, t, ready, answer)), more)
    ensures var t := End(SOURCE, c4, s, steps);
            End(SOURCE, c5, NextCall(ApplyMain(SOURCE, c4, t, ready, answer)), more).job.out == []
  {
    hide Inv, FlagSync, Enabled, ApplyMain, Apply;
    RunKeepsFlagSync(c4, s, steps);
    var t := End(SOURCE, c4, s, steps);
    BadResultIsLeftBehind(c4, t, ready, answer);
    PendingResultBlocks(SOURCE, c5, NextCall(ApplyMain(SOURCE, c4, t, ready, answer)), more);
  }

  // ---------------------------------------------------------------- any number of calls

  datatype Call = Call(c: Config, steps: seq<Step>)

  /** Calls that follow each other: each starts as the one before, which has ended, left flags, controller and
      interrupts. */
  ghost predicate Session(s: State, calls: seq<Call>)
    decreases |calls|
  {
    calls != [] ==>
      var Call(c, steps) := calls[0];
      && c.Valid() && Run(SOURCE, c, s, steps)
      && (|calls| > 1 ==> End(SOURCE, c, s, steps).pc.Ended?)
      && Session(NextCall(End(SOURCE, c, s, steps)), calls[1..])
  }

  /** Where call `i` starts, and where it has got to. */
  ghost function Start(s: State, calls: seq<Call>, i: nat): (t: State)
    requires Session(s, calls) && i < |calls|
    ensures calls[i].c.Valid() && Run(SOURCE, calls[i].c, t, calls[i].steps)
    ensures i + 1 < |calls| ==> End(SOURCE, calls[i].c, t, calls[i].steps).pc.Ended?
    decreases i
  {
    if i == 0 then s else Start(NextCall(End(SOURCE, calls[0].c, s, calls[0].steps)), calls[1..], i - 1)
  }

  ghost function Stop(s: State, calls: seq<Call>, i: nat): State
    requires Session(s, calls) && i < |calls|
  {
    End(SOURCE, calls[i].c, Start(s, calls, i), calls[i].steps)
  }

  lemma {:induction false} StartsWhereStopped(s: State, calls: seq<Call>, i: nat)
    requires Session(s, calls) && i + 1 < |calls|
    ensures Start(s, calls, i + 1) == NextCall(Stop(s, calls, i))
    decreases i
  {
    hide Run, End;
    if i > 0 { StartsWhereStopped(NextCall(End(SOURCE, calls[0].c, s, calls[0].steps)), calls[1..], i - 1); }
  }

  /** Every call of a session starts ready, so that all that is said of one call holds of each, as long as none
      before it was cut in a seek or early in a read. */
  lemma {:induction false} EveryCallIsReady(s: State, calls: seq<Call>, i: nat)
    requires Ready(s) && Session(s, calls) && i < |calls|
    requires forall k :: 0 <= k < i ==> !CutEarly(Stop(s, calls, k).dev.phase)
    ensures Ready(Start(s, calls, i))
    decreases i
  {
    hide Ready, Run, End, CutEarly;
    if i > 0 {
      EveryCallIsReady(s, calls, i - 1);
      NextCallIsReady(calls[i - 1].c, Start(s, calls, i - 1), calls[i - 1].steps);
      StartsWhereStopped(s, calls, i - 1);
      assert !CutEarly(Stop(s, calls, i - 1).dev.phase);
    }
  }

  /** The handler keeps out of every call as long as none before it was cut in a seek. */
  lemma {:induction false} EveryCallIsSteady(s: State, calls: seq<Call>, i: nat)
    requires Steady(s) && Session(s, calls) && i < |calls|
    requires forall k :: 0 <= k < i ==> !CutInSeek(Stop(s, calls, k).dev.phase)
    ensures Steady(Start(s, calls, i)) && HandlerStaysOut(SOURCE, calls[i].c, Start(s, calls, i), calls[i].steps)
    decreases i
  {
    hide Steady, Run, End, CutInSeek, HandlerStaysOut;
    if i > 0 {
      EveryCallIsSteady(s, calls, i - 1);
      NextCallIsSteady(calls[i - 1].c, Start(s, calls, i - 1), calls[i - 1].steps);
      StartsWhereStopped(s, calls, i - 1);
      assert !CutInSeek(Stop(s, calls, i - 1).dev.phase);
    }
    HandlerNeverCutsIn(SOURCE, calls[i].c, Start(s, calls, i), calls[i].steps);
  }

  /** No wait goes without an interrupt in any call, whatever the calls before it have left. */
  lemma {:induction false} EveryCallIsCounted(s: State, calls: seq<Call>, i: nat)
    requires Counted(s) && Session(s, calls) && i < |calls|
    ensures Counted(Start(s, calls, i)) && Counted(Stop(s, calls, i))
    decreases i
  {
    hide Run, End;
    if i > 0 {
      EveryCallIsCounted(s, calls, i - 1);
      StartsWhereStopped(s, calls, i - 1);
    }
    RunKeepsCount(SOURCE, calls[i].c, Start(s, calls, i), calls[i].steps);
  }

  /** What is copied is right where `steps` have led, and a successful end means the slice that was asked for. */
  ghost predicate CopiesRight(c: Config, s: State, steps: seq<Step>)
    requires c.Valid() && Run(SOURCE, c, s, steps)
  {
    var t := End(SOURCE, c, s, steps);
    && Loaded(t.job.out, c.disk, c.sector, 0, |t.job.out|)
    && (t.pc == Ended(true) && c.count > 0 && c.sector + BlocksOf(c.count) <= 256 ==>
          && SECTOR_SIZE * c.sector + c.count <= |c.disk|
          && t.job.out == c.disk[SECTOR_SIZE * c.sector..SECTOR_SIZE * c.sector + c.count])
  }

  lemma CallCopiesRight(c: Config, s: State, steps: seq<Step>)
    requires c.Valid() && Ready(s) && Run(SOURCE, c, s, steps)
    ensures CopiesRight(c, s, steps)
  {
    hide Ready, Run, End, Loaded;
    RunCopiesSlice(SOURCE, c, s, steps);
  }

  /** load_protected after fpy_setup_idt, in every interleaving of both calls. The first goes right. The waits of the
      second are counted right; the handler keeps out of it unless the first was cut in a seek; what it copies is right
      unless the first was cut in a seek or early in a read; and it copies nothing if the first left a result. */
  lemma BothLoadsGoRight(c4: Config, c5: Config, s: State, steps4: seq<Step>, steps5: seq<Step>)
    requires Initial(s) && Session(s, [Call(c4, steps4), Call(c5, steps5)])
    ensures HandlerStaysOut(SOURCE, c4, s, steps4) && CopiesRight(c4, s, steps4) && Counted(End(SOURCE, c4, s, steps4))
    ensures var t := End(SOURCE, c4, s, steps4);
            && c5.Valid() && Run(SOURCE, c5, NextCall(t), steps5)
            && Counted(End(SOURCE, c5, NextCall(t), steps5))
            && (!CutInSeek(t.dev.phase) ==> HandlerStaysOut(SOURCE, c5, NextCall(t), steps5))
            && (!CutEarly(t.dev.phase) ==> CopiesRight(c5, NextCall(t), steps5))
            && (t.dev.phase.Result? && c5.count > 0 ==> End(SOURCE, c5, NextCall(t), steps5).job.out == [])
  {
    hide Ready, Steady, Run, End, HandlerStaysOut, CopiesRight, Counted, CutInSeek, CutEarly;
    var calls := [Call(c4, steps4), Call(c5, steps5)];
    InitialIsReady(s);
    ReadyIsSteady(s);
    ReadyIsCounted(s);
    EveryCallIsCounted(s, calls, 1);
    EveryCallIsSteady(s, calls, 0);
    CallCopiesRight(c4, s, steps4);
    EveryCallIsCounted(s, calls, 0);
    StartsWhereStopped(s, calls, 0);
    var t := Stop(s, calls, 0);
    if !CutInSeek(t.dev.phase) { EveryCallIsSteady(s, calls, 1); }
    if !CutEarly(t.dev.phase) {
      EveryCallIsReady(s, calls, 1);
      CallCopiesRight(c5, NextCall(t), steps5);
    }
    if t.dev.phase.Result? && c5.count > 0 { PendingResultBlocks(SOURCE, c5, NextCall(t), steps5); }
  }

  lemma ReadyIsCounted(s: State)
    requires Ready(s)
    ensures Counted(s)
  {
  }
}
