/**
  A call after one that was cut in a read: its bytes complete that read to some other command. If no sector of the
  disk answers it, the call fails with nothing copied, in every interleaving.
 */
module HandshakeMisread {
  import opened CInt
  import opened Fdc
  import opened FloppyDriver
  import opened Handshake
  import opened HandshakeInvariant
  import opened HandshakeHandler

  /** The seek and the read of this turn. */
  function Turn(c: Config, s: State): (bs: seq<byte>)
    requires c.Valid()
    ensures |bs| == 12
  {
    CommandBytes(c, s, SeekCmd) + CommandBytes(c, s, ReadCmd)
  }

  /** What the controller, left in phase `p`, makes of the turn's bytes. */
  function Completed(c: Config, s: State, p: Phase): seq<byte>
    requires c.Valid() && p.Command? && p.left <= 12
  {
    p.received + Turn(c, s)[..p.left]
  }

  lemma CompletedSame(c: Config, s: State, t: State, p: Phase)
    requires c.Valid() && p.Command? && p.left <= 12 && s.job.blocks == t.job.blocks
    ensures Completed(c, t, p) == Completed(c, s, p) && Turn(c, t) == Turn(c, s)
  {
    CommandBytesSame(c, s, t);
  }

  /** A read that no sector answers: it cannot end well. */
  predicate Hopeless(c: Config, full: seq<byte>) { Reads(full) && SectorOf(c.disk, c.g, full) == [] }

  /** The result of a read that failed, with `j` of its bytes taken, all of which were good. */
  predicate Failed(s: State, j: nat)
  {
    && |s.dev.result| == 7 && !ReportsSuccess(s.dev.result) && s.dev.taken == j <= 2
    && s.dev.phase == Result(s.dev.result[j..])
    && (j >= 1 ==> St0Ok(s.dev.result[0])) && (j >= 2 ==> St1Ok(s.dev.result[1]))
  }

  /** The phase after `k` bytes of the turn. */
  predicate PhaseAfter(s: State, p: Phase, full: seq<byte>, k: nat)
    requires p.Command? && |full| == |p.received| + p.left
  {
    if k < p.left then s.dev.phase == Command(full[..|p.received| + k], p.left - k)
    else s.dev.phase == Execution(full) || Failed(s, 0)
  }

  /** How many bytes of the turn have gone out. */
  function BytesOut(pc: Pc): nat
  {
    match pc
    case Check(cmd) => if cmd == SeekCmd then 0 else 3
    case Poll(cmd, i) => if cmd == SeekCmd then i else 3 + i
    case Try(cmd, i, _) => if cmd == SeekCmd then i else 3 + i
    case Put(cmd, i) => if cmd == SeekCmd then i else 3 + i
    case Final(cmd) => if cmd == SeekCmd then 3 else 12
    case Prepare => 3
    case LoopHead => 0
    case _ => 12
  }

  /** Along a run from phase `p`, a read with more bytes missing than a seek has. */
  ghost predicate Misreading(c: Config, p: Phase, s: State)
    requires c.Valid()
  {
    && InRead(p) && 3 < p.left <= 8 && s.job.blocks == 0 && s.job.out == [] && KeptOut(c, s)
    && Hopeless(c, Completed(c, s, p)) && (s.pc.LoopHead? ==> Left(c, s) > 0)
    && match s.pc
       case Spin => Failed(s, 0)
       case Compare => Failed(s, 0)
       case Fetch => Failed(s, 0)
       case Clear => Failed(s, 0)
       case Data(j, _) => Failed(s, j)
       case Take(j) => Failed(s, j)
       case Copy(_) => false
       case Ended(ok) => !ok
       case _ => PhaseAfter(s, p, Completed(c, s, p), BytesOut(s.pc))
  }

  lemma MisreadingStarts(c: Config, s: State)
    requires c.Valid() && Steady(s) && s.job == NO_JOB && c.count > 0 && InRead(s.dev.phase) && 3 < s.dev.phase.left
    requires s.dev.phase.left <= 8 && Hopeless(c, Completed(c, s, s.dev.phase))
    ensures Misreading(c, s.dev.phase, s)
  {
    hide Hopeless;
    SteadyKeepsOut(c, s);
    var full, r := Completed(c, s, s.dev.phase), s.dev.phase.received;
    assert full[..|r| + 0] == r;
  }

  lemma DeliverKeepsMisreading(c: Config, p: Phase, s: State, step: Step)
    requires c.Valid() && Misreading(c, p, s) && step.Deliver? && Enabled(c, s, step)
    ensures Misreading(c, p, Apply(SOURCE, c, s, step))
  {
    hide Hopeless, Completed, ReportsSuccess, SectorOf, CommandBytes, St0Ok, St1Ok;
    CompletedSame(c, s, Apply(SOURCE, c, s, step), p);
    EnvironmentKeepsOut(SOURCE, c, s, step);
  }

  lemma FinishKeepsMisreading(c: Config, p: Phase, s: State, step: Step)
    requires c.Valid() && Misreading(c, p, s) && step.Finish? && Enabled(c, s, step)
    ensures Misreading(c, p, Apply(SOURCE, c, s, step))
  {
    hide Completed, ReportsSuccess, SectorOf, CommandBytes, St0Ok, St1Ok;
    CompletedSame(c, s, Apply(SOURCE, c, s, step), p);
    EnvironmentKeepsOut(SOURCE, c, s, step);
    assert step.result[0..] == step.result;
  }

  /** Byte `k` of the turn is what the main line is about to write. */
  lemma NextOfTurn(c: Config, s: State)
    requires c.Valid() && s.pc.Put? && s.pc.i < Length(s.pc.cmd)
    ensures var k := BytesOut(s.pc); k < 12 && Turn(c, s)[k] == CommandBytes(c, s, s.pc.cmd)[s.pc.i]
  {
  }

  lemma PutKeepsMisreading(c: Config, p: Phase, s: State, step: Step)
    requires c.Valid() && Misreading(c, p, s) && step.Main? && Enabled(c, s, step) && s.pc.Put?
    ensures Misreading(c, p, Apply(SOURCE, c, s, step))
  {
    hide Hopeless, ReportsSuccess, SectorOf, CommandBytes, St0Ok, St1Ok, Write, CompletesSeek, Turn, Executes, WellFormed;
    var t, k, b := Apply(SOURCE, c, s, step), BytesOut(s.pc), CommandBytes(c, s, s.pc.cmd)[s.pc.i];
    var full := Completed(c, s, p);
    CompletedSame(c, s, t, p);
    PutKeepsOut(SOURCE, c, s, step);
    NextOfTurn(c, s);
    if k < p.left {
      assert full[|p.received| + k] == b && full[..|p.received| + k] + [b] == full[..|p.received| + k + 1];
      CommandTakes(full[..|p.received| + k], p.left - k, b, step.answer);
      assert full[0] == p.received[0];
      assert k + 1 == p.left ==> full[..|p.received| + k + 1] == full;
    } else {
      ByteIsLost(s.dev.phase, b, step.answer);
    }
  }

  lemma CommandTakes(received: seq<byte>, left: nat, b: byte, answer: Answer)
    requires WellFormed(Command(received, left))
    ensures Executes(received[0]) ==>
              Write(Command(received, left), b, answer)
              == if left == 1 then Execution(received + [b]) else Command(received + [b], left - 1)
  {
  }

  lemma ByteIsLost(p: Phase, b: byte, answer: Answer)
    requires WellFormed(p) && (p.Execution? || p.Result?)
    ensures Write(p, b, answer) == p
  {
  }

  /** The looks at the status, and the steps of the wait. */
  lemma LookKeepsMisreading(c: Config, p: Phase, s: State, step: Step)
    requires c.Valid() && Misreading(c, p, s) && step.Main? && Enabled(c, s, step) && !s.pc.Put? && !s.pc.Take?
    ensures Misreading(c, p, Apply(SOURCE, c, s, step))
  {
    hide Hopeless, Completed, ReportsSuccess, SectorOf, CommandBytes, St0Ok, St1Ok, St2Ok, KeptOut, WellFormed;
    TimeoutFailsChecks();
    CompletedSame(c, s, Apply(SOURCE, c, s, step), p);
    KeepsKeptOut(SOURCE, c, s, step);
  }

  lemma TakeKeepsMisreading(c: Config, p: Phase, s: State, step: Step)
    requires c.Valid() && Misreading(c, p, s) && step.Main? && Enabled(c, s, step) && s.pc.Take?
    ensures Misreading(c, p, Apply(SOURCE, c, s, step))
  {
    hide Hopeless, Completed, ReportsSuccess, SectorOf, CommandBytes, St0Ok, St1Ok, St2Ok, KeptOut, WellFormed;
    var r, j := s.dev.result, s.pc.j;
    ChecksPassIff(r);
    CompletedSame(c, s, Apply(SOURCE, c, s, step), p);
    KeepsKeptOut(SOURCE, c, s, step);
    assert r[j..][0] == r[j] && r[j..][1..] == r[j + 1..];
  }

  lemma KeepsMisreading(c: Config, p: Phase, s: State, step: Step)
    requires c.Valid() && Misreading(c, p, s) && Enabled(c, s, step)
    ensures Misreading(c, p, Apply(SOURCE, c, s, step))
  {
    hide Misreading, Apply, Enabled;
    match step
    case Deliver(_, _, _, _) => DeliverKeepsMisreading(c, p, s, step);
    case Finish(_, _) => FinishKeepsMisreading(c, p, s, step);
    case Main(_, _) =>
      match s.pc
      case Put(_, _) => PutKeepsMisreading(c, p, s, step);
      case Take(_) => TakeKeepsMisreading(c, p, s, step);
      case _ => LookKeepsMisreading(c, p, s, step);
  }

  lemma {:induction false} RunKeepsMisreading(c: Config, p: Phase, s: State, steps: seq<Step>)
    requires c.Valid() && Misreading(c, p, s) && Run(SOURCE, c, s, steps)
    ensures Misreading(c, p, End(SOURCE, c, s, steps))
    decreases |steps|
  {
    hide Misreading, Apply, Enabled;
    if steps != [] {
      var front := steps[..|steps| - 1];
      RunKeepsMisreading(c, p, s, front);
      KeepsMisreading(c, p, End(SOURCE, c, s, front), steps[|steps| - 1]);
    }
  }

  /** After a call that was cut in a read with more than three bytes missing: if no sector answers what the bytes of
      this call's first turn complete that read to, then nothing is ever copied and the call does not succeed. */
  lemma MisreadCopiesNothing(c: Config, s: State, steps: seq<Step>)
    requires c.Valid() && Steady(s) && s.job == NO_JOB && c.count > 0 && Run(SOURCE, c, s, steps)
    requires InRead(s.dev.phase) && 3 < s.dev.phase.left <= 8 && Hopeless(c, Completed(c, s, s.dev.phase))
    ensures End(SOURCE, c, s, steps).job.out == [] && End(SOURCE, c, s, steps).pc != Ended(true)
  {
    hide Run, End, Hopeless, Steady, Completed;
    MisreadingStarts(c, s);
    RunKeepsMisreading(c, s.dev.phase, s, steps);
  }
}
