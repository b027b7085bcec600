/** Where the interrupt handler writes to the FIFO: in any run of any number of calls, unless one was left in a seek. */
module HandshakeHandler {
  import opened CInt
  import opened Fdc
  import opened FloppyDriver
  import opened Handshake
  import opened HandshakeInvariant

  predicate Sending(pc: Pc) { pc.Poll? || pc.Try? || pc.Put? }

  /** From the last byte of the read on, the seek's interrupt is in. */
  predicate AfterLastByte(pc: Pc)
  {
    pc == Final(ReadCmd) || pc.Spin? || pc.Compare? || pc.Fetch? || pc.Clear? || pc.Data? || pc.Take? || pc.Copy?
  }

  predicate PastFirstByte(pc: Pc) { (pc.Data? && pc.j >= 1) || (pc.Take? && pc.j >= 1) || pc.Copy? }

  /** A seek is in the controller only as far as the main line has sent it. */
  predicate OwnSeek(s: State)
    requires WellFormed(s.dev.phase)
  {
    s.dev.phase.Command? && !Executes(s.dev.phase.received[0]) ==>
      && s.dev.phase.received[0] == SEEK
      && (s.pc.Ended? || (Sending(s.pc) && s.pc.cmd == SeekCmd && |s.dev.phase.received| == s.pc.i))
  }

  /** What keeps the handler out, whether what is sent is understood or lost on an earlier read. */
  ghost predicate KeptOut(c: Config, s: State)
  {
    && PcFits(s.pc) && WellFormed(s.dev.phase) && |s.dev.buffer| >= SECTOR_SIZE && OwnSeek(s)
    && (s.dev.readPending ==> s.dev.phase.Result?)
    && (s.dev.seekPending ==>
          s.irq.noHandle || s.dev.phase.Result? || ((s.pc == Final(SeekCmd) || s.pc.Prepare?) && s.dev.phase.Idle?))
    && (AfterLastByte(s.pc) ==> !s.dev.seekPending)
    && (PastFirstByte(s.pc) ==> Rested(s.dev.phase) && !s.dev.readPending)
    && (Sending(s.pc) && s.dev.phase.Idle? ==> s.pc.i == 0)
  }

  lemma SteadyKeepsOut(c: Config, s: State)
    requires Steady(s)
    ensures KeptOut(c, s)
  {
  }

  lemma EnvironmentKeepsOut(v: Variant, c: Config, s: State, step: Step)
    requires c.Valid() && KeptOut(c, s) && Enabled(c, s, step) && !step.Main?
    ensures KeptOut(c, Apply(v, c, s, step))
  {
    hide SectorOf, ReportsSuccess, ApplyMain;
  }

  /** What a byte does, for the phases a main line can meet. */
  lemma WhereByteLeads(p: Phase, b: byte, answer: Answer)
    requires WellFormed(p) && (p.Command? && !Executes(p.received[0]) ==> p.received[0] == SEEK)
    ensures var q := Write(p, b, answer);
            match p
            case Idle =>
              && (Executes(b) ==> q.Execution? || (q.Command? && q.received == [b]))
              && (b == SEEK ==> q == Command([b], 2))
            case Command(received, left) =>
              if Executes(received[0]) then q.Execution? || (q.Command? && q.received[0] == received[0])
              else if left == 1 then q == Idle && |received| == 2 else q == Command(received + [b], 1) && |received| == 1
            case _ => q == p
    ensures CompletesSeek(p) <==> p.Command? && p.left == 1 && p.received[0] == SEEK
    ensures !Executes(SEEK)
  {
  }

  lemma PutKeepsOut(v: Variant, c: Config, s: State, step: Step)
    requires c.Valid() && v.prepare && KeptOut(c, s) && Enabled(c, s, step) && step.Main? && s.pc.Put?
    ensures KeptOut(c, Apply(v, c, s, step))
  {
    hide SectorOf, ReportsSuccess, CommandBytes, CommandLength, Write, Executes, WellFormed, CompletesSeek;
    var p, bs := s.dev.phase, CommandBytes(c, s, s.pc.cmd);
    CommandShape(c, s, s.pc.cmd);
    WhereByteLeads(p, bs[s.pc.i], step.answer);
    MainStaysWellFormed(v, c, s, step.ready, step.answer);
  }

  lemma TakeKeepsOut(v: Variant, c: Config, s: State, step: Step)
    requires c.Valid() && KeptOut(c, s) && Enabled(c, s, step) && step.Main? && s.pc.Take?
    ensures KeptOut(c, Apply(v, c, s, step))
  {
    hide SectorOf, ReportsSuccess, CommandBytes, St0Ok, St1Ok, St2Ok, CommandLength, Executes;
    TimeoutFailsChecks();
  }

  /** The looks at the status that lead on in a command or to its result. */
  lemma LookKeepsOut(v: Variant, c: Config, s: State, step: Step)
    requires c.Valid() && v.prepare && KeptOut(c, s) && Enabled(c, s, step) && step.Main?
    requires s.pc.LoopHead? || s.pc.Check? || s.pc.Poll? || s.pc.Try? || s.pc.Final?
    ensures KeptOut(c, Apply(v, c, s, step))
  {
    hide SectorOf, ReportsSuccess, CommandBytes, CommandLength, Executes, WellFormed;
  }

  /** The preparation, the wait, the looks for result bytes, and the copy. */
  lemma RestKeepsOut(v: Variant, c: Config, s: State, step: Step)
    requires c.Valid() && v.prepare && KeptOut(c, s) && Enabled(c, s, step) && step.Main? && !s.pc.Put? && !s.pc.Take?
    requires !(s.pc.LoopHead? || s.pc.Check? || s.pc.Poll? || s.pc.Try? || s.pc.Final?)
    ensures KeptOut(c, Apply(v, c, s, step))
  {
    hide SectorOf, ReportsSuccess, CommandBytes, St0Ok, St1Ok, St2Ok, CommandLength, Executes, Read, WellFormed;
    TimeoutFailsChecks();
  }

  lemma KeepsKeptOut(v: Variant, c: Config, s: State, step: Step)
    requires c.Valid() && v.prepare && KeptOut(c, s) && Enabled(c, s, step)
    ensures KeptOut(c, Apply(v, c, s, step))
  {
    hide KeptOut, Apply, Enabled;
    match step
    case Deliver(_, _, _, _) => EnvironmentKeepsOut(v, c, s, step);
    case Finish(_, _) => EnvironmentKeepsOut(v, c, s, step);
    case Main(_, _) =>
      match s.pc
      case Put(_, _) => PutKeepsOut(v, c, s, step);
      case Take(_) => TakeKeepsOut(v, c, s, step);
      case LoopHead => LookKeepsOut(v, c, s, step);
      case Check(_) => LookKeepsOut(v, c, s, step);
      case Poll(_, _) => LookKeepsOut(v, c, s, step);
      case Try(_, _, _) => LookKeepsOut(v, c, s, step);
      case Final(_) => LookKeepsOut(v, c, s, step);
      case _ => RestKeepsOut(v, c, s, step);
  }

  lemma {:induction false} RunKeepsOut(v: Variant, c: Config, s: State, steps: seq<Step>)
    requires c.Valid() && v.prepare && KeptOut(c, s) && Run(v, c, s, steps)
    ensures KeptOut(c, End(v, c, s, steps))
    decreases |steps|
  {
    hide KeptOut, Apply, Enabled;
    if steps != [] {
      var front := steps[..|steps| - 1];
      RunKeepsOut(v, c, s, front);
      KeepsKeptOut(v, c, End(v, c, s, front), steps[|steps| - 1]);
    }
  }

  /** Nowhere in a run does the handler write to the FIFO between two bytes of a main-line command, or while the
      controller is in the middle of one. */
  ghost predicate HandlerStaysOut(v: Variant, c: Config, s: State, steps: seq<Step>)
    requires c.Valid() && Run(v, c, s, steps)
  {
    steps != [] && steps[|steps| - 1].Deliver? && steps[|steps| - 1].wrote ==>
      var t := End(v, c, s, steps[..|steps| - 1]);
      !MidCommand(t.pc) && !t.dev.phase.Command?
  }

  /** The state in which an interrupt is delivered and sensed is never one of those. */
  lemma SensedOutsideCommands(c: Config, s: State, step: Step)
    requires c.Valid() && KeptOut(c, s) && Enabled(c, s, step) && step.Deliver? && step.wrote
    ensures !MidCommand(s.pc) && !s.dev.phase.Command?
  {
    hide SectorOf, ReportsSuccess;
  }

  /** In every run of every variant that prepares, from any state in which the controller is not left in a seek. */
  lemma HandlerNeverCutsIn(v: Variant, c: Config, s: State, steps: seq<Step>)
    requires c.Valid() && v.prepare && Steady(s) && Run(v, c, s, steps)
    ensures HandlerStaysOut(v, c, s, steps)
  {
    hide KeptOut, Apply, Enabled;
    SteadyKeepsOut(c, s);
    if steps != [] && steps[|steps| - 1].Deliver? && steps[|steps| - 1].wrote {
      var front := steps[..|steps| - 1];
      RunKeepsOut(v, c, s, front);
      SensedOutsideCommands(c, End(v, c, s, front), steps[|steps| - 1]);
    }
  }
}
