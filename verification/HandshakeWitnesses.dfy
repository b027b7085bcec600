/**
  Runs that show where a property ends: without the preparation, without the last loop on mrq, with an interrupt
  inside the wait, and with reads of the result that give up.
 */
module HandshakeWitnesses {
  import opened CInt
  import opened Chs
  import opened Fdc
  import opened FloppyDriver
  import opened FloppyIrq
  import opened FloppyCopy
  import opened Handshake
  import opened HandshakeInvariant
  import opened HandshakeHandler
  import opened HandshakeRuns
  import opened HandshakeSessions

  // ---------------------------------------------------------------- what the safety rests on

  ghost predicate HandlerSafe(v: Variant)
  {
    forall c: Config, s: State, steps: seq<Step> ::
      c.Valid() && Steady(s) && Run(v, c, s, steps) ==> HandlerStaysOut(v, c, s, steps)
  }

  lemma Extend(v: Variant, c: Config, s: State, steps: seq<Step>, t: State, step: Step)
    requires c.Valid() && Run(v, c, s, steps) && End(v, c, s, steps) == t && Enabled(c, t, step)
    ensures Run(v, c, s, steps + [step]) && End(v, c, s, steps + [step]) == Apply(v, c, t, step)
  {
    assert (steps + [step])[..|steps|] == steps;
  }

  /** The controller is ready at once: one byte of a command goes out in three steps. */
  lemma SendOne(v: Variant, c: Config, s: State, steps: seq<Step>, t: State, cmd: Which, i: nat)
    returns (longer: seq<Step>, u: State)
    requires c.Valid() && Run(v, c, s, steps) && End(v, c, s, steps) == t
    requires t.pc == Poll(cmd, i) && i < Length(cmd) && (cmd == ReadCmd && i == 8 ==> !t.dev.seekPending)
    requires Accepting(t.dev.phase) && WellFormed(t.dev.phase) && |t.dev.buffer| >= SECTOR_SIZE
    ensures Run(v, c, s, longer) && End(v, c, s, longer) == u
    ensures u == ApplyPut(c, t, cmd, i, [0, 0])
  {
    hide Write, CommandBytes, WellFormed, Run, End;
    var go := Main(true, [0, 0]);
    Extend(v, c, s, steps, t, go);
    var t1 := t.(pc := Try(cmd, i, 0));
    Extend(v, c, s, steps + [go], t1, go);
    var t2 := t.(pc := Put(cmd, i));
    Extend(v, c, s, steps + [go] + [go], t2, go);
    CommandBytesSame(c, t, t2);
    longer := steps + [go] + [go] + [go];
    u := ApplyPut(c, t, cmd, i, [0, 0]);
  }

  /** Where a look leads when the controller is ready and in the command phase. */
  function Onward(pc: Pc): Pc
  {
    match pc
    case LoopHead => Check(SeekCmd)
    case Check(cmd) => Poll(cmd, 0)
    case Final(cmd) => if cmd == SeekCmd then Prepare else pc
    case Prepare => Check(ReadCmd)
    case _ => pc
  }

  lemma GoOn(v: Variant, c: Config, s: State, steps: seq<Step>, t: State) returns (longer: seq<Step>, u: State)
    requires c.Valid() && Run(v, c, s, steps) && End(v, c, s, steps) == t && (t.pc.Prepare? ==> !v.prepare)
    requires t.pc.LoopHead? || t.pc.Check? || t.pc == Final(SeekCmd) || t.pc.Prepare?
    requires Accepting(t.dev.phase) && WellFormed(t.dev.phase) && |t.dev.buffer| >= SECTOR_SIZE
    requires t.pc.LoopHead? ==> Left(c, t) > 0
    ensures Run(v, c, s, longer) && End(v, c, s, longer) == u && u == t.(pc := Onward(t.pc))
  {
    hide CommandBytes, Run, End;
    var go := Main(true, [0, 0]);
    Extend(v, c, s, steps, t, go);
    longer, u := steps + [go], t.(pc := Onward(t.pc));
  }

  /** A run of the main line alone, up to just before the read command is prepared: a seek's interrupt is pending. */
  lemma RunToPrepare(v: Variant, c: Config, s: State) returns (steps: seq<Step>, t: State)
    requires c.Valid() && c.count > 0 && Initial(s)
    ensures Run(v, c, s, steps) && End(v, c, s, steps) == t
    ensures t == s.(pc := Prepare, dev := s.dev.(seekPending := true), job := t.job)
    ensures t.job.blocks == 0 && t.job.out == []
  {
    hide CommandBytes, Write, CommandLength, Executes, Silent, Run, End, WellFormed, CompletesSeek;
    RunNothing(v, c, s);
    SeekPhases(c, s, CommandBytes(c, s, SeekCmd));
    steps, t := GoOn(v, c, s, [], s);
    steps, t := GoOn(v, c, s, steps, t);
    CommandBytesSame(c, s, t);
    steps, t := SendOne(v, c, s, steps, t, SeekCmd, 0);
    CommandBytesSame(c, s, t);
    steps, t := SendOne(v, c, s, steps, t, SeekCmd, 1);
    CommandBytesSame(c, s, t);
    steps, t := SendOne(v, c, s, steps, t, SeekCmd, 2);
    steps, t := GoOn(v, c, s, steps, t);
  }

  lemma RunNothing(v: Variant, c: Config, s: State)
    requires c.Valid()
    ensures Run(v, c, s, []) && End(v, c, s, []) == s
  {
  }

  lemma SeekPhases(c: Config, s: State, bs: seq<byte>)
    requires c.Valid() && bs == CommandBytes(c, s, SeekCmd)
    ensures WellFormed(Idle) && Write(Idle, bs[0], [0, 0]) == Command([bs[0]], 2)
    ensures WellFormed(Command([bs[0]], 2)) && WellFormed(Command([bs[0]] + [bs[1]], 1))
    ensures Write(Command([bs[0]], 2), bs[1], [0, 0]) == Command([bs[0]] + [bs[1]], 1)
    ensures Write(Command([bs[0]] + [bs[1]], 1), bs[2], [0, 0]) == Idle
    ensures !CompletesSeek(Idle) && !CompletesSeek(Command([bs[0]], 2)) && CompletesSeek(Command([bs[0]] + [bs[1]], 1))
  {
  }

  lemma ReadPhase(c: Config, s: State)
    requires c.Valid()
    ensures WellFormed(Idle) && Write(Idle, CommandBytes(c, s, ReadCmd)[0], [0, 0]).Command?
  {
    CommandShape(c, s, ReadCmd);
  }

  lemma CutsIn(v: Variant, c: Config, s: State, steps: seq<Step>, t: State, cut: Step)
    requires c.Valid() && Run(v, c, s, steps) && End(v, c, s, steps) == t && Enabled(c, t, cut)
    requires cut.Deliver? && cut.wrote && MidCommand(t.pc)
    ensures Run(v, c, s, steps + [cut]) && !HandlerStaysOut(v, c, s, steps + [cut])
  {
    Extend(v, c, s, steps, t, cut);
    assert (steps + [cut])[..|steps|] == steps;
  }

  /** Without fpy_prepare_irq_no_handle a seek's late interrupt finds the read command half sent. */
  lemma WithoutPrepareHandlerCutsIn(v: Variant)
    requires !v.prepare
    ensures !HandlerSafe(v)
  {
    hide CommandBytes, Write, CommandLength, Executes, Silent, Run, End, WellFormed, HandlerStaysOut, CompletesSeek;
    var c := Config([], Geometry(2, 18), 0, 0, 1);
    var dev := Device(Idle, false, false, seq(SECTOR_SIZE, _ => 0), [], 0, 0);
    var s := State(LoopHead, dev, Flags(false, Nothing, Nothing, false, NoError, false, 0, 0), NO_JOB);
    InitialIsReady(s);
    ReadyIsSteady(s);
    var steps, t := RunToPrepare(v, c, s);
    steps, t := GoOn(v, c, s, steps, t);
    steps, t := GoOn(v, c, s, steps, t);
    ReadPhase(c, t);
    steps, t := SendOne(v, c, s, steps, t, ReadCmd, 0);
    CutsIn(v, c, s, steps, t, Deliver(true, Write(t.dev.phase, CHECK_INT, [0, 0]), true, true));
  }

  /** The handler keeps out of the main line's commands exactly because of the preparation: neither the wait nor
      the last loop on mrq is needed for it. */
  lemma SafetyRestsOnPrepare(v: Variant)
    ensures HandlerSafe(v) <==> v.prepare
  {
    if v.prepare {
      forall c: Config, s: State, steps: seq<Step> | c.Valid() && Steady(s) && Run(v, c, s, steps)
        ensures HandlerStaysOut(v, c, s, steps)
      {
        HandlerNeverCutsIn(v, c, s, steps);
      }
    } else {
      WithoutPrepareHandlerCutsIn(v);
    }
  }

  // ---------------------------------------------------------------- runs of the source

  const GO := Main(true, [0, 0])
  const NOT_READY := Main(false, [0, 0])
  const GOOD: seq<byte> := [0, 0, 0, 0, 0, 0, 0]

  /** The rest of the read command goes out; the controller is ready at once. */
  lemma {:induction false} SendRest(v: Variant, c: Config, s: State, steps: seq<Step>, t: State, bs: seq<byte>, i: nat)
    returns (longer: seq<Step>, u: State)
    requires c.Valid() && Run(v, c, s, steps) && End(v, c, s, steps) == t && i < 9
    requires t.pc == Poll(ReadCmd, i) && WellFormed(t.dev.phase) && |t.dev.buffer| >= SECTOR_SIZE && !t.dev.seekPending
    requires bs == CommandBytes(c, t, ReadCmd) && AfterSending(t.dev.phase, bs, i)
    ensures Run(v, c, s, longer) && End(v, c, s, longer) == u
    ensures u == t.(pc := Final(ReadCmd), dev := t.dev.(phase := Execution(bs)), job := u.job)
    ensures u.job.blocks == t.job.blocks && u.job.out == t.job.out
    decreases 9 - i
  {
    hide Write, CommandBytes, WellFormed, Run, End, AfterSending, CommandLength, Executes, Silent, CompletesSeek;
    CommandShape(c, t, ReadCmd);
    CompletesAtLast(t.dev.phase, bs, i);
    SendingAccepts(t.dev.phase, bs, i);
    longer, u := SendOne(v, c, s, steps, t, ReadCmd, i);
    SendingStep(t.dev.phase, u.dev.phase, bs, i);
    if i < 8 {
      CommandBytesSame(c, t, u);
      longer, u := SendRest(v, c, s, longer, u, bs, i + 1);
    }
  }

  /** fpy_read_data gives up on byte `j` after the looks that are left. */
  lemma {:induction false} GiveUp(v: Variant, c: Config, s: State, steps: seq<Step>, t: State, j: nat, tries: nat)
    returns (longer: seq<Step>, u: State)
    requires c.Valid() && Run(v, c, s, steps) && End(v, c, s, steps) == t
    requires t.pc == Data(j, tries) && j < 7 && tries < TRIES && WellFormed(t.dev.phase) && |t.dev.buffer| >= SECTOR_SIZE
    ensures Run(v, c, s, longer) && End(v, c, s, longer) == u
    ensures u == t.(pc := NextByte(j, 0xFF), dev := t.dev.(missed := t.dev.missed + 1))
    decreases TRIES - tries
  {
    hide Run, End, WellFormed;
    Extend(v, c, s, steps, t, NOT_READY);
    longer, u := steps + [NOT_READY], Apply(v, c, t, NOT_READY);
    if tries + 1 < TRIES { longer, u := GiveUp(v, c, s, longer, u, j, tries + 1); }
  }

  /** From the fourth result byte on, giving up is not noticed: the copy begins all the same. */
  lemma {:induction false} GivingUpGoesUnnoticed(v: Variant, c: Config, s: State, steps: seq<Step>, t: State, j: nat)
    returns (longer: seq<Step>, u: State)
    requires c.Valid() && Run(v, c, s, steps) && End(v, c, s, steps) == t
    requires t.pc == Data(j, 0) && 3 <= j < 7 && WellFormed(t.dev.phase) && |t.dev.buffer| >= SECTOR_SIZE
    ensures Run(v, c, s, longer) && End(v, c, s, longer) == u
    ensures u == t.(pc := Copy(0), dev := t.dev.(missed := t.dev.missed + (7 - j)))
    decreases 7 - j
  {
    hide Run, End, WellFormed;
    longer, u := GiveUp(v, c, s, steps, t, j, 0);
    if j < 6 { longer, u := GivingUpGoesUnnoticed(v, c, s, longer, u, j + 1); }
  }

  lemma ZeroIsGood()
    ensures St0Ok(0) && St1Ok(0) && St2Ok(0)
  {
  }

  lemma GoodByte(j: nat)
    requires j < 3
    ensures NextByte(j, 0) == Data(j + 1, 0)
    ensures WellFormed(Result(GOOD[j..])) && Read(Result(GOOD[j..])) == Result(GOOD[j + 1..]) && GOOD[j..][0] == 0
  {
    hide St0Ok, St1Ok, St2Ok;
    ZeroIsGood();
    assert GOOD[j..][1..] == GOOD[j + 1..];
  }

  /** A good status byte is taken. */
  lemma TakeGood(v: Variant, c: Config, s: State, steps: seq<Step>, t: State, j: nat)
    returns (longer: seq<Step>, u: State)
    requires c.Valid() && Run(v, c, s, steps) && End(v, c, s, steps) == t && j < 3
    requires t.pc == Data(j, 0) && t.dev.phase == Result(GOOD[j..]) && |t.dev.buffer| >= SECTOR_SIZE && !t.dev.readPending
    ensures Run(v, c, s, longer) && End(v, c, s, longer) == u
    ensures u == t.(pc := Data(j + 1, 0), dev := t.dev.(phase := Result(GOOD[j + 1..]), taken := t.dev.taken + 1))
  {
    hide Run, End, NextByte, Read, WellFormed, SectorOf, Sensed, CommandBytes, ReportsSuccess, Loaded, Write, Executes;
    GoodByte(j);
    Extend(v, c, s, steps, t, GO);
    var t1 := t.(pc := Take(j));
    Extend(v, c, s, steps + [GO], t1, GO);
    longer, u := steps + [GO] + [GO], ApplyTake(t1, j);
  }

  /** The wait for a read that has ended, with its interrupt in. */
  lemma WaitOver(v: Variant, c: Config, s: State, steps: seq<Step>, t: State)
    returns (longer: seq<Step>, u: State)
    requires c.Valid() && Run(v, c, s, steps) && End(v, c, s, steps) == t
    requires t.pc == Spin && t.irq.received == One && WellFormed(t.dev.phase) && |t.dev.buffer| >= SECTOR_SIZE
    ensures Run(v, c, s, longer) && End(v, c, s, longer) == u
    ensures u.pc == Data(0, 0) && u.dev == t.dev && u.job == t.job && u.irq.noHandle == t.irq.noHandle
  {
    hide Run, End, WellFormed;
    Extend(v, c, s, steps, t, GO);
    var t1 := t.(pc := Compare);
    Extend(v, c, s, steps + [GO], t1, GO);
    var t2 := t1.(pc := Clear, irq := t1.irq.(seen := One, disturbed := false, verdict := NoError));
    Extend(v, c, s, steps + [GO] + [GO], t2, GO);
    longer, u := steps + [GO] + [GO] + [GO], Apply(v, c, t2, GO);
  }

  /** A disk of one sector, one of whose bytes is wanted. */
  const ZEROS: seq<byte> := seq(SECTOR_SIZE, _ => 0)
  const ONE_SECTOR := Config(ZEROS, Geometry(2, 18), 0, 0, 1)
  const START := State(LoopHead, Device(Idle, false, false, ZEROS, [], 0, 0),
                       Flags(false, Nothing, Nothing, false, NoError, false, 0, 0), NO_JOB)

  /** The seek's interrupt: sensed if it comes `early`, and otherwise, after the preparation, only noted. */
  lemma SeekInterrupt(v: Variant, c: Config, s: State, steps: seq<Step>, t: State, early: bool)
    returns (longer: seq<Step>, u: State)
    requires c.Valid() && v.prepare && Run(v, c, s, steps) && End(v, c, s, steps) == t
    requires t.pc == Prepare && t.dev.seekPending && t.dev.phase == Idle && |t.dev.buffer| >= SECTOR_SIZE && !t.irq.noHandle
    ensures Run(v, c, s, longer) && End(v, c, s, longer) == u
    ensures u.pc == Poll(ReadCmd, 0) && u.dev == t.dev.(seekPending := false) && u.job == t.job
    ensures u.irq.noHandle == early && u.irq.received == One
  {
    hide Run, End, CommandBytes;
    longer, u := steps, t;
    if early {
      var sensed := Deliver(true, Idle, true, true);
      Extend(v, c, s, longer, u, sensed);
      longer, u := longer + [sensed], Apply(v, c, u, sensed);
    }
    Extend(v, c, s, longer, u, GO);
    longer, u := longer + [GO], Apply(v, c, u, GO);
    if !early {
      var noted := Deliver(true, Idle, false, true);
      Extend(v, c, s, longer, u, noted);
      longer, u := longer + [noted], Apply(v, c, u, noted);
    }
    longer, u := GoOn(v, c, s, longer, u);
  }

  /** The seek, its interrupt, and the read command: the read executes. The interrupt is sensed if it comes
      `early`, and otherwise, after the preparation, only noted. */
  lemma RunToExecution(v: Variant, early: bool) returns (steps: seq<Step>, t: State)
    requires v.prepare
    ensures Run(v, ONE_SECTOR, START, steps) && End(v, ONE_SECTOR, START, steps) == t
    ensures t.pc == Final(ReadCmd) && t.dev.phase == Execution(CommandBytes(ONE_SECTOR, t, ReadCmd))
    ensures t.irq.noHandle == early && t.irq.received == One && !t.dev.seekPending
    ensures |t.dev.buffer| >= SECTOR_SIZE && t.job.blocks == 0 && t.job.out == [] && WellFormed(t.dev.phase)
  {
    hide Run, End, CommandBytes;
    var c, s := ONE_SECTOR, START;
    steps, t := RunToPrepare(v, c, s);
    steps, t := SeekInterrupt(v, c, s, steps, t, early);
    var bs := CommandBytes(c, t, ReadCmd);
    SendingStarts(bs);
    CommandBytesSame(c, s, t);
    steps, t := SendRest(v, c, s, steps, t, bs, 0);
    CommandBytesSame(c, s, t);
    CommandShape(c, t, ReadCmd);
  }

  lemma FirstSector(t: State)
    requires t.job.blocks == 0 && t.job.out == []
    ensures SectorOf(ONE_SECTOR.disk, ONE_SECTOR.g, CommandBytes(ONE_SECTOR, t, ReadCmd)) == ZEROS
  {
    AddressFitsBytes(0, ONE_SECTOR.g);
    ReadCommandFinds(ONE_SECTOR.disk, ONE_SECTOR.g, 0, 0, CommandBytes(ONE_SECTOR, t, ReadCmd));
  }

  /** The execution ends well, and the main line gets to the wait. */
  lemma RunToWait(early: bool) returns (steps: seq<Step>, t: State)
    ensures Run(SOURCE, ONE_SECTOR, START, steps) && End(SOURCE, ONE_SECTOR, START, steps) == t
    ensures t.pc == Spin && t.dev.phase == Result(GOOD) && |t.dev.buffer| >= SECTOR_SIZE && t.dev.readPending
    ensures t.irq.noHandle == early && t.irq.received == One && t.job.blocks == 0 && t.job.out == []
  {
    hide Run, End, CommandBytes, SectorOf;
    var c, s := ONE_SECTOR, START;
    steps, t := RunToExecution(SOURCE, early);
    FirstSector(t);
    CommandShape(c, t, ReadCmd);
    var finish := Finish(GOOD, ZEROS);
    Extend(SOURCE, c, s, steps, t, finish);
    steps, t := steps + [finish], Apply(SOURCE, c, t, finish);
    Extend(SOURCE, c, s, steps, t, GO);
    steps, t := steps + [GO], Apply(SOURCE, c, t, GO);
  }

  /** The read's interrupt is noted, and the wait is over. */
  lemma RunToResult() returns (steps: seq<Step>, t: State)
    ensures Run(SOURCE, ONE_SECTOR, START, steps) && End(SOURCE, ONE_SECTOR, START, steps) == t
    ensures t.pc == Data(0, 0) && t.dev.phase == Result(GOOD) && |t.dev.buffer| >= SECTOR_SIZE && !t.dev.readPending
    ensures t.job.blocks == 0 && t.job.out == []
  {
    hide Run, End, CommandBytes, SectorOf;
    var c, s := ONE_SECTOR, START;
    steps, t := RunToWait(true);
    var noted := Deliver(false, t.dev.phase, false, true);
    Extend(SOURCE, c, s, steps, t, noted);
    steps, t := steps + [noted], Apply(SOURCE, c, t, noted);
    steps, t := WaitOver(SOURCE, c, s, steps, t);
  }

  lemma RunToCopy() returns (steps: seq<Step>, t: State)
    ensures Run(SOURCE, ONE_SECTOR, START, steps) && End(SOURCE, ONE_SECTOR, START, steps) == t
    ensures t.pc == Copy(0) && t.dev.phase == Result(GOOD[3..]) && |t.dev.buffer| >= SECTOR_SIZE
    ensures t.job.blocks == 0 && t.job.out == []
  {
    hide Run, End;
    var c, s := ONE_SECTOR, START;
    steps, t := RunToResult();
    assert GOOD[0..] == GOOD;
    steps, t := TakeGood(SOURCE, c, s, steps, t, 0);
    steps, t := TakeGood(SOURCE, c, s, steps, t, 1);
    steps, t := TakeGood(SOURCE, c, s, steps, t, 2);
    steps, t := GivingUpGoesUnnoticed(SOURCE, c, s, steps, t, 3);
  }

  /** fpy_copy_bytes may succeed and leave the controller in the result phase: the reads of the last four result
      bytes give up, which fpy_cmd_gen_res does not check. */
  lemma SuccessMayLeaveResult() returns (c: Config, s: State, steps: seq<Step>)
    ensures c.Valid() && Initial(s) && Run(SOURCE, c, s, steps)
    ensures var t := End(SOURCE, c, s, steps); t.pc == Ended(true) && t.dev.phase == Result([0, 0, 0, 0])
  {
    hide Run, End;
    c, s := ONE_SECTOR, START;
    var t;
    steps, t := RunToCopy();
    Extend(SOURCE, c, s, steps, t, GO);
    steps, t := steps + [GO], Apply(SOURCE, c, t, GO);
    Extend(SOURCE, c, s, steps, t, GO);
    steps, t := steps + [GO], Apply(SOURCE, c, t, GO);
  }

  /** fpy_wait_irq may return "no error" and clear a flag that is an error: the seek's late interrupt has put the
      flag to 1, and the read's own interrupt, sensed while its result is pending, comes after the comparison. */
  lemma VerdictMayMissAMessage() returns (c: Config, s: State, steps: seq<Step>)
    ensures c.Valid() && Initial(s) && Run(SOURCE, c, s, steps)
    ensures var t := End(SOURCE, c, s, steps); t.pc == Clear && t.irq.verdict == NoError && t.irq.received == Message
  {
    hide Run, End;
    c, s := ONE_SECTOR, START;
    var t;
    steps, t := RunToWait(false);
    Extend(SOURCE, c, s, steps, t, GO);
    steps, t := steps + [GO], Apply(SOURCE, c, t, GO);
    Extend(SOURCE, c, s, steps, t, GO);
    steps, t := steps + [GO], Apply(SOURCE, c, t, GO);
    var sensed := Deliver(false, t.dev.phase, false, false);
    Extend(SOURCE, c, s, steps, t, sensed);
    steps, t := steps + [sensed], Apply(SOURCE, c, t, sensed);
  }

  /** Without the last loop on mrq fpy_read_data looks while the read still executes: the wait, if there is one, is
      over with the seek's interrupt. */
  lemma LooksDuringExecution(v: Variant) returns (c: Config, s: State, steps: seq<Step>)
    requires v.prepare && !v.finalWait
    ensures c.Valid() && Ready(s) && Run(v, c, s, steps)
    ensures End(v, c, s, steps).pc == Data(0, 0) && End(v, c, s, steps).dev.phase.Execution?
  {
    hide Run, End, CommandBytes;
    c, s := ONE_SECTOR, START;
    InitialIsReady(s);
    var t;
    steps, t := RunToExecution(v, true);
    Extend(v, c, s, steps, t, GO);
    steps, t := steps + [GO], Apply(v, c, t, GO);
    if v.waitIrq { steps, t := WaitOver(v, c, s, steps, t); }
  }

  /** With the preparation, a result is there whenever fpy_read_data looks exactly because of the last loop on mrq;
      the wait does not replace it. */
  lemma ResultRestsOnFinalWait(v: Variant)
    requires v.prepare
    ensures ResultIsThere(v) <==> v.finalWait
  {
    hide Run, End, Ready;
    if v.finalWait {
      forall c: Config, s: State, steps: seq<Step> | c.Valid() && Ready(s) && Run(v, c, s, steps)
        ensures var t := End(v, c, s, steps); t.pc.Data? || t.pc.Take? ==> t.dev.phase.Result?
      {
        ResultIsThereToRead(v, c, s, steps);
      }
    } else {
      var c, s, steps := LooksDuringExecution(v);
    }
  }
}
