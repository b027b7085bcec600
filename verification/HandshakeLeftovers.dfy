/**
  What becomes of a call after one that was cut short in a command, by a byte that timed out: exactly when the
  handler can cut in, and exactly when the call can succeed with wrong bytes.
 */
module HandshakeLeftovers {
  import opened CInt
  import opened Chs
  import opened Fdc
  import opened FloppyDriver
  import opened FloppyIrq
  import opened FloppyCopy
  import opened Handshake
  import opened HandshakeInvariant
  import opened HandshakeHandler
  import opened HandshakeRuns
  import opened HandshakeSessions
  import opened HandshakeWitnesses
  import opened HandshakeMisread

  // ---------------------------------------------------------------- bytes into any phase

  /** The controller takes each of the bytes. */
  predicate Taken(p: Phase, bs: seq<byte>)
    requires WellFormed(p)
  {
    bs == [] || (Taken(p, bs[..|bs| - 1]) && Accepting(WriteAll(p, bs[..|bs| - 1], [0, 0])))
  }

  /** One of them completes a seek. */
  predicate Seeks(p: Phase, bs: seq<byte>)
    requires WellFormed(p)
  {
    bs != [] && (Seeks(p, bs[..|bs| - 1]) || CompletesSeek(WriteAll(p, bs[..|bs| - 1], [0, 0])))
  }

  lemma OneMoreByte(p: Phase, bs: seq<byte>, b: byte)
    requires WellFormed(p)
    ensures WriteAll(p, bs + [b], [0, 0]) == Write(WriteAll(p, bs, [0, 0]), b, [0, 0])
    ensures Taken(p, bs + [b]) <==> Taken(p, bs) && Accepting(WriteAll(p, bs, [0, 0]))
    ensures Seeks(p, bs + [b]) <==> Seeks(p, bs) || CompletesSeek(WriteAll(p, bs, [0, 0]))
  {
    assert (bs + [b])[..|bs|] == bs;
  }

  lemma {:induction false} InTwoParts(p: Phase, a: seq<byte>, b: seq<byte>)
    requires WellFormed(p)
    ensures WriteAll(p, a + b, [0, 0]) == WriteAll(WriteAll(p, a, [0, 0]), b, [0, 0])
    ensures Taken(p, a + b) <==> Taken(p, a) && Taken(WriteAll(p, a, [0, 0]), b)
    ensures Seeks(p, a + b) <==> Seeks(p, a) || Seeks(WriteAll(p, a, [0, 0]), b)
    decreases |b|
  {
    hide Write, CompletesSeek;
    if b == [] {
      assert a + b == a;
    } else {
      var front, last := b[..|b| - 1], b[|b| - 1];
      assert a + b == (a + front) + [last] && front + [last] == b;
      InTwoParts(p, a, front);
      OneMoreByte(p, a + front, last);
      OneMoreByte(WriteAll(p, a, [0, 0]), front, last);
    }
  }

  lemma IntoCommand(received: seq<byte>, left: nat, b: byte)
    requires WellFormed(Command(received, left))
    ensures var p := Command(received, left);
            && Accepting(p) && (CompletesSeek(p) <==> left == 1 && MovesHead(received[0]))
            && Write(p, b, [0, 0]) ==
               if left == 1 then Complete(received + [b], [0, 0]) else Command(received + [b], left - 1)
  {
  }

  lemma Joined(a: seq<byte>, front: seq<byte>, b: byte, bs: seq<byte>)
    requires bs == front + [b]
    ensures a + bs == (a + front) + [b] && |a + front| == |a| + |front|
  {
  }

  /** Fewer bytes than are missing. */
  lemma {:induction false} PartOfRest(received: seq<byte>, left: nat, bs: seq<byte>)
    requires WellFormed(Command(received, left)) && |bs| < left
    ensures WriteAll(Command(received, left), bs, [0, 0]) == Command(received + bs, left - |bs|)
    ensures WellFormed(Command(received + bs, left - |bs|))
    ensures Taken(Command(received, left), bs) && !Seeks(Command(received, left), bs)
    decreases |bs|
  {
    hide Write, WriteAll, Taken, Seeks, CompletesSeek, CommandLength, MovesHead;
    if bs == [] {
      NoBytes(Command(received, left), bs);
      assert received + bs == received;
    } else {
      var front, b := bs[..|bs| - 1], bs[|bs| - 1];
      PartOfRest(received, left, front);
      OneMoreByte(Command(received, left), front, b);
      IntoCommand(received + front, left - |front|, b);
      Joined(received, front, b, bs);
    }
  }

  /** The last byte that is missing. */
  lemma LastOfRest(received: seq<byte>, left: nat, front: seq<byte>, b: byte)
    requires WellFormed(Command(received, left)) && |front| + 1 == left
    ensures WriteAll(Command(received, left), front + [b], [0, 0]) == Complete((received + front) + [b], [0, 0])
    ensures Taken(Command(received, left), front + [b])
    ensures Seeks(Command(received, left), front + [b]) <==> MovesHead(received[0])
  {
    hide Write, WriteAll, Taken, Seeks, CompletesSeek, CommandLength, MovesHead, Complete;
    assert received != [] && (received + front)[0] == received[0];
    hide WellFormed;
    PartOfRest(received, left, front);
    OneMoreByte(Command(received, left), front, b);
    IntoCommand(received + front, 1, b);
  }

  /** As many as are missing. */
  lemma WholeRest(received: seq<byte>, left: nat, bs: seq<byte>)
    requires WellFormed(Command(received, left)) && |bs| == left
    ensures WriteAll(Command(received, left), bs, [0, 0]) == Complete(received + bs, [0, 0])
    ensures Taken(Command(received, left), bs)
    ensures Seeks(Command(received, left), bs) <==> MovesHead(received[0])
  {
    hide Write, WriteAll, Taken, Seeks, CompletesSeek, CommandLength, MovesHead, Complete;
    var front, b := bs[..left - 1], bs[left - 1];
    assert bs == front + [b];
    LastOfRest(received, left, front, b);
    Joined(received, front, b, bs);
  }

  /** `bs` stands in `all` from index `i` on. */
  predicate StandsAt(all: seq<byte>, i: nat, bs: seq<byte>)
  {
    i + |bs| <= |all| && all[i..i + |bs|] == bs
  }

  lemma FrontStandsAt(all: seq<byte>, i: nat, front: seq<byte>, b: byte)
    requires StandsAt(all, i, front + [b])
    ensures StandsAt(all, i, front) && i + |front| < |all| && all[i + |front|] == b
  {
    var bs := front + [b];
    assert all[i..i + |bs|][|front|] == b;
    assert all[i..i + |front|] == all[i..i + |bs|][..|front|];
  }

  /** The bytes `bs` of a command, from byte `i` on, which the controller takes for whatever it holds them to be. */
  lemma {:induction false} SendAny(c: Config, s: State, steps: seq<Step>, t: State, cmd: Which, i: nat, bs: seq<byte>)
    returns (longer: seq<Step>, u: State)
    requires c.Valid() && Run(SOURCE, c, s, steps) && End(SOURCE, c, s, steps) == t
    requires t.pc == Poll(cmd, i) && bs != [] && i + |bs| <= Length(cmd) && (cmd == ReadCmd ==> i + |bs| < 9)
    requires WellFormed(t.dev.phase) && |t.dev.buffer| >= SECTOR_SIZE
    requires StandsAt(CommandBytes(c, t, cmd), i, bs) && Taken(t.dev.phase, bs)
    ensures Run(SOURCE, c, s, longer) && End(SOURCE, c, s, longer) == u
    ensures u.pc == (if i + |bs| == Length(cmd) then Final(cmd) else Poll(cmd, i + |bs|)) && u.irq == t.irq
    ensures u.dev == t.dev.(phase := WriteAll(t.dev.phase, bs, [0, 0]),
                            seekPending := t.dev.seekPending || Seeks(t.dev.phase, bs))
    ensures u.job.blocks == t.job.blocks && u.job.out == t.job.out
    decreases |bs|
  {
    hide Write, WriteAll, CommandBytes, WellFormed, Run, End, CompletesSeek, Taken, Seeks, StandsAt, Accepting;
    var front, b := bs[..|bs| - 1], bs[|bs| - 1];
    assert bs == front + [b];
    FrontStandsAt(CommandBytes(c, t, cmd), i, front, b);
    OneMoreByte(t.dev.phase, front, b);
    longer, u := steps, t;
    if front == [] {
      NoBytes(t.dev.phase, front);
    } else {
      longer, u := SendAny(c, s, steps, t, cmd, i, front);
    }
    longer, u := SendLast(c, s, longer, t, u, cmd, i + |front|, b);
  }

  lemma SendLast(c: Config, s: State, steps: seq<Step>, o: State, t: State, cmd: Which, i: nat, b: byte)
    returns (longer: seq<Step>, u: State)
    requires c.Valid() && Run(SOURCE, c, s, steps) && End(SOURCE, c, s, steps) == t
    requires t.pc == Poll(cmd, i) && i < Length(cmd) && (cmd == ReadCmd ==> i < 8) && t.job.blocks == o.job.blocks
    requires WellFormed(t.dev.phase) && Accepting(t.dev.phase) && |t.dev.buffer| >= SECTOR_SIZE
    requires b == CommandBytes(c, o, cmd)[i]
    ensures Run(SOURCE, c, s, longer) && End(SOURCE, c, s, longer) == u
    ensures u.pc == (if i + 1 == Length(cmd) then Final(cmd) else Poll(cmd, i + 1)) && u.irq == t.irq
    ensures u.dev == t.dev.(phase := Write(t.dev.phase, b, [0, 0]),
                            seekPending := t.dev.seekPending || CompletesSeek(t.dev.phase))
    ensures u.job.blocks == t.job.blocks && u.job.out == t.job.out
  {
    hide Write, CommandBytes, WellFormed, Run, End, CompletesSeek;
    CommandBytesSame(c, o, t);
    longer, u := SendOne(SOURCE, c, s, steps, t, cmd, i);
  }

  lemma NoBytes(p: Phase, bs: seq<byte>)
    requires WellFormed(p) && bs == []
    ensures WriteAll(p, bs, [0, 0]) == p && Taken(p, bs) && !Seeks(p, bs)
  {
  }

  // ---------------------------------------------------------------- a call that is cut short

  /** A byte of a command times out after the looks that are left. */
  lemma {:induction false} TimesOut(c: Config, s: State, steps: seq<Step>, t: State, cmd: Which, i: nat, tries: nat)
    returns (longer: seq<Step>, u: State)
    requires c.Valid() && Run(SOURCE, c, s, steps) && End(SOURCE, c, s, steps) == t
    requires t.pc == Try(cmd, i, tries) && i < Length(cmd) && tries < TRIES
    requires WellFormed(t.dev.phase) && |t.dev.buffer| >= SECTOR_SIZE
    ensures Run(SOURCE, c, s, longer) && End(SOURCE, c, s, longer) == u && u == t.(pc := Ended(false))
    decreases TRIES - tries
  {
    hide Run, End, WellFormed;
    Extend(SOURCE, c, s, steps, t, NOT_READY);
    longer, u := steps + [NOT_READY], Apply(SOURCE, c, t, NOT_READY);
    if tries + 1 < TRIES { longer, u := TimesOut(c, s, longer, u, cmd, i, tries + 1); }
  }

  /** The first call after fpy_setup_idt is cut short after `i` bytes of a command. */
  lemma RunToCut(c: Config, cmd: Which, i: nat) returns (steps: seq<Step>, t: State)
    requires c.Valid() && c.count > 0 && 1 <= i < Length(cmd)
    ensures Run(SOURCE, c, START, steps) && End(SOURCE, c, START, steps) == t && t.pc == Ended(false)
    ensures t.dev.phase == Command(CommandBytes(c, START, cmd)[..i], Length(cmd) - i) && WellFormed(t.dev.phase)
    ensures !t.dev.seekPending && !t.dev.readPending && t.dev.buffer == START.dev.buffer
    ensures if cmd == SeekCmd then !t.irq.noHandle else t.irq.noHandle && t.irq.received == One
  {
    hide Run, End, CommandBytes, WriteAll, CommandLength;
    var bs := CommandBytes(c, START, cmd);
    if cmd == SeekCmd {
      RunNothing(SOURCE, c, START);
      steps, t := GoOn(SOURCE, c, START, [], START);
      steps, t := GoOn(SOURCE, c, START, steps, t);
    } else {
      steps, t := RunToPrepare(SOURCE, c, START);
      steps, t := SeekInterrupt(SOURCE, c, START, steps, t, true);
    }
    CommandBytesSame(c, START, t);
    FromIdle(c, START, cmd, i);
    assert StandsAt(bs, 0, bs[..i]);
    steps, t := SendAny(c, START, steps, t, cmd, 0, bs[..i]);
    Extend(SOURCE, c, START, steps, t, GO);
    steps, t := steps + [GO], Apply(SOURCE, c, t, GO);
    steps, t := TimesOut(c, START, steps, t, cmd, i, 0);
  }

  lemma FromIdle(c: Config, s: State, cmd: Which, i: nat)
    requires c.Valid() && 1 <= i < Length(cmd)
    ensures var bs := CommandBytes(c, s, cmd)[..i];
            && WriteAll(Idle, bs, [0, 0]) == Command(bs, Length(cmd) - i) && WellFormed(Command(bs, Length(cmd) - i))
            && Taken(Idle, bs) && !Seeks(Idle, bs)
  {
    hide CommandBytes, CommandLength;
    var bs := CommandBytes(c, s, cmd);
    CommandShape(c, s, cmd);
    FirstByte(bs[0]);
    assert bs[..i] == [bs[0]] + bs[1..i];
    InTwoParts(Idle, [bs[0]], bs[1..i]);
    PartOfRest([bs[0]], Length(cmd) - 1, bs[1..i]);
  }

  lemma FirstByte(b: byte)
    ensures CommandLength(b) > 1 ==>
              && WriteAll(Idle, [b], [0, 0]) == Command([b], CommandLength(b) - 1)
              && WellFormed(Command([b], CommandLength(b) - 1))
    ensures Taken(Idle, [b]) && !Seeks(Idle, [b])
  {
    OneMoreByte(Idle, [], b);
    assert [] + [b] == [b];
  }

  // ---------------------------------------------------------------- the call after it

  /** A call's first two looks. */
  lemma RunToSeek(c: Config, s: State) returns (steps: seq<Step>, t: State)
    requires c.Valid() && c.count > 0 && s.pc == LoopHead && s.job == NO_JOB
    requires Accepting(s.dev.phase) && WellFormed(s.dev.phase) && |s.dev.buffer| >= SECTOR_SIZE
    ensures Run(SOURCE, c, s, steps) && End(SOURCE, c, s, steps) == t && t == s.(pc := Poll(SeekCmd, 0))
  {
    hide Run, End, WellFormed;
    RunNothing(SOURCE, c, s);
    steps, t := GoOn(SOURCE, c, s, [], s);
    steps, t := GoOn(SOURCE, c, s, steps, t);
  }

  /** The preparation, and the interrupt of a seek if one is pending. */
  lemma Prepares(c: Config, s: State, steps: seq<Step>, t: State) returns (longer: seq<Step>, u: State)
    requires c.Valid() && Run(SOURCE, c, s, steps) && End(SOURCE, c, s, steps) == t
    requires t.pc == Final(SeekCmd) && Accepting(t.dev.phase) && WellFormed(t.dev.phase) && |t.dev.buffer| >= SECTOR_SIZE
    requires t.dev.seekPending || t.irq.received == One
    ensures Run(SOURCE, c, s, longer) && End(SOURCE, c, s, longer) == u
    ensures u.pc == Poll(ReadCmd, 0) && u.dev == t.dev.(seekPending := false) && u.irq.received == One && u.job == t.job
  {
    hide Run, End, WellFormed;
    longer, u := GoOn(SOURCE, c, s, steps, t);
    Extend(SOURCE, c, s, longer, u, GO);
    longer, u := longer + [GO], Apply(SOURCE, c, u, GO);
    if u.dev.seekPending {
      var noted := Deliver(true, u.dev.phase, false, true);
      Extend(SOURCE, c, s, longer, u, noted);
      longer, u := longer + [noted], Apply(SOURCE, c, u, noted);
    }
    longer, u := GoOn(SOURCE, c, s, longer, u);
  }

  /** The rest of the read command is lost on a result that is pending. */
  lemma {:induction false} SendLost(c: Config, s: State, steps: seq<Step>, t: State, i: nat)
    returns (longer: seq<Step>, u: State)
    requires c.Valid() && Run(SOURCE, c, s, steps) && End(SOURCE, c, s, steps) == t
    requires t.pc == Poll(ReadCmd, i) && i < 9 && t.dev.phase.Result? && WellFormed(t.dev.phase)
    requires |t.dev.buffer| >= SECTOR_SIZE && !t.dev.seekPending
    ensures Run(SOURCE, c, s, longer) && End(SOURCE, c, s, longer) == u
    ensures u == t.(pc := Final(ReadCmd), job := u.job) && u.job.blocks == t.job.blocks && u.job.out == t.job.out
    decreases 9 - i
  {
    hide Run, End, WellFormed, CommandBytes;
    Extend(SOURCE, c, s, steps, t, GO);
    var t1 := t.(pc := Try(ReadCmd, i, 0));
    Extend(SOURCE, c, s, steps + [GO], t1, GO);
    var t2 := t.(pc := Put(ReadCmd, i));
    Extend(SOURCE, c, s, steps + [GO] + [GO], t2, GO);
    longer, u := steps + [GO] + [GO] + [GO], ApplyPut(c, t2, ReadCmd, i, [0, 0]);
    if i < 8 { longer, u := SendLost(c, s, longer, u, i + 1); }
  }

  /** What the transfer buffer may hold when `full` has ended well: the sector it reads, or, if it moves nothing to
      memory, what it held before. */
  predicate MayLeave(c: Config, full: seq<byte>, before: seq<byte>, after: seq<byte>)
  {
    && |after| >= SECTOR_SIZE && full != []
    && (Reads(full) ==> SectorOf(c.disk, c.g, full) != [] && after[..SECTOR_SIZE] == SectorOf(c.disk, c.g, full))
    && (MovesNothing(full[0]) ==> after == before)
  }

  /** An execution that ends well, with the rest of the command still to be sent. */
  lemma EndsWell(c: Config, s: State, steps: seq<Step>, t: State, i: nat, full: seq<byte>, buffer: seq<byte>)
    returns (longer: seq<Step>, u: State)
    requires c.Valid() && Run(SOURCE, c, s, steps) && End(SOURCE, c, s, steps) == t
    requires t.pc == Poll(ReadCmd, i) && i < 9 && t.dev.phase == Execution(full) && !t.dev.seekPending
    requires MayLeave(c, full, t.dev.buffer, buffer)
    ensures Run(SOURCE, c, s, longer) && End(SOURCE, c, s, longer) == u
    ensures u.pc == Final(ReadCmd) && u.dev.phase == Result(GOOD) && u.dev.readPending && u.dev.buffer == buffer
    ensures u.irq == t.irq && u.job.blocks == t.job.blocks && u.job.out == t.job.out
  {
    hide Run, End, SectorOf, ReportsSuccess;
    var finish := Finish(GOOD, buffer);
    Extend(SOURCE, c, s, steps, t, finish);
    longer, u := steps + [finish], Apply(SOURCE, c, t, finish);
    longer, u := SendLost(c, s, longer, u, i);
  }

  /** From the last byte of the read to the end of a call for one byte. */
  lemma RunsOut(c: Config, s: State, steps: seq<Step>, t: State) returns (longer: seq<Step>, u: State)
    requires c.Valid() && c.count == 1 && Run(SOURCE, c, s, steps) && End(SOURCE, c, s, steps) == t
    requires t.pc == Final(ReadCmd) && t.dev.phase == Result(GOOD) && t.dev.readPending && |t.dev.buffer| >= SECTOR_SIZE
    requires t.irq.received == One && t.job.blocks == 0 && t.job.out == []
    ensures Run(SOURCE, c, s, longer) && End(SOURCE, c, s, longer) == u
    ensures u.pc == Ended(true) && u.job.out == [t.dev.buffer[0]]
  {
    hide Run, End, Apply, Enabled;
    longer, u := WaitsOut(c, s, steps, t);
    longer, u := ReadsOut(c, s, longer, u);
    longer, u := CopiesOut(c, s, longer, u);
  }

  /** The wait, and then the read's interrupt: noted, or sensed with the result pending. */
  lemma WaitsOut(c: Config, s: State, steps: seq<Step>, t: State) returns (longer: seq<Step>, u: State)
    requires c.Valid() && Run(SOURCE, c, s, steps) && End(SOURCE, c, s, steps) == t
    requires t.pc == Final(ReadCmd) && t.dev.phase == Result(GOOD) && t.dev.readPending && |t.dev.buffer| >= SECTOR_SIZE
    requires t.irq.received == One
    ensures Run(SOURCE, c, s, longer) && End(SOURCE, c, s, longer) == u
    ensures u.pc == Data(0, 0) && u.dev == t.dev.(readPending := false) && u.job == t.job
  {
    hide Run, End, CommandBytes, SectorOf;
    Extend(SOURCE, c, s, steps, t, GO);
    longer, u := steps + [GO], t.(pc := Spin);
    longer, u := WaitOver(SOURCE, c, s, longer, u);
    var comes := Deliver(false, u.dev.phase, false, u.irq.noHandle);
    Extend(SOURCE, c, s, longer, u, comes);
    longer, u := longer + [comes], Apply(SOURCE, c, u, comes);
  }

  /** One byte is copied, and the loop is over. */
  lemma CopiesOut(c: Config, s: State, steps: seq<Step>, t: State) returns (longer: seq<Step>, u: State)
    requires c.Valid() && c.count == 1 && Run(SOURCE, c, s, steps) && End(SOURCE, c, s, steps) == t
    requires t.pc == Copy(0) && WellFormed(t.dev.phase) && |t.dev.buffer| >= SECTOR_SIZE
    requires t.job.blocks == 0 && t.job.out == []
    ensures Run(SOURCE, c, s, longer) && End(SOURCE, c, s, longer) == u
    ensures u.pc == Ended(true) && u.job.out == [t.dev.buffer[0]]
  {
    hide Run, End, WellFormed, CommandBytes, SectorOf;
    Extend(SOURCE, c, s, steps, t, GO);
    var t1 := ApplyCopy(c, t, 0);
    Extend(SOURCE, c, s, steps + [GO], t1, GO);
    longer, u := steps + [GO] + [GO], t1.(pc := Ended(true));
  }

  lemma ReadsOut(c: Config, s: State, steps: seq<Step>, t: State) returns (longer: seq<Step>, u: State)
    requires c.Valid() && Run(SOURCE, c, s, steps) && End(SOURCE, c, s, steps) == t
    requires t.pc == Data(0, 0) && t.dev.phase == Result(GOOD) && !t.dev.readPending && |t.dev.buffer| >= SECTOR_SIZE
    ensures Run(SOURCE, c, s, longer) && End(SOURCE, c, s, longer) == u
    ensures u.pc == Copy(0) && u.dev.buffer == t.dev.buffer && u.job == t.job && WellFormed(u.dev.phase)
  {
    hide Run, End;
    assert GOOD[0..] == GOOD;
    longer, u := TakeGood(SOURCE, c, s, steps, t, 0);
    longer, u := TakeGood(SOURCE, c, s, longer, u, 1);
    longer, u := TakeGood(SOURCE, c, s, longer, u, 2);
    longer, u := GivingUpGoesUnnoticed(SOURCE, c, s, longer, u, 3);
  }

  /** If the bytes of the seek leave the controller accepting, and `m` bytes of the read then make it execute
      `full`, the call can succeed with the first byte of what that leaves in the transfer buffer. */
  lemma MisledCall(c: Config, s: State, m: nat, full: seq<byte>, buffer: seq<byte>) returns (steps: seq<Step>, t: State)
    requires c.Valid() && c.count == 1 && s.pc == LoopHead && s.job == NO_JOB && |s.dev.buffer| >= SECTOR_SIZE
    requires WellFormed(s.dev.phase) && Accepting(s.dev.phase) && !s.dev.seekPending && !s.dev.readPending
    requires 1 <= m <= 8 && MayLeave(c, full, s.dev.buffer, buffer) && Misled(c, s, m, full)
    requires s.irq.received == One || Seeks(s.dev.phase, CommandBytes(c, s, SeekCmd))
    ensures Run(SOURCE, c, s, steps) && End(SOURCE, c, s, steps) == t
    ensures t.pc == Ended(true) && t.job.out == [buffer[0]]
  {
    hide Run, End, WellFormed, CommandBytes, SectorOf, Taken, Seeks, WriteAll;
    var seek, read := CommandBytes(c, s, SeekCmd), CommandBytes(c, s, ReadCmd);
    steps, t := RunToSeek(c, s);
    CommandBytesSame(c, s, t);
    assert StandsAt(seek, 0, seek);
    steps, t := SendAny(c, s, steps, t, SeekCmd, 0, seek);
    steps, t := Prepares(c, s, steps, t);
    CommandBytesSame(c, s, t);
    assert StandsAt(read, 0, read[..m]);
    steps, t := SendAny(c, s, steps, t, ReadCmd, 0, read[..m]);
    steps, t := EndsWell(c, s, steps, t, m, full, buffer);
    steps, t := RunsOut(c, s, steps, t);
  }

  predicate Misled(c: Config, s: State, m: nat, full: seq<byte>)
    requires c.Valid() && WellFormed(s.dev.phase) && m <= 9
  {
    var seek, read := CommandBytes(c, s, SeekCmd), CommandBytes(c, s, ReadCmd);
    var between := WriteAll(s.dev.phase, seek, [0, 0]);
    && Taken(s.dev.phase, seek) && Accepting(between)
    && Taken(between, read[..m]) && !Seeks(between, read[..m])
    && WriteAll(between, read[..m], [0, 0]) == Execution(full)
  }

  /** After a read that `i` bytes were sent of, few enough for the seek not to complete it. */
  lemma MisledByRead(c: Config, s: State, received: seq<byte>)
    requires c.Valid() && 1 <= |received| <= 5
    requires s.dev.phase == Command(received, 9 - |received|) && WellFormed(s.dev.phase) && Executes(received[0])
    ensures var seek, read, m := CommandBytes(c, s, SeekCmd), CommandBytes(c, s, ReadCmd), 6 - |received|;
            Misled(c, s, m, received + seek + read[..m])
  {
    hide CommandBytes, WriteAll, Taken, Seeks, Write;
    var seek, read, m := CommandBytes(c, s, SeekCmd), CommandBytes(c, s, ReadCmd), 6 - |received|;
    PartOfRest(received, 9 - |received|, seek);
    WholeRest(received + seek, m, read[..m]);
  }

  /** A whole command from Idle. */
  lemma WholeCommand(bs: seq<byte>)
    requires |bs| > 1 && |bs| == CommandLength(bs[0])
    ensures WriteAll(Idle, bs, [0, 0]) == Complete(bs, [0, 0]) && Taken(Idle, bs) && (Seeks(Idle, bs) <==> MovesHead(bs[0]))
  {
    hide WriteAll, Taken, Seeks, Write, CommandLength, Complete, MovesHead;
    FirstByte(bs[0]);
    InTwoParts(Idle, [bs[0]], bs[1..]);
    WholeRest([bs[0]], |bs| - 1, bs[1..]);
    assert [bs[0]] + bs[1..] == bs;
  }

  /** After a seek of which one byte was sent: the next seek's cylinder, 0x4A, begins a "read ID". */
  lemma MisledAfterOne(c: Config, s: State)
    requires c.Valid() && s.dev.phase == Command([SEEK], 2) && WellFormed(s.dev.phase)
    requires CommandBytes(c, s, SeekCmd)[2] == 0x4A
    ensures Misled(c, s, 1, [0x4A, CommandBytes(c, s, ReadCmd)[0]]) && Seeks(s.dev.phase, CommandBytes(c, s, SeekCmd))
  {
    hide CommandBytes, WriteAll, Taken, Seeks, Write, CommandLength, Executes;
    var seek, read := CommandBytes(c, s, SeekCmd), CommandBytes(c, s, ReadCmd);
    Opcodes();
    WholeRest([SEEK], 2, seek[..2]);
    FirstByte(0x4A);
    assert seek == seek[..2] + [0x4A];
    InTwoParts(s.dev.phase, seek[..2], [0x4A]);
    WholeRest([0x4A], 1, read[..1]);
    assert [0x4A] + read[..1] == [0x4A, read[0]];
  }

  /** After a seek of which two bytes were sent: the next seek's last two bytes and the read's first begin a "specify",
      the read's next three another one, and its sector 0x4A a "read ID". */
  lemma MisledAfterTwo(c: Config, s: State, u: byte)
    requires c.Valid() && s.dev.phase == Command([SEEK, u], 1) && WellFormed(s.dev.phase)
    requires var seek, read := CommandBytes(c, s, SeekCmd), CommandBytes(c, s, ReadCmd);
             seek[1] == read[1] == 3 && read[4] == 0x4A
    ensures var read := CommandBytes(c, s, ReadCmd);
            Misled(c, s, 6, [read[4], read[5]]) && Seeks(s.dev.phase, CommandBytes(c, s, SeekCmd))
  {
    hide CommandBytes, WriteAll, Taken, Seeks, Write, CommandLength, Executes;
    var seek, read := CommandBytes(c, s, SeekCmd), CommandBytes(c, s, ReadCmd);
    Opcodes();
    WholeRest([SEEK, u], 1, seek[..1]);
    FirstByte(3);
    InTwoParts(Idle, [3], seek[2..]);
    PartOfRest([3], 2, seek[2..]);
    assert seek == seek[..1] + ([3] + seek[2..]);
    InTwoParts(s.dev.phase, seek[..1], [3] + seek[2..]);
    WholeRest([3] + seek[2..], 1, read[..1]);
    WholeCommand(read[1..4]);
    WholeCommand(read[4..6]);
    InTwoParts(Idle, read[1..4], read[4..6]);
    assert read[1..4] + read[4..6] == read[1..6];
    InTwoParts(Command([3] + seek[2..], 1), read[..1], read[1..6]);
    assert read[..1] + read[1..6] == read[..6] && read[4..6] == [read[4], read[5]];
  }

  lemma Opcodes()
    ensures MovesHead(SEEK) && Silent(SEEK) && !Executes(SEEK)
    ensures CommandLength(0x4A) == 2 && Executes(0x4A) && !MovesHead(0x4A) && MovesNothing(0x4A) && !ReadsData(0x4A)
    ensures CommandLength(3) == 3 && Silent(3) && !Executes(3) && !MovesHead(3)
  {
  }

  // ---------------------------------------------------------------- four calls that go wrong

  /** The first 16 sectors hold zeros, the others ones. */
  function Disk(): (disk: seq<byte>)
    ensures |disk| == SECTOR_SIZE * 256
  {
    seq(SECTOR_SIZE * 256, k => if k < SECTOR_SIZE * 16 then 0 else 1)
  }

  /** A geometry, a drive, and the sector that the second of two calls asks for, the first asking for sector 0, such that
      the second goes wrong after the first was cut short after `i` bytes of a command. */
  datatype Trap = Trap(g: Geometry, drive: byte, second: byte)

  function TrapFor(cmd: Which, i: nat): Trap
  {
    if cmd == SeekCmd then (if i == 1 then Trap(Geometry(1, 3), 0, 222) else Trap(Geometry(1, 74), 3, 73))
    else if i == 3 then Trap(Geometry(16, 1), 1, 32)
    else Trap(Geometry(1, 15), 2, 225)
  }

  function FirstOf(t: Trap): Config { Config(Disk(), t.g, t.drive, 0, 1) }

  function SecondOf(t: Trap): Config { Config(Disk(), t.g, t.drive, t.second, 1) }

  lemma SizeCode(n: nat)
    ensures n == 2 ==> 128 * Pow2(n) == SECTOR_SIZE
    ensures 128 * Pow2(n) == SECTOR_SIZE ==> n == 2
  {
    assert Pow2(0) == 1 && Pow2(1) == 2 && Pow2(2) == 4 && Pow2(3) == 8;
    if n > 3 { Pow2Add(3, n - 3); }
  }

  /** A read of a sector of zeros. */
  lemma ReadsZeros(g: Geometry, full: seq<byte>, lba: nat)
    requires |full| >= 7 && Reads(full) && full[3] < g.heads && 1 <= full[4] <= g.sectors && full[4] <= full[6] && full[5] == 2
    requires lba == LbaOf(Address(full[2], full[3], full[4]), g) && lba < 16
    ensures SectorOf(Disk(), g, full) != [] && SectorOf(Disk(), g, full)[0] == 0
  {
    SizeCode(full[5]);
  }

  /** The bytes of the commands for a call's first sector. */
  lemma CommandsAre(c: Config, s: State)
    requires c.Valid() && s.job == NO_JOB
    ensures AddressOf(c.sector, c.g).cylinder < 256 && AddressOf(c.sector, c.g).head < 256
    ensures AddressOf(c.sector, c.g).sector < 256
    ensures CommandBytes(c, s, SeekCmd) == SeekCommand(c.drive, AddressOf(c.sector, c.g))
    ensures CommandBytes(c, s, ReadCmd) == ReadCommand(c.drive, AddressOf(c.sector, c.g), c.g.sectors)
  {
    AddressFitsBytes(c.sector, c.g);
  }

  lemma TrapAddresses(cmd: Which, i: nat)
    requires i == if cmd == SeekCmd then (if i == 1 then 1 else 2) else if i == 3 then 3 else 4
    ensures var t := TrapFor(cmd, i);
            && AddressOf(0, t.g) == Address(0, 0, 1)
            && AddressOf(t.second, t.g) ==
               if cmd == SeekCmd then (if i == 1 then Address(74, 0, 1) else Address(0, 0, 74))
               else if i == 3 then Address(2, 0, 1) else Address(15, 0, 1)
  {
  }

  /** The command that a cut read is completed to reads a sector of zeros. */
  lemma ReadTrapCloses(i: nat, s: State, o: State, seek: seq<byte>, read: seq<byte>, full: seq<byte>)
    requires 3 <= i <= 4 && s.job == o.job == NO_JOB
    requires var c := SecondOf(TrapFor(ReadCmd, i));
             seek == CommandBytes(c, s, SeekCmd) && read == CommandBytes(c, s, ReadCmd)
    requires full == CommandBytes(FirstOf(TrapFor(ReadCmd, i)), o, ReadCmd)[..i] + seek + read[..6 - i]
    ensures var g := TrapFor(ReadCmd, i).g; SectorOf(Disk(), g, full) != [] && SectorOf(Disk(), g, full)[0] == 0
    ensures Reads(full)
  {
    hide Disk, SectorOf, CommandBytes, UnitByte, AddressOf;
    var t := TrapFor(ReadCmd, i);
    UnitOfHead0(t.drive);
    TrapAddresses(ReadCmd, i);
    CommandsAre(FirstOf(t), o);
    CommandsAre(SecondOf(t), s);
    ReadsZeros(t.g, full, if i == 3 then 15 else 14);
  }

  lemma SeekTrapCloses(i: nat, s: State, seek: seq<byte>, read: seq<byte>)
    requires 1 <= i <= 2 && s.job == NO_JOB
    requires var c := SecondOf(TrapFor(SeekCmd, i));
             seek == CommandBytes(c, s, SeekCmd) && read == CommandBytes(c, s, ReadCmd)
    ensures if i == 1 then seek[2] == 0x4A else seek[1] == read[1] == 3 && read[4] == 0x4A
  {
    hide Disk, CommandBytes, UnitByte, AddressOf;
    var t := TrapFor(SeekCmd, i);
    UnitOfHead0(t.drive);
    TrapAddresses(SeekCmd, i);
    CommandsAre(SecondOf(t), s);
  }

  // ---------------------------------------------------------------- the exact conditions

  /** The controller has been left with `left` bytes missing of command `cmd`. */
  predicate LeftIn(p: Phase, cmd: Which, left: nat)
  {
    p.Command? && p.left == left && p.received != []
    && if cmd == SeekCmd then p.received[0] == SEEK else Executes(p.received[0])
  }

  /** Two calls from fpy_setup_idt on, for the same disk, the first of which ended with `left` bytes missing of `cmd`. */
  ghost predicate AfterCut(cmd: Which, left: nat, c4: Config, c5: Config, s: State, steps4: seq<Step>, steps5: seq<Step>)
  {
    && Initial(s) && c5.disk == c4.disk && c5.g == c4.g && c5.drive == c4.drive
    && Session(s, [Call(c4, steps4), Call(c5, steps5)])
    && LeftIn(End(SOURCE, c4, s, steps4).dev.phase, cmd, left)
  }

  lemma SecondRuns(cmd: Which, left: nat, c4: Config, c5: Config, s: State, steps4: seq<Step>, steps5: seq<Step>)
    requires AfterCut(cmd, left, c4, c5, s, steps4, steps5)
    ensures c4.Valid() && Run(SOURCE, c4, s, steps4) && End(SOURCE, c4, s, steps4).pc.Ended?
    ensures c5.Valid() && Run(SOURCE, c5, NextCall(End(SOURCE, c4, s, steps4)), steps5)
  {
    hide Run, End;
    var calls := [Call(c4, steps4), Call(c5, steps5)];
    assert calls[1..][0] == Call(c5, steps5);
    assert Session(NextCall(End(SOURCE, c4, s, steps4)), calls[1..]);
  }

  /** The second call has copied, or succeeded with, what is not on the disk where it was asked to read. */
  ghost predicate GoneWrong(c4: Config, c5: Config, s: State, steps4: seq<Step>, steps5: seq<Step>)
  {
    && c4.Valid() && Run(SOURCE, c4, s, steps4)
    && var o := NextCall(End(SOURCE, c4, s, steps4));
       c5.Valid() && Run(SOURCE, c5, o, steps5) && End(SOURCE, c5, o, steps5).pc == Ended(true)
       && !Loaded(End(SOURCE, c5, o, steps5).job.out, c5.disk, c5.sector, 0, |End(SOURCE, c5, o, steps5).job.out|)
  }

  ghost predicate MayGoWrong(cmd: Which, left: nat)
  {
    exists c4: Config, c5: Config, s: State, steps4: seq<Step>, steps5: seq<Step> ::
      AfterCut(cmd, left, c4, c5, s, steps4, steps5) && GoneWrong(c4, c5, s, steps4, steps5)
  }

  lemma LeftIsCut(p: Phase, cmd: Which, left: nat)
    requires LeftIn(p, cmd, left)
    ensures CutInSeek(p) <==> cmd == SeekCmd
    ensures CutEarly(p) <==> cmd == SeekCmd || left > 3
  {
    Opcodes();
  }

  lemma IsAfterCut(cmd: Which, left: nat, c4: Config, c5: Config, steps4: seq<Step>, steps5: seq<Step>, t: State)
    requires c4.Valid() && Run(SOURCE, c4, START, steps4) && End(SOURCE, c4, START, steps4) == t && t.pc.Ended?
    requires c5.Valid() && Run(SOURCE, c5, NextCall(t), steps5) && LeftIn(t.dev.phase, cmd, left)
    requires c5.disk == c4.disk && c5.g == c4.g && c5.drive == c4.drive
    ensures AfterCut(cmd, left, c4, c5, START, steps4, steps5)
  {
    hide Run, End;
    var calls := [Call(c4, steps4), Call(c5, steps5)];
    var o := End(SOURCE, c5, NextCall(t), steps5);
    assert calls[1..] == [Call(c5, steps5)] && calls[1..][1..] == [];
    assert Session(NextCall(o), []);
    assert Session(NextCall(t), calls[1..]);
  }

  /** Places in a command such that a call can go wrong after one that was cut there: in a seek, and after the third or
      fourth byte of a read, with six or five missing. */
  predicate Treacherous(cmd: Which, left: nat) { cmd == SeekCmd || left == 5 || left == 6 }

  /** A call after one that was cut short there may succeed with wrong bytes. */
  lemma TrapCloses(cmd: Which, i: nat)
    requires 1 <= i < Length(cmd) && Treacherous(cmd, Length(cmd) - i)
    ensures MayGoWrong(cmd, Length(cmd) - i)
  {
    hide Run, End, CommandBytes, WriteAll, SectorOf, Disk, AfterCut, GoneWrong, TrapFor, Misled;
    var trap := TrapFor(cmd, i);
    var c4, c5 := FirstOf(trap), SecondOf(trap);
    TrapIsValid(cmd, i);
    var steps4, t := RunToCut(c4, cmd, i);
    var o := NextCall(t);
    CommandShape(c4, START, cmd);
    var full, m, buffer := TrapSprings(cmd, i, t);
    var steps5, u := MisledCall(c5, o, m, full, buffer);
    IsAfterCut(cmd, Length(cmd) - i, c4, c5, steps4, steps5, t);
    WrongByte(c5, u.job.out);
    GoesWrong(c4, c5, steps4, steps5, t, u);
  }

  /** What the controller executes in a trap, and what that leaves in the transfer buffer: its first byte is 0. */
  lemma TrapSprings(cmd: Which, i: nat, t: State) returns (full: seq<byte>, m: nat, buffer: seq<byte>)
    requires 1 <= i < Length(cmd) && Treacherous(cmd, Length(cmd) - i)
    requires FirstOf(TrapFor(cmd, i)).Valid() && SecondOf(TrapFor(cmd, i)).Valid() && t.dev.buffer == START.dev.buffer
    requires t.dev.phase == Command(CommandBytes(FirstOf(TrapFor(cmd, i)), START, cmd)[..i], Length(cmd) - i)
    requires WellFormed(t.dev.phase)
    ensures var c5, o := SecondOf(TrapFor(cmd, i)), NextCall(t);
            && 1 <= m <= 8 && Misled(c5, o, m, full) && MayLeave(c5, full, o.dev.buffer, buffer) && buffer[0] == 0
            && (cmd == SeekCmd ==> Seeks(o.dev.phase, CommandBytes(c5, o, SeekCmd)))
  {
    hide CommandBytes, WriteAll, SectorOf, Disk, TrapFor, Misled, Seeks, ReadsData;
    var trap := TrapFor(cmd, i);
    var c5, o, received := SecondOf(trap), NextCall(t), t.dev.phase.received;
    var seek, read := CommandBytes(c5, o, SeekCmd), CommandBytes(c5, o, ReadCmd);
    CommandShape(FirstOf(trap), START, cmd);
    Opcodes();
    if cmd == SeekCmd {
      SeekTrapCloses(i, o, seek, read);
      buffer := START.dev.buffer;
      if i == 1 {
        full, m := [0x4A, read[0]], 1;
        assert received == [SEEK];
        MisledAfterOne(c5, o);
      } else {
        full, m := [read[4], read[5]], 6;
        assert received == [SEEK, received[1]];
        MisledAfterTwo(c5, o, received[1]);
      }
    } else {
      full, m := received + seek + read[..6 - i], 6 - i;
      ReadTrapCloses(i, o, START, seek, read, full);
      MisledByRead(c5, o, received);
      buffer := SectorOf(c5.disk, c5.g, full);
      assert buffer[..SECTOR_SIZE] == buffer;
      ReadsMoveSomething(full[0]);
    }
  }

  lemma ReadsMoveSomething(opcode: byte)
    requires ReadsData(opcode)
    ensures !MovesNothing(opcode)
  {
  }

  lemma TrapIsValid(cmd: Which, i: nat)
    ensures FirstOf(TrapFor(cmd, i)).Valid() && SecondOf(TrapFor(cmd, i)).Valid() && TrapFor(cmd, i).second >= 16
  {
  }

  lemma GoesWrong(c4: Config, c5: Config, steps4: seq<Step>, steps5: seq<Step>, t: State, u: State)
    requires c4.Valid() && Run(SOURCE, c4, START, steps4) && End(SOURCE, c4, START, steps4) == t
    requires c5.Valid() && Run(SOURCE, c5, NextCall(t), steps5) && End(SOURCE, c5, NextCall(t), steps5) == u
    requires u.pc == Ended(true) && !Loaded(u.job.out, c5.disk, c5.sector, 0, |u.job.out|)
    ensures GoneWrong(c4, c5, START, steps4, steps5)
  {
    hide Run, End, Loaded;
  }

  lemma WrongByte(c: Config, out: seq<byte>)
    requires c.disk == Disk() && c.sector >= 16 && out == [0]
    ensures !Loaded(out, c.disk, c.sector, 0, |out|)
  {
    assert OnDisk(c.disk, c.sector, 0) && DiskByte(c.disk, c.sector, 0) == 1;
    assert out[0 + 0] == 0;
  }

  /** When a call can succeed with wrong bytes after one that was cut short: exactly if that one was cut in a seek, or
      in a read with five or six bytes missing. */
  lemma GoesWrongIff(cmd: Which, left: nat)
    requires 1 <= left < Length(cmd)
    ensures MayGoWrong(cmd, left) <==> Treacherous(cmd, left)
  {
    hide AfterCut, GoneWrong, CutEarly, CutInSeek, LeftIn;
    if Treacherous(cmd, left) {
      TrapCloses(cmd, Length(cmd) - left);
    } else {
      forall c4: Config, c5: Config, s: State, steps4: seq<Step>, steps5: seq<Step> |
        AfterCut(cmd, left, c4, c5, s, steps4, steps5)
        ensures !GoneWrong(c4, c5, s, steps4, steps5)
      {
        if left <= 3 {
          LateCutIsHarmless(cmd, left, c4, c5, s, steps4, steps5);
        } else {
          OtherCutIsHarmless(cmd, left, c4, c5, s, steps4, steps5);
        }
      }
    }
  }

  lemma LateCutIsHarmless(cmd: Which, left: nat, c4: Config, c5: Config, s: State, steps4: seq<Step>, steps5: seq<Step>)
    requires AfterCut(cmd, left, c4, c5, s, steps4, steps5) && cmd == ReadCmd && left <= 3
    ensures !GoneWrong(c4, c5, s, steps4, steps5)
  {
    hide Run, End, Loaded, Session;
    SecondRuns(cmd, left, c4, c5, s, steps4, steps5);
    LeftIsCut(End(SOURCE, c4, s, steps4).dev.phase, cmd, left);
    BothLoadsGoRight(c4, c5, s, steps4, steps5);
  }

  /** What is left is the beginning of the first call's read. */
  lemma LeftIsOwnRead(c: Config, s: State, steps: seq<Step>, left: nat) returns (t: State)
    requires c.Valid() && Ready(s) && Run(SOURCE, c, s, steps) && End(SOURCE, c, s, steps).pc.Ended? && left > 3
    requires LeftIn(End(SOURCE, c, s, steps).dev.phase, ReadCmd, left)
    ensures t == End(SOURCE, c, s, steps) && left < 9 && t.dev.phase.received == CommandBytes(c, t, ReadCmd)[..9 - left]
  {
    hide Run, End, CommandBytes, Executes, Loaded;
    t := End(SOURCE, c, s, steps);
    ReadyInv(c, s);
    RunKeepsInv(SOURCE, c, s, steps);
    var cmd, n :| 1 <= n < Length(cmd) && CutAfter(c, t, cmd, n);
    CommandShape(c, t, cmd);
  }

  /** A cylinder above 197 on a disk with more heads than that lies beyond sector 255. */
  lemma TooFar(lba: byte, g: Geometry)
    requires g.Valid() && AddressOf(lba, g).cylinder >= 198
    ensures AddressOf(lba, g).cylinder >= g.heads
  {
    var a := AddressOf(lba, g);
    LbaRoundTrip(lba, g);
    if a.cylinder < g.heads {
      MulAtLeast(a.cylinder, g.heads);
      ProductAtLeast(a.cylinder, 198, g.heads, 198);
      ProductAtLeast(a.cylinder * g.heads + a.head, 198 * 198, g.sectors, 1);
    }
  }

  lemma ProductAtLeast(x: nat, m: nat, y: nat, n: nat)
    requires x >= m && y >= n
    ensures x * y >= m * n
  {
    assert x * y == m * y + (x - m) * y && m * y == m * n + m * (y - n);
  }

  /** With one, two or five bytes of the read sent, the rest is no read of a sector: the sector number 0xC6 is beyond
      the last one, or the size code is 0xC6 or 0x0F. */
  lemma CompletedToNothing(c4: Config, c5: Config, t: State, o: State, left: nat)
    requires c4.Valid() && c5.Valid() && c5.g == c4.g && (left == 4 || left == 7 || left == 8) && o.job == NO_JOB
    requires o.dev.phase == Command(CommandBytes(c4, t, ReadCmd)[..9 - left], left)
    ensures Hopeless(c5, Completed(c5, o, o.dev.phase))
  {
    hide UnitByte, AddressOf, LbaOf, Pow2;
    var full := Completed(c5, o, o.dev.phase);
    CommandShape(c4, t, ReadCmd);
    CommandsAre(c5, o);
    assert |full| == 9 && full[0] == CommandBytes(c4, t, ReadCmd)[0];
    if left == 8 {
      if AddressOf(c5.sector, c5.g).cylinder >= 198 { TooFar(c5.sector, c5.g); }
    } else {
      SizeCode(full[5]);
    }
  }

  lemma OtherCutIsHarmless(cmd: Which, left: nat, c4: Config, c5: Config, s: State, steps4: seq<Step>, steps5: seq<Step>)
    requires AfterCut(cmd, left, c4, c5, s, steps4, steps5) && cmd == ReadCmd && (left == 4 || left == 7 || left == 8)
    ensures !GoneWrong(c4, c5, s, steps4, steps5)
  {
    hide Run, End, Session, CommandBytes, Hopeless, Completed;
    SecondRuns(cmd, left, c4, c5, s, steps4, steps5);
    InitialIsReady(s);
    ReadyIsSteady(s);
    var t := LeftIsOwnRead(c4, s, steps4, left);
    LeftIsCut(t.dev.phase, cmd, left);
    NextCallIsSteady(c4, s, steps4);
    CompletedToNothing(c4, c5, t, NextCall(t), left);
    if c5.count > 0 {
      MisreadCopiesNothing(c5, NextCall(t), steps5);
    } else {
      NothingToCopy(c5, NextCall(t), steps5);
    }
  }

  /** A call for no bytes copies none. */
  lemma {:induction false} NothingToCopy(c: Config, s: State, steps: seq<Step>)
    requires c.Valid() && c.count <= 0 && s.pc == LoopHead && s.job == NO_JOB && Run(SOURCE, c, s, steps)
    ensures var t := End(SOURCE, c, s, steps); (t.pc == LoopHead || t.pc == Ended(true)) && t.job == NO_JOB
    decreases |steps|
  {
    hide WellFormed;
    if steps != [] { NothingToCopy(c, s, steps[..|steps| - 1]); }
  }

  ghost predicate MayCutIn(cmd: Which, left: nat)
  {
    exists c4: Config, c5: Config, s: State, steps4: seq<Step>, steps5: seq<Step> ::
      AfterCut(cmd, left, c4, c5, s, steps4, steps5) && CutsIntoNext(c4, c5, s, steps4, steps5)
  }

  /** The handler has written to the FIFO in the middle of a command of the second call. */
  ghost predicate CutsIntoNext(c4: Config, c5: Config, s: State, steps4: seq<Step>, steps5: seq<Step>)
  {
    && c4.Valid() && Run(SOURCE, c4, s, steps4)
    && var o := NextCall(End(SOURCE, c4, s, steps4));
       c5.Valid() && Run(SOURCE, c5, o, steps5) && !HandlerStaysOut(SOURCE, c5, o, steps5)
  }

  /** The next seek's first bytes complete the one that was cut short. */
  lemma RunToStraySeek(c: Config, s: State, received: seq<byte>) returns (steps: seq<Step>, t: State)
    requires c.Valid() && c.count > 0 && s.pc == LoopHead && s.job == NO_JOB && |s.dev.buffer| >= SECTOR_SIZE
    requires 1 <= |received| <= 2 && received[0] == SEEK
    requires s.dev.phase == Command(received, 3 - |received|) && WellFormed(s.dev.phase)
    ensures Run(SOURCE, c, s, steps) && End(SOURCE, c, s, steps) == t
    ensures t.pc == Poll(SeekCmd, 3 - |received|) && t.dev.phase == Idle && t.dev.seekPending && t.irq == s.irq
  {
    hide Run, End, CommandBytes, WriteAll, CommandLength, Executes, Taken, Seeks, StandsAt, Silent, MovesHead;
    Opcodes();
    steps, t := RunToSeek(c, s);
    CommandBytesSame(c, s, t);
    var first := CommandBytes(c, s, SeekCmd)[..3 - |received|];
    WholeRest(received, 3 - |received|, first);
    FirstStandsAt(CommandBytes(c, s, SeekCmd), 3 - |received|);
    steps, t := SendAny(c, s, steps, t, SeekCmd, 0, first);
  }

  lemma FirstStandsAt(all: seq<byte>, n: nat)
    requires n <= |all|
    ensures StandsAt(all, 0, all[..n])
  {
  }

  /** Its interrupt is then sensed in the middle of the seek. */
  lemma SeekCutsIn(i: nat)
    requires 1 <= i <= 2
    ensures MayCutIn(SeekCmd, 3 - i)
  {
    hide Run, End, CommandBytes, WriteAll, AfterCut, CutsIntoNext, HandlerStaysOut, CommandLength, Executes;
    var c := ONE_SECTOR;
    var steps4, t := RunToCut(c, SeekCmd, i);
    CommandShape(c, START, SeekCmd);
    var steps5, u := RunToStraySeek(c, NextCall(t), t.dev.phase.received);
    CheckIntAnswers();
    var cut := Deliver(true, Result([0, 0]), true, true);
    CutsIn(SOURCE, c, NextCall(t), steps5, u, cut);
    IsAfterCut(SeekCmd, 3 - i, c, c, steps4, steps5 + [cut], t);
    CutsNext(c, c, steps4, steps5 + [cut], t);
  }

  lemma CheckIntAnswers()
    ensures Write(Idle, CHECK_INT, [0, 0]) == Result([0, 0]) && WellFormed(Result([0, 0]))
  {
  }

  lemma CutsNext(c4: Config, c5: Config, steps4: seq<Step>, steps5: seq<Step>, t: State)
    requires c4.Valid() && Run(SOURCE, c4, START, steps4) && End(SOURCE, c4, START, steps4) == t
    requires c5.Valid() && Run(SOURCE, c5, NextCall(t), steps5) && !HandlerStaysOut(SOURCE, c5, NextCall(t), steps5)
    ensures CutsIntoNext(c4, c5, START, steps4, steps5)
  {
    hide Run, End, HandlerStaysOut;
  }

  /** When the handler can cut into a call after one that was cut short: exactly if that one was cut in a seek. */
  lemma CutsInIff(cmd: Which, left: nat)
    requires 1 <= left < Length(cmd)
    ensures MayCutIn(cmd, left) <==> cmd == SeekCmd
  {
    hide AfterCut, CutsIntoNext, CutEarly, CutInSeek, LeftIn;
    if cmd == SeekCmd {
      SeekCutsIn(3 - left);
    } else {
      forall c4: Config, c5: Config, s: State, steps4: seq<Step>, steps5: seq<Step> |
        AfterCut(cmd, left, c4, c5, s, steps4, steps5)
        ensures !CutsIntoNext(c4, c5, s, steps4, steps5)
      {
        CutReadKeepsOut(cmd, left, c4, c5, s, steps4, steps5);
      }
    }
  }

  lemma CutReadKeepsOut(cmd: Which, left: nat, c4: Config, c5: Config, s: State, steps4: seq<Step>, steps5: seq<Step>)
    requires AfterCut(cmd, left, c4, c5, s, steps4, steps5) && cmd == ReadCmd
    ensures !CutsIntoNext(c4, c5, s, steps4, steps5)
  {
    hide Run, End, HandlerStaysOut, Session;
    SecondRuns(cmd, left, c4, c5, s, steps4, steps5);
    LeftIsCut(End(SOURCE, c4, s, steps4).dev.phase, cmd, left);
    BothLoadsGoRight(c4, c5, s, steps4, steps5);
  }
}
