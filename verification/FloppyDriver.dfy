/**
  The command functions of floppy_impl.h and the interrupt flags of floppy.h, as they run against the controller
  without an interrupt in between. The environment is arbitrary: at each look at the status register it decides
  whether the controller is ready and whether an execution has ended. The register may also show something
  else altogether: which bytes are sent, and when, is promised for any status at all, and what the controller then
  does where every look is genuine.
 */
module FloppyDriver {
  import opened CInt
  import opened Chs
  import opened Fdc

  /** The answer to a command without execution: two bytes, or one that says it was invalid. */
  type Answer = bs: seq<byte> | IsAnswer(bs) witness [0, 0]

  predicate IsAnswer(bs: seq<byte>) { |bs| == 2 || (|bs| == 1 && InvalidCode(bs[0] as bv8)) }

  /** The result of an execution: seven bytes, or none while it goes on. */
  type Ending = bs: seq<byte> | |bs| == 0 || |bs| == 7

  /** The bytes DMA may leave in the transfer buffer. */
  type Junk = bs: seq<byte> | |bs| == 0x300 witness seq(0x300, _ => 0)

  /** What the environment does at one moment: readiness, the result of an execution that ends now, the transfer
      buffer's contents where the disk does not determine them, the answer to a command that completes now, and
      what the data register shows when there is no result; and what a look at the status register shows. */
  datatype Tick = Tick(ready: bool, finish: Ending, junk: Junk, answer: Answer, stray: byte, shown: Shown)

  /** The controller's own status, or anything else at all. */
  datatype Shown = Own | Other(m: Msr)

  /** TRANSFER_BUFFER, and the end of what the DMA channel is programmed for. */
  const BUFFER := 0x1000
  const BUFFER_END := 0x1300

  const SECTOR_SIZE := 0x200

  predicate Reads(command: seq<byte>) { command != [] && ReadsData(command[0]) }

  /** The sector a command reads: for read data in double density, from its cylinder, head and sector bytes, if its
      sector size is the disk's and the sector is not past the last one it names; none off the disk, and none for any
      other command. */
  function SectorOf(disk: seq<byte>, g: Geometry, command: seq<byte>): (s: seq<byte>)
    ensures |s| == 0 || |s| == SECTOR_SIZE
  {
    if |command| < 7 || !Reads(command) || 128 * Pow2(command[5]) != SECTOR_SIZE || command[4] > command[6] then [] else
    var a := Address(command[2], command[3], command[4]);
    var lba := LbaOf(a, g);
    if a.In(g) && 0 <= lba && SECTOR_SIZE * (lba + 1) <= |disk|
    then disk[SECTOR_SIZE * lba..SECTOR_SIZE * (lba + 1)] else []
  }

  /** struct fpy_cmd_readtrack_res */
  datatype Results = Results(error: bool, st0: byte, st1: byte, st2: byte, cylinder: byte, head: byte, sector: byte, size: byte)

  /** `k` of the result bytes `bs` have been taken. */
  ghost predicate Drained(p: Phase, bs: seq<byte>, k: nat)
  {
    k <= |bs| && p == if k == |bs| then Idle else Result(bs[k..])
  }

  /** What the driver has done to the controller. `accepting` says whether a written byte was expected. */
  datatype Event = SawStatus(m: Msr) | Wrote(b: byte, accepting: bool) | Took(b: byte)

  datatype Outcome = Done | BadStatus | Timeout | Refused | StillPolling

  function Writes(trace: seq<Event>): seq<byte>
  {
    if trace == [] then []
    else
      var e := trace[|trace| - 1];
      Writes(trace[..|trace| - 1]) + if e.Wrote? then [e.b] else []
  }

  function Takes(trace: seq<Event>): seq<byte>
  {
    if trace == [] then []
    else
      var e := trace[|trace| - 1];
      Takes(trace[..|trace| - 1]) + if e.Took? then [e.b] else []
  }

  /** Each write directly follows a look at the status register that showed `mrq`. */
  predicate Handshaken(trace: seq<Event>)
  {
    trace != [] ==>
      Handshaken(trace[..|trace| - 1]) &&
      (trace[|trace| - 1].Wrote? ==>
        |trace| >= 2 && trace[|trace| - 2].SawStatus? && trace[|trace| - 2].m.mrq)
  }

  /** No byte was written in the execution or the result phase. */
  predicate AllExpected(trace: seq<Event>)
  {
    trace != [] ==> AllExpected(trace[..|trace| - 1]) && (trace[|trace| - 1].Wrote? ==> trace[|trace| - 1].accepting)
  }

  lemma TraceStep(trace: seq<Event>, e: Event)
    ensures Writes(trace + [e]) == Writes(trace) + if e.Wrote? then [e.b] else []
    ensures Takes(trace + [e]) == Takes(trace) + if e.Took? then [e.b] else []
    ensures AllExpected(trace + [e]) <==> AllExpected(trace) && (e.Wrote? ==> e.accepting)
    ensures Handshaken(trace + [e]) <==>
            Handshaken(trace) && (e.Wrote? ==> trace != [] && trace[|trace| - 1].SawStatus? && trace[|trace| - 1].m.mrq)
  {
    assert (trace + [e])[..|trace|] == trace;
  }

  lemma SuccessHasSevenBytes()
    ensures forall bytes :: ReportsSuccess(bytes) ==> |bytes| == 7
  {
  }

  /** `n` looks at the status, none of which showed `mrq`. */
  predicate LooksInVain(before: seq<Event>, now: seq<Event>, n: nat)
  {
    |now| == |before| + n && before <= now &&
    forall k :: |before| <= k < |now| ==> now[k].SawStatus? && !now[k].m.mrq
  }

  /** The driver gives up after a thousand of them. */
  predicate InVain(before: seq<Event>, now: seq<Event>) { LooksInVain(before, now, 1000) }

  const TRIES := 1000

  class Controller {
    const env: nat -> Tick
    const disk: seq<byte>
    const g: Geometry
    const mem: array<byte>
    var now: nat
    var phase: Phase
    /** The command now or last executed, and whether the buffer holds its sector. */
    ghost var current: seq<byte>
    ghost var fetched: bool
    ghost var trace: seq<Event>
    /** The track the head is on. */
    ghost var track: byte
    /** Reads of the data register that gave up. */
    ghost var timeouts: nat

    ghost predicate Valid()
      reads this, mem
    {
      && WellFormed(phase) && Handshaken(trace) && mem.Length >= BUFFER_END
      && (phase.Execution? ==> phase.command == current)
      && (phase.Result? ==> |phase.bytes| <= 7 && (ReportsSuccess(phase.bytes) && Reads(current) ==> fetched))
      && (fetched ==> SectorOf(disk, g, current) != [] && mem[BUFFER..BUFFER + SECTOR_SIZE] == SectorOf(disk, g, current))
    }

    constructor (env: nat -> Tick, disk: seq<byte>, g: Geometry, mem: array<byte>)
      requires mem.Length >= BUFFER_END
      ensures Valid() && phase == Idle && trace == [] && timeouts == 0
      ensures this.env == env && this.disk == disk && this.g == g && this.mem == mem
    {
      this.env, this.disk, this.g, this.mem := env, disk, g, mem;
      now, phase, current, fetched, trace, track, timeouts := 0, Idle, [], false, [], 0, 0;
    }

    /** Every look at the status register shows the controller's status. */
    ghost predicate Genuine()
    {
      forall k :: env(k).shown == Own
    }

    /** An environment without delays and failures: always ready, and every execution that can end well does so at
        the first look. */
    ghost predicate Prompt()
    {
      Genuine() && forall k :: env(k).ready && ReportsSuccess(env(k).finish)
    }

    /** Nothing keeps a prompt controller from asking for the next byte: the execution, if any, can end well. */
    ghost predicate Able()
      reads this
    {
      Prompt() && (phase.Execution? && Reads(phase.command) ==> SectorOf(disk, g, phase.command) != [])
    }

    /** Outside of the transfer buffer, memory is as it was. */
    twostate predicate MemoryKept()
      reads this, mem
    {
      forall k :: 0 <= k < mem.Length && !(BUFFER <= k < BUFFER_END) ==> mem[k] == old(mem[k])
    }

    /** What time alone can do to a phase: end an execution. */
    twostate predicate Passes()
      reads this
    {
      current == old(current) &&
      if phase == old(phase) then fetched == old(fetched)
      else old(phase).Execution? && phase.Result? && |phase.bytes| == 7
    }

    /** fpy_read_status; an execution may have ended by then. */
    method ReadStatus() returns (m: Msr)
      requires Valid()
      modifies this, mem
      ensures Valid() && Passes() && MemoryKept()
      ensures trace == old(trace) + [SawStatus(m)] && timeouts == old(timeouts) && track == old(track)
      ensures Genuine() ==> exists ready :: m == Status(phase, ready)
      ensures old(Able()) ==> m.mrq && (old(phase).Execution? ==> phase.Result? && ReportsSuccess(phase.bytes))
    {
      hide SectorOf, Handshaken, ReportsSuccess;
      if phase.Execution? {
        FinishExecution();
      }
      m := if env(now).shown.Other? then env(now).shown.m else Status(phase, env(now).ready);
      now := now + 1;
      TraceStep(trace, SawStatus(m));
      trace := trace + [SawStatus(m)];
    }

    /** The controller's side: if the execution ends now, the result is set, and a successful read has put its sector
        at the start of the transfer buffer. It cannot succeed without one. */
    method FinishExecution()
      requires Valid() && phase.Execution?
      modifies this`phase, this`fetched, mem
      ensures Valid() && Passes() && MemoryKept()
      ensures old(Able()) ==> phase.Result? && ReportsSuccess(phase.bytes)
    {
      hide SectorOf, Handshaken, ReportsSuccess;
      var t := env(now);
      assert ReportsSuccess(t.finish) ==> t.finish != [] by { SuccessHasSevenBytes(); }
      var success, sector := ReportsSuccess(t.finish), SectorOf(disk, g, phase.command);
      var isRead := Reads(phase.command);
      if t.finish != [] && !(success && isRead && sector == []) {
        if !MovesNothing(phase.command[0]) {
          Transfer(if success && isRead then sector + t.junk[SECTOR_SIZE..] else t.junk);
        }
        fetched := success && isRead;
        phase := Result(t.finish);
      }
    }

    /** DMA fills the transfer buffer. */
    method Transfer(bytes: seq<byte>)
      requires mem.Length >= BUFFER_END && |bytes| == BUFFER_END - BUFFER
      modifies mem
      ensures MemoryKept()
      ensures mem[BUFFER..BUFFER_END] == bytes && mem[BUFFER..BUFFER + SECTOR_SIZE] == bytes[..SECTOR_SIZE]
    {
      forall k | 0 <= k < |bytes| { mem[BUFFER + k] := bytes[k]; }
    }

    /** `do_outb(FPY_FIFO, b)` right after a status that showed `mrq`. */
    method WriteFifo(b: byte)
      requires Valid() && trace != [] && trace[|trace| - 1].SawStatus? && trace[|trace| - 1].m.mrq
      modifies this
      ensures Valid() && timeouts == old(timeouts)
      ensures trace == old(trace) + [Wrote(b, Accepting(old(phase)))]
      ensures !phase.Execution? ==> current == old(current) && fetched == old(fetched)
      ensures exists answer: Answer :: phase == Write(old(phase), b, answer)
      ensures track == TrackAfter(old(track), old(phase), b)
    {
      hide SectorOf, ReportsSuccess, CompletesSeek, AllExpected, Writes, Takes;
      SuccessHasSevenBytes();
      track := TrackAfter(track, phase, b);
      TraceStep(trace, Wrote(b, Accepting(phase)));
      trace := trace + [Wrote(b, Accepting(phase))];
      phase := Write(phase, b, env(now).answer);
      if phase.Execution? {
        current, fetched := phase.command, false;
      }
    }

    /** fpy_send_command_byte: up to a thousand looks at the status, then the byte. */
    method SendCommandByte(b: byte) returns (r: Outcome)
      requires Valid()
      modifies this, mem
      ensures Valid() && MemoryKept() && (r == Done || r == Timeout) && timeouts == old(timeouts)
      ensures Writes(trace) == Writes(old(trace)) + if r == Done then [b] else []
      ensures Takes(trace) == Takes(old(trace))
      ensures old(trace) <= trace && (r == Timeout ==> InVain(old(trace), trace))
      ensures Accepting(old(phase)) && Prompt() ==> r == Done
      ensures Accepting(old(phase)) ==>
                && (AllExpected(old(trace)) ==> AllExpected(trace))
                && (r == Timeout ==> phase == old(phase) && track == old(track))
                && (r == Done ==>
                      track == TrackAfter(old(track), old(phase), b) &&
                      exists answer: Answer :: phase == Write(old(phase), b, answer))
    {
      hide WellFormed, Write, Writes, Takes, AllExpected, Handshaken;
      var i := 0;
      while i < TRIES
        invariant Valid() && MemoryKept() && timeouts == old(timeouts)
        invariant Writes(trace) == Writes(old(trace)) && Takes(trace) == Takes(old(trace))
        invariant i <= TRIES && track == old(track) && LooksInVain(old(trace), trace, i)
        invariant Accepting(old(phase)) && Prompt() ==> i == 0
        invariant Accepting(old(phase)) ==> phase == old(phase) && (AllExpected(old(trace)) ==> AllExpected(trace))
      {
        ghost var t := trace;
        var m := ReadStatus();
        TraceStep(t, SawStatus(m));
        if m.mrq {
          TraceStep(trace, Wrote(b, Accepting(phase)));
          WriteFifo(b);
          return Done;
        }
        i := i + 1;
      }
      return Timeout;
    }

    /** `while (!fpy_read_status().mrq);`, given up after `patience` looks. */
    method AwaitRequest(patience: nat) returns (seen: bool)
      requires Valid()
      modifies this, mem
      ensures Valid() && MemoryKept() && timeouts == old(timeouts) && Passes()
      ensures Writes(trace) == Writes(old(trace)) && Takes(trace) == Takes(old(trace))
      ensures AllExpected(old(trace)) ==> AllExpected(trace)
      ensures old(trace) <= trace && track == old(track)
      ensures seen && Genuine() ==> !phase.Execution?
      ensures old(Able()) && patience > 0 ==>
                seen && (old(phase).Execution? ==> phase.Result? && ReportsSuccess(phase.bytes))
    {
      hide SectorOf, ReportsSuccess;
      var looks := 0;
      while looks < patience
        invariant Valid() && MemoryKept() && timeouts == old(timeouts) && Passes()
        invariant Writes(trace) == Writes(old(trace)) && Takes(trace) == Takes(old(trace))
        invariant AllExpected(old(trace)) ==> AllExpected(trace)
        invariant old(trace) <= trace && track == old(track)
        invariant old(Able()) ==> looks == 0 && phase == old(phase)
      {
        ghost var t := trace;
        var m := ReadStatus();
        TraceStep(t, SawStatus(m));
        if m.mrq { return true; }
        looks := looks + 1;
      }
      return false;
    }

    /** The loop of fpy_send_command, after its look at the status. `sent` counts the bytes that were written; the
        polling loop gives up after `patience` looks, which stands for a run that is still waiting. */
    method SendBytes(cmd: seq<byte>, msr: Msr, patience: nat) returns (r: Outcome, ghost sent: nat)
      requires Valid() && !msr.dataio
      modifies this, mem
      ensures Valid() && MemoryKept() && timeouts == old(timeouts) && Takes(trace) == Takes(old(trace))
      ensures sent <= |cmd| && Writes(trace) == Writes(old(trace)) + cmd[..sent]
      ensures r != BadStatus && (r == Done ==> sent == |cmd|) && old(trace) <= trace
      ensures old(phase) == Idle && cmd != [] && |cmd| == CommandLength(cmd[0]) ==>
                && (AllExpected(old(trace)) ==> AllExpected(trace))
                && AfterSending(phase, cmd, sent)
                && (sent == |cmd| && Executes(cmd[0]) ==> current == cmd && phase == Execution(cmd))
                && (sent == |cmd| == 3 && cmd[0] == SEEK ==> track == cmd[2])
                && (Prompt() && patience > 0 ==> r == Done)
    {
      hide WellFormed, Write, Writes, Takes, AllExpected, Handshaken, AfterSending, CommandLength, ReportsSuccess, SectorOf;
      ghost var idle := phase == Idle && cmd != [] && |cmd| == CommandLength(cmd[0]);
      sent := 0;
      assert cmd[..0] == [];
      if idle { SendingStarts(cmd); }
      var i := 0;
      while i < |cmd|
        invariant old(trace) <= trace && (idle && i == |cmd| == 3 && cmd[0] == SEEK ==> track == cmd[2])
        invariant i <= |cmd| && sent == i && Valid() && MemoryKept() && timeouts == old(timeouts)
        invariant Takes(trace) == Takes(old(trace)) && Writes(trace) == Writes(old(trace)) + cmd[..i]
        invariant idle ==> (AllExpected(old(trace)) ==> AllExpected(trace)) && AfterSending(phase, cmd, i)
        invariant idle && i == |cmd| && Executes(cmd[0]) ==> current == cmd && phase == Execution(cmd)
      {
        ghost var before := phase;
        if idle { SendingAccepts(phase, cmd, i); }
        var seen := AwaitRequest(patience);
        if idle { SendingPasses(before, phase, cmd, i); }
        if !seen { return StillPolling, i; }
        if msr.dataio {
          r := BadStatus;
          return;
        }
        before := phase;
        var err := SendCommandByte(cmd[i]);
        if err != Done { return err, i; }
        if idle {
          SendingStep(before, phase, cmd, i);
          SeekSteps(before, cmd, i);
        }
        assert cmd[..i] + [cmd[i]] == cmd[..i + 1];
        i := i + 1;
        sent := i;
      }
      return Done, i;
    }

    /** fpy_send_command. It fails on its first look at the status exactly if that does not show `mrq`, or shows
        `dataio`. */
    method SendCommand(cmd: seq<byte>, mrq: bool, patience: nat) returns (r: Outcome, ghost sent: nat)
      requires Valid()
      modifies this, mem
      ensures Valid() && MemoryKept() && timeouts == old(timeouts) && Takes(trace) == Takes(old(trace))
      ensures sent <= |cmd| && Writes(trace) == Writes(old(trace)) + cmd[..sent]
      ensures r == Done ==> sent == |cmd|
      ensures |old(trace)| < |trace| && old(trace) <= trace && trace[|old(trace)|].SawStatus?
      ensures r == BadStatus <==> !trace[|old(trace)|].m.mrq || trace[|old(trace)|].m.dataio
      ensures r == BadStatus ==> sent == 0 && (AllExpected(old(trace)) ==> AllExpected(trace))
      ensures old(phase).Result? && Genuine() ==>
                r == BadStatus && phase == old(phase) && current == old(current) && fetched == old(fetched)
      ensures old(phase).Execution? && Genuine() ==> r == BadStatus && Passes()
      ensures old(phase) == Idle && cmd != [] && |cmd| == CommandLength(cmd[0]) ==>
                && (AllExpected(old(trace)) ==> AllExpected(trace))
                && AfterSending(phase, cmd, sent)
                && (sent == |cmd| && Executes(cmd[0]) ==> current == cmd)
                && (sent == |cmd| == 3 && cmd[0] == SEEK ==> track == cmd[2])
                && (r == Done && mrq && Genuine() ==> !phase.Execution?)
                && (Prompt() && patience > 0 && (mrq && Executes(cmd[0]) ==> SectorOf(disk, g, cmd) != []) ==>
                      r == Done && (mrq && Executes(cmd[0]) ==> phase.Result? && ReportsSuccess(phase.bytes)))
    {
      hide WellFormed, Write, Writes, Takes, AllExpected, Handshaken, AfterSending, CommandLength, ReportsSuccess, SectorOf;
      ghost var idle := phase == Idle && cmd != [] && |cmd| == CommandLength(cmd[0]);
      ghost var t := trace;
      var msr := ReadStatus();
      TraceStep(t, SawStatus(msr));
      assert cmd[..0] == [];
      if idle { SendingStarts(cmd); }
      if !msr.mrq || msr.dataio { return BadStatus, 0; }
      r, sent := SendBytes(cmd, msr, patience);
      if r != Done || !mrq { return; }
      ghost var before := phase;
      if idle && !Executes(cmd[0]) { NotExecuting(before, cmd); }
      var seen := AwaitRequest(patience);
      if idle { SendingPasses(before, phase, cmd, |cmd|); }
      r := if seen then Done else StillPolling;
    }

    /** After `base`, the first `k` of the result bytes `bs` have been taken, and the others are still there. */
    ghost predicate Consumed(base: seq<byte>, bs: seq<byte>, k: nat)
      reads this
    {
      k <= |bs| && Drained(phase, bs, k) && Takes(trace) == base + bs[..k]
    }

    /** `do_inb(FPY_FIFO)`: the next result byte, or whatever the register shows when there is none. */
    method ReadFifo() returns (b: byte)
      requires Valid()
      modifies this
      ensures Valid() && timeouts == old(timeouts) && fetched == old(fetched) && current == old(current)
      ensures trace == old(trace) + [Took(b)] && track == old(track)
      ensures old(phase).Result? ==> b == old(phase).bytes[0] && phase == Read(old(phase))
    {
      b := if phase.Result? then phase.bytes[0] else env(now).stray;
      TraceStep(trace, Took(b));
      trace := trace + [Took(b)];
      if phase.Result? {
        phase := Read(phase);
      }
    }

    /** fpy_read_data: a byte from the FIFO, or 0xFF, with nothing taken, after a thousand looks. `clean` says
        that a result is being read, from its first byte on. */
    method ReadData(ghost clean: bool, ghost base: seq<byte>, ghost bs: seq<byte>, ghost k: nat)
      returns (b: byte, ghost taken: nat)
      requires Valid() && (clean ==> Consumed(base, bs, k) && k < |bs|)
      modifies this, mem
      ensures Valid() && MemoryKept() && Writes(trace) == Writes(old(trace)) && old(timeouts) <= timeouts
      ensures AllExpected(old(trace)) ==> AllExpected(trace)
      ensures |old(trace)| < |trace|
      ensures if timeouts == old(timeouts) then old(trace) <= trace[..|trace| - 1] && trace[|trace| - 1] == Took(b)
              else b == 0xFF && timeouts == old(timeouts) + 1 && InVain(old(trace), trace)
      ensures clean ==>
                && k <= taken <= k + 1 && Consumed(base, bs, taken)
                && timeouts == old(timeouts) + (k + 1 - taken)
                && b == (if taken == k then 0xFF else bs[k])
                && current == old(current) && fetched == old(fetched)
                && (Prompt() ==> taken == k + 1)
    {
      hide Writes, Takes, AllExpected, Handshaken, WellFormed;
      var i := 0;
      while i < TRIES
        invariant Valid() && MemoryKept() && timeouts == old(timeouts)
        invariant i <= TRIES && LooksInVain(old(trace), trace, i)
        invariant clean ==> phase == old(phase) && current == old(current) && fetched == old(fetched)
        invariant clean && Prompt() ==> i == 0
        invariant Takes(trace) == Takes(old(trace)) && Writes(trace) == Writes(old(trace))
        invariant AllExpected(old(trace)) ==> AllExpected(trace)
      {
        ghost var t := trace;
        var m := ReadStatus();
        TraceStep(t, SawStatus(m));
        if m.mrq {
          t := trace;
          b := ReadFifo();
          TraceStep(t, Took(b));
          if clean { assert bs[..k + 1] == bs[..k] + [b]; }
          return b, k + 1;
        }
        i := i + 1;
      }
      timeouts := timeouts + 1;
      return 0xFF, k;
    }

    /** The four address bytes of a result, which are not checked. */
    method ReadAddress(ghost clean: bool, ghost base: seq<byte>, ghost bs: seq<byte>)
      returns (cylinder: byte, head: byte, sector: byte, size: byte, ghost k: nat)
      requires Valid() && (clean ==> |bs| == 7 && Consumed(base, bs, 3))
      modifies this, mem
      ensures Valid() && MemoryKept() && Writes(trace) == Writes(old(trace)) && old(timeouts) <= timeouts
      ensures AllExpected(old(trace)) ==> AllExpected(trace)
      ensures clean ==>
                && 3 <= k <= 7 && Consumed(base, bs, k) && timeouts == old(timeouts) + (7 - k)
                && (k == 7 ==> cylinder == bs[3] && head == bs[4] && sector == bs[5] && size == bs[6])
                && (Prompt() ==> k == 7)
                && current == old(current) && fetched == old(fetched)
    {
      hide Writes, Consumed, AllExpected, InVain;
      cylinder, k := ReadData(clean, base, bs, 3);
      head, k := ReadData(clean, base, bs, k);
      sector, k := ReadData(clean, base, bs, k);
      size, k := ReadData(clean, base, bs, k);
    }

    /** fpy_cmd_gen_res up to its checks: the three status bytes. `k` of the seven bytes have been taken. */
    method ReadStatusBytes(ghost clean: bool, ghost base: seq<byte>, ghost bs: seq<byte>)
      returns (res: Results, ghost k: nat)
      requires Valid() && (clean ==> |bs| == 7 && Consumed(base, bs, 0))
      modifies this, mem
      ensures Valid() && MemoryKept() && Writes(trace) == Writes(old(trace)) && old(timeouts) <= timeouts
      ensures AllExpected(old(trace)) ==> AllExpected(trace)
      ensures clean ==>
                && k <= 3 && Consumed(base, bs, k) && timeouts <= old(timeouts) + 1
                && (!res.error ==> k == 3 && timeouts == old(timeouts) && ReportsSuccess(bs))
                && (res.error && timeouts == old(timeouts) ==> k >= 1 && !ReportsSuccess(bs))
                && (!res.error ==> res.st0 == bs[0] && res.st1 == bs[1] && res.st2 == bs[2])
                && (Prompt() ==> timeouts == old(timeouts))
                && current == old(current) && fetched == old(fetched)
    {
      hide Writes, Consumed, AllExpected, ReportsSuccess, St0Ok, St1Ok, St2Ok, InVain;
      if clean { ChecksPassIff(bs); }
      TimeoutFailsChecks();
      res := Results(false, 0, 0, 0, 0, 0, 0, 0);
      var b;
      b, k := ReadData(clean, base, bs, 0);
      res := res.(st0 := b, error := !St0Ok(b));
      if res.error { return; }
      b, k := ReadData(clean, base, bs, k);
      res := res.(st1 := b, error := !St1Ok(b));
      if res.error { return; }
      b, k := ReadData(clean, base, bs, k);
      res := res.(st2 := b, error := !St2Ok(b));
    }

    /** fpy_cmd_gen_res: all seven result bytes, or a sticky failure.
        A success takes a byte less for each of the last four reads that timed out, because those are not checked;
        a failure leaves at least four bytes behind. */
    method GenRes() returns (res: Results)
      requires Valid()
      modifies this, mem
      ensures Valid() && MemoryKept() && Writes(trace) == Writes(old(trace)) && old(timeouts) <= timeouts
      ensures AllExpected(old(trace)) ==> AllExpected(trace)
      ensures old(phase).Result? && |old(phase).bytes| == 7 ==>
                var bs := old(phase).bytes;
                && current == old(current) && fetched == old(fetched)
                && (Prompt() ==> timeouts == old(timeouts))
                && if res.error then
                     && phase.Result? && 4 <= |phase.bytes| <= 7 && phase.bytes == bs[7 - |phase.bytes|..]
                     && Takes(trace) == Takes(old(trace)) + bs[..7 - |phase.bytes|]
                     && (timeouts == old(timeouts) ==> |phase.bytes| < 7 && !ReportsSuccess(bs))
                   else
                     var missed := timeouts - old(timeouts);
                     && missed <= 4 && ReportsSuccess(bs)
                     && Takes(trace) == Takes(old(trace)) + bs[..7 - missed] && Drained(phase, bs, 7 - missed)
                     && (missed == 0 ==> res == Results(false, bs[0], bs[1], bs[2], bs[3], bs[4], bs[5], bs[6]))
    {
      hide Writes, Takes, AllExpected, Handshaken, ReportsSuccess;
      ghost var clean := phase.Result? && |phase.bytes| == 7;
      ghost var base, bs, k := Takes(trace), if clean then phase.bytes else [], 0;
      assert bs[..0] == [] && bs[0..] == bs;
      res, k := ReadStatusBytes(clean, base, bs);
      if res.error {
        assert clean ==> phase.bytes == bs[k..];
        return;
      }
      var c, h, s, n;
      c, h, s, n, k := ReadAddress(clean, base, bs);
      res := res.(cylinder := c, head := h, sector := s, size := n);
    }
  }

  /** The phase once `n` bytes of a command have gone in from Idle. */
  ghost predicate AfterSending(p: Phase, cmd: seq<byte>, n: nat)
    requires cmd != [] && n <= |cmd|
  {
    if n == 0 then p == Idle
    else if n < |cmd| then p == Command(cmd[..n], |cmd| - n)
    else if Executes(cmd[0]) then p == Execution(cmd) || (p.Result? && |p.bytes| == 7)
    else if Silent(cmd[0]) then p == Idle
    else p.Result? && IsAnswer(p.bytes)
  }

  lemma SendingStarts(cmd: seq<byte>)
    requires cmd != []
    ensures AfterSending(Idle, cmd, 0)
  {
  }

  /** Until its last byte is in, a command is accepted. */
  lemma SendingAccepts(p: Phase, cmd: seq<byte>, n: nat)
    requires n < |cmd| && AfterSending(p, cmd, n)
    ensures Accepting(p)
  {
  }

  lemma NotExecuting(p: Phase, cmd: seq<byte>)
    requires cmd != [] && !Executes(cmd[0]) && AfterSending(p, cmd, |cmd|)
    ensures !p.Execution?
  {
  }

  lemma SendingPasses(p: Phase, q: Phase, cmd: seq<byte>, n: nat)
    requires cmd != [] && n <= |cmd| && AfterSending(p, cmd, n) && (q == p || (p.Execution? && q.Result? && |q.bytes| == 7))
    ensures AfterSending(q, cmd, n)
  {
  }

  /** The last byte of a seek sent from Idle puts the head on the track it names. */
  lemma SeekSteps(p: Phase, cmd: seq<byte>, n: nat)
    requires n < |cmd| && |cmd| == CommandLength(cmd[0]) && AfterSending(p, cmd, n) && WellFormed(p)
    ensures cmd[0] == SEEK && n + 1 == |cmd| ==> |cmd| == 3 && forall track: byte :: TrackAfter(track, p, cmd[n]) == cmd[2]
  {
  }

  lemma SendingStep(p: Phase, q: Phase, cmd: seq<byte>, n: nat)
    requires n < |cmd| && |cmd| == CommandLength(cmd[0]) && AfterSending(p, cmd, n)
    requires WellFormed(p) && exists answer: Answer :: q == Write(p, cmd[n], answer)
    ensures AfterSending(q, cmd, n + 1)
    ensures n + 1 == |cmd| && Executes(cmd[0]) ==> q == Execution(cmd)
  {
    assert cmd[..n] + [cmd[n]] == cmd[..n + 1];
    assert n + 1 == |cmd| ==> cmd[..n + 1] == cmd;
    assert n == 0 ==> [cmd[0]] == cmd[..1];
  }
}
