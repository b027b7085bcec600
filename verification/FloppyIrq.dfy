/**
  The interrupt side of floppy.h: the handler, the two shared flags, and the wait; and on top of them the
  commands that fpy_copy_bytes uses.
 */
module FloppyIrq {
  import opened Fdc
  import opened FloppyDriver

  /** fpy_irq_received: 0, 1 or a pointer to an error message. */
  datatype Received = Nothing | One | Message

  datatype Verdict = NoError | Error | Hung

  /** What fpy_cmd_check_interrupt can do to the controller, outside of the command phase. */
  ghost predicate Sensed(p: Phase, q: Phase, wrote: bool, r: Verdict)
  {
    match p
    case Result(_) => r == Error && q == p && !wrote
    case Execution(_) => r == Error && (q == p || q.Result?) && !wrote
    case Idle => (q == Idle || q.Result?) && (r == NoError ==> wrote) && (!wrote ==> q == Idle)
    case Command(_, _) => true
  }

  class Driver {
    const c: Controller
    /** Whether an interrupt comes at the k-th look at the flag. */
    const arrivals: nat -> bool
    var looks: nat
    var received: Received
    /** fpy_irq_handle_state: the next interrupt is not to be handled, only noted. */
    var noHandle: bool
    /** Interrupts delivered and waits completed. */
    ghost var interrupts: nat
    ghost var waits: nat

    ghost predicate Valid()
      reads this, c, c.mem
    {
      c.Valid() && c.Genuine() && 0 <= Spare()
    }

    /** Interrupts that no wait has consumed, and for which the flag is not up either. */
    ghost function Spare(): int
      reads this`interrupts, this`waits, this`received
    {
      interrupts - waits - if received == Nothing then 0 else 1
    }

    /** A prompt controller, and an interrupt at every look. */
    ghost predicate Prompt()
    {
      c.Prompt() && forall k :: arrivals(k)
    }

    constructor (c: Controller, arrivals: nat -> bool)
      requires c.Valid() && c.Genuine()
      ensures Valid() && this.c == c && this.arrivals == arrivals && received == Nothing && !noHandle
    {
      this.c, this.arrivals := c, arrivals;
      looks, received, noHandle, interrupts, waits := 0, Nothing, false, 0, 0;
    }

    /** fpy_setup_idt: a flag that is up is forgotten. */
    method SetupIdt()
      requires Valid()
      modifies this`received
      ensures Valid() && received == Nothing
    {
      received := Nothing;
    }

    /** fpy_cmd_check_interrupt: sense interrupt status, one byte out, two bytes in. If no read gives up, "no error"
        means that the whole answer has been taken. */
    method CheckInterrupt(patience: nat) returns (r: Verdict)
      requires c.Valid() && c.Genuine()
      modifies c, c.mem
      ensures c.Valid() && c.MemoryKept()
      ensures Sensed(old(c.phase), c.phase, Writes(c.trace) != Writes(old(c.trace)), r)
      ensures Writes(c.trace) == Writes(old(c.trace)) || Writes(c.trace) == Writes(old(c.trace)) + [CHECK_INT]
      ensures old(c.phase) == Idle && r == NoError && c.timeouts == old(c.timeouts) ==>
                c.phase == Idle && |Takes(c.trace)| == |Takes(old(c.trace))| + 2
      ensures old(c.phase) == Idle && c.Prompt() && patience > 0 ==> r != Hung && c.timeouts == old(c.timeouts)
      ensures old(c.timeouts) <= c.timeouts
      ensures !old(c.phase).Command? ==> (AllExpected(old(c.trace)) ==> AllExpected(c.trace))
      ensures old(c.phase).Result? ==>
                c.fetched == old(c.fetched) && c.current == old(c.current) && c.timeouts == old(c.timeouts)
    {
      hide Writes, Takes, AllExpected, Handshaken, WellFormed;
      var cmd := [CHECK_INT];
      var o, sent := c.SendCommand(cmd, true, patience);
      assert cmd[..0] == [] && cmd[..1] == cmd && Writes(old(c.trace)) + [] == Writes(old(c.trace));
      if o == StillPolling { return Hung; }
      if o != Done { return Error; }
      assert Writes(c.trace) != Writes(old(c.trace)) by { assert |Writes(c.trace)| == |Writes(old(c.trace))| + 1; }
      ghost var clean := old(c.phase) == Idle;
      ghost var bs, k := if clean then c.phase.bytes else [], 0;
      if clean { assert bs[0..] == bs && bs[..0] == []; }
      var st0, cylinder;
      st0, k := c.ReadData(clean, Takes(c.trace), bs, 0);
      if !St0Ok(st0) { return Error; }
      cylinder, k := c.ReadData(clean, Takes(old(c.trace)), bs, k);
      return NoError;
    }

    /** fpy_interrupt_handler: note the interrupt, or sense it first. A handler that polls for ever does not end. */
    method InterruptHandler(patience: nat) returns (ended: bool)
      requires Valid()
      modifies this, c, c.mem
      ensures Valid() && c.MemoryKept() && waits == old(waits) && interrupts == old(interrupts) + 1 && old(Spare()) <= Spare()
      ensures old(noHandle) ==> ended && !noHandle && received == One && c.trace == old(c.trace) && c.phase == old(c.phase)
      ensures !old(noHandle) && ended ==>
                && !noHandle && received != Nothing
                && Sensed(old(c.phase), c.phase, Writes(c.trace) != Writes(old(c.trace)),
                          if received == One then NoError else Error)
      ensures old(c.timeouts) <= c.timeouts
      ensures old(c.phase).Result? ==>
                && ended && c.phase == old(c.phase) && c.timeouts == old(c.timeouts)
                && c.fetched == old(c.fetched) && c.current == old(c.current)
                && (AllExpected(old(c.trace)) ==> AllExpected(c.trace)) && Writes(c.trace) == Writes(old(c.trace))
    {
      interrupts := interrupts + 1;
      if noHandle {
        noHandle := false;
        received := One;
        return true;
      }
      var r := CheckInterrupt(patience);
      if r == Hung { return false; }
      received := if r == NoError then One else Message;
      return true;
    }

    /** fpy_prepare_irq_no_handle */
    method PrepareIrqNoHandle()
      modifies this`noHandle
      ensures noHandle
    {
      noHandle := true;
    }

    /** fpy_wait_irq: spins on the flag while interrupts come, then consumes it. Its verdict is NoError exactly
        when the flag it consumed was 1. */
    method WaitIrq(patience: nat) returns (r: Verdict, ghost consumed: Received)
      requires Valid()
      modifies this, c, c.mem
      ensures Valid() && c.MemoryKept() && old(Spare()) <= Spare()
      ensures r != Hung ==>
                received == Nothing && waits == old(waits) + 1 && consumed != Nothing && (r == NoError <==> consumed == One)
      ensures r == Hung ==> waits == old(waits)
      ensures old(received) != Nothing ==>
                consumed == old(received) && r != Hung && noHandle == old(noHandle) && c.phase == old(c.phase)
      ensures old(c.timeouts) <= c.timeouts
      ensures old(c.phase).Result? ==>
                && c.phase == old(c.phase) && c.timeouts == old(c.timeouts)
                && c.fetched == old(c.fetched) && c.current == old(c.current)
                && (AllExpected(old(c.trace)) ==> AllExpected(c.trace)) && Writes(c.trace) == Writes(old(c.trace))
                && (Prompt() && patience > 0 ==> r != Hung)
    {
      hide AllExpected, Writes;
      consumed := received;
      var spins := 0;
      while received == Nothing && spins < patience
        invariant Valid() && c.MemoryKept() && waits == old(waits) && old(Spare()) <= Spare()
        invariant old(received) != Nothing ==> received == old(received) && noHandle == old(noHandle) && c.phase == old(c.phase)
        invariant old(c.timeouts) <= c.timeouts
        invariant Prompt() && old(c.phase).Result? ==> spins == 0 || received != Nothing
        invariant old(c.phase).Result? ==>
                    && c.phase == old(c.phase) && c.timeouts == old(c.timeouts)
                    && c.fetched == old(c.fetched) && c.current == old(c.current)
                    && (AllExpected(old(c.trace)) ==> AllExpected(c.trace)) && Writes(c.trace) == Writes(old(c.trace))
      {
        looks := looks + 1;
        if arrivals(looks) {
          var ended := InterruptHandler(patience);
          if !ended { return Hung, received; }
        }
        spins := spins + 1;
      }
      if received == Nothing { return Hung, received; }
      consumed := received;
      r := if received == One then NoError else Error;
      received := Nothing;
      waits := waits + 1;
    }
  }
}
