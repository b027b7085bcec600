/**
  The 32-bit interrupt entry stub: for every vector, every stack and every cdecl handler, the handler gets a
  pointer to a matching `struct int_infos`, and after `iret` the interrupted code finds everything as it was.
 */
module IdtStub {

  const WORDS := 0x1_0000_0000

  type word = x: int | 0 <= x < 0x1_0000_0000

  /** The address `k` words below `base`; the stack may wrap around. */
  function Slot(base: word, k: nat): word { (base - 4 * k) % WORDS }

  lemma SlotsDiffer(base: word, j: nat, k: nat)
    requires j < k < 0x4000_0000
    ensures Slot(base, j) != Slot(base, k)
  {
  }

  lemma WrapStep(x: int)
    ensures (x % 0x1_0000_0000 - 4) % 0x1_0000_0000 == (x - 4) % 0x1_0000_0000
    ensures ((x - 4) % 0x1_0000_0000 + 4) % 0x1_0000_0000 == x % 0x1_0000_0000
  {
  }

  lemma SlotBelow(base: word, k: nat)
    ensures (Slot(base, k) - 4) % WORDS == Slot(base, k + 1)
    ensures (Slot(base, k + 1) + 4) % WORDS == Slot(base, k)
    ensures Slot(base, 0) == base
  {
    WrapStep(base - 4 * k);
  }

  lemma SlotAbove(base: word, k: nat, i: nat)
    requires i <= k
    ensures (Slot(base, k) + 4 * i) % WORDS == Slot(base, k - i)
  {
  }

  // ---------------------------------------------------------------- vectors

  /** The vectors the table of entries has. */
  predicate HasEntry(n: word) { 0 <= n <= 20 || 32 <= n <= 33 || 35 <= n <= 47 }

  /** XERRORCODE in the table: the stub relies on the processor's own error code. */
  predicate TableSaysErrorCode(n: word) { n in {8, 10, 11, 12, 13, 14, 17} }

  /** The exceptions for which the processor pushes an error code (Intel SDM, volume 3, section 6.15). */
  predicate PushesErrorCode(n: word) { n == 8 || 10 <= n <= 14 || n == 17 || n == 21 || n == 29 || n == 30 }

  /** The error code the handler is shown: the processor's, or the 0 the stub pushes in its place. */
  function ShownCode(n: word, code: word): word { if PushesErrorCode(n) then code else 0 }

  /** The first five words of the frame. */
  function EntryFrame(flags: word, cs: word, eip: word, shown: word, n: word): seq<word>
  {
    [flags] + [cs] + [eip] + [shown] + [n]
  }

  lemma TableMatchesProcessor(n: word)
    requires HasEntry(n)
    ensures TableSaysErrorCode(n) <==> PushesErrorCode(n)
  {
  }

  // ---------------------------------------------------------------- the machine

  /** struct int_infos. */
  datatype Infos = Infos(edi: word, esi: word, edx: word, ecx: word, ebx: word, eax: word, intNbr: word,
                         retCode: word, ip: word)

  /** What a handler does besides returning: it may change eax, ecx, edx and the flags, and write memory. */
  datatype Effect = Effect(eax: word, ecx: word, edx: word, eflags: word, writes: map<word, word>)

  /** It does so outside of the `n` words below `base`: the saved frame. */
  ghost predicate LeavesFrame(e: Effect, base: word, n: nat)
  {
    forall k :: 1 <= k <= n ==> Slot(base, k) !in e.writes
  }

  /** EFLAGS with the interrupt flag, bit 9, clear: the effect of `cli`. */
  function Masked(eflags: word): word
  {
    if (eflags / 0x200) % 2 == 1 then eflags - 0x200 else eflags
  }

  /** A word of memory; what was never written is 0. */
  function At(mem: map<word, word>, a: word): word { if a in mem then mem[a] else 0 }

  /** The words an interrupt and its stub use: flags, segment and instruction pointer, error code or 0, vector, six
      registers, the handler's argument and its return address. */
  const FRAME := 13

  ghost predicate InFrame(base: word, a: word) { exists k :: 1 <= k <= FRAME && a == Slot(base, k) }

  /** Memory outside of the frame is as in `was`. */
  ghost predicate SameOutside(was: map<word, word>, mem: map<word, word>, base: word)
  {
    forall a: word :: !InFrame(base, a) ==> At(mem, a) == At(was, a)
  }

  /** Memory is as in `was`, but for the frame and what the handler has written. */
  ghost predicate Handled(was: map<word, word>, mem: map<word, word>, base: word, e: Effect)
  {
    && (forall a: word :: a in e.writes ==> At(mem, a) == e.writes[a])
    && forall a: word :: a !in e.writes && !InFrame(base, a) ==> At(mem, a) == At(was, a)
  }

  lemma NothingPushed(mem: map<word, word>, base: word)
    ensures SameOutside(mem, mem, base)
  {
  }

  lemma PushedInFrame(was: map<word, word>, mem: map<word, word>, base: word, k: nat, v: word)
    requires SameOutside(was, mem, base) && 1 <= k <= FRAME
    ensures SameOutside(was, mem[Slot(base, k) := v], base)
  {
    assert InFrame(base, Slot(base, k));
  }

  lemma HandledMeans(was: map<word, word>, mem: map<word, word>, base: word, e: Effect)
    requires Handled(was, mem, base, e)
    ensures forall a: word :: a in e.writes ==> At(mem, a) == e.writes[a]
    ensures forall a: word :: a !in e.writes && !InFrame(base, a) ==> At(mem, a) == At(was, a)
  {
  }

  lemma HandlerWrites(was: map<word, word>, mem: map<word, word>, base: word, e: Effect)
    requires SameOutside(was, mem, base)
    ensures Handled(was, mem + e.writes, base, e)
  {
  }

  class Cpu {
    var eax: word
    var ebx: word
    var ecx: word
    var edx: word
    var esi: word
    var edi: word
    var ebp: word
    var esp: word
    var eip: word
    var cs: word
    var eflags: word
    var mem: map<word, word>
    /** What the handlers saw through their argument, call by call. */
    ghost var seen: seq<Infos>

    function Load(a: word): word
      reads this`mem
    {
      At(mem, a)
    }

    ghost function InfosAt(a: word): Infos
      reads this`mem
    {
      Infos(Load(a), Load((a + 4) % WORDS), Load((a + 8) % WORDS), Load((a + 12) % WORDS), Load((a + 16) % WORDS),
            Load((a + 20) % WORDS), Load((a + 24) % WORDS), Load((a + 28) % WORDS), Load((a + 32) % WORDS))
    }

    /** Below `base` lie the words `vs`, pushed in this order, and `esp` points at the last one. */
    ghost predicate Stack(base: word, vs: seq<word>)
      reads this`mem, this`esp
    {
      |vs| < 0x1000 && esp == Slot(base, |vs|) && forall k :: 1 <= k <= |vs| ==> Load(Slot(base, k)) == vs[k - 1]
    }

    method Push(v: word, ghost base: word, ghost vs: seq<word>, ghost was: map<word, word>)
      requires Stack(base, vs) && |vs| < FRAME && SameOutside(was, mem, base)
      modifies this`esp, this`mem
      ensures Stack(base, vs + [v]) && SameOutside(was, mem, base)
    {
      hide SameOutside;
      SlotBelow(base, |vs|);
      forall k | 1 <= k <= |vs| ensures Slot(base, k) != Slot(base, |vs| + 1) { SlotsDiffer(base, k, |vs| + 1); }
      PushedInFrame(was, mem, base, |vs| + 1, v);
      esp := (esp - 4) % WORDS;
      mem := mem[esp := v];
    }

    method Pop(ghost base: word, ghost vs: seq<word>, ghost top: word) returns (v: word)
      requires Stack(base, vs + [top])
      modifies this`esp
      ensures Stack(base, vs) && v == top
    {
      SlotBelow(base, |vs|);
      v := Load(esp);
      esp := (esp + 4) % WORDS;
    }

    /** `add $4, %esp` */
    method Drop(ghost base: word, ghost vs: seq<word>, ghost top: word)
      requires Stack(base, vs + [top])
      modifies this`esp
      ensures Stack(base, vs)
    {
      SlotBelow(base, |vs|);
      esp := (esp + 4) % WORDS;
    }

    /** `call *%eax`, a cdecl function with one argument, and its `ret`. */
    method CallHandler(e: Effect, returnAddress: word, ghost base: word, ghost vs: seq<word>, ghost was: map<word, word>)
      requires Stack(base, vs) && 1 <= |vs| < FRAME && LeavesFrame(e, base, |vs| - 1) && SameOutside(was, mem, base)
      modifies this`eax, this`ecx, this`edx, this`eflags, this`esp, this`mem, this`seen
      ensures Stack(base, vs[..|vs| - 1] + [Load(esp)]) && Handled(was, mem, base, e)
      ensures seen == old(seen) + [old(InfosAt(Load(esp)))]
    {
      hide SameOutside, Handled, InFrame;
      ghost var infos := InfosAt(Load(esp));
      Push(returnAddress, base, vs, was);
      seen := seen + [infos];
      eax, ecx, edx, eflags := e.eax, e.ecx, e.edx, e.eflags;
      HandlerWrites(was, mem, base, e);
      mem := mem + e.writes;
      SlotBelow(base, |vs|);
      esp := (esp + 4) % WORDS;
      assert forall k :: 1 <= k < |vs| ==> Slot(base, k) !in e.writes;
    }

    lemma EmptyStack(base: word)
      requires Stack(base, [])
      ensures esp == base
    {
    }

    lemma StackTop(base: word, vs: seq<word>)
      requires Stack(base, vs)
      ensures esp == Slot(base, |vs|)
      ensures vs != [] ==> Load(esp) == vs[|vs| - 1]
    {
    }

    /** The words above a saved `edi`, read as struct int_infos. */
    lemma StackIsInfos(base: word, vs: seq<word>)
      requires Stack(base, vs) && |vs| >= 11
      ensures InfosAt(Slot(base, 11)) == Infos(vs[10], vs[9], vs[8], vs[7], vs[6], vs[5], vs[4], vs[3], vs[2])
    {
      SlotAbove(base, 11, 1);
      SlotAbove(base, 11, 2);
      SlotAbove(base, 11, 3);
      SlotAbove(base, 11, 4);
      SlotAbove(base, 11, 5);
      SlotAbove(base, 11, 6);
      SlotAbove(base, 11, 7);
      SlotAbove(base, 11, 8);
    }

    /** What the processor does on an interrupt at the same privilege level, through an interrupt gate. */
    method Enter(n: word, code: word, ghost was: map<word, word>)
      requires SameOutside(was, mem, esp)
      modifies this`esp, this`mem, this`eflags, this`eip
      ensures Stack(old(esp), [old(eflags), old(cs), old(eip)] + if PushesErrorCode(n) then [code] else [])
      ensures SameOutside(was, mem, old(esp))
    {
      hide SameOutside;
      ghost var base := esp;
      SlotBelow(base, 0);
      Push(eflags, base, [], was);
      Push(cs, base, [old(eflags)], was);
      Push(eip, base, [old(eflags)] + [cs], was);
      assert [old(eflags)] + [cs] + [old(eip)] == [old(eflags), cs, old(eip)];
      if PushesErrorCode(n) {
        Push(code, base, [old(eflags), cs, old(eip)], was);
      }
      eflags := Masked(eflags);
      eip := 0;
    }

    /** The six registers, pushed one by one. */
    method SaveRegisters(ghost base: word, ghost f: seq<word>, ghost was: map<word, word>)
      requires |f| == 5 && Stack(base, f) && SameOutside(was, mem, base)
      modifies this`esp, this`mem
      ensures Stack(base, f + [eax] + [ebx] + [ecx] + [edx] + [esi] + [edi]) && SameOutside(was, mem, base)
    {
      hide Stack, Slot, SameOutside;
      Push(eax, base, f, was);
      Push(ebx, base, f + [eax], was);
      Push(ecx, base, f + [eax] + [ebx], was);
      Push(edx, base, f + [eax] + [ebx] + [ecx], was);
      Push(esi, base, f + [eax] + [ebx] + [ecx] + [edx], was);
      Push(edi, base, f + [eax] + [ebx] + [ecx] + [edx] + [esi], was);
    }

    /** And popped in the opposite order. */
    method RestoreRegisters(ghost base: word, ghost f: seq<word>,
                            ghost a: word, ghost b: word, ghost c: word, ghost d: word, ghost si: word, ghost di: word)
      requires Stack(base, f + [a] + [b] + [c] + [d] + [si] + [di])
      modifies this`esp, this`eax, this`ebx, this`ecx, this`edx, this`esi, this`edi
      ensures Stack(base, f) && eax == a && ebx == b && ecx == c && edx == d && esi == si && edi == di
    {
      hide Stack, Slot;
      edi := Pop(base, f + [a] + [b] + [c] + [d] + [si], di);
      esi := Pop(base, f + [a] + [b] + [c] + [d], si);
      edx := Pop(base, f + [a] + [b] + [c], d);
      ecx := Pop(base, f + [a] + [b], c);
      ebx := Pop(base, f + [a], b);
      eax := Pop(base, f, a);
    }

    /** `pushl %esp`, the call through idt_handlers_32[N], and `add $4, %esp`. */
    method CallThroughTable(n: word, handlers: word -> Effect, ghost base: word, ghost vs: seq<word>,
                            ghost was: map<word, word>)
      requires |vs| == 11 && Stack(base, vs) && LeavesFrame(handlers(n), base, 11) && SameOutside(was, mem, base)
      modifies this`eax, this`ecx, this`edx, this`eflags, this`esp, this`mem, this`seen
      ensures Stack(base, vs) && Handled(was, mem, base, handlers(n))
      ensures seen == old(seen) + [Infos(vs[10], vs[9], vs[8], vs[7], vs[6], vs[5], vs[4], vs[3], vs[2])]
    {
      hide Stack, Slot, InfosAt, LeavesFrame, SameOutside, Handled;
      StackTop(base, vs);
      ghost var all := vs + [esp];
      Push(esp, base, vs, was);
      StackTop(base, all);
      StackIsInfos(base, all);
      CallHandler(handlers(n), 0, base, all, was);
      assert all[..|all| - 1] == vs;
      Drop(base, vs, Load(esp));
    }

    /** The processor's entry and the stub's first pushes: the error code, real or 0, and the vector. */
    method EnterStub(n: word, code: word)
      requires HasEntry(n)
      modifies this`esp, this`mem, this`eflags, this`eip
      ensures Stack(old(esp), EntryFrame(old(eflags), cs, old(eip), ShownCode(n, code), n))
      ensures SameOutside(old(mem), mem, old(esp))
    {
      hide Stack, Slot, PushesErrorCode, TableSaysErrorCode, HasEntry, SameOutside;
      ghost var was := mem;
      NothingPushed(was, esp);
      ghost var base, shown := esp, ShownCode(n, code);
      ghost var f3: seq<word> := [eflags] + [cs] + [eip];
      assert f3 == [eflags, cs, eip] && f3 + [] == f3;
      Enter(n, code, was);
      TableMatchesProcessor(n);
      eflags := Masked(eflags);
      if !TableSaysErrorCode(n) {
        Push(0, base, f3, was);
      }
      Push(n, base, f3 + [shown], was);
    }

    /** `add $8, %esp` and `iret`. */
    method LeaveStub(ghost base: word, ghost flags0: word, ghost cs0: word, ghost eip0: word, ghost shown: word, ghost n: word)
      requires Stack(base, EntryFrame(flags0, cs0, eip0, shown, n))
      modifies this`esp, this`eip, this`cs, this`eflags
      ensures esp == base && eip == eip0 && cs == cs0 && eflags == flags0
    {
      hide Stack, Slot;
      ghost var none: seq<word> := [];
      Drop(base, [flags0] + [cs0] + [eip0] + [shown], n);
      Drop(base, [flags0] + [cs0] + [eip0], shown);
      eip := Pop(base, [flags0] + [cs0], eip0);
      cs := Pop(base, [flags0], cs0);
      assert none + [flags0] == [flags0];
      eflags := Pop(base, none, flags0);
      EmptyStack(base);
    }

    /** A whole interrupt: the processor's entry, idt_entry_32_N, and `iret`. The handler sees the interrupted
        registers, vector, error code and instruction pointer, and the interrupted code gets every register, its
        flags and its stack back. Memory then holds what the handler has written, and but for the frame below the
        old `esp` what it held before. */
    method Interrupt(n: word, code: word, handlers: word -> Effect)
      requires HasEntry(n) && LeavesFrame(handlers(n), esp, 11)
      modifies this
      ensures eax == old(eax) && ebx == old(ebx) && ecx == old(ecx) && edx == old(edx) && esi == old(esi) && edi == old(edi)
      ensures ebp == old(ebp) && esp == old(esp) && eip == old(eip) && cs == old(cs) && eflags == old(eflags)
      ensures seen == old(seen) + [Infos(old(edi), old(esi), old(edx), old(ecx), old(ebx), old(eax), n,
                                         ShownCode(n, code), old(eip))]
      ensures forall a: word :: a in handlers(n).writes ==> Load(a) == handlers(n).writes[a]
      ensures forall a: word :: a !in handlers(n).writes && !InFrame(old(esp), a) ==> Load(a) == old(Load(a))
    {
      hide Stack, Slot, LeavesFrame, PushesErrorCode, HasEntry, SameOutside, InFrame, Handled;
      ghost var was := mem;
      ghost var base, shown := esp, ShownCode(n, code);
      ghost var f := EntryFrame(eflags, cs, eip, shown, n);
      EnterStub(n, code);
      SaveRegisters(base, f, was);
      ghost var vs: seq<word> := f + [eax] + [ebx] + [ecx] + [edx] + [esi] + [edi];
      CallThroughTable(n, handlers, base, vs, was);
      RestoreRegisters(base, f, old(eax), old(ebx), old(ecx), old(edx), old(esi), old(edi));
      LeaveStub(base, old(eflags), old(cs), old(eip), shown, n);
      HandledMeans(was, mem, base, handlers(n));
    }
  }
}
