/**
  stage4's page tables, against the 4-level walk of the Intel SDM, volume 3, section 4.5.
  Physical memory is a sequence of 64-bit words.
 */
module Paging {
  import opened Chs

  type uint64 = x: int | 0 <= x < 0x1_0000_0000_0000_0000

  const PAGE := 0x1000
  const LARGE_PAGE := 0x20_0000
  const GIB := 0x4000_0000

  // ---------------------------------------------------------------- entries

  const PRESENT := 0x1
  const WRITABLE := 0x2
  const USER := 0x4
  const HUGE := 0x80

  /** The bit with value `b` (a power of two) of an entry. */
  predicate Bit(e: uint64, b: int)
    requires b in {PRESENT, WRITABLE, USER, HUGE}
  {
    if b == PRESENT then e % 2 == 1
    else if b == WRITABLE then (e / 2) % 2 == 1
    else if b == USER then (e / 4) % 2 == 1
    else (e / 0x80) % 2 == 1
  }

  /** Assigning 1 to the bit-field. */
  function SetBit(e: uint64, b: int): (r: uint64)
    requires b in {PRESENT, WRITABLE, USER, HUGE}
  {
    if Bit(e, b) then e else e + b
  }

  /** Bits 51 to 12: where the next table starts. */
  function TableAddress(e: uint64): nat { (e / 0x1000) % 0x100_0000_0000 * 0x1000 }

  /** Bits 51 to 21: where a 2 MiB page starts. */
  function LargePageAddress(e: uint64): nat { (e / 0x20_0000) % 0x8000_0000 * 0x20_0000 }

  function HugePageAddress(e: uint64): nat { (e / 0x4000_0000) % 0x40_0000 * 0x4000_0000 }

  predicate NoExecute(e: uint64) { e >= 0x8000_0000_0000_0000 }

  // ---------------------------------------------------------------- the walk

  datatype Translation = Fault | NoMemory | Mapped(physical: nat, writable: bool, user: bool)

  predicate Canonical(va: uint64)
  {
    va < 0x8000_0000_0000 || va >= 0xFFFF_8000_0000_0000
  }

  function Pml4Index(va: uint64): (i: nat) ensures i < 512 { (va / 0x80_0000_0000) % 512 }

  function PdpIndex(va: uint64): (i: nat) ensures i < 512 { (va / 0x4000_0000) % 512 }

  function PdIndex(va: uint64): (i: nat) ensures i < 512 { (va / 0x20_0000) % 512 }

  function PtIndex(va: uint64): (i: nat) ensures i < 512 { (va / 0x1000) % 512 }

  /** Access rights gathered on the way down. */
  datatype Rights = Rights(writable: bool, user: bool) {
    function And(e: uint64): Rights { Rights(writable && Bit(e, WRITABLE), user && Bit(e, USER)) }
  }

  function Entry(mem: seq<uint64>, table: nat, index: nat): (e: uint64)
    requires table / 8 + index < |mem|
  {
    mem[table / 8 + index]
  }

  /** The processor's translation of a linear address, with CR3 pointing at `cr3` and execute-disable off,
      so that bit 63 is reserved. */
  function Walk(mem: seq<uint64>, cr3: nat, va: uint64): Translation
  {
    if cr3 / 8 + Pml4Index(va) >= |mem| then NoMemory else
      var e := Entry(mem, cr3, Pml4Index(va));
      if !Bit(e, PRESENT) || Bit(e, HUGE) || NoExecute(e) then Fault
      else WalkPdp(mem, TableAddress(e), va, Rights(true, true).And(e))
  }

  function WalkPdp(mem: seq<uint64>, pdp: nat, va: uint64, r: Rights): Translation
  {
    if pdp / 8 + PdpIndex(va) >= |mem| then NoMemory else
      var e := Entry(mem, pdp, PdpIndex(va));
      if !Bit(e, PRESENT) || NoExecute(e) then Fault
      else if Bit(e, HUGE) then
        if (e / 0x2000) % 0x2_0000 != 0 then Fault
        else Mapped(HugePageAddress(e) + va % GIB, r.And(e).writable, r.And(e).user)
      else WalkPd(mem, TableAddress(e), va, r.And(e))
  }

  function WalkPd(mem: seq<uint64>, pd: nat, va: uint64, r: Rights): Translation
  {
    if pd / 8 + PdIndex(va) >= |mem| then NoMemory else
      var e := Entry(mem, pd, PdIndex(va));
      if !Bit(e, PRESENT) || NoExecute(e) then Fault
      else if Bit(e, HUGE) then
        if (e / 0x2000) % 0x100 != 0 then Fault
        else Mapped(LargePageAddress(e) + va % LARGE_PAGE, r.And(e).writable, r.And(e).user)
      else WalkPt(mem, TableAddress(e), va, r.And(e))
  }

  function WalkPt(mem: seq<uint64>, pt: nat, va: uint64, r: Rights): Translation
  {
    if pt / 8 + PtIndex(va) >= |mem| then NoMemory else
      var e := Entry(mem, pt, PtIndex(va));
      if !Bit(e, PRESENT) || NoExecute(e) then Fault
      else Mapped(TableAddress(e) + va % PAGE, r.And(e).writable, r.And(e).user)
  }

  // ---------------------------------------------------------------- setup_paging()

  /** Where the linker put the three tables that are used. */
  datatype Tables = Tables(pml4: nat, pdp: nat, pd: nat) {
    /** Aligned, below 4 GiB, inside memory, and not on top of each other. */
    predicate Placed(words: nat)
    {
      && pml4 % PAGE == pdp % PAGE == pd % PAGE == 0
      && pml4 < 0x1_0000_0000 && pdp < 0x1_0000_0000 && pd < 0x1_0000_0000
      && pml4 / 8 + 512 <= words && pdp / 8 + 512 <= words && pd / 8 + 512 <= words
      && pml4 != pdp && pml4 != pd && pdp != pd
    }
  }

  /** The entries setup_paging() leaves. */
  ghost predicate Built(mem: seq<uint64>, t: Tables)
    requires t.Placed(|mem|)
  {
    && mem[t.pml4 / 8] == t.pdp + PRESENT + WRITABLE
    && mem[t.pdp / 8] == t.pd + PRESENT + WRITABLE
    && forall i :: 0 <= i < 512 ==> mem[t.pd / 8 + i] == i * LARGE_PAGE + PRESENT + WRITABLE + HUGE
  }

  predicate Inside(k: int, t: Tables)
  {
    k == t.pml4 / 8 || k == t.pdp / 8 || t.pd / 8 <= k < t.pd / 8 + 512
  }

  lemma TableBits(e: uint64)
    requires e % PAGE == 0 && e < 0x1_0000_0000
    ensures SetBit(e, PRESENT) == e + PRESENT
    ensures SetBit(e + PRESENT, WRITABLE) == e + PRESENT + WRITABLE
    ensures SetBit(e + PRESENT + WRITABLE, HUGE) == e + PRESENT + WRITABLE + HUGE
  {
    hide Bit;
    PageWords(e);
    BitIs(e, PRESENT, 0x800 * (e / PAGE), false, 0);
    BitIs(e + PRESENT, WRITABLE, 0x400 * (e / PAGE), false, 1);
    BitIs(e + PRESENT + WRITABLE, HUGE, 0x10 * (e / PAGE), false, 3);
  }

  /** A page is 512 words. */
  lemma PageWords(p: nat)
    requires p % PAGE == 0
    ensures p / 8 == 512 * (p / PAGE) && p == PAGE * (p / PAGE)
  {
    assert p == (p / PAGE) * PAGE + p % PAGE;
    DivModUnique(p, 8, 512 * (p / PAGE), 0);
  }

  lemma PagesApart(p: nat, q: nat)
    requires p % PAGE == q % PAGE == 0 && p != q
    ensures p / 8 + 512 <= q / 8 || q / 8 + 512 <= p / 8
  {
    PageWords(p);
    PageWords(q);
  }

  lemma TablesDisjoint(t: Tables, words: nat)
    requires t.Placed(words)
    ensures t.pml4 / 8 + 512 <= t.pdp / 8 || t.pdp / 8 + 512 <= t.pml4 / 8
    ensures t.pml4 / 8 + 512 <= t.pd / 8 || t.pd / 8 + 512 <= t.pml4 / 8
    ensures t.pdp / 8 + 512 <= t.pd / 8 || t.pd / 8 + 512 <= t.pdp / 8
  {
    PagesApart(t.pml4, t.pdp);
    PagesApart(t.pml4, t.pd);
    PagesApart(t.pdp, t.pd);
  }

  lemma TablesApart(t: Tables, words: nat, i: nat)
    requires t.Placed(words) && i < 512
    ensures t.pd / 8 + i != t.pml4 / 8 && t.pd / 8 + i != t.pdp / 8 && t.pml4 / 8 != t.pdp / 8
    ensures Inside(t.pml4 / 8, t) && Inside(t.pdp / 8, t) && Inside(t.pd / 8 + i, t)
    ensures i >= 1 ==> !Inside(t.pml4 / 8 + i, t) && !Inside(t.pdp / 8 + i, t)
  {
    hide Tables.Placed;
    TablesDisjoint(t, words);
  }

  /** `set_addr(&entry, table); entry.present = 1; entry.writable = 1;` */
  method LinkTable(mem: array<uint64>, p: nat, table: uint64)
    requires p < mem.Length && table % PAGE == 0 && table < 0x1_0000_0000
    modifies mem
    ensures mem[p] == table + PRESENT + WRITABLE
    ensures forall k :: 0 <= k < mem.Length && k != p ==> mem[k] == old(mem[k])
  {
    mem[p] := table;
    TableBits(table);
    mem[p] := SetBit(mem[p], PRESENT);
    mem[p] := SetBit(mem[p], WRITABLE);
  }

  /** The same, and `entry.huge_null = 1;` */
  method FillEntry(mem: array<uint64>, p: nat, page: uint64)
    requires p < mem.Length && page % PAGE == 0 && page < 0x1_0000_0000
    modifies mem
    ensures mem[p] == page + PRESENT + WRITABLE + HUGE
    ensures forall k :: 0 <= k < mem.Length && k != p ==> mem[k] == old(mem[k])
  {
    LinkTable(mem, p, page);
    TableBits(page);
    mem[p] := SetBit(mem[p], HUGE);
  }

  /** The tables at word indices `pml4`, `pdp` and `pd`. */
  method FillTables(mem: array<uint64>, pml4: nat, pdp: nat, pd: nat, pdpAddress: uint64, pdAddress: uint64)
    requires pml4 < mem.Length && pdp < mem.Length && pd + 512 <= mem.Length && pml4 != pdp
    requires !(pd <= pml4 < pd + 512) && !(pd <= pdp < pd + 512)
    requires pdpAddress % PAGE == 0 && pdpAddress < 0x1_0000_0000 && pdAddress % PAGE == 0 && pdAddress < 0x1_0000_0000
    modifies mem
    ensures mem[pml4] == pdpAddress + PRESENT + WRITABLE && mem[pdp] == pdAddress + PRESENT + WRITABLE
    ensures forall i :: 0 <= i < 512 ==> mem[pd + i] == i * LARGE_PAGE + PRESENT + WRITABLE + HUGE
    ensures forall k :: 0 <= k < mem.Length && k != pml4 && k != pdp && !(pd <= k < pd + 512) ==> mem[k] == old(mem[k])
  {
    hide SetBit;
    LinkTable(mem, pml4, pdpAddress);
    LinkTable(mem, pdp, pdAddress);
    var i := 0;
    while i < 512
      invariant 0 <= i <= 512
      invariant mem[pml4] == pdpAddress + PRESENT + WRITABLE && mem[pdp] == pdAddress + PRESENT + WRITABLE
      invariant forall j :: 0 <= j < i ==> mem[pd + j] == j * LARGE_PAGE + PRESENT + WRITABLE + HUGE
      invariant forall k :: 0 <= k < mem.Length && k != pml4 && k != pdp && !(pd <= k < pd + 512) ==> mem[k] == old(mem[k])
    {
      FillEntry(mem, pd + i, LARGE_PAGE * i);
      i := i + 1;
    }
  }

  method SetupPaging(mem: array<uint64>, t: Tables)
    requires t.Placed(mem.Length)
    modifies mem
    ensures Built(mem[..], t)
    ensures forall k :: 0 <= k < mem.Length && !Inside(k, t) ==> mem[k] == old(mem[k])
  {
    TablesDisjoint(t, mem.Length);
    FillTables(mem, t.pml4 / 8, t.pdp / 8, t.pd / 8, t.pdp, t.pd);
  }

  // ---------------------------------------------------------------- what the tables mean

  /** The other entries of the two upper tables are not present, as in zeroed memory. */
  ghost predicate RestAbsent(mem: seq<uint64>, t: Tables)
    requires t.Placed(|mem|)
  {
    forall i :: 1 <= i < 512 ==> !Bit(Entry(mem, t.pml4, i), PRESENT) && !Bit(Entry(mem, t.pdp, i), PRESENT)
  }

  /** The upper tables lie in zeroed memory. */
  ghost predicate Zeroed(mem: seq<uint64>, t: Tables)
    requires t.Placed(|mem|)
  {
    forall i :: 0 <= i < 512 ==> Entry(mem, t.pml4, i) == 0 && Entry(mem, t.pdp, i) == 0
  }

  /** The bit of an entry, from what is above it, `k`, and what is below, `r`. */
  lemma BitIs(e: uint64, b: int, k: int, on: bool, r: int)
    requires b in {PRESENT, WRITABLE, USER, HUGE} && 0 <= r < b
    requires e == (if b == PRESENT then 2 * k else if b == WRITABLE then 4 * k else if b == USER then 8 * k else 0x100 * k)
                  + (if on then b else 0) + r
    ensures Bit(e, b) <==> on
  {
    var v := if on then 1 else 0;
    if b == PRESENT {
      DivModUnique(e, 2, k, v);
    } else if b == WRITABLE {
      DivModUnique(e, 2, 2 * k + v, r);
      DivModUnique(2 * k + v, 2, k, v);
    } else if b == USER {
      DivModUnique(e, 4, 2 * k + v, r);
      DivModUnique(2 * k + v, 2, k, v);
    } else {
      DivModUnique(e, 0x80, 2 * k + v, r);
      DivModUnique(2 * k + v, 2, k, v);
    }
  }

  lemma TableEntryFields(table: nat, e: uint64)
    requires table % PAGE == 0 && table < 0x1_0000_0000 && e == table + PRESENT + WRITABLE
    ensures Bit(e, PRESENT) && Bit(e, WRITABLE) && !Bit(e, USER) && !Bit(e, HUGE) && !NoExecute(e)
    ensures TableAddress(e) == table
  {
    hide Bit;
    var a := table / PAGE;
    PageWords(table);
    BitIs(e, PRESENT, 0x800 * a + 1, true, 0);
    BitIs(e, WRITABLE, 0x400 * a, true, 1);
    BitIs(e, USER, 0x200 * a, false, 3);
    BitIs(e, HUGE, 0x10 * a, false, 3);
    DivModUnique(e, 0x1000, a, 3);
    DivModUnique(a, 0x100_0000_0000, 0, a);
  }

  lemma LargeEntryFields(i: nat, e: uint64)
    requires i < 512 && e == i * LARGE_PAGE + PRESENT + WRITABLE + HUGE
    ensures Bit(e, PRESENT) && Bit(e, WRITABLE) && !Bit(e, USER) && Bit(e, HUGE) && !NoExecute(e)
    ensures (e / 0x2000) % 0x100 == 0 && LargePageAddress(e) == i * LARGE_PAGE
  {
    hide Bit;
    BitIs(e, PRESENT, 0x10_0000 * i + 0x41, true, 0);
    BitIs(e, WRITABLE, 0x8_0000 * i + 0x20, true, 1);
    BitIs(e, USER, 0x4_0000 * i + 0x10, false, 3);
    BitIs(e, HUGE, 0x2000 * i, true, 3);
    DivModUnique(e, 0x2000, 0x100 * i, 0x83);
    DivModUnique(0x100 * i, 0x100, i, 0);
    DivModUnique(e, 0x20_0000, i, 0x83);
    DivModUnique(i, 0x8000_0000, 0, i);
  }

  /** The first GiB is mapped to itself, present and writable, for the supervisor only. */
  lemma FirstGibIdentity(mem: seq<uint64>, t: Tables, va: uint64)
    requires t.Placed(|mem|) && Built(mem, t) && va < GIB
    ensures Walk(mem, t.pml4, va) == Mapped(va, true, false)
  {
    hide Bit, TableAddress, NoExecute, LargePageAddress;
    TableEntryFields(t.pdp, mem[t.pml4 / 8]);
    TableEntryFields(t.pd, mem[t.pdp / 8]);
    LargeEntryFields(va / LARGE_PAGE, mem[t.pd / 8 + va / LARGE_PAGE]);
    assert Pml4Index(va) == 0 && PdpIndex(va) == 0 && PdIndex(va) == va / LARGE_PAGE;
  }

  lemma UpperIndices(va: uint64)
    requires Canonical(va) && va >= GIB
    ensures Pml4Index(va) >= 1 || PdpIndex(va) >= 1
  {
  }

  /** Every other canonical address faults. */
  lemma RestFaults(mem: seq<uint64>, t: Tables, va: uint64)
    requires t.Placed(|mem|) && Built(mem, t) && RestAbsent(mem, t) && Canonical(va) && va >= GIB
    ensures Walk(mem, t.pml4, va) == Fault
  {
    hide Bit, TableAddress, NoExecute, LargePageAddress, Pml4Index, PdpIndex, Canonical;
    TableEntryFields(t.pdp, mem[t.pml4 / 8]);
    UpperIndices(va);
    if Pml4Index(va) >= 1 {
      assert !Bit(Entry(mem, t.pml4, Pml4Index(va)), PRESENT);
    } else {
      assert !Bit(Entry(mem, t.pdp, PdpIndex(va)), PRESENT);
    }
  }

  lemma AbsentAfterSetup(before: seq<uint64>, mem: seq<uint64>, t: Tables)
    requires |before| == |mem| && t.Placed(|mem|) && Zeroed(before, t)
    requires forall k :: 0 <= k < |mem| && !Inside(k, t) ==> mem[k] == before[k]
    ensures RestAbsent(mem, t)
  {
    forall i | 1 <= i < 512
      ensures !Bit(Entry(mem, t.pml4, i), PRESENT) && !Bit(Entry(mem, t.pdp, i), PRESENT)
    {
      TablesApart(t, |mem|, i);
      assert Entry(before, t.pml4, i) == 0 && Entry(before, t.pdp, i) == 0;
    }
  }

  /** setup_paging() on zeroed tables: an address is translated exactly when it lies below 1 GiB, and to itself. */
  lemma PagingIsIdentity(before: seq<uint64>, mem: seq<uint64>, t: Tables, va: uint64)
    requires |before| == |mem| && t.Placed(|mem|) && Zeroed(before, t) && Built(mem, t) && Canonical(va)
    requires forall k :: 0 <= k < |mem| && !Inside(k, t) ==> mem[k] == before[k]
    ensures Walk(mem, t.pml4, va) == if va < GIB then Mapped(va, true, false) else Fault
  {
    AbsentAfterSetup(before, mem, t);
    if va < GIB { FirstGibIdentity(mem, t, va); } else { RestFaults(mem, t, va); }
  }
}
