/** load_protected(): stages 4 and 5 from the disk, then stage 4's bss cleared, in the layout of linker.ld. */
module LoadProtected {
  import opened CInt
  import opened Chs
  import opened Fdc
  import opened FloppyDriver
  import opened FloppyIrq
  import opened FloppyCopy
  import Paging

  /** The linker's addresses and section indices, the latter not yet cut to 8 bits. */
  datatype Sections = Sections(stage4: nat, size4: nat, sector4: nat, stage5: nat, size5: nat, sector5: nat,
                           bssStart: nat, bssEnd: nat) {
    /** Stage 4 at `_content_start`, above the loader's own pages; stage 5 and the bss after it; on the disk
        stage 5 begins at the next sector after stage 4. */
    predicate Linked(memory: nat)
    {
      && 0x7E00 <= stage4
      && stage4 + size4 <= stage5
      && stage5 + size5 <= bssStart <= bssEnd <= memory
      && sector5 == sector4 + BlocksOf(size4)
    }

    /** The addresses that loading writes: the transfer buffer, the two stages, and the bss. */
    predicate Written(k: int)
    {
      BUFFER <= k < BUFFER_END || stage4 <= k < stage4 + size4 || stage5 <= k < stage5 + size5 || bssStart <= k < bssEnd
    }
  }

  method ResetBss(mem: array<byte>, start: nat, end: nat)
    requires start <= end <= mem.Length
    modifies mem
    ensures forall k :: start <= k < end ==> mem[k] == 0
    ensures forall k :: 0 <= k < mem.Length && !(start <= k < end) ==> mem[k] == old(mem[k])
  {
    var p := start;
    while p < end
      invariant start <= p <= end
      invariant forall k :: start <= k < p ==> mem[k] == 0
      invariant forall k :: 0 <= k < mem.Length && !(start <= k < p) ==> mem[k] == old(mem[k])
    {
      mem[p] := 0;
      p := p + 1;
    }
  }

  function Low8(n: nat): byte { n % 256 }

  ghost predicate IsImage(mem: seq<byte>, disk: seq<byte>, start: nat, size: nat, sector: nat)
  {
    size > 0 ==>
      && start + size <= |mem| && SECTOR_SIZE * sector + size <= |disk|
      && mem[start..start + size] == disk[SECTOR_SIZE * sector..SECTOR_SIZE * sector + size]
  }

  /** One X_STAGES entry: a stage is copied from its section, cut to 8 bits, to its start. */
  method LoadStage(d: Driver, drive: byte, start: nat, size: nat, section: nat, patience: nat) returns (r: Transfer)
    requires d.Valid() && ByteSized(d.c.g)
    requires start + size <= d.c.mem.Length && start >= BUFFER_END
    modifies d, d.c, d.c.mem
    ensures d.Valid() && old(d.Spare()) <= d.Spare()
    ensures forall k :: 0 <= k < d.c.mem.Length && !(BUFFER <= k < BUFFER_END) && !(start <= k < start + size) ==>
              d.c.mem[k] == old(d.c.mem[k])
    ensures size == 0 ==> d.c.phase == old(d.c.phase)
    ensures !old(d.c.phase).Command? && size > 0 && r == BadResult ==> d.c.phase.Result?
    ensures !old(d.c.phase).Command? && r == Fetched ==> !d.c.phase.Command?
    ensures !old(d.c.phase).Command? && r == Fetched && section + BlocksOf(size) <= 256 ==>
              IsImage(d.c.mem[..], d.c.disk, start, size, section)
    ensures old(d.c.phase) == Idle && d.Prompt() && patience > 0 ==>
              (r == Fetched <==> AllOnDisk(d.c.disk, Low8(section), size)) && (r == Fetched ==> d.c.phase == Idle)
    ensures old(d.c.phase).Result? && size > 0 ==>
              r == NotSent && forall k :: start <= k < start + size ==> d.c.mem[k] == old(d.c.mem[k])
  {
    hide Loaded, IsImage, Writes, AllExpected, AllOnDisk, ByteSized, WroteCommands, Driver.Prompt, Driver.Valid;
    NothingToLoad(d.c.disk, Low8(section));
    ghost var blocks;
    r, blocks := CopyBytes(d, drive, Low8(section), start, size, patience);
    if !old(d.c.phase).Command? && r == Fetched && section + BlocksOf(size) <= 256 {
      LoadedImage(d.c.mem[..], d.c.disk, section, start, size);
    }
  }

  lemma NothingToLoad(disk: seq<byte>, sector: byte)
    ensures AllOnDisk(disk, sector, 0)
  {
  }

  /** load_protected: neither result is looked at. `started` says that stage4_start was reached. In a prompt
      environment both stages are loaded exactly when the disk has their sectors. No wait is over with an interrupt from
      before. */
  method Load(d: Driver, drive: byte, l: Sections, patience: nat) returns (r4: Transfer, r5: Transfer, started: bool)
    requires d.Valid() && ByteSized(d.c.g) && l.Linked(d.c.mem.Length)
    modifies d, d.c, d.c.mem
    ensures d.Valid() && d.waits - old(d.waits) <= d.interrupts - old(d.interrupts)
    ensures started <==> r4 != NoEnd && r5 != NoEnd
    ensures forall k :: 0 <= k < d.c.mem.Length && !l.Written(k) ==> d.c.mem[k] == old(d.c.mem[k])
    ensures started ==> forall k :: l.bssStart <= k < l.bssEnd ==> d.c.mem[k] == 0
    ensures !old(d.c.phase).Command? && r4 == Fetched && l.sector4 + BlocksOf(l.size4) <= 256 ==>
              IsImage(d.c.mem[..], d.c.disk, l.stage4, l.size4, l.sector4)
    ensures !old(d.c.phase).Command? && r4 == Fetched && r5 == Fetched && l.sector5 + BlocksOf(l.size5) <= 256 ==>
              IsImage(d.c.mem[..], d.c.disk, l.stage4, l.size4, l.sector4) &&
              IsImage(d.c.mem[..], d.c.disk, l.stage5, l.size5, l.sector5)
    ensures old(d.c.phase) == Idle && d.Prompt() && patience > 0 ==>
              (r4 == r5 == Fetched <==> AllOnDisk(d.c.disk, Low8(l.sector4), l.size4)
                                        && AllOnDisk(d.c.disk, Low8(l.sector5), l.size5))
    ensures !old(d.c.phase).Command? && l.size4 > 0 && r4 == BadResult && l.size5 > 0 ==>
              r5 == NotSent && forall k :: l.stage5 <= k < l.stage5 + l.size5 ==> d.c.mem[k] == old(d.c.mem[k])
  {
    hide IsImage, BlocksOf, AllOnDisk, ByteSized, Low8, Driver.Prompt;
    d.SetupIdt();
    r4 := LoadStage(d, drive, l.stage4, l.size4, l.sector4, patience);
    ghost var mem4 := d.c.mem[..];
    if r4 == NoEnd { return r4, Fetched, false; }
    r5 := LoadStage(d, drive, l.stage5, l.size5, l.sector5, patience);
    ghost var mem5 := d.c.mem[..];
    ImageKept(mem4, mem5, d.c.disk, l.stage4, l.size4, l.sector4);
    if r5 == NoEnd { return r4, r5, false; }
    ResetBss(d.c.mem, l.bssStart, l.bssEnd);
    started := true;
    ImageKept(mem5, d.c.mem[..], d.c.disk, l.stage4, l.size4, l.sector4);
    ImageKept(mem5, d.c.mem[..], d.c.disk, l.stage5, l.size5, l.sector5);
  }

  lemma LoadedImage(mem: seq<byte>, disk: seq<byte>, sector: nat, start: nat, size: nat)
    requires size > 0 ==> Loaded(mem, disk, Low8(sector), start, size)
    requires sector + BlocksOf(size) <= 256
    ensures IsImage(mem, disk, start, size, sector)
  {
    if size > 0 { LoadedIsSlice(mem, disk, Low8(sector), start, size); }
  }

  lemma ImageKept(was: seq<byte>, mem: seq<byte>, disk: seq<byte>, start: nat, size: nat, sector: nat)
    requires |mem| == |was| && start + size <= |mem| && forall k :: start <= k < start + size ==> mem[k] == was[k]
    ensures IsImage(mem, disk, start, size, sector) <==> IsImage(was, disk, start, size, sector)
  {
    assert mem[start..start + size] == was[start..start + size];
  }

  // ---------------------------------------------------------------- stage 4 takes over

  function QwordAt(bytes: seq<byte>, a: nat): Paging.uint64
    requires a + 8 <= |bytes|
  {
    (bytes[a + 0] as int) + 0x100 * (bytes[a + 1] as int)
    + 0x1_0000 * (bytes[a + 2] as int) + 0x100_0000 * (bytes[a + 3] as int)
    + 0x1_0000_0000 * (bytes[a + 4] as int) + 0x100_0000_0000 * (bytes[a + 5] as int)
    + 0x1_0000_0000_0000 * (bytes[a + 6] as int) + 0x100_0000_0000_0000 * (bytes[a + 7] as int)
  }

  /** Memory as the processor's page walk reads it: little-endian 64-bit words. */
  function Words(bytes: seq<byte>): (ws: seq<Paging.uint64>)
    ensures |ws| == |bytes| / 8
  {
    seq(|bytes| / 8, i requires 0 <= i < |bytes| / 8 => QwordAt(bytes, 8 * i))
  }

  /** The two upper page tables lie in stage 4's bss. */
  predicate TablesInBss(t: Paging.Tables, l: Sections)
  {
    l.bssStart <= t.pml4 && t.pml4 + 0x1000 <= l.bssEnd && l.bssStart <= t.pdp && t.pdp + 0x1000 <= l.bssEnd
  }

  lemma ZeroEntry(bytes: seq<byte>, start: nat, end: nat, table: nat, i: nat)
    requires end <= |bytes| && forall k :: start <= k < end ==> bytes[k] == 0
    requires start <= table && table + 0x1000 <= end && table % 0x1000 == 0 && i < 512
    ensures table / 8 + i < |bytes| / 8 && Paging.Entry(Words(bytes), table, i) == 0
  {
    hide QwordAt;
    Paging.PageWords(table);
    DivMod(|bytes|, 8);
    assert 8 * (table / 8 + i) == table + 8 * i;
    ZeroQword(bytes, table + 8 * i);
  }

  lemma ZeroQword(bytes: seq<byte>, a: nat)
    requires a + 8 <= |bytes| && forall k :: a <= k < a + 8 ==> bytes[k] == 0
    ensures QwordAt(bytes, a) == 0
  {
  }

  lemma BssHoldsEmptyTables(bytes: seq<byte>, l: Sections, t: Paging.Tables)
    requires t.Placed(|bytes| / 8) && TablesInBss(t, l) && l.bssEnd <= |bytes|
    requires forall k :: l.bssStart <= k < l.bssEnd ==> bytes[k] == 0
    ensures Paging.Zeroed(Words(bytes), t)
  {
    hide Words, Paging.Entry;
    forall i | 0 <= i < 512
      ensures Paging.Entry(Words(bytes), t.pml4, i) == 0 && Paging.Entry(Words(bytes), t.pdp, i) == 0
    {
      ZeroEntry(bytes, l.bssStart, l.bssEnd, t.pml4, i);
      ZeroEntry(bytes, l.bssStart, l.bssEnd, t.pdp, i);
    }
  }

  /** From the loader to paging: the bss the loader cleared is all setup_paging() needs, and an address is then
      translated exactly when it lies below 1 GiB, to itself. */
  lemma BootedPagingIsIdentity(bytes: seq<byte>, l: Sections, t: Paging.Tables, mem: seq<Paging.uint64>,
                               va: Paging.uint64)
    requires t.Placed(|bytes| / 8) && TablesInBss(t, l) && l.bssEnd <= |bytes|
    requires forall k :: l.bssStart <= k < l.bssEnd ==> bytes[k] == 0
    requires |mem| == |bytes| / 8 && Paging.Built(mem, t) && Paging.Canonical(va)
    requires forall k :: 0 <= k < |mem| && !Paging.Inside(k, t) ==> mem[k] == Words(bytes)[k]
    ensures Paging.Walk(mem, t.pml4, va) == if va < Paging.GIB then Paging.Mapped(va, true, false) else Paging.Fault
  {
    BssHoldsEmptyTables(bytes, l, t);
    Paging.PagingIsIdentity(Words(bytes), mem, t, va);
  }
}
