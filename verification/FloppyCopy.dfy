/** fpy_copy_bytes(): sectors of the disk, one after the other, through the transfer buffer into memory. */
module FloppyCopy {
  import opened CInt
  import opened Chs
  import opened Fdc
  import opened FloppyDriver
  import opened FloppyIrq

  /** `drive | (head << 2)`, as a byte. */
  function UnitByte(drive: byte, head: byte): byte
  {
    ((drive as bv8) | ((head as bv8) << 2)) as int
  }

  /** For the four drives and two heads of a controller: the drive in bits 0 and 1, the head in bit 2. */
  lemma UnitSelects(drive: byte, head: byte)
    requires drive < 4 && head < 2
    ensures UnitByte(drive, head) % 4 == drive && UnitByte(drive, head) / 4 == head
  {
    if head == 0 { UnitOfHead0(drive); } else { UnitOfHead1(drive); }
  }

  lemma UnitOfHead0(drive: byte)
    requires drive < 4
    ensures UnitByte(drive, 0) == drive
  {
    assert UnitByte(0, 0) == 0 && UnitByte(1, 0) == 1 && UnitByte(2, 0) == 2 && UnitByte(3, 0) == 3;
  }

  lemma UnitOfHead1(drive: byte)
    requires drive < 4
    ensures UnitByte(drive, 1) == 4 + drive
  {
    assert UnitByte(0, 1) == 4 && UnitByte(1, 1) == 5 && UnitByte(2, 1) == 6 && UnitByte(3, 1) == 7;
  }

  function SeekCommand(drive: byte, a: Address): seq<byte>
    requires a.cylinder < 256 && a.head < 256
  {
    [SEEK, UnitByte(drive, a.head), a.cylinder]
  }

  /** Multi-track, double density, 512-byte sectors, as fpy_copy_bytes asks for them. */
  function ReadCommand(drive: byte, a: Address, sectors: byte): seq<byte>
    requires a.cylinder < 256 && a.head < 256 && a.sector < 256
  {
    [READ_SECT + 0x40 + 0x80, UnitByte(drive, a.head), a.cylinder, a.head, a.sector, 2, sectors, 0x1b, 0xff]
  }

  /** The controller finds in the command the sector the linear number stands for. */
  lemma ReadCommandFinds(disk: seq<byte>, g: Geometry, drive: byte, lba: byte, command: seq<byte>)
    requires g.Valid() && g.heads < 256 && g.sectors < 256
    requires AddressOf(lba, g).cylinder < 256 && AddressOf(lba, g).head < 256 && AddressOf(lba, g).sector < 256
    requires command == ReadCommand(drive, AddressOf(lba, g), g.sectors)
    ensures SectorOf(disk, g, command)
         == if SECTOR_SIZE * (lba + 1) <= |disk| then disk[SECTOR_SIZE * lba..SECTOR_SIZE * (lba + 1)] else []
  {
    LbaRoundTrip(lba, g);
  }

  lemma CommandsAreComplete(drive: byte, a: Address, sectors: byte)
    requires a.cylinder < 256 && a.head < 256 && a.sector < 256
    ensures CommandLength(SEEK) == 3 && Silent(SEEK) && !Executes(SEEK)
    ensures CommandLength(ReadCommand(drive, a, sectors)[0]) == 9 && Executes(ReadCommand(drive, a, sectors)[0])
    ensures Reads(ReadCommand(drive, a, sectors))
  {
  }

  /** How a transfer ends: done, a command that could not be sent, a result that reports failure (or could not
      be read), or a polling loop that goes on for ever. */
  datatype Transfer = Fetched | NotSent | BadResult | NoEnd

  /** To what was written before, some first bytes of `bs` have been added, or all of them. */
  predicate Sent(before: seq<byte>, now: seq<byte>, bs: seq<byte>, all: bool)
  {
    if all then now == before + bs else before <= now <= before + bs
  }

  /** fpy_cmd_seek_head */
  method SeekHead(d: Driver, drive: byte, a: Address, patience: nat) returns (r: Transfer)
    requires d.Valid() && a.cylinder < 256 && a.head < 256 && a.sector < 256
    modifies d.c, d.c.mem
    ensures d.Valid() && d.c.MemoryKept() && r != BadResult && d.c.timeouts == old(d.c.timeouts)
    ensures old(d.c.phase).Result? ==>
              && r == NotSent && d.c.phase == old(d.c.phase)
              && Writes(d.c.trace) == Writes(old(d.c.trace))
    ensures !old(d.c.phase).Command? ==>
              && (r == Fetched ==> d.c.phase == Idle)
              && (AllExpected(old(d.c.trace)) ==> AllExpected(d.c.trace))
    ensures Sent(Writes(old(d.c.trace)), Writes(d.c.trace), SeekCommand(drive, a), r == Fetched)
    ensures old(d.c.phase) == Idle && r == Fetched ==> d.c.track == a.cylinder
    ensures old(d.c.phase) == Idle && d.Prompt() && patience > 0 ==> r == Fetched
  {
    hide Writes, Takes, AllExpected, Handshaken, WellFormed, CommandLength, Silent, Executes;
    var cmd := SeekCommand(drive, a);
    CommandsAreComplete(drive, a, 1);
    var o, sent := d.c.SendCommand(cmd, true, patience);
    assert cmd[..0] == [] && cmd[..|cmd|] == cmd && Writes(old(d.c.trace)) + [] == Writes(old(d.c.trace));
    r := if o == Done then Fetched else if o == StillPolling then NoEnd else NotSent;
  }

  /** fpy_cmd_read_sector: the verdict of the wait is not looked at. From Idle, success means that the buffer
      holds the sector; a result that reports failure is not drained. */
  method ReadSector(d: Driver, drive: byte, a: Address, sectors: byte, patience: nat) returns (r: Transfer)
    requires d.Valid() && a.cylinder < 256 && a.head < 256 && a.sector < 256
    modifies d, d.c, d.c.mem
    ensures d.Valid() && d.c.MemoryKept() && old(d.c.timeouts) <= d.c.timeouts && old(d.Spare()) <= d.Spare()
    ensures old(d.c.phase) == Idle ==>
              && (r == Fetched ==>
                   && d.c.fetched && d.c.current == ReadCommand(drive, a, sectors)
                   && (d.c.phase == Idle || d.c.phase.Result?)
                   && (d.c.timeouts == old(d.c.timeouts) ==> d.c.phase == Idle))
              && (r == BadResult ==> d.c.phase.Result?)
              && (AllExpected(old(d.c.trace)) ==> AllExpected(d.c.trace))
              && Sent(Writes(old(d.c.trace)), Writes(d.c.trace), ReadCommand(drive, a, sectors),
                      r == Fetched || r == BadResult)
              && (d.Prompt() && patience > 0 && SectorOf(d.c.disk, d.c.g, ReadCommand(drive, a, sectors)) != [] ==>
                    r == Fetched && d.c.timeouts == old(d.c.timeouts))
  {
    hide Writes, Takes, AllExpected, Handshaken, WellFormed, CommandLength, Silent, Executes, ReportsSuccess, SectorOf,
         Reads, ReadsData, InVain, MovesNothing;
    var cmd := ReadCommand(drive, a, sectors);
    CommandsAreComplete(drive, a, sectors);
    d.PrepareIrqNoHandle();
    var o, sent := d.c.SendCommand(cmd, true, patience);
    assert cmd[..|cmd|] == cmd;
    if o == StillPolling { return NoEnd; }
    if o != Done { return NotSent; }
    var waited, consumed := d.WaitIrq(patience);
    if waited == Hung { return NoEnd; }
    var res := d.c.GenRes();
    r := if res.error then BadResult else Fetched;
  }

  // ---------------------------------------------------------------- the copy

  /** The byte the loop puts at offset `i`: block `k` comes from sector `sector + k`, an 8-bit number. */
  predicate OnDisk(disk: seq<byte>, sector: byte, i: nat)
  {
    SECTOR_SIZE * ((sector + i / SECTOR_SIZE) % 256 + 1) <= |disk|
  }

  function DiskByte(disk: seq<byte>, sector: byte, i: nat): byte
    requires OnDisk(disk, sector, i)
  {
    disk[SECTOR_SIZE * ((sector + i / SECTOR_SIZE) % 256) + i % SECTOR_SIZE]
  }

  /** The first `n` bytes at `dest` have been read from the disk. */
  ghost predicate Loaded(mem: seq<byte>, disk: seq<byte>, sector: byte, dest: nat, n: nat)
  {
    dest + n <= |mem| && forall i :: 0 <= i < n ==> OnDisk(disk, sector, i) && mem[dest + i] == DiskByte(disk, sector, i)
  }

  /** `for (i = 0; i < copy_count; i++) dest[i] = TRANSFER_BUFFER[i];` */
  method CopyFromBuffer(mem: array<byte>, dest: nat, n: nat)
    requires n <= SECTOR_SIZE && mem.Length >= BUFFER_END && dest + n <= mem.Length
    requires dest + n <= BUFFER || dest >= BUFFER_END
    modifies mem
    ensures mem[dest..dest + n] == old(mem[BUFFER..BUFFER + n])
    ensures forall k :: 0 <= k < mem.Length && !(dest <= k < dest + n) ==> mem[k] == old(mem[k])
  {
    var i := 0;
    while i < n
      invariant i <= n
      invariant mem[dest..dest + i] == old(mem[BUFFER..BUFFER + i])
      invariant forall k :: 0 <= k < mem.Length && !(dest <= k < dest + i) ==> mem[k] == old(mem[k])
    {
      mem[dest + i] := mem[BUFFER + i];
      assert mem[dest..dest + i + 1] == mem[dest..dest + i] + [mem[dest + i]];
      assert old(mem[BUFFER..BUFFER + i + 1]) == old(mem[BUFFER..BUFFER + i]) + [old(mem[BUFFER + i])];
      i := i + 1;
    }
  }

  predicate ByteSized(g: Geometry) { g.Valid() && g.heads < 256 && g.sectors < 256 }

  /** What one turn writes to the controller: a seek and a read of its sector. */
  function SectorCommands(drive: byte, g: Geometry, sector: byte): seq<byte>
    requires ByteSized(g)
  {
    AddressFitsBytes(sector, g);
    var a := AddressOf(sector, g);
    SeekCommand(drive, a) + ReadCommand(drive, a, g.sectors)
  }

  /** What `n` turns write: the sectors one after the other, the sector number an 8-bit one. */
  function Commands(drive: byte, g: Geometry, sector: byte, n: nat): seq<byte>
    requires ByteSized(g)
  {
    if n == 0 then [] else Commands(drive, g, sector, n - 1) + SectorCommands(drive, g, (sector + n - 1) % 256)
  }

  lemma SentBoth(w0: seq<byte>, w1: seq<byte>, w2: seq<byte>, a: seq<byte>, b: seq<byte>, all: bool)
    requires Sent(w0, w1, a, true) && Sent(w1, w2, b, all)
    ensures Sent(w0, w2, a + b, all)
  {
    assert w0 + a + b == w0 + (a + b);
  }

  lemma SentFirst(w0: seq<byte>, w1: seq<byte>, a: seq<byte>, b: seq<byte>, all: bool)
    requires Sent(w0, w1, a, all)
    ensures Sent(w0, w1, a + b, false)
  {
    assert w0 + a + b == w0 + (a + b);
    assert w1 <= w0 + a <= w0 + a + b;
  }

  lemma FirstBytes(mem: array<byte>, disk: seq<byte>, sector: byte, n: nat)
    requires mem.Length >= BUFFER_END && SECTOR_SIZE * (sector + 1) <= |disk| && n <= SECTOR_SIZE
    requires mem[BUFFER..BUFFER + SECTOR_SIZE] == disk[SECTOR_SIZE * sector..SECTOR_SIZE * (sector + 1)]
    ensures mem[BUFFER..BUFFER + n] == disk[SECTOR_SIZE * sector..SECTOR_SIZE * sector + n]
  {
    assert mem[BUFFER..BUFFER + n] == mem[BUFFER..BUFFER + SECTOR_SIZE][..n];
    assert disk[SECTOR_SIZE * sector..SECTOR_SIZE * (sector + 1)][..n] == disk[SECTOR_SIZE * sector..SECTOR_SIZE * sector + n];
  }

  /** One turn of the loop: locate, seek, read, and copy what is still wanted of the sector. */
  method CopyBlock(d: Driver, drive: byte, sector: byte, dest: nat, n: nat, patience: nat) returns (r: Transfer)
    requires d.Valid() && ByteSized(d.c.g)
    requires n <= SECTOR_SIZE && dest + n <= d.c.mem.Length && (dest + n <= BUFFER || dest >= BUFFER_END)
    modifies d, d.c, d.c.mem
    ensures d.Valid() && old(d.c.timeouts) <= d.c.timeouts && old(d.Spare()) <= d.Spare()
    ensures forall k :: 0 <= k < d.c.mem.Length && !(BUFFER <= k < BUFFER_END) && !(dest <= k < dest + n) ==>
              d.c.mem[k] == old(d.c.mem[k])
    ensures r != Fetched ==> d.c.MemoryKept()
    ensures !old(d.c.phase).Command? ==>
              && (r == Fetched ==>
                   && SECTOR_SIZE * (sector + 1) <= |d.c.disk|
                   && d.c.mem[dest..dest + n] == d.c.disk[SECTOR_SIZE * sector..SECTOR_SIZE * sector + n]
                   && (d.c.phase == Idle || d.c.phase.Result?)
                   && (d.c.timeouts == old(d.c.timeouts) ==> d.c.phase == Idle))
              && (r == BadResult ==> d.c.phase.Result?)
              && (AllExpected(old(d.c.trace)) ==> AllExpected(d.c.trace))
              && Sent(Writes(old(d.c.trace)), Writes(d.c.trace), SectorCommands(drive, d.c.g, sector),
                      r == Fetched || r == BadResult)
    ensures old(d.c.phase) == Idle && d.Prompt() && patience > 0 && SECTOR_SIZE * (sector + 1) <= |d.c.disk| ==>
              r == Fetched && d.c.timeouts == old(d.c.timeouts)
    ensures old(d.c.phase).Result? ==>
              && r == NotSent && d.c.phase == old(d.c.phase)
              && Writes(d.c.trace) == Writes(old(d.c.trace))
  {
    hide Writes, Takes, AllExpected, Handshaken, WellFormed, AddressOf, SectorOf, SeekCommand, ReadCommand, ReportsSuccess, Sent;
    var g := d.c.g;
    AddressFitsBytes(sector, g);
    var a := AddressOf(sector, g);
    ghost var seek, read, w0 := SeekCommand(drive, a), ReadCommand(drive, a, g.sectors), Writes(d.c.trace);
    r := SeekHead(d, drive, a, patience);
    if r != Fetched {
      SentFirst(w0, Writes(d.c.trace), seek, read, false);
      return;
    }
    assert old(d.c.phase) == Idle && SECTOR_SIZE * (sector + 1) <= |d.c.disk| ==> SectorOf(d.c.disk, g, read) != [] by {
      ReadCommandFinds(d.c.disk, g, drive, sector, read);
    }
    ghost var w1 := Writes(d.c.trace);
    r := ReadSector(d, drive, a, g.sectors, patience);
    if !old(d.c.phase).Command? { SentBoth(w0, w1, Writes(d.c.trace), seek, read, r == Fetched || r == BadResult); }
    if r != Fetched { return; }
    if !old(d.c.phase).Command? {
      ReadCommandFinds(d.c.disk, g, drive, sector, d.c.current);
      FirstBytes(d.c.mem, d.c.disk, sector, n);
    }
    CopyFromBuffer(d.c.mem, dest, n);
  }

  lemma BlockOf(k: nat, j: nat)
    requires j < SECTOR_SIZE
    ensures (SECTOR_SIZE * k + j) / SECTOR_SIZE == k && (SECTOR_SIZE * k + j) % SECTOR_SIZE == j
  {
  }

  /** Block `k`, right from its sector, extends what has been loaded. */
  lemma LoadedBlock(was: seq<byte>, mem: seq<byte>, disk: seq<byte>, sector: byte, dest: nat, k: nat, n: nat)
    requires Loaded(was, disk, sector, dest, SECTOR_SIZE * k) && |mem| == |was|
    requires n <= SECTOR_SIZE && dest + SECTOR_SIZE * k + n <= |mem|
    requires forall i :: dest <= i < dest + SECTOR_SIZE * k ==> mem[i] == was[i]
    requires var s := (sector + k) % 256;
             && SECTOR_SIZE * (s + 1) <= |disk|
             && mem[dest + SECTOR_SIZE * k..dest + SECTOR_SIZE * k + n] == disk[SECTOR_SIZE * s..SECTOR_SIZE * s + n]
    ensures Loaded(mem, disk, sector, dest, SECTOR_SIZE * k + n)
  {
    var s := (sector + k) % 256;
    forall i | 0 <= i < SECTOR_SIZE * k + n
      ensures OnDisk(disk, sector, i) && mem[dest + i] == DiskByte(disk, sector, i)
    {
      if i < SECTOR_SIZE * k {
        assert OnDisk(disk, sector, i) && was[dest + i] == DiskByte(disk, sector, i);
      } else {
        var j := i - SECTOR_SIZE * k;
        BlockOf(k, j);
        assert mem[dest + i] == mem[dest + SECTOR_SIZE * k..dest + SECTOR_SIZE * k + n][j];
        assert disk[SECTOR_SIZE * s..SECTOR_SIZE * s + n][j] == disk[SECTOR_SIZE * s + j];
      }
    }
  }

  lemma LoadedKept(was: seq<byte>, mem: seq<byte>, disk: seq<byte>, sector: byte, dest: nat, n: nat)
    requires Loaded(was, disk, sector, dest, n) && |mem| == |was|
    requires forall i :: dest <= i < dest + n ==> mem[i] == was[i]
    ensures Loaded(mem, disk, sector, dest, n)
  {
    forall i | 0 <= i < n ensures OnDisk(disk, sector, i) && mem[dest + i] == DiskByte(disk, sector, i) {
      assert OnDisk(disk, sector, i) && was[dest + i] == DiskByte(disk, sector, i);
    }
  }

  lemma LoadedNothing(mem: seq<byte>, disk: seq<byte>, sector: byte, dest: nat)
    ensures dest <= |mem| ==> Loaded(mem, disk, sector, dest, 0)
  {
  }

  /** After `n` blocks and an attempt that ended in `r`: the commands of `n` turns, and with a failure some first
      bytes of one more, or all of them if it was the result that was bad. */
  predicate WroteCommands(before: seq<byte>, now: seq<byte>, drive: byte, g: Geometry, sector: byte, n: nat, r: Transfer)
    requires ByteSized(g)
  {
    if r == Fetched then now == before + Commands(drive, g, sector, n)
    else Sent(before + Commands(drive, g, sector, n), now, SectorCommands(drive, g, (sector + n) % 256), r == BadResult)
  }

  lemma WroteNothing(base: seq<byte>, drive: byte, g: Geometry, sector: byte)
    requires ByteSized(g)
    ensures WroteCommands(base, base, drive, g, sector, 0, Fetched)
  {
    assert base + [] == base;
  }

  lemma WroteMore(base: seq<byte>, was: seq<byte>, now: seq<byte>, drive: byte, g: Geometry, sector: byte, n: nat,
                  r: Transfer)
    requires ByteSized(g) && WroteCommands(base, was, drive, g, sector, n, Fetched)
    requires Sent(was, now, SectorCommands(drive, g, (sector + n) % 256), r == Fetched || r == BadResult)
    ensures WroteCommands(base, now, drive, g, sector, if r == Fetched then n + 1 else n, r)
  {
    hide SectorCommands;
    var turn := SectorCommands(drive, g, (sector + n) % 256);
    assert base + Commands(drive, g, sector, n) + turn == base + (Commands(drive, g, sector, n) + turn);
  }

  /** The disk has all the sectors that are asked for. */
  ghost predicate AllOnDisk(disk: seq<byte>, sector: byte, count: nat)
  {
    forall i :: 0 <= i < count ==> OnDisk(disk, sector, i)
  }

  lemma LoadedIsOnDisk(mem: seq<byte>, disk: seq<byte>, sector: byte, dest: nat, count: nat)
    requires Loaded(mem, disk, sector, dest, count)
    ensures AllOnDisk(disk, sector, count)
  {
  }

  lemma OffDisk(disk: seq<byte>, sector: byte, count: nat, k: nat)
    requires SECTOR_SIZE * k < count && SECTOR_SIZE * ((sector + k) % 256 + 1) > |disk|
    ensures !AllOnDisk(disk, sector, count)
  {
    BlockOf(k, 0);
    assert !OnDisk(disk, sector, SECTOR_SIZE * k);
  }

  // ---------------------------------------------------------------- the whole copy

  /** What a caller sees: memory, the controller's phase, what was done to it, and the reads that gave up. */
  datatype View = View(mem: seq<byte>, phase: Phase, trace: seq<Event>, timeouts: nat)

  ghost function ViewOf(d: Driver): View
    reads d, d.c, d.c.mem
  {
    View(d.c.mem[..], d.c.phase, d.c.trace, d.c.timeouts)
  }

  /** `count` bytes from `sector` on are wanted at `dest`. */
  datatype Task = Task(disk: seq<byte>, g: Geometry, drive: byte, sector: byte, dest: nat, count: nat) {
    predicate Fits(memory: nat)
    {
      ByteSized(g) && (count > 0 ==> dest + count <= memory && (dest + count <= BUFFER || dest >= BUFFER_END))
    }
  }

  /** Outside of the transfer buffer only the destination has changed, and there only the first `k` blocks. */
  ghost predicate OnlyBlocks(t: Task, u: View, v: View, k: nat)
  {
    && |v.mem| == |u.mem| && u.timeouts <= v.timeouts
    && (forall i :: 0 <= i < |v.mem| && !(BUFFER <= i < BUFFER_END) && !(t.dest <= i < t.dest + t.count) ==>
          v.mem[i] == u.mem[i])
    && (forall i :: t.dest + SECTOR_SIZE * k <= i < t.dest + t.count && i < |v.mem| ==> v.mem[i] == u.mem[i])
  }

  /** From `u` to `v`, `k` blocks have been copied. From any phase but the middle of a command: every byte is the
      disk's, the controller was sent a seek and a read of each sector in order, and is idle if no read gave up. */
  ghost predicate Progressed(t: Task, u: View, v: View, k: nat)
    requires t.Fits(|u.mem|)
  {
    && OnlyBlocks(t, u, v, k)
    && (k == 0 ==> v.phase == u.phase && v.trace == u.trace && v.mem == u.mem)
    && (u.phase.Result? ==> k == 0)
    && (!u.phase.Command? && t.count > 0 ==>
          && Loaded(v.mem, t.disk, t.sector, t.dest, Min(SECTOR_SIZE * k, t.count))
          && (k > 0 ==> (v.phase == Idle || v.phase.Result?) && (v.timeouts == u.timeouts ==> v.phase == Idle))
          && (AllExpected(u.trace) ==> AllExpected(v.trace))
          && WroteCommands(Writes(u.trace), Writes(v.trace), t.drive, t.g, t.sector, k, Fetched))
  }

  /** `k` blocks have been copied, and the next turn ended in `r`, a failure. With a result pending nothing was sent
      and nothing has changed. */
  ghost predicate Stopped(t: Task, u: View, v: View, k: nat, r: Transfer)
    requires t.Fits(|u.mem|)
  {
    && OnlyBlocks(t, u, v, k)
    && (!u.phase.Command? ==>
          && Loaded(v.mem, t.disk, t.sector, t.dest, SECTOR_SIZE * k)
          && (r == BadResult ==> v.phase.Result?)
          && (AllExpected(u.trace) ==> AllExpected(v.trace))
          && WroteCommands(Writes(u.trace), Writes(v.trace), t.drive, t.g, t.sector, k, r))
    && (u.phase.Result? ==> r == NotSent && k == 0 && v.phase == u.phase && Writes(v.trace) == Writes(u.trace))
  }

  /** A copy that ended in `r` after `k` blocks: success means that these are all, and a failure that some are
      missing. */
  ghost predicate Copied(t: Task, u: View, v: View, k: nat, r: Transfer)
    requires t.Fits(|u.mem|)
  {
    if r == Fetched then Progressed(t, u, v, k) && t.count <= SECTOR_SIZE * k < t.count + SECTOR_SIZE
    else Stopped(t, u, v, k, r) && SECTOR_SIZE * k < t.count
  }

  /** One turn, as `CopyBlock` promises it for block `k`. */
  ghost predicate Turned(t: Task, u: View, v: View, k: nat, r: Transfer)
    requires ByteSized(t.g)
  {
    var s, dest, n := (t.sector + k) % 256, t.dest + SECTOR_SIZE * k, Min(SECTOR_SIZE, t.count - SECTOR_SIZE * k);
    && |v.mem| == |u.mem| && u.timeouts <= v.timeouts
    && (forall i :: 0 <= i < |v.mem| && !(BUFFER <= i < BUFFER_END) && !(dest <= i < dest + n) ==> v.mem[i] == u.mem[i])
    && (r != Fetched ==> forall i :: 0 <= i < |v.mem| && !(BUFFER <= i < BUFFER_END) ==> v.mem[i] == u.mem[i])
    && (!u.phase.Command? ==>
          && (r == Fetched ==>
               && 0 <= n && dest + n <= |v.mem| && SECTOR_SIZE * (s + 1) <= |t.disk|
               && v.mem[dest..dest + n] == t.disk[SECTOR_SIZE * s..SECTOR_SIZE * s + n]
               && (v.phase == Idle || v.phase.Result?) && (v.timeouts == u.timeouts ==> v.phase == Idle))
          && (r == BadResult ==> v.phase.Result?)
          && (AllExpected(u.trace) ==> AllExpected(v.trace))
          && Sent(Writes(u.trace), Writes(v.trace), SectorCommands(t.drive, t.g, s), r == Fetched || r == BadResult))
    && (u.phase.Result? ==> r == NotSent && v.phase == u.phase && Writes(v.trace) == Writes(u.trace))
  }

  lemma NothingCopied(t: Task, u: View)
    requires t.Fits(|u.mem|)
    ensures Progressed(t, u, u, 0)
  {
    hide Loaded, WroteCommands, AllExpected, Writes;
    LoadedNothing(u.mem, t.disk, t.sector, t.dest);
    WroteNothing(Writes(u.trace), t.drive, t.g, t.sector);
  }

  lemma BlocksKept(t: Task, o: View, u: View, v: View, k: nat, r: Transfer)
    requires t.Fits(|o.mem|) && SECTOR_SIZE * k < t.count && OnlyBlocks(t, o, u, k) && Turned(t, u, v, k, r)
    ensures OnlyBlocks(t, o, v, if r == Fetched then k + 1 else k)
  {
    hide Loaded, WroteCommands, AllExpected, Writes, Sent, SectorCommands;
  }

  lemma BlocksLoaded(t: Task, o: View, u: View, v: View, k: nat, r: Transfer)
    requires t.Fits(|o.mem|) && |u.mem| == |o.mem| && SECTOR_SIZE * k < t.count && Turned(t, u, v, k, r)
    requires Loaded(u.mem, t.disk, t.sector, t.dest, SECTOR_SIZE * k) && !u.phase.Command?
    ensures Loaded(v.mem, t.disk, t.sector, t.dest, if r == Fetched then Min(SECTOR_SIZE * (k + 1), t.count) else SECTOR_SIZE * k)
  {
    hide Loaded, WroteCommands, AllExpected, Writes, Sent, SectorCommands;
    if r == Fetched {
      LoadedBlock(u.mem, v.mem, t.disk, t.sector, t.dest, k, Min(SECTOR_SIZE, t.count - SECTOR_SIZE * k));
    } else {
      LoadedKept(u.mem, v.mem, t.disk, t.sector, t.dest, SECTOR_SIZE * k);
    }
  }

  /** One more turn. */
  lemma TurnProgresses(t: Task, o: View, u: View, v: View, k: nat, r: Transfer)
    requires t.Fits(|o.mem|) && SECTOR_SIZE * k < t.count && Progressed(t, o, u, k) && Turned(t, u, v, k, r)
    ensures if r == Fetched then Progressed(t, o, v, k + 1) else Stopped(t, o, v, k, r)
  {
    BlocksKept(t, o, u, v, k, r);
    hide Loaded, WroteCommands, AllExpected, Writes, Sent, SectorCommands, OnlyBlocks;
    if !o.phase.Command? {
      BlocksLoaded(t, o, u, v, k, r);
      WroteMore(Writes(o.trace), Writes(u.trace), Writes(v.trace), t.drive, t.g, t.sector, k, r);
    }
  }

  /** The body of the loop. */
  method CopyTurn(d: Driver, ghost t: Task, ghost o: View, ghost k: nat, drive: byte, from: byte, to: nat, n: nat,
                  patience: nat)
    returns (r: Transfer)
    requires d.Valid() && t.disk == d.c.disk && t.g == d.c.g && t.drive == drive
    requires t.Fits(|o.mem|) && SECTOR_SIZE * k < t.count && Progressed(t, o, ViewOf(d), k)
    requires from == (t.sector + k) % 256 && to == t.dest + SECTOR_SIZE * k && n == Min(SECTOR_SIZE, t.count - SECTOR_SIZE * k)
    modifies d, d.c, d.c.mem
    ensures d.Valid() && old(d.Spare()) <= d.Spare()
    ensures if r == Fetched then Progressed(t, o, ViewOf(d), k + 1) else Stopped(t, o, ViewOf(d), k, r)
    ensures old(d.c.phase) == Idle && d.Prompt() && patience > 0 ==>
              (r == Fetched <==> SECTOR_SIZE * (from + 1) <= |d.c.disk|) && (r == Fetched ==> d.c.phase == Idle)
  {
    hide Loaded, WroteCommands, AllExpected, Writes, Sent, SectorCommands, OnlyBlocks, Driver.Valid, Driver.Prompt;
    ghost var u := ViewOf(d);
    SameLength(t, o, u, k);
    r := CopyBlock(d, drive, from, to, n, patience);
    assert Turned(t, u, ViewOf(d), k, r);
    TurnProgresses(t, o, u, ViewOf(d), k, r);
  }

  lemma SameLength(t: Task, o: View, u: View, k: nat)
    requires OnlyBlocks(t, o, u, k)
    ensures |u.mem| == |o.mem|
  {
  }

  /** fpy_copy_bytes. `blocks` counts the blocks that were copied. In a prompt environment it succeeds exactly when
      the disk has the sectors. */
  method CopyBytes(d: Driver, drive: byte, sector: byte, dest: nat, count: int, patience: nat)
    returns (r: Transfer, ghost blocks: nat)
    requires d.Valid() && TaskOf(d, drive, sector, dest, count).Fits(d.c.mem.Length)
    modifies d, d.c, d.c.mem
    ensures d.Valid() && old(d.Spare()) <= d.Spare()
    ensures Copied(TaskOf(d, drive, sector, dest, count), old(ViewOf(d)), ViewOf(d), blocks, r)
    ensures old(d.c.phase) == Idle && d.Prompt() && patience > 0 ==>
              (r == Fetched <==> AllOnDisk(d.c.disk, sector, Max(count, 0))) && (r == Fetched ==> d.c.phase == Idle)
  {
    hide Progressed, Stopped, OnDisk, AllOnDisk, ByteSized, Driver.Prompt, Driver.Valid;
    ghost var t, o := TaskOf(d, drive, sector, dest, count), ViewOf(d);
    NothingCopied(t, o);
    var left: int, to: nat, from: int := count, dest, sector;
    blocks := 0;
    while left > 0
      invariant left == count - SECTOR_SIZE * blocks && to == dest + SECTOR_SIZE * blocks && from == (sector + blocks) % 256
      invariant blocks == 0 || left > -SECTOR_SIZE
      invariant d.Valid() && old(d.Spare()) <= d.Spare() && Progressed(t, o, ViewOf(d), blocks)
      invariant o.phase == Idle && d.Prompt() && patience > 0 ==> d.c.phase == Idle
      decreases left
    {
      var n := if left > 0x200 then 0x200 else left;
      r := CopyTurn(d, t, o, blocks, drive, from, to, n, patience);
      if r != Fetched {
        if SECTOR_SIZE * (from + 1) > |d.c.disk| { OffDisk(d.c.disk, sector, count, blocks); }
        return;
      }
      left := left - 0x200;
      to := to + 0x200;
      from := (from + 1) % 256;
      blocks := blocks + 1;
    }
    r := Fetched;
    if !o.phase.Command? { AllLoaded(t, o, ViewOf(d), blocks); }
  }

  ghost function TaskOf(d: Driver, drive: byte, sector: byte, dest: nat, count: int): Task
  {
    Task(d.c.disk, d.c.g, drive, sector, dest, Max(count, 0))
  }

  lemma AllLoaded(t: Task, u: View, v: View, k: nat)
    requires t.Fits(|u.mem|) && Progressed(t, u, v, k) && SECTOR_SIZE * k >= t.count && !u.phase.Command?
    ensures AllOnDisk(t.disk, t.sector, t.count)
  {
    if t.count > 0 { LoadedIsOnDisk(v.mem, t.disk, t.sector, t.dest, t.count); }
  }

  // ---------------------------------------------------------------- when the copy is a slice of the disk

  function BlocksOf(count: nat): nat { (count + SECTOR_SIZE - 1) / SECTOR_SIZE }

  lemma LoadedByte(mem: seq<byte>, disk: seq<byte>, sector: byte, dest: nat, count: nat, i: nat)
    requires Loaded(mem, disk, sector, dest, count) && sector + BlocksOf(count) <= 256 && i < count
    ensures SECTOR_SIZE * sector + i < |disk| && mem[dest + i] == disk[SECTOR_SIZE * sector + i]
  {
    assert OnDisk(disk, sector, i) && mem[dest + i] == DiskByte(disk, sector, i);
    assert sector + i / SECTOR_SIZE < 256;
  }

  /** Without wrap-around of the sector number, what is loaded is one slice of the disk. */
  lemma LoadedIsSlice(mem: seq<byte>, disk: seq<byte>, sector: byte, dest: nat, count: nat)
    requires Loaded(mem, disk, sector, dest, count) && sector + BlocksOf(count) <= 256 && count > 0
    ensures SECTOR_SIZE * sector + count <= |disk|
    ensures mem[dest..dest + count] == disk[SECTOR_SIZE * sector..SECTOR_SIZE * sector + count]
  {
    LoadedByte(mem, disk, sector, dest, count, count - 1);
    var loaded, slice := mem[dest..dest + count], disk[SECTOR_SIZE * sector..SECTOR_SIZE * sector + count];
    forall i | 0 <= i < count ensures loaded[i] == slice[i] { LoadedByte(mem, disk, sector, dest, count, i); }
  }

  /** Whatever the disk holds, a complete load is the slice that starts at the sector. */
  ghost predicate AlwaysSlice(sector: byte, count: nat)
  {
    forall mem: seq<byte>, disk: seq<byte>, dest: nat ::
      Loaded(mem, disk, sector, dest, count) && SECTOR_SIZE * sector + count <= |disk| ==>
      mem[dest..dest + count] == disk[SECTOR_SIZE * sector..SECTOR_SIZE * sector + count]
  }

  /** The 8-bit sector number is the only limit: the copy is a slice exactly when it does not pass sector 255. */
  lemma SliceIffNoWrap(sector: byte, count: nat)
    requires count > 0
    ensures AlwaysSlice(sector, count) <==> sector + BlocksOf(count) <= 256
  {
    if sector + BlocksOf(count) <= 256 {
      forall mem: seq<byte>, disk: seq<byte>, dest: nat |
        Loaded(mem, disk, sector, dest, count) && SECTOR_SIZE * sector + count <= |disk|
        ensures mem[dest..dest + count] == disk[SECTOR_SIZE * sector..SECTOR_SIZE * sector + count]
      {
        LoadedIsSlice(mem, disk, sector, dest, count);
      }
    } else {
      // A disk whose first 256 sectors hold zeros and whose other sectors hold ones.
      var size := SECTOR_SIZE * 256 + SECTOR_SIZE * sector + count;
      var disk: seq<byte> := seq(size, i => if i < SECTOR_SIZE * 256 then 0 else 1);
      var mem: seq<byte> := seq(count, _ => 0);
      forall i | 0 <= i < count ensures OnDisk(disk, sector, i) && mem[0 + i] == DiskByte(disk, sector, i) { }
      assert Loaded(mem, disk, sector, 0, count);
      var i := SECTOR_SIZE * (256 - sector);
      assert i < count;
      assert mem[0..0 + count][i] == 0;
      assert disk[SECTOR_SIZE * sector..SECTOR_SIZE * sector + count][i] == 1;
    }
  }
}
