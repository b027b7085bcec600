/** stage1's copy_kernel(): the sector address of a BIOS read, its packing in CX, and the tries. */
module CopyKernel {
  import opened CInt
  import opened Chs

  /** INT 13h: function 0 resets the drive in DL; function 2 reads, with its AX, DX, CX and destination. */
  datatype Request = Reset(drive: byte) | Read(ax: bv16, dx: bv16, cx: bv16, dest: nat)

  /** `((c & 0xFF) << 8) | (c & 0x300) >> 2 | (s & 0x3f)` */
  function PackCx(c: bv16, s: bv16): bv16
  {
    ((c & 0xFF) << 8) | ((c & 0x300) >> 2) | (s & 0x3f)
  }

  /** How INT 13h reads CX: the two high bits of CL extend the cylinder in CH. */
  function BiosCylinder(cx: bv16): bv16 { (cx >> 8) | ((cx & 0xC0) << 2) }

  function BiosSector(cx: bv16): bv16 { cx & 0x3f }

  function BiosHead(dx: bv16): bv16 { dx >> 8 }

  /** The packing loses nothing exactly when the cylinder has ten bits and the sector six. */
  lemma CxDecodes(c: bv16, s: bv16)
    ensures (BiosCylinder(PackCx(c, s)) == c && BiosSector(PackCx(c, s)) == s) <==> (c < 0x400 && s < 0x40)
  {
  }

  lemma DxDecodes(h: bv16, drive: bv16)
    requires h < 0x100 && drive < 0x100
    ensures BiosHead((h << 8) | drive) == h && BiosDrive((h << 8) | drive) == drive
  {
  }

  lemma AxDecodes(count: bv16)
    requires count < 0x100
    ensures BiosFunction(0x0200 | count) == 2 && BiosCount(0x0200 | count) == count
  {
  }

  /** The address copy_kernel computes; without a geometry (no heads yet) it takes everything to lie on track 0. */
  function KernelAddress(index: byte, g: Geometry): Address
    requires g.heads != 0 ==> g.sectors != 0
  {
    if g.heads == 0 then Address(0, 0, (index + 1) % 256) else AddressOf(index, g)
  }

  /** The fallback is right exactly for the sectors of the first track. */
  lemma FallbackAgrees(index: byte, g: Geometry)
    requires g.Valid() && g.sectors < 256
    ensures KernelAddress(index, Geometry(0, 0)) == AddressOf(index, g) <==> index < g.sectors
  {
    LbaRoundTrip(index, g);
    if index < g.sectors {
      AddressRoundTrip(Address(0, 0, index + 1), g);
    }
  }

  /** AH is not 0. */
  predicate IsError(ax: bv16) { ax & 0xFF00 != 0 }

  class Bios {
    /** What AX will be after the k-th call. */
    const answers: nat -> bv16
    var asked: seq<Request>

    constructor (answers: nat -> bv16)
      ensures this.answers == answers && asked == []
    {
      this.answers := answers;
      asked := [];
    }

    predicate Failed(k: nat) { IsError(answers(k)) }

    method Call(r: Request) returns (ax: bv16)
      modifies this
      ensures asked == old(asked) + [r] && ax == answers(|old(asked)|)
    {
      ax := answers(|asked|);
      asked := asked + [r];
    }
  }

  function ReadRequest(c: bv16, h: bv16, s: bv16, count: bv16, drive: bv16, dest: nat): Request
  {
    Read(0x0200 | count, (h << 8) | drive, PackCx(c, s), dest)
  }

  /** What INT 13h is asked to do: AH is the function, AL the number of sectors, DL the drive, ES:BX the destination. */
  function BiosFunction(ax: bv16): bv16 { ax >> 8 }

  function BiosCount(ax: bv16): bv16 { ax & 0xFF }

  function BiosDrive(dx: bv16): bv16 { dx & 0xFF }

  /** For 8-bit cylinders, the BIOS reads the address back out of the registers exactly when the sector has six bits. */
  lemma RegistersDecode(c: bv16, h: bv16, s: bv16, count: bv16, drive: bv16, dest: nat)
    requires c < 0x100 && h < 0x100 && drive < 0x100 && count < 0x100
    ensures var r := ReadRequest(c, h, s, count, drive, dest);
            && r.Read? && BiosFunction(r.ax) == 2 && BiosCount(r.ax) == count && r.dest == dest
            && BiosHead(r.dx) == h && BiosDrive(r.dx) == drive
            && ((BiosCylinder(r.cx) == c && BiosSector(r.cx) == s) <==> s < 0x40)
  {
    hide PackCx, BiosCylinder, BiosSector, BiosHead, BiosDrive, BiosFunction, BiosCount;
    CxDecodes(c, s);
    DxDecodes(h, drive);
    AxDecodes(count);
  }

  /** A byte in a 16-bit register. */
  function InRegister(x: byte): (b: bv16)
    ensures b < 0x100 && (b < 0x40 <==> x < 64)
  {
    x as bv16
  }

  lemma RegisterHolds(x: byte, b: bv16)
    requires b as int == x
    ensures InRegister(x) == b
  {
  }

  function RequestFor(a: Address, count: byte, drive: byte, dest: nat): Request
    requires a.cylinder < 256 && a.head < 256 && a.sector < 256
  {
    ReadRequest(InRegister(a.cylinder), InRegister(a.head), InRegister(a.sector), InRegister(count), InRegister(drive),
                dest)
  }

  /** The BIOS takes the address `a` out of the registers. */
  predicate AsksFor(r: Request, a: Address)
  {
    && r.Read? && 0 <= a.cylinder < 256 && 0 <= a.head < 256 && 0 <= a.sector < 256
    && BiosCylinder(r.cx) == InRegister(a.cylinder) && BiosHead(r.dx) == InRegister(a.head)
    && BiosSector(r.cx) == InRegister(a.sector)
  }

  /** And it is to read `count` sectors from the drive to `dest`. */
  predicate AsksToRead(r: Request, count: byte, drive: byte, dest: nat)
  {
    && r.Read? && BiosFunction(r.ax) == 2 && BiosCount(r.ax) == InRegister(count)
    && BiosDrive(r.dx) == InRegister(drive) && r.dest == dest
  }

  lemma RequestAsksForAddress(a: Address, count: byte, drive: byte, dest: nat)
    requires a.cylinder < 256 && a.head < 256 && a.sector < 256
    ensures AsksFor(RequestFor(a, count, drive, dest), a) <==> a.sector < 64
    ensures AsksToRead(RequestFor(a, count, drive, dest), count, drive, dest)
  {
    hide InRegister, ReadRequest, BiosCylinder, BiosSector, BiosHead, BiosDrive, BiosFunction, BiosCount;
    RegistersDecode(InRegister(a.cylinder), InRegister(a.head), InRegister(a.sector), InRegister(count),
                    InRegister(drive), dest);
  }

  /** The first half of copy_kernel(): `c`, `h` and `s` from the sector index. */
  method LocateSector(index: byte, maxHead: byte, maxSector: byte) returns (c: byte, h: byte, s: byte)
    requires maxHead != 0 ==> maxSector != 0
    ensures Address(c, h, s) == KernelAddress(index, Geometry(maxHead, maxSector))
  {
    c, h, s := 0, 0, (index + 1) % 256;
    if maxHead != 0 {
      AddressFitsBytes(index, Geometry(maxHead, maxSector));
      MulPositive(maxHead, maxSector);
      c := index / (maxHead * maxSector);
      h := (index / maxSector) % maxHead;
      s := index % maxSector + 1;
    }
  }

  /** `n` times the same read, the drive reset before each. */
  function Attempts(drive: byte, r: Request, n: nat): seq<Request>
  {
    if n == 0 then [] else Attempts(drive, r, n - 1) + [Reset(drive), r]
  }

  /** Every read among the requests asks for sector `index` of a disk of geometry `g`. */
  predicate AllFind(rs: seq<Request>, g: Geometry, index: byte)
  {
    g.Valid() && forall k :: 0 <= k < |rs| && rs[k].Read? ==>
      AsksFor(rs[k], AddressOf(index, g)) && LbaOf(AddressOf(index, g), g) == index
  }

  /** On a disk of geometry `g`, with at most 63 sectors a track, copy_kernel knows where `index` is: it knows the
      geometry, or the index lies on the first track. */
  predicate Addresses(g: Geometry, index: byte, known: Geometry)
  {
    g.Valid() && g.heads < 256 && g.sectors <= 63 && (known == g || (known.heads == 0 && index < g.sectors))
  }

  lemma KernelAddressFinds(index: byte, known: Geometry, g: Geometry)
    requires Addresses(g, index, known)
    ensures var a := KernelAddress(index, known);
            a == AddressOf(index, g) && a.cylinder < 256 && a.head < 256 && a.sector < 64 && LbaOf(a, g) == index
  {
    hide LbaOf, AddressOf;
    if known.heads == 0 { FallbackAgrees(index, g); }
    LbaRoundTrip(index, g);
    AddressFitsBytes(index, g);
  }

  /** The requests are resets of the drive and reads of `count` sectors to `dest`, in turn. */
  predicate AllRead(rs: seq<Request>, count: byte, drive: byte, dest: nat)
  {
    forall k :: 0 <= k < |rs| ==> if k % 2 == 0 then rs[k] == Reset(drive) else AsksToRead(rs[k], count, drive, dest)
  }

  lemma {:induction false} AttemptsRead(a: Address, count: byte, drive: byte, dest: nat, r: Request, n: nat)
    requires a.cylinder < 256 && a.head < 256 && a.sector < 256 && r == RequestFor(a, count, drive, dest)
    ensures AllRead(Attempts(drive, r, n), count, drive, dest) && |Attempts(drive, r, n)| == 2 * n
  {
    hide RequestFor, AsksToRead, AsksFor;
    if n > 0 {
      AttemptsRead(a, count, drive, dest, r, n - 1);
      RequestAsksForAddress(a, count, drive, dest);
    }
  }

  /** Every attempt then asks the BIOS for the very sector. */
  lemma {:induction false} AttemptsFind(index: byte, known: Geometry, g: Geometry, count: byte, drive: byte, dest: nat,
                                        r: Request, n: nat)
    requires Addresses(g, index, known)
    requires var a := KernelAddress(index, known);
             a.cylinder < 256 && a.head < 256 && a.sector < 256 && r == RequestFor(a, count, drive, dest)
    ensures AllFind(Attempts(drive, r, n), g, index)
  {
    hide KernelAddress, RequestFor, AsksFor, LbaOf, AddressOf;
    KernelAddressFinds(index, known, g);
    if n > 0 {
      AttemptsFind(index, known, g, count, drive, dest, r, n - 1);
      RequestAsksForAddress(KernelAddress(index, known), count, drive, dest);
    }
  }

  method Attempt(bios: Bios, drive: byte, r: Request) returns (ax: bv16)
    modifies bios
    ensures bios.asked == old(bios.asked) + [Reset(drive), r] && ax == bios.answers(|bios.asked| - 1)
  {
    ax := bios.Call(Reset(drive));
    ax := bios.Call(r);
  }

  lemma {:induction false} AttemptsLength(drive: byte, r: Request, n: nat)
    ensures |Attempts(drive, r, n)| == 2 * n
  {
    if n > 0 { AttemptsLength(drive, r, n - 1); }
  }

  lemma OneMore(before: seq<Request>, drive: byte, r: Request, n: nat)
    ensures before + Attempts(drive, r, n) + [Reset(drive), r] == before + Attempts(drive, r, n + 1)
    ensures |Attempts(drive, r, n)| == 2 * n && before + Attempts(drive, r, 0) == before
  {
    AttemptsLength(drive, r, n);
    assert before + Attempts(drive, r, n) + [Reset(drive), r] == before + (Attempts(drive, r, n) + [Reset(drive), r]);
    assert before + [] == before;
  }

  /** The do-while loop: at most three attempts, the last one the first to succeed. */
  method ReadSectors(bios: Bios, drive: byte, r: Request) returns (ghost tried: nat)
    modifies bios
    ensures bios.asked == old(bios.asked) + Attempts(drive, r, tried)
    ensures 1 <= tried <= 3 && forall i :: 0 <= i < tried - 1 ==> bios.Failed(|old(bios.asked)| + 2 * i + 1)
    ensures tried < 3 ==> !bios.Failed(|bios.asked| - 1)
  {
    hide IsError, Attempts;
    ghost var before := bios.asked;
    var tries := 3;
    OneMore(before, drive, r, 0);
    OneMore(before, drive, r, 1);
    var ax := Attempt(bios, drive, r);
    tries := tries - 1;
    while tries != 0 && IsError(ax)
      invariant 0 <= tries <= 2
      invariant bios.asked == before + Attempts(drive, r, 3 - tries) && |bios.asked| == |before| + 2 * (3 - tries)
      invariant ax == bios.answers(|bios.asked| - 1)
      invariant forall i :: 0 <= i < 2 - tries ==> bios.Failed(|before| + 2 * i + 1)
    {
      OneMore(before, drive, r, 3 - tries);
      OneMore(before, drive, r, 4 - tries);
      ax := Attempt(bios, drive, r);
      tries := tries - 1;
    }
    tried := 3 - tries;
  }

  /** One to three identical reads of `count` sectors to `dest`, each after a reset, the last one the first to succeed; and
      if the kernel can know where the sector is, every one of them asks for it. */
  method CopyKernel(bios: Bios, index: byte, count: byte, dest: nat, drive: byte, maxHead: byte, maxSector: byte)
    returns (ghost tried: nat)
    requires maxHead != 0 ==> maxSector != 0
    modifies bios
    ensures var a := KernelAddress(index, Geometry(maxHead, maxSector));
            a.cylinder < 256 && a.head < 256 && a.sector < 256 &&
            bios.asked == old(bios.asked) + Attempts(drive, RequestFor(a, count, drive, dest), tried)
    ensures 1 <= tried <= 3 && forall i :: 0 <= i < tried - 1 ==> bios.Failed(|old(bios.asked)| + 2 * i + 1)
    ensures tried < 3 ==> !bios.Failed(|bios.asked| - 1)
    ensures forall g: Geometry | Addresses(g, index, Geometry(maxHead, maxSector)) ::
              AllFind(bios.asked[|old(bios.asked)|..], g, index)
    ensures AllRead(bios.asked[|old(bios.asked)|..], count, drive, dest)
  {
    hide RequestFor, KernelAddress, Addresses, AllFind, AllRead, Attempts, Bios.Failed;
    var c, h, s := LocateSector(index, maxHead, maxSector);
    var request := RequestFor(Address(c, h, s), count, drive, dest);
    tried := ReadSectors(bios, drive, request);
    assert bios.asked[|old(bios.asked)|..] == Attempts(drive, request, tried);
    AttemptsRead(Address(c, h, s), count, drive, dest, request, tried);
    forall g: Geometry | Addresses(g, index, Geometry(maxHead, maxSector))
      ensures AllFind(Attempts(drive, request, tried), g, index)
    {
      AttemptsFind(index, Geometry(maxHead, maxSector), g, count, drive, dest, request, tried);
    }
  }
}
