/**
  stage2's gdt_segment_create(): a packed bit-field struct, filled in place and read back by the
  processor's descriptor format (Intel SDM, volume 3, section 3.4.5).
 */
module Gdt {
  import opened CInt
  import opened Chs

  type uint32 = x: int | 0 <= x < 0x1_0000_0000

  type uint16 = x: int | 0 <= x < 0x1_0000

  type uint4 = x: int | 0 <= x < 0x10

  type uint2 = x: int | 0 <= x < 4

  type bit = x: int | 0 <= x < 2

  // ---------------------------------------------------------------- bit-fields

  /** A bit-field: its value and its width. */
  datatype BitField = BitField(value: nat, width: nat)

  ghost predicate Fit(fs: seq<BitField>)
  {
    forall i :: 0 <= i < |fs| ==> fs[i].value < Pow2(fs[i].width)
  }

  /** A packed struct: fields from bit 0 up, each above the one before. */
  function Pack(fs: seq<BitField>): nat
  {
    if fs == [] then 0 else fs[0].value + Pow2(fs[0].width) * Pack(fs[1..])
  }

  /** The bit at which field `i` starts. */
  function Offset(fs: seq<BitField>, i: nat): nat
    requires i <= |fs|
  {
    if i == 0 then 0 else Offset(fs, i - 1) + fs[i - 1].width
  }

  /** `width` bits of `raw` from bit `low` up. */
  function Bits(raw: nat, low: nat, width: nat): (b: nat)
    ensures b < Pow2(width)
  {
    (raw / Pow2(low)) % Pow2(width)
  }

  lemma {:induction false} OffsetTail(fs: seq<BitField>, i: nat)
    requires 1 <= i <= |fs|
    ensures Offset(fs, i) == fs[0].width + Offset(fs[1..], i - 1)
  {
    if i > 1 { OffsetTail(fs, i - 1); }
  }

  /** Reading above the lowest field is reading the rest of the struct. */
  lemma BitsAbove(value: nat, width: nat, rest: nat, low: nat, n: nat)
    requires value < Pow2(width)
    ensures Bits(value + Pow2(width) * rest, width + low, n) == Bits(rest, low, n)
  {
    hide Pow2;
    var raw, p, q := value + Pow2(width) * rest, Pow2(width), Pow2(low);
    assert raw == rest * p + value;
    DivModUnique(raw, p, rest, value);
    Pow2Add(width, low);
    assert p * q == q * p;
    DivTwice(raw, p, q);
  }

  lemma BitsLowest(value: nat, width: nat, rest: nat)
    requires value < Pow2(width)
    ensures Bits(value + Pow2(width) * rest, 0, width) == value
  {
    var raw, p := value + Pow2(width) * rest, Pow2(width);
    assert raw == rest * p + value;
    DivModUnique(raw, p, rest, value);
    assert raw / Pow2(0) == raw;
  }

  /** Reading a packed field at its offset gives its value back. */
  lemma {:induction false} UnpackField(fs: seq<BitField>, i: nat)
    requires Fit(fs) && i < |fs|
    ensures Bits(Pack(fs), Offset(fs, i), fs[i].width) == fs[i].value
  {
    hide Bits, Pow2;
    if i == 0 {
      BitsLowest(fs[0].value, fs[0].width, Pack(fs[1..]));
    } else {
      OffsetTail(fs, i);
      assert Fit(fs[1..]);
      UnpackField(fs[1..], i - 1);
      BitsAbove(fs[0].value, fs[0].width, Pack(fs[1..]), Offset(fs[1..], i - 1), fs[i].width);
    }
  }

  // ---------------------------------------------------------------- descriptors

  /** What the processor takes out of a code or data segment descriptor. */
  datatype Segment = Segment(base: nat, limit: nat, present: bool, codeOrData: bool, level: nat,
                             executable: bool, writable: bool, long: bool, big: bool)

  /** The decoder: base and limit are gathered from their pieces, and G scales the limit to 4 KiB units. */
  function Decode(raw: nat): Segment
  {
    var base := Bits(raw, 16, 16) + Bits(raw, 32, 8) * 0x1_0000 + Bits(raw, 56, 8) * 0x100_0000;
    var limit := Bits(raw, 0, 16) + Bits(raw, 48, 4) * 0x1_0000;
    Segment(base, if Bits(raw, 55, 1) == 1 then limit * 0x1000 + 0xFFF else limit,
            Bits(raw, 47, 1) == 1, Bits(raw, 44, 1) == 1, Bits(raw, 45, 2),
            Bits(raw, 43, 1) == 1, Bits(raw, 41, 1) == 1, Bits(raw, 53, 1) == 1, Bits(raw, 54, 1) == 1)
  }

  /** struct gdt_seg_descriptor, in the order of its declaration. */
  datatype Fields = Fields(
    segLimit1: uint16, baseAddress1: uint16, baseAddress2: byte, accessed: bit, readableWritable: bit,
    directionConforming: bit, codeSel: bit, isCodeOrData: bit, privilegeLevel: uint2, segmentPresent: bit,
    segLimit2: uint4, availableSystemSoftware: bit, mode64Bit: bit, opSize: bit, granularity: bit,
    baseAddress3: byte)

  function BitFields(d: Fields): seq<BitField>
  {
    [ BitField(d.segLimit1, 16), BitField(d.baseAddress1, 16), BitField(d.baseAddress2, 8), BitField(d.accessed, 1),
      BitField(d.readableWritable, 1), BitField(d.directionConforming, 1), BitField(d.codeSel, 1),
      BitField(d.isCodeOrData, 1), BitField(d.privilegeLevel, 2), BitField(d.segmentPresent, 1),
      BitField(d.segLimit2, 4), BitField(d.availableSystemSoftware, 1), BitField(d.mode64Bit, 1),
      BitField(d.opSize, 1), BitField(d.granularity, 1), BitField(d.baseAddress3, 8) ]
  }

  lemma Powers()
    ensures Pow2(1) == 2 && Pow2(2) == 4 && Pow2(4) == 0x10 && Pow2(8) == 0x100 && Pow2(16) == 0x1_0000
  {
    assert Pow2(3) == 8 && Pow2(7) == 0x80 && Pow2(8) == 0x100 && Pow2(12) == 0x1000;
  }

  lemma FieldOffsets(d: Fields)
    ensures var fs := BitFields(d);
            && Offset(fs, 0) == 0 && Offset(fs, 1) == 16 && Offset(fs, 2) == 32 && Offset(fs, 4) == 41
            && Offset(fs, 6) == 43 && Offset(fs, 7) == 44 && Offset(fs, 8) == 45 && Offset(fs, 9) == 47
            && Offset(fs, 10) == 48 && Offset(fs, 12) == 53 && Offset(fs, 13) == 54 && Offset(fs, 14) == 55
            && Offset(fs, 15) == 56
  {
    var fs := BitFields(d);
    assert Offset(fs, 1) == 16;
    assert Offset(fs, 2) == 32;
    assert Offset(fs, 3) == 40;
    assert Offset(fs, 4) == 41;
    assert Offset(fs, 5) == 42;
    assert Offset(fs, 6) == 43;
    assert Offset(fs, 7) == 44;
    assert Offset(fs, 8) == 45;
    assert Offset(fs, 9) == 47;
    assert Offset(fs, 10) == 48;
    assert Offset(fs, 11) == 52;
    assert Offset(fs, 12) == 53;
    assert Offset(fs, 13) == 54;
    assert Offset(fs, 14) == 55;
  }

  /** The processor reads the fields of the struct where the compiler packed them. */
  lemma DecodeOfFields(d: Fields)
    ensures Decode(Pack(BitFields(d))) == Segment(
      d.baseAddress1 + d.baseAddress2 * 0x1_0000 + d.baseAddress3 * 0x100_0000,
      (var limit := d.segLimit1 + d.segLimit2 * 0x1_0000; if d.granularity == 1 then limit * 0x1000 + 0xFFF else limit),
      d.segmentPresent == 1, d.isCodeOrData == 1, d.privilegeLevel, d.codeSel == 1, d.readableWritable == 1,
      d.mode64Bit == 1, d.opSize == 1)
  {
    hide Bits, Pow2, Pack, Offset;
    var fs := BitFields(d);
    Powers();
    FieldOffsets(d);
    assert Fit(fs);
    forall i | 0 <= i < 16 ensures Bits(Pack(fs), Offset(fs, i), fs[i].width) == fs[i].value {
      UnpackField(fs, i);
    }
    assert fs[1].width == 16;
  }

  /** What a bit-field keeps of a number assigned to it. */
  function To16(n: nat): uint16 { n % 0x1_0000 }

  function To8(n: nat): byte { n % 0x100 }

  function To4(n: nat): uint4 { n % 0x10 }

  function To2(n: nat): uint2 { n % 4 }

  /** A number cut into 16, 8 and 8 bits, and one of 20 bits cut into 16 and 4. */
  lemma PiecesOfBase(n: uint32)
    ensures To16(n) + To8(n / 0x1_0000) * 0x1_0000 + To8(n / 0x100_0000) * 0x100_0000 == n
  {
  }

  lemma PiecesOfLimit(n: int)
    requires 0 <= n < 0x10_0000
    ensures To16(n) + To4(n / 0x1_0000) * 0x1_0000 == n
  {
  }

  lemma CreatedSegment(f: Fields, base: uint32, limit: uint32, scaled: nat, level: uint2)
    requires scaled == if limit > 0xFFFF then limit / 0x1000 else limit
    requires f.granularity == if limit > 0xFFFF then 1 else 0
    requires f.segLimit1 == To16(scaled) && f.segLimit2 == To4(scaled / 0x1_0000)
    requires f.baseAddress1 == To16(base) && f.baseAddress2 == To8(base / 0x1_0000)
    requires f.baseAddress3 == To8(base / 0x100_0000)
    requires f.isCodeOrData == f.segmentPresent == f.opSize == f.readableWritable == 1
    requires f.privilegeLevel == level && f.mode64Bit == 0
    ensures Decode(Pack(BitFields(f)))
         == Segment(base, if limit <= 0xFFFF then limit else limit - limit % 0x1000 + 0xFFF,
                    true, true, level, f.codeSel == 1, true, false, true)
  {
    hide Decode, Pack, BitFields, To16, To8, To4;
    DecodeOfFields(f);
    PiecesOfBase(base);
    PiecesOfLimit(scaled);
  }

  class Descriptor {
    var segLimit1: uint16
    var baseAddress1: uint16
    var baseAddress2: byte
    var accessed: bit
    var readableWritable: bit
    var directionConforming: bit
    var codeSel: bit
    var isCodeOrData: bit
    var privilegeLevel: uint2
    var segmentPresent: bit
    var segLimit2: uint4
    var availableSystemSoftware: bit
    var mode64Bit: bit
    var opSize: bit
    var granularity: bit
    var baseAddress3: byte

    function Contents(): Fields
      reads this
    {
      Fields(segLimit1, baseAddress1, baseAddress2, accessed, readableWritable, directionConforming, codeSel,
             isCodeOrData, privilegeLevel, segmentPresent, segLimit2, availableSystemSoftware, mode64Bit, opSize,
             granularity, baseAddress3)
    }

    /** The limit, in bytes or in units of 4 KiB. */
    method SetLimit(limit: uint32) returns (scaled: nat)
      modifies this`segLimit1, this`segLimit2, this`granularity
      ensures scaled == if limit > 0xFFFF then limit / 0x1000 else limit
      ensures granularity == if limit > 0xFFFF then 1 else 0
      ensures segLimit1 == To16(scaled) && segLimit2 == To4(scaled / 0x1_0000)
    {
      scaled := limit;
      if scaled > 0xFFFF {
        scaled := scaled / 0x1000;
        granularity := 1;
      } else {
        granularity := 0;
      }
      segLimit1 := To16(scaled);
      segLimit2 := To4(scaled / 0x1_0000);
    }

    method SetBase(base: uint32)
      modifies this`baseAddress1, this`baseAddress2, this`baseAddress3
      ensures baseAddress1 == To16(base) && baseAddress2 == To8(base / 0x1_0000) && baseAddress3 == To8(base / 0x100_0000)
    {
      baseAddress1 := To16(base);
      baseAddress2 := To8(base / 0x1_0000);
      baseAddress3 := To8(base / 0x100_0000);
    }

    /** What does not depend on base and limit. */
    method SetKind(privLevel: byte)
      modifies this`isCodeOrData, this`privilegeLevel, this`segmentPresent, this`availableSystemSoftware,
               this`mode64Bit, this`opSize, this`readableWritable
      ensures isCodeOrData == segmentPresent == opSize == readableWritable == 1
      ensures privilegeLevel == To2(privLevel) && availableSystemSoftware == mode64Bit == 0
    {
      isCodeOrData := 1;
      privilegeLevel := To2(privLevel);
      segmentPresent := 1;
      availableSystemSoftware := 0;
      mode64Bit := 0;
      opSize := 1;
      readableWritable := 1;
    }

    /** gdt_segment_create(): what it does not assign (accessed, direction, code) stays. */
    method SegmentCreate(base: uint32, limit: uint32, privLevel: byte)
      modifies this
      ensures Decode(Pack(BitFields(Contents())))
           == Segment(base, if limit <= 0xFFFF then limit else limit - limit % 0x1000 + 0xFFF,
                      true, true, privLevel % 4, old(codeSel) == 1, true, false, true)
      ensures accessed == old(accessed) && directionConforming == old(directionConforming) && codeSel == old(codeSel)
    {
      hide Pack, BitFields, Decode, To16, To8, To4;
      var scaled := SetLimit(limit);
      SetBase(base);
      SetKind(privLevel);
      CreatedSegment(Contents(), base, limit, scaled, To2(privLevel));
    }
  }

  /** What a caller gets: every base and every limit up to 64 KiB exactly, larger limits rounded up by less than 4 KiB. */
  lemma LimitRounding(limit: uint32, granted: int)
    requires granted == if limit <= 0xFFFF then limit else limit - limit % 0x1000 + 0xFFF
    ensures limit <= granted <= limit + 0xFFF
    ensures granted == limit <==> (limit <= 0xFFFF || limit % 0x1000 == 0xFFF)
  {
  }
}
