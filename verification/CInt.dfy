/** The fixed-width integers of the C sources: two's complement, wrapping. */
module CInt {
  /** Bits in a `long` (and in a pointer): 32 in stages 2 to 4, 64 in stage 5. */
  type LongWidth = w: nat | w == 32 || w == 64 witness 32

  type int32 = x: int | -0x8000_0000 <= x < 0x8000_0000

  type byte = x: int | 0 <= x < 0x100

  function Pow2(k: nat): (p: nat)
    ensures p >= 1
  {
    if k == 0 then 1 else 2 * Pow2(k - 1)
  }

  function LongModulus(w: LongWidth): nat
  {
    if w == 32 then 0x1_0000_0000 else 0x1_0000_0000_0000_0000
  }

  lemma {:induction false} Pow2Add(a: nat, b: nat)
    ensures Pow2(a + b) == Pow2(a) * Pow2(b)
  {
    if a > 0 { Pow2Add(a - 1, b); }
  }

  lemma Pow2Of8()
    ensures Pow2(8) == 0x100
  {
    assert Pow2(4) == 0x10;
  }

  lemma LongModulusIsPow2(w: LongWidth)
    ensures LongModulus(w) == Pow2(w)
  {
    hide Pow2;
    Pow2Of8();
    Pow2Add(8, 8);
    Pow2Add(16, 16);
    Pow2Add(32, 32);
  }

  function Min(a: int, b: int): int { if a <= b then a else b }

  function Max(a: int, b: int): int { if a >= b then a else b }

  function UnsignedShort(v: int): nat { v % 0x1_0000 }

  function UnsignedInt(v: int): nat { v % 0x1_0000_0000 }

  function UnsignedLong(w: LongWidth, v: int): (u: nat)
    ensures u < LongModulus(w)
  {
    if w == 32 then v % 0x1_0000_0000 else v % 0x1_0000_0000_0000_0000
  }

  function Short(v: int): int
  {
    var u := UnsignedShort(v);
    if u < 0x8000 then u else u - 0x1_0000
  }

  function Int(v: int): int32
  {
    var u := UnsignedInt(v);
    if u < 0x8000_0000 then u else u - 0x1_0000_0000
  }

  lemma UnsignedOfNatural(w: LongWidth, n: nat)
    requires n < LongModulus(w)
    ensures UnsignedLong(w, n) == n
  {
  }

  function Long(w: LongWidth, v: int): (n: int)
    ensures IsLong(w, n)
    ensures UnsignedLong(w, n) == UnsignedLong(w, v)
    ensures IsLong(w, v) ==> n == v
  {
    var u := UnsignedLong(w, v);
    if u < LongModulus(w) / 2 then u else u - LongModulus(w)
  }

  predicate IsLong(w: LongWidth, v: int)
  {
    -(LongModulus(w) / 2) <= v < LongModulus(w) / 2
  }
}
