/** Linear sector numbers and cylinder / head / sector addresses. */
module Chs {

  /** A drive geometry; `heads * sectors` sectors make a cylinder, sectors are numbered from 1. */
  datatype Geometry = Geometry(heads: nat, sectors: nat) {
    predicate Valid() { heads >= 1 && sectors >= 1 }
  }

  datatype Address = Address(cylinder: nat, head: nat, sector: nat) {
    predicate In(g: Geometry) { head < g.heads && 1 <= sector <= g.sectors }
  }

  /** The address the loader computes for a linear sector number. */
  function AddressOf(lba: nat, g: Geometry): Address
    requires g.Valid()
  {
    MulPositive(g.heads, g.sectors);
    Address(lba / (g.heads * g.sectors), (lba / g.sectors) % g.heads, lba % g.sectors + 1)
  }

  /** The linear sector number of an address, by the CHS addressing convention. */
  function LbaOf(a: Address, g: Geometry): int
  {
    (a.cylinder * g.heads + a.head) * g.sectors + (a.sector - 1)
  }

  lemma MulPositive(a: nat, b: nat)
    requires a >= 1 && b >= 1
    ensures a * b >= 1
  {
  }

  lemma MulAtLeast(k: int, d: int)
    requires d >= 1
    ensures (k >= 1 ==> k * d >= d) && (k <= -1 ==> k * d <= -d)
  {
  }

  /** Quotient and remainder are the only way to write `n` as `q * d + r` with `0 <= r < d`. */
  lemma DivModUnique(n: int, d: int, q: int, r: int)
    requires d >= 1 && n == q * d + r && 0 <= r < d
    ensures n / d == q && n % d == r
  {
    var k := n / d - q;
    assert n == (n / d) * d + n % d;
    assert k * d == (n / d) * d - q * d;
    MulAtLeast(k, d);
  }

  lemma Distribute(x: nat, y: nat, z: nat)
    ensures (x + y) * z == x * z + y * z && x * z >= 0 && y * z >= 0
  {
  }

  lemma Associate(x: nat, y: nat, z: nat)
    ensures x * y * z == x * (y * z)
  {
  }

  lemma Recompose(c: nat, h: nat, s: nat, r1: nat, r2: nat)
    requires r1 < h && r2 < s
    ensures (c * h + r1) * s + r2 == c * (h * s) + (r1 * s + r2)
    ensures 0 <= r1 * s + r2 < h * s
  {
    Distribute(c * h, r1, s);
    Associate(c, h, s);
    Distribute(h - 1 - r1, r1 + 1, s);
    Distribute(r1, 1, s);
  }

  lemma QuotientOfProduct(n: nat, s: nat, h: nat, t: nat, r2: nat, c: nat, r1: nat)
    requires s >= 1 && h >= 1 && r2 < s && r1 < h && n == t * s + r2 && t == c * h + r1
    ensures h * s >= 1 && n / (h * s) == c
  {
    MulPositive(h, s);
    Recompose(c, h, s, r1, r2);
    DivModUnique(n, h * s, c, r1 * s + r2);
  }

  lemma DivMod(n: nat, d: nat)
    requires d >= 1
    ensures n == (n / d) * d + n % d && n / d >= 0 && 0 <= n % d < d
  {
    QuotientAtMost(n, d);
  }

  /** Dividing by a product is dividing twice. */
  lemma DivTwice(n: nat, s: nat, h: nat)
    requires s >= 1 && h >= 1
    ensures h * s >= 1 && n / (h * s) == (n / s) / h
  {
    DivMod(n, s);
    DivMod(n / s, h);
    QuotientOfProduct(n, s, h, n / s, n % s, n / s / h, n / s % h);
  }

  /** Every linear number has an address in range that leads back to it... */
  lemma LbaRoundTrip(lba: nat, g: Geometry)
    requires g.Valid()
    ensures AddressOf(lba, g).In(g) && LbaOf(AddressOf(lba, g), g) == lba
  {
    var t := lba / g.sectors;
    DivTwice(lba, g.sectors, g.heads);
    assert lba == t * g.sectors + lba % g.sectors;
    assert t == (t / g.heads) * g.heads + t % g.heads;
  }

  /** ...and every address in range comes from its linear number: the two are inverse bijections. */
  lemma AddressRoundTrip(a: Address, g: Geometry)
    requires g.Valid() && a.In(g)
    ensures LbaOf(a, g) >= 0 && AddressOf(LbaOf(a, g), g) == a
  {
    var t := a.cylinder * g.heads + a.head;
    var lba := LbaOf(a, g);
    assert a.cylinder * g.heads >= 0;
    assert t * g.sectors >= 0;
    DivModUnique(lba, g.sectors, t, a.sector - 1);
    DivModUnique(t, g.heads, a.cylinder, a.head);
    DivTwice(lba, g.sectors, g.heads);
  }

  /** A byte-sized sector number and geometry give a byte-sized address. */
  lemma AddressFitsBytes(lba: nat, g: Geometry)
    requires g.Valid() && lba < 256 && g.heads < 256 && g.sectors < 256
    ensures AddressOf(lba, g).cylinder < 256 && AddressOf(lba, g).head < 256 && AddressOf(lba, g).sector < 256
  {
    LbaRoundTrip(lba, g);
    MulPositive(g.heads, g.sectors);
    QuotientAtMost(lba, g.heads * g.sectors);
  }

  lemma QuotientAtMost(n: nat, d: nat)
    requires d >= 1
    ensures 0 <= n / d <= n
  {
    assert n == (n / d) * d + n % d;
    if n / d >= 0 { assert (n / d) * d >= n / d; } else { MulAtLeast(n / d, d); }
  }
}
