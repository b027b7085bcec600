/** Digit strings: how a magnitude is spelled in a base, and how such a spelling is read back. */
module Digits {
  import opened CInt

  const DIGITS: string := "0123456789ABCDEF"

  predicate IsBase(base: int) { 2 <= base <= 16 }

  /** `c | 0x20`, which turns a capital letter into a small one and leaves decimal digits alone. */
  function OrSpace(c: char): char
    requires c < 128 as char
  {
    if (c as int / 32) % 2 == 1 then c else (c as int + 32) as char
  }

  function DigitChar(d: nat, small: bool): (c: char)
    requires d < 16
    ensures DigitVal(c) == d && IsDigitChar(c)
    ensures d < 10 ==> IsDecimal(c)
  {
    if small then OrSpace(DIGITS[d]) else DIGITS[d]
  }

  predicate IsDecimal(c: char) { '0' <= c <= '9' }

  predicate IsDigitChar(c: char)
  {
    IsDecimal(c) || 'A' <= c <= 'F' || 'a' <= c <= 'f'
  }

  function DigitVal(c: char): (d: nat)
    ensures d < 16
  {
    if IsDecimal(c) then c as int - '0' as int
    else if 'A' <= c <= 'F' then c as int - 'A' as int + 10
    else if 'a' <= c <= 'f' then c as int - 'a' as int + 10
    else 0
  }

  /** The digits of `n`, most significant first, without leading zeros; "0" for zero. */
  function DigitsOf(n: nat, base: int, small: bool): (s: string)
    requires IsBase(base)
    ensures |s| >= 1 && AllDigits(s)
    decreases n
  {
    if n < base then [DigitChar(n, small)]
    else
      Shrinks(n, base);
      DigitsOf(n / base, base, small) + [DigitChar(n % base, small)]
  }

  ghost predicate AllDigits(s: string)
  {
    forall i :: 0 <= i < |s| ==> IsDigitChar(s[i])
  }

  lemma QuotientBounds(n: nat, base: int, q: int, r: int)
    requires base >= 2 && n > 0 && n == q * base + r && 0 <= r < base
    ensures 0 <= q < n && 2 * q <= n
  {
    if q < 0 { MulLe(q, -1, base); } else { MulLe(2, base, q); }
  }

  lemma MulLe(a: int, b: int, c: int)
    requires a <= b && c >= 0
    ensures a * c <= b * c
  {
  }

  lemma Shrinks(n: nat, base: int)
    requires base >= 2 && n > 0
    ensures 0 <= n / base < n && 0 <= n % base < base
    ensures n == (n / base) * base + n % base
    ensures 2 * (n / base) <= n
  {
    QuotientBounds(n, base, n / base, n % base);
  }

  /** What a digit string is worth in a base. */
  function Eval(s: string, base: int): (n: int)
  {
    if s == [] then 0 else Eval(s[..|s| - 1], base) * base + DigitVal(s[|s| - 1])
  }

  lemma {:induction false} EvalOfDigits(n: nat, base: int, small: bool)
    requires IsBase(base)
    ensures Eval(DigitsOf(n, base, small), base) == n
    decreases n
  {
    var s := DigitsOf(n, base, small);
    if n < base {
      assert s[..0] == [];
    } else {
      Shrinks(n, base);
      EvalOfDigits(n / base, base, small);
      assert s[..|s| - 1] == DigitsOf(n / base, base, small);
    }
  }

  /** A magnitude below 2^k takes at most k digits in any base: the scratch buffer bound. */
  lemma {:induction false} DigitCountBound(n: nat, base: int, small: bool, k: nat)
    requires IsBase(base) && k >= 1 && n < Pow2(k)
    ensures |DigitsOf(n, base, small)| <= k
    decreases k
  {
    if n >= base {
      Shrinks(n, base);
      if k > 1 {
        DigitCountBound(n / base, base, small, k - 1);
      }
    }
  }

  lemma {:induction false} NoLeadingZero(n: nat, base: int, small: bool)
    requires IsBase(base) && n > 0
    ensures DigitVal(DigitsOf(n, base, small)[0]) != 0
    decreases n
  {
    if n >= base {
      Shrinks(n, base);
      NoLeadingZero(n / base, base, small);
    }
  }

  lemma {:induction false} DecimalDigits(n: nat, small: bool)
    ensures forall i :: 0 <= i < |DigitsOf(n, 10, small)| ==> IsDecimal(DigitsOf(n, 10, small)[i])
    decreases n
  {
    if n >= 10 {
      DecimalDigits(n / 10, small);
    }
  }

  /** `n` copies of `c`; none when `n` is negative. */
  function Fill(c: char, n: int): (s: string)
    ensures |s| == (if n < 0 then 0 else n)
    ensures forall i :: 0 <= i < |s| ==> s[i] == c
  {
    if n <= 0 then "" else Fill(c, n - 1) + [c]
  }

  lemma {:induction false} EvalLeadingZeros(k: int, s: string, base: int)
    ensures Eval(Fill('0', k) + s, base) == Eval(s, base)
    decreases |s|, k
  {
    var z := Fill('0', k);
    var t := z + s;
    if s == [] {
      if k > 0 {
        assert t[..|t| - 1] == Fill('0', k - 1) + [];
        EvalLeadingZeros(k - 1, [], base);
        assert Eval([], base) == 0;
        assert Eval(t[..|t| - 1], base) == 0;
      }
    } else {
      assert t[..|t| - 1] == z + s[..|s| - 1];
      EvalLeadingZeros(k, s[..|s| - 1], base);
    }
  }
}
