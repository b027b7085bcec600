/**
  number(): one integer, rendered with sign, base prefix, precision and width.
  `NumberText` says what the text is; the method writes it into a buffer the way the C code does,
  counting `size` and `precision` down.
 */
module Numbers {
  import opened CInt
  import opened Digits

  /** The bits of the C code's `flags` word, one by one. */
  datatype Flags = Flags(zeropad: bool, sign: bool, plus: bool, space: bool, left: bool, small: bool, special: bool)

  const NO_FLAGS := Flags(false, false, false, false, false, false, false)

  datatype Option<+T> = None | Some(value: T)

  // ---------------------------------------------------------------- what is printed

  function SignText(num: int, flags: Flags): (s: string)
    ensures |s| <= 1
  {
    if !flags.sign then ""
    else if num < 0 then "-"
    else if flags.plus then "+"
    else if flags.space then " "
    else ""
  }

  function PrefixText(base: int, flags: Flags): (s: string)
    ensures |s| <= 2
  {
    if !flags.special then ""
    else if base == 8 then "0"
    else if base == 16 then (if flags.small then "0x" else "0X")
    else ""
  }

  /** The number whose digits are printed: `-num` wraps at the least `long`, and is then read unsigned. */
  function Magnitude(w: LongWidth, num: int, flags: Flags): (m: nat)
    ensures m < LongModulus(w)
  {
    UnsignedLong(w, if flags.sign && num < 0 then Long(w, -num) else num)
  }

  function DigitText(w: LongWidth, num: int, base: int, flags: Flags): string
    requires IsBase(base)
  {
    DigitsOf(Magnitude(w, num, flags), base, flags.small)
  }

  /** Sign, prefix and digits laid out: zeros up to the precision, padding up to the width in one place. */
  function Layout(sign: string, prefix: string, digits: string, size: int, precision: int, flags: Flags): string
  {
    var body := Fill('0', precision - |digits|) + digits;
    var pad := size - |sign| - |prefix| - |body|;
    if flags.left then sign + prefix + body + Fill(' ', pad)
    else if flags.zeropad then sign + prefix + Fill('0', pad) + body
    else Fill(' ', pad) + sign + prefix + body
  }

  function NumberText(w: LongWidth, num: int, base: int, size: int, precision: int, flags: Flags): string
    requires IsBase(base)
  {
    Layout(SignText(num, flags), PrefixText(base, flags), DigitText(w, num, base, flags), size, precision, flags)
  }

  // ---------------------------------------------------------------- how it is written

  /** The scratch digits, which come out least significant first. */
  function Reversed(s: string): (r: string)
    ensures |r| == |s|
    ensures forall k :: 0 <= k < |s| ==> r[k] == s[|s| - 1 - k]
  {
    seq(|s|, k requires 0 <= k < |s| => s[|s| - 1 - k])
  }

  ghost predicate Scratched(all: string, n: nat, base: int, small: bool, done: string)
    requires IsBase(base)
  {
    all == (if n == 0 then "" else DigitsOf(n, base, small)) + Reversed(done)
  }

  lemma ReversedAppend(s: string, c: char)
    ensures Reversed(s + [c]) == [c] + Reversed(s)
  {
  }

  lemma DigitsUnfold(n: nat, base: int, small: bool)
    requires IsBase(base) && n > 0
    ensures 0 <= n / base < n && 0 <= n % base < base
    ensures DigitsOf(n, base, small) ==
            (if n / base == 0 then "" else DigitsOf(n / base, base, small)) + [DigitChar(n % base, small)]
  {
    Shrinks(n, base);
    if n >= base {
      assert n / base != 0;
    } else {
      assert n / base == 0 && n % base == n;
      assert [DigitChar(n, small)] == "" + [DigitChar(n, small)];
    }
  }

  lemma DigitsOfZero(base: int, small: bool)
    requires IsBase(base)
    ensures DigitsOf(0, base, small) == "0"
  {
  }

  lemma ScratchStep(all: string, n: nat, base: int, small: bool, done: string, q: int, d: int)
    requires IsBase(base) && n > 0 && Scratched(all, n, base, small, done)
    requires q == n / base && d == n % base
    ensures 0 <= q < n && 0 <= d < base
    ensures Scratched(all, q, base, small, done + [DigitChar(d, small)])
    ensures |done| < |all|
  {
    hide DigitsOf, DigitChar;
    DigitsUnfold(n, base, small);
    var digit := DigitChar(d, small);
    ReversedAppend(done, digit);
    var front := if q == 0 then "" else DigitsOf(q, base, small);
    assert front + [digit] + Reversed(done) == front + ([digit] + Reversed(done));
  }

  /** Generates the digits of `num` into `tmp`, least significant first. */
  method ScratchDigits(w: LongWidth, tmp: array<char>, num: int, base: int, locase: bool) returns (i: nat)
    requires tmp.Length == 66 && IsBase(base)
    modifies tmp
    ensures i <= w
    ensures Reversed(tmp[..i]) == DigitsOf(UnsignedLong(w, num), base, locase)
  {
    hide DigitsOf, UnsignedLong, Pow2;
    var n := UnsignedLong(w, num);
    ghost var all := DigitsOf(n, base, locase);
    LongModulusIsPow2(w);
    DigitCountBound(n, base, locase, w);
    i := 0;
    if n == 0 {
      tmp[i] := '0';
      i := i + 1;
      DigitsOfZero(base, locase);
      assert Reversed(tmp[..1]) == "0";
    } else {
      while n != 0
        invariant 0 <= n && 0 <= i <= |all|
        invariant Scratched(all, n, base, locase, tmp[..i])
        decreases n
      {
        var quotient, d := n / base, n % base;
        ghost var before := tmp[..i];
        ScratchStep(all, n, base, locase, before, quotient, d);
        tmp[i] := if locase then OrSpace(DIGITS[d]) else DIGITS[d];
        i := i + 1;
        assert tmp[..i] == before + [DigitChar(d, locase)];
        n := quotient;
      }
    }
  }

  /** Nothing from index `from` on has changed. */
  twostate predicate Untouched(buf: array<char>, from: nat)
    reads buf
  {
    forall k :: from <= k < buf.Length ==> buf[k] == old(buf[k])
  }

  /** `*str++ = c` */
  method Put(buf: array<char>, str: nat, c: char) returns (next: nat)
    requires str < buf.Length
    modifies buf
    ensures next == str + 1 && buf[..next] == old(buf[..str]) + [c]
    ensures Untouched(buf, next)
  {
    buf[str] := c;
    next := str + 1;
  }

  /** `while (limit < n--) *str++ = c;` */
  method PadWhileAbove(buf: array<char>, str: nat, c: char, limit: int, count: int) returns (next: nat, n: int)
    requires str + |Fill(c, count - limit)| <= buf.Length
    modifies buf
    ensures next == str + |Fill(c, count - limit)|
    ensures buf[..next] == old(buf[..str]) + Fill(c, count - limit)
    ensures Untouched(buf, next)
    ensures n == (if count > limit then limit else count) - 1
  {
    next, n := str, count;
    while limit < n
      invariant if count > limit then limit <= n <= count else n == count
      invariant next == str + count - n
      invariant buf[..next] == old(buf[..str]) + Fill(c, count - n)
      invariant Untouched(buf, next)
    {
      n := n - 1;
      next := Put(buf, next, c);
    }
    n := n - 1;
  }

  /** `while (i-- > 0) *str++ = tmp[i];` */
  method PutScratch(buf: array<char>, str: nat, tmp: array<char>, count: nat) returns (next: nat)
    requires buf != tmp && count <= tmp.Length && str + count <= buf.Length
    modifies buf
    ensures next == str + count && buf[..next] == old(buf[..str]) + Reversed(tmp[..count])
    ensures Untouched(buf, next)
  {
    next := str;
    var i: int := count;
    ghost var all := Reversed(tmp[..count]);
    while i > 0
      invariant 0 <= i <= count && next == str + count - i
      invariant buf[..next] == old(buf[..str]) + all[..count - i]
      invariant Untouched(buf, next)
    {
      i := i - 1;
      next := Put(buf, next, tmp[i]);
    }
    assert all[..count] == all;
  }

  /** What number() writes before the precision's zeros: padding, sign, prefix, padding with zeros. */
  function Front(sign: string, prefix: string, size: int, ty: Flags): string
  {
    Fill(' ', if ty.zeropad || ty.left then 0 else size) + sign + prefix + Fill('0', if ty.zeropad then size else 0)
  }

  /** The text of a number as the code emits it, piece by piece, from the final `size`. */
  function Pieces(sign: string, prefix: string, digits: string, size: int, zeros: int, ty: Flags): string
  {
    Front(sign, prefix, size, ty) + Fill('0', zeros) + digits + Fill(' ', if ty.left then size else 0)
  }

  lemma PiecesAreLayout(sign: string, prefix: string, digits: string, size: int, precision: int, flags: Flags,
                        ty: Flags, room: int, extra: int)
    requires ty == if flags.left then flags.(zeropad := false) else flags
    requires extra == Max(precision, |digits|) - |digits|
    requires room == size - |sign| - |prefix| - |digits| - extra
    ensures Pieces(sign, prefix, digits, room, extra, ty) == Layout(sign, prefix, digits, size, precision, flags)
  {
    hide Fill;
    var zeros := Fill('0', extra);
    assert Fill('0', precision - |digits|) == zeros by { NothingToFill(precision - |digits|); NothingToFill(0); }
    NothingToFill(0);
    var lead, mid := Fill(' ', if ty.zeropad || ty.left then 0 else room), Fill('0', if ty.zeropad then room else 0);
    var trail := Fill(' ', if ty.left then room else 0);
    assert |lead| == 0 ==> lead + sign == sign;
    JoinBody(lead + sign + prefix + mid, zeros, digits, trail);
  }

  lemma JoinBody(front: string, zeros: string, digits: string, trail: string)
    ensures front + zeros + digits + trail == front + (zeros + digits) + trail
  {
    assert front + zeros + digits == front + (zeros + digits);
  }

  lemma Regroup(o: string, a: string, b: string, c: string, d: string)
    ensures o + a + b + c + d == o + (a + b + c + d)
  {
    assert o + a + b == o + (a + b);
    assert o + (a + b) + c == o + (a + b + c);
  }

  method EmitFront(buf: array<char>, start: nat, sign: char, base: int, size: int, ty: Flags, ghost signText: string)
    returns (str: nat, n: int)
    requires signText == (if sign == '\0' then "" else [sign]) && !(ty.zeropad && ty.left)
    requires start + |Front(signText, PrefixText(base, ty), size, ty)| <= buf.Length
    modifies buf
    ensures str == start + |Front(signText, PrefixText(base, ty), size, ty)|
    ensures buf[..str] == old(buf[..start]) + Front(signText, PrefixText(base, ty), size, ty)
    ensures Untouched(buf, str) && if ty.left then n == size else n < 0
  {
    hide PrefixText, Fill;
    NothingToFill(0);
    NothingToFill(size);
    ghost var prefix := PrefixText(base, ty);
    ghost var lead := Fill(' ', if ty.zeropad || ty.left then 0 else size);
    ghost var mid := Fill('0', if ty.zeropad then size else 0);
    assert |Front(signText, prefix, size, ty)| == |lead| + |signText| + |prefix| + |mid|;
    var c := if ty.zeropad then '0' else ' ';
    str, n := PadUnless(ty.zeropad || ty.left, buf, start, ' ', 0, size);
    assert buf[..str] == old(buf[..start]) + lead;
    str := PutSign(buf, str, sign, signText);
    str := PutPrefix(buf, str, base, ty);
    ghost var before := buf[..str];
    assert before == old(buf[..start]) + lead + signText + prefix;
    str, n := PadUnless(ty.left, buf, str, c, 0, n);
    assert buf[..str] == before + mid;
    JoinFront(old(buf[..start]), lead, signText, prefix, mid);
  }

  lemma JoinFront(o: string, lead: string, sign: string, prefix: string, mid: string)
    ensures o + lead + sign + prefix + mid == o + (lead + sign + prefix + mid)
  {
    assert o + lead + sign == o + (lead + sign);
    assert o + (lead + sign) + prefix == o + (lead + sign + prefix);
  }

  /** `if (!skip) while (limit < n--) *str++ = c;` */
  method PadUnless(skip: bool, buf: array<char>, str: nat, c: char, limit: int, count: int) returns (next: nat, n: int)
    requires str + |Fill(c, if skip then 0 else count - limit)| <= buf.Length
    modifies buf
    ensures next == str + |Fill(c, if skip then 0 else count - limit)|
    ensures buf[..next] == old(buf[..str]) + Fill(c, if skip then 0 else count - limit)
    ensures Untouched(buf, next)
    ensures n == if skip then count else (if count > limit then limit else count) - 1
  {
    next, n := str, count;
    if !skip {
      next, n := PadWhileAbove(buf, next, c, limit, n);
    }
  }

  /** The writing half of number(): everything after the digits have been generated. */
  method EmitNumber(buf: array<char>, start: nat, tmp: array<char>, i: nat,
                    sign: char, base: int, size: int, precision: int, ty: Flags, ghost text: string)
    returns (end: nat)
    requires buf != tmp && i <= tmp.Length && i <= precision && !(ty.zeropad && ty.left)
    requires text == Pieces(if sign == '\0' then "" else [sign], PrefixText(base, ty), Reversed(tmp[..i]),
                            size, precision - i, ty)
    requires start + |text| <= buf.Length
    modifies buf
    ensures end == start + |text| && buf[..end] == old(buf[..start]) + text
    ensures Untouched(buf, end)
  {
    hide PrefixText, Front, Fill;
    ghost var signText, prefix, digits := if sign == '\0' then "" else [sign], PrefixText(base, ty), Reversed(tmp[..i]);
    ghost var front: string := Front(signText, prefix, size, ty);
    ghost var zeros, trail := Fill('0', precision - i), Fill(' ', if ty.left then size else 0);
    var p := precision;
    var str, n := EmitFront(buf, start, sign, base, size, ty, signText);
    assert Fill(' ', n) == trail by { NothingToFill(n); NothingToFill(0); }
    str, p := PadWhileAbove(buf, str, '0', i, p);
    str := PutScratch(buf, str, tmp, i);
    end, n := PadWhileAbove(buf, str, ' ', 0, n);
    assert buf[..end] == old(buf[..start]) + front + zeros + digits + trail;
    Regroup(old(buf[..start]), front, zeros, digits, trail);
  }

  lemma NothingToFill(n: int)
    ensures n <= 0 ==> Fill(' ', n) == "" && Fill('0', n) == ""
  {
  }

  method PutSign(buf: array<char>, str: nat, sign: char, ghost signText: string) returns (next: nat)
    requires signText == (if sign == '\0' then "" else [sign]) && str + |signText| <= buf.Length
    modifies buf
    ensures next == str + |signText| && buf[..next] == old(buf[..str]) + signText
    ensures Untouched(buf, next)
  {
    next := str;
    if sign != '\0' {
      next := Put(buf, next, sign);
    }
  }

  method PutPrefix(buf: array<char>, str: nat, base: int, ty: Flags) returns (next: nat)
    requires str + |PrefixText(base, ty)| <= buf.Length
    modifies buf
    ensures next == str + |PrefixText(base, ty)| && buf[..next] == old(buf[..str]) + PrefixText(base, ty)
    ensures Untouched(buf, next)
  {
    next := str;
    if ty.special {
      if base == 8 {
        next := Put(buf, next, '0');
      } else if base == 16 {
        next := Put(buf, next, '0');
        next := Put(buf, next, if ty.small then OrSpace('X') else 'X');
      }
    }
  }

  /** The sign character, the number left to print and the width left: the first half of number(). */
  method TakeSignAndPrefix(w: LongWidth, num: int, base: int, size: int, ty: Flags)
    returns (sign: char, num': int, size': int)
    requires IsLong(w, num)
    ensures (if sign == '\0' then "" else [sign]) == SignText(num, ty)
    ensures UnsignedLong(w, num') == Magnitude(w, num, ty)
    ensures size' == size - |SignText(num, ty)| - |PrefixText(base, ty)|
  {
    sign, num', size' := '\0', num, size;
    if ty.sign {
      if num' < 0 {
        sign := '-';
        num' := Long(w, -num');
        size' := size' - 1;
      } else if ty.plus {
        sign := '+';
        size' := size' - 1;
      } else if ty.space {
        sign := ' ';
        size' := size' - 1;
      }
    }
    if ty.special {
      if base == 16 {
        size' := size' - 2;
      } else if base == 8 {
        size' := size' - 1;
      }
    }
  }

  /** number() past its check of the base. */
  method NumberInBase(w: LongWidth, buf: array<char>, start: nat, num: int, base: int, size: int, precision: int,
                      flags: Flags, ty: Flags, ghost text: string)
    returns (end: nat)
    requires IsLong(w, num) && IsBase(base) && ty == if flags.left then flags.(zeropad := false) else flags
    requires text == Layout(SignText(num, ty), PrefixText(base, ty), DigitText(w, num, base, ty), size, precision, flags)
    requires start + |text| <= buf.Length
    modifies buf
    ensures end == start + |text| && buf[..end] == old(buf[..start]) + text
    ensures Untouched(buf, end)
  {
    hide Layout, SignText, PrefixText, Magnitude, DigitsOf, Pieces;
    var tmp := new char[66];
    var sign, num', size' := TakeSignAndPrefix(w, num, base, size, ty);
    var i := ScratchDigits(w, tmp, num', base, ty.small);
    var precision' := if i > precision then i else precision;
    size' := size' - precision';
    ghost var digits := DigitText(w, num, base, ty);
    assert Reversed(tmp[..i]) == digits;
    PiecesAreLayout(SignText(num, ty), PrefixText(base, ty), digits, size, precision, flags, ty, size', precision' - i);
    assert buf[..] == old(buf[..]) && buf[..start] == old(buf[..start]);
    end := EmitNumber(buf, start, tmp, i, sign, base, size', precision', ty, text);
  }

  method Number(w: LongWidth, buf: array<char>, start: nat,
                num: int, base: int, size: int, precision: int, flags: Flags)
    returns (end: Option<nat>)
    requires IsLong(w, num) && start <= buf.Length
    requires IsBase(base) ==> start + |NumberText(w, num, base, size, precision, flags)| <= buf.Length
    modifies buf
    ensures end == if IsBase(base) then Some(start + |NumberText(w, num, base, size, precision, flags)|) else None
    ensures IsBase(base) ==> buf[..end.value] == old(buf[..start]) + NumberText(w, num, base, size, precision, flags)
    ensures Untouched(buf, if IsBase(base) then end.value else 0)
  {
    var ty := flags;
    if ty.left { ty := ty.(zeropad := false); }
    if base < 2 || base > 16 { return None; }
    var str := NumberInBase(w, buf, start, num, base, size, precision, flags, ty,
                            NumberText(w, num, base, size, precision, flags));
    return Some(str);
  }
}
