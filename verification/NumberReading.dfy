/** What number() prints can be read back: its shape, its length, and a reader that undoes it. */
module NumberReading {
  import opened CInt
  import opened Digits
  import opened Numbers

  /** Spaces, sign, prefix, zeros, digits, spaces; at most one of the three paddings is there. */
  lemma NumberShape(w: LongWidth, num: int, base: int, size: int, precision: int, flags: Flags)
    returns (before: nat, inside: nat, after: nat, zeros: nat)
    requires IsBase(base)
    ensures NumberText(w, num, base, size, precision, flags)
         == Fill(' ', before) + SignText(num, flags) + PrefixText(base, flags)
            + Fill('0', inside + zeros) + DigitText(w, num, base, flags) + Fill(' ', after)
    ensures zeros == Max(0, precision - |DigitText(w, num, base, flags)|)
    ensures inside > 0 ==> flags.zeropad && !flags.left && before == after == 0
    ensures before > 0 ==> !flags.zeropad && !flags.left && inside == after == 0
    ensures after > 0 ==> flags.left && before == inside == 0
    ensures before + inside + after
         == Max(0, size - |SignText(num, flags)| - |PrefixText(base, flags)| - |DigitText(w, num, base, flags)| - zeros)
  {
    var sign, prefix, digits := SignText(num, flags), PrefixText(base, flags), DigitText(w, num, base, flags);
    zeros := Max(0, precision - |digits|);
    var pad := Max(0, size - |sign| - |prefix| - |digits| - zeros);
    before := if flags.zeropad || flags.left then 0 else pad;
    inside := if flags.zeropad && !flags.left then pad else 0;
    after := if flags.left then pad else 0;
    LayoutShape(sign, prefix, digits, size, precision, flags, before, inside, after, zeros);
  }

  lemma LayoutShape(sign: string, prefix: string, digits: string, size: int, precision: int, flags: Flags,
                    before: nat, inside: nat, after: nat, zeros: nat)
    requires zeros == Max(0, precision - |digits|)
    requires var pad := Max(0, size - |sign| - |prefix| - |digits| - zeros);
             && before == (if flags.zeropad || flags.left then 0 else pad)
             && inside == (if flags.zeropad && !flags.left then pad else 0)
             && after == if flags.left then pad else 0
    ensures Layout(sign, prefix, digits, size, precision, flags)
         == Fill(' ', before) + sign + prefix + Fill('0', inside + zeros) + digits + Fill(' ', after)
  {
    hide Layout;
    var ty := if flags.left then flags.(zeropad := false) else flags;
    var room := size - |sign| - |prefix| - |digits| - zeros;
    PiecesAreLayout(sign, prefix, digits, size, precision, flags, ty, room, zeros);
    FillAdds(inside, zeros);
    PiecesMerge(Fill(' ', before), sign, prefix, Fill('0', inside), Fill('0', zeros), digits, Fill(' ', after));
    assert Fill(' ', if ty.zeropad || ty.left then 0 else room) == Fill(' ', before);
    assert Fill('0', if ty.zeropad then room else 0) == Fill('0', inside);
    assert Fill(' ', if ty.left then room else 0) == Fill(' ', after);
  }

  lemma FillAdds(a: nat, b: nat)
    ensures Fill('0', a) + Fill('0', b) == Fill('0', a + b)
  {
  }

  lemma PiecesMerge(a: string, b: string, c: string, d: string, e: string, f: string, g: string)
    ensures a + b + c + d + e + f + g == a + b + c + (d + e) + f + g
  {
    assert a + b + c + d + e == a + b + c + (d + e);
  }

  lemma NumberLength(w: LongWidth, num: int, base: int, size: int, precision: int, flags: Flags)
    requires IsBase(base)
    ensures |NumberText(w, num, base, size, precision, flags)|
         == Max(size, |SignText(num, flags)| + |PrefixText(base, flags)|
                      + Max(|DigitText(w, num, base, flags)|, precision))
  {
    var a, b, c, z := NumberShape(w, num, base, size, precision, flags);
  }

  // ---------------------------------------------------------------- a reader

  function SkipSpaces(s: string): string
  {
    if s != [] && s[0] == ' ' then SkipSpaces(s[1..]) else s
  }

  /** The longest prefix of `s` made of digit characters. */
  function DigitRun(s: string): string
  {
    if s != [] && IsDigitChar(s[0]) then [s[0]] + DigitRun(s[1..]) else []
  }

  /** Reads a number in `base`: blanks, an optional sign, an "0x" if one is expected, digits. */
  function ReadNumber(s: string, base: int, hexPrefix: bool): int
  {
    var t := SkipSpaces(s);
    var signed := t != [] && (t[0] == '-' || t[0] == '+');
    var u := if signed then t[1..] else t;
    var v := if hexPrefix && |u| >= 2 then u[2..] else u;
    var m := Eval(DigitRun(v), base);
    if signed && t[0] == '-' then -m else m
  }

  lemma {:induction false} SkipSpacesFill(n: nat, s: string)
    requires s == [] || s[0] != ' '
    ensures SkipSpaces(Fill(' ', n) + s) == s
  {
    var t := Fill(' ', n) + s;
    if n > 0 {
      assert t[1..] == Fill(' ', n - 1) + s;
      SkipSpacesFill(n - 1, s);
    } else {
      assert t == s;
    }
  }

  lemma {:induction false} DigitRunStops(s: string, rest: string)
    requires AllDigits(s) && (rest == [] || !IsDigitChar(rest[0]))
    ensures DigitRun(s + rest) == s
  {
    if s == [] {
      assert s + rest == rest;
    } else {
      assert (s + rest)[1..] == s[1..] + rest;
      DigitRunStops(s[1..], rest);
    }
  }

  /** Reading "zeros, digits, blanks" gives the value of the digits. */
  lemma ReadDigits(zeros: nat, digits: string, after: nat, base: int)
    requires AllDigits(digits)
    ensures Eval(DigitRun(Fill('0', zeros) + digits + Fill(' ', after)), base) == Eval(digits, base)
  {
    DigitRunStops(Fill('0', zeros) + digits, Fill(' ', after));
    EvalLeadingZeros(zeros, digits, base);
  }

  /** Past the sign: dropping a hexadecimal prefix, or reading an octal one as a digit, leaves the value. */
  lemma ReadUnsigned(prefix: string, zeros: nat, digits: string, after: nat, base: int, u: string)
    requires prefix in ["", "0", "0x", "0X"] && AllDigits(digits)
    requires u == prefix + (Fill('0', zeros) + digits + Fill(' ', after))
    ensures Eval(DigitRun(if |prefix| == 2 then u[2..] else u), base) == Eval(digits, base)
  {
    hide DigitRun, Eval;
    var tail := Fill('0', zeros) + digits + Fill(' ', after);
    if prefix == "0" {
      ReadDigits(zeros + 1, digits, after, base);
      assert u == Fill('0', zeros + 1) + digits + Fill(' ', after);
    } else {
      ReadDigits(zeros, digits, after, base);
      assert (if |prefix| == 2 then u[2..] else u) == tail;
    }
  }

  /** Before the digits: blanks, one of which may be the sign. */
  lemma ReadBlanks(before: nat, sign: string, u: string, text: string)
    requires sign in ["", "-", "+", " "] && u != [] && u[0] != ' ' && u[0] != '-' && u[0] != '+'
    requires text == Fill(' ', before) + sign + u
    ensures SkipSpaces(text) == if sign == " " then u else sign + u
  {
    if sign == " " {
      assert text == Fill(' ', before + 1) + u;
      SkipSpacesFill(before + 1, u);
    } else {
      assert text == Fill(' ', before) + (sign + u);
      SkipSpacesFill(before, sign + u);
    }
  }

  lemma ShapeSplits(before: nat, sign: string, prefix: string, zeros: nat, digits: string, after: nat,
                    text: string, u: string)
    requires prefix in ["", "0", "0x", "0X"] && |digits| >= 1 && AllDigits(digits)
    requires text == Fill(' ', before) + sign + prefix + Fill('0', zeros) + digits + Fill(' ', after)
    requires u == prefix + (Fill('0', zeros) + digits + Fill(' ', after))
    ensures text == Fill(' ', before) + sign + u && u != [] && IsDigitChar(u[0])
  {
    var tail := Fill('0', zeros) + digits + Fill(' ', after);
    Regrouped(Fill(' ', before), sign, prefix, Fill('0', zeros), digits, Fill(' ', after));
    assert tail[0] == if zeros == 0 then digits[0] else '0';
    assert u[0] == if prefix == "" then tail[0] else '0';
  }

  lemma Regrouped(a: string, b: string, c: string, d: string, e: string, f: string)
    ensures a + b + c + d + e + f == a + b + (c + (d + e + f))
  {
    assert a + b + c + d + e + f == a + b + c + (d + e + f);
  }

  lemma ReadSigned(sign: string, u: string, text: string, base: int, hexPrefix: bool)
    requires sign in ["", "-", "+", " "] && u != [] && IsDigitChar(u[0])
    requires SkipSpaces(text) == if sign == " " then u else sign + u
    ensures var m := Eval(DigitRun(if hexPrefix && |u| >= 2 then u[2..] else u), base);
            ReadNumber(text, base, hexPrefix) == if sign == "-" then -m else m
  {
    if sign == "-" || sign == "+" { assert (sign + u)[1..] == u; } else { assert sign == "" ==> sign + u == u; }
  }

  /** The reader against any text of the printed shape. */
  lemma ReadShape(before: nat, sign: string, prefix: string, zeros: nat, digits: string, after: nat, base: int,
                  text: string)
    requires sign in ["", "-", "+", " "] && prefix in ["", "0", "0x", "0X"]
    requires |digits| >= 1 && AllDigits(digits)
    requires text == Fill(' ', before) + sign + prefix + Fill('0', zeros) + digits + Fill(' ', after)
    ensures ReadNumber(text, base, |prefix| == 2)
         == if sign == "-" then -Eval(digits, base) else Eval(digits, base)
  {
    hide Eval, DigitRun, SkipSpaces, ReadNumber;
    var u := prefix + (Fill('0', zeros) + digits + Fill(' ', after));
    ShapeSplits(before, sign, prefix, zeros, digits, after, text, u);
    ReadBlanks(before, sign, u, text);
    ReadSigned(sign, u, text, base, |prefix| == 2);
    ReadUnsigned(prefix, zeros, digits, after, base, u);
  }

  /** `-num`, the least `long` included, read as unsigned. */
  lemma NegatedLong(w: LongWidth, num: int)
    requires IsLong(w, num) && num < 0
    ensures UnsignedLong(w, Long(w, -num)) == -num
  {
    hide UnsignedLong;
    UnsignedOfNatural(w, -num);
  }

  lemma SignedMagnitude(w: LongWidth, num: int, flags: Flags)
    requires IsLong(w, num)
    ensures var m: int := Magnitude(w, num, flags);
            (if SignText(num, flags) == "-" then -m else m) == if flags.sign then num else UnsignedLong(w, num)
  {
    hide UnsignedLong, Long;
    if flags.sign {
      if num < 0 { NegatedLong(w, num); } else { UnsignedOfNatural(w, num); }
    }
  }

  /** number() is undone by the reader: whatever the width, precision and flags, the value comes back,
      the least `long` included; without SIGN it comes back as the unsigned number of the same bits. */
  lemma NumberReadsBack(w: LongWidth, num: int, base: int, size: int, precision: int, flags: Flags)
    requires IsBase(base) && IsLong(w, num)
    ensures ReadNumber(NumberText(w, num, base, size, precision, flags), base, flags.special && base == 16)
         == if flags.sign then num else UnsignedLong(w, num)
  {
    var a, b, c, z := NumberShape(w, num, base, size, precision, flags);
    var sign, prefix := SignText(num, flags), PrefixText(base, flags);
    var digits, text := DigitText(w, num, base, flags), NumberText(w, num, base, size, precision, flags);
    assert (|prefix| == 2) == (flags.special && base == 16);
    ReadShape(a, sign, prefix, b + z, digits, c, base, text);
    EvalOfDigits(Magnitude(w, num, flags), base, flags.small);
    SignedMagnitude(w, num, flags);
  }

  lemma UnsignedInjective(w: LongWidth, x: int, y: int)
    requires IsLong(w, x) && IsLong(w, y) && UnsignedLong(w, x) == UnsignedLong(w, y)
    ensures x == y
  {
  }

  lemma NumberInjective(w: LongWidth, x: int, y: int, base: int, size: int, precision: int, flags: Flags, text: string)
    requires IsBase(base) && IsLong(w, x) && IsLong(w, y)
    requires text == NumberText(w, x, base, size, precision, flags)
    requires text == NumberText(w, y, base, size, precision, flags)
    ensures x == y
  {
    var read := ReadNumber(text, base, flags.special && base == 16);
    assert read == (if flags.sign then x else UnsignedLong(w, x)) by {
      NumberReadsBack(w, x, base, size, precision, flags);
    }
    assert read == (if flags.sign then y else UnsignedLong(w, y)) by {
      NumberReadsBack(w, y, base, size, precision, flags);
    }
    if !flags.sign { UnsignedInjective(w, x, y); }
  }
}
