/**
  The format mini-language: literal characters and directives
  `%[flags][width][.precision][qualifier]conversion`, as the scanner of vsprintf() reads them.
 */
module Directive {
  import opened CInt
  import opened Digits
  import opened Numbers

  /** A width or a precision: not there, spelled in decimal, or `*` (the next argument). */
  datatype Count = Absent | Given(n: int) | FromArg

  datatype Qualifier = NoQualifier | Half | LongQ | BigL

  /** `conversion` is missing when the format ends inside the directive. */
  datatype Item =
    | Literal(c: char)
    | Directive(flags: Flags, width: Count, precision: Count, qualifier: Qualifier, conversion: Option<char>)

  predicate IsFlagChar(c: char) { c == '-' || c == '+' || c == ' ' || c == '#' || c == '0' }

  predicate IsQualifierChar(c: char) { c == 'h' || c == 'l' || c == 'L' }

  function SetFlag(flags: Flags, c: char): Flags
  {
    if c == '-' then flags.(left := true)
    else if c == '+' then flags.(plus := true)
    else if c == ' ' then flags.(space := true)
    else if c == '#' then flags.(special := true)
    else if c == '0' then flags.(zeropad := true)
    else flags
  }

  // ---------------------------------------------------------------- scanning

  /** What a scanner found, and the text that is left. */
  datatype Scan<T> = Scan(found: T, rest: string)

  function ScanFlags(t: string, flags: Flags): (r: Scan<Flags>)
    ensures |r.rest| <= |t|
  {
    if t != [] && IsFlagChar(t[0]) then ScanFlags(t[1..], SetFlag(flags, t[0])) else Scan(flags, t)
  }

  /** The longest prefix of decimal digits. */
  function DecimalRun(t: string): (s: string)
    ensures |s| <= |t| && s == t[..|s|]
    ensures forall i :: 0 <= i < |s| ==> IsDecimal(s[i])
    ensures |s| == |t| || !IsDecimal(t[|s|])
  {
    if t != [] && IsDecimal(t[0]) then [t[0]] + DecimalRun(t[1..]) else []
  }

  /** A decimal number as skip_atoi() computes it: an `int`, which wraps. */
  function DecimalValue(s: string): int32 { Int(Eval(s, 10)) }

  function ScanWidth(t: string): (r: Scan<Count>)
    ensures |r.rest| <= |t|
  {
    var run := DecimalRun(t);
    if run != [] then Scan(Given(DecimalValue(run)), t[|run|..])
    else if t != [] && t[0] == '*' then Scan(FromArg, t[1..])
    else Scan(Absent, t)
  }

  /** What was scanned after a '.': no number means 0 and a wrapped negative one is 0 as well. */
  function AsPrecision(r: Scan<Count>): Scan<Count>
  {
    match r.found
    case Absent => Scan(Given(0), r.rest)
    case FromArg => r
    case Given(n) => Scan(Given(Max(n, 0)), r.rest)
  }

  function ScanPrecision(t: string): (r: Scan<Count>)
    ensures |r.rest| <= |t|
  {
    if t == [] || t[0] != '.' then Scan(Absent, t) else AsPrecision(ScanWidth(t[1..]))
  }

  function ScanQualifier(t: string): (r: Scan<Qualifier>)
    ensures |r.rest| <= |t|
  {
    if t != [] && t[0] == 'h' then Scan(Half, t[1..])
    else if t != [] && t[0] == 'l' then Scan(LongQ, t[1..])
    else if t != [] && t[0] == 'L' then Scan(BigL, t[1..])
    else Scan(NoQualifier, t)
  }

  function ScanConversion(t: string): (r: Scan<Option<char>>)
    ensures |r.rest| <= |t|
  {
    if t == [] then Scan(None, t) else Scan(Some(t[0]), t[1..])
  }

  /** Reads the directive whose text, after the '%', is `t`. */
  function ScanDirective(t: string): (r: Scan<Item>)
    ensures |r.rest| <= |t| && r.found.Directive?
  {
    var f := ScanFlags(t, NO_FLAGS);
    var w := ScanWidth(f.rest);
    var p := ScanPrecision(w.rest);
    var q := ScanQualifier(p.rest);
    var c := ScanConversion(q.rest);
    Scan(Directive(f.found, w.found, p.found, q.found, c.found), c.rest)
  }

  function ScanItem(t: string): (r: Scan<Item>)
    requires t != []
    ensures |r.rest| < |t|
  {
    if t[0] != '%' then Scan(Literal(t[0]), t[1..])
    else ScanDirective(t[1..])
  }

  function Parse(t: string): seq<Item>
    decreases |t|
  {
    if t == [] then [] else
      var r := ScanItem(t);
      [r.found] + Parse(r.rest)
  }

  // ---------------------------------------------------------------- spelling, and what is read back

  /** A way to write a count. */
  datatype Spelled = Nothing | Decimal(value: nat) | Star

  function CountText(c: Spelled): string
  {
    match c
    case Nothing => ""
    case Decimal(n) => DigitsOf(n, 10, false)
    case Star => "*"
  }

  function QualifierText(q: Qualifier): string
  {
    match q
    case NoQualifier => ""
    case Half => "h"
    case LongQ => "l"
    case BigL => "L"
  }

  /** Whether a precision is written at all, and how: `.` alone is `Some(Nothing)`. */
  function PrecisionText(p: Option<Spelled>): string
  {
    match p
    case None => ""
    case Some(c) => "." + CountText(c)
  }

  function Spell(flagChars: string, width: Spelled, precision: Option<Spelled>, q: Qualifier, conversion: char): string
  {
    flagChars + CountText(width) + PrecisionText(precision) + QualifierText(q) + [conversion]
  }

  function SetFlags(flags: Flags, cs: string): Flags
    decreases |cs|
  {
    if cs == [] then flags else SetFlags(SetFlag(flags, cs[0]), cs[1..])
  }

  predicate Mentions(cs: string, c: char)
  {
    cs != [] && (cs[0] == c || Mentions(cs[1..], c))
  }

  lemma {:induction false} MentionsIsIn(cs: string, c: char)
    ensures Mentions(cs, c) <==> c in cs
  {
    if cs != [] {
      MentionsIsIn(cs[1..], c);
      assert cs == [cs[0]] + cs[1..];
    }
  }

  function AddFlags(flags: Flags, zeropad: bool, plus: bool, space: bool, left: bool, special: bool): Flags
  {
    Flags(flags.zeropad || zeropad, flags.sign, flags.plus || plus, flags.space || space, flags.left || left,
          flags.small, flags.special || special)
  }

  lemma SetFlagAdds(flags: Flags, c: char)
    ensures SetFlag(flags, c) == AddFlags(flags, c == '0', c == '+', c == ' ', c == '-', c == '#')
  {
  }

  /** The scanner's flags are a set: order and repetition do not matter. */
  lemma {:induction false} FlagsAreASet(flags: Flags, cs: string)
    ensures SetFlags(flags, cs)
         == AddFlags(flags, Mentions(cs, '0'), Mentions(cs, '+'), Mentions(cs, ' '), Mentions(cs, '-'), Mentions(cs, '#'))
    decreases |cs|
  {
    if cs != [] {
      var next := SetFlag(flags, cs[0]);
      SetFlagAdds(flags, cs[0]);
      FlagsAreASet(next, cs[1..]);
    }
  }

  /** Characters that can only be a conversion: none the scanner would take for an earlier part. */
  predicate IsConversion(c: char)
  {
    !IsFlagChar(c) && !IsDecimal(c) && !IsQualifierChar(c) && c != '*' && c != '.'
  }

  lemma {:induction false} ScanFlagsReads(cs: string, rest: string, flags: Flags)
    requires forall i :: 0 <= i < |cs| ==> IsFlagChar(cs[i])
    requires rest != [] && !IsFlagChar(rest[0])
    ensures ScanFlags(cs + rest, flags) == Scan(SetFlags(flags, cs), rest)
  {
    if cs == [] {
      assert cs + rest == rest;
    } else {
      assert (cs + rest)[1..] == cs[1..] + rest;
      ScanFlagsReads(cs[1..], rest, SetFlag(flags, cs[0]));
    }
  }

  lemma {:induction false} DecimalRunReads(s: string, rest: string)
    requires forall i :: 0 <= i < |s| ==> IsDecimal(s[i])
    requires rest == [] || !IsDecimal(rest[0])
    ensures DecimalRun(s + rest) == s
  {
    if s == [] {
      assert s + rest == rest;
    } else {
      assert (s + rest)[1..] == s[1..] + rest;
      DecimalRunReads(s[1..], rest);
    }
  }

  function CountOf(c: Spelled): Count
  {
    match c
    case Nothing => Absent
    case Decimal(n) => Given(n)
    case Star => FromArg
  }

  predicate FitsInt(c: Spelled) { c.Decimal? ==> c.value < 0x8000_0000 }

  lemma IntKeeps(v: int)
    requires 0 <= v < 0x8000_0000
    ensures Int(v) == v
  {
  }

  lemma DecimalTextFacts(n: nat, s: string)
    requires s == DigitsOf(n, 10, false)
    ensures s != [] && (forall i :: 0 <= i < |s| ==> IsDecimal(s[i]))
    ensures n < 0x8000_0000 ==> DecimalValue(s) == n
    ensures n > 0 ==> s[0] != '0'
  {
    DecimalDigits(n, false);
    EvalOfDigits(n, 10, false);
    if n < 0x8000_0000 { IntKeeps(n); }
    if n > 0 { NoLeadingZero(n, 10, false); }
  }

  lemma ScanDecimalReads(s: string, rest: string)
    requires s != [] && (forall i :: 0 <= i < |s| ==> IsDecimal(s[i]))
    requires rest == [] || !IsDecimal(rest[0])
    ensures ScanWidth(s + rest) == Scan(Given(DecimalValue(s)), rest)
  {
    DecimalRunReads(s, rest);
    assert (s + rest)[|s|..] == rest;
  }

  lemma ScanWidthReads(c: Spelled, rest: string)
    requires FitsInt(c) && rest != [] && !IsDecimal(rest[0]) && rest[0] != '*'
    ensures ScanWidth(CountText(c) + rest) == Scan(CountOf(c), rest)
  {
    match c
    case Nothing =>
      assert CountText(c) + rest == rest;
      assert DecimalRun(rest) == "";
    case Decimal(n) =>
      DecimalTextFacts(n, CountText(c));
      ScanDecimalReads(CountText(c), rest);
    case Star =>
      var t := "*" + rest;
      assert t[0] == '*' && t[1..] == rest;
      assert DecimalRun(t) == "";
  }

  function PrecisionOf(p: Option<Spelled>): Count
  {
    match p
    case None => Absent
    case Some(Nothing) => Given(0)
    case Some(c) => CountOf(c)
  }

  lemma ScanPrecisionReads(p: Option<Spelled>, rest: string)
    requires p.Some? ==> FitsInt(p.value)
    requires rest != [] && !IsDecimal(rest[0]) && rest[0] != '*' && rest[0] != '.'
    ensures ScanPrecision(PrecisionText(p) + rest) == Scan(PrecisionOf(p), rest)
  {
    hide ScanWidth, CountText, FitsInt;
    match p
    case None => assert "" + rest == rest;
    case Some(c) =>
      ScanWidthReads(c, rest);
      assert (PrecisionText(p) + rest)[1..] == CountText(c) + rest;
  }

  lemma ScanQualifierReads(q: Qualifier, rest: string)
    requires rest != [] && !IsQualifierChar(rest[0])
    ensures ScanQualifier(QualifierText(q) + rest) == Scan(q, rest)
  {
    var t := QualifierText(q) + rest;
    if q == NoQualifier { assert t == rest; } else { assert t[1..] == rest; }
  }

  lemma FirstOfSpelled(width: Spelled, rest: string)
    requires rest != [] && !IsFlagChar(rest[0])
    requires width.Decimal? ==> width.value >= 1
    ensures !IsFlagChar((CountText(width) + rest)[0])
  {
    if width.Decimal? { DecimalTextFacts(width.value, CountText(width)); }
  }

  /** The five scans one after the other, from their results. */
  lemma ScansCompose(t: string, f: Flags, t1: string, w: Count, t2: string, p: Count, t3: string, q: Qualifier,
                     t4: string, c: Option<char>, rest: string)
    requires ScanFlags(t, NO_FLAGS) == Scan(f, t1) && ScanWidth(t1) == Scan(w, t2) && ScanPrecision(t2) == Scan(p, t3)
    requires ScanQualifier(t3) == Scan(q, t4) && ScanConversion(t4) == Scan(c, rest)
    ensures ScanDirective(t) == Scan(Directive(f, w, p, q, c), rest)
  {
  }

  lemma SpellSplits(a: string, b: string, c: string, d: string, e: string, rest: string)
    ensures var whole := "%" + (a + b + c + d + e) + rest;
            whole[0] == '%' && whole[1..] == a + (b + (c + (d + (e + rest))))
  {
    var whole := "%" + (a + b + c + d + e) + rest;
    assert whole[1..] == (a + b + c + d + e) + rest;
    assert (a + b + c + d + e) + rest == (a + b + c + d) + (e + rest);
    assert (a + b + c + d) + (e + rest) == (a + b + c) + (d + (e + rest));
    assert (a + b + c) + (d + (e + rest)) == (a + b) + (c + (d + (e + rest)));
    assert (a + b) + (c + (d + (e + rest))) == a + (b + (c + (d + (e + rest))));
  }

  lemma FirstOfTail(precision: Option<Spelled>, q: Qualifier, conversion: char, rest: string, t3: string, t2: string)
    requires IsConversion(conversion)
    requires t3 == QualifierText(q) + ([conversion] + rest) && t2 == PrecisionText(precision) + t3
    ensures t3 != [] && !IsDecimal(t3[0]) && t3[0] != '*' && t3[0] != '.'
    ensures t2 != [] && !IsDecimal(t2[0]) && t2[0] != '*' && !IsFlagChar(t2[0])
  {
    assert t3[0] == if q == NoQualifier then conversion else QualifierText(q)[0];
    assert t2[0] == if precision == None then t3[0] else '.';
  }

  /** Directive decoding is unambiguous: whatever the flags (in any order, with repetition), a width that
      does not begin with 0, a precision, a qualifier and a conversion, the scanner recovers exactly them. */
  lemma DirectiveReadsBack(flagChars: string, width: Spelled, precision: Option<Spelled>, q: Qualifier,
                           conversion: char, rest: string)
    requires forall i :: 0 <= i < |flagChars| ==> IsFlagChar(flagChars[i])
    requires FitsInt(width) && (width.Decimal? ==> width.value >= 1)
    requires (precision.Some? ==> FitsInt(precision.value)) && IsConversion(conversion)
    ensures ScanItem("%" + Spell(flagChars, width, precision, q, conversion) + rest)
         == Scan(Directive(SetFlags(NO_FLAGS, flagChars), CountOf(width), PrecisionOf(precision), q, Some(conversion)), rest)
  {
    var t4 := [conversion] + rest;
    var t3 := QualifierText(q) + t4;
    var t2 := PrecisionText(precision) + t3;
    var t1 := CountText(width) + t2;
    FirstOfTail(precision, q, conversion, rest, t3, t2);
    FirstOfSpelled(width, t2);
    assert ScanConversion(t4) == Scan(Some(conversion), rest) by { assert t4[1..] == rest; }
    ScanQualifierReads(q, t4);
    ScanPrecisionReads(precision, t3);
    ScanWidthReads(width, t2);
    ScanFlagsReads(flagChars, t1, NO_FLAGS);
    ScansCompose(flagChars + t1, SetFlags(NO_FLAGS, flagChars), t1, CountOf(width), t2, PrecisionOf(precision), t3, q,
                 t4, Some(conversion), rest);
    SpellSplits(flagChars, CountText(width), PrecisionText(precision), QualifierText(q), [conversion], rest);
  }
}
