/**
  What a conversion prints, read back without the model's own account of it: the value in its base, the sign and the
  prefix, where padding goes, and what `*` and %n mean.
 */
module FormatReading {
  import opened CInt
  import opened Digits
  import opened Numbers
  import opened NumberReading
  import opened Directive
  import opened Format
  import opened FormatLaws

  // ---------------------------------------------------------------- the value of an argument

  /** The value C gives the argument: 16 bits of it for `h`, those of a `long` for `l`, 32 otherwise; read as signed or
      as unsigned. */
  predicate IsCValue(w: LongWidth, q: Qualifier, signed: bool, arg: Arg, v: int)
    requires if q == LongQ then arg.LongArg? else arg.IntArg?
  {
    var m := if q == Half then 0x1_0000 else if q == LongQ then LongModulus(w) else 0x1_0000_0000;
    && (v - if q == LongQ then arg.l else arg.i) % m == 0
    && if signed then -(m / 2) <= v < m / 2 else 0 <= v < m
  }

  /** A number and its remainder differ by a multiple of the modulus. */
  lemma Congruent16(v: int)
    ensures (v % 0x1_0000 - v) % 0x1_0000 == 0
  {
    assert v % 0x1_0000 - v == 0x1_0000 * -(v / 0x1_0000);
  }

  lemma Congruent32(v: int)
    ensures (v % 0x1_0000_0000 - v) % 0x1_0000_0000 == 0
  {
    assert v % 0x1_0000_0000 - v == 0x1_0000_0000 * -(v / 0x1_0000_0000);
  }

  lemma Congruent64(v: int)
    ensures (v % 0x1_0000_0000_0000_0000 - v) % 0x1_0000_0000_0000_0000 == 0
  {
    assert v % 0x1_0000_0000_0000_0000 - v == 0x1_0000_0000_0000_0000 * -(v / 0x1_0000_0000_0000_0000);
  }

  lemma UnsignedCongruent(w: LongWidth, v: int)
    ensures (UnsignedLong(w, v) - v) % LongModulus(w) == 0
  {
    if w == 32 { Congruent32(v); } else { Congruent64(v); }
  }

  lemma LongCongruent(w: LongWidth, v: int)
    ensures (Long(w, v) - v) % LongModulus(w) == 0
  {
    hide UnsignedLong;
    UnsignedCongruent(w, v);
  }

  lemma LongValue(w: LongWidth, signed: bool, arg: Arg)
    requires arg.LongArg?
    ensures var n := IntegerValue(w, LongQ, signed, arg);
            IsCValue(w, LongQ, signed, arg, if signed then n else UnsignedLong(w, n))
  {
    hide UnsignedLong, Long, LongModulus;
    UnsignedCongruent(w, arg.l);
    LongCongruent(w, arg.l);
  }

  lemma ShortValue(w: LongWidth, signed: bool, arg: Arg)
    requires arg.IntArg?
    ensures var n := IntegerValue(w, Half, signed, arg);
            IsCValue(w, Half, signed, arg, if signed then n else UnsignedLong(w, n))
  {
    hide UnsignedLong, Long;
    Congruent16(arg.i);
    if !signed { UnsignedOfNatural(w, UnsignedShort(arg.i)); }
  }

  lemma IntValue(w: LongWidth, q: Qualifier, signed: bool, arg: Arg)
    requires q != LongQ && q != Half && arg.IntArg?
    ensures var n := IntegerValue(w, q, signed, arg);
            IsCValue(w, q, signed, arg, if signed then n else UnsignedLong(w, n))
  {
    hide UnsignedLong, Long;
    Congruent32(arg.i);
    if !signed { UnsignedOfNatural(w, UnsignedInt(arg.i)); }
  }

  /** The `long` handed to number(), read as number() reads it, is the argument's value. */
  lemma ArgumentIsCValue(w: LongWidth, q: Qualifier, signed: bool, arg: Arg)
    requires if q == LongQ then arg.LongArg? else arg.IntArg?
    ensures var n := IntegerValue(w, q, signed, arg);
            IsCValue(w, q, signed, arg, if signed then n else UnsignedLong(w, n))
  {
    hide IsCValue, IntegerValue, UnsignedLong;
    match q {
      case LongQ => LongValue(w, signed, arg);
      case Half => ShortValue(w, signed, arg);
      case _ => IntValue(w, q, signed, arg);
    }
  }

  // ---------------------------------------------------------------- the characters of a number

  predicate NoCapital(s: string) { forall i :: 0 <= i < |s| ==> !('A' <= s[i] <= 'Z') }

  predicate NoSmall(s: string) { forall i :: 0 <= i < |s| ==> !('a' <= s[i] <= 'z') }

  lemma {:induction false} DigitsHaveOneCase(n: nat, base: int, small: bool)
    requires IsBase(base)
    ensures if small then NoCapital(DigitsOf(n, base, small)) else NoSmall(DigitsOf(n, base, small))
    decreases n
  {
    DigitHasOneCase(n % base, small);
    if n >= base {
      Shrinks(n, base);
      DigitsHaveOneCase(n / base, base, small);
    } else {
      DigitHasOneCase(n, small);
    }
  }

  lemma DigitHasOneCase(d: int, small: bool)
    ensures 0 <= d < 16 ==>
              var c := DigitChar(d, small); if small then !('A' <= c <= 'Z') else !('a' <= c <= 'z')
  {
  }

  /** Only hexadecimal digits in small letters, or in capitals, and the letter of the prefix. */
  lemma NumberHasOneCase(w: LongWidth, num: int, base: int, size: int, precision: int, flags: Flags)
    requires IsBase(base)
    ensures var text := NumberText(w, num, base, size, precision, flags);
            if flags.small then NoCapital(text) else NoSmall(text)
  {
    hide NumberText, DigitsOf, Magnitude, SignText, PrefixText, Fill, NoCapital, NoSmall;
    var a, b, c, z := NumberShape(w, num, base, size, precision, flags);
    DigitsHaveOneCase(Magnitude(w, num, flags), base, flags.small);
    MarksHaveOneCase(num, base, flags, a, b + z);
    MarksHaveOneCase(num, base, flags, c, 0);
    SixHaveOneCase(Fill(' ', a), SignText(num, flags), PrefixText(base, flags), Fill('0', b + z),
                   DigitText(w, num, base, flags), Fill(' ', c));
  }

  lemma MarksHaveOneCase(num: int, base: int, flags: Flags, blanks: nat, zeros: nat)
    ensures NoCapital(Fill(' ', blanks)) && NoSmall(Fill(' ', blanks))
    ensures NoCapital(Fill('0', zeros)) && NoSmall(Fill('0', zeros))
    ensures NoCapital(SignText(num, flags)) && NoSmall(SignText(num, flags))
    ensures if flags.small then NoCapital(PrefixText(base, flags)) else NoSmall(PrefixText(base, flags))
  {
  }

  lemma SixHaveOneCase(a: string, b: string, c: string, d: string, e: string, f: string)
    ensures NoCapital(a) && NoCapital(b) && NoCapital(c) && NoCapital(d) && NoCapital(e) && NoCapital(f)
            ==> NoCapital(a + b + c + d + e + f)
    ensures NoSmall(a) && NoSmall(b) && NoSmall(c) && NoSmall(d) && NoSmall(e) && NoSmall(f)
            ==> NoSmall(a + b + c + d + e + f)
  {
    hide NoCapital, NoSmall;
    PairHasOneCase(a, b);
    PairHasOneCase(a + b, c);
    PairHasOneCase(a + b + c, d);
    PairHasOneCase(a + b + c + d, e);
    PairHasOneCase(a + b + c + d + e, f);
  }

  lemma PairHasOneCase(a: string, b: string)
    ensures NoCapital(a) && NoCapital(b) ==> NoCapital(a + b)
    ensures NoSmall(a) && NoSmall(b) ==> NoSmall(a + b)
  {
  }

  /** The six integer conversions: what is printed, read in the base C names for the conversion, is the argument's
      value, signed for d and i alone; and x prints no capital letter, X no small one. */
  lemma IntegerReadsBack(w: LongWidth, q: Qualifier, c: char, flags: Flags, width: int, precision: int, args: seq<Arg>,
                         ap: nat, at: nat)
    requires c in {'o', 'x', 'X', 'd', 'i', 'u'} && ValueAccepts(q, Some(c), precision, args, ap)
    requires !flags.sign && !flags.small
    ensures ap < |args| && if q == LongQ then args[ap].LongArg? else args[ap].IntArg?
    ensures var text := ConversionChunk(w, q, Some(c), flags, width, precision, args, ap, at).text;
            var base := if c == 'o' then 8 else if c == 'x' || c == 'X' then 16 else 10;
            && IsCValue(w, q, c == 'd' || c == 'i', args[ap], ReadNumber(text, base, flags.special && base == 16))
            && (c == 'x' ==> NoCapital(text)) && (c == 'X' ==> NoSmall(text))
  {
    hide ReadNumber, NumberText, IntegerValue, IsCValue, UnsignedLong;
    var f := IntegerFlags(flags, c);
    var n := IntegerValue(w, q, f.sign, args[ap]);
    NumberReadsBack(w, n, Base(c), width, precision, f);
    ArgumentIsCValue(w, q, f.sign, args[ap]);
    NumberHasOneCase(w, n, Base(c), width, precision, f);
  }

  /** Scanning sets no other flags than the five of the format language. */
  lemma {:induction false} ScannedFlags(t: string, flags: Flags)
    ensures ScanFlags(t, flags).found.sign == flags.sign && ScanFlags(t, flags).found.small == flags.small
    decreases |t|
  {
    hide SetFlag, IsFlagChar;
    if t != [] && IsFlagChar(t[0]) {
      SetFlagKeeps(flags, t[0]);
      ScannedFlags(t[1..], SetFlag(flags, t[0]));
    }
  }

  lemma SetFlagKeeps(flags: Flags, c: char)
    ensures SetFlag(flags, c).sign == flags.sign && SetFlag(flags, c).small == flags.small
  {
    match c {
      case '-' =>
      case '+' =>
      case ' ' =>
      case '#' =>
      case _ =>
    }
  }

  /** So it is for every directive that the scanner finds in a format. */
  lemma PrintedIntegerReadsBack(w: LongWidth, t: string, item: Item, c: char, args: seq<Arg>, ap: nat, at: nat)
    requires t != [] && item == ScanItem(t).found && item.Directive? && item.conversion == Some(c)
    requires c in {'o', 'x', 'X', 'd', 'i', 'u'} && ItemAccepts(item, args, ap)
    ensures var v := ap + StarCount(item.width) + StarCount(item.precision);
            var text := ItemChunk(w, item, args, ap, at).text;
            var base := if c == 'o' then 8 else if c == 'x' || c == 'X' then 16 else 10;
            && v < |args| && (if item.qualifier == LongQ then args[v].LongArg? else args[v].IntArg?)
            && IsCValue(w, item.qualifier, c == 'd' || c == 'i', args[v],
                        ReadNumber(text, base, item.flags.special && base == 16))
            && (c == 'x' ==> NoCapital(text)) && (c == 'X' ==> NoSmall(text))
  {
    hide ScanFlags, ScanWidth, ScanPrecision, ScanQualifier, ScanConversion, ConversionChunk, ValueAccepts, IsCValue,
         ReadNumber, NoCapital, NoSmall;
    ScannedFlags(t[1..], NO_FLAGS);
    var p := ap + StarCount(item.width);
    IntegerReadsBack(w, item.qualifier, c, FlagsValue(item.flags, item.width, args, ap),
                     WidthValue(item.width, args, ap), PrecisionValue(item.precision, args, p), args,
                     p + StarCount(item.precision), at);
  }

  /** %p: the pointer as an unsigned number in base 16; without a width at least two characters for each of its bytes. */
  lemma PointerReadsBack(w: LongWidth, p: nat, width: int, precision: int, flags: Flags)
    requires !flags.sign && p < LongModulus(w)
    ensures var text := PointerText(w, p, width, precision, flags);
            && ReadNumber(text, 16, flags.special) == p
            && (width == -1 ==> |text| >= if w == 32 then 8 else 16)
  {
    hide ReadNumber, NumberText, UnsignedLong;
    var f := if width == -1 then flags.(zeropad := true) else flags;
    var size := if width == -1 then w / 4 else width;
    NumberReadsBack(w, Long(w, p), 16, size, precision, f);
    NumberLength(w, Long(w, p), 16, size, precision, f);
    UnsignedOfNatural(w, p);
  }

  // ---------------------------------------------------------------- sign and prefix

  lemma InSix(a: string, b: string, c: string, d: string, e: string, f: string, x: char)
    ensures x in a + b + c + d + e + f <==> x in a || x in b || x in c || x in d || x in e || x in f
  {
  }

  lemma NotADigit(s: string, x: char)
    requires AllDigits(s) && !IsDigitChar(x)
    ensures x !in s
  {
  }

  /** The characters that are neither digits nor blanks come from the sign and the prefix. */
  lemma MarksOfNumber(w: LongWidth, num: int, base: int, size: int, precision: int, flags: Flags, x: char)
    requires IsBase(base) && !IsDigitChar(x) && x != ' '
    ensures x in NumberText(w, num, base, size, precision, flags)
       <==> x in SignText(num, flags) || x in PrefixText(base, flags)
  {
    hide NumberText, SignText, PrefixText;
    var a, b, c, z := NumberShape(w, num, base, size, precision, flags);
    NotADigit(DigitText(w, num, base, flags), x);
    InSix(Fill(' ', a), SignText(num, flags), PrefixText(base, flags), Fill('0', b + z), DigitText(w, num, base, flags),
          Fill(' ', c), x);
  }

  /** A minus for a negative number, a plus for another one if asked for, and an x or X for base 16 if asked for; nowhere
      else. */
  lemma SignAndPrefixPrinted(w: LongWidth, num: int, base: int, size: int, precision: int, flags: Flags)
    requires IsBase(base)
    ensures var text := NumberText(w, num, base, size, precision, flags);
            && ('-' in text <==> flags.sign && num < 0)
            && ('+' in text <==> flags.sign && num >= 0 && flags.plus)
            && ('x' in text <==> flags.special && base == 16 && flags.small)
            && ('X' in text <==> flags.special && base == 16 && !flags.small)
  {
    hide NumberText;
    MarksOfNumber(w, num, base, size, precision, flags, '-');
    MarksOfNumber(w, num, base, size, precision, flags, '+');
    MarksOfNumber(w, num, base, size, precision, flags, 'x');
    MarksOfNumber(w, num, base, size, precision, flags, 'X');
  }

  /** The digits stand in the text right after a zero. */
  predicate ZeroBeforeDigits(text: string, digits: string)
  {
    exists i :: 0 <= i && i + |digits| < |text| && text[i] == '0' && text[i + 1..i + 1 + |digits|] == digits
  }

  lemma DigitsNotEmpty(w: LongWidth, num: int, base: int, flags: Flags)
    requires IsBase(base)
    ensures DigitText(w, num, base, flags) != []
  {
  }

  /** A blank in front of a number that is not negative, if asked for and no plus is; and in base 8 a zero in front of the
      digits, if asked for. */
  lemma BlankAndZeroPrinted(w: LongWidth, num: int, base: int, size: int, precision: int, flags: Flags)
    requires IsBase(base)
    ensures var text := NumberText(w, num, base, size, precision, flags);
            && text != []
            && (flags.sign && num >= 0 && flags.space && !flags.plus ==> text[0] == ' ')
            && (flags.special && base == 8 ==> ZeroBeforeDigits(text, DigitText(w, num, base, flags)))
  {
    hide NumberText, DigitText;
    var text, digits := NumberText(w, num, base, size, precision, flags), DigitText(w, num, base, flags);
    DigitsNotEmpty(w, num, base, flags);
    var a, b, c, z := NumberShape(w, num, base, size, precision, flags);
    var front := Fill(' ', a) + SignText(num, flags) + PrefixText(base, flags) + Fill('0', b + z);
    assert text == front + digits + Fill(' ', c);
    if flags.special && base == 8 {
      AfterZeros(Fill(' ', a) + SignText(num, flags), b + z, digits, Fill(' ', c));
    }
  }

  lemma AfterZeros(before: string, zeros: nat, digits: string, after: string)
    ensures ZeroBeforeDigits(before + "0" + Fill('0', zeros) + digits + after, digits)
  {
    var text := before + "0" + Fill('0', zeros) + digits + after;
    var i := |before| + zeros;
    assert text[i] == '0' && text[i + 1..i + 1 + |digits|] == digits;
  }

  // ---------------------------------------------------------------- strings and padding

  /** %s and %c: blanks fill the width, on the right if LEFT is set and on the left if not. */
  lemma JustifyFills(text: string, width: int, left: bool)
    ensures var r := Justify(text, width, left);
            && |r| == Max(width, |text|)
            && (if left then r[..|text|] == text else r[|r| - |text|..] == text)
            && forall i :: (if left then |text| <= i < |r| else 0 <= i < |r| - |text|) ==> r[i] == ' '
  {
  }

  /** What %s prints of a string: as much as there is before its NUL, and no more than the precision. */
  lemma StringTextIsPrefix(s: string, precision: int)
    ensures var r := StringText(s, precision);
            && |r| <= |s| && r == s[..|r|] && NUL !in r && (precision >= 0 ==> |r| <= precision)
            && (|r| == precision || |r| == |s| || s[|r|] == NUL)
  {
  }

  // ---------------------------------------------------------------- what `*` stands for

  /** A `*` with a number is the number spelled out; a negative one is its absolute value and a '-' flag. */
  lemma StarWidthIsSpelled(w: LongWidth, flags: Flags, precision: Count, q: Qualifier, c: Option<char>, n: int32,
                           args: seq<Arg>, at: nat)
    requires n > -0x8000_0000
    requires ItemAccepts(Directive(flags, FromArg, precision, q, c), [IntArg(n)] + args, 0)
    ensures var f, k := if n < 0 then flags.(left := true) else flags, if n < 0 then -n else n;
            && ItemAccepts(Directive(f, Given(k), precision, q, c), args, 0)
            && ItemChunk(w, Directive(flags, FromArg, precision, q, c), [IntArg(n)] + args, 0, at)
               == ItemChunk(w, Directive(f, Given(k), precision, q, c), args, 0, at)
  {
    hide ConversionChunk, ValueAccepts;
    var all := [IntArg(n)] + args;
    var f, k := if n < 0 then flags.(left := true) else flags, if n < 0 then -n else n;
    IntKeeps(k);
    var v := StarCount(precision);
    assert precision == FromArg ==> all[1] == args[0];
    assert TakesValue(c) ==> all[1 + v] == args[v] by { ValueIsThere(q, c, PrecisionValue(precision, all, 1), all, 1 + v); }
    ValueSameArg(w, q, c, f, k, PrecisionValue(precision, all, 1), all, 1 + v, args, v, at);
  }

  lemma ValueIsThere(q: Qualifier, c: Option<char>, precision: int, args: seq<Arg>, ap: nat)
    requires ValueAccepts(q, c, precision, args, ap)
    ensures TakesValue(c) ==> ap < |args|
  {
  }

  /** In the place of the precision, a negative one is 0. */
  lemma StarPrecisionIsSpelled(w: LongWidth, flags: Flags, q: Qualifier, c: Option<char>, n: int32, args: seq<Arg>, at: nat)
    requires ItemAccepts(Directive(flags, Absent, FromArg, q, c), [IntArg(n)] + args, 0)
    ensures var k := if n < 0 then 0 else n;
            && ItemAccepts(Directive(flags, Absent, Given(k), q, c), args, 0)
            && ItemChunk(w, Directive(flags, Absent, FromArg, q, c), [IntArg(n)] + args, 0, at)
               == ItemChunk(w, Directive(flags, Absent, Given(k), q, c), args, 0, at)
  {
    hide ConversionChunk, ValueAccepts;
    var all, k := [IntArg(n)] + args, if n < 0 then 0 else n;
    assert TakesValue(c) ==> all[1] == args[0] by { ValueIsThere(q, c, k, all, 1); }
    ValueSameArg(w, q, c, flags, -1, k, all, 1, args, 0, at);
  }

  // ---------------------------------------------------------------- %n, and conversions that are none

  lemma JustOne(t: string, item: Item)
    requires t != [] && ScanItem(t) == Scan(item, "")
    ensures Parse(t) == [item]
  {
  }

  lemma OneItem(w: LongWidth, item: Item, args: seq<Arg>, at: nat)
    requires ItemAccepts(item, args, 0)
    ensures Accepts([item], args, 0) && Render(w, [item], args, 0, at) == ItemChunk(w, item, args, 0, at)
  {
    hide ItemAccepts, ItemChunk, ArgCount;
    CatRight(ItemChunk(w, item, args, 0, at));
  }

  lemma CatRight(c: Chunk)
    ensures Cat(c, Chunk("", [])) == c
  {
  }

  lemma StoreDirective(isLong: bool)
    ensures ScanItem(if isLong then "%ln" else "%n")
         == Scan(Directive(NO_FLAGS, Absent, Absent, if isLong then LongQ else NoQualifier, Some('n')), "")
  {
    var t := if isLong then "ln" else "n";
    assert DecimalRun(t) == "";
    assert t[1..] == if isLong then "n" else "";
    var q, t3 := if isLong then LongQ else NoQualifier, "n";
    assert ScanConversion(t3) == Scan(Some('n'), "") by { assert t3[1..] == ""; }
    ScansCompose(t, NO_FLAGS, t, Absent, t, Absent, t, q, t3, Some('n'), "");
    assert (if isLong then "%ln" else "%n")[1..] == t;
  }

  /** %n after a format stores the length of what the format has printed, through a pointer to `int`, or to `long` with
      the qualifier l; and prints nothing. */
  lemma StoresLengthSoFar(w: LongWidth, f: string, args: seq<Arg>, address: nat, isLong: bool)
    requires Complete(Parse(f)) && Matches(f, args) && |args| == TotalArgs(Parse(f))
    ensures var target := if isLong then LongTarget(address) else IntTarget(address);
            var n := if isLong then "%ln" else "%n";
            && Matches(f + n, args + [target])
            && Output(w, f + n, args + [target]).text == Output(w, f, args).text
            && Output(w, f + n, args + [target]).stores
               == Output(w, f, args).stores + [Store(address, isLong, |Output(w, f, args).text|)]
  {
    hide Render, Accepts, Complete, TotalArgs, ScanItem;
    var target := if isLong then LongTarget(address) else IntTarget(address);
    var n, q := if isLong then "%ln" else "%n", if isLong then LongQ else NoQualifier;
    var item := Directive(NO_FLAGS, Absent, Absent, q, Some('n'));
    StoreDirective(isLong);
    JustOne(n, item);
    OneItem(w, item, [target], 0);
    FormatHomomorphism(w, f, n, args, [target]);
  }

  /** A character that is no conversion prints itself after the '%'; a '%' at the end of the format, itself alone. */
  lemma UnknownPrintsItself(w: LongWidth, c: char)
    requires IsConversion(c) && c !in {'c', 's', 'p', 'n', '%', 'o', 'x', 'X', 'd', 'i', 'u'}
    ensures Matches("%" + [c], []) && Output(w, "%" + [c], []) == Chunk("%" + [c], [])
    ensures Matches("%", []) && Output(w, "%", []) == Chunk("%", [])
  {
    hide Render, Accepts;
    var item := Directive(NO_FLAGS, Absent, Absent, NoQualifier, Some(c));
    PlainDirective(c, "");
    assert ("%" + [c])[1..] == [c] + "";
    JustOne("%" + [c], item);
    OneItem(w, item, [], 0);
    CutAfterPercent();
    var cut := Directive(NO_FLAGS, Absent, Absent, NoQualifier, None);
    JustOne("%", cut);
    OneItem(w, cut, [], 0);
  }

  lemma CutAfterPercent()
    ensures ScanItem("%") == Scan(Directive(NO_FLAGS, Absent, Absent, NoQualifier, None), "")
  {
    assert "%"[1..] == "" && DecimalRun("") == "";
    ScansCompose("", NO_FLAGS, "", Absent, "", Absent, "", NoQualifier, "", None, "");
  }
}
