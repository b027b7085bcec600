/** Laws of formatting over whole formats. */
module FormatLaws {
  import opened CInt
  import opened Digits
  import opened Numbers
  import opened Directive
  import opened Format

  predicate CutShort(item: Item) { item.Directive? && item.conversion == None }

  /** No directive is cut short by the end of the text. */
  predicate Complete(items: seq<Item>)
  {
    items == [] || (!CutShort(items[0]) && Complete(items[1..]))
  }

  // ---------------------------------------------------------------- scanning a longer text

  lemma {:induction false} ScanFlagsExtends(t: string, more: string, flags: Flags)
    requires ScanFlags(t, flags).rest != []
    ensures ScanFlags(t + more, flags) == Scan(ScanFlags(t, flags).found, ScanFlags(t, flags).rest + more)
    decreases |t|
  {
    if IsFlagChar(t[0]) {
      assert (t + more)[1..] == t[1..] + more;
      ScanFlagsExtends(t[1..], more, SetFlag(flags, t[0]));
    }
  }

  lemma {:induction false} DecimalRunExtends(t: string, more: string)
    requires |DecimalRun(t)| < |t|
    ensures DecimalRun(t + more) == DecimalRun(t)
    decreases |t|
  {
    if IsDecimal(t[0]) {
      assert (t + more)[1..] == t[1..] + more;
      DecimalRunExtends(t[1..], more);
    }
  }

  lemma ScanWidthExtends(t: string, more: string)
    requires ScanWidth(t).rest != []
    ensures ScanWidth(t + more) == Scan(ScanWidth(t).found, ScanWidth(t).rest + more)
  {
    DecimalRunExtends(t, more);
    var n := |DecimalRun(t)|;
    assert (t + more)[n..] == t[n..] + more;
    assert (t + more)[1..] == t[1..] + more;
  }

  lemma ScanPrecisionExtends(t: string, more: string)
    requires ScanPrecision(t).rest != []
    ensures ScanPrecision(t + more) == Scan(ScanPrecision(t).found, ScanPrecision(t).rest + more)
  {
    if t[0] == '.' {
      assert (t + more)[1..] == t[1..] + more;
      ScanWidthExtends(t[1..], more);
    }
  }

  lemma ScanQualifierExtends(t: string, more: string)
    requires ScanQualifier(t).rest != []
    ensures ScanQualifier(t + more) == Scan(ScanQualifier(t).found, ScanQualifier(t).rest + more)
  {
    assert (t + more)[1..] == t[1..] + more;
  }

  lemma ScanConversionExtends(t: string, more: string)
    requires t != []
    ensures ScanConversion(t + more) == Scan(ScanConversion(t).found, ScanConversion(t).rest + more)
  {
    assert (t + more)[1..] == t[1..] + more;
  }

  lemma ScanDirectiveExtends(t: string, more: string)
    requires !CutShort(ScanDirective(t).found)
    ensures ScanDirective(t + more) == Scan(ScanDirective(t).found, ScanDirective(t).rest + more)
  {
    var f := ScanFlags(t, NO_FLAGS);
    var w := ScanWidth(f.rest);
    var p := ScanPrecision(w.rest);
    var q := ScanQualifier(p.rest);
    var c := ScanConversion(q.rest);
    ScanFlagsExtends(t, more, NO_FLAGS);
    ScanWidthExtends(f.rest, more);
    ScanPrecisionExtends(w.rest, more);
    ScanQualifierExtends(p.rest, more);
    ScanConversionExtends(q.rest, more);
    ScansCompose(t + more, f.found, f.rest + more, w.found, w.rest + more, p.found, p.rest + more, q.found,
                 q.rest + more, c.found, c.rest + more);
  }

  lemma ScanItemExtends(t: string, more: string)
    requires t != [] && !CutShort(ScanItem(t).found)
    ensures ScanItem(t + more) == Scan(ScanItem(t).found, ScanItem(t).rest + more)
  {
    assert (t + more)[1..] == t[1..] + more;
    if t[0] == '%' { ScanDirectiveExtends(t[1..], more); }
  }

  lemma ParseStep(t: string, item: Item, rest: string)
    requires t != [] && ScanItem(t) == Scan(item, rest)
    ensures Parse(t) == [item] + Parse(rest)
  {
  }

  lemma {:induction false} ParseAppend(t: string, more: string)
    requires Complete(Parse(t))
    ensures Parse(t + more) == Parse(t) + Parse(more)
    decreases |t|
  {
    hide ScanDirective, ScanItem;
    if t == [] {
      assert t + more == more;
    } else {
      var Scan(item, rest) := ScanItem(t);
      ParseStep(t, item, rest);
      assert Parse(t)[1..] == Parse(rest);
      ScanItemExtends(t, more);
      ParseStep(t + more, item, rest + more);
      ParseAppend(rest, more);
    }
  }

  // ---------------------------------------------------------------- where a directive may end

  ghost predicate IsSuffix(rest: string, t: string)
  {
    |rest| <= |t| && rest == t[|t| - |rest|..]
  }

  lemma {:induction false} ScanFlagsSuffix(t: string, flags: Flags)
    ensures IsSuffix(ScanFlags(t, flags).rest, t)
    decreases |t|
  {
    if t != [] && IsFlagChar(t[0]) { ScanFlagsSuffix(t[1..], SetFlag(flags, t[0])); }
  }

  lemma SuffixTransitive(a: string, b: string, c: string)
    requires IsSuffix(a, b) && IsSuffix(b, c)
    ensures IsSuffix(a, c)
  {
  }

  lemma ScanWidthSuffix(t: string)
    ensures IsSuffix(ScanWidth(t).rest, t)
  {
  }

  lemma ScanPrecisionSuffix(t: string)
    ensures IsSuffix(ScanPrecision(t).rest, t)
  {
    if t != [] && t[0] == '.' {
      ScanWidthSuffix(t[1..]);
      SuffixTransitive(ScanPrecision(t).rest, t[1..], t);
    }
  }

  lemma SuffixChain(a: string, b: string, c: string, d: string, e: string)
    requires IsSuffix(a, b) && IsSuffix(b, c) && IsSuffix(c, d) && IsSuffix(d, e)
    ensures IsSuffix(a, e)
  {
    SuffixTransitive(a, b, c);
    SuffixTransitive(a, c, d);
    SuffixTransitive(a, d, e);
  }

  lemma ScanEndSuffix(t: string)
    ensures IsSuffix(ScanConversion(ScanQualifier(t).rest).rest, t)
  {
  }

  lemma ScanDirectiveSuffix(t: string)
    ensures IsSuffix(ScanDirective(t).rest, t)
  {
    var f := ScanFlags(t, NO_FLAGS);
    var w := ScanWidth(f.rest);
    var p := ScanPrecision(w.rest);
    var q := ScanQualifier(p.rest);
    var c := ScanConversion(q.rest);
    ScansCompose(t, f.found, f.rest, w.found, w.rest, p.found, p.rest, q.found, q.rest, c.found, c.rest);
    ScanFlagsSuffix(t, NO_FLAGS);
    ScanWidthSuffix(f.rest);
    ScanPrecisionSuffix(w.rest);
    ScanEndSuffix(p.rest);
    SuffixChain(c.rest, p.rest, w.rest, f.rest, t);
  }

  lemma ScanItemSuffix(t: string)
    requires t != []
    ensures IsSuffix(ScanItem(t).rest, t)
  {
    if t[0] == '%' {
      ScanDirectiveSuffix(t[1..]);
      SuffixTransitive(ScanItem(t).rest, t[1..], t);
    }
  }

  /** `t` ends in a character that can only be a conversion, and does not open a directive. */
  predicate EndsInConversion(t: string)
  {
    t != [] && IsConversion(t[|t| - 1]) && t[|t| - 1] != '%'
  }

  lemma {:induction false} ScanFlagsStops(t: string, flags: Flags)
    requires EndsInConversion(t)
    ensures EndsInConversion(ScanFlags(t, flags).rest)
    decreases |t|
  {
    if IsFlagChar(t[0]) { ScanFlagsStops(t[1..], SetFlag(flags, t[0])); }
  }

  lemma ScanWidthStops(t: string)
    requires EndsInConversion(t)
    ensures EndsInConversion(ScanWidth(t).rest)
  {
  }

  lemma ScanPrecisionStops(t: string)
    requires EndsInConversion(t)
    ensures EndsInConversion(ScanPrecision(t).rest)
  {
    if t[0] == '.' { ScanWidthStops(t[1..]); }
  }

  lemma ScanDirectiveStops(t: string)
    requires EndsInConversion(t)
    ensures !CutShort(ScanDirective(t).found)
  {
    hide ScanFlags, ScanWidth, ScanPrecision;
    var f := ScanFlags(t, NO_FLAGS);
    ScanFlagsStops(t, NO_FLAGS);
    ScanWidthStops(f.rest);
    ScanPrecisionStops(ScanWidth(f.rest).rest);
  }

  lemma ScanItemStops(t: string)
    requires EndsInConversion(t)
    ensures !CutShort(ScanItem(t).found)
  {
    if t[0] == '%' { ScanDirectiveStops(t[1..]); }
  }

  /** What is left after an item ends like the whole. */
  lemma RestEndsAlike(t: string, rest: string)
    requires t != [] && IsSuffix(rest, t) && EndsInConversion(t) && rest != []
    ensures EndsInConversion(rest)
  {
  }

  /** A text that ends in a conversion character ends on a directive boundary. */
  lemma {:induction false} ConversionCompletes(t: string)
    requires EndsInConversion(t)
    ensures Complete(Parse(t))
    decreases |t|
  {
    var Scan(item, rest) := ScanItem(t);
    ParseStep(t, item, rest);
    ScanItemStops(t);
    assert Parse(t)[1..] == Parse(rest);
    if rest != [] {
      ScanItemSuffix(t);
      RestEndsAlike(t, rest);
      ConversionCompletes(rest);
    }
  }

  /** Parsing distributes over concatenation exactly for the formats that end on a directive boundary. */
  lemma ParseDistributesIffComplete(t: string)
    ensures Complete(Parse(t)) <==> forall more :: Parse(t + more) == Parse(t) + Parse(more)
  {
    if Complete(Parse(t)) {
      forall more ensures Parse(t + more) == Parse(t) + Parse(more) { ParseAppend(t, more); }
    } else {
      ConversionCompletes(t + "d");
      if Parse(t + "d") == Parse(t) + Parse("d") { CompletePrefix(Parse(t), Parse("d")); }
      assert Parse(t + "d") != Parse(t) + Parse("d");
    }
  }

  lemma {:induction false} CompletePrefix(xs: seq<Item>, ys: seq<Item>)
    requires Complete(xs + ys)
    ensures Complete(xs)
  {
    if xs != [] {
      assert (xs + ys)[1..] == xs[1..] + ys;
      CompletePrefix(xs[1..], ys);
    }
  }

  // ---------------------------------------------------------------- rendering a longer format

  /** How many arguments a format consumes. */
  function TotalArgs(items: seq<Item>): nat
  {
    if items == [] then 0 else ArgCount(items[0]) + TotalArgs(items[1..])
  }

  lemma CatAssociative(a: Chunk, b: Chunk, c: Chunk)
    ensures Cat(Cat(a, b), c) == Cat(a, Cat(b, c))
  {
  }

  lemma AcceptsStep(items: seq<Item>, args: seq<Arg>, ap: nat)
    requires items != [] && Accepts(items, args, ap)
    ensures ItemAccepts(items[0], args, ap) && Accepts(items[1..], args, ap + ArgCount(items[0]))
  {
  }

  lemma RenderStep(w: LongWidth, items: seq<Item>, args: seq<Arg>, ap: nat, at: nat, c: Chunk)
    requires items != [] && Accepts(items, args, ap) && c == ItemChunk(w, items[0], args, ap, at)
    ensures Render(w, items, args, ap, at)
         == Cat(c, Render(w, items[1..], args, ap + ArgCount(items[0]), at + |c.text|))
  {
  }

  lemma {:induction false} RenderAppend(w: LongWidth, xs: seq<Item>, ys: seq<Item>, args: seq<Arg>, ap: nat, at: nat)
    requires Accepts(xs, args, ap) && Accepts(ys, args, ap + TotalArgs(xs))
    ensures Accepts(xs + ys, args, ap)
    ensures var c := Render(w, xs, args, ap, at);
            Render(w, xs + ys, args, ap, at) == Cat(c, Render(w, ys, args, ap + TotalArgs(xs), at + |c.text|))
    decreases |xs|
  {
    hide ItemChunk, ItemAccepts, ArgCount, Render;
    if xs == [] {
      assert xs + ys == ys;
      RenderEmpty(w, args, ap, at);
      CatEmpty(Render(w, ys, args, ap, at));
    } else {
      var k := ArgCount(xs[0]);
      var c := ItemChunk(w, xs[0], args, ap, at);
      var all := xs + ys;
      assert all[0] == xs[0] && all[1..] == xs[1..] + ys;
      RenderAppend(w, xs[1..], ys, args, ap + k, at + |c.text|);
      RenderStep(w, xs, args, ap, at, c);
      RenderStep(w, all, args, ap, at, c);
      var c2 := Render(w, xs[1..], args, ap + k, at + |c.text|);
      var c3 := Render(w, ys, args, ap + k + TotalArgs(xs[1..]), at + |c.text| + |c2.text|);
      CatAssociative(c, c2, c3);
    }
  }

  lemma RenderEmpty(w: LongWidth, args: seq<Arg>, ap: nat, at: nat)
    ensures Render(w, [], args, ap, at) == Chunk("", [])
  {
  }

  lemma CatEmpty(c: Chunk)
    ensures Cat(Chunk("", []), c) == c
  {
  }

  /** The `n` arguments from `ap` in `a` are those from `bp` in `b`. */
  predicate SameArgs(a: seq<Arg>, ap: nat, b: seq<Arg>, bp: nat, n: nat)
  {
    ap + n <= |a| && bp + n <= |b| && a[ap..ap + n] == b[bp..bp + n]
  }

  lemma SameArgsAt(a: seq<Arg>, ap: nat, b: seq<Arg>, bp: nat, n: nat, i: nat)
    requires SameArgs(a, ap, b, bp, n) && i < n
    ensures a[ap + i] == b[bp + i]
  {
    assert a[ap..ap + n][i] == b[bp..bp + n][i];
  }

  lemma SameArgsSplit(a: seq<Arg>, ap: nat, b: seq<Arg>, bp: nat, n: nat, k: nat)
    requires SameArgs(a, ap, b, bp, n) && k <= n
    ensures SameArgs(a, ap, b, bp, k) && SameArgs(a, ap + k, b, bp + k, n - k)
  {
    assert a[ap..ap + k] == a[ap..ap + n][..k] && b[bp..bp + k] == b[bp..bp + n][..k];
    assert a[ap + k..ap + n] == a[ap..ap + n][k..] && b[bp + k..bp + n] == b[bp..bp + n][k..];
  }

  lemma ValueSameArg(w: LongWidth, q: Qualifier, c: Option<char>, flags: Flags, width: int, precision: int,
                     a: seq<Arg>, ap: nat, b: seq<Arg>, bp: nat, at: nat)
    requires ValueAccepts(q, c, precision, a, ap)
    requires TakesValue(c) ==> bp < |b| && a[ap] == b[bp]
    ensures ValueAccepts(q, c, precision, b, bp)
    ensures ConversionChunk(w, q, c, flags, width, precision, a, ap, at)
         == ConversionChunk(w, q, c, flags, width, precision, b, bp, at)
  {
  }

  lemma ItemSameArgs(w: LongWidth, item: Item, a: seq<Arg>, ap: nat, b: seq<Arg>, bp: nat, at: nat)
    requires ItemAccepts(item, a, ap) && SameArgs(a, ap, b, bp, ArgCount(item))
    ensures ItemAccepts(item, b, bp) && ItemChunk(w, item, a, ap, at) == ItemChunk(w, item, b, bp, at)
  {
    hide ConversionChunk, ValueAccepts;
    if item.Directive? {
      var Directive(flags, width, precision, q, c) := item;
      var n := ArgCount(item);
      var s1 := StarCount(width);
      var s2 := s1 + StarCount(precision);
      if width == FromArg { SameArgsAt(a, ap, b, bp, n, 0); }
      if precision == FromArg { SameArgsAt(a, ap, b, bp, n, s1); }
      if TakesValue(c) { SameArgsAt(a, ap, b, bp, n, s2); }
      ValueSameArg(w, q, c, FlagsValue(flags, width, a, ap), WidthValue(width, a, ap),
                   PrecisionValue(precision, a, ap + s1), a, ap + s2, b, bp + s2, at);
    }
  }

  /** Only the arguments that are consumed matter. */
  lemma {:induction false} RenderSameArgs(w: LongWidth, items: seq<Item>, a: seq<Arg>, ap: nat, b: seq<Arg>, bp: nat, at: nat)
    requires Accepts(items, a, ap) && SameArgs(a, ap, b, bp, TotalArgs(items))
    ensures Accepts(items, b, bp) && Render(w, items, a, ap, at) == Render(w, items, b, bp, at)
    decreases |items|
  {
    hide ItemChunk, ItemAccepts, ArgCount, Render, SameArgs;
    if items == [] {
      RenderEmpty(w, a, ap, at);
      RenderEmpty(w, b, bp, at);
    } else {
      var k := ArgCount(items[0]);
      var c := ItemChunk(w, items[0], a, ap, at);
      SameArgsSplit(a, ap, b, bp, TotalArgs(items), k);
      ItemSameArgs(w, items[0], a, ap, b, bp, at);
      RenderSameArgs(w, items[1..], a, ap + k, b, bp + k, at + |c.text|);
      RenderStep(w, items, a, ap, at, c);
      RenderStep(w, items, b, bp, at, c);
    }
  }

  function Shift(c: Chunk, d: nat): Chunk
  {
    Chunk(c.text, seq(|c.stores|, i requires 0 <= i < |c.stores| => c.stores[i].(value := c.stores[i].value + d)))
  }

  lemma ShiftCat(a: Chunk, b: Chunk, d: nat)
    ensures Shift(Cat(a, b), d) == Cat(Shift(a, d), Shift(b, d))
  {
  }

  lemma ItemShift(w: LongWidth, item: Item, args: seq<Arg>, ap: nat, at: nat, d: nat)
    requires ItemAccepts(item, args, ap)
    ensures ItemChunk(w, item, args, ap, at + d) == Shift(ItemChunk(w, item, args, ap, at), d)
  {
  }

  /** Starting further on changes nothing but the counts that %n stores. */
  lemma {:induction false} RenderShift(w: LongWidth, items: seq<Item>, args: seq<Arg>, ap: nat, at: nat, d: nat)
    requires Accepts(items, args, ap)
    ensures Render(w, items, args, ap, at + d) == Shift(Render(w, items, args, ap, at), d)
    decreases |items|
  {
    hide ItemChunk, ItemAccepts, ArgCount;
    if items != [] {
      var c := ItemChunk(w, items[0], args, ap, at);
      ItemShift(w, items[0], args, ap, at, d);
      RenderShift(w, items[1..], args, ap + ArgCount(items[0]), at + |c.text|, d);
      ShiftCat(c, Render(w, items[1..], args, ap + ArgCount(items[0]), at + |c.text|), d);
    }
  }

  predicate Matches(fmt: string, args: seq<Arg>) { Accepts(Parse(fmt), args, 0) }

  /** What a format prints from the start of the buffer. */
  function Output(w: LongWidth, fmt: string, args: seq<Arg>): Chunk
    requires Matches(fmt, args)
  {
    Render(w, Parse(fmt), args, 0, 0)
  }

  lemma RenderConcat(w: LongWidth, xs: seq<Item>, ys: seq<Item>, a: seq<Arg>, b: seq<Arg>, out: Chunk)
    requires Accepts(xs, a, 0) && |a| == TotalArgs(xs) && Accepts(ys, b, 0) && |b| >= TotalArgs(ys)
    requires out == Render(w, xs, a, 0, 0)
    ensures Accepts(xs + ys, a + b, 0)
    ensures Render(w, xs + ys, a + b, 0, 0) == Cat(out, Shift(Render(w, ys, b, 0, 0), |out.text|))
  {
    hide Render, Accepts, TotalArgs;
    var both := a + b;
    assert both[0..|a|] == a[0..|a|] && both[|a|..|a| + TotalArgs(ys)] == b[0..TotalArgs(ys)];
    RenderSameArgs(w, xs, a, 0, both, 0, 0);
    RenderSameArgs(w, ys, b, 0, both, |a|, |out.text|);
    RenderAppend(w, xs, ys, both, 0, 0);
    RenderShift(w, ys, b, 0, 0, |out.text|);
  }

  /** Formatting is a homomorphism on complete formats, with the %n counts of the second part shifted. */
  lemma FormatHomomorphism(w: LongWidth, f: string, g: string, a: seq<Arg>, b: seq<Arg>)
    requires Complete(Parse(f)) && Matches(f, a) && |a| == TotalArgs(Parse(f)) && Matches(g, b)
    ensures Matches(f + g, a + b)
    ensures Output(w, f + g, a + b) == Cat(Output(w, f, a), Shift(Output(w, g, b), |Output(w, f, a).text|))
  {
    ParseAppend(f, g);
    AcceptedArgs(Parse(g), b, 0);
    RenderConcat(w, Parse(f), Parse(g), a, b, Output(w, f, a));
  }

  lemma {:induction false} AcceptedArgs(items: seq<Item>, args: seq<Arg>, ap: nat)
    requires Accepts(items, args, ap) && ap <= |args|
    ensures ap + TotalArgs(items) <= |args|
    decreases |items|
  {
    if items != [] { AcceptedArgs(items[1..], args, ap + ArgCount(items[0])); }
  }

  /** Every '%' doubled. */
  function Quote(s: string): string
  {
    if s == [] then [] else (if s[0] == '%' then "%%" else [s[0]]) + Quote(s[1..])
  }

  lemma PlainDirective(c: char, rest: string)
    requires IsConversion(c)
    ensures ScanDirective([c] + rest) == Scan(Directive(NO_FLAGS, Absent, Absent, NoQualifier, Some(c)), rest)
  {
    var t := [c] + rest;
    assert t[1..] == rest && DecimalRun(t) == "";
    ScansCompose(t, NO_FLAGS, t, Absent, t, Absent, t, NoQualifier, t, Some(c), rest);
  }

  lemma ScanQuoted(c: char, quoted: string, t: string)
    requires t == (if c == '%' then "%%" else [c]) + quoted
    ensures t != []
    ensures ScanItem(t) == Scan(
      if c == '%' then Directive(NO_FLAGS, Absent, Absent, NoQualifier, Some('%')) else Literal(c), quoted)
  {
    if c == '%' {
      assert t[1..] == "%" + quoted;
      PlainDirective('%', quoted);
    } else {
      assert t[1..] == quoted;
    }
  }

  lemma QuotedItem(w: LongWidth, c: char, item: Item, at: nat)
    requires item == if c == '%' then Directive(NO_FLAGS, Absent, Absent, NoQualifier, Some('%')) else Literal(c)
    ensures ItemAccepts(item, [], 0) && ArgCount(item) == 0 && ItemChunk(w, item, [], 0, at) == Chunk([c], [])
  {
  }

  lemma NothingToParse()
    ensures Parse("") == []
  {
  }

  /** A string with every '%' doubled, used as a format without arguments, prints itself. */
  lemma {:induction false} QuotePrintsItself(w: LongWidth, s: string, at: nat)
    ensures Matches(Quote(s), []) && Render(w, Parse(Quote(s)), [], 0, at) == Chunk(s, [])
    decreases |s|
  {
    hide ScanItem, ItemChunk, ItemAccepts, ArgCount, Render, Parse;
    if s == [] {
      NothingToParse();
      RenderEmpty(w, [], 0, at);
    } else {
      var t := Quote(s);
      ScanQuoted(s[0], Quote(s[1..]), t);
      var item, items := ScanItem(t).found, Parse(t);
      ParseStep(t, item, Quote(s[1..]));
      assert items[0] == item && items[1..] == Parse(Quote(s[1..]));
      QuotedItem(w, s[0], item, at);
      QuotePrintsItself(w, s[1..], at + 1);
      RenderStep(w, items, [], 0, at, Chunk([s[0]], []));
    }
  }

  // ---------------------------------------------------------------- number() and skip_atoi()

  /** Without flags: blanks up to the width, then zeros up to the precision, then the digits. */
  lemma PlainLayout(digits: string, size: int, precision: int)
    ensures var body := Fill('0', precision - |digits|) + digits;
            Layout("", "", digits, size, precision, NO_FLAGS) == Fill(' ', size - |body|) + body
  {
    hide Fill;
    var body := Fill('0', precision - |digits|) + digits;
    assert Fill(' ', size - |body|) + "" + "" == Fill(' ', size - |body|);
  }

  lemma PlainNumber(w: LongWidth, n: nat, size: int, precision: int)
    requires n < 0x8000_0000
    ensures NumberText(w, n, 10, size, precision, NO_FLAGS)
         == Layout("", "", DigitsOf(n, 10, false), size, precision, NO_FLAGS)
  {
    hide DigitsOf, Layout, UnsignedLong;
    UnsignedOfNatural(w, n);
  }

  lemma BodyIsDecimal(n: nat, zeros: int)
    requires n < 0x8000_0000
    ensures var body := Fill('0', zeros) + DigitsOf(n, 10, false);
            body != [] && (forall i :: 0 <= i < |body| ==> IsDecimal(body[i])) && DecimalValue(body) == n
  {
    hide DigitsOf;
    DecimalTextFacts(n, DigitsOf(n, 10, false));
    EvalLeadingZeros(zeros, DigitsOf(n, 10, false), 10);
  }

  /** skip_atoi() reads back what number() prints in base 10, for every value an `int` holds and every precision,
      exactly when the width has not padded it. */
  lemma SkipAtoiUndoesNumber(w: LongWidth, n: nat, size: int, precision: int, rest: string)
    requires n < 0x8000_0000 && (rest == [] || !IsDecimal(rest[0]))
    ensures var text, unpadded := NumberText(w, n, 10, size, precision, NO_FLAGS),
                                  size <= Max(precision, |DigitsOf(n, 10, false)|);
            && (DecimalRun(text + rest) == text <==> unpadded)
            && (unpadded ==> DecimalValue(text) == n)
  {
    hide NumberText, DigitsOf, DecimalValue, Layout;
    PlainNumber(w, n, size, precision);
    PlainLayout(DigitsOf(n, 10, false), size, precision);
    var digits, text := DigitsOf(n, 10, false), NumberText(w, n, 10, size, precision, NO_FLAGS);
    var body := Fill('0', precision - |digits|) + digits;
    if size <= Max(precision, |digits|) {
      assert text == body;
      BodyIsDecimal(n, precision - |digits|);
      DecimalRunReads(text, rest);
    } else {
      assert (text + rest)[0] == ' ';
      assert DecimalRun(text + rest) == "";
    }
  }
}
