/**
  vsprintf(), imperatively: a format cursor, an argument cursor and a write cursor over a byte buffer.
  It writes exactly what `Format.Render` says, then a NUL, and nothing after it.
 */
module Vsprintf {
  import opened CInt
  import opened Digits
  import opened Numbers
  import opened Directive
  import opened Format
  import opened FormatLaws

  /** A C string in memory, up to and with its terminating NUL: reading past it would be out of range. */
  ghost predicate IsCString(s: string)
  {
    |s| > 0 && s[|s| - 1] == NUL && forall i :: 0 <= i < |s| - 1 ==> s[i] != NUL
  }

  /** The characters still in front of the cursor. */
  ghost function Tail(fmt: string, fp: nat): string
    requires fp < |fmt|
  {
    fmt[fp..|fmt| - 1]
  }

  lemma TailStep(fmt: string, fp: nat)
    requires IsCString(fmt) && fp < |fmt|
    ensures fmt[fp] == NUL <==> Tail(fmt, fp) == []
    ensures fmt[fp] == NUL <==> fp == |fmt| - 1
    ensures fmt[fp] != NUL ==> Tail(fmt, fp)[0] == fmt[fp] && Tail(fmt, fp)[1..] == Tail(fmt, fp + 1)
  {
  }

  // ---------------------------------------------------------------- the scanner

  /** `repeat: ++fmt; switch (*fmt) ...; goto repeat;` */
  method ScanFlagChars(fmt: string, start: nat) returns (flags: Flags, fp: nat)
    requires IsCString(fmt) && start < |fmt| - 1
    ensures start < fp < |fmt|
    ensures ScanFlags(Tail(fmt, start + 1), NO_FLAGS) == Scan(flags, Tail(fmt, fp))
  {
    flags, fp := NO_FLAGS, start + 1;
    TailStep(fmt, fp);
    while IsFlagChar(fmt[fp])
      invariant start < fp < |fmt|
      invariant fmt[fp] == NUL <==> Tail(fmt, fp) == []
      invariant fmt[fp] != NUL ==> Tail(fmt, fp)[0] == fmt[fp]
      invariant ScanFlags(Tail(fmt, start + 1), NO_FLAGS) == ScanFlags(Tail(fmt, fp), flags)
      decreases |fmt| - fp
    {
      TailStep(fmt, fp);
      flags := SetFlag(flags, fmt[fp]);
      fp := fp + 1;
      TailStep(fmt, fp);
    }
  }

  lemma IntAddsMultiples(v: int, k: int)
    ensures Int(v + k * 0x1_0000_0000) == Int(v)
  {
  }

  /** One round of skip_atoi in wrapping arithmetic computes the wrapped value. */
  lemma AtoiStep(value: int, i: int, c: char)
    requires i == Int(value) && IsDecimal(c)
    ensures Int(Int(Int(i * 10) + c as int) - '0' as int) == Int(value * 10 + DigitVal(c))
  {
    var k := (value - i) / 0x1_0000_0000;
    assert value == i + k * 0x1_0000_0000;
    var a := Int(i * 10);
    var ka := (i * 10 - a) / 0x1_0000_0000;
    assert i * 10 == a + ka * 0x1_0000_0000;
    var b := Int(a + c as int);
    var kb := (a + c as int - b) / 0x1_0000_0000;
    assert a + c as int == b + kb * 0x1_0000_0000;
    IntAddsMultiples(b - '0' as int, kb + ka + 10 * k);
    assert value * 10 + DigitVal(c) == b - '0' as int + (kb + ka + 10 * k) * 0x1_0000_0000;
  }

  lemma RunStep(s: string, sp: nat)
    requires IsCString(s) && sp < |s|
    ensures IsDecimal(s[sp]) ==> sp + 1 < |s|
    ensures DecimalRun(Tail(s, sp)) == if IsDecimal(s[sp]) then [s[sp]] + DecimalRun(Tail(s, sp + 1)) else ""
  {
    TailStep(s, sp);
  }

  lemma EvalAppend(s: string, c: char, base: int)
    ensures Eval(s + [c], base) == Eval(s, base) * base + DigitVal(c)
  {
    assert (s + [c])[..|s|] == s;
  }

  method SkipAtoi(s: string, start: nat) returns (i: int32, sp: nat)
    requires IsCString(s) && start < |s|
    ensures start <= sp < |s|
    ensures i == DecimalValue(DecimalRun(Tail(s, start)))
    ensures sp == start + |DecimalRun(Tail(s, start))|
  {
    hide Tail, IsCString, DecimalRun, DigitVal;
    ghost var run, done := DecimalRun(Tail(s, start)), "";
    i, sp := 0, start;
    while IsDecimal(s[sp])
      invariant start <= sp < |s| && sp == start + |done|
      invariant run == done + DecimalRun(Tail(s, sp))
      invariant i == Int(Eval(done, 10))
      decreases |s| - sp
    {
      RunStep(s, sp);
      AtoiStep(Eval(done, 10), i, s[sp]);
      EvalAppend(done, s[sp], 10);
      assert done + ([s[sp]] + DecimalRun(Tail(s, sp + 1))) == done + [s[sp]] + DecimalRun(Tail(s, sp + 1));
      done := done + [s[sp]];
      i := Int(Int(Int(i * 10) + s[sp] as int) - '0' as int);
      sp := sp + 1;
    }
    RunStep(s, sp);
    assert run == done;
  }

  lemma TailDrop(fmt: string, fp: nat, n: nat)
    requires fp < |fmt| && n <= |Tail(fmt, fp)|
    ensures fp + n < |fmt| && Tail(fmt, fp)[n..] == Tail(fmt, fp + n)
  {
  }

  /** What the next character says about a width or a precision. */
  lemma ScanWidthAt(fmt: string, fp: nat)
    requires IsCString(fmt) && fp < |fmt|
    ensures var r, run := ScanWidth(Tail(fmt, fp)), DecimalRun(Tail(fmt, fp));
            if IsDecimal(fmt[fp]) then
              && fp + |run| < |fmt| && r == Scan(Given(DecimalValue(run)), Tail(fmt, fp + |run|))
            else if fmt[fp] == '*' then fp + 1 < |fmt| && r == Scan(FromArg, Tail(fmt, fp + 1))
            else r == Scan(Absent, Tail(fmt, fp))
  {
    hide DecimalValue, DecimalRun, IsCString, Tail;
    var run := DecimalRun(Tail(fmt, fp));
    TailStep(fmt, fp);
    RunStep(fmt, fp);
    if IsDecimal(fmt[fp]) { TailDrop(fmt, fp, |run|); }
  }

  /** The field width: digits, or `*` for the next argument, whose sign may set LEFT. */
  method ReadWidth(fmt: string, start: nat, flags: Flags, args: seq<Arg>, next: nat)
    returns (width: int, flags': Flags, fp: nat, ap: nat)
    requires IsCString(fmt) && start < |fmt|
    requires StarAccepts(ScanWidth(Tail(fmt, start)).found, args, next)
    ensures start <= fp < |fmt|
    ensures var r := ScanWidth(Tail(fmt, start));
            r.rest == Tail(fmt, fp) && width == WidthValue(r.found, args, next) &&
            flags' == FlagsValue(flags, r.found, args, next) && ap == next + StarCount(r.found)
  {
    hide DecimalValue, DecimalRun, IsCString, ScanWidth, Tail;
    width, flags', fp, ap := -1, flags, start, next;
    ScanWidthAt(fmt, fp);
    if IsDecimal(fmt[fp]) {
      width, fp := SkipAtoi(fmt, fp);
    } else if fmt[fp] == '*' {
      fp := fp + 1;
      width := args[ap].i;
      ap := ap + 1;
      if width < 0 {
        width := Int(0 - width);
        flags' := flags'.(left := true);
      }
    }
  }

  lemma ScanPrecisionAt(fmt: string, fp: nat)
    requires IsCString(fmt) && fp < |fmt|
    ensures fmt[fp] != '.' ==> ScanPrecision(Tail(fmt, fp)) == Scan(Absent, Tail(fmt, fp))
    ensures fmt[fp] == '.' ==> fp + 1 < |fmt|
    ensures fmt[fp] == '.' ==> ScanPrecision(Tail(fmt, fp)) == AsPrecision(ScanWidth(Tail(fmt, fp + 1)))
  {
    hide ScanWidth, Tail;
    TailStep(fmt, fp);
  }

  /** The precision: after a '.', digits or `*`; anything missing or negative is 0. */
  method ReadPrecision(fmt: string, start: nat, args: seq<Arg>, next: nat) returns (precision: int, fp: nat, ap: nat)
    requires IsCString(fmt) && start < |fmt|
    requires StarAccepts(ScanPrecision(Tail(fmt, start)).found, args, next)
    ensures start <= fp < |fmt|
    ensures var r := ScanPrecision(Tail(fmt, start));
            r.rest == Tail(fmt, fp) && precision == PrecisionValue(r.found, args, next) &&
            ap == next + StarCount(r.found)
  {
    hide DecimalValue, DecimalRun, IsCString, ScanWidth, ScanPrecision, Tail;
    precision, fp, ap := -1, start, next;
    ScanPrecisionAt(fmt, fp);
    if fmt[fp] == '.' {
      fp := fp + 1;
      ScanWidthAt(fmt, fp);
      if IsDecimal(fmt[fp]) {
        precision, fp := SkipAtoi(fmt, fp);
      } else if fmt[fp] == '*' {
        fp := fp + 1;
        precision := args[ap].i;
        ap := ap + 1;
      }
      if precision < 0 { precision := 0; }
    }
  }

  method ReadQualifier(fmt: string, start: nat) returns (q: Qualifier, fp: nat)
    requires IsCString(fmt) && start < |fmt|
    ensures start <= fp < |fmt|
    ensures ScanQualifier(Tail(fmt, start)) == Scan(q, Tail(fmt, fp))
  {
    q, fp := NoQualifier, start;
    TailStep(fmt, fp);
    if fmt[fp] == 'h' || fmt[fp] == 'l' || fmt[fp] == 'L' {
      q := if fmt[fp] == 'h' then Half else if fmt[fp] == 'l' then LongQ else BigL;
      fp := fp + 1;
    }
  }

  // ---------------------------------------------------------------- the conversions

  method Strnlen(s: string, maxlen: nat) returns (res: nat)
    requires maxlen <= |s| || NUL in s
    ensures res == if maxlen < TextLength(s) then maxlen else TextLength(s)
  {
    res := 0;
    assert s[0..] == s;
    while res < maxlen && s[res] != NUL
      invariant res <= maxlen && res <= |s|
      invariant res < |s| || res == maxlen
      invariant forall i :: 0 <= i < res ==> s[i] != NUL
    {
      res := res + 1;
    }
  }

  /** `while (--n > 0) *str++ = ' ';` */
  method PadPreDecrement(buf: array<char>, str: nat, count: int) returns (next: nat, n: int)
    requires str + |Fill(' ', count - 1)| <= buf.Length
    modifies buf
    ensures next == str + |Fill(' ', count - 1)| && buf[..next] == old(buf[..str]) + Fill(' ', count - 1)
    ensures Untouched(buf, next)
    ensures n == if count > 0 then 0 else count - 1
  {
    next, n := str, count - 1;
    while n > 0
      invariant n <= count - 1 && (if count > 0 then 0 <= n else n == count - 1)
      invariant next == str + count - 1 - n
      invariant buf[..next] == old(buf[..str]) + Fill(' ', count - 1 - n)
      invariant Untouched(buf, next)
      decreases n
    {
      next := Put(buf, next, ' ');
      n := n - 1;
    }
  }

  /** `%c` */
  method PutCharacter(buf: array<char>, start: nat, c: char, width: int, left: bool) returns (str: nat)
    requires start + |Justify([c], width, left)| <= buf.Length
    modifies buf
    ensures str == start + |Justify([c], width, left)|
    ensures buf[..str] == old(buf[..start]) + Justify([c], width, left)
    ensures Untouched(buf, str)
  {
    var n := width;
    str := start;
    if !left {
      str, n := PadPreDecrement(buf, str, n);
    }
    str := Put(buf, str, c);
    str, n := PadPreDecrement(buf, str, n);
  }

  /** `for (i = 0; i < len; ++i) *str++ = *s++;` */
  method CopyText(buf: array<char>, start: nat, s: string, len: nat) returns (str: nat)
    requires len <= |s| && start + len <= buf.Length
    modifies buf
    ensures str == start + len && buf[..str] == old(buf[..start]) + s[..len]
    ensures Untouched(buf, str)
  {
    str := start;
    var i := 0;
    while i < len
      invariant i <= len && str == start + i
      invariant buf[..str] == old(buf[..start]) + s[..i]
      invariant Untouched(buf, str)
    {
      str := Put(buf, str, s[i]);
      i := i + 1;
    }
  }

  /** Padding on the left unless LEFT is set, the text, and whatever padding is left on the right. */
  method PutJustified(buf: array<char>, start: nat, s: string, len: nat, width: int, left: bool) returns (str: nat)
    requires len <= |s| && start + |Justify(s[..len], width, left)| <= buf.Length
    modifies buf
    ensures str == start + |Justify(s[..len], width, left)|
    ensures buf[..str] == old(buf[..start]) + Justify(s[..len], width, left)
    ensures Untouched(buf, str)
  {
    hide Fill, Justify;
    ghost var text := s[..len];
    JustifyPieces(text, width, left);
    var n: int;
    str, n := PadUnless(left, buf, start, ' ', len, width);
    str := CopyText(buf, str, s, len);
    RestOfWidth(width, n, len, left);
    str, n := PadWhileAbove(buf, str, ' ', len, n);
    JoinJustified(old(buf[..start]), Fill(' ', if left then 0 else width - len), text,
                  Fill(' ', if left then width - len else 0));
  }

  lemma JustifyPieces(text: string, width: int, left: bool)
    ensures Justify(text, width, left)
         == Fill(' ', if left then 0 else width - |text|) + text + Fill(' ', if left then width - |text| else 0)
  {
  }

  /** After padding on the left the counter asks for none on the right. */
  lemma RestOfWidth(width: int, n: int, len: nat, left: bool)
    requires n == if left then width else (if width > len then len else width) - 1
    ensures Fill(' ', n - len) == Fill(' ', if left then width - len else 0)
  {
  }

  lemma JoinJustified(o: string, a: string, b: string, c: string)
    ensures o + a + b + c == o + (a + b + c)
  {
    assert o + a + b == o + (a + b);
  }

  lemma MaxSize(w: LongWidth)
    ensures UnsignedLong(w, -1) >= 0xFFFF_FFFF
  {
  }

  /** strnlen() takes a missing precision, -1, as the largest `size_t`: no limit at all. */
  lemma StrnlenOfPrecision(w: LongWidth, s: string, precision: int, maxlen: nat, len: nat)
    requires -1 <= precision && Readable(s, precision)
    requires maxlen == if precision < 0 then UnsignedLong(w, precision) else precision
    requires len == if maxlen < TextLength(s) then maxlen else TextLength(s)
    ensures len <= |s| && s[..len] == StringText(s, precision)
  {
    hide UnsignedLong, TextLength;
    MaxSize(w);
  }

  /** `%s` */
  method PutString(w: LongWidth, buf: array<char>, start: nat, s: string, width: int, precision: int, left: bool)
    returns (str: nat)
    requires -1 <= precision && Readable(s, precision)
    requires start + |Justify(StringText(s, precision), width, left)| <= buf.Length
    modifies buf
    ensures str == start + |Justify(StringText(s, precision), width, left)|
    ensures buf[..str] == old(buf[..start]) + Justify(StringText(s, precision), width, left)
    ensures Untouched(buf, str)
  {
    var maxlen := if precision < 0 then UnsignedLong(w, precision) else precision;
    var len := Strnlen(s, maxlen);
    StrnlenOfPrecision(w, s, precision, maxlen, len);
    str := PutJustified(buf, start, s, len, width, left);
  }

  /** The switch on the conversion character, with the number() calls it ends in. `c` is NUL when the format
      has ended. */
  method Convert(w: LongWidth, buf: array<char>, start: nat, q: Qualifier, c: char, flags: Flags, width: int,
                 precision: int, args: seq<Arg>, ap: nat)
    returns (str: nat, next: nat, stores: seq<Store>)
    requires -1 <= precision
    requires ValueAccepts(q, if c == NUL then None else Some(c), precision, args, ap)
    requires var chunk := ConversionChunk(w, q, if c == NUL then None else Some(c), flags, width, precision, args, ap, start);
             start + |chunk.text| <= buf.Length
    modifies buf
    ensures var chunk := ConversionChunk(w, q, if c == NUL then None else Some(c), flags, width, precision, args, ap, start);
            str == start + |chunk.text| && buf[..str] == old(buf[..start]) + chunk.text && stores == chunk.stores
    ensures next == ap + if c != NUL && TakesValue(Some(c)) then 1 else 0
    ensures Untouched(buf, str)
  {
    hide NumberText, Justify, StringText, Long, IntegerFlags, IntegerValue, Base, PointerText;
    str, next, stores := start, ap, [];
    match c {
      case 'c' =>
        str := PutCharacter(buf, str, (args[ap].i % 256) as char, width, flags.left);
        next := ap + 1;
      case 's' =>
        str := PutString(w, buf, str, args[ap].s, width, precision, flags.left);
        next := ap + 1;
      case 'p' =>
        str := ConvertPointer(w, buf, str, args[ap].p, width, precision, flags);
        next := ap + 1;
      case 'n' =>
        stores := [Store(args[ap].address, q == LongQ, str)];
        next := ap + 1;
      case '%' => str := Put(buf, str, '%');
      case _ =>
        if IsInteger(c) {
          str := ConvertInteger(w, buf, str, q, c, flags, width, precision, args[ap]);
          next := ap + 1;
        } else {
          str := PutUnknown(buf, str, c);
        }
    }
  }

  /** `%p`: without a width, all the digits a pointer can have. */
  method ConvertPointer(w: LongWidth, buf: array<char>, start: nat, p: nat, width: int, precision: int, flags: Flags)
    returns (str: nat)
    requires start + |PointerText(w, p, width, precision, flags)| <= buf.Length
    modifies buf
    ensures var text := PointerText(w, p, width, precision, flags);
            str == start + |text| && buf[..str] == old(buf[..start]) + text
    ensures Untouched(buf, str)
  {
    hide NumberText, Long;
    var width', flags' := width, flags;
    if width' == -1 {
      width' := 2 * (w / 8);
      flags' := flags'.(zeropad := true);
    }
    var end := Number(w, buf, start, Long(w, p), 16, width', precision, flags');
    str := end.value;
  }

  /** A conversion that is none prints itself; at the end of the format only the '%' is left. */
  method PutUnknown(buf: array<char>, start: nat, c: char) returns (str: nat)
    requires start + (if c == NUL then 1 else 2) <= buf.Length
    modifies buf
    ensures var text := if c == NUL then "%" else ['%', c];
            str == start + |text| && buf[..str] == old(buf[..start]) + text
    ensures Untouched(buf, str)
  {
    str := Put(buf, start, '%');
    if c != NUL {
      str := Put(buf, str, c);
    }
  }

  method BaseAndFlags(c: char, flags: Flags) returns (base: int, flags': Flags)
    requires IsInteger(c)
    ensures base == Base(c) && flags' == IntegerFlags(flags, c)
  {
    base, flags' := 10, flags;
    if c == 'o' {
      base := 8;
    } else if c == 'x' {
      flags' := flags'.(small := true);
      base := 16;
    } else if c == 'X' {
      base := 16;
    } else if c == 'd' || c == 'i' {
      flags' := flags'.(sign := true);
    }
  }

  /** `%o %x %X %d %i %u`: the base, the flags, and the argument as its length and signedness tell. */
  method ConvertInteger(w: LongWidth, buf: array<char>, start: nat, q: Qualifier, c: char, flags: Flags, width: int,
                        precision: int, arg: Arg)
    returns (str: nat)
    requires IsInteger(c) && (if q == LongQ then arg.LongArg? else arg.IntArg?)
    requires var f := IntegerFlags(flags, c);
             start + |NumberText(w, IntegerValue(w, q, f.sign, arg), Base(c), width, precision, f)| <= buf.Length
    modifies buf
    ensures var f := IntegerFlags(flags, c);
            var text := NumberText(w, IntegerValue(w, q, f.sign, arg), Base(c), width, precision, f);
            str == start + |text| && buf[..str] == old(buf[..start]) + text
    ensures Untouched(buf, str)
  {
    hide NumberText, IntegerValue, Long, IntegerFlags, Base;
    var base, flags' := BaseAndFlags(c, flags);
    var num := IntegerArgument(w, q, flags'.sign, arg);
    var end := Number(w, buf, start, Long(w, num), base, width, precision, flags');
    str := end.value;
  }

  /** The argument as an `unsigned long`, after the conversions its length and signedness call for. */
  method IntegerArgument(w: LongWidth, q: Qualifier, signed: bool, arg: Arg) returns (num: nat)
    requires if q == LongQ then arg.LongArg? else arg.IntArg?
    ensures Long(w, num) == IntegerValue(w, q, signed, arg)
  {
    if q == LongQ {
      num := UnsignedLong(w, arg.l);
      LongOfUnsigned(w, arg.l);
    } else if q == Half {
      num := UnsignedShort(arg.i);
      if signed {
        LongOfUnsigned(w, Short(num));
        num := UnsignedLong(w, Short(num));
      }
    } else if signed {
      num := UnsignedLong(w, arg.i);
      LongOfUnsigned(w, arg.i);
    } else {
      num := UnsignedInt(arg.i);
    }
  }

  lemma LongOfUnsigned(w: LongWidth, v: int)
    ensures Long(w, UnsignedLong(w, v)) == Long(w, v)
  {
  }

  /** One directive, from its '%' on. `last` is where `fmt` is left for the loop's own `++fmt`: at the
      conversion character, or, when the format has ended, one step back. */
  method FormatDirective(w: LongWidth, buf: array<char>, start: nat, fmt: string, first: nat, args: seq<Arg>, next: nat)
    returns (str: nat, last: nat, ap: nat, stores: seq<Store>)
    requires IsCString(fmt) && first < |fmt| - 1
    requires ItemAccepts(ScanDirective(Tail(fmt, first + 1)).found, args, next)
    requires start + |ItemChunk(w, ScanDirective(Tail(fmt, first + 1)).found, args, next, start).text| <= buf.Length
    modifies buf
    ensures var r := ScanDirective(Tail(fmt, first + 1));
            var chunk := ItemChunk(w, r.found, args, next, start);
            str == start + |chunk.text| && buf[..str] == old(buf[..start]) + chunk.text && stores == chunk.stores &&
            ap == next + ArgCount(r.found) && first <= last < |fmt| - 1 && r.rest == Tail(fmt, last + 1)
    ensures Untouched(buf, str)
  {
    hide ScanFlags, ScanWidth, ScanPrecision, ScanQualifier, ConversionChunk, ValueAccepts;
    ghost var item := ScanDirective(Tail(fmt, first + 1)).found;
    var flags, fp := ScanFlagChars(fmt, first);
    var width, precision, q;
    width, flags, fp, ap := ReadWidth(fmt, fp, flags, args, next);
    precision, fp, ap := ReadPrecision(fmt, fp, args, ap);
    q, fp := ReadQualifier(fmt, fp);
    TailStep(fmt, fp);
    PrecisionIsAtLeastMinusOne(ScanWidth(ScanFlags(Tail(fmt, first + 1), NO_FLAGS).rest).rest, args,
                               next + StarCount(item.width));
    str, ap, stores := Convert(w, buf, start, q, fmt[fp], flags, width, precision, args, ap);
    last := if fmt[fp] == NUL then fp - 1 else fp;
  }

  lemma PrecisionIsAtLeastMinusOne(t: string, args: seq<Arg>, ap: nat)
    requires StarAccepts(ScanPrecision(t).found, args, ap)
    ensures -1 <= PrecisionValue(ScanPrecision(t).found, args, ap)
  {
  }

  /** What is printed already, `done`, and what the rest of the format prints make up the whole output. */
  ghost predicate SoFar(w: LongWidth, whole: Chunk, done: Chunk, t: string, args: seq<Arg>, ap: nat)
  {
    Accepts(Parse(t), args, ap) && whole == Cat(done, Render(w, Parse(t), args, ap, |done.text|))
  }

  lemma ItemFits(w: LongWidth, whole: Chunk, done: Chunk, t: string, args: seq<Arg>, ap: nat)
    requires t != [] && SoFar(w, whole, done, t, args, ap)
    ensures ItemAccepts(ScanItem(t).found, args, ap)
    ensures |done.text| + |ItemChunk(w, ScanItem(t).found, args, ap, |done.text|).text| <= |whole.text|
  {
    hide ScanItem, ItemAccepts, ItemChunk, ArgCount, Parse, Render, Accepts;
    ParseStep(t, ScanItem(t).found, ScanItem(t).rest);
    AcceptsStep(Parse(t), args, ap);
    RenderStep(w, Parse(t), args, ap, |done.text|, ItemChunk(w, ScanItem(t).found, args, ap, |done.text|));
  }

  lemma ItemDone(w: LongWidth, whole: Chunk, done: Chunk, t: string, args: seq<Arg>, ap: nat, item: Item, rest: string)
    requires t != [] && SoFar(w, whole, done, t, args, ap) && ScanItem(t) == Scan(item, rest)
    requires ItemAccepts(item, args, ap)
    ensures SoFar(w, whole, Cat(done, ItemChunk(w, item, args, ap, |done.text|)), rest, args, ap + ArgCount(item))
  {
    hide ScanItem, ItemAccepts, ItemChunk, ArgCount, Parse, Render, Accepts;
    var c, items := ItemChunk(w, item, args, ap, |done.text|), Parse(t);
    ParseStep(t, item, rest);
    assert items[0] == item && items[1..] == Parse(rest);
    AcceptsStep(items, args, ap);
    RenderStep(w, items, args, ap, |done.text|, c);
    CatAssociative(done, c, Render(w, Parse(rest), args, ap + ArgCount(item), |done.text| + |c.text|));
  }

  /** One turn of the loop body: a literal character or a directive. */
  method FormatItem(w: LongWidth, buf: array<char>, start: nat, fmt: string, first: nat, args: seq<Arg>, next: nat)
    returns (str: nat, last: nat, ap: nat, stores: seq<Store>)
    requires IsCString(fmt) && first < |fmt| && fmt[first] != NUL && Tail(fmt, first) != []
    requires ItemAccepts(ScanItem(Tail(fmt, first)).found, args, next)
    requires start + |ItemChunk(w, ScanItem(Tail(fmt, first)).found, args, next, start).text| <= buf.Length
    modifies buf
    ensures var r := ScanItem(Tail(fmt, first));
            var chunk := ItemChunk(w, r.found, args, next, start);
            str == start + |chunk.text| && buf[..str] == old(buf[..start]) + chunk.text && stores == chunk.stores &&
            ap == next + ArgCount(r.found) && first <= last < |fmt| - 1 && r.rest == Tail(fmt, last + 1)
    ensures Untouched(buf, str)
  {
    hide ScanDirective;
    TailStep(fmt, first);
    if fmt[first] != '%' {
      str := Put(buf, start, fmt[first]);
      last, ap, stores := first, next, [];
    } else {
      str, last, ap, stores := FormatDirective(w, buf, start, fmt, first, args, next);
    }
  }

  /** vsprintf(): for every format that ends in NUL, every matching argument list and a large enough buffer. */
  method Vsprintf(w: LongWidth, buf: array<char>, fmt: string, args: seq<Arg>) returns (length: nat, stores: seq<Store>)
    requires IsCString(fmt) && Matches(fmt[..|fmt| - 1], args)
    requires |Output(w, fmt[..|fmt| - 1], args).text| < buf.Length
    modifies buf
    ensures length == |Output(w, fmt[..|fmt| - 1], args).text|
    ensures buf[..length + 1] == Output(w, fmt[..|fmt| - 1], args).text + [NUL]
    ensures stores == Output(w, fmt[..|fmt| - 1], args).stores
    ensures Untouched(buf, length + 1)
  {
    hide ScanItem, ItemAccepts, ItemChunk, ArgCount, SoFar, Render, Parse, Accepts;
    ghost var whole := Output(w, fmt[..|fmt| - 1], args);
    SoFarStarts(w, fmt, args, whole);
    var str: nat, fp: nat, ap: nat := 0, 0, 0;
    stores := [];
    assert buf[..0] == "";
    while fmt[fp] != NUL
      invariant fp < |fmt| && str <= |whole.text|
      invariant SoFar(w, whole, Chunk(buf[..str], stores), Tail(fmt, fp), args, ap)
      invariant Untouched(buf, str)
      decreases |fmt| - fp
    {
      TailStep(fmt, fp);
      ghost var done, t := Chunk(buf[..str], stores), Tail(fmt, fp);
      ghost var item, ap0 := ScanItem(t).found, ap;
      ItemFits(w, whole, done, t, args, ap);
      var last, more;
      str, last, ap, more := FormatItem(w, buf, str, fmt, fp, args, ap);
      stores := stores + more;
      fp := last + 1;
      ItemDone(w, whole, done, t, args, ap0, item, Tail(fmt, fp));
      assert Chunk(buf[..str], stores) == Cat(done, ItemChunk(w, item, args, ap0, |done.text|));
    }
    TailStep(fmt, fp);
    SoFarEnds(w, whole, Chunk(buf[..str], stores), args, ap);
    buf[str] := NUL;
    length := str;
  }

  lemma SoFarStarts(w: LongWidth, fmt: string, args: seq<Arg>, whole: Chunk)
    requires |fmt| > 0 && Matches(fmt[..|fmt| - 1], args) && whole == Output(w, fmt[..|fmt| - 1], args)
    ensures SoFar(w, whole, Chunk("", []), Tail(fmt, 0), args, 0)
  {
    assert Tail(fmt, 0) == fmt[..|fmt| - 1];
    CatEmpty(whole);
  }

  lemma SoFarEnds(w: LongWidth, whole: Chunk, done: Chunk, args: seq<Arg>, ap: nat)
    requires SoFar(w, whole, done, [], args, ap)
    ensures whole == done
  {
    assert whole == Cat(done, Chunk("", []));
  }
}
