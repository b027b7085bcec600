/** What a format and its arguments print: `Parse` then `Render`. */
module Format {
  import opened CInt
  import opened Digits
  import opened Numbers
  import opened Directive

  /** One variable argument, of the type the directive takes with va_arg. */
  datatype Arg =
    | IntArg(i: int32)
    | LongArg(l: int)
    | PointerArg(p: nat)
    | StringArg(s: string)
    | IntTarget(address: nat)
    | LongTarget(address: nat)

  /** A store made by %n: through an `int *` or a `long *`. */
  datatype Store = Store(address: nat, isLong: bool, value: nat)

  /** Printed text and the stores made on the way. */
  datatype Chunk = Chunk(text: string, stores: seq<Store>)

  function Cat(a: Chunk, b: Chunk): Chunk
  {
    Chunk(a.text + b.text, a.stores + b.stores)
  }

  // ---------------------------------------------------------------- arguments

  predicate IsInteger(c: char)
  {
    c == 'o' || c == 'x' || c == 'X' || c == 'd' || c == 'i' || c == 'u'
  }

  /** Arguments a `*` takes. */
  function StarCount(c: Count): nat { if c == FromArg then 1 else 0 }

  predicate TakesValue(c: Option<char>)
  {
    c == Some('c') || c == Some('s') || c == Some('p') || c == Some('n') || (c.Some? && IsInteger(c.value))
  }

  /** Whether the argument has the type the conversion takes it with. */
  predicate Suits(arg: Arg, q: Qualifier, c: Option<char>)
  {
    if c == Some('c') then arg.IntArg?
    else if c == Some('s') then arg.StringArg?
    else if c == Some('p') then arg.PointerArg?
    else if c == Some('n') then if q == LongQ then arg.LongTarget? else arg.IntTarget?
    else if c.Some? && IsInteger(c.value) then if q == LongQ then arg.LongArg? else arg.IntArg?
    else true
  }

  /** How many arguments an item consumes: a `*` width, a `*` precision, the value, in that order. */
  function ArgCount(item: Item): nat
  {
    match item
    case Literal(_) => 0
    case Directive(_, width, precision, _, c) =>
      StarCount(width) + StarCount(precision) + if TakesValue(c) then 1 else 0
  }

  const NUL := '\0'

  /** strnlen() finds a NUL, or its limit, inside the memory at `s`; its result fits an `int`. */
  predicate Readable(s: string, limit: int)
  {
    |s| < 0x8000_0000 && ((0 <= limit <= |s|) || NUL in s)
  }

  predicate StarAccepts(c: Count, args: seq<Arg>, ap: nat)
  {
    c == FromArg ==> ap < |args| && args[ap].IntArg?
  }

  /** The argument of the conversion itself is there, has its type, and is a readable string for %s. */
  predicate ValueAccepts(q: Qualifier, c: Option<char>, precision: int, args: seq<Arg>, ap: nat)
  {
    TakesValue(c) ==>
      ap < |args| && Suits(args[ap], q, c) && (c == Some('s') ==> Readable(args[ap].s, precision))
  }

  /** From index `ap` on, the arguments are those the item takes. */
  predicate ItemAccepts(item: Item, args: seq<Arg>, ap: nat)
  {
    match item
    case Literal(_) => true
    case Directive(_, width, precision, q, c) =>
      StarAccepts(width, args, ap) &&
      StarAccepts(precision, args, ap + StarCount(width)) &&
      ValueAccepts(q, c, PrecisionValue(precision, args, ap + StarCount(width)), args,
                   ap + StarCount(width) + StarCount(precision))
  }

  /** The arguments from `ap` on match the format, in number, type and order; there may be more of them. */
  predicate Accepts(items: seq<Item>, args: seq<Arg>, ap: nat)
  {
    items == [] || (ItemAccepts(items[0], args, ap) && Accepts(items[1..], args, ap + ArgCount(items[0])))
  }

  // ---------------------------------------------------------------- rendering

  /** The width, -1 when there is none; a negative `*` means left-justified. */
  function WidthValue(width: Count, args: seq<Arg>, ap: nat): int
    requires StarAccepts(width, args, ap)
  {
    match width
    case Absent => -1
    case Given(n) => n
    case FromArg => if args[ap].i < 0 then Int(0 - args[ap].i) else args[ap].i
  }

  function FlagsValue(flags: Flags, width: Count, args: seq<Arg>, ap: nat): Flags
    requires StarAccepts(width, args, ap)
  {
    if width == FromArg && args[ap].i < 0 then flags.(left := true) else flags
  }

  /** The precision, -1 when there is none; a negative `*` counts as 0. */
  function PrecisionValue(precision: Count, args: seq<Arg>, ap: nat): int
    requires StarAccepts(precision, args, ap)
  {
    match precision
    case Absent => -1
    case Given(n) => n
    case FromArg => Max(args[ap].i, 0)
  }

  function Justify(text: string, width: int, left: bool): string
  {
    if left then text + Fill(' ', width - |text|) else Fill(' ', width - |text|) + text
  }

  /** The first NUL of `s`; its length when there is none. */
  function TextLength(s: string): (n: nat)
    ensures n <= |s|
    ensures forall i :: 0 <= i < n ==> s[i] != NUL
    ensures n < |s| ==> s[n] == NUL
  {
    if s == [] || s[0] == NUL then 0 else 1 + TextLength(s[1..])
  }

  /** The part of a string %s prints: up to its NUL and at most `precision` characters. */
  function StringText(s: string, precision: int): string
  {
    if 0 <= precision < TextLength(s) then s[..precision] else s[..TextLength(s)]
  }

  function Base(c: char): (base: int)
    ensures IsBase(base)
  {
    if c == 'o' then 8 else if c == 'x' || c == 'X' then 16 else 10
  }

  function IntegerFlags(flags: Flags, c: char): Flags
  {
    if c == 'x' then flags.(small := true)
    else if c == 'd' || c == 'i' then flags.(sign := true)
    else flags
  }

  /** The `long` handed to number(): the argument as its type, length qualifier and signedness tell. */
  function IntegerValue(w: LongWidth, q: Qualifier, signed: bool, arg: Arg): (n: int)
    requires if q == LongQ then arg.LongArg? else arg.IntArg?
    ensures IsLong(w, n)
  {
    if q == LongQ then Long(w, arg.l)
    else if q == Half then Long(w, if signed then Short(arg.i) else UnsignedShort(arg.i))
    else Long(w, if signed then arg.i else UnsignedInt(arg.i))
  }

  function PointerText(w: LongWidth, p: nat, width: int, precision: int, flags: Flags): string
  {
    if width == -1 then NumberText(w, Long(w, p), 16, w / 4, precision, flags.(zeropad := true))
    else NumberText(w, Long(w, p), 16, width, precision, flags)
  }

  /** What a conversion prints, given its flags, width, precision and arguments; `at` is the output so far. */
  function ConversionChunk(w: LongWidth, q: Qualifier, c: Option<char>, flags: Flags, width: int, precision: int,
                           args: seq<Arg>, ap: nat, at: nat): Chunk
    requires ValueAccepts(q, c, precision, args, ap)
  {
    match c
    case None => Chunk("%", [])
    case Some(c) =>
      if c == 'c' then Chunk(Justify([(args[ap].i % 256) as char], width, flags.left), [])
      else if c == 's' then Chunk(Justify(StringText(args[ap].s, precision), width, flags.left), [])
      else if c == 'p' then Chunk(PointerText(w, args[ap].p, width, precision, flags), [])
      else if c == 'n' then Chunk("", [Store(args[ap].address, q == LongQ, at)])
      else if c == '%' then Chunk("%", [])
      else if IsInteger(c) then
        var f := IntegerFlags(flags, c);
        Chunk(NumberText(w, IntegerValue(w, q, f.sign, args[ap]), Base(c), width, precision, f), [])
      else Chunk(['%', c], [])
  }

  function ItemChunk(w: LongWidth, item: Item, args: seq<Arg>, ap: nat, at: nat): Chunk
    requires ItemAccepts(item, args, ap)
  {
    match item
    case Literal(c) => Chunk([c], [])
    case Directive(flags, width, precision, q, c) =>
      var ap1 := ap + StarCount(width);
      ConversionChunk(w, q, c, FlagsValue(flags, width, args, ap), WidthValue(width, args, ap),
                      PrecisionValue(precision, args, ap1), args, ap1 + StarCount(precision), at)
  }

  function Render(w: LongWidth, items: seq<Item>, args: seq<Arg>, ap: nat, at: nat): Chunk
    requires Accepts(items, args, ap)
  {
    if items == [] then Chunk("", []) else
      var c := ItemChunk(w, items[0], args, ap, at);
      Cat(c, Render(w, items[1..], args, ap + ArgCount(items[0]), at + |c.text|))
  }
}
