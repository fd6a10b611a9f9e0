/**
  JSON values, the printer (compact or indented), and the key-sorting canonical
  form used for block fingerprints and block hashes.

  A number is represented by its printed text.  `Undefined` is the JavaScript
  value that a missing block field contributes to a fingerprint.
*/
module Json {

  datatype Json =
    | Null
    | Undefined
    | Bool(value: bool)
    | Num(text: string)
    | Str(chars: string)
    | Arr(items: seq<Json>)
    | Obj(fields: seq<Field>)

  datatype Field = Field(key: string, value: Json)

  // ---------- Well-formed values ----------

  predicate IsNumberChar(c: char) {
    '0' <= c <= '9' || c == '-' || c == '+' || c == '.' || c == 'e' || c == 'E'
  }

  predicate IsNumberText(s: string) {
    |s| > 0 && ('0' <= s[0] <= '9' || s[0] == '-') && forall i :: 0 <= i < |s| ==> IsNumberChar(s[i])
  }

  /** Property access: the value of the first field with that key, or undefined. */
  function Get(fields: seq<Field>, key: string): Json {
    if |fields| == 0 then Undefined
    else if fields[0].key == key then fields[0].value
    else Get(fields[1..], key)
  }

  predicate DistinctKeys(fields: seq<Field>) {
    forall i, j :: 0 <= i < j < |fields| ==> fields[i].key != fields[j].key
  }

  predicate WellFormed(v: Json)
    decreases v
  {
    match v
    case Num(text) => IsNumberText(text)
    case Arr(items) => forall i | 0 <= i < |items| :: WellFormed(items[i])
    case Obj(fields) => DistinctKeys(fields) && forall i | 0 <= i < |fields| :: WellFormed(fields[i].value)
    case _ => true
  }

  /** No list consists of a single undefined item: such a list is written like the empty one. */
  predicate Legible(v: Json)
    decreases v
  {
    match v
    case Arr(items) => items != [Undefined] && forall i | 0 <= i < |items| :: Legible(items[i])
    case Obj(fields) => forall i | 0 <= i < |fields| :: Legible(fields[i].value)
    case _ => true
  }

  predicate Clear(v: Json) { WellFormed(v) && Legible(v) }

  // ---------- Strings ----------

  function HexDigit(n: int): char
    requires 0 <= n < 16
  {
    "0123456789abcdef"[n]
  }

  /** How one character appears inside a quoted string. */
  function Escape(c: char): string {
    if c == '\"' then ['\\', '\"']
    else if c == '\\' then ['\\', '\\']
    else if c == '\U{0008}' then ['\\', 'b']
    else if c == '\U{000C}' then ['\\', 'f']
    else if c == '\n' then ['\\', 'n']
    else if c == '\r' then ['\\', 'r']
    else if c == '\t' then ['\\', 't']
    else if c < ' ' then ['\\', 'u', '0', '0', HexDigit(c as int / 16), HexDigit(c as int % 16)]
    else [c]
  }

  /** The characters of a quoted string after the opening quote, closing quote included. */
  function QuoteTail(s: string): string {
    if |s| == 0 then ['\"'] else Escape(s[0]) + QuoteTail(s[1..])
  }

  function Quote(s: string): string { ['\"'] + QuoteTail(s) }

  lemma EscapeShape(c: char)
    ensures var e := Escape(c);
      |e| > 0 && e[0] != '\"' && (|e| == 1 <==> e[0] != '\\') && (|e| == 1 ==> e[0] == c)
    ensures var e := Escape(c);
      |e| > 1 ==> (|e| == 6 <==> e[1] == 'u') && (|e| == 2 || |e| == 6)
  {}

  function HexValue(c: char): int {
    if '0' <= c <= '9' then c as int - '0' as int else if 'a' <= c <= 'f' then c as int - 'a' as int + 10 else -1
  }

  /** Escapes as in section 7 of RFC 8259: only quotes, backslashes and control characters have them, the short
      form where there is one, otherwise four hexadecimal digits. */
  lemma EscapeMeaning(c: char)
    ensures c == '\"' || c == '\\' ==> Escape(c) == ['\\', c]
    ensures c == '\U{0008}' ==> Escape(c) == ['\\', 'b']
    ensures c == '\U{000C}' ==> Escape(c) == ['\\', 'f']
    ensures c == '\n' ==> Escape(c) == ['\\', 'n']
    ensures c == '\r' ==> Escape(c) == ['\\', 'r']
    ensures c == '\t' ==> Escape(c) == ['\\', 't']
    ensures c >= ' ' && c != '\"' && c != '\\' ==> Escape(c) == [c]
    ensures var e := Escape(c);
      c < ' ' && c !in {'\U{0008}', '\U{000C}', '\n', '\r', '\t'} ==>
        && |e| == 6 && e[..4] == ['\\', 'u', '0', '0'] && HexValue(e[4]) >= 0 && HexValue(e[5]) >= 0
        && HexValue(e[4]) * 16 + HexValue(e[5]) == c as int
  {}

  lemma HexDigitUnique(m: int, n: int)
    requires 0 <= m < 16 && 0 <= n < 16 && HexDigit(m) == HexDigit(n)
    ensures m == n
  {}

  lemma EscapeInjective(c: char, d: char)
    requires Escape(c) == Escape(d)
    ensures c == d
  {
    hide HexDigit;
    EscapeShape(c);
    if |Escape(c)| == 6 {
      assert Escape(c)[4] == Escape(d)[4] && Escape(c)[5] == Escape(d)[5];
      HexDigitUnique(c as int / 16, d as int / 16);
      HexDigitUnique(c as int % 16, d as int % 16);
    }
  }

  lemma EscapeUnique(c: char, d: char, r: string, t: string)
    requires Escape(c) + r == Escape(d) + t
    ensures c == d && r == t
  {
    hide Escape;
    var x, y := Escape(c), Escape(d);
    EscapeShape(c);
    EscapeShape(d);
    assert (x + r)[0] == x[0] && (y + t)[0] == y[0];
    if |x| > 1 {
      assert (x + r)[1] == x[1] && (y + t)[1] == y[1];
    }
    assert |x| == |y|;
    assert (x + r)[..|x|] == x && (y + t)[..|y|] == y;
    EscapeInjective(c, d);
    assert (x + r)[|x|..] == r && (y + t)[|y|..] == t;
  }

  lemma {:induction false} QuoteTailUnique(a: string, b: string, r: string, t: string)
    requires QuoteTail(a) + r == QuoteTail(b) + t
    ensures a == b && r == t
    decreases |a|
  {
    hide Escape;
    var x, y := QuoteTail(a) + r, QuoteTail(b) + t;
    if |a| > 0 { EscapeShape(a[0]); assert x[0] == Escape(a[0])[0]; }
    if |b| > 0 { EscapeShape(b[0]); assert y[0] == Escape(b[0])[0]; }
    if |a| > 0 && |b| > 0 {
      assert x == Escape(a[0]) + (QuoteTail(a[1..]) + r);
      assert y == Escape(b[0]) + (QuoteTail(b[1..]) + t);
      EscapeUnique(a[0], b[0], QuoteTail(a[1..]) + r, QuoteTail(b[1..]) + t);
      QuoteTailUnique(a[1..], b[1..], r, t);
    } else if |a| == 0 && |b| == 0 {
      assert x[1..] == r && y[1..] == t;
    }
  }

  // ---------- The printer ----------

  /** `gap` is the indentation unit (empty for compact text); `indent` is the current margin. */
  datatype Style = Style(gap: string, indent: string) {
    function Deeper(): Style { Style(gap, indent + gap) }
    function Opening(): string { if gap == "" then "" else "\n" + indent + gap }
    function Closing(): string { if gap == "" then "" else "\n" + indent }
    function Colon(): string { if gap == "" then ":" else ": " }
  }

  const COMPACT := Style("", "")

  function Print(v: Json, st: Style): string
    decreases v, 1
  {
    match v
    case Null => "null"
    case Undefined => "undefined"
    case Bool(b) => if b then "true" else "false"
    case Num(text) => text
    case Str(s) => Quote(s)
    case Arr(items) =>
      if |items| == 0 then "[]"
      else "[" + st.Opening() + PrintItem(items[0], st.Deeper()) + PrintItems(items[1..], st)
    case Obj(fields) =>
      if |fields| == 0 then "{}"
      else "{" + st.Opening() + PrintField(fields[0], st) + PrintFields(fields[1..], st)
  }

  /** Joining the items of a list writes nothing for an undefined one. */
  function PrintItem(v: Json, st: Style): string
    decreases v, 2
  {
    if v.Undefined? then "" else Print(v, st)
  }

  function PrintItems(items: seq<Json>, st: Style): string
    decreases items, 0
  {
    if |items| == 0 then st.Closing() + "]"
    else "," + st.Opening() + PrintItem(items[0], st.Deeper()) + PrintItems(items[1..], st)
  }

  function PrintField(f: Field, st: Style): string
    decreases f, 2
  {
    Quote(f.key) + st.Colon() + Print(f.value, st.Deeper())
  }

  function PrintFields(fields: seq<Field>, st: Style): string
    decreases fields, 0
  {
    if |fields| == 0 then st.Closing() + "}"
    else "," + st.Opening() + PrintField(fields[0], st) + PrintFields(fields[1..], st)
  }

  // ---------- The printed text determines the value ----------

  /** A text after which a number cannot be continued. */
  predicate Delimited(r: string) { |r| == 0 || !IsNumberChar(r[0]) }

  lemma NumberTextUnique(a: string, b: string, r: string, t: string)
    requires forall i :: 0 <= i < |a| ==> IsNumberChar(a[i])
    requires forall i :: 0 <= i < |b| ==> IsNumberChar(b[i])
    requires Delimited(r) && Delimited(t) && a + r == b + t
    ensures a == b && r == t
  {
    NumberTextNotLonger(a, b, r, t);
    NumberTextNotLonger(b, a, t, r);
    assert (a + r)[..|a|] == a && (b + t)[..|b|] == b;
    StripSame(a, r, t);
  }

  lemma NumberTextNotLonger(a: string, b: string, r: string, t: string)
    requires forall i :: 0 <= i < |a| ==> IsNumberChar(a[i])
    requires Delimited(t) && a + r == b + t
    ensures |a| <= |b|
  {
    CharAt(a, r);
    CharAt(b, t);
  }

  lemma CharAt(a: string, r: string)
    ensures forall i :: 0 <= i < |a| ==> (a + r)[i] == a[i]
    ensures |r| > 0 ==> (a + r)[|a|] == r[0]
  {}

  function HeadOf(v: Json): char
    requires WellFormed(v)
  {
    match v
    case Null => 'n'
    case Undefined => 'u'
    case Bool(b) => if b then 't' else 'f'
    case Num(text) => text[0]
    case Str(_) => '\"'
    case Arr(_) => '['
    case Obj(_) => '{'
  }

  lemma PrintHead(v: Json, st: Style)
    requires WellFormed(v)
    ensures |Print(v, st)| > 0 && Print(v, st)[0] == HeadOf(v)
  {}

  lemma PrintItemsHead(items: seq<Json>, st: Style)
    ensures var p := PrintItems(items, st);
      |p| > 0 && (p[0] == ',' || p[0] == ']' || p[0] == '\n') && (|items| == 0 <==> p[0] != ',')
  {}

  /** What follows the opening of a non-empty list starts like its first item, or with the comma after an undefined one. */
  lemma ItemsHead(xs: seq<Json>, st: Style, r: string)
    requires |xs| > 0 && Clear(Arr(xs))
    ensures var p := PrintItem(xs[0], st.Deeper()) + (PrintItems(xs[1..], st) + r);
      |p| > 0 && p[0] != ']'
  {
    if xs[0].Undefined? {
      PrintItemsHead(xs[1..], st);
    } else {
      PrintHead(xs[0], st.Deeper());
    }
  }

  lemma PrintFieldsHead(fields: seq<Field>, st: Style)
    ensures var p := PrintFields(fields, st); |p| > 0 && !IsNumberChar(p[0]) && (|fields| == 0 <==> p[0] != ',')
  {}

  lemma SameHead(a: string, b: string, r: string, t: string)
    requires a + r == b + t && |a| > 0 && |b| > 0
    ensures a[0] == b[0]
  {
    assert (a + r)[0] == a[0] && (b + t)[0] == b[0];
  }

  lemma StripSame(a: string, x: string, y: string)
    requires a + x == a + y
    ensures x == y
  {
    assert (a + x)[|a|..] == x && (a + y)[|a|..] == y;
  }

  lemma Reassociate(a: string, b: string, c: string, r: string)
    ensures a + b + c + r == a + (b + (c + r))
  {}

  lemma ArrText(xs: seq<Json>, st: Style, r: string)
    requires |xs| > 0
    ensures Print(Arr(xs), st) + r
         == ("[" + st.Opening()) + (PrintItem(xs[0], st.Deeper()) + (PrintItems(xs[1..], st) + r))
  {
    Reassociate("[" + st.Opening(), PrintItem(xs[0], st.Deeper()), PrintItems(xs[1..], st), r);
  }

  lemma ItemsText(xs: seq<Json>, st: Style, r: string)
    requires |xs| > 0
    ensures PrintItems(xs, st) + r
         == ("," + st.Opening()) + (PrintItem(xs[0], st.Deeper()) + (PrintItems(xs[1..], st) + r))
  {
    Reassociate("," + st.Opening(), PrintItem(xs[0], st.Deeper()), PrintItems(xs[1..], st), r);
  }

  lemma ObjText(fs: seq<Field>, st: Style, r: string)
    requires |fs| > 0
    ensures Print(Obj(fs), st) + r
         == ("{" + st.Opening()) + (PrintField(fs[0], st) + (PrintFields(fs[1..], st) + r))
  {
    Reassociate("{" + st.Opening(), PrintField(fs[0], st), PrintFields(fs[1..], st), r);
  }

  lemma FieldsText(fs: seq<Field>, st: Style, r: string)
    requires |fs| > 0
    ensures PrintFields(fs, st) + r
         == ("," + st.Opening()) + (PrintField(fs[0], st) + (PrintFields(fs[1..], st) + r))
  {
    Reassociate("," + st.Opening(), PrintField(fs[0], st), PrintFields(fs[1..], st), r);
  }

  lemma QuoteText(s: string, r: string)
    ensures Quote(s) + r == ['\"'] + (QuoteTail(s) + r)
  {}

  lemma FieldText(f: Field, st: Style, r: string)
    ensures PrintField(f, st) + r
         == ['\"'] + (QuoteTail(f.key) + (st.Colon() + (Print(f.value, st.Deeper()) + r)))
  {
    hide Print, Quote;
    Reassociate(Quote(f.key), st.Colon(), Print(f.value, st.Deeper()), r);
    QuoteText(f.key, st.Colon() + (Print(f.value, st.Deeper()) + r));
  }

  lemma EmptyText(st: Style)
    ensures Print(Arr([]), st) == "[]" && Print(Obj([]), st) == "{}"
  {}

  lemma SecondChar(open: string, st: Style, x: string, rest: string, close: char)
    requires |open| == 1 && |x| > 0 && x[0] != close && close != '\n'
    ensures var p := (open + st.Opening()) + (x + rest); |p| > 1 && p[1] != close
  {
    var o := st.Opening();
    assert |o| > 0 ==> o[0] == '\n';
  }

  /** The second character tells an empty list from a full one. */
  lemma ArrSecond(xs: seq<Json>, st: Style, r: string)
    requires Clear(Arr(xs))
    ensures var p := Print(Arr(xs), st) + r; |p| > 1 && (p[1] == ']' <==> |xs| == 0)
  {
    hide Print, PrintItem, PrintItems, Clear;
    EmptyText(st);
    if |xs| > 0 {
      var x := PrintItem(xs[0], st.Deeper()) + (PrintItems(xs[1..], st) + r);
      ArrText(xs, st, r);
      ItemsHead(xs, st, r);
      SecondChar("[", st, x, "", ']');
      assert x + "" == x;
    }
  }

  lemma ObjSecond(fs: seq<Field>, st: Style, r: string)
    ensures var p := Print(Obj(fs), st) + r; |p| > 1 && (p[1] == '}' <==> |fs| == 0)
  {
    hide Print, PrintField, PrintFields;
    EmptyText(st);
    if |fs| > 0 {
      ObjText(fs, st, r);
      PrintFieldHead(fs[0], st);
      SecondChar("{", st, PrintField(fs[0], st), PrintFields(fs[1..], st) + r, '}');
    }
  }

  /** Followed by a delimiter, two printed values give one text only if they are one value. */
  lemma {:induction false} PrintUnique(v: Json, w: Json, st: Style, r: string, t: string)
    requires Clear(v) && Clear(w) && Delimited(r) && Delimited(t)
    requires Print(v, st) + r == Print(w, st) + t
    ensures v == w && r == t
    decreases v, 1
  {
    PrintHead(v, st);
    PrintHead(w, st);
    SameHead(Print(v, st), Print(w, st), r, t);
    match v {
      case Num(a) =>
        NumberTextUnique(a, w.text, r, t);
      case Str(a) =>
        QuoteText(a, r);
        QuoteText(w.chars, t);
        StripSame(['\"'], QuoteTail(a) + r, QuoteTail(w.chars) + t);
        QuoteTailUnique(a, w.chars, r, t);
      case Arr(xs) =>
        PrintArrUnique(xs, w.items, st, r, t);
      case Obj(fs) =>
        PrintObjUnique(fs, w.fields, st, r, t);
      case _ =>
        StripSame(Print(v, st), r, t);
    }
  }

  lemma {:induction false} PrintArrUnique(xs: seq<Json>, ys: seq<Json>, st: Style, r: string, t: string)
    requires Clear(Arr(xs)) && Clear(Arr(ys))
    requires Print(Arr(xs), st) + r == Print(Arr(ys), st) + t
    ensures xs == ys && r == t
    decreases xs, 2
  {
    hide Print, PrintItems;
    EmptyText(st);
    ArrSecond(xs, st, r);
    ArrSecond(ys, st, t);
    if |xs| > 0 {
      ArrText(xs, st, r);
      ArrText(ys, st, t);
      FirstAndRestUnique(xs, ys, "[" + st.Opening(), st, r, t);
    } else {
      StripSame("[]", r, t);
    }
  }

  predicate AllClear(items: seq<Json>) {
    forall i | 0 <= i < |items| :: Clear(items[i])
  }

  /** The first item of a list is determined by the text up to the comma or the end. */
  lemma {:induction false} FirstItemUnique(x: Json, y: Json, st: Style, r: string, t: string)
    requires Clear(x) && Clear(y) && |r| > 0 && |t| > 0
    requires r[0] == ',' || r[0] == ']' || r[0] == '\n'
    requires t[0] == ',' || t[0] == ']' || t[0] == '\n'
    requires PrintItem(x, st) + r == PrintItem(y, st) + t
    ensures x == y && r == t
    decreases x, 2
  {
    ItemChar(x, st, r);
    ItemChar(y, st, t);
    assert Delimited(r) && Delimited(t);
    hide Print;
    if !x.Undefined? && !y.Undefined? {
      PrintUnique(x, y, st, r, t);
    } else {
      assert "" + r == r && "" + t == t;
    }
  }

  lemma ItemChar(x: Json, st: Style, r: string)
    requires Clear(x) && |r| > 0
    ensures var p := PrintItem(x, st) + r; |p| > 0 && p[0] == if x.Undefined? then r[0] else HeadOf(x)
  {
    PrintHead(x, st);
  }

  lemma {:induction false} FirstAndRestUnique(xs: seq<Json>, ys: seq<Json>, open: string, st: Style, r: string, t: string)
    requires |xs| > 0 && |ys| > 0 && AllClear(xs) && AllClear(ys)
    requires open + (PrintItem(xs[0], st.Deeper()) + (PrintItems(xs[1..], st) + r))
          == open + (PrintItem(ys[0], st.Deeper()) + (PrintItems(ys[1..], st) + t))
    ensures xs == ys && r == t
    decreases xs, 1
  {
    hide Print, PrintItem, PrintItems, Clear;
    var xr, yr := PrintItems(xs[1..], st) + r, PrintItems(ys[1..], st) + t;
    StripSame(open, PrintItem(xs[0], st.Deeper()) + xr, PrintItem(ys[0], st.Deeper()) + yr);
    PrintItemsHead(xs[1..], st);
    PrintItemsHead(ys[1..], st);
    FirstItemUnique(xs[0], ys[0], st.Deeper(), xr, yr);
    PrintItemsUnique(xs[1..], ys[1..], st, r, t);
    assert xs == [xs[0]] + xs[1..] && ys == [ys[0]] + ys[1..];
  }

  lemma {:induction false} PrintItemsUnique(xs: seq<Json>, ys: seq<Json>, st: Style, r: string, t: string)
    requires AllClear(xs) && AllClear(ys)
    requires PrintItems(xs, st) + r == PrintItems(ys, st) + t
    ensures xs == ys && r == t
    decreases xs, 2
  {
    hide Clear;
    PrintItemsHead(xs, st);
    PrintItemsHead(ys, st);
    SameHead(PrintItems(xs, st), PrintItems(ys, st), r, t);
    if |xs| > 0 {
      hide Print, PrintItem, PrintItems;
      ItemsText(xs, st, r);
      ItemsText(ys, st, t);
      FirstAndRestUnique(xs, ys, "," + st.Opening(), st, r, t);
    } else {
      StripSame(PrintItems(xs, st), r, t);
    }
  }

  lemma {:induction false} PrintFieldUnique(f: Field, g: Field, st: Style, r: string, t: string)
    requires Clear(f.value) && Clear(g.value) && Delimited(r) && Delimited(t)
    requires PrintField(f, st) + r == PrintField(g, st) + t
    ensures f == g && r == t
    decreases f, 2
  {
    hide Print, QuoteTail;
    var x, y := Print(f.value, st.Deeper()) + r, Print(g.value, st.Deeper()) + t;
    FieldText(f, st, r);
    FieldText(g, st, t);
    StripSame(['\"'], QuoteTail(f.key) + (st.Colon() + x), QuoteTail(g.key) + (st.Colon() + y));
    QuoteTailUnique(f.key, g.key, st.Colon() + x, st.Colon() + y);
    StripSame(st.Colon(), x, y);
    PrintUnique(f.value, g.value, st.Deeper(), r, t);
  }

  lemma {:induction false} FirstAndRestFieldsUnique(fs: seq<Field>, gs: seq<Field>, open: string, st: Style, r: string, t: string)
    requires |fs| > 0 && |gs| > 0
    requires forall i :: 0 <= i < |fs| ==> Clear(fs[i].value)
    requires forall i :: 0 <= i < |gs| ==> Clear(gs[i].value)
    requires open + (PrintField(fs[0], st) + (PrintFields(fs[1..], st) + r))
          == open + (PrintField(gs[0], st) + (PrintFields(gs[1..], st) + t))
    ensures fs == gs && r == t
    decreases fs, 1
  {
    hide PrintField, PrintFields;
    var fr, gr := PrintFields(fs[1..], st) + r, PrintFields(gs[1..], st) + t;
    StripSame(open, PrintField(fs[0], st) + fr, PrintField(gs[0], st) + gr);
    PrintFieldsHead(fs[1..], st);
    PrintFieldsHead(gs[1..], st);
    PrintFieldUnique(fs[0], gs[0], st, fr, gr);
    PrintFieldsUnique(fs[1..], gs[1..], st, r, t);
    assert fs == [fs[0]] + fs[1..] && gs == [gs[0]] + gs[1..];
  }

  lemma {:induction false} PrintFieldsUnique(fs: seq<Field>, gs: seq<Field>, st: Style, r: string, t: string)
    requires forall i :: 0 <= i < |fs| ==> Clear(fs[i].value)
    requires forall i :: 0 <= i < |gs| ==> Clear(gs[i].value)
    requires PrintFields(fs, st) + r == PrintFields(gs, st) + t
    ensures fs == gs && r == t
    decreases fs, 2
  {
    PrintFieldsHead(fs, st);
    PrintFieldsHead(gs, st);
    SameHead(PrintFields(fs, st), PrintFields(gs, st), r, t);
    if |fs| > 0 {
      hide PrintField, PrintFields;
      FieldsText(fs, st, r);
      FieldsText(gs, st, t);
      FirstAndRestFieldsUnique(fs, gs, "," + st.Opening(), st, r, t);
    } else {
      StripSame(PrintFields(fs, st), r, t);
    }
  }

  lemma {:induction false} PrintObjUnique(fs: seq<Field>, gs: seq<Field>, st: Style, r: string, t: string)
    requires Clear(Obj(fs)) && Clear(Obj(gs))
    requires Print(Obj(fs), st) + r == Print(Obj(gs), st) + t
    ensures fs == gs && r == t
    decreases fs, 2
  {
    hide Print, PrintField, PrintFields;
    EmptyText(st);
    ObjSecond(fs, st, r);
    ObjSecond(gs, st, t);
    if |fs| > 0 {
      ObjText(fs, st, r);
      ObjText(gs, st, t);
      FirstAndRestFieldsUnique(fs, gs, "{" + st.Opening(), st, r, t);
    } else {
      StripSame("{}", r, t);
    }
  }

  lemma PrintFieldHead(f: Field, st: Style)
    ensures |PrintField(f, st)| > 0 && PrintField(f, st)[0] == '\"'
  {}

  /** Clear values have one text only if they are one value, compact or indented. */
  lemma PrintInjective(v: Json, w: Json, st: Style)
    requires Clear(v) && Clear(w)
    ensures Print(v, st) == Print(w, st) <==> v == w
  {
    if Print(v, st) == Print(w, st) {
      hide Print;
      assert Print(v, st) + [] == Print(w, st) + [];
      PrintUnique(v, w, st, [], []);
    }
  }

  // ---------- Undefined items: the replicas' printer ----------

  /** A value with every list of one undefined item replaced by the empty list. */
  function Joined(v: Json): Json
    decreases v, 1
  {
    match v
    case Arr(items) => Arr(if items == [Undefined] then [] else JoinedItems(items))
    case Obj(fields) => Obj(JoinedFields(fields))
    case _ => v
  }

  function JoinedItems(items: seq<Json>): (r: seq<Json>)
    ensures |r| == |items| && forall i :: 0 <= i < |items| ==> r[i] == Joined(items[i])
    decreases items, 0
  {
    if |items| == 0 then [] else [Joined(items[0])] + JoinedItems(items[1..])
  }

  function JoinedFields(fields: seq<Field>): (r: seq<Field>)
    ensures |r| == |fields|
    ensures forall i :: 0 <= i < |fields| ==> r[i] == Field(fields[i].key, Joined(fields[i].value))
    decreases fields, 0
  {
    if |fields| == 0 then [] else [Field(fields[0].key, Joined(fields[0].value))] + JoinedFields(fields[1..])
  }

  lemma {:induction false} JoinedClear(v: Json)
    requires WellFormed(v)
    ensures Clear(Joined(v)) && (Joined(v).Undefined? <==> v.Undefined?)
    decreases v
  {
    match v {
      case Arr(items) =>
        if items != [Undefined] {
          var r := JoinedItems(items);
          forall i | 0 <= i < |items|
            ensures Clear(r[i]) && (r[i].Undefined? <==> items[i].Undefined?)
          {
            JoinedClear(items[i]);
          }
          assert r == [Undefined] ==> items == [Undefined];
        }
      case Obj(fields) =>
        forall i | 0 <= i < |fields|
          ensures Clear(JoinedFields(fields)[i].value)
        {
          JoinedClear(fields[i].value);
        }
      case _ =>
    }
  }

  lemma {:induction false} JoinedPrint(v: Json)
    ensures Print(Joined(v), COMPACT) == Print(v, COMPACT)
    ensures PrintItem(Joined(v), COMPACT) == PrintItem(v, COMPACT)
    decreases v, 1
  {
    assert COMPACT.Deeper() == COMPACT;
    match v {
      case Arr(items) =>
        if items != [Undefined] && |items| > 0 {
          assert JoinedItems(items)[1..] == JoinedItems(items[1..]);
          JoinedPrint(items[0]);
          JoinedPrintItems(items[1..]);
        }
      case Obj(fields) =>
        if |fields| > 0 {
          assert JoinedFields(fields)[1..] == JoinedFields(fields[1..]);
          JoinedPrint(fields[0].value);
          JoinedPrintFields(fields[1..]);
        }
      case _ =>
    }
  }

  lemma {:induction false} JoinedPrintItems(items: seq<Json>)
    ensures PrintItems(JoinedItems(items), COMPACT) == PrintItems(items, COMPACT)
    decreases items, 0
  {
    if |items| > 0 {
      assert COMPACT.Deeper() == COMPACT;
      JoinedPrint(items[0]);
      JoinedPrintItems(items[1..]);
      assert JoinedItems(items)[1..] == JoinedItems(items[1..]);
    }
  }

  lemma {:induction false} JoinedPrintFields(fields: seq<Field>)
    ensures PrintFields(JoinedFields(fields), COMPACT) == PrintFields(fields, COMPACT)
    decreases fields, 0
  {
    if |fields| > 0 {
      assert COMPACT.Deeper() == COMPACT;
      JoinedPrint(fields[0].value);
      JoinedPrintFields(fields[1..]);
      assert JoinedFields(fields)[1..] == JoinedFields(fields[1..]);
    }
  }

  /** Any two well-formed values, undefined parts included, have one compact text exactly when they agree but for lists of one undefined item. */
  lemma PrintMeaning(v: Json, w: Json)
    requires WellFormed(v) && WellFormed(w)
    ensures Print(v, COMPACT) == Print(w, COMPACT) <==> Joined(v) == Joined(w)
  {
    hide Print, Joined;
    JoinedClear(v);
    JoinedClear(w);
    JoinedPrint(v);
    JoinedPrint(w);
    PrintInjective(Joined(v), Joined(w), COMPACT);
  }

  // ---------- Undefined parts: the library's printer ----------

  /** What the library writes of a value: undefined fields are left out, undefined items become null. */
  function Dropped(v: Json): Json
    decreases v, 1
  {
    match v
    case Arr(items) => Arr(DroppedItems(items))
    case Obj(fields) => Obj(DroppedFields(fields))
    case _ => v
  }

  function DroppedItems(items: seq<Json>): (r: seq<Json>)
    ensures |r| == |items|
    ensures forall i :: 0 <= i < |items| ==> r[i] == if items[i].Undefined? then Null else Dropped(items[i])
    decreases items, 0
  {
    if |items| == 0 then []
    else [if items[0].Undefined? then Null else Dropped(items[0])] + DroppedItems(items[1..])
  }

  function DroppedFields(fields: seq<Field>): (r: seq<Field>)
    decreases fields, 0
  {
    if |fields| == 0 then []
    else (if fields[0].value.Undefined? then [] else [Field(fields[0].key, Dropped(fields[0].value))])
         + DroppedFields(fields[1..])
  }

  /** The library's text of a value. */
  function Stringify(v: Json, st: Style): string { Print(Dropped(v), st) }

  predicate NoUndefined(v: Json)
    decreases v
  {
    match v
    case Undefined => false
    case Arr(items) => forall i | 0 <= i < |items| :: NoUndefined(items[i])
    case Obj(fields) => forall i | 0 <= i < |fields| :: NoUndefined(fields[i].value)
    case _ => true
  }

  /** Every written field is a written form of a field that was there. */
  lemma {:induction false} DroppedEntry(fields: seq<Field>, g: Field)
    ensures g in DroppedFields(fields) <==>
      exists i :: 0 <= i < |fields| && !fields[i].value.Undefined? && g == Field(fields[i].key, Dropped(fields[i].value))
  {
    hide Dropped;
    if |fields| > 0 {
      DroppedEntry(fields[1..], g);
      assert fields == [fields[0]] + fields[1..];
    }
  }

  lemma {:induction false} DroppedDistinct(fields: seq<Field>)
    requires DistinctKeys(fields)
    ensures DistinctKeys(DroppedFields(fields))
  {
    hide Dropped;
    if |fields| > 0 {
      var rest := DroppedFields(fields[1..]);
      DroppedDistinct(fields[1..]);
      forall i | 0 <= i < |rest|
        ensures rest[i].key != fields[0].key
      {
        DroppedEntry(fields[1..], rest[i]);
      }
    }
  }

  lemma {:induction false} DroppedClear(v: Json)
    requires WellFormed(v)
    ensures Clear(Dropped(v)) && (!v.Undefined? ==> NoUndefined(Dropped(v)))
    decreases v
  {
    match v {
      case Arr(items) =>
        var r := DroppedItems(items);
        forall i | 0 <= i < |items|
          ensures Clear(r[i]) && NoUndefined(r[i])
        {
          if !items[i].Undefined? { DroppedClear(items[i]); }
        }
        assert r != [Undefined] by { if |r| > 0 { assert NoUndefined(r[0]); } }
      case Obj(fields) =>
        var r := DroppedFields(fields);
        DroppedDistinct(fields);
        forall i | 0 <= i < |r|
          ensures Clear(r[i].value) && NoUndefined(r[i].value)
        {
          DroppedEntry(fields, r[i]);
          var j :| 0 <= j < |fields| && !fields[j].value.Undefined? && r[i] == Field(fields[j].key, Dropped(fields[j].value));
          DroppedClear(fields[j].value);
        }
      case _ =>
    }
  }

  /** Writing leaves a value without undefined parts as it is; so writing twice is writing once. */
  lemma {:induction false} DroppedIdentity(v: Json)
    requires NoUndefined(v)
    ensures Dropped(v) == v
    decreases v, 1
  {
    match v {
      case Arr(items) =>
        forall i | 0 <= i < |items|
          ensures DroppedItems(items)[i] == items[i]
        {
          DroppedIdentity(items[i]);
        }
      case Obj(fields) =>
        DroppedFieldsIdentity(fields);
      case _ =>
    }
  }

  lemma {:induction false} DroppedFieldsIdentity(fields: seq<Field>)
    requires forall i :: 0 <= i < |fields| ==> NoUndefined(fields[i].value)
    ensures DroppedFields(fields) == fields
    decreases fields, 0
  {
    if |fields| > 0 {
      assert fields == [fields[0]] + fields[1..];
      DroppedIdentity(fields[0].value);
      DroppedFieldsIdentity(fields[1..]);
    }
  }

  lemma {:induction false} DroppedSplit(a: seq<Field>, b: seq<Field>)
    ensures DroppedFields(a + b) == DroppedFields(a) + DroppedFields(b)
  {
    hide Dropped;
    if |a| == 0 {
      assert a + b == b;
    } else {
      assert (a + b)[0] == a[0] && (a + b)[1..] == a[1..] + b;
      DroppedSplit(a[1..], b);
    }
  }

  lemma {:induction false} DroppedNoUndefined(v: Json)
    requires !v.Undefined?
    ensures NoUndefined(Dropped(v))
    decreases v
  {
    match v {
      case Arr(items) =>
        forall i | 0 <= i < |items|
          ensures NoUndefined(DroppedItems(items)[i])
        {
          if !items[i].Undefined? { DroppedNoUndefined(items[i]); }
        }
      case Obj(fields) =>
        var r := DroppedFields(fields);
        forall i | 0 <= i < |r|
          ensures NoUndefined(r[i].value)
        {
          DroppedEntry(fields, r[i]);
          var j :| 0 <= j < |fields| && !fields[j].value.Undefined? && r[i] == Field(fields[j].key, Dropped(fields[j].value));
          DroppedNoUndefined(fields[j].value);
        }
      case _ =>
    }
  }

  lemma DroppedTwice(v: Json)
    ensures Dropped(Dropped(v)) == Dropped(v)
  {
    if !v.Undefined? {
      DroppedNoUndefined(v);
      DroppedIdentity(Dropped(v));
    }
  }

  /** A property that is there is read back in its written form. */
  lemma {:induction false} GetDropped(fields: seq<Field>, key: string)
    requires !Get(fields, key).Undefined?
    ensures Get(DroppedFields(fields), key) == Dropped(Get(fields, key))
  {
    hide Dropped;
    if |fields| > 0 && fields[0].key != key {
      GetDropped(fields[1..], key);
      var rest := DroppedFields(fields[1..]);
      if !fields[0].value.Undefined? {
        assert DroppedFields(fields)[1..] == rest;
      } else {
        assert DroppedFields(fields) == rest;
      }
    }
  }

  /** Any two well-formed values have one library text exactly when they agree but for undefined parts. */
  lemma StringifyMeaning(v: Json, w: Json, st: Style)
    requires WellFormed(v) && WellFormed(w)
    ensures Stringify(v, st) == Stringify(w, st) <==> Dropped(v) == Dropped(w)
  {
    hide Print, Dropped;
    DroppedClear(v);
    DroppedClear(w);
    PrintInjective(Dropped(v), Dropped(w), st);
  }
}
