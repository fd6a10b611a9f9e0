/**
  Recovery of JSON objects from a damaged block file: a scan that tracks brace
  depth, quotes and escapes, and cuts out every top-level brace-balanced chunk.
  The library parser is a parameter; what is assumed of it is stated where used.
*/
module JsonScanner {
  import opened Basics
  import opened Json

  type Parser = string -> Option<Json>

  // ---------- The scan as a state machine over characters ----------

  /** `text` is the chunk being read: everything since the brace that entered it. */
  datatype ScanState = ScanState(depth: nat, text: string, inString: bool, escaped: bool, found: seq<string>)

  const INITIAL := ScanState(0, "", false, false, [])

  /** Outside any chunk characters are not kept. */
  function Keep(st: ScanState, s: string): ScanState {
    if st.depth == 0 then st else st.(text := st.text + s)
  }

  function Step(st: ScanState, ch: char): ScanState {
    if st.inString then
      var kept := Keep(st, [ch]);
      if st.escaped then kept.(escaped := false)
      else if ch == '\\' then kept.(escaped := true)
      else if ch == '\"' then kept.(inString := false)
      else kept
    else if ch == '\"' then Keep(st, [ch]).(inString := true)
    else if ch == '{' then
      st.(depth := st.depth + 1, text := if st.depth == 0 then [ch] else st.text + [ch])
    else if ch == '}' && st.depth == 1 then
      st.(depth := 0, text := "", found := st.found + [st.text + [ch]])
    else if ch == '}' && st.depth > 1 then
      st.(depth := st.depth - 1, text := st.text + [ch])
    else Keep(st, [ch])
  }

  function Run(st: ScanState, s: string): ScanState
    decreases |s|
  {
    if |s| == 0 then st else Run(Step(st, s[0]), s[1..])
  }

  /** The chunks that parse, in order; the others are skipped. */
  function Parsed(chunks: seq<string>, parse: Parser): seq<Json> {
    if |chunks| == 0 then []
    else
      var last := parse(chunks[|chunks| - 1]);
      Parsed(chunks[..|chunks| - 1], parse) + (if last.Some? then [last.value] else [])
  }

  lemma RunNext(st: ScanState, raw: string, i: nat)
    requires i < |raw|
    ensures Run(st, raw[i..]) == Run(Step(st, raw[i]), raw[i + 1..])
  {
    hide Step;
    assert raw[i..][1..] == raw[i + 1..];
  }

  lemma ParsedMore(chunks: seq<string>, chunk: string, parse: Parser)
    ensures Parsed(chunks + [chunk], parse)
         == Parsed(chunks, parse) + if parse(chunk).Some? then [parse(chunk).value] else []
  {
    var all := chunks + [chunk];
    assert all[..|all| - 1] == chunks;
  }

  // ---------- The source's loop ----------

  method ExtractJsonObjects(raw: string, parse: Parser) returns (out: seq<Json>)
    ensures out == Parsed(Run(INITIAL, raw).found, parse)
  {
    out := [];
    var depth, start := 0, -1;
    var inString, escaped := false, false;
    ghost var st := INITIAL;
    for i := 0 to |raw|
      invariant Run(INITIAL, raw) == Run(st, raw[i..])
      invariant st.depth == depth && st.inString == inString && st.escaped == escaped
      invariant depth > 0 ==> 0 <= start <= i && st.text == raw[start..i]
      invariant out == Parsed(st.found, parse)
    {
      var ch := raw[i];
      assert depth > 0 ==> raw[start..i + 1] == raw[start..i] + [ch];
      RunNext(st, raw, i);
      hide Run, Parsed;
      ghost var before := st;
      st := Step(st, ch);
      if inString {
        if escaped {
          escaped := false;
        } else if ch == '\\' {
          escaped := true;
        } else if ch == '\"' {
          inString := false;
        }
        continue;
      }
      if ch == '\"' {
        inString := true;
        continue;
      }
      if ch == '{' {
        if depth == 0 {
          start := i;
        }
        depth := depth + 1;
        continue;
      }
      if ch == '}' && depth > 0 {
        depth := depth - 1;
        if depth == 0 && start >= 0 {
          var chunk := raw[start..i + 1];
          ParsedMore(before.found, chunk, parse);
          var value := parse(chunk);
          if value.Some? {
            out := out + [value.value];
          }
          start := -1;
        }
      }
    }
  }

  // ---------- Running over printed text ----------

  lemma {:induction false} RunSplit(st: ScanState, a: string, b: string)
    ensures Run(st, a + b) == Run(Run(st, a), b)
    decreases |a|
  {
    hide Step;
    if |a| == 0 {
      assert a + b == b;
    } else {
      assert (a + b)[1..] == a[1..] + b;
      RunSplit(Step(st, a[0]), a[1..], b);
    }
  }

  /** Inside a chunk and outside any string. */
  predicate Inside(st: ScanState) { st.depth > 0 && !st.inString && !st.escaped }

  function Absorb(st: ScanState, s: string): ScanState { st.(text := st.text + s) }

  predicate Plain(s: string) { '\"' !in s && '{' !in s && '}' !in s }

  lemma AbsorbSplit(st: ScanState, a: string, b: string)
    ensures Absorb(Absorb(st, a), b) == Absorb(st, a + b)
  {}

  lemma {:induction false} RunPlain(st: ScanState, s: string)
    requires Inside(st) && Plain(s)
    ensures Run(st, s) == Absorb(st, s)
    decreases |s|
  {
    if |s| == 0 {
      assert Absorb(st, s) == st;
    } else {
      assert s[0] in s;
      assert Plain(s[1..]);
      RunPlain(Step(st, s[0]), s[1..]);
      assert s == [s[0]] + s[1..];
      AbsorbSplit(st, [s[0]], s[1..]);
    }
  }

  lemma RunConcat(st: ScanState, a: string, b: string)
    requires Run(st, a) == Absorb(st, a) && Run(Absorb(st, a), b) == Absorb(Absorb(st, a), b)
    ensures Run(st, a + b) == Absorb(st, a + b)
  {
    hide Run, Absorb;
    RunSplit(st, a, b);
    AbsorbSplit(st, a, b);
  }

  /** Inside a string literal of a chunk. */
  predicate Quoted(st: ScanState) { st.depth > 0 && st.inString && !st.escaped }

  lemma RunOne(st: ScanState, c: char)
    ensures Run(st, [c]) == Step(st, c)
  {
    assert Run(Step(st, c), [c][1..]) == Step(st, c);
  }

  lemma RunPair(st: ScanState, c: char, d: char)
    ensures Run(st, [c, d]) == Step(Step(st, c), d)
  {
    hide Step;
    assert [c, d] == [c] + [d];
    RunSplit(st, [c], [d]);
    RunOne(st, c);
    RunOne(Step(st, c), d);
  }

  lemma EscapedPair(st: ScanState, d: char)
    requires Quoted(st)
    ensures Run(st, ['\\', d]) == Absorb(st, ['\\', d])
  {
    RunPair(st, '\\', d);
    assert st.text + ['\\'] + [d] == st.text + ['\\', d];
  }

  lemma {:induction false} QuotedRun(st: ScanState, s: string)
    requires Quoted(st) && '\"' !in s && '\\' !in s
    ensures Run(st, s) == Absorb(st, s)
    decreases |s|
  {
    if |s| == 0 {
      assert Absorb(st, s) == st;
    } else {
      assert s[0] in s;
      QuotedRun(Step(st, s[0]), s[1..]);
      assert s == [s[0]] + s[1..];
      AbsorbSplit(st, [s[0]], s[1..]);
    }
  }

  lemma RunEscape(st: ScanState, c: char)
    requires Quoted(st)
    ensures Run(st, Escape(c)) == Absorb(st, Escape(c))
  {
    var e := Escape(c);
    EscapeShape(c);
    if |e| == 1 {
      hide Escape;
      QuotedRun(st, e);
    } else if |e| == 2 {
      hide Escape;
      assert e == ['\\', e[1]];
      EscapedPair(st, e[1]);
    } else {
      EscapeHex(c);
      hide Escape;
      var pair, rest := e[..2], e[2..];
      assert e == pair + rest && pair == ['\\', e[1]];
      EscapedPair(st, e[1]);
      QuotedRun(Absorb(st, pair), rest);
      RunConcat(st, pair, rest);
    }
  }

  lemma EscapeHex(c: char)
    requires |Escape(c)| == 6
    ensures '\"' !in Escape(c)[2..] && '\\' !in Escape(c)[2..]
  {}

  lemma {:induction false} RunQuoteTail(st: ScanState, s: string)
    requires Quoted(st)
    ensures Run(st, QuoteTail(s)) == Absorb(st, QuoteTail(s)).(inString := false)
    decreases |s|
  {
    if |s| == 0 {
      RunOne(st, '\"');
    } else {
      hide Escape, Run;
      RunEscape(st, s[0]);
      RunQuoteTail(Absorb(st, Escape(s[0])), s[1..]);
      RunSplit(st, Escape(s[0]), QuoteTail(s[1..]));
      AbsorbSplit(st, Escape(s[0]), QuoteTail(s[1..]));
    }
  }

  lemma RunQuote(st: ScanState, s: string)
    requires Inside(st)
    ensures Run(st, Quote(s)) == Absorb(st, Quote(s))
  {
    hide QuoteTail, Run;
    RunOne(st, '\"');
    RunSplit(st, ['\"'], QuoteTail(s));
    RunQuoteTail(Step(st, '\"'), s);
    AbsorbSplit(st, ['\"'], QuoteTail(s));
  }

  // ---------- Printed values are neutral inside a chunk ----------

  predicate PlainStyle(style: Style) { Plain(style.gap) && Plain(style.indent) }

  lemma StylePlain(style: Style)
    requires PlainStyle(style)
    ensures PlainStyle(style.Deeper())
    ensures Plain(style.Opening()) && Plain(style.Closing()) && Plain(style.Colon())
    ensures Plain("[" + style.Opening()) && Plain("," + style.Opening()) && Plain(style.Closing() + "]")
  {}

  lemma NumberPlain(s: string)
    requires forall i :: 0 <= i < |s| ==> IsNumberChar(s[i])
    ensures Plain(s)
  {}

  /** Running over a printed value changes nothing but the text read so far. */
  lemma {:induction false} RunValue(st: ScanState, v: Json, style: Style)
    requires Inside(st) && WellFormed(v) && PlainStyle(style)
    ensures Run(st, Print(v, style)) == Absorb(st, Print(v, style))
    decreases v, 1
  {
    match v {
      case Num(text) =>
        NumberPlain(text);
        RunPlain(st, text);
      case Str(s) =>
        RunQuote(st, s);
      case Arr(items) =>
        RunArr(st, items, style);
      case Obj(fields) =>
        RunObj(st, fields, style);
      case _ =>
        RunPlain(st, Print(v, style));
    }
  }

  lemma {:induction false} RunItem(st: ScanState, v: Json, style: Style)
    requires Inside(st) && WellFormed(v) && PlainStyle(style)
    ensures Run(st, PrintItem(v, style)) == Absorb(st, PrintItem(v, style))
    decreases v, 2
  {
    hide Print;
    if v.Undefined? { RunPlain(st, ""); } else { RunValue(st, v, style); }
  }

  lemma {:induction false} RunArr(st: ScanState, items: seq<Json>, style: Style)
    requires Inside(st) && WellFormed(Arr(items)) && PlainStyle(style)
    ensures Run(st, Print(Arr(items), style)) == Absorb(st, Print(Arr(items), style))
    decreases items, 2
  {
    StylePlain(style);
    if |items| == 0 {
      RunPlain(st, "[]");
    } else {
      var open := "[" + style.Opening();
      var first, rest := PrintItem(items[0], style.Deeper()), PrintItems(items[1..], style);
      assert Print(Arr(items), style) == open + first + rest;
      hide Print, PrintItem, PrintItems, Run, Absorb;
      RunPlain(st, open);
      AbsorbInside(st, open);
      RunItem(Absorb(st, open), items[0], style.Deeper());
      RunConcat(st, open, first);
      AbsorbInside(st, open + first);
      RunItems(Absorb(st, open + first), items[1..], style);
      RunConcat(st, open + first, rest);
    }
  }

  lemma AbsorbInside(st: ScanState, s: string)
    ensures Inside(st) ==> Inside(Absorb(st, s))
  {}

  lemma {:induction false} RunItems(st: ScanState, items: seq<Json>, style: Style)
    requires Inside(st) && WellFormed(Arr(items)) && PlainStyle(style)
    ensures Run(st, PrintItems(items, style)) == Absorb(st, PrintItems(items, style))
    decreases items, 2
  {
    StylePlain(style);
    if |items| == 0 {
      RunPlain(st, style.Closing() + "]");
    } else {
      var open := "," + style.Opening();
      var first, rest := PrintItem(items[0], style.Deeper()), PrintItems(items[1..], style);
      assert PrintItems(items, style) == open + first + rest;
      hide Print, PrintItem, PrintItems, Run, Absorb;
      RunPlain(st, open);
      AbsorbInside(st, open);
      RunItem(Absorb(st, open), items[0], style.Deeper());
      RunConcat(st, open, first);
      AbsorbInside(st, open + first);
      RunItems(Absorb(st, open + first), items[1..], style);
      RunConcat(st, open + first, rest);
    }
  }

  lemma {:induction false} RunField(st: ScanState, f: Field, style: Style)
    requires Inside(st) && WellFormed(f.value) && PlainStyle(style)
    ensures Run(st, PrintField(f, style)) == Absorb(st, PrintField(f, style))
    decreases f, 2
  {
    var key, colon, value := Quote(f.key), style.Colon(), Print(f.value, style.Deeper());
    assert PrintField(f, style) == key + colon + value;
    StylePlain(style);
    hide Print, Quote, Run, Absorb;
    RunQuote(st, f.key);
    AbsorbInside(st, key);
    RunPlain(Absorb(st, key), colon);
    RunConcat(st, key, colon);
    AbsorbInside(st, key + colon);
    RunValue(Absorb(st, key + colon), f.value, style.Deeper());
    RunConcat(st, key + colon, value);
  }

  /** The fields after the first, without the closing brace. */
  function FieldsBody(fields: seq<Field>, style: Style): string
    decreases fields
  {
    if |fields| == 0 then style.Closing()
    else "," + style.Opening() + PrintField(fields[0], style) + FieldsBody(fields[1..], style)
  }

  lemma {:induction false} FieldsBodyCloses(fields: seq<Field>, style: Style)
    ensures PrintFields(fields, style) == FieldsBody(fields, style) + "}"
    decreases fields
  {
    if |fields| > 0 {
      hide PrintField;
      FieldsBodyCloses(fields[1..], style);
    }
  }

  lemma {:induction false} RunFieldsBody(st: ScanState, fields: seq<Field>, style: Style)
    requires Inside(st) && (forall i :: 0 <= i < |fields| ==> WellFormed(fields[i].value)) && PlainStyle(style)
    ensures Run(st, FieldsBody(fields, style)) == Absorb(st, FieldsBody(fields, style))
    decreases fields, 2
  {
    StylePlain(style);
    if |fields| == 0 {
      RunPlain(st, style.Closing());
    } else {
      var open := "," + style.Opening();
      var first, rest := PrintField(fields[0], style), FieldsBody(fields[1..], style);
      assert FieldsBody(fields, style) == open + first + rest;
      hide PrintField, FieldsBody, Run, Absorb;
      RunPlain(st, open);
      AbsorbInside(st, open);
      RunField(Absorb(st, open), fields[0], style);
      RunConcat(st, open, first);
      AbsorbInside(st, open + first);
      RunFieldsBody(Absorb(st, open + first), fields[1..], style);
      RunConcat(st, open + first, rest);
    }
  }

  /** The text between the braces of a printed object. */
  function ObjBody(fields: seq<Field>, style: Style): string {
    if |fields| == 0 then ""
    else style.Opening() + PrintField(fields[0], style) + FieldsBody(fields[1..], style)
  }

  lemma ObjBodyBraces(fields: seq<Field>, style: Style)
    ensures Print(Obj(fields), style) == "{" + ObjBody(fields, style) + "}"
  {
    if |fields| > 0 {
      hide PrintField;
      FieldsBodyCloses(fields[1..], style);
    }
  }

  lemma {:induction false} RunObjBody(st: ScanState, fields: seq<Field>, style: Style)
    requires Inside(st) && WellFormed(Obj(fields)) && PlainStyle(style)
    ensures Run(st, ObjBody(fields, style)) == Absorb(st, ObjBody(fields, style))
    decreases fields, 3
  {
    StylePlain(style);
    if |fields| == 0 {
      RunPlain(st, "");
    } else {
      var open := style.Opening();
      var first, rest := PrintField(fields[0], style), FieldsBody(fields[1..], style);
      assert ObjBody(fields, style) == open + first + rest;
      hide PrintField, FieldsBody, Run, Absorb;
      RunPlain(st, open);
      AbsorbInside(st, open);
      RunField(Absorb(st, open), fields[0], style);
      RunConcat(st, open, first);
      AbsorbInside(st, open + first);
      RunFieldsBody(Absorb(st, open + first), fields[1..], style);
      RunConcat(st, open + first, rest);
    }
  }

  lemma {:induction false} RunObj(st: ScanState, fields: seq<Field>, style: Style)
    requires Inside(st) && WellFormed(Obj(fields)) && PlainStyle(style)
    ensures Run(st, Print(Obj(fields), style)) == Absorb(st, Print(Obj(fields), style))
    decreases fields, 4
  {
    var body := ObjBody(fields, style);
    ObjBodyBraces(fields, style);
    hide Print, ObjBody, Run;
    RunOne(st, '{');
    var entered := Step(st, '{');
    RunObjBody(entered, fields, style);
    var full := Absorb(entered, body);
    RunOne(full, '}');
    RunSplit(st, "{", body);
    RunSplit(st, "{" + body, "}");
    assert st.text + "{" + body + "}" == st.text + ("{" + body + "}");
  }

  /** Outside any chunk a printed object becomes exactly one chunk. */
  lemma RunTopObject(st: ScanState, fields: seq<Field>, style: Style)
    requires st.depth == 0 && st.text == "" && !st.inString && !st.escaped
    requires WellFormed(Obj(fields)) && PlainStyle(style)
    ensures Run(st, Print(Obj(fields), style)) == st.(found := st.found + [Print(Obj(fields), style)])
  {
    var body := ObjBody(fields, style);
    ObjBodyBraces(fields, style);
    hide Print, ObjBody, Run;
    RunOne(st, '{');
    var entered := Step(st, '{');
    RunObjBody(entered, fields, style);
    var full := Absorb(entered, body);
    RunOne(full, '}');
    RunSplit(st, "{", body);
    RunSplit(st, "{" + body, "}");
  }

  /** Text that opens no chunk and no string. */
  predicate Separator(s: string) { '\"' !in s && '{' !in s }

  lemma {:induction false} RunSeparator(st: ScanState, s: string)
    requires st.depth == 0 && !st.inString && !st.escaped && Separator(s)
    ensures Run(st, s) == st
    decreases |s|
  {
    if |s| > 0 {
      assert s[0] in s;
      assert Separator(s[1..]);
      RunSeparator(Step(st, s[0]), s[1..]);
    }
  }

  // ---------- The scanner undoes the printer ----------

  /** A separator and the object printed after it. */
  datatype Piece = Piece(before: string, fields: seq<Field>, style: Style)

  function Text(p: Piece): string { Stringify(Obj(p.fields), p.style) }

  /** The object as it is read back: undefined parts were not written. */
  function Written(p: Piece): Json { Dropped(Obj(p.fields)) }

  function Layout(pieces: seq<Piece>, tail: string): string {
    if |pieces| == 0 then tail else pieces[0].before + Text(pieces[0]) + Layout(pieces[1..], tail)
  }

  predicate ReadablePiece(p: Piece, parse: Parser) {
    && WellFormed(Obj(p.fields)) && PlainStyle(p.style) && Separator(p.before)
    && parse(Text(p)) == Some(Written(p))
  }

  predicate Readable(pieces: seq<Piece>, parse: Parser) {
    |pieces| == 0 || (ReadablePiece(pieces[0], parse) && Readable(pieces[1..], parse))
  }

  function Objects(pieces: seq<Piece>): (objs: seq<Json>)
    ensures |objs| == |pieces|
  {
    if |pieces| == 0 then [] else [Written(pieces[0])] + Objects(pieces[1..])
  }

  function Texts(pieces: seq<Piece>): seq<string> {
    if |pieces| == 0 then [] else [Text(pieces[0])] + Texts(pieces[1..])
  }

  lemma RunPiece(st: ScanState, p: Piece, parse: Parser)
    requires st.depth == 0 && st.text == "" && !st.inString && !st.escaped
    requires ReadablePiece(p, parse)
    ensures Run(st, p.before + Text(p)) == st.(found := st.found + [Text(p)])
  {
    TextIsPrint(p);
    hide Run, Text, Print;
    RunSeparator(st, p.before);
    DroppedClear(Obj(p.fields));
    RunTopObject(st, DroppedFields(p.fields), p.style);
    RunSplit(st, p.before, Text(p));
  }

  lemma FirstPiece(pieces: seq<Piece>, tail: string)
    requires |pieces| > 0
    ensures Layout(pieces, tail) == pieces[0].before + Text(pieces[0]) + Layout(pieces[1..], tail)
    ensures Texts(pieces) == [Text(pieces[0])] + Texts(pieces[1..])
    ensures Objects(pieces) == [Written(pieces[0])] + Objects(pieces[1..])
  {
    hide Text;
  }

  lemma {:induction false} RunLayout(st: ScanState, pieces: seq<Piece>, tail: string, parse: Parser)
    requires st.depth == 0 && st.text == "" && !st.inString && !st.escaped
    requires Readable(pieces, parse) && Separator(tail)
    ensures Run(st, Layout(pieces, tail)) == st.(found := st.found + Texts(pieces))
    decreases |pieces|
  {
    if |pieces| == 0 {
      RunSeparator(st, tail);
      assert st.found + [] == st.found;
    } else {
      var p := pieces[0];
      FirstPiece(pieces, tail);
      FirstReadable(pieces, parse);
      hide Run, Text, Layout, Texts, ReadablePiece, Readable, Separator;
      var next := st.(found := st.found + [Text(p)]);
      RegroupTexts(st.found, Text(p), Texts(pieces[1..]));
      RunPiece(st, p, parse);
      RunSplit(st, p.before + Text(p), Layout(pieces[1..], tail));
      RunLayout(next, pieces[1..], tail, parse);
    }
  }

  lemma {:induction false} ParsedSplit(a: seq<string>, b: seq<string>, parse: Parser)
    ensures Parsed(a + b, parse) == Parsed(a, parse) + Parsed(b, parse)
    decreases |b|
  {
    if |b| == 0 {
      assert a + b == a;
    } else {
      var n := |b| - 1;
      ParsedSplit(a, b[..n], parse);
      ParsedMore(a + b[..n], b[n], parse);
      assert (a + b[..n]) + [b[n]] == a + b;
    }
  }

  /** The printed pieces parse back to their objects. */
  lemma {:induction false} ParsedTexts(pieces: seq<Piece>, parse: Parser)
    requires Readable(pieces, parse)
    ensures Parsed(Texts(pieces), parse) == Objects(pieces)
    decreases |pieces|
  {
    if |pieces| > 0 {
      var t := Text(pieces[0]);
      FirstPiece(pieces, "");
      FirstReadable(pieces, parse);
      ParsedMore([], t, parse);
      hide Text, Written, Texts, Objects, Readable;
      ParsedTexts(pieces[1..], parse);
      assert [] + [t] == [t];
      ParsedSplit([t], Texts(pieces[1..]), parse);
    }
  }

  lemma FirstReadable(pieces: seq<Piece>, parse: Parser)
    requires Readable(pieces, parse) && |pieces| > 0
    ensures parse(Text(pieces[0])) == Some(Written(pieces[0])) && Readable(pieces[1..], parse)
    ensures ReadablePiece(pieces[0], parse)
  {}

  lemma RegroupTexts(a: seq<string>, t: string, b: seq<string>)
    ensures (a + [t]) + b == a + ([t] + b)
  {}

  lemma TextIsPrint(p: Piece)
    ensures Text(p) == Print(Obj(DroppedFields(p.fields)), p.style)
  {}

  /** Extraction returns exactly the printed objects, in order. */
  lemma ScannerUndoesPrinter(pieces: seq<Piece>, tail: string, parse: Parser)
    requires Readable(pieces, parse) && Separator(tail)
    ensures Parsed(Run(INITIAL, Layout(pieces, tail)).found, parse) == Objects(pieces)
  {
    hide Run, Texts;
    RunLayout(INITIAL, pieces, tail, parse);
    ParsedTexts(pieces, parse);
    assert [] + Texts(pieces) == Texts(pieces);
  }

  // ---------- parseJsonObject ----------

  predicate IsSpace(c: char) { c == ' ' || c == '\n' || c == '\r' || c == '\t' }

  function TrimStart(s: string): string {
    if |s| > 0 && IsSpace(s[0]) then TrimStart(s[1..]) else s
  }

  function TrimEnd(s: string): string {
    if |s| > 0 && IsSpace(s[|s| - 1]) then TrimEnd(s[..|s| - 1]) else s
  }

  function Trim(s: string): string { TrimEnd(TrimStart(s)) }

  datatype ParseOutcome = FoundValue(value: Json) | EmptyFile | InvalidJson

  /** Parse the trimmed text; if that fails, fall back to the last object that can be cut out. */
  method ParseJsonObject(raw: string, parse: Parser) returns (r: ParseOutcome)
    ensures r == FileValue(raw, parse)
  {
    var source := Trim(raw);
    if |source| == 0 {
      return EmptyFile;
    }
    var direct := parse(source);
    if direct.Some? {
      return FoundValue(direct.value);
    }
    var extracted := ExtractJsonObjects(raw, parse);
    if |extracted| > 0 {
      return FoundValue(extracted[|extracted| - 1]);
    }
    return InvalidJson;
  }

  function FileValue(raw: string, parse: Parser): ParseOutcome {
    var source := Trim(raw);
    if |source| == 0 then EmptyFile
    else
      var direct := parse(source);
      if direct.Some? then FoundValue(direct.value)
      else
        var extracted := Parsed(Run(INITIAL, raw).found, parse);
        if |extracted| > 0 then FoundValue(extracted[|extracted| - 1]) else InvalidJson
  }

  predicate Blank(s: string) { forall i :: 0 <= i < |s| ==> IsSpace(s[i]) }

  lemma {:induction false} TrimBlank(s: string)
    requires Blank(s)
    ensures TrimStart(s) == []
  {
    if |s| > 0 { TrimBlank(s[1..]); }
  }

  /** A file counts as empty exactly when it holds nothing but white space, whatever the parser. */
  lemma EmptyFileIff(raw: string, parse: Parser)
    ensures FileValue(raw, parse) == EmptyFile <==> Blank(raw)
  {
    hide Run;
    if |Trim(raw)| == 0 {
      TrimEndEmpty(TrimStart(raw));
      TrimStartBlank(raw);
    }
    if Blank(raw) { TrimBlank(raw); }
  }

  lemma {:induction false} TrimEndEmpty(s: string)
    requires |TrimEnd(s)| == 0
    ensures Blank(s)
    decreases |s|
  {
    if |s| > 0 {
      TrimEndEmpty(s[..|s| - 1]);
      forall i | 0 <= i < |s|
        ensures IsSpace(s[i])
      {
        if i < |s| - 1 { assert s[..|s| - 1][i] == s[i]; }
      }
    }
  }

  lemma {:induction false} TrimStartBlank(s: string)
    ensures Blank(TrimStart(s)) ==> Blank(s)
    decreases |s|
  {
    if |s| > 0 && IsSpace(s[0]) {
      TrimStartBlank(s[1..]);
      if Blank(TrimStart(s)) {
        forall i | 0 <= i < |s|
          ensures IsSpace(s[i])
        {
          if i > 0 { assert s[1..][i - 1] == s[i]; }
        }
      }
    }
  }

  lemma {:induction false} TrimStartSkips(b: string, t: string)
    requires Blank(b) && |t| > 0 && !IsSpace(t[0])
    ensures TrimStart(b + t) == t
    decreases |b|
  {
    if |b| == 0 {
      assert b + t == t;
    } else {
      assert (b + t)[0] == b[0] && (b + t)[1..] == b[1..] + t;
      TrimStartSkips(b[1..], t);
    }
  }

  lemma {:induction false} TrimEndSkips(t: string, b: string)
    requires Blank(b) && |t| > 0 && !IsSpace(t[|t| - 1])
    ensures TrimEnd(t + b) == t
    decreases |b|
  {
    if |b| == 0 {
      assert t + b == t;
    } else {
      assert (t + b)[|t + b| - 1] == b[|b| - 1] && (t + b)[..|t + b| - 1] == t + b[..|b| - 1];
      TrimEndSkips(t, b[..|b| - 1]);
    }
  }

  lemma TextEnds(p: Piece)
    ensures |Text(p)| > 0 && Text(p)[0] == '{' && Text(p)[|Text(p)| - 1] == '}'
  {
    ObjBodyBraces(DroppedFields(p.fields), p.style);
    hide Print, ObjBody;
  }

  /** The text of a printed object has no space to trim. */
  lemma ObjectTextTrimmed(fields: seq<Field>, style: Style)
    ensures var t := Print(Obj(fields), style); |t| > 0 && Trim(t) == t
  {
    ObjBodyBraces(fields, style);
    hide Print, ObjBody;
  }

  /** A file whose whole text does not parse still yields the last object printed in it. */
  lemma NoisyFile(pieces: seq<Piece>, tail: string, parse: Parser)
    requires |pieces| > 0 && Readable(pieces, parse) && Separator(tail)
    requires parse(Trim(Layout(pieces, tail))).None?
    ensures FileValue(Layout(pieces, tail), parse) == FoundValue(Written(pieces[|pieces| - 1]))
  {
    var raw := Layout(pieces, tail);
    hide Layout, Readable, TrimEnd, TrimStart;
    ScannerUndoesPrinter(pieces, tail, parse);
    if |Trim(raw)| == 0 {
      TrimEndEmpty(TrimStart(raw));
      TrimStartBlank(raw);
      BlankIsSeparator(raw);
      RunSeparator(INITIAL, raw);
      assert false;
    }
    LastOfObjects(pieces);
  }

  lemma BlankIsSeparator(s: string)
    requires Blank(s)
    ensures Separator(s)
  {}

  lemma {:induction false} LastOfObjects(pieces: seq<Piece>)
    requires |pieces| > 0
    ensures Objects(pieces)[|pieces| - 1] == Written(pieces[|pieces| - 1])
  {
    if |pieces| > 1 { LastOfObjects(pieces[1..]); }
  }

  /**
    Objects printed one after another with blanks between them: the last one is returned.
    The assumption on the library parser is that one text holds one value
    (section 2 of RFC 8259).
  */
  lemma LastObjectReturned(pieces: seq<Piece>, tail: string, parse: Parser)
    requires |pieces| > 0 && Readable(pieces, parse)
    requires Blank(tail) && forall i :: 0 <= i < |pieces| ==> Blank(pieces[i].before)
    requires |pieces| > 1 ==> parse(Trim(Layout(pieces, tail))).None?
    ensures FileValue(Layout(pieces, tail), parse) == FoundValue(Written(pieces[|pieces| - 1]))
  {
    BlankIsSeparator(tail);
    if |pieces| > 1 {
      NoisyFile(pieces, tail, parse);
    } else {
      var p := pieces[0];
      var text := Text(p);
      assert Layout(pieces, tail) == p.before + text + Layout(pieces[1..], tail) == p.before + (text + tail);
      TextEnds(p);
      hide Text, Layout, Run;
      TrimStartSkips(p.before, text + tail);
      TrimEndSkips(text, tail);
    }
  }
}
