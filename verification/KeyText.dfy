/**
  Why a text followed by a colon and a printed value can be taken apart in one way
  only: printed text leaves a small lexer as it found it, and no printed value is
  a text, a colon and a printed value.
*/
module KeyText {
  import opened Json

  /** Where a reader of printed text stands: outside strings, in one, after a backslash in one, with the
      number of brackets open; `Bad` after a backslash outside strings or a colon outside brackets. */
  datatype Mode = Bad | In(depth: int) | Esc(depth: int) | Out(depth: int)

  function Next(q: Mode, c: char): Mode {
    match q
    case Bad => Bad
    case Esc(k) => In(k)
    case In(k) => if c == '\"' then Out(k) else if c == '\\' then Esc(k) else In(k)
    case Out(k) =>
      if c == '\"' then In(k)
      else if c == '\\' || (c == ':' && k < 1) then Bad
      else if c == '{' || c == '[' then Out(k + 1)
      else if c == '}' || c == ']' then Out(k - 1)
      else Out(k)
  }

  function Run(q: Mode, s: string): Mode
    decreases |s|
  {
    if |s| == 0 then q else Run(Next(q, s[0]), s[1..])
  }

  lemma {:induction false} RunConcat(q: Mode, a: string, b: string)
    ensures Run(q, a + b) == Run(Run(q, a), b)
    decreases |a|
  {
    hide Next;
    if |a| == 0 {
      assert a + b == b;
    } else {
      assert (a + b)[1..] == a[1..] + b;
      RunConcat(Next(q, a[0]), a[1..], b);
    }
  }

  lemma RunOne(q: Mode, c: char)
    ensures Run(q, [c]) == Next(q, c)
  {
    assert [c][1..] == [];
  }

  lemma RunFirst(q: Mode, c: char, s: string)
    ensures Run(q, [c] + s) == Run(Next(q, c), s)
  {
    RunOne(q, c);
    RunConcat(q, [c], s);
  }

  predicate Plain(c: char) {
    c != '\"' && c != '\\' && c != ':' && c != '{' && c != '[' && c != '}' && c != ']'
  }

  lemma {:induction false} RunPlain(q: Mode, s: string)
    requires forall i :: 0 <= i < |s| ==> Plain(s[i])
    requires !q.Esc?
    ensures Run(q, s) == q
  {
    if |s| > 0 { RunPlain(q, s[1..]); }
  }

  predicate Leaf(v: Json) { !v.Str? && !v.Arr? && !v.Obj? }

  lemma RunLeaf(q: Mode, v: Json)
    requires Leaf(v) && WellFormed(v) && !q.Esc?
    ensures Run(q, Print(v, COMPACT)) == q
  {
    RunPlain(q, Print(v, COMPACT));
  }

  // ---------- Printed text leaves the reader as it found it ----------

  lemma RunEscape(k: int, c: char)
    ensures Run(In(k), Escape(c)) == In(k)
  {
    var e := Escape(c);
    EscapeShape(c);
    assert e == [e[0]] + e[1..];
    RunFirst(In(k), e[0], e[1..]);
    if |e| == 1 {
      assert e[1..] == [];
    } else {
      assert e[1..] == [e[1]] + e[2..];
      RunFirst(Esc(k), e[1], e[2..]);
      RunPlain(In(k), e[2..]);
    }
  }

  lemma {:induction false} RunTail(k: int, s: string)
    ensures Run(In(k), QuoteTail(s)) == Out(k)
  {
    hide Escape;
    if |s| == 0 {
      RunOne(In(k), '\"');
    } else {
      RunEscape(k, s[0]);
      RunConcat(In(k), Escape(s[0]), QuoteTail(s[1..]));
      RunTail(k, s[1..]);
    }
  }

  lemma RunQuote(k: int, s: string)
    ensures Run(Out(k), Quote(s)) == Out(k)
  {
    RunFirst(Out(k), '\"', QuoteTail(s));
    RunTail(k, s);
  }

  lemma {:induction false} RunPrint(k: nat, v: Json)
    requires WellFormed(v)
    ensures Run(Out(k), Print(v, COMPACT)) == Out(k)
    decreases v, 1
  {
    hide Run, Next, Print, PrintItem, PrintItems, PrintField, PrintFields;
    match v {
      case Str(s) =>
        StringText(s);
        RunQuote(k, s);
      case Arr(items) =>
        ListText(items);
        Brackets(k);
        if |items| > 0 {
          RunItem(k + 1, items[0]);
          RunItems(k + 1, items[1..]);
          RunConcat(Out(k), "[", PrintItem(items[0], COMPACT));
          RunConcat(Out(k), "[" + PrintItem(items[0], COMPACT), PrintItems(items[1..], COMPACT));
        } else {
          RunConcat(Out(k), "[", "]");
        }
      case Obj(fields) =>
        ObjectText(fields);
        Brackets(k);
        if |fields| > 0 {
          RunField(k + 1, fields[0]);
          RunFields(k + 1, fields[1..]);
          RunConcat(Out(k), "{", PrintField(fields[0], COMPACT));
          RunConcat(Out(k), "{" + PrintField(fields[0], COMPACT), PrintFields(fields[1..], COMPACT));
        } else {
          RunConcat(Out(k), "{", "}");
        }
      case _ => RunLeaf(Out(k), v);
    }
  }

  lemma StringText(s: string)
    ensures Print(Str(s), COMPACT) == Quote(s)
  {}

  lemma NoGap(s: string)
    ensures COMPACT.Deeper() == COMPACT && COMPACT.Opening() == "" && COMPACT.Closing() == "" && COMPACT.Colon() == ":"
    ensures s + "" == s && "" + s == s
  {}

  lemma ListText(items: seq<Json>)
    ensures Print(Arr(items), COMPACT) == if |items| == 0 then "[" + "]" else
      "[" + PrintItem(items[0], COMPACT) + PrintItems(items[1..], COMPACT)
  {
    hide PrintItem, PrintItems, PrintFields, PrintField;
    NoGap("[");
  }

  lemma ItemsText(items: seq<Json>)
    ensures PrintItems(items, COMPACT) == if |items| == 0 then "]" else
      "," + PrintItem(items[0], COMPACT) + PrintItems(items[1..], COMPACT)
  {
    hide PrintItem, Print;
    NoGap(",");
    NoGap("]");
  }

  lemma ObjectText(fields: seq<Field>)
    ensures Print(Obj(fields), COMPACT) == if |fields| == 0 then "{" + "}" else
      "{" + PrintField(fields[0], COMPACT) + PrintFields(fields[1..], COMPACT)
  {
    hide PrintItem, PrintItems, PrintFields, PrintField;
    NoGap("{");
  }

  lemma FieldsText(fields: seq<Field>)
    ensures PrintFields(fields, COMPACT) == if |fields| == 0 then "}" else
      "," + PrintField(fields[0], COMPACT) + PrintFields(fields[1..], COMPACT)
  {
    hide PrintField, Print;
    NoGap(",");
    NoGap("}");
  }

  lemma FieldText(f: Field)
    ensures PrintField(f, COMPACT) == Quote(f.key) + ":" + Print(f.value, COMPACT)
  {
    NoGap(":");
  }

  lemma Brackets(k: int)
    ensures Run(Out(k), "[") == Run(Out(k), "{") == Out(k + 1)
    ensures Run(Out(k + 1), "]") == Run(Out(k + 1), "}") == Out(k)
    ensures Run(Out(k), ",") == Out(k) && (k > 0 ==> Run(Out(k), ":") == Out(k))
  {
    RunOne(Out(k), '[');
    RunOne(Out(k), '{');
    RunOne(Out(k + 1), ']');
    RunOne(Out(k + 1), '}');
    RunOne(Out(k), ',');
    RunOne(Out(k), ':');
  }

  lemma {:induction false} RunItem(k: nat, v: Json)
    requires WellFormed(v)
    ensures Run(Out(k), PrintItem(v, COMPACT)) == Out(k)
    decreases v, 2
  {
    if !v.Undefined? { RunPrint(k, v); }
  }

  lemma {:induction false} RunItems(k: nat, items: seq<Json>)
    requires k > 0 && forall i :: 0 <= i < |items| ==> WellFormed(items[i])
    ensures Run(Out(k), PrintItems(items, COMPACT)) == Out(k - 1)
    decreases items, 0
  {
    hide Run, Next, Print, PrintItem, PrintItems;
    ItemsText(items);
    Brackets(k - 1);
    Brackets(k);
    if |items| > 0 {
      RunItem(k, items[0]);
      RunItems(k, items[1..]);
      RunConcat(Out(k), ",", PrintItem(items[0], COMPACT));
      RunConcat(Out(k), "," + PrintItem(items[0], COMPACT), PrintItems(items[1..], COMPACT));
    }
  }

  lemma {:induction false} RunField(k: nat, f: Field)
    requires k > 0 && WellFormed(f.value)
    ensures Run(Out(k), PrintField(f, COMPACT)) == Out(k)
    decreases f, 2
  {
    hide Run, Next, Print, PrintField, Quote;
    FieldText(f);
    Brackets(k);
    RunQuote(k, f.key);
    RunPrint(k, f.value);
    RunConcat(Out(k), Quote(f.key), ":");
    RunConcat(Out(k), Quote(f.key) + ":", Print(f.value, COMPACT));
  }

  lemma {:induction false} RunFields(k: nat, fields: seq<Field>)
    requires k > 0 && forall i :: 0 <= i < |fields| ==> WellFormed(fields[i].value)
    ensures Run(Out(k), PrintFields(fields, COMPACT)) == Out(k - 1)
    decreases fields, 0
  {
    hide Run, Next, Print, PrintField, PrintFields;
    FieldsText(fields);
    Brackets(k - 1);
    Brackets(k);
    if |fields| > 0 {
      RunField(k, fields[0]);
      RunFields(k, fields[1..]);
      RunConcat(Out(k), ",", PrintField(fields[0], COMPACT));
      RunConcat(Out(k), "," + PrintField(fields[0], COMPACT), PrintFields(fields[1..], COMPACT));
    }
  }

  // ---------- Read from within a string, printed text never leaves it ----------

  predicate Inside(q: Mode) { q.In? || q.Bad? }

  predicate Outside(q: Mode) { q.Out? || q.Bad? }

  lemma OutsideEscape(q: Mode, c: char)
    requires Outside(q)
    ensures Outside(Run(q, Escape(c)))
  {
    var e := Escape(c);
    EscapeShape(c);
    assert e == [e[0]] + e[1..];
    RunFirst(q, e[0], e[1..]);
    if |e| == 1 { assert e[1..] == []; } else { StaysBad(e[1..]); }
  }

  lemma {:induction false} StaysBad(s: string)
    ensures Run(Bad, s) == Bad
  {
    if |s| > 0 { StaysBad(s[1..]); }
  }

  lemma {:induction false} OutsideTail(q: Mode, s: string)
    requires Outside(q)
    ensures Inside(Run(q, QuoteTail(s)))
    decreases |s|
  {
    hide Escape;
    if |s| == 0 {
      RunOne(q, '\"');
    } else {
      OutsideEscape(q, s[0]);
      RunConcat(q, Escape(s[0]), QuoteTail(s[1..]));
      OutsideTail(Run(q, Escape(s[0])), s[1..]);
    }
  }

  lemma InsideQuote(q: Mode, s: string)
    requires Inside(q)
    ensures Inside(Run(q, Quote(s)))
  {
    RunFirst(q, '\"', QuoteTail(s));
    OutsideTail(Next(q, '\"'), s);
  }

  lemma InsideMark(q: Mode, c: char)
    requires Inside(q) && c != '\"' && c != '\\'
    ensures Inside(Run(q, [c]))
  {
    RunOne(q, c);
  }

  lemma {:induction false} InsidePrint(q: Mode, v: Json)
    requires WellFormed(v) && Inside(q)
    ensures Inside(Run(q, Print(v, COMPACT)))
    decreases v, 1
  {
    hide Run, Next, Print, PrintItem, PrintItems, PrintField, PrintFields;
    match v {
      case Str(s) =>
        StringText(s);
        InsideQuote(q, s);
      case Arr(items) =>
        ListText(items);
        InsideMark(q, '[');
        if |items| > 0 {
          InsideItem(Run(q, "["), items[0]);
          RunConcat(q, "[", PrintItem(items[0], COMPACT));
          InsideItems(Run(q, "[" + PrintItem(items[0], COMPACT)), items[1..]);
          RunConcat(q, "[" + PrintItem(items[0], COMPACT), PrintItems(items[1..], COMPACT));
        } else {
          InsideMark(Run(q, "["), ']');
          RunConcat(q, "[", "]");
        }
      case Obj(fields) =>
        ObjectText(fields);
        InsideMark(q, '{');
        if |fields| > 0 {
          InsideField(Run(q, "{"), fields[0]);
          RunConcat(q, "{", PrintField(fields[0], COMPACT));
          InsideFields(Run(q, "{" + PrintField(fields[0], COMPACT)), fields[1..]);
          RunConcat(q, "{" + PrintField(fields[0], COMPACT), PrintFields(fields[1..], COMPACT));
        } else {
          InsideMark(Run(q, "{"), '}');
          RunConcat(q, "{", "}");
        }
      case _ => RunLeaf(q, v);
    }
  }

  lemma {:induction false} InsideItem(q: Mode, v: Json)
    requires WellFormed(v) && Inside(q)
    ensures Inside(Run(q, PrintItem(v, COMPACT)))
    decreases v, 2
  {
    if !v.Undefined? { InsidePrint(q, v); }
  }

  lemma {:induction false} InsideItems(q: Mode, items: seq<Json>)
    requires Inside(q) && forall i :: 0 <= i < |items| ==> WellFormed(items[i])
    ensures Inside(Run(q, PrintItems(items, COMPACT)))
    decreases items, 0
  {
    hide Run, Next, Print, PrintItem, PrintItems;
    ItemsText(items);
    if |items| == 0 {
      InsideMark(q, ']');
    } else {
      InsideMark(q, ',');
      InsideItem(Run(q, ","), items[0]);
      RunConcat(q, ",", PrintItem(items[0], COMPACT));
      InsideItems(Run(q, "," + PrintItem(items[0], COMPACT)), items[1..]);
      RunConcat(q, "," + PrintItem(items[0], COMPACT), PrintItems(items[1..], COMPACT));
    }
  }

  lemma {:induction false} InsideField(q: Mode, f: Field)
    requires Inside(q) && WellFormed(f.value)
    ensures Inside(Run(q, PrintField(f, COMPACT)))
    decreases f, 2
  {
    hide Run, Next, Print, PrintField, Quote;
    FieldText(f);
    InsideQuote(q, f.key);
    InsideMark(Run(q, Quote(f.key)), ':');
    RunConcat(q, Quote(f.key), ":");
    InsidePrint(Run(q, Quote(f.key) + ":"), f.value);
    RunConcat(q, Quote(f.key) + ":", Print(f.value, COMPACT));
  }

  lemma {:induction false} InsideFields(q: Mode, fields: seq<Field>)
    requires Inside(q) && forall i :: 0 <= i < |fields| ==> WellFormed(fields[i].value)
    ensures Inside(Run(q, PrintFields(fields, COMPACT)))
    decreases fields, 0
  {
    hide Run, Next, Print, PrintField, PrintFields;
    FieldsText(fields);
    if |fields| == 0 {
      InsideMark(q, '}');
    } else {
      InsideMark(q, ',');
      InsideField(Run(q, ","), fields[0]);
      RunConcat(q, ",", PrintField(fields[0], COMPACT));
      InsideFields(Run(q, "," + PrintField(fields[0], COMPACT)), fields[1..]);
      RunConcat(q, "," + PrintField(fields[0], COMPACT), PrintFields(fields[1..], COMPACT));
    }
  }

  // ---------- The split ----------

  lemma AfterColon(q: Mode)
    ensures var r := Next(q, ':'); Inside(r) || (r.Out? && r.depth > 0)
  {}

  /** No printed value is a text, a colon and a printed value. */
  lemma NoColonSplit(v: Json, w: Json, x: string)
    requires WellFormed(v) && WellFormed(w)
    ensures Print(v, COMPACT) != x + ":" + Print(w, COMPACT)
  {
    hide Run, Next, Print;
    var before := Run(Out(0), x);
    RunConcat(Out(0), x, ":");
    RunConcat(Out(0), x + ":", Print(w, COMPACT));
    RunOne(before, ':');
    AfterColon(before);
    var q := Next(before, ':');
    RunPrint(0, v);
    if Inside(q) { InsidePrint(q, w); } else { RunPrint(q.depth, w); }
  }

  lemma ShorterFirst(s: string, t: string, x: string, y: string)
    requires s + ":" + x == t + ":" + y && |s| < |t|
    ensures x == t[|s| + 1..] + ":" + y
  {
    var l, r := s + ":" + x, t + ":" + y;
    assert l[|s| + 1..] == x;
    assert r[|s| + 1..] == t[|s| + 1..] + ":" + y;
  }

  /** A text, a colon and a printed value: the whole tells the text and the print apart. */
  lemma SplitUnique(s: string, t: string, v: Json, w: Json)
    requires WellFormed(v) && WellFormed(w)
    ensures s + ":" + Print(v, COMPACT) == t + ":" + Print(w, COMPACT)
            <==> s == t && Print(v, COMPACT) == Print(w, COMPACT)
  {
    hide Print;
    var x, y := Print(v, COMPACT), Print(w, COMPACT);
    if s + ":" + x == t + ":" + y {
      if |s| < |t| {
        ShorterFirst(s, t, x, y);
        NoColonSplit(v, w, t[|s| + 1..]);
      } else if |t| < |s| {
        ShorterFirst(t, s, y, x);
        NoColonSplit(w, v, s[|t| + 1..]);
      } else {
        assert (s + ":" + x)[..|s|] == s && (t + ":" + y)[..|t|] == t;
        assert (s + ":" + x)[|s| + 1..] == x && (t + ":" + y)[|t| + 1..] == y;
      }
    }
  }
}
