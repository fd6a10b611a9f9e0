/**
  The canonical text of a value: object keys sorted at every level, then printed.
  Two values have one canonical text exactly when they differ only in key order.
*/
module Canonical {
  import opened Basics
  import opened Json

  function InsertField(less: TextOrder, f: Field, fs: seq<Field>): seq<Field> {
    if |fs| == 0 then [f]
    else if less(f.key, fs[0].key) then [f] + fs
    else [fs[0]] + InsertField(less, f, fs[1..])
  }

  function SortFields(less: TextOrder, fs: seq<Field>): seq<Field> {
    if |fs| == 0 then [] else InsertField(less, fs[0], SortFields(less, fs[1..]))
  }

  function SortValue(less: TextOrder, v: Json): Json
    decreases v, 1
  {
    match v
    case Arr(items) => Arr(SortItems(less, items))
    case Obj(fields) => Obj(SortFields(less, SortNested(less, fields)))
    case _ => v
  }

  function SortItems(less: TextOrder, items: seq<Json>): (r: seq<Json>)
    ensures |r| == |items|
    ensures forall i :: 0 <= i < |items| ==> r[i] == SortValue(less, items[i])
    decreases items, 0
  {
    if |items| == 0 then [] else [SortValue(less, items[0])] + SortItems(less, items[1..])
  }

  function SortNested(less: TextOrder, fields: seq<Field>): (r: seq<Field>)
    ensures |r| == |fields|
    ensures forall i :: 0 <= i < |fields| ==> r[i] == Field(fields[i].key, SortValue(less, fields[i].value))
    decreases fields, 0
  {
    if |fields| == 0 then []
    else [Field(fields[0].key, SortValue(less, fields[0].value))] + SortNested(less, fields[1..])
  }

  function StableStringify(less: TextOrder, v: Json): string {
    Print(SortValue(less, v), COMPACT)
  }

  // ---------- Equality up to key order, defined without sorting ----------

  function Keys(fs: seq<Field>): set<string> {
    set i | 0 <= i < |fs| :: fs[i].key
  }

  function IndexOf(fs: seq<Field>, key: string): (i: nat)
    requires key in Keys(fs)
    ensures i < |fs| && fs[i].key == key
  {
    if fs[0].key == key then 0
    else
      assert key in Keys(fs[1..]) by {
        var j :| 0 <= j < |fs| && fs[j].key == key;
        assert fs[1..][j - 1].key == key;
      }
      1 + IndexOf(fs[1..], key)
  }

  predicate SameUpToKeyOrder(v: Json, w: Json)
    decreases v
  {
    match v
    case Arr(xs) =>
      w.Arr? && |xs| == |w.items| && forall i | 0 <= i < |xs| :: SameUpToKeyOrder(xs[i], w.items[i])
    case Obj(fs) =>
      && w.Obj? && Keys(fs) == Keys(w.fields)
      && forall i | 0 <= i < |fs| ::
           SameUpToKeyOrder(fs[i].value, w.fields[IndexOf(w.fields, fs[i].key)].value)
    case _ => v == w
  }

  // ---------- Sorting keeps the entries ----------

  predicate Sorted(less: TextOrder, fs: seq<Field>) {
    forall i, j :: 0 <= i < j < |fs| ==> less(fs[i].key, fs[j].key)
  }

  lemma PrependSorted(less: TextOrder, f: Field, fs: seq<Field>)
    requires Sorted(less, fs) && forall g :: g in fs ==> less(f.key, g.key)
    ensures Sorted(less, [f] + fs)
  {}

  lemma {:induction false} InsertKeeps(less: TextOrder, f: Field, fs: seq<Field>)
    requires StrictTotal(less) && Sorted(less, fs)
    requires f.key !in Keys(fs)
    ensures var r := InsertField(less, f, fs);
      Sorted(less, r) && multiset(r) == multiset(fs) + multiset{f}
  {
    if |fs| > 0 {
      var rest := fs[1..];
      assert fs == [fs[0]] + rest;
      assert forall g :: g in rest ==> less(fs[0].key, g.key);
      if less(f.key, fs[0].key) {
        PrependSorted(less, f, fs);
      } else {
        var r := InsertField(less, f, rest);
        assert fs[0].key in Keys(fs);
        KeysOfRest(fs);
        InsertKeeps(less, f, rest);
        forall g | g in r
          ensures less(fs[0].key, g.key)
        {
          assert g in multiset(r);
          assert g == f || g in multiset(rest);
        }
        PrependSorted(less, fs[0], r);
      }
    }
  }

  lemma KeysOfRest(fs: seq<Field>)
    requires |fs| > 0
    ensures Keys(fs[1..]) <= Keys(fs)
  {
    forall k | k in Keys(fs[1..])
      ensures k in Keys(fs)
    {
      var i :| 0 <= i < |fs[1..]| && fs[1..][i].key == k;
      assert fs[i + 1].key == k;
    }
  }

  lemma {:induction false} SortKeeps(less: TextOrder, fs: seq<Field>)
    requires StrictTotal(less) && DistinctKeys(fs)
    ensures var r := SortFields(less, fs); Sorted(less, r) && multiset(r) == multiset(fs)
  {
    if |fs| > 0 {
      var rest := fs[1..];
      SortKeeps(less, rest);
      SameEntriesSameKeys(rest, SortFields(less, rest));
      InsertKeeps(less, fs[0], SortFields(less, rest));
      assert fs == [fs[0]] + rest;
    }
  }

  lemma SameEntriesSameKeys(a: seq<Field>, b: seq<Field>)
    requires multiset(a) == multiset(b)
    ensures Keys(a) == Keys(b)
  {
    assert forall f :: f in a <==> f in multiset(a);
    assert forall f :: f in b <==> f in multiset(b);
    EntriesGiveKeys(a, b);
    EntriesGiveKeys(b, a);
  }

  lemma TailEntries(less: TextOrder, a: seq<Field>, b: seq<Field>)
    requires StrictTotal(less) && Sorted(less, a) && |a| > 0 && |b| > 0 && a[0] == b[0]
    requires forall f :: f in a ==> f in b
    ensures forall f :: f in a[1..] ==> f in b[1..]
  {
    forall f | f in a[1..]
      ensures f in b[1..]
    {
      var i :| 0 <= i < |a[1..]| && a[1..][i] == f;
      assert less(a[0].key, a[i + 1].key);
      assert f in b && f != b[0];
      assert b == [b[0]] + b[1..];
    }
  }

  /** A sorted list is determined by its entries. */
  lemma {:induction false} SortedUnique(less: TextOrder, a: seq<Field>, b: seq<Field>)
    requires StrictTotal(less) && Sorted(less, a) && Sorted(less, b)
    requires forall f :: f in a <==> f in b
    ensures a == b
  {
    assert |a| == 0 <==> |b| == 0 by {
      assert |a| > 0 ==> a[0] in a;
      assert |b| > 0 ==> b[0] in b;
    }
    if |a| > 0 {
      assert a[0] in a;
      assert a[0] in b;
      assert b[0] in b;
      assert b[0] in a;
      assert a[0] == b[0];
      TailEntries(less, a, b);
      TailEntries(less, b, a);
      SortedUnique(less, a[1..], b[1..]);
      assert a == [a[0]] + a[1..] && b == [b[0]] + b[1..];
    }
  }

  // ---------- The canonical form decides equality up to key order ----------

  lemma NestedKeys(less: TextOrder, fs: seq<Field>)
    ensures Keys(SortNested(less, fs)) == Keys(fs)
    ensures DistinctKeys(fs) ==> DistinctKeys(SortNested(less, fs))
  {
    var r := SortNested(less, fs);
    assert forall i :: 0 <= i < |fs| ==> r[i].key == fs[i].key;
    forall k | k in Keys(fs)
      ensures k in Keys(r)
    {
      var i :| 0 <= i < |fs| && fs[i].key == k;
      assert r[i].key == k;
    }
  }

  lemma IndexIsUnique(fs: seq<Field>, i: nat)
    requires DistinctKeys(fs) && i < |fs|
    ensures fs[i].key in Keys(fs) && IndexOf(fs, fs[i].key) == i
  {
    var j := IndexOf(fs, fs[i].key);
    if i < j {} else if j < i {}
  }

  /** Objects that list the same keys in the same order are compared field by field. */
  lemma SameKeysInOrder(fs: seq<Field>, gs: seq<Field>)
    requires |fs| == |gs| && DistinctKeys(gs) && forall i :: 0 <= i < |fs| ==> fs[i].key == gs[i].key
    ensures SameUpToKeyOrder(Obj(fs), Obj(gs))
       <==> forall i :: 0 <= i < |fs| ==> SameUpToKeyOrder(fs[i].value, gs[i].value)
  {
    forall k
      ensures k in Keys(fs) <==> k in Keys(gs)
    {
      if k in Keys(fs) {
        var i :| 0 <= i < |fs| && fs[i].key == k;
        assert gs[i].key == k;
      }
      if k in Keys(gs) {
        var i :| 0 <= i < |gs| && gs[i].key == k;
        assert fs[i].key == k;
      }
    }
    assert Keys(fs) == Keys(gs);
    forall i | 0 <= i < |fs|
      ensures IndexOf(gs, fs[i].key) == i
    {
      IndexIsUnique(gs, i);
    }
  }

  /** Two objects sort to one list exactly when their nested entries are the same. */
  lemma SortedObjectsEqual(less: TextOrder, fs: seq<Field>, gs: seq<Field>)
    requires StrictTotal(less) && DistinctKeys(fs) && DistinctKeys(gs)
    ensures SortFields(less, fs) == SortFields(less, gs) <==> (forall f :: f in fs <==> f in gs)
  {
    SortKeeps(less, fs);
    SortKeeps(less, gs);
    var a, b := SortFields(less, fs), SortFields(less, gs);
    assert forall f :: f in a <==> f in multiset(a);
    assert forall f :: f in b <==> f in multiset(b);
    assert forall f :: f in fs <==> f in multiset(fs);
    assert forall f :: f in gs <==> f in multiset(gs);
    if forall f :: f in fs <==> f in gs {
      SortedUnique(less, a, b);
    }
  }

  lemma {:induction false} SameIffSortedEqual(less: TextOrder, v: Json, w: Json)
    requires StrictTotal(less) && WellFormed(v) && WellFormed(w)
    ensures SameUpToKeyOrder(v, w) <==> SortValue(less, v) == SortValue(less, w)
    decreases v
  {
    match v {
      case Arr(xs) =>
        if w.Arr? && |xs| == |w.items| {
          forall i | 0 <= i < |xs|
            ensures SameUpToKeyOrder(xs[i], w.items[i]) <==> SortValue(less, xs[i]) == SortValue(less, w.items[i])
          {
            SameIffSortedEqual(less, xs[i], w.items[i]);
          }
        }
      case Obj(fs) =>
        if w.Obj? {
          forall i, j | 0 <= i < |fs| && 0 <= j < |w.fields|
            ensures SameUpToKeyOrder(fs[i].value, w.fields[j].value)
               <==> SortValue(less, fs[i].value) == SortValue(less, w.fields[j].value)
          {
            SameIffSortedEqual(less, fs[i].value, w.fields[j].value);
          }
          SameObjects(less, fs, w.fields);
        }
      case _ =>
    }
  }

  lemma SameObjects(less: TextOrder, fs: seq<Field>, gs: seq<Field>)
    requires StrictTotal(less) && WellFormed(Obj(fs)) && WellFormed(Obj(gs))
    requires forall i, j :: 0 <= i < |fs| && 0 <= j < |gs| ==>
      (SameUpToKeyOrder(fs[i].value, gs[j].value)
       <==> SortValue(less, fs[i].value) == SortValue(less, gs[j].value))
    ensures SameUpToKeyOrder(Obj(fs), Obj(gs)) <==> SortValue(less, Obj(fs)) == SortValue(less, Obj(gs))
  {
    var a, b := SortNested(less, fs), SortNested(less, gs);
    NestedKeys(less, fs);
    NestedKeys(less, gs);
    SortedObjectsEqual(less, a, b);
    hide SameUpToKeyOrder, SortValue;
    if SameUpToKeyOrder(Obj(fs), Obj(gs)) {
      SameEntriesForward(less, fs, gs);
    }
    if forall f :: f in a <==> f in b {
      SameEntriesBackward(less, fs, gs);
    }
    SortObject(less, fs);
    SortObject(less, gs);
  }

  lemma SortObject(less: TextOrder, fs: seq<Field>)
    ensures SortValue(less, Obj(fs)) == Obj(SortFields(less, SortNested(less, fs)))
  {}

  lemma SameEntriesForward(less: TextOrder, fs: seq<Field>, gs: seq<Field>)
    requires WellFormed(Obj(fs)) && WellFormed(Obj(gs)) && SameUpToKeyOrder(Obj(fs), Obj(gs))
    requires forall i, j :: 0 <= i < |fs| && 0 <= j < |gs| ==>
      (SameUpToKeyOrder(fs[i].value, gs[j].value)
       ==> SortValue(less, fs[i].value) == SortValue(less, gs[j].value))
    ensures forall f :: f in SortNested(less, fs) <==> f in SortNested(less, gs)
  {
    var a, b := SortNested(less, fs), SortNested(less, gs);
    forall f | f in a
      ensures f in b
    {
      var i :| 0 <= i < |a| && a[i] == f;
      assert fs[i].key in Keys(fs);
      var j := IndexOf(gs, fs[i].key);
      assert b[j] == f;
    }
    forall f | f in b
      ensures f in a
    {
      var j :| 0 <= j < |b| && b[j] == f;
      assert gs[j].key in Keys(gs);
      var i := IndexOf(fs, gs[j].key);
      IndexIsUnique(gs, j);
      assert SameUpToKeyOrder(fs[i].value, gs[IndexOf(gs, fs[i].key)].value);
      assert a[i] == f;
    }
  }

  lemma EntriesGiveKeys(a: seq<Field>, b: seq<Field>)
    requires forall f :: f in a ==> f in b
    ensures Keys(a) <= Keys(b)
  {
    forall k | k in Keys(a)
      ensures k in Keys(b)
    {
      var i :| 0 <= i < |a| && a[i].key == k;
      assert a[i] in b;
    }
  }

  lemma SameEntriesBackward(less: TextOrder, fs: seq<Field>, gs: seq<Field>)
    requires WellFormed(Obj(fs)) && WellFormed(Obj(gs))
    requires forall i, j :: 0 <= i < |fs| && 0 <= j < |gs| ==>
      (SameUpToKeyOrder(fs[i].value, gs[j].value)
       <==> SortValue(less, fs[i].value) == SortValue(less, gs[j].value))
    requires forall f :: f in SortNested(less, fs) <==> f in SortNested(less, gs)
    ensures SameUpToKeyOrder(Obj(fs), Obj(gs))
  {
    var a, b := SortNested(less, fs), SortNested(less, gs);
    NestedKeys(less, fs);
    NestedKeys(less, gs);
    EntriesGiveKeys(a, b);
    EntriesGiveKeys(b, a);
    forall i | 0 <= i < |fs|
      ensures SameUpToKeyOrder(fs[i].value, gs[IndexOf(gs, fs[i].key)].value)
    {
      assert a[i] in a;
      EntryElsewhere(less, fs[i], gs);
    }
  }

  /** A nested entry that `gs` shares is found at its key. */
  lemma EntryElsewhere(less: TextOrder, f: Field, gs: seq<Field>)
    requires DistinctKeys(gs) && Field(f.key, SortValue(less, f.value)) in SortNested(less, gs)
    ensures f.key in Keys(gs)
    ensures SortValue(less, gs[IndexOf(gs, f.key)].value) == SortValue(less, f.value)
  {
    hide SortValue;
    var b := SortNested(less, gs);
    var j :| 0 <= j < |b| && b[j] == Field(f.key, SortValue(less, f.value));
    IndexIsUnique(gs, j);
  }

  // ---------- Main results ----------

  lemma {:induction false} SortKeepsWellFormed(less: TextOrder, v: Json)
    requires StrictTotal(less) && WellFormed(v)
    ensures WellFormed(SortValue(less, v))
    decreases v
  {
    match v {
      case Arr(items) =>
        forall i | 0 <= i < |items|
          ensures WellFormed(SortValue(less, items[i]))
        {
          SortKeepsWellFormed(less, items[i]);
        }
      case Obj(fields) =>
        var nested := SortNested(less, fields);
        var r := SortFields(less, nested);
        forall i | 0 <= i < |fields|
          ensures WellFormed(nested[i].value)
        {
          SortKeepsWellFormed(less, fields[i].value);
        }
        NestedKeys(less, fields);
        SortKeeps(less, nested);
        SortedKeysDistinct(less, r);
        forall i | 0 <= i < |r|
          ensures WellFormed(r[i].value)
        {
          assert r[i] in multiset(r);
          assert r[i] in multiset(nested);
        }
      case _ =>
    }
  }

  lemma SortedKeysDistinct(less: TextOrder, fs: seq<Field>)
    requires StrictTotal(less) && Sorted(less, fs)
    ensures DistinctKeys(fs)
  {
    forall i, j | 0 <= i < j < |fs|
      ensures fs[i].key != fs[j].key
    {
      assert less(fs[i].key, fs[j].key);
    }
  }

  // ---------- Undefined parts ----------

  lemma {:induction false} JoinedInsert(less: TextOrder, f: Field, fs: seq<Field>)
    ensures JoinedFields(InsertField(less, f, fs))
         == InsertField(less, Field(f.key, Joined(f.value)), JoinedFields(fs))
  {
    hide Joined;
    if |fs| > 0 {
      assert JoinedFields(fs)[1..] == JoinedFields(fs[1..]);
      if less(f.key, fs[0].key) {
        assert ([f] + fs)[1..] == fs;
      } else {
        JoinedInsert(less, f, fs[1..]);
        var r := InsertField(less, f, fs[1..]);
        assert ([fs[0]] + r)[1..] == r;
      }
    } else {
      assert [f][1..] == [];
    }
  }

  lemma {:induction false} JoinedSortFields(less: TextOrder, fs: seq<Field>)
    ensures JoinedFields(SortFields(less, fs)) == SortFields(less, JoinedFields(fs))
  {
    hide Joined;
    if |fs| > 0 {
      JoinedSortFields(less, fs[1..]);
      JoinedInsert(less, fs[0], SortFields(less, fs[1..]));
      assert JoinedFields(fs)[1..] == JoinedFields(fs[1..]);
    }
  }

  /** Sorting commutes with joining. */
  lemma {:induction false} JoinedSort(less: TextOrder, v: Json)
    ensures Joined(SortValue(less, v)) == SortValue(less, Joined(v))
    decreases v
  {
    match v {
      case Arr(items) =>
        var r := SortItems(less, items);
        forall i | 0 <= i < |items|
          ensures Joined(r[i]) == SortValue(less, Joined(items[i])) && (r[i].Undefined? <==> items[i].Undefined?)
        {
          JoinedSort(less, items[i]);
        }
        assert r == [Undefined] <==> items == [Undefined] by {
          assert |items| == 1 ==> r == [r[0]] && items == [items[0]];
        }
        assert items != [Undefined] ==> JoinedItems(r) == SortItems(less, JoinedItems(items));
      case Obj(fields) =>
        forall i | 0 <= i < |fields|
          ensures Joined(SortValue(less, fields[i].value)) == SortValue(less, Joined(fields[i].value))
        {
          JoinedSort(less, fields[i].value);
        }
        assert JoinedFields(SortNested(less, fields)) == SortNested(less, JoinedFields(fields));
        JoinedSortFields(less, SortNested(less, fields));
      case _ =>
    }
  }

  lemma {:induction false} JoinedWellFormed(v: Json)
    requires WellFormed(v)
    ensures WellFormed(Joined(v))
  {
    JoinedClear(v);
  }

  /** One canonical text if and only if one value up to key order, a list of one undefined item counting as empty. */
  lemma CanonicalText(less: TextOrder, v: Json, w: Json)
    requires StrictTotal(less) && WellFormed(v) && WellFormed(w)
    ensures StableStringify(less, v) == StableStringify(less, w) <==> SameUpToKeyOrder(Joined(v), Joined(w))
  {
    hide SortValue, Print, SameUpToKeyOrder, Joined, WellFormed;
    SortKeepsWellFormed(less, v);
    SortKeepsWellFormed(less, w);
    PrintMeaning(SortValue(less, v), SortValue(less, w));
    JoinedSort(less, v);
    JoinedSort(less, w);
    JoinedWellFormed(v);
    JoinedWellFormed(w);
    SameIffSortedEqual(less, Joined(v), Joined(w));
  }

  lemma {:induction false} DroppedInsert(less: TextOrder, f: Field, fs: seq<Field>)
    requires StrictTotal(less) && Sorted(less, fs)
    ensures DroppedFields(InsertField(less, f, fs)) ==
      if f.value.Undefined? then DroppedFields(fs)
      else InsertField(less, Field(f.key, Dropped(f.value)), DroppedFields(fs))
  {
    hide Dropped;
    if |fs| > 0 {
      if less(f.key, fs[0].key) {
        assert ([f] + fs)[1..] == fs;
        LowestFirst(less, Field(f.key, Dropped(f.value)), fs);
      } else {
        DroppedInsert(less, f, fs[1..]);
        var r := InsertField(less, f, fs[1..]);
        assert ([fs[0]] + r)[1..] == r;
        InsertAfter(less, Field(f.key, Dropped(f.value)), fs);
      }
    } else {
      assert [f][1..] == [];
    }
  }

  /** A key below all others is inserted in front, also of what is written of them. */
  lemma LowestFirst(less: TextOrder, g: Field, fs: seq<Field>)
    requires StrictTotal(less) && Sorted(less, fs) && |fs| > 0 && less(g.key, fs[0].key)
    ensures InsertField(less, g, DroppedFields(fs)) == [g] + DroppedFields(fs)
  {
    hide Dropped;
    var r := DroppedFields(fs);
    if |r| > 0 {
      DroppedEntry(fs, r[0]);
      var i :| 0 <= i < |fs| && !fs[i].value.Undefined? && r[0] == Field(fs[i].key, Dropped(fs[i].value));
      assert i > 0 ==> less(fs[0].key, fs[i].key);
    }
  }

  lemma InsertAfter(less: TextOrder, g: Field, fs: seq<Field>)
    requires |fs| > 0 && !less(g.key, fs[0].key)
    ensures !fs[0].value.Undefined? ==>
      InsertField(less, g, DroppedFields(fs))
      == [Field(fs[0].key, Dropped(fs[0].value))] + InsertField(less, g, DroppedFields(fs[1..]))
    ensures fs[0].value.Undefined? ==> DroppedFields(fs) == DroppedFields(fs[1..])
  {
    hide Dropped;
    assert !fs[0].value.Undefined? ==> DroppedFields(fs)[1..] == DroppedFields(fs[1..]);
  }

  lemma SortSorts(less: TextOrder, fs: seq<Field>)
    requires StrictTotal(less) && DistinctKeys(fs)
    ensures Sorted(less, SortFields(less, fs))
  {
    SortKeeps(less, fs);
  }

  lemma FirstDropped(fs: seq<Field>)
    requires |fs| > 0
    ensures fs[0].value.Undefined? ==> DroppedFields(fs) == DroppedFields(fs[1..])
    ensures !fs[0].value.Undefined? ==>
      && |DroppedFields(fs)| > 0 && DroppedFields(fs)[0] == Field(fs[0].key, Dropped(fs[0].value))
      && DroppedFields(fs)[1..] == DroppedFields(fs[1..])
  {
    hide Dropped;
  }

  lemma {:induction false} DroppedSortFields(less: TextOrder, fs: seq<Field>)
    requires StrictTotal(less) && DistinctKeys(fs)
    ensures DroppedFields(SortFields(less, fs)) == SortFields(less, DroppedFields(fs))
  {
    hide Dropped, InsertField, Sorted, StrictTotal;
    if |fs| > 0 {
      DroppedSortFields(less, fs[1..]);
      SortSorts(less, fs[1..]);
      DroppedInsert(less, fs[0], SortFields(less, fs[1..]));
      FirstDropped(fs);
    }
  }

  /** Sorting the fields inside before or after dropping undefined ones. */
  lemma {:induction false} DroppedNested(less: TextOrder, fs: seq<Field>)
    requires forall i :: 0 <= i < |fs| ==> Dropped(SortValue(less, fs[i].value)) == SortValue(less, Dropped(fs[i].value))
    ensures DroppedFields(SortNested(less, fs)) == SortNested(less, DroppedFields(fs))
  {
    if |fs| > 0 {
      DroppedNested(less, fs[1..]);
      assert SortNested(less, fs)[1..] == SortNested(less, fs[1..]);
      assert SortValue(less, fs[0].value).Undefined? <==> fs[0].value.Undefined?;
      hide Dropped, SortValue;
      FirstDropped(fs);
    }
  }

  /** Sorting commutes with dropping undefined parts. */
  lemma {:induction false} DroppedSort(less: TextOrder, v: Json)
    requires StrictTotal(less) && WellFormed(v)
    ensures Dropped(SortValue(less, v)) == SortValue(less, Dropped(v))
    decreases v
  {
    match v {
      case Arr(items) =>
        forall i | 0 <= i < |items|
          ensures DroppedItems(SortItems(less, items))[i] == SortItems(less, DroppedItems(items))[i]
        {
          DroppedSort(less, items[i]);
        }
      case Obj(fields) =>
        forall i | 0 <= i < |fields|
          ensures Dropped(SortValue(less, fields[i].value)) == SortValue(less, Dropped(fields[i].value))
        {
          DroppedSort(less, fields[i].value);
        }
        DroppedNested(less, fields);
        NestedKeys(less, fields);
        DroppedSortFields(less, SortNested(less, fields));
      case _ =>
    }
  }

  /** The text that is hashed: sorted, then written by the library. */
  function SortedText(less: TextOrder, v: Json): string { Stringify(SortValue(less, v), COMPACT) }

  /** One hashed text if and only if one value up to key order and undefined parts. */
  lemma SortedTextMeaning(less: TextOrder, v: Json, w: Json)
    requires StrictTotal(less) && WellFormed(v) && WellFormed(w)
    ensures SortedText(less, v) == SortedText(less, w) <==> SameUpToKeyOrder(Dropped(v), Dropped(w))
  {
    hide SortValue, Stringify, SameUpToKeyOrder, Dropped, WellFormed, NoUndefined;
    SortKeepsWellFormed(less, v);
    SortKeepsWellFormed(less, w);
    StringifyMeaning(SortValue(less, v), SortValue(less, w), COMPACT);
    DroppedSort(less, v);
    DroppedSort(less, w);
    DroppedClear(v);
    DroppedClear(w);
    SameIffSortedEqual(less, Dropped(v), Dropped(w));
  }

  /** Sorting changes a value only up to key order. */
  lemma {:induction false} SortIsSame(less: TextOrder, v: Json)
    requires StrictTotal(less) && WellFormed(v)
    ensures SameUpToKeyOrder(v, SortValue(less, v))
    decreases v
  {
    match v {
      case Arr(items) =>
        forall i | 0 <= i < |items|
          ensures SameUpToKeyOrder(items[i], SortValue(less, items[i]))
        {
          SortIsSame(less, items[i]);
        }
      case Obj(fields) =>
        var nested := SortNested(less, fields);
        var r := SortFields(less, nested);
        NestedKeys(less, fields);
        SortKeeps(less, nested);
        SameEntriesSameKeys(nested, r);
        SortedKeysDistinct(less, r);
        forall i | 0 <= i < |fields|
          ensures SameUpToKeyOrder(fields[i].value, r[IndexOf(r, fields[i].key)].value)
        {
          SortIsSame(less, fields[i].value);
          assert nested[i] in multiset(nested);
          assert nested[i] in multiset(r);
          var j :| 0 <= j < |r| && r[j] == nested[i];
          IndexIsUnique(r, j);
        }
      case _ =>
    }
  }

  lemma SortIdempotent(less: TextOrder, v: Json)
    requires StrictTotal(less) && WellFormed(v)
    ensures SortValue(less, SortValue(less, v)) == SortValue(less, v)
  {
    hide SortValue, SameUpToKeyOrder;
    SortIsSame(less, v);
    SortKeepsWellFormed(less, v);
    SameIffSortedEqual(less, v, SortValue(less, v));
  }
}
