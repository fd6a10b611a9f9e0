/**
  Best-first search over the neighbour graph of the vector index.  Scores are
  exact reals; a vector is compared by its dot product with the query.
*/
module HnswSearch {
  import opened Basics

  type Id = string
  type Vector = seq<real>

  /** A stored vector and its neighbours in insertion order. */
  datatype Node = Node(vector: Vector, neighbors: seq<Id>)

  type Graph = map<Id, Node>

  datatype Hit = Hit(id: Id, score: real)

  // ---------- Scores ----------

  function Dot(a: Vector, b: Vector): real
    requires |a| == |b|
  {
    if |a| == 0 then 0.0 else Dot(a[..|a| - 1], b[..|b| - 1]) + a[|a| - 1] * b[|b| - 1]
  }

  /** The dot product is the sum of the products, place by place. */
  lemma DotMeaning(a: Vector, b: Vector, x: real, y: real)
    requires |a| == |b|
    ensures Dot([], []) == 0.0
    ensures Dot(a + [x], b + [y]) == Dot(a, b) + x * y
    ensures Dot([x] + a, [y] + b) == x * y + Dot(a, b)
  {
    DotAppend(a, b, x, y);
    DotPrepend(a, b, x, y);
  }

  lemma DotAppend(a: Vector, b: Vector, x: real, y: real)
    requires |a| == |b|
    ensures Dot(a + [x], b + [y]) == Dot(a, b) + x * y
  {
    assert (a + [x])[..|a|] == a && (b + [y])[..|b|] == b;
    DotLast(a + [x], b + [y], a, b, x, y);
  }

  lemma DotLast(u: Vector, v: Vector, a: Vector, b: Vector, x: real, y: real)
    requires |u| == |v| == |a| + 1 == |b| + 1
    requires u[..|a|] == a && v[..|b|] == b && u[|a|] == x && v[|b|] == y
    ensures Dot(u, v) == Dot(a, b) + x * y
  {
    SameProduct(u[|a|], v[|b|], x, y);
  }

  lemma SameProduct(p: real, q: real, x: real, y: real)
    requires p == x && q == y
    ensures p * q == x * y
  {}

  lemma {:induction false} DotPrepend(a: Vector, b: Vector, x: real, y: real)
    requires |a| == |b|
    ensures Dot([x] + a, [y] + b) == x * y + Dot(a, b)
    decreases |a|
  {
    if |a| == 0 {
      DotAppend([], [], x, y);
      assert [] + [x] == [x] + a && [] + [y] == [y] + b;
    } else {
      var n := |a| - 1;
      DotPrepend(a[..n], b[..n], x, y);
      DotAppend([x] + a[..n], [y] + b[..n], a[n], b[n]);
      DotAppend(a[..n], b[..n], a[n], b[n]);
      assert [x] + a == ([x] + a[..n]) + [a[n]] && [y] + b == ([y] + b[..n]) + [b[n]];
      assert a == a[..n] + [a[n]] && b == b[..n] + [b[n]];
      hide Dot;
    }
  }

  method Cosine(a: Vector, b: Vector) returns (sum: real)
    requires |a| == |b|
    ensures sum == Dot(a, b)
  {
    sum := 0.0;
    for i := 0 to |a|
      invariant sum == Dot(a[..i], b[..i])
    {
      assert a[..i + 1][..i] == a[..i] && b[..i + 1][..i] == b[..i];
      sum := sum + a[i] * b[i];
    }
    assert a[..|a|] == a && b[..|b|] == b;
  }

  predicate Dimensioned(g: Graph, d: nat) {
    forall id :: id in g ==> |g[id].vector| == d
  }

  function Score(g: Graph, query: Vector, id: Id): real
    requires id in g && |g[id].vector| == |query|
  {
    Dot(query, g[id].vector)
  }

  // ---------- Lists in descending order of score ----------

  predicate Descending(items: seq<Hit>) {
    forall i, j :: 0 <= i < j < |items| ==> items[i].score >= items[j].score
  }

  predicate DistinctIds(items: seq<Hit>) {
    forall i, j :: 0 <= i < j < |items| ==> items[i].id != items[j].id
  }

  function Ids(items: seq<Hit>): set<Id> {
    set i | 0 <= i < |items| :: items[i].id
  }

  function InsertAt(items: seq<Hit>, p: nat, h: Hit): seq<Hit>
    requires p <= |items|
  {
    items[..p] + [h] + items[p..]
  }

  /** The place after every item that scores at least as high. */
  method FindInsertIndexDesc(items: seq<Hit>, score: real) returns (lo: nat)
    requires Descending(items)
    ensures lo <= |items|
    ensures forall i :: 0 <= i < lo ==> items[i].score >= score
    ensures forall i :: lo <= i < |items| ==> score > items[i].score
  {
    lo := 0;
    var hi := |items|;
    while lo < hi
      invariant lo <= hi <= |items|
      invariant forall i :: 0 <= i < lo ==> items[i].score >= score
      invariant forall i :: hi <= i < |items| ==> score > items[i].score
    {
      var mid := (lo + hi) / 2;
      if score > items[mid].score {
        hi := mid;
      } else {
        lo := mid + 1;
      }
    }
  }

  /** Insertion after every item that scores at least as high. */
  function InsertDesc(items: seq<Hit>, h: Hit): (r: seq<Hit>)
    ensures |r| == |items| + 1
  {
    if |items| == 0 || h.score > items[0].score then [h] + items
    else [items[0]] + InsertDesc(items[1..], h)
  }

  lemma {:induction false} InsertionPlace(items: seq<Hit>, h: Hit, p: nat)
    requires Descending(items) && p <= |items|
    requires forall i :: 0 <= i < p ==> items[i].score >= h.score
    requires forall i :: p <= i < |items| ==> h.score > items[i].score
    ensures InsertAt(items, p, h) == InsertDesc(items, h)
  {
    if p > 0 {
      InsertionPlace(items[1..], h, p - 1);
      assert items[..p] == [items[0]] + items[1..][..p - 1] && items[p..] == items[1..][p - 1..];
    } else {
      assert items[..0] == [] && items[0..] == items;
    }
  }

  /** Every hit is a visited node with its true score, listed once, best first. */
  predicate Truthful(items: seq<Hit>, g: Graph, query: Vector, visited: set<Id>) {
    && Descending(items) && DistinctIds(items)
    && forall i :: 0 <= i < |items| ==>
         && items[i].id in g && items[i].id in visited && |g[items[i].id].vector| == |query|
         && items[i].score == Score(g, query, items[i].id)
  }

  lemma InsertIds(items: seq<Hit>, p: nat, h: Hit)
    requires p <= |items|
    ensures Ids(InsertAt(items, p, h)) == Ids(items) + {h.id}
    ensures DistinctIds(items) && h.id !in Ids(items) ==> DistinctIds(InsertAt(items, p, h))
  {
    var r := InsertAt(items, p, h);
    forall id | id in Ids(items) + {h.id}
      ensures id in Ids(r)
    {
      if id == h.id {
        assert r[p] == h;
      } else {
        var i :| 0 <= i < |items| && items[i].id == id;
        assert r[if i < p then i else i + 1] == items[i];
      }
    }
    forall i | 0 <= i < |items|
      ensures items[i].id in Ids(items)
    {}
  }

  lemma PrefixIds(items: seq<Hit>, n: nat)
    requires n <= |items|
    ensures Ids(items[..n]) <= Ids(items)
    ensures n == |items| ==> items[..n] == items
  {
    forall id | id in Ids(items[..n])
      ensures id in Ids(items)
    {
      var i :| 0 <= i < n && items[..n][i].id == id;
      assert items[i].id == id;
    }
  }

  /** pushCandidate, and the first half of pushBest. */
  method Push(items: seq<Hit>, h: Hit, g: Graph, query: Vector, visited: set<Id>) returns (r: seq<Hit>)
    requires Truthful(items, g, query, visited) && h.id !in Ids(items)
    requires h.id in g && h.id in visited && |g[h.id].vector| == |query| && h.score == Score(g, query, h.id)
    ensures Truthful(r, g, query, visited) && Ids(r) == Ids(items) + {h.id} && |r| == |items| + 1
    ensures |items| > 0 ==> r[0].score >= items[0].score
    ensures r == InsertDesc(items, h)
  {
    hide Score, InsertDesc;
    var p := FindInsertIndexDesc(items, h.score);
    InsertionPlace(items, h, p);
    r := InsertAt(items, p, h);
    InsertIds(items, p, h);
  }

  lemma TruthfulGrows(items: seq<Hit>, g: Graph, query: Vector, visited: set<Id>, more: set<Id>)
    requires Truthful(items, g, query, visited) && visited <= more
    ensures Truthful(items, g, query, more) && Ids(items) <= visited
  {
    hide Score;
  }

  lemma TruthfulPart(items: seq<Hit>, g: Graph, query: Vector, visited: set<Id>, from: nat, to: nat)
    requires Truthful(items, g, query, visited) && from <= to <= |items|
    ensures Truthful(items[from..to], g, query, visited)
  {
    hide Score;
  }

  // ---------- The cut-off of one expansion ----------

  /** What pushBest does with a neighbour: `worstBest` was read before the expansion began. */
  function Offer(best: seq<Hit>, ef: nat, worstBest: real, h: Hit): seq<Hit> {
    if |best| < ef || h.score > worstBest then
      var r := InsertDesc(best, h);
      if |r| > ef then r[..|r| - 1] else r
    else best
  }

  function Offers(best: seq<Hit>, ef: nat, worstBest: real, hits: seq<Hit>): seq<Hit>
    decreases |hits|
  {
    if |hits| == 0 then best else Offers(Offer(best, ef, worstBest, hits[0]), ef, worstBest, hits[1..])
  }

  /** A list that is full holds nothing worse than what was left out. */
  predicate Dominates(best: seq<Hit>, h: Hit) {
    h in best || (|best| > 0 && best[|best| - 1].score >= h.score)
  }

  lemma {:induction false} InsertDescMembers(items: seq<Hit>, h: Hit, x: Hit)
    ensures x in InsertDesc(items, h) <==> x in items || x == h
  {
    if |items| > 0 {
      assert items == [items[0]] + items[1..];
      if h.score <= items[0].score { InsertDescMembers(items[1..], h, x); }
    }
  }

  lemma {:induction false} InsertDescKeeps(items: seq<Hit>, h: Hit)
    requires Descending(items)
    ensures var r := InsertDesc(items, h);
      Descending(r) && h in r && (forall x :: x in items ==> x in r) && (forall x :: x in r ==> x in items || x == h)
  {
    forall x { InsertDescMembers(items, h, x); }
    if |items| > 0 && h.score <= items[0].score {
      InsertDescKeeps(items[1..], h);
      var r := InsertDesc(items[1..], h);
      forall i | 0 <= i < |r|
        ensures r[i].score <= items[0].score
      {
        InsertDescMembers(items[1..], h, r[i]);
      }
    }
  }

  lemma PopKeeps(r: seq<Hit>)
    requires Descending(r) && |r| > 1
    ensures Descending(r[..|r| - 1])
    ensures r[|r| - 2].score >= r[|r| - 1].score
    ensures forall x :: x in r ==> Dominates(r[..|r| - 1], x)
  {
    var p := r[..|r| - 1];
    forall x | x in r
      ensures Dominates(p, x)
    {
      var i :| 0 <= i < |r| && r[i] == x;
      if i < |r| - 1 { assert p[i] == x; }
    }
  }

  /** A full list, with a cut-off no higher than its worst entry, stays the best of everything offered. */
  lemma OfferToFull(best: seq<Hit>, ef: nat, worstBest: real, h: Hit)
    requires Descending(best) && |best| == ef > 0 && worstBest <= best[ef - 1].score
    ensures var r := Offer(best, ef, worstBest, h);
      && Descending(r) && |r| == ef && r[ef - 1].score >= best[ef - 1].score
      && Dominates(r, h) && forall x :: Dominates(best, x) ==> Dominates(r, x)
  {
    if h.score > worstBest {
      InsertDescKeeps(best, h);
      var r := InsertDesc(best, h);
      PopKeeps(r);
      LastOfInsert(best, h);
    }
  }

  /** The entry before the last of an insertion is no worse than the old last entry. */
  lemma {:induction false} LastOfInsert(items: seq<Hit>, h: Hit)
    requires Descending(items) && |items| > 0
    ensures var r := InsertDesc(items, h); r[|items| - 1].score >= items[|items| - 1].score
  {
    if |items| > 1 && h.score <= items[0].score {
      LastOfInsert(items[1..], h);
    }
  }

  lemma {:induction false} FullListKeepsBest(best: seq<Hit>, ef: nat, worstBest: real, hits: seq<Hit>)
    requires Descending(best) && |best| == ef > 0 && worstBest <= best[ef - 1].score
    ensures var r := Offers(best, ef, worstBest, hits);
      && Descending(r) && |r| == ef
      && (forall x :: x in hits ==> Dominates(r, x)) && (forall x :: Dominates(best, x) ==> Dominates(r, x))
    decreases |hits|
  {
    if |hits| > 0 {
      hide Dominates, Descending;
      OfferToFull(best, ef, worstBest, hits[0]);
      FullListKeepsBest(Offer(best, ef, worstBest, hits[0]), ef, worstBest, hits[1..]);
      assert hits == [hits[0]] + hits[1..];
    }
  }

  lemma NoOffers(best: seq<Hit>, ef: nat, worstBest: real)
    ensures Offers(best, ef, worstBest, []) == best
  {}

  lemma {:induction false} OneMoreOffer(best: seq<Hit>, ef: nat, worstBest: real, hits: seq<Hit>, h: Hit)
    ensures Offers(best, ef, worstBest, hits + [h]) == Offer(Offers(best, ef, worstBest, hits), ef, worstBest, h)
    decreases |hits|
  {
    hide Offer;
    if |hits| == 0 {
      assert [h][1..] == [] && [] + [h] == [h];
    } else {
      assert (hits + [h])[1..] == hits[1..] + [h];
      OneMoreOffer(Offer(best, ef, worstBest, hits[0]), ef, worstBest, hits[1..], h);
    }
  }

  /** A list with room for everything offered keeps everything. */
  lemma {:induction false} RoomKeepsAll(best: seq<Hit>, ef: nat, worstBest: real, hits: seq<Hit>)
    requires Descending(best) && |best| + |hits| <= ef
    ensures var r := Offers(best, ef, worstBest, hits);
      Descending(r) && |r| == |best| + |hits| && forall x :: x in r <==> x in hits || x in best
    decreases |hits|
  {
    if |hits| > 0 {
      hide Descending;
      InsertDescKeeps(best, hits[0]);
      RoomKeepsAll(Offer(best, ef, worstBest, hits[0]), ef, worstBest, hits[1..]);
      assert hits == [hits[0]] + hits[1..];
    }
  }

  lemma {:induction false} OffersSplit(best: seq<Hit>, ef: nat, worstBest: real, a: seq<Hit>, b: seq<Hit>)
    ensures Offers(best, ef, worstBest, a + b) == Offers(Offers(best, ef, worstBest, a), ef, worstBest, b)
    decreases |a|
  {
    hide Offer;
    if |a| == 0 {
      assert a + b == b;
    } else {
      assert (a + b)[0] == a[0] && (a + b)[1..] == a[1..] + b;
      OffersSplit(Offer(best, ef, worstBest, a[0]), ef, worstBest, a[1..], b);
    }
  }

  lemma {:induction false} FullListTurnsAway(best: seq<Hit>, ef: nat, worstBest: real, hits: seq<Hit>)
    requires |best| >= ef && forall i :: 0 <= i < |hits| ==> hits[i].score <= worstBest
    ensures Offers(best, ef, worstBest, hits) == best
    decreases |hits|
  {
    if |hits| > 0 { FullListTurnsAway(best, ef, worstBest, hits[1..]); }
  }

  /**
    Between the two the kept list can be wrong: when it fills up during one expansion, whatever filled it
    stays, and everything no better than the cut-off read at the start is turned away, better or not than
    what is held.
  */
  lemma StaleCutoffLosesBetterNode(best: seq<Hit>, ef: nat, fill: seq<Hit>, late: seq<Hit>, x: Hit)
    requires Descending(best) && 0 < |best| < ef == |best| + |fill|
    requires forall i :: 0 <= i < |fill| ==> fill[i].score < x.score
    requires x in late && x.score < best[|best| - 1].score
    requires forall i :: 0 <= i < |late| ==> late[i].score <= best[|best| - 1].score
    ensures var r := Offers(best, ef, best[|best| - 1].score, fill + late);
      |r| == ef && r[ef - 1].score < x.score && x !in r
  {
    hide Offers;
    var w := best[|best| - 1].score;
    OffersSplit(best, ef, w, fill, late);
    RoomKeepsAll(best, ef, w, fill);
    var r := Offers(best, ef, w, fill);
    FullListTurnsAway(r, ef, w, late);
    LastIsLowest(r, fill[0]);
    if x in best { LastIsLowest(best, x); }
  }

  lemma LastIsLowest(items: seq<Hit>, x: Hit)
    requires Descending(items) && x in items
    ensures items[|items| - 1].score <= x.score
  {
    var i :| 0 <= i < |items| && items[i] == x;
  }

  /** One expansion of `n` neighbours keeps the best of everything it saw, whichever they are. */
  ghost predicate KeepsBest(best: seq<Hit>, ef: nat, n: nat)
    requires |best| > 0
  {
    forall hits :: |hits| == n ==>
      forall x :: x in hits || x in best ==> Dominates(Offers(best, ef, best[|best| - 1].score, hits), x)
  }

  /** It does exactly when the list is full to begin with or has room for all of them. */
  lemma CutoffExactIff(best: seq<Hit>, ef: nat, n: nat)
    requires Descending(best) && 0 < |best| <= ef
    ensures KeepsBest(best, ef, n) <==> |best| == ef || |best| + n <= ef
  {
    hide Descending, Offers;
    var w := best[|best| - 1].score;
    if |best| == ef || |best| + n <= ef {
      forall hits, x | |hits| == n && (x in hits || x in best)
        ensures Dominates(Offers(best, ef, w, hits), x)
      {
        if |best| == ef { FullListKeepsBest(best, ef, w, hits); } else { RoomKeepsAll(best, ef, w, hits); }
      }
    } else {
      var x := Hit("", w - 1.0);
      var fill, late := seq(ef - |best|, _ => Hit("", w - 2.0)), seq(n - (ef - |best|), _ => x);
      assert late[0] == x;
      StaleCutoffLosesBetterNode(best, ef, fill, late, x);
      assert x in fill + late && !Dominates(Offers(best, ef, w, fill + late), x);
    }
  }

  // ---------- Reachability ----------

  predicate Closed(g: Graph) {
    forall id :: id in g ==> forall i :: 0 <= i < |g[id].neighbors| ==> g[id].neighbors[i] in g
  }

  ghost predicate ReachableIn(g: Graph, from: Id, id: Id, steps: nat)
    decreases steps
  {
    if steps == 0 then id == from
    else exists via :: via in g && id in g[via].neighbors && ReachableIn(g, from, via, steps - 1)
  }

  ghost predicate Reachable(g: Graph, from: Id, id: Id) {
    exists steps: nat :: ReachableIn(g, from, id, steps)
  }

  /** All neighbours of a node lie in the set. */
  predicate Expanded(g: Graph, id: Id, s: set<Id>) {
    id in g ==> forall i :: 0 <= i < |g[id].neighbors| ==> g[id].neighbors[i] in s
  }

  lemma {:induction false} ClosedSetHoldsReachable(g: Graph, from: Id, id: Id, steps: nat, s: set<Id>)
    requires from in s && (forall v :: v in s ==> Expanded(g, v, s)) && ReachableIn(g, from, id, steps)
    ensures id in s
    decreases steps
  {
    if steps > 0 {
      var via :| via in g && id in g[via].neighbors && ReachableIn(g, from, via, steps - 1);
      ClosedSetHoldsReachable(g, from, via, steps - 1, s);
      assert Expanded(g, via, s);
    }
  }

  lemma ReachFrom(g: Graph, from: Id)
    ensures Reachable(g, from, from)
  {
    assert ReachableIn(g, from, from, 0);
  }

  lemma ReachNext(g: Graph, from: Id, via: Id, id: Id)
    requires Reachable(g, from, via) && via in g && id in g[via].neighbors
    ensures Reachable(g, from, id)
  {
    var steps: nat :| ReachableIn(g, from, via, steps);
    assert ReachableIn(g, from, id, steps + 1);
  }

  ghost predicate AllReachable(g: Graph, from: Id, s: set<Id>) {
    forall id :: id in s ==> Reachable(g, from, id)
  }

  // ---------- Search ----------

  /** What any search result is, whatever the graph. */
  predicate SoundResult(r: seq<Hit>, g: Graph, query: Vector, k: nat) {
    Truthful(r, g, query, g.Keys) && |r| <= k
  }

  /** The k best of the nodes reachable from an entry point. */
  ghost predicate ExactTop(r: seq<Hit>, g: Graph, query: Vector, from: Id, k: nat)
    requires Dimensioned(g, |query|)
  {
    && SoundResult(r, g, query, k)
    && (forall i :: 0 <= i < |r| ==> Reachable(g, from, r[i].id))
    && forall id :: id in g && Reachable(g, from, id) && id !in Ids(r) ==>
         |r| == k && (k > 0 ==> r[k - 1].score >= Score(g, query, id))
  }

  /** Enough room to keep every node: nothing is ever dropped. */
  predicate Roomy(g: Graph, ef: nat) { Closed(g) && ef >= |g| }

  datatype Frontier = Frontier(candidates: seq<Hit>, best: seq<Hit>, visited: set<Id>)

  ghost predicate FrontierOk(f: Frontier, g: Graph, query: Vector, from: Id, ef: nat) {
    && Truthful(f.candidates, g, query, f.visited) && Truthful(f.best, g, query, f.visited)
    && 0 < |f.best| <= ef && from in f.visited
    && from in g && |g[from].vector| == |query| && f.best[0].score >= Score(g, query, from)
    && AllReachable(g, from, f.visited)
    && (Roomy(g, ef) ==> Ids(f.best) == f.visited && f.visited <= g.Keys)
  }

  lemma {:induction false} DistinctCount(items: seq<Hit>)
    requires DistinctIds(items)
    ensures |Ids(items)| == |items|
  {
    if |items| > 0 {
      var init, last := items[..|items| - 1], items[|items| - 1];
      DistinctCount(init);
      assert items == InsertAt(init, |init|, last);
      InsertIds(init, |init|, last);
      assert last.id !in Ids(init);
    }
  }

  /** One unvisited neighbour. */
  method VisitOne(g: Graph, query: Vector, ghost from: Id, ghost via: Id, ef: nat, worstBest: real, id: Id, f: Frontier)
    returns (r: Frontier)
    requires Dimensioned(g, |query|) && FrontierOk(f, g, query, from, ef)
    requires via in g && id in g[via].neighbors && Reachable(g, from, via) && id !in f.visited
    ensures FrontierOk(r, g, query, from, ef)
    ensures r.visited == f.visited + {id}
    ensures Ids(f.candidates) <= Ids(r.candidates)
    ensures Roomy(g, ef) ==> Ids(r.candidates) == Ids(f.candidates) + {id}
    ensures r.best == if id in g then Offer(f.best, ef, worstBest, Hit(id, Score(g, query, id))) else f.best
  {
    hide Score, Reachable, Descending, DistinctIds;
    ReachNext(g, from, via, id);
    TruthfulGrows(f.candidates, g, query, f.visited, f.visited + {id});
    TruthfulGrows(f.best, g, query, f.visited, f.visited + {id});
    r := f.(visited := f.visited + {id});
    if Roomy(g, ef) {
      assert id in g;
      RoomLeft(f, g, id, ef);
    }
    if id !in g {
      return;
    }
    var score := Cosine(query, g[id].vector);
    ScoreIsDot(g, query, id);
    if |r.best| < ef || score > worstBest {
      var h := Hit(id, score);
      var candidates := Push(r.candidates, h, g, query, r.visited);
      var best := Push(r.best, h, g, query, r.visited);
      if |best| > ef {
        TruthfulPart(best, g, query, r.visited, 0, |best| - 1);
        best := best[..|best| - 1];
      }
      r := Frontier(candidates, best, r.visited);
    }
  }

  lemma ScoreIsDot(g: Graph, query: Vector, id: Id)
    requires id in g && |g[id].vector| == |query|
    ensures Score(g, query, id) == Dot(query, g[id].vector)
  {}

  lemma RoomLeft(f: Frontier, g: Graph, id: Id, ef: nat)
    requires Ids(f.best) == f.visited && f.visited <= g.Keys && id in g && id !in f.visited && ef >= |g|
    requires DistinctIds(f.best)
    ensures |f.best| < ef
  {
    DistinctCount(f.best);
    CardinalitySubset(f.visited, g.Keys);
    assert |g.Keys| == |g|;
  }

  /** The inner loop: all neighbours of one expanded node. */
  method VisitNeighbors(g: Graph, query: Vector, ghost from: Id, via: Id, ef: nat, worstBest: real, f: Frontier)
    returns (r: Frontier, ghost hits: seq<Hit>)
    requires Dimensioned(g, |query|) && FrontierOk(f, g, query, from, ef)
    requires via in g && Reachable(g, from, via)
    ensures FrontierOk(r, g, query, from, ef)
    ensures f.visited <= r.visited && Expanded(g, via, r.visited) && Ids(f.candidates) <= Ids(r.candidates)
    ensures r.visited == f.visited ==> r == f
    ensures Roomy(g, ef) ==> r.visited - f.visited <= Ids(r.candidates)
    ensures r.best == Offers(f.best, ef, worstBest, hits)
    ensures forall id :: id in r.visited - f.visited && id in g ==> Hit(id, Score(g, query, id)) in hits
  {
    hide Reachable, FrontierOk, Offer, Offers, Score;
    r := f;
    hits := [];
    NoOffers(f.best, ef, worstBest);
    var neighbors := g[via].neighbors;
    for i := 0 to |neighbors|
      invariant FrontierOk(r, g, query, from, ef)
      invariant f.visited <= r.visited && Ids(f.candidates) <= Ids(r.candidates)
      invariant forall j :: 0 <= j < i ==> neighbors[j] in r.visited
      invariant r.visited == f.visited ==> r == f
      invariant Roomy(g, ef) ==> r.visited - f.visited <= Ids(r.candidates)
      invariant r.best == Offers(f.best, ef, worstBest, hits)
      invariant forall id :: id in r.visited - f.visited && id in g ==> Hit(id, Score(g, query, id)) in hits
    {
      if neighbors[i] in r.visited {
        continue;
      }
      r := VisitOne(g, query, from, via, ef, worstBest, neighbors[i], r);
      if neighbors[i] in g {
        OneMoreOffer(f.best, ef, worstBest, hits, Hit(neighbors[i], Score(g, query, neighbors[i])));
        hits := hits + [Hit(neighbors[i], Score(g, query, neighbors[i]))];
      }
    }
  }

  /** Every visited node is still a candidate or has had all its neighbours visited. */
  ghost predicate NothingForgotten(f: Frontier, g: Graph) {
    forall id :: id in f.visited ==> id in Ids(f.candidates) || Expanded(g, id, f.visited)
  }

  lemma FrontierStarts(g: Graph, query: Vector, from: Id, ef: nat, seed: Hit)
    requires Dimensioned(g, |query|) && from in g && ef > 0 && seed == Hit(from, Score(g, query, from))
    ensures var f := Frontier([seed], [seed], {from}); FrontierOk(f, g, query, from, ef) && NothingForgotten(f, g)
  {
    ReachFrom(g, from);
    assert Ids([seed]) == {from} by { assert [seed][0] == seed; }
  }

  /** Taking the best candidate off the list. */
  lemma Shifted(f: Frontier, g: Graph, query: Vector, from: Id, ef: nat)
    requires FrontierOk(f, g, query, from, ef) && |f.candidates| > 0
    ensures FrontierOk(f.(candidates := f.candidates[1..]), g, query, from, ef)
    ensures var c := f.candidates[0]; c.id in f.visited && c.id in g && Reachable(g, from, c.id)
    ensures Ids(f.candidates) == {f.candidates[0].id} + Ids(f.candidates[1..])
  {
    hide Score, Reachable;
    TruthfulPart(f.candidates, g, query, f.visited, 1, |f.candidates|);
    assert f.candidates == InsertAt(f.candidates[1..], 0, f.candidates[0]);
    InsertIds(f.candidates[1..], 0, f.candidates[0]);
  }

  /** With room for every node a search never stops early: best holds all visited nodes. */
  lemma RoomyNeverFull(f: Frontier, g: Graph, query: Vector, from: Id, ef: nat)
    requires FrontierOk(f, g, query, from, ef) && Roomy(g, ef) && |f.visited| < |g|
    ensures |f.best| < ef
  {
    hide Score, Reachable;
    DistinctCount(f.best);
  }

  lemma AllExpanded(f: Frontier, g: Graph)
    requires Closed(g) && f.visited <= g.Keys && NothingForgotten(f, g)
    requires |f.candidates| == 0 || |f.visited| >= |g|
    ensures forall id :: id in f.visited ==> Expanded(g, id, f.visited)
  {
    if |f.candidates| > 0 {
      CardinalitySubset(f.visited, g.Keys);
      assert |g.Keys| == |g|;
      assert f.visited == g.Keys;
    }
  }

  /** A reachable node left out of the first `n` hits is no better than any of them. */
  lemma MissedIsWorse(best: seq<Hit>, g: Graph, query: Vector, id: Id, n: nat)
    requires Descending(best) && Dimensioned(g, |query|) && id in g && id in Ids(best)
    requires forall i :: 0 <= i < |best| ==> best[i].id in g && best[i].score == Score(g, query, best[i].id)
    requires n <= |best| && id !in Ids(best[..n])
    ensures n < |best| && (n > 0 ==> best[n - 1].score >= Score(g, query, id))
  {
    hide Score, Dimensioned;
    var i :| 0 <= i < |best| && best[i].id == id;
    assert forall j :: 0 <= j < n ==> best[..n][j].id in Ids(best[..n]) && best[..n][j] == best[j];
  }

  lemma AllFound(f: Frontier, g: Graph, query: Vector, from: Id, ef: nat, k: nat)
    requires Dimensioned(g, |query|) && FrontierOk(f, g, query, from, ef) && Roomy(g, ef)
    requires forall id :: id in f.visited ==> Expanded(g, id, f.visited)
    requires SoundResult(f.best[..if k < |f.best| then k else |f.best|], g, query, k)
    ensures ExactTop(f.best[..if k < |f.best| then k else |f.best|], g, query, from, k)
  {
    hide Reachable, ReachableIn, Expanded, Roomy, SoundResult, Score;
    var n := if k < |f.best| then k else |f.best|;
    var r := f.best[..n];
    assert Descending(f.best) && Ids(f.best) == f.visited && from in f.visited;
    assert forall i :: 0 <= i < |f.best| ==> f.best[i].id in g && f.best[i].score == Score(g, query, f.best[i].id);
    forall i | 0 <= i < |r|
      ensures Reachable(g, from, r[i].id)
    {
      assert r[i] == f.best[i];
    }
    hide FrontierOk, Truthful, Descending, Ids;
    forall id | id in g && Reachable(g, from, id) && id !in Ids(r)
      ensures |r| == k && (k > 0 ==> r[k - 1].score >= Score(g, query, id))
    {
      VisitedIfReachable(g, from, id, f.visited);
      MissedIsWorse(f.best, g, query, id, n);
    }
  }

  lemma VisitedIfReachable(g: Graph, from: Id, id: Id, visited: set<Id>)
    requires Reachable(g, from, id) && from in visited
    requires forall v :: v in visited ==> Expanded(g, v, visited)
    ensures id in visited
  {
    hide ReachableIn, Expanded;
    var steps: nat :| ReachableIn(g, from, id, steps);
    ClosedSetHoldsReachable(g, from, id, steps, visited);
  }

  lemma ResultIsSound(f: Frontier, g: Graph, query: Vector, from: Id, ef: nat, k: nat)
    requires Dimensioned(g, |query|) && FrontierOk(f, g, query, from, ef)
    ensures SoundResult(f.best[..if k < |f.best| then k else |f.best|], g, query, k)
  {
    hide Score, Reachable;
    var n := if k < |f.best| then k else |f.best|;
    TruthfulPart(f.best, g, query, f.visited, 0, n);
    var r := f.best[..n];
    assert f.best[0..n] == r;
  }

  /**
    The search loop.  It terminates on every graph; its result lists existing nodes with their true
    scores, best first, and is no worse than the entry point; and on a closed graph, with room for every
    node, it is exactly the k best of the nodes that can be reached.
  */
  method Search(g: Graph, query: Vector, entry: Id, ef: nat, k: nat) returns (r: seq<Hit>)
    requires Dimensioned(g, |query|) && entry in g && ef > 0
    ensures SoundResult(r, g, query, k)
    ensures k > 0 ==> |r| > 0 && r[0].score >= Score(g, query, entry)
    ensures Roomy(g, ef) ==> ExactTop(r, g, query, entry, k)
  {
    hide Reachable, FrontierOk, Roomy, NothingForgotten, SoundResult, ExactTop;
    var seedScore := Cosine(query, g[entry].vector);
    var seed := Hit(entry, seedScore);
    FrontierStarts(g, query, entry, ef, seed);
    var f := Frontier([seed], [seed], {entry});
    ghost var stopped := false;
    while |f.candidates| > 0 && |f.visited| < |g|
      invariant FrontierOk(f, g, query, entry, ef)
      invariant Roomy(g, ef) ==> NothingForgotten(f, g)
      invariant !stopped
      decreases |g| - |f.visited|, |f.candidates|
    {
      var current := f.candidates[0];
      FrontierParts(f, g, query, entry, ef);
      Shifted(f, g, query, entry, ef);
      ghost var before := f;
      f := f.(candidates := f.candidates[1..]);
      var worstBest := f.best[|f.best| - 1].score;
      if Roomy(g, ef) { RoomyNeverFull(f, g, query, entry, ef); }
      if |f.best| >= ef && current.score < worstBest {
        stopped := true;
        break;
      }
      ghost var shifted := f;
      ghost var hits;
      f, hits := VisitNeighbors(g, query, entry, current.id, ef, worstBest, f);
      CardinalitySubset(shifted.visited, f.visited);
      if Roomy(g, ef) { StillNothingForgotten(before, shifted, f, g, current.id); }
    }
    FrontierParts(f, g, query, entry, ef);
    ResultIsSound(f, g, query, entry, ef, k);
    if Roomy(g, ef) {
      RoomyParts(f, g, query, entry, ef);
      AllExpanded(f, g);
      AllFound(f, g, query, entry, ef, k);
    }
    r := f.best[..if k < |f.best| then k else |f.best|];
  }

  lemma FrontierParts(f: Frontier, g: Graph, query: Vector, from: Id, ef: nat)
    requires Dimensioned(g, |query|) && FrontierOk(f, g, query, from, ef)
    ensures |f.best| > 0 && f.best[0].score >= Score(g, query, from)
  {}

  lemma RoomyParts(f: Frontier, g: Graph, query: Vector, from: Id, ef: nat)
    requires FrontierOk(f, g, query, from, ef) && Roomy(g, ef)
    ensures Closed(g) && f.visited <= g.Keys
  {
    hide Score, Reachable, Truthful;
  }

  lemma StillNothingForgotten(before: Frontier, shifted: Frontier, f: Frontier, g: Graph, via: Id)
    requires NothingForgotten(before, g)
    requires |before.candidates| > 0 && shifted == before.(candidates := before.candidates[1..])
    requires Ids(before.candidates) == {via} + Ids(shifted.candidates)
    requires shifted.visited <= f.visited && Expanded(g, via, f.visited)
    requires Ids(shifted.candidates) <= Ids(f.candidates)
    requires f.visited - shifted.visited <= Ids(f.candidates)
    ensures NothingForgotten(f, g)
  {
    hide Ids;
    forall id | id in f.visited && id !in Ids(f.candidates)
      ensures Expanded(g, id, f.visited)
    {
      if id in before.visited && id != via {
        assert Expanded(g, id, before.visited);
      }
    }
  }
}
