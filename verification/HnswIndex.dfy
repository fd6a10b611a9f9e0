/**
  The vector index: nodes are linked to their nearest neighbours when they are
  added or updated, and neighbour sets are trimmed to a fixed size.

  The Euclidean norm is a parameter; normalisation divides by it, or by one when
  it is zero.
*/
module HnswIndex {
  import opened Basics
  import opened HnswSearch

  datatype Result<+T> = Ok(value: T) | WrongDimensions(expected: nat, got: nat)

  function Scaled(v: Vector, norm: real): (r: Vector)
    requires norm != 0.0
    ensures |r| == |v|
  {
    seq(|v|, i requires 0 <= i < |v| => v[i] / norm)
  }

  function Normalize(hypot: Vector -> real, v: Vector): (r: Vector)
    ensures |r| == |v|
  {
    Scaled(v, if hypot(v) == 0.0 then 1.0 else hypot(v))
  }

  lemma {:induction false} ScaledDot(a: Vector, b: Vector, norm: real)
    requires |a| == |b| && norm != 0.0
    ensures Dot(Scaled(a, norm), b) * norm == Dot(a, b) && Dot(b, Scaled(a, norm)) * norm == Dot(b, a)
  {
    if |a| > 0 {
      var n := |a| - 1;
      var s, t := Scaled(a, norm), Scaled(a[..n], norm);
      ScaledDot(a[..n], b[..n], norm);
      ScaledLast(a, norm);
      hide Scaled, Dot;
      DotLast(s, b, t, b[..n], s[n], b[n]);
      DotLast(b, s, b[..n], t, b[n], s[n]);
      DotLast(a, b, a[..n], b[..n], a[n], b[n]);
      DotLast(b, a, b[..n], a[..n], b[n], a[n]);
      Distribute(Dot(t, b[..n]), s[n], b[n], norm, a[n]);
      Distribute(Dot(b[..n], t), s[n], b[n], norm, a[n]);
    }
  }

  lemma ScaledLast(a: Vector, norm: real)
    requires |a| > 0 && norm != 0.0
    ensures var n := |a| - 1;
      Scaled(a, norm)[..n] == Scaled(a[..n], norm) && Scaled(a, norm)[n] * norm == a[n]
  {
    var n := |a| - 1;
    assert Scaled(a, norm)[..n] == Scaled(a[..n], norm);
    DivideMultiply(a[n], norm);
  }

  lemma DivideMultiply(x: real, norm: real)
    requires norm != 0.0
    ensures (x / norm) * norm == x
  {}

  lemma Distribute(sum: real, q: real, y: real, norm: real, x: real)
    requires q * norm == x
    ensures (sum + q * y) * norm == sum * norm + x * y && (sum + y * q) * norm == sum * norm + y * x
  {
    assert (q * y) * norm == (q * norm) * y;
  }

  /** The score of two normalised vectors is the cosine of the angle between them; a vector without length
      is left as it is. */
  lemma NormalizedScore(hypot: Vector -> real, a: Vector, b: Vector)
    requires |a| == |b|
    ensures hypot(a) == 0.0 ==> Normalize(hypot, a) == a
    ensures hypot(a) != 0.0 && hypot(b) != 0.0 ==>
      Dot(Normalize(hypot, a), Normalize(hypot, b)) * hypot(a) * hypot(b) == Dot(a, b)
  {
    if hypot(a) == 0.0 {
      assert forall i :: 0 <= i < |a| ==> Normalize(hypot, a)[i] == a[i];
    } else if hypot(b) != 0.0 {
      var u, w := Normalize(hypot, a), Normalize(hypot, b);
      ScaledDot(a, w, hypot(a));
      ScaledDot(b, a, hypot(b));
    }
  }

  // ---------- The neighbour graph ----------

  predicate DistinctIdSeq(s: seq<Id>) {
    forall i, j :: 0 <= i < j < |s| ==> s[i] != s[j]
  }

  /** One node's neighbour set: inside the graph, no repetition, not itself. */
  predicate LinksOk(g: Graph, id: Id)
    requires id in g
  {
    var ns := g[id].neighbors;
    DistinctIdSeq(ns) && id !in ns && forall i :: 0 <= i < |ns| ==> ns[i] in g
  }

  predicate GraphOk(g: Graph) {
    forall id :: id in g ==> LinksOk(g, id)
  }

  predicate Bounded(g: Graph, max: nat) {
    forall id :: id in g ==> |g[id].neighbors| <= max
  }

  /** Every node is linked to every other node. */
  predicate Complete(g: Graph) {
    forall a, b :: a in g && b in g && a != b ==> b in g[a].neighbors
  }

  /** The k best of all nodes. */
  ghost predicate BruteForceTop(r: seq<Hit>, g: Graph, query: Vector, k: nat)
    requires Dimensioned(g, |query|)
  {
    && SoundResult(r, g, query, k)
    && forall id :: id in g && id !in Ids(r) ==> |r| == k && (k > 0 ==> r[k - 1].score >= Score(g, query, id))
  }

  lemma GraphIsClosed(g: Graph)
    requires GraphOk(g)
    ensures Closed(g)
  {
    forall id | id in g
      ensures forall i :: 0 <= i < |g[id].neighbors| ==> g[id].neighbors[i] in g
    {
      assert LinksOk(g, id);
    }
  }

  lemma CompleteReaches(g: Graph, from: Id, id: Id)
    requires Complete(g) && from in g && id in g
    ensures Reachable(g, from, id)
  {
    ReachFrom(g, from);
    if id != from { ReachNext(g, from, from, id); }
  }

  /** On a complete graph the search with room for every node is brute force. */
  lemma CompleteIsBruteForce(r: seq<Hit>, g: Graph, query: Vector, from: Id, k: nat)
    requires Dimensioned(g, |query|) && Complete(g) && from in g && ExactTop(r, g, query, from, k)
    ensures BruteForceTop(r, g, query, k)
  {
    forall id | id in g
      ensures Reachable(g, from, id)
    {
      CompleteReaches(g, from, id);
    }
    hide Reachable, Complete;
  }

  /** If at most k nodes exist, the k best are all of them. */
  lemma FewNodesAllFound(r: seq<Hit>, g: Graph, query: Vector, k: nat)
    requires Dimensioned(g, |query|) && BruteForceTop(r, g, query, k) && |g| <= k
    ensures Ids(r) == g.Keys
  {
    DistinctCount(r);
    assert Ids(r) <= g.Keys && |g.Keys| == |g|;
    CardinalitySubset(Ids(r), g.Keys);
    forall id | id in g.Keys
      ensures id in Ids(r)
    {
      if id !in Ids(r) { assert false; }
    }
  }

  function HitIds(r: seq<Hit>): (ids: seq<Id>)
    ensures |ids| == |r| && forall i :: 0 <= i < |r| ==> ids[i] == r[i].id
  {
    seq(|r|, i requires 0 <= i < |r| => r[i].id)
  }

  lemma HitIdsMembers(r: seq<Hit>)
    ensures forall id :: id in HitIds(r) <==> id in Ids(r)
    ensures DistinctIds(r) ==> DistinctIdSeq(HitIds(r))
  {
    forall id | id in Ids(r)
      ensures id in HitIds(r)
    {
      var i :| 0 <= i < |r| && r[i].id == id;
      assert HitIds(r)[i] == id;
    }
  }

  function SetLinks(g: Graph, id: Id, ns: seq<Id>): Graph
    requires id in g
  {
    g[id := Node(g[id].vector, ns)]
  }

  /** Links changed at one node only. */
  lemma SetLinksOk(g: Graph, id: Id, ns: seq<Id>)
    requires id in g && GraphOk(g)
    requires DistinctIdSeq(ns) && id !in ns && forall i :: 0 <= i < |ns| ==> ns[i] in g
    ensures GraphOk(SetLinks(g, id, ns)) && SetLinks(g, id, ns).Keys == g.Keys
  {
    var g' := SetLinks(g, id, ns);
    forall x | x in g'
      ensures LinksOk(g', x)
    {
      if x != id { assert LinksOk(g, x); }
    }
  }

  // ---------- Trimming ----------

  /** What trimming keeps of a neighbour list: everything if it fits, else the closest `max`, best first. */
  ghost predicate Trimmed(kept: seq<Id>, ns: seq<Id>, g: Graph, vector: Vector, max: nat)
    requires Dimensioned(g, |vector|) && forall i :: 0 <= i < |ns| ==> ns[i] in g
  {
    && DistinctIdSeq(kept) && (forall i :: 0 <= i < |kept| ==> kept[i] in ns)
    && (|ns| <= max ==> kept == ns)
    && (|ns| > max ==>
          && |kept| == max
          && (forall i, j :: 0 <= i < j < max ==> Score(g, vector, kept[i]) >= Score(g, vector, kept[j]))
          && forall a, b :: a in kept && b in ns && b !in kept ==> Score(g, vector, a) >= Score(g, vector, b))
  }

  method TrimNeighbors(g: Graph, vector: Vector, ns: seq<Id>, max: nat) returns (kept: seq<Id>)
    requires Dimensioned(g, |vector|) && DistinctIdSeq(ns) && forall i :: 0 <= i < |ns| ==> ns[i] in g
    ensures Trimmed(kept, ns, g, vector, max) && |kept| <= max
  {
    hide Score;
    if |ns| <= max {
      return ns;
    }
    var ranked: seq<Hit> := [];
    NoHits(g, vector);
    for i := 0 to |ns|
      invariant Truthful(ranked, g, vector, g.Keys) && |ranked| == i
      invariant forall id :: id in Ids(ranked) <==> id in ns[..i]
    {
      var score := Cosine(vector, g[ns[i]].vector);
      ScoreIsDot(g, vector, ns[i]);
      assert ns[..i + 1] == ns[..i] + [ns[i]];
      hide Truthful, Ids;
      ranked := Push(ranked, Hit(ns[i], score), g, vector, g.Keys);
    }
    assert ns[..|ns|] == ns;
    KeepBest(ranked, ns, g, vector, max);
    kept := HitIds(ranked[..max]);
  }

  lemma NoHits(g: Graph, vector: Vector)
    ensures Truthful([], g, vector, g.Keys) && Ids([]) == {}
  {}

  lemma KeepBest(ranked: seq<Hit>, ns: seq<Id>, g: Graph, vector: Vector, max: nat)
    requires Dimensioned(g, |vector|) && forall i :: 0 <= i < |ns| ==> ns[i] in g
    requires Truthful(ranked, g, vector, g.Keys) && |ranked| == |ns| > max
    requires forall id :: id in Ids(ranked) <==> id in ns
    ensures Trimmed(HitIds(ranked[..max]), ns, g, vector, max)
  {
    hide Score;
    var kept := HitIds(ranked[..max]);
    HitIdsMembers(ranked[..max]);
    PrefixIds(ranked, max);
    forall a, b | a in kept && b in ns && b !in kept
      ensures Score(g, vector, a) >= Score(g, vector, b)
    {
      var i :| 0 <= i < |kept| && kept[i] == a;
      var j :| 0 <= j < |ranked| && ranked[j].id == b;
      assert forall k :: 0 <= k < max ==> kept[k] == ranked[k].id;
    }
  }

  // ---------- Linking a new or moved node ----------

  predicate SameVectors(g: Graph, h: Graph) {
    g.Keys == h.Keys && forall id :: id in g ==> g[id].vector == h[id].vector
  }

  /** Adding to an insertion-ordered set. */
  function WithLink(ns: seq<Id>, id: Id): (r: seq<Id>)
    ensures forall x :: x in r <==> x in ns || x == id
    ensures |r| == |ns| + if id in ns then 0 else 1
  {
    if id in ns then ns else ns + [id]
  }

  /** Linking `n` back to `id`: of its old neighbours and `id` it holds all that fit, else the nearest `max`. */
  ghost predicate Relinked(g: Graph, h: Graph, n: Id, id: Id, max: nat)
    requires n in g && n in h
  {
    var ns := WithLink(g[n].neighbors, id);
    && h[n].vector == g[n].vector
    && Dimensioned(h, |h[n].vector|) && (forall i :: 0 <= i < |ns| ==> ns[i] in h)
    && Trimmed(h[n].neighbors, ns, h, h[n].vector, max)
  }

  /** Adding one back link and trimming: the loop body of `add`. */
  method LinkBack(g: Graph, n: Id, id: Id, dim: nat, max: nat) returns (h: Graph)
    requires GraphOk(g) && Bounded(g, max) && Dimensioned(g, dim) && n in g && id in g && n != id
    ensures GraphOk(h) && Bounded(h, max) && Dimensioned(h, dim) && SameVectors(g, h) && h.Keys == g.Keys
    ensures forall x :: x in g && x != n ==> h[x] == g[x]
    ensures Relinked(g, h, n, id, max)
  {
    assert LinksOk(g, n);
    var ns := WithLink(g[n].neighbors, id);
    assert forall x :: x in ns ==> x in g && x != n;
    var kept := TrimNeighbors(g, g[n].vector, ns, max);
    hide Score, Trimmed, WithLink;
    TrimmedMembers(kept, ns, g, g[n].vector, max);
    assert forall i :: 0 <= i < |kept| ==> kept[i] in kept;
    SetLinksOk(g, n, kept);
    h := SetLinks(g, n, kept);
    TrimmedAlike(kept, ns, g, h, g[n].vector, max);
  }

  lemma TrimmedMembers(kept: seq<Id>, ns: seq<Id>, g: Graph, vector: Vector, max: nat)
    requires Dimensioned(g, |vector|) && forall i :: 0 <= i < |ns| ==> ns[i] in g
    requires Trimmed(kept, ns, g, vector, max)
    ensures DistinctIdSeq(kept) && (forall id :: id in kept ==> id in ns)
  {
    hide Score;
  }

  /** Trimming looks at vectors only. */
  lemma TrimmedAlike(kept: seq<Id>, ns: seq<Id>, g: Graph, h: Graph, vector: Vector, max: nat)
    requires SameVectors(g, h) && Dimensioned(g, |vector|) && forall i :: 0 <= i < |ns| ==> ns[i] in g
    ensures Dimensioned(h, |vector|) && (forall i :: 0 <= i < |ns| ==> ns[i] in h)
    ensures Trimmed(kept, ns, g, vector, max) <==> Trimmed(kept, ns, h, vector, max)
  {
    hide DistinctIdSeq, Dot;
    assert forall x :: x in ns ==> x in g && Score(g, vector, x) == Score(h, vector, x);
  }

  /** The back links of one new node: every neighbour it was given, in order. */
  method LinkAll(g: Graph, id: Id, dim: nat, max: nat) returns (h: Graph)
    requires GraphOk(g) && Bounded(g, max) && Dimensioned(g, dim) && id in g
    ensures GraphOk(h) && Bounded(h, max) && Dimensioned(h, dim) && SameVectors(g, h) && h[id] == g[id]
    ensures forall x :: x in g[id].neighbors ==> x in g && x in h && Relinked(g, h, x, id, max)
    ensures forall x :: x in g && x !in g[id].neighbors ==> h[x] == g[x]
  {
    hide Score, GraphOk, Bounded, Relinked, WithLink, SameVectors, Dimensioned;
    var ns := g[id].neighbors;
    NeighborsOk(g, id);
    h := g;
    SameVectorsRefl(g);
    for i := 0 to |ns|
      invariant GraphOk(h) && Bounded(h, max) && Dimensioned(h, dim) && SameVectors(g, h) && h.Keys == g.Keys
      invariant h[id] == g[id]
      invariant forall j :: 0 <= j < i ==> Relinked(g, h, ns[j], id, max)
      invariant forall x :: x in g && x !in ns[..i] ==> h[x] == g[x]
    {
      NextNeighbor(ns, i);
      var next := LinkBack(h, ns[i], id, dim, max);
      RelinkedKept(g, h, next, ns, i, id, max);
      SameVectorsTransitive(g, h, next);
      h := next;
    }
    assert ns[..|ns|] == ns;
  }

  lemma SameVectorsRefl(g: Graph)
    ensures SameVectors(g, g)
  {}

  lemma NeighborsOk(g: Graph, id: Id)
    requires id in g && GraphOk(g)
    ensures DistinctIdSeq(g[id].neighbors) && id !in g[id].neighbors
    ensures forall i :: 0 <= i < |g[id].neighbors| ==> g[id].neighbors[i] in g
  {
    assert LinksOk(g, id);
  }

  // ---------- The index ----------

  class HnswIndex {
    const dimensions: nat
    const maxNeighbors: nat
    const efSearch: nat
    const hypot: Vector -> real
    var nodes: Graph
    var order: seq<Id>            // the insertion order of `nodes`
    var entryPointId: Option<Id>

    ghost predicate Valid()
      reads this
    {
      && maxNeighbors >= 2 && efSearch >= 4
      && Dimensioned(nodes, dimensions) && GraphOk(nodes) && Bounded(nodes, maxNeighbors)
      && (|nodes| <= maxNeighbors + 1 ==> Complete(nodes))
      && (forall id :: id in order <==> id in nodes)
      && (entryPointId.Some? ==> entryPointId.value in nodes)
    }

    /** The option defaults have been filled in by the caller; out-of-range values are raised. */
    constructor (dimensions: nat, maxNeighbors: int, efSearch: int, hypot: Vector -> real)
      ensures Valid() && nodes == map[] && this.dimensions == dimensions
      ensures this.maxNeighbors == (if maxNeighbors > 2 then maxNeighbors else 2)
      ensures this.efSearch == (if efSearch > 4 then efSearch else 4)
    {
      this.dimensions := dimensions;
      this.maxNeighbors := if maxNeighbors > 2 then maxNeighbors else 2;
      this.efSearch := if efSearch > 4 then efSearch else 4;
      this.hypot := hypot;
      nodes, order, entryPointId := map[], [], None;
    }

    /** The node every search starts from; an empty id counts as no entry point. */
    function EntryPoint(): Id
      requires |order| > 0
      reads this
    {
      if entryPointId.Some? && entryPointId.value != "" then entryPointId.value else order[0]
    }

    /** The breadth of a search: the larger of the two. */
    function Ef(k: nat): (ef: nat)
      ensures ef >= k && ef >= efSearch && (ef == k || ef == efSearch)
    {
      if k > efSearch then k else efSearch
    }

    method PickEntryPoint() returns (id: Id)
      requires Valid() && |order| > 0
      modifies this`entryPointId
      ensures Valid() && id == old(EntryPoint()) && id in nodes && entryPointId == Some(id)
      ensures id == if old(entryPointId) == None || old(entryPointId) == Some("") then order[0] else old(entryPointId).value
    {
      if entryPointId.Some? && entryPointId.value != "" {
        return entryPointId.value;
      }
      id := order[0];
      assert id in order;
      entryPointId := Some(id);
    }

    /** Search for a normalised query. */
    method SearchInternal(query: Vector, k: nat) returns (r: seq<Hit>)
      requires Valid() && |query| == dimensions
      modifies this`entryPointId
      ensures Valid()
      ensures entryPointId == if |order| == 0 then old(entryPointId) else Some(old(EntryPoint()))
      ensures SoundResult(r, nodes, query, k)
      ensures |order| == 0 ==> r == []
      ensures |order| > 0 && k > 0 ==> |r| > 0 && r[0].score >= Score(nodes, query, old(EntryPoint()))
      ensures |order| > 0 && Ef(k) >= |nodes| ==> ExactTop(r, nodes, query, old(EntryPoint()), k)
      ensures Ef(k) >= |nodes| && |nodes| <= maxNeighbors + 1 ==> BruteForceTop(r, nodes, query, k)
    {
      hide ExactTop, BruteForceTop, GraphOk, Bounded, Complete, Reachable, Score;
      if |order| == 0 {
        NothingStored();
        return [];
      }
      var entry := PickEntryPoint();
      r := Search(nodes, query, entry, Ef(k), k);
      GraphIsClosed(nodes);
      if Ef(k) >= |nodes| && |nodes| <= maxNeighbors + 1 {
        CompleteIsBruteForce(r, nodes, query, entry, k);
      }
    }

    lemma NothingStored()
      requires Valid() && |order| == 0
      ensures nodes == map[]
      ensures forall query: Vector, k: nat :: SoundResult([], map[], query, k) && BruteForceTop([], map[], query, k)
    {
      assert nodes.Keys == {};
    }

    /** `add` of an id that is not stored yet. */
    method AddNew(id: Id, vector: Vector) returns (ghost nearest: seq<Hit>)
      requires Valid() && id !in nodes && |vector| == dimensions
      modifies this`nodes, this`order, this`entryPointId
      ensures Valid() && nodes.Keys == old(nodes).Keys + {id} && order == old(order) + [id]
      ensures entryPointId == Some(if |old(order)| > 0 && old(EntryPoint()) != "" then old(EntryPoint()) else id)
      ensures SoundResult(nearest, old(nodes), Normalize(hypot, vector), maxNeighbors)
      ensures |old(order)| > 0 && Ef(maxNeighbors) >= |old(nodes)| ==>
        ExactTop(nearest, old(nodes), Normalize(hypot, vector), old(EntryPoint()), maxNeighbors)
      ensures Inserted(old(nodes), nodes, id, Normalize(hypot, vector), nearest, maxNeighbors)
    {
      hide Score, ExactTop, BruteForceTop, SoundResult, GraphOk, Bounded, Complete, Relinked, Normalize, Dimensioned;
      var v := Normalize(hypot, vector);
      nearest := [];
      var found := SearchInternal(v, maxNeighbors);
      nearest := found;
      nodes := InsertNode(nodes, id, v, found, maxNeighbors);
      order := order + [id];
      if entryPointId.None? || entryPointId.value == "" {
        entryPointId := Some(id);
      }
    }

    /** `update` of a stored id: the node moves and chooses its neighbours anew; nobody else changes. */
    method UpdateExisting(id: Id, vector: Vector) returns (ghost nearest: seq<Hit>)
      requires Valid() && id in nodes && |vector| == dimensions
      modifies this`nodes, this`entryPointId
      ensures Valid() && entryPointId == Some(old(EntryPoint()))
      ensures var v := Normalize(hypot, vector);
        var moved := Moved(old(nodes), id, v);
        && SoundResult(nearest, moved, v, maxNeighbors + 1)
        && (Ef(maxNeighbors + 1) >= |moved| ==> ExactTop(nearest, moved, v, old(EntryPoint()), maxNeighbors + 1))
        && nodes == SetLinks(moved, id, HitIds(FirstHits(WithoutId(nearest, id), maxNeighbors)))
    {
      hide Score, ExactTop, BruteForceTop, SoundResult, GraphOk, Bounded, Complete;
      var v := Normalize(hypot, vector);
      nearest := [];
      MovedOk(nodes, id, v, maxNeighbors);
      assert nodes[id].vector == nodes[id].vector && id in order;
      nodes := Moved(nodes, id, v);
      var found := SearchInternal(v, maxNeighbors + 1);
      nearest := found;
      var kept := FirstHits(WithoutId(found, id), maxNeighbors);
      RelinkOk(nodes, id, v, found, maxNeighbors);
      nodes := SetLinks(nodes, id, HitIds(kept));
    }

    /** Add a vector, or update it when the id is stored. */
    method Add(id: Id, vector: Vector) returns (r: Result<()>, ghost nearest: seq<Hit>)
      requires Valid()
      modifies this`nodes, this`order, this`entryPointId
      ensures Valid()
      ensures |vector| != dimensions ==> r == WrongDimensions(dimensions, |vector|) && nodes == old(nodes) && order == old(order)
      ensures |vector| == dimensions ==> r == Ok(()) && nodes.Keys == old(nodes).Keys + {id}
      ensures |vector| == dimensions && id !in old(nodes) ==>
        && Inserted(old(nodes), nodes, id, Normalize(hypot, vector), nearest, maxNeighbors)
        && order == old(order) + [id] && SoundResult(nearest, old(nodes), Normalize(hypot, vector), maxNeighbors)
        && (|old(order)| > 0 && Ef(maxNeighbors) >= |old(nodes)| ==>
              ExactTop(nearest, old(nodes), Normalize(hypot, vector), old(EntryPoint()), maxNeighbors))
      ensures |vector| == dimensions && id in old(nodes) ==>
        var v := Normalize(hypot, vector);
        var moved := Moved(old(nodes), id, v);
        && nodes == SetLinks(moved, id, HitIds(FirstHits(WithoutId(nearest, id), maxNeighbors)))
        && order == old(order) && SoundResult(nearest, moved, v, maxNeighbors + 1)
        && (Ef(maxNeighbors + 1) >= |moved| ==> ExactTop(nearest, moved, v, old(EntryPoint()), maxNeighbors + 1))
    {
      hide Inserted, WithoutId, SoundResult, ExactTop;
      nearest := [];
      if |vector| != dimensions {
        return WrongDimensions(dimensions, |vector|), [];
      }
      if id in nodes {
        nearest := UpdateExisting(id, vector);
      } else {
        nearest := AddNew(id, vector);
      }
      r := Ok(());
    }

    method Update(id: Id, vector: Vector) returns (r: Result<()>, ghost nearest: seq<Hit>)
      requires Valid()
      modifies this`nodes, this`order, this`entryPointId
      ensures Valid()
      ensures |vector| != dimensions ==> r == WrongDimensions(dimensions, |vector|) && nodes == old(nodes) && order == old(order)
      ensures |vector| == dimensions ==> r == Ok(()) && nodes.Keys == old(nodes).Keys + {id}
      ensures |vector| == dimensions && id !in old(nodes) ==>
        && Inserted(old(nodes), nodes, id, Normalize(hypot, vector), nearest, maxNeighbors)
        && order == old(order) + [id] && SoundResult(nearest, old(nodes), Normalize(hypot, vector), maxNeighbors)
        && (|old(order)| > 0 && Ef(maxNeighbors) >= |old(nodes)| ==>
              ExactTop(nearest, old(nodes), Normalize(hypot, vector), old(EntryPoint()), maxNeighbors))
      ensures |vector| == dimensions && id in old(nodes) ==>
        var v := Normalize(hypot, vector);
        var moved := Moved(old(nodes), id, v);
        && nodes == SetLinks(moved, id, HitIds(FirstHits(WithoutId(nearest, id), maxNeighbors)))
        && order == old(order) && SoundResult(nearest, moved, v, maxNeighbors + 1)
        && (Ef(maxNeighbors + 1) >= |moved| ==> ExactTop(nearest, moved, v, old(EntryPoint()), maxNeighbors + 1))
    {
      r, nearest := Add(id, vector);
    }

    /** The k best of the nodes reachable from the entry point when efSearch covers the index;
        brute force while the index is small. */
    method SearchIndex(query: Vector, k: nat) returns (r: Result<seq<Hit>>)
      requires Valid()
      modifies this`entryPointId
      ensures Valid()
      ensures |query| != dimensions ==> r == WrongDimensions(dimensions, |query|)
      ensures |query| == dimensions ==>
        var q := Normalize(hypot, query);
        && r.Ok? && SoundResult(r.value, nodes, q, k)
        && (|order| > 0 && Ef(k) >= |nodes| ==> ExactTop(r.value, nodes, q, old(EntryPoint()), k))
        && (Ef(k) >= |nodes| && |nodes| <= maxNeighbors + 1 ==> BruteForceTop(r.value, nodes, q, k))
    {
      if |query| != dimensions {
        return WrongDimensions(dimensions, |query|);
      }
      hide SoundResult, ExactTop, BruteForceTop, Normalize;
      var hits := SearchInternal(Normalize(hypot, query), k);
      r := Ok(hits);
    }

    method Clear()
      requires Valid()
      modifies this`nodes, this`order, this`entryPointId
      ensures Valid() && nodes == map[] && order == [] && entryPointId == None
    {
      nodes, order, entryPointId := map[], [], None;
    }
  }

  function Moved(g: Graph, id: Id, v: Vector): Graph
    requires id in g
  {
    g[id := Node(v, g[id].neighbors)]
  }

  /** Moving a node changes no link. */
  lemma MovedOk(g: Graph, id: Id, v: Vector, max: nat)
    requires id in g && GraphOk(g) && Bounded(g, max)
    ensures GraphOk(Moved(g, id, v)) && Bounded(Moved(g, id, v), max) && Moved(g, id, v).Keys == g.Keys
    ensures Complete(g) ==> Complete(Moved(g, id, v))
    ensures |Moved(g, id, v)| == |g|
  {
    var g' := Moved(g, id, v);
    forall x | x in g'
      ensures LinksOk(g', x)
    {
      assert LinksOk(g, x);
    }
    assert g'.Keys == g.Keys && |g'.Keys| == |g'| && |g.Keys| == |g|;
  }

  function WithoutId(r: seq<Hit>, id: Id): (f: seq<Hit>)
    ensures |f| <= |r|
  {
    if |r| == 0 then []
    else WithoutId(r[..|r| - 1], id) + (if r[|r| - 1].id == id then [] else [r[|r| - 1]])
  }

  function FirstHits(r: seq<Hit>, n: nat): (f: seq<Hit>)
    ensures |f| <= n
  {
    if |r| <= n then r else r[..n]
  }

  lemma {:induction false} WithoutIdMembers(r: seq<Hit>, id: Id)
    requires DistinctIds(r)
    ensures var f := WithoutId(r, id); DistinctIds(f) && Ids(f) == Ids(r) - {id}
    decreases |r|
  {
    if |r| > 0 {
      var init, last := r[..|r| - 1], r[|r| - 1];
      var f := WithoutId(init, id);
      WithoutIdMembers(init, id);
      assert r == InsertAt(init, |init|, last);
      InsertIds(init, |init|, last);
      assert last.id !in Ids(init);
      assert f + [last] == InsertAt(f, |f|, last) && f + [] == f;
      InsertIds(f, |f|, last);
    }
  }

  lemma {:induction false} WithoutIdOrder(r: seq<Hit>, id: Id)
    requires Descending(r)
    ensures Descending(WithoutId(r, id)) && (forall h :: h in WithoutId(r, id) <==> h in r && h.id != id)
    decreases |r|
  {
    if |r| > 0 {
      var init, last := r[..|r| - 1], r[|r| - 1];
      assert r == init + [last];
      WithoutIdOrder(init, id);
      var f := WithoutId(init, id);
      assert forall i :: 0 <= i < |f| ==> f[i] in init;
      assert forall i :: 0 <= i < |init| ==> init[i].score >= last.score;
    }
  }

  lemma WithoutIdCount(r: seq<Hit>, id: Id)
    requires DistinctIds(r)
    ensures |WithoutId(r, id)| == |r| - if id in Ids(r) then 1 else 0
  {
    hide WithoutId, Ids;
    WithoutIdMembers(r, id);
    DistinctCount(r);
    DistinctCount(WithoutId(r, id));
    assert id in Ids(r) ==> Ids(r) == (Ids(r) - {id}) + {id};
    assert id !in Ids(r) ==> Ids(r) == Ids(r) - {id};
  }

  /** An update links the moved node to the nearest of the others found, best first, as many as fit. */
  lemma NearestKept(found: seq<Hit>, g: Graph, v: Vector, id: Id, max: nat)
    requires SoundResult(found, g, v, max + 1)
    ensures var kept := FirstHits(WithoutId(found, id), max);
      var others := |found| - if id in Ids(found) then 1 else 0;
      && Descending(kept) && |kept| == (if others <= max then others else max)
      && (forall h :: h in kept ==> h in found && h.id != id)
      && forall a, b :: a in kept && b in found && b.id != id && b !in kept ==> a.score >= b.score
  {
    hide Score, FirstHits;
    WithoutIdOrder(found, id);
    WithoutIdCount(found, id);
    hide WithoutId, Ids, Descending;
    FirstAreBest(WithoutId(found, id), max);
  }

  lemma FirstAreBest(r: seq<Hit>, n: nat)
    requires Descending(r)
    ensures var f := FirstHits(r, n);
      && Descending(f) && |f| == (if |r| <= n then |r| else n) && (forall h :: h in f ==> h in r)
      && forall a, b :: a in f && b in r && b !in f ==> a.score >= b.score
  {
    if |r| > n {
      forall a, b | a in r[..n] && b in r && b !in r[..n]
        ensures a.score >= b.score
      {
        var i :| 0 <= i < n && r[i] == a;
        assert r == r[..n] + r[n..];
        var j :| 0 <= j < |r| - n && r[n..][j] == b;
      }
    }
  }

  /** The links an update gives a node keep the graph well formed, bounded, and complete while it is small. */
  lemma RelinkOk(g: Graph, id: Id, v: Vector, found: seq<Hit>, max: nat)
    requires id in g && GraphOk(g) && Bounded(g, max) && Dimensioned(g, |v|)
    requires SoundResult(found, g, v, max + 1)
    requires |g| <= max + 1 ==> Complete(g) && BruteForceTop(found, g, v, max + 1)
    ensures var g' := SetLinks(g, id, HitIds(FirstHits(WithoutId(found, id), max)));
      && GraphOk(g') && Bounded(g', max) && g'.Keys == g.Keys && |g'| == |g|
      && (|g| <= max + 1 ==> Complete(g'))
  {
    hide Score, BruteForceTop, GraphOk, Complete;
    var rest := WithoutId(found, id);
    var kept := FirstHits(rest, max);
    WithoutIdMembers(found, id);
    FirstHitsMembers(rest, max);
    HitIdsMembers(kept);
    var ns := HitIds(kept);
    SoundMembers(found, g, v, max + 1);
    assert forall i :: 0 <= i < |ns| ==> ns[i] in ns;
    SetLinksOk(g, id, ns);
    var g' := SetLinks(g, id, ns);
    assert |g'.Keys| == |g'| && |g.Keys| == |g|;
    if |g| <= max + 1 {
      FewNodesAllFound(found, g, v, max + 1);
      DistinctCount(rest);
      assert Ids(rest) == g.Keys - {id} && |g.Keys - {id}| == |g| - 1;
      assert kept == rest;
      RelinkComplete(g, id, ns);
    }
  }

  lemma RelinkComplete(g: Graph, id: Id, ns: seq<Id>)
    requires id in g && Complete(g) && forall x :: x in g && x != id ==> x in ns
    ensures Complete(SetLinks(g, id, ns))
  {}

  lemma FirstHitsMembers(r: seq<Hit>, n: nat)
    requires DistinctIds(r)
    ensures DistinctIds(FirstHits(r, n)) && Ids(FirstHits(r, n)) <= Ids(r)
  {
    if |r| > n { PrefixIds(r, n); }
  }

  lemma SoundMembers(r: seq<Hit>, g: Graph, query: Vector, k: nat)
    requires SoundResult(r, g, query, k)
    ensures DistinctIds(r) && Ids(r) <= g.Keys
  {
    hide Score;
  }

  /** What inserting one node does to the graph: the new node links to the nodes found, they link back. */
  ghost predicate Inserted(before: Graph, after: Graph, id: Id, v: Vector, found: seq<Hit>, max: nat) {
    && after.Keys == before.Keys + {id} && after[id] == Node(v, HitIds(found))
    && (forall x :: x in before ==> after[x].vector == before[x].vector)
    && (forall x :: x in after[id].neighbors ==> x in before && Relinked(before, after, x, id, max))
    && (forall x :: x in before && x !in after[id].neighbors ==> after[x] == before[x])
  }

  method InsertNode(before: Graph, id: Id, v: Vector, found: seq<Hit>, max: nat) returns (after: Graph)
    requires GraphOk(before) && Bounded(before, max) && Dimensioned(before, |v|) && id !in before
    requires SoundResult(found, before, v, max)
    requires |before| <= max + 1 ==> Complete(before)
    requires 0 < |before| <= max ==> BruteForceTop(found, before, v, max)
    ensures GraphOk(after) && Bounded(after, max) && Dimensioned(after, |v|)
    ensures Inserted(before, after, id, v, found, max)
    ensures |after| <= max + 1 ==> Complete(after)
  {
    hide Score, BruteForceTop, GraphOk, Bounded, Complete, DistinctIdSeq, Relinked, WithLink, Truthful, HitIds, Inserted;
    var ns := HitIds(found);
    SoundIds(found, before, v, max);
    NewNodeOk(before, id, Node(v, ns), max);
    var linked := LinkAll(before[id := Node(v, ns)], id, |v|, max);
    LinksInsert(before, linked, id, v, found, max);
    if |linked| <= max + 1 {
      CardinalityOfNew(before, linked, id);
      StillComplete(before, linked, id, v, found, max);
    }
    TrimmedAlready(linked, id, max);
    var kept := TrimNeighbors(linked, v, linked[id].neighbors, max);
    after := SetLinks(linked, id, kept);
    assert after == linked;
  }

  lemma LinksInsert(before: Graph, linked: Graph, id: Id, v: Vector, found: seq<Hit>, max: nat)
    requires id !in before && SameVectors(before[id := Node(v, HitIds(found))], linked)
    requires id in linked && linked[id] == Node(v, HitIds(found)) && id !in linked[id].neighbors
    requires var g := before[id := Node(v, HitIds(found))];
      && (forall x :: x in linked[id].neighbors ==> x in g && x in linked && Relinked(g, linked, x, id, max))
      && forall x :: x in g && x !in linked[id].neighbors ==> linked[x] == g[x]
    ensures Inserted(before, linked, id, v, found, max) && linked.Keys == before.Keys + {id}
  {
    hide HitIds, Relinked;
    SameVectorsRefl(linked);
    forall x | x in linked[id].neighbors
      ensures x in before && Relinked(before, linked, x, id, max)
    {
      RelinkedAlike(before[id := Node(v, HitIds(found))], linked, before, linked, x, id, max);
    }
  }

  lemma CardinalityOfNew(before: Graph, after: Graph, id: Id)
    requires after.Keys == before.Keys + {id} && id !in before
    ensures |after| == |before| + 1
  {
    assert |after.Keys| == |after| && |before.Keys| == |before|;
  }

  lemma SoundIds(r: seq<Hit>, g: Graph, query: Vector, k: nat)
    requires SoundResult(r, g, query, k)
    ensures var ns := HitIds(r);
      DistinctIdSeq(ns) && |ns| <= k && forall i :: 0 <= i < |ns| ==> ns[i] in g
  {
    hide Score;
    HitIdsMembers(r);
  }

  lemma NewNodeOk(g: Graph, id: Id, node: Node, max: nat)
    requires GraphOk(g) && Bounded(g, max) && id !in g
    requires DistinctIdSeq(node.neighbors) && |node.neighbors| <= max
    requires forall i :: 0 <= i < |node.neighbors| ==> node.neighbors[i] in g
    ensures GraphOk(g[id := node]) && Bounded(g[id := node], max)
  {
    var g' := g[id := node];
    forall x | x in g'
      ensures LinksOk(g', x)
    {
      if x != id { assert LinksOk(g, x); }
    }
  }

  lemma NextNeighbor(ns: seq<Id>, i: nat)
    requires i < |ns| && DistinctIdSeq(ns)
    ensures ns[i] !in ns[..i] && ns[..i + 1] == ns[..i] + [ns[i]]
    ensures forall j :: 0 <= j < i ==> ns[j] != ns[i] && ns[j] in ns[..i]
  {
    forall j | 0 <= j < i
      ensures ns[j] in ns[..i]
    {
      assert ns[..i][j] == ns[j];
    }
  }

  lemma SameVectorsTransitive(a: Graph, b: Graph, c: Graph)
    requires SameVectors(a, b) && SameVectors(b, c)
    ensures SameVectors(a, c) && a.Keys == c.Keys && b.Keys == c.Keys
  {}

  /** What one node holds depends on its own links and everybody's vectors. */
  lemma RelinkedAlike(g: Graph, h: Graph, g': Graph, h': Graph, n: Id, id: Id, max: nat)
    requires n in g && n in h && n in g' && n in h' && g'[n] == g[n] && h'[n] == h[n]
    requires SameVectors(h, h') && Relinked(g, h, n, id, max)
    ensures Relinked(g', h', n, id, max)
  {
    hide Trimmed, WithLink, Dimensioned;
    TrimmedAlike(h[n].neighbors, WithLink(g[n].neighbors, id), h, h', h[n].vector, max);
  }

  lemma RelinkedKept(g: Graph, h: Graph, next: Graph, ns: seq<Id>, i: nat, id: Id, max: nat)
    requires i < |ns| && DistinctIdSeq(ns) && g.Keys == h.Keys && SameVectors(h, next)
    requires forall j :: 0 <= j < |ns| ==> ns[j] in g
    requires forall j :: 0 <= j < i ==> Relinked(g, h, ns[j], id, max)
    requires forall x :: x in h && x != ns[i] ==> next[x] == h[x]
    requires h[ns[i]] == g[ns[i]] && Relinked(h, next, ns[i], id, max)
    ensures forall j :: 0 <= j < i + 1 ==> Relinked(g, next, ns[j], id, max)
  {
    hide Relinked;
    SameVectorsRefl(next);
    forall j | 0 <= j < i + 1
      ensures Relinked(g, next, ns[j], id, max)
    {
      if j < i {
        assert ns[j] != ns[i];
        RelinkedAlike(g, h, g, next, ns[j], id, max);
      } else {
        RelinkedAlike(h, next, g, next, ns[i], id, max);
      }
    }
  }

  lemma TrimmedAlready(g: Graph, id: Id, max: nat)
    requires id in g && GraphOk(g) && Bounded(g, max)
    ensures DistinctIdSeq(g[id].neighbors) && |g[id].neighbors| <= max
    ensures forall i :: 0 <= i < |g[id].neighbors| ==> g[id].neighbors[i] in g
  {
    assert LinksOk(g, id);
  }

  lemma {:induction false} DistinctSeqFits(ns: seq<Id>, s: set<Id>)
    requires DistinctIdSeq(ns) && forall i :: 0 <= i < |ns| ==> ns[i] in s
    ensures |ns| <= |s|
    decreases |ns|
  {
    if |ns| > 0 {
      var n := |ns| - 1;
      DistinctSeqFits(ns[..n], s - {ns[n]});
    }
  }

  /** In a small complete graph no neighbour list is full. */
  lemma RoomInSmallGraph(g: Graph, x: Id, max: nat)
    requires GraphOk(g) && x in g && |g| <= max
    ensures |g[x].neighbors| < max
  {
    assert LinksOk(g, x);
    DistinctSeqFits(g[x].neighbors, g.Keys - {x});
    assert |g.Keys| == |g| && |g.Keys - {x}| == |g.Keys| - 1;
  }

  /** Adding to a small complete graph keeps it complete. */
  lemma StillComplete(before: Graph, after: Graph, id: Id, v: Vector, found: seq<Hit>, max: nat)
    requires Dimensioned(before, |v|) && GraphOk(before) && Complete(before)
    requires Inserted(before, after, id, v, found, max) && id !in before && |after| <= max + 1
    requires |before| > 0 ==> BruteForceTop(found, before, v, max)
    ensures Complete(after)
  {
    hide Score, BruteForceTop, Complete, GraphOk, Relinked;
    assert |after.Keys| == |after| && |before.Keys| == |before|;
    assert |before.Keys + {id}| == |before.Keys| + 1;
    HitIdsMembers(found);
    if |before| > 0 {
      FewNodesAllFound(found, before, v, max);
    } else {
      assert before.Keys == {};
    }
    hide Ids, HitIds;
    CompleteStep(before, after, id, max);
  }

  /** Where there is room a back link is always made. */
  lemma RelinkedWithRoom(g: Graph, h: Graph, n: Id, id: Id, max: nat)
    requires n in g && n in h && Relinked(g, h, n, id, max) && |g[n].neighbors| < max
    ensures forall x :: x in h[n].neighbors <==> x in g[n].neighbors || x == id
  {
    hide Score;
  }

  lemma CompleteStep(before: Graph, after: Graph, id: Id, max: nat)
    requires GraphOk(before) && Complete(before) && |before| <= max
    requires after.Keys == before.Keys + {id} && id !in before
    requires forall x :: x in before ==> x in after[id].neighbors && Relinked(before, after, x, id, max)
    ensures Complete(after)
  {
    hide GraphOk, Relinked;
    forall a, b | a in after && b in after && a != b
      ensures b in after[a].neighbors
    {
      if a != id {
        RoomInSmallGraph(before, a, max);
        RelinkedWithRoom(before, after, a, id, max);
        assert b != id ==> b in before[a].neighbors;
      }
    }
  }
}
