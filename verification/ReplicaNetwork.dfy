/**
  Replicas that pull from each other with last-write-wins.  A pull asks another
  replica for its list and merges the reply later; other replies and merges may
  happen in between, so a reply can be stale when it is merged.
*/
module ReplicaNetwork {
  import opened Basics
  import opened ReplicaMerge
  import opened MergeLaws

  /** A stored list, and the replicas whose first list has flowed into it. */
  datatype Replica = Replica(blocks: seq<Block>, seen: set<nat>)

  datatype Net = Net(replicas: seq<Replica>, replies: seq<Replica>)

  datatype Step = Reply(from: nat) | Pull(to: nat, reply: nat)

  predicate Enabled(net: Net, step: Step) {
    match step
    case Reply(from) => from < |net.replicas|
    case Pull(to, reply) => to < |net.replicas| && reply < |net.replies|
  }

  function Merged(lib: Library, local: Replica, reply: Replica): Replica {
    Replica(Resolve(lib, LastWriteWins, local.blocks, reply.blocks), local.seen + reply.seen)
  }

  function Take(lib: Library, net: Net, step: Step): Net
    requires Enabled(net, step)
  {
    match step
    case Reply(from) => net.(replies := net.replies + [net.replicas[from]])
    case Pull(to, reply) => net.(replicas := net.replicas[to := Merged(lib, net.replicas[to], net.replies[reply])])
  }

  predicate CanRun(lib: Library, net: Net, steps: seq<Step>)
    decreases |steps|
  {
    |steps| > 0 ==> Enabled(net, steps[0]) && CanRun(lib, Take(lib, net, steps[0]), steps[1..])
  }

  function Run(lib: Library, net: Net, steps: seq<Step>): (r: Net)
    requires CanRun(lib, net, steps)
    ensures |r.replicas| == |net.replicas|
    decreases |steps|
  {
    if |steps| == 0 then net else Run(lib, Take(lib, net, steps[0]), steps[1..])
  }

  function Start(lists: seq<seq<Block>>): Net {
    Net(seq(|lists|, i requires 0 <= i < |lists| => Replica(lists[i], {i})), [])
  }

  // ---------- What a replica holds ----------

  /** Replica `i` of `seen` had `b` under `k` at the start. */
  ghost predicate HadFirst(lib: Library, lists: seq<seq<Block>>, seen: set<nat>, k: string, i: int) {
    i in seen && 0 <= i < |lists| && k in KeyMap(lib, lists[i])
  }

  /** `m` holds, for each key of the seen lists, one of their blocks, and none of them is later. */
  ghost predicate Holds(lib: Library, lists: seq<seq<Block>>, seen: set<nat>, m: BlockMap) {
    && (forall k, i :: HadFirst(lib, lists, seen, k, i) ==>
          k in m && Timestamp(lib, KeyMap(lib, lists[i])[k]) <= Timestamp(lib, m[k]))
    && (forall k :: k in m ==>
          exists i :: HadFirst(lib, lists, seen, k, i) && KeyMap(lib, lists[i])[k] == m[k])
  }

  ghost predicate ReplicaOk(lib: Library, lists: seq<seq<Block>>, r: Replica) {
    DuplicateFree(lib, r.blocks) && Holds(lib, lists, r.seen, KeyMap(lib, r.blocks))
  }

  ghost predicate NetOk(lib: Library, lists: seq<seq<Block>>, net: Net) {
    && (forall i :: 0 <= i < |net.replicas| ==> ReplicaOk(lib, lists, net.replicas[i]))
    && (forall i :: 0 <= i < |net.replies| ==> ReplicaOk(lib, lists, net.replies[i]))
  }

  lemma HoldsMerge(lib: Library, lists: seq<seq<Block>>, s: set<nat>, a: BlockMap, t: set<nat>, b: BlockMap)
    requires Holds(lib, lists, s, a) && Holds(lib, lists, t, b)
    ensures Holds(lib, lists, s + t, Merge(lib, LastWriteWins, a, b))
  {
    hide Timestamp, KeyMap;
    var m := Merge(lib, LastWriteWins, a, b);
    forall k, i | HadFirst(lib, lists, s + t, k, i)
      ensures k in m && Timestamp(lib, KeyMap(lib, lists[i])[k]) <= Timestamp(lib, m[k])
    {
      assert HadFirst(lib, lists, s, k, i) || HadFirst(lib, lists, t, k, i);
    }
    forall k | k in m
      ensures exists i :: HadFirst(lib, lists, s + t, k, i) && KeyMap(lib, lists[i])[k] == m[k]
    {
      if k in a && m[k] == a[k] {
        var i :| HadFirst(lib, lists, s, k, i) && KeyMap(lib, lists[i])[k] == a[k];
        assert HadFirst(lib, lists, s + t, k, i);
      } else {
        var i :| HadFirst(lib, lists, t, k, i) && KeyMap(lib, lists[i])[k] == b[k];
        assert HadFirst(lib, lists, s + t, k, i);
      }
    }
  }

  lemma MergedOk(lib: Library, lists: seq<seq<Block>>, local: Replica, reply: Replica)
    requires ReplicaOk(lib, lists, local) && ReplicaOk(lib, lists, reply)
    ensures ReplicaOk(lib, lists, Merged(lib, local, reply))
  {
    hide Holds, DuplicateFree, KeyMap, Resolve, Merge, InOrder;
    ResolveIsMerge(lib, LastWriteWins, local.blocks, reply.blocks);
    HoldsMerge(lib, lists, local.seen, KeyMap(lib, local.blocks), reply.seen, KeyMap(lib, reply.blocks));
  }

  lemma StepKeeps(lib: Library, lists: seq<seq<Block>>, net: Net, step: Step)
    requires NetOk(lib, lists, net) && Enabled(net, step)
    ensures NetOk(lib, lists, Take(lib, net, step))
  {
    hide ReplicaOk, Merged;
    if step.Pull? { MergedOk(lib, lists, net.replicas[step.to], net.replies[step.reply]); }
  }

  lemma {:induction false} RunKeeps(lib: Library, lists: seq<seq<Block>>, net: Net, steps: seq<Step>)
    requires NetOk(lib, lists, net) && CanRun(lib, net, steps)
    ensures NetOk(lib, lists, Run(lib, net, steps))
    decreases |steps|
  {
    hide NetOk, Take, Enabled;
    if |steps| > 0 {
      StepKeeps(lib, lists, net, steps[0]);
      RunKeeps(lib, lists, Take(lib, net, steps[0]), steps[1..]);
    }
  }

  lemma StartOk(lib: Library, lists: seq<seq<Block>>)
    requires forall i :: 0 <= i < |lists| ==> DuplicateFree(lib, lists[i])
    ensures NetOk(lib, lists, Start(lists))
  {
    hide DuplicateFree, KeyMap, Timestamp;
    forall i | 0 <= i < |lists|
      ensures Holds(lib, lists, {i}, KeyMap(lib, lists[i]))
    {
      forall k | k in KeyMap(lib, lists[i])
        ensures exists j :: HadFirst(lib, lists, {i}, k, j) && KeyMap(lib, lists[j])[k] == KeyMap(lib, lists[i])[k]
      {
        assert HadFirst(lib, lists, {i}, k, i);
      }
    }
  }

  // ---------- Convergence ----------

  /** Across all first lists, blocks of one key with one timestamp are one block. */
  predicate AllTiesAgree(lib: Library, lists: seq<seq<Block>>) {
    forall i, j :: 0 <= i < |lists| && 0 <= j < |lists| ==>
      TiesAgree(lib, KeyMap(lib, lists[i]), KeyMap(lib, lists[j]))
  }

  lemma SameSeenSameMap(lib: Library, lists: seq<seq<Block>>, seen: set<nat>, a: BlockMap, b: BlockMap)
    requires Holds(lib, lists, seen, a) && Holds(lib, lists, seen, b) && AllTiesAgree(lib, lists)
    ensures a == b
  {
    hide Holds, AllTiesAgree;
    forall k
      ensures k in a <==> k in b
      ensures k in a ==> a[k] == b[k]
    {
      if k in a { SameEntry(lib, lists, seen, a, b, k); }
      if k in b { SameEntry(lib, lists, seen, b, a, k); }
    }
  }

  lemma SameEntry(lib: Library, lists: seq<seq<Block>>, seen: set<nat>, a: BlockMap, b: BlockMap, k: string)
    requires Holds(lib, lists, seen, a) && Holds(lib, lists, seen, b) && AllTiesAgree(lib, lists) && k in a
    ensures k in b && a[k] == b[k]
  {
    hide KeyMap, Timestamp, AllTiesAgree;
    var i :| HadFirst(lib, lists, seen, k, i) && KeyMap(lib, lists[i])[k] == a[k];
    var j :| HadFirst(lib, lists, seen, k, j) && KeyMap(lib, lists[j])[k] == b[k];
    TiesOf(lib, lists, i, j);
  }

  lemma TiesOf(lib: Library, lists: seq<seq<Block>>, i: nat, j: nat)
    requires AllTiesAgree(lib, lists) && i < |lists| && j < |lists|
    ensures TiesAgree(lib, KeyMap(lib, lists[i]), KeyMap(lib, lists[j]))
  {}

  /**
    After any run, in any order and with stale replies, two replicas that have seen
    the same replicas hold the same blocks; in particular all replicas do once every
    list has reached everyone.
  */
  lemma Convergence(lib: Library, lists: seq<seq<Block>>, steps: seq<Step>, i: nat, j: nat)
    requires forall n :: 0 <= n < |lists| ==> DuplicateFree(lib, lists[n])
    requires AllTiesAgree(lib, lists) && CanRun(lib, Start(lists), steps)
    requires i < |lists| && j < |lists|
    ensures var r := Run(lib, Start(lists), steps).replicas;
      r[i].seen == r[j].seen ==> KeyMap(lib, r[i].blocks) == KeyMap(lib, r[j].blocks)
  {
    hide Holds, KeyMap, DuplicateFree, AllTiesAgree, CanRun, Run;
    StartOk(lib, lists);
    RunKeeps(lib, lists, Start(lists), steps);
    var r := Run(lib, Start(lists), steps).replicas;
    assert ReplicaOk(lib, lists, r[i]) && ReplicaOk(lib, lists, r[j]);
    if r[i].seen == r[j].seen {
      SameSeenSameMap(lib, lists, r[i].seen, KeyMap(lib, r[i].blocks), KeyMap(lib, r[j].blocks));
    }
  }

  /** No two blocks of a list have the same index and the same timestamp. */
  predicate RanksDistinct(lib: Library, blocks: seq<Block>) {
    forall a, b :: a in blocks && b in blocks && a != b ==> Before(lib, a, b) || Before(lib, b, a)
  }

  /** Sorted lists of the same blocks are the same list when no two blocks tie for a place. */
  lemma {:induction false} SortedOnce(lib: Library, a: seq<Block>, b: seq<Block>)
    requires InOrder(lib, a) && InOrder(lib, b) && DuplicateFree(lib, a) && DuplicateFree(lib, b)
    requires RanksDistinct(lib, a) && forall x :: x in a <==> x in b
    ensures a == b
  {
    hide Before, BlockKey;
    assert |a| == 0 <==> |b| == 0 by {
      assert |a| > 0 ==> a[0] in a;
      assert |b| > 0 ==> b[0] in b;
    }
    if |a| > 0 {
      assert a[0] in b && b[0] in a;
      assert a[0] == b[0];
      TailElements(lib, a, b);
      TailElements(lib, b, a);
      assert forall x :: x in a[1..] ==> x in a;
      SortedOnce(lib, a[1..], b[1..]);
      assert a == [a[0]] + a[1..] && b == [b[0]] + b[1..];
    }
  }

  lemma TailElements(lib: Library, a: seq<Block>, b: seq<Block>)
    requires |a| > 0 && |b| > 0 && a[0] == b[0] && DuplicateFree(lib, a) && forall x :: x in a ==> x in b
    ensures forall x :: x in a[1..] ==> x in b[1..]
  {
    hide BlockKey;
    forall x | x in a[1..]
      ensures x in b[1..]
    {
      var i :| 0 <= i < |a[1..]| && a[1..][i] == x;
      assert a[i + 1] == x && BlockKey(lib, a[0]) != BlockKey(lib, x);
      assert x in a && b == [b[0]] + b[1..];
    }
  }

  /** The map of a list determines it when it is sorted and no two of its blocks tie for a place. */
  lemma MapDeterminesList(lib: Library, a: seq<Block>, b: seq<Block>)
    requires InOrder(lib, a) && InOrder(lib, b) && DuplicateFree(lib, a) && DuplicateFree(lib, b)
    requires RanksDistinct(lib, a) && KeyMap(lib, a) == KeyMap(lib, b)
    ensures a == b
  {
    hide InOrder, DuplicateFree, KeyMap, BlockKey, RanksDistinct;
    ElementsFromMap(lib, a, b);
    ElementsFromMap(lib, b, a);
    SortedOnce(lib, a, b);
  }

  lemma ElementsFromMap(lib: Library, a: seq<Block>, b: seq<Block>)
    requires DuplicateFree(lib, a) && KeyMap(lib, a) == KeyMap(lib, b)
    ensures forall x :: x in a ==> x in b
  {
    hide DuplicateFree, KeyMap, BlockKey;
    forall x | x in a
      ensures x in b
    {
      var i :| 0 <= i < |a| && a[i] == x;
      KeyMapAt(lib, a, i);
      KeyMapEntry(lib, b, BlockKey(lib, x));
    }
  }

  // ---------- Ties that disagree ----------

  lemma MergeOfTwo(lib: Library, x: Block, y: Block)
    requires BlockKey(lib, x) == BlockKey(lib, y)
    ensures Resolve(lib, LastWriteWins, [x], [y]) == [Winner(lib, LastWriteWins, x, y)]
  {
    hide BlockKey, Timestamp, Resolve;
    var k, merged := BlockKey(lib, x), Resolve(lib, LastWriteWins, [x], [y]);
    KeyMapOfOne(lib, x);
    KeyMapOfOne(lib, y);
    PullThenDiff(lib, LastWriteWins, [x], [y]);
    assert map[k := y].Keys - map[k := x].Keys == {};
    ResolveIsMerge(lib, LastWriteWins, [x], [y]);
    KeyMapAt(lib, merged, 0);
    assert BlockKey(lib, merged[0]) in Merge(lib, LastWriteWins, map[k := x], map[k := y]);
  }

  lemma KeyMapOfOne(lib: Library, x: Block)
    ensures KeyMap(lib, [x]) == map[BlockKey(lib, x) := x]
  {
    assert [x][..0] == [];
  }

  /** One round in which two replicas ask each other before either has merged. */
  function Exchange(round: nat): seq<Step> {
    [Reply(0), Reply(1), Pull(0, 2 * round + 1), Pull(1, 2 * round)]
  }

  function Exchanges(from: nat, rounds: nat): seq<Step>
    decreases rounds
  {
    if rounds == 0 then [] else Exchange(from) + Exchanges(from + 1, rounds - 1)
  }

  function Tied(x: Block, y: Block, seen: set<nat>, other: set<nat>, replies: seq<Replica>): Net {
    Net([Replica([x], seen), Replica([y], other)], replies)
  }

  lemma {:induction false} RunAppend(lib: Library, net: Net, steps: seq<Step>, rest: seq<Step>)
    requires CanRun(lib, net, steps) && CanRun(lib, Run(lib, net, steps), rest)
    ensures CanRun(lib, net, steps + rest) && Run(lib, net, steps + rest) == Run(lib, Run(lib, net, steps), rest)
    decreases |steps|
  {
    hide Take, Enabled;
    if |steps| == 0 {
      assert steps + rest == rest;
    } else {
      assert (steps + rest)[0] == steps[0] && (steps + rest)[1..] == steps[1..] + rest;
      RunAppend(lib, Take(lib, net, steps[0]), steps[1..], rest);
    }
  }

  lemma OneExchange(lib: Library, x: Block, y: Block, s: set<nat>, t: set<nat>, replies: seq<Replica>, round: nat)
    requires BlockKey(lib, x) == BlockKey(lib, y) && |replies| == 2 * round
    ensures var after := replies + [Replica([x], s)] + [Replica([y], t)];
      && CanRun(lib, Tied(x, y, s, t, replies), Exchange(round))
      && Run(lib, Tied(x, y, s, t, replies), Exchange(round))
         == Tied(Winner(lib, LastWriteWins, x, y), Winner(lib, LastWriteWins, y, x), s + t, t + s, after)
  {
    hide BlockKey, Winner, Resolve;
    MergeOfTwo(lib, x, y);
    MergeOfTwo(lib, y, x);
    var a := Tied(x, y, s, t, replies);
    var b := Take(lib, a, Reply(0));
    var c := Take(lib, b, Reply(1));
    assert c.replies[2 * round] == Replica([x], s) && c.replies[2 * round + 1] == Replica([y], t);
    var d := Take(lib, c, Pull(0, 2 * round + 1));
    var e := Take(lib, d, Pull(1, 2 * round));
    assert e.replicas == [Merged(lib, c.replicas[0], Replica([y], t)), Merged(lib, c.replicas[1], Replica([x], s))];
    RunList(lib, a, Exchange(round), b, c, d, e);
  }

  lemma RunList(lib: Library, a: Net, steps: seq<Step>, b: Net, c: Net, d: Net, e: Net)
    requires |steps| == 4 && Enabled(a, steps[0]) && Enabled(b, steps[1]) && Enabled(c, steps[2]) && Enabled(d, steps[3])
    requires b == Take(lib, a, steps[0]) && c == Take(lib, b, steps[1])
    requires d == Take(lib, c, steps[2]) && e == Take(lib, d, steps[3])
    ensures CanRun(lib, a, steps) && Run(lib, a, steps) == e
  {
    hide Take, Enabled;
    assert steps[1..][0] == steps[1] && steps[1..][1..] == steps[2..];
    assert steps[2..][0] == steps[2] && steps[2..][1..] == steps[3..];
    assert steps[3..][0] == steps[3] && steps[3..][1..] == [];
    assert CanRun(lib, e, []) && Run(lib, e, []) == e;
    assert CanRun(lib, d, steps[3..]) && Run(lib, d, steps[3..]) == e;
    assert CanRun(lib, c, steps[2..]) && Run(lib, c, steps[2..]) == e;
    assert CanRun(lib, b, steps[1..]) && Run(lib, b, steps[1..]) == e;
  }

  /**
    Two replicas whose blocks of one key differ and keep exchanging agree after a
    round exactly when the timestamps differ; when they tie, the replicas swap their
    blocks for ever, although each has seen the other from the first round on.
  */
  lemma {:induction false} TiesSwapForever(lib: Library, x: Block, y: Block, s: set<nat>, t: set<nat>,
                                           replies: seq<Replica>, from: nat, rounds: nat)
    requires BlockKey(lib, x) == BlockKey(lib, y) && |replies| == 2 * from
    ensures CanRun(lib, Tied(x, y, s, t, replies), Exchanges(from, rounds))
    ensures var r := Run(lib, Tied(x, y, s, t, replies), Exchanges(from, rounds)).replicas;
      && |r| == 2
      && (rounds > 0 ==> r[0].seen == r[1].seen == s + t)
      && (r[0].blocks == r[1].blocks <==> x == y || (rounds > 0 && Timestamp(lib, x) != Timestamp(lib, y)))
      && (Timestamp(lib, x) == Timestamp(lib, y) ==>
            r[0].blocks == [if rounds % 2 == 0 then x else y] && r[1].blocks == [if rounds % 2 == 0 then y else x])
    decreases rounds
  {
    hide BlockKey, Timestamp, Take, Enabled, Resolve;
    var start := Tied(x, y, s, t, replies);
    if rounds > 0 {
      OneExchange(lib, x, y, s, t, replies, from);
      var x', y' := Winner(lib, LastWriteWins, x, y), Winner(lib, LastWriteWins, y, x);
      var after := replies + [Replica([x], s)] + [Replica([y], t)];
      TiesSwapForever(lib, x', y', s + t, t + s, after, from + 1, rounds - 1);
      RunAppend(lib, start, Exchange(from), Exchanges(from + 1, rounds - 1));
    } else {
      assert [x] == [y] ==> x == [x][0] == [y][0];
    }
  }
}
