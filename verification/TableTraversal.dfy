/** Traversal order of a table: the array part, then the nodes, by position. */
module TableTraversal {
  import opened Common
  import opened ScatterTable
  import opened TableContents

  /** The parts of a table at one moment; `nodes` keep their chains between moments. */
  datatype Parts<+V> = Parts(arr: seq<Option<V>>, nodes: seq<Node<V>>)

  function Size<V>(s: Parts<V>): nat {
    |s.arr| + |s.nodes|
  }

  /** The value at a position. */
  function ValueAt<V>(s: Parts<V>, p: int): Option<V>
    requires 0 <= p < Size(s)
  {
    if p < |s.arr| then s.arr[p] else s.nodes[p - |s.arr|].val
  }

  /** The key at a position that holds a value. */
  function KeyAt<V>(s: Parts<V>, p: int): Key
    requires 0 <= p < Size(s) && (p >= |s.arr| ==> s.nodes[p - |s.arr|].key != NoKey)
  {
    if p < |s.arr| then Int(p + 1) else s.nodes[p - |s.arr|].key.key
  }

  /** A node holds the key, alive or dead. */
  predicate Matches<V>(n: Node<V>, k: Key) {
    n.key != NoKey && n.key.key == k
  }

  /** Node `j` is the first on the chain of the key's main position that matches it. */
  ghost predicate First<V>(h: (Key, int) -> int, nodes: seq<Node<V>>, rank: seq<real>, k: Key, j: int) {
    && Hashes(h, nodes) && Chained(nodes, rank) && 0 <= j < |nodes| && Matches(nodes[j], k)
    && OnPath(nodes, rank, h(k, |nodes|), j)
    && forall q :: 0 <= q < |nodes| && Matches(nodes[q], k) && OnPath(nodes, rank, h(k, |nodes|), q) ==>
                     OnPath(nodes, rank, j, q)
  }

  ghost predicate IsIndex<V>(h: (Key, int) -> int, s: Parts<V>, rank: seq<real>, k: Key, i: int) {
    if InRange(k, |s.arr|) then i == k.n - 1
    else i >= |s.arr| && First(h, s.nodes, rank, k, i - |s.arr|)
  }

  /** `p` is the next position after `i` with a value, or the size if there is none. */
  ghost predicate IsNext<V>(s: Parts<V>, i: int, p: int) {
    && -1 <= i < p <= Size(s)
    && (forall q :: i < q < p ==> ValueAt(s, q).None?)
    && (p < Size(s) ==> ValueAt(s, p).Some?)
  }

  ghost predicate ValuesLive<V>(nodes: seq<Node<V>>) {
    forall j :: 0 <= j < |nodes| && nodes[j].val.Some? ==> nodes[j].key.Live?
  }

  datatype Step<+V> = Entry(key: Key, val: V) | Done | InvalidKey

  /** `r` is the outcome of a traversal step from index `i` to position `p`. */
  ghost predicate StepsTo<V>(s: Parts<V>, i: int, r: Step<V>, p: int) {
    && ValuesLive(s.nodes) && IsNext(s, i, p)
    && match r
       case Entry(k, v) => p < Size(s) && ValueAt(s, p) == Some(v) && KeyAt(s, p) == k
       case Done => p == Size(s)
       case InvalidKey => false
  }

  /** The entry after index `i`, or the end of the traversal. */
  method NextEntry<V>(arr: seq<Option<V>>, nodes: seq<Node<V>>, i: int) returns (r: Step<V>, ghost p: int)
    requires -1 <= i < |arr| + |nodes| && ValuesLive(nodes)
    ensures StepsTo(Parts(arr, nodes), i, r, p)
  {
    ghost var s := Parts(arr, nodes);
    var j := i + 1;
    while j < |arr|
      invariant i < j <= Size(s) && (j <= |arr| || j == i + 1)
      invariant forall q :: i < q < j ==> ValueAt(s, q).None?
    {
      if arr[j].Some? {
        assert ValueAt(s, j).Some?;
        return Entry(Int(j + 1), arr[j].value), j;
      }
      j := j + 1;
    }
    while j - |arr| < |nodes|
      invariant i < j && |arr| <= j <= Size(s)
      invariant forall q :: i < q < j ==> ValueAt(s, q).None?
    {
      var n := nodes[j - |arr|];
      if n.val.Some? {
        assert ValueAt(s, j).Some?;
        return Entry(n.key.key, n.val.value), j;
      }
      j := j + 1;
    }
    return Done, j;
  }

  // ---------------------------------------------------------------- chains

  lemma {:induction false} PathAbove<V>(nodes: seq<Node<V>>, rank: seq<real>, i: int, j: int)
    requires Chained(nodes, rank) && 0 <= i < |nodes| && OnPath(nodes, rank, i, j)
    ensures 0 <= j < |nodes| && rank[i] <= rank[j] && (i != j ==> rank[i] < rank[j])
    decreases Above(rank, i)
  {
    if i != j {
      NextIsAbove(nodes, rank, i);
      PathAbove(nodes, rank, nodes[i].next, j);
    }
  }

  lemma {:induction false} PathExtends<V>(nodes: seq<Node<V>>, rank: seq<real>, start: int, i: int)
    requires Chained(nodes, rank) && 0 <= start < |nodes| && OnPath(nodes, rank, start, i)
    ensures 0 <= i < |nodes| && (nodes[i].next != -1 ==> OnPath(nodes, rank, start, nodes[i].next))
    decreases Above(rank, start)
  {
    if start != i {
      NextIsAbove(nodes, rank, start);
      PathExtends(nodes, rank, nodes[start].next, i);
    } else if nodes[i].next != -1 {
      NextIsAbove(nodes, rank, i);
    }
  }

  lemma IndexUnique<V>(h: (Key, int) -> int, s: Parts<V>, rank: seq<real>, k: Key, i: int, j: int)
    requires IsIndex(h, s, rank, k, i) && IsIndex(h, s, rank, k, j)
    ensures i == j
  {
    if !InRange(k, |s.arr|) {
      var a, b := i - |s.arr|, j - |s.arr|;
      PathAbove(s.nodes, rank, a, b);
      PathAbove(s.nodes, rank, b, a);
    }
  }

  /** In a well-formed table the key of an entry is found where the entry is. */
  lemma LiveIndex<V>(h: (Key, int) -> int, nodes: seq<Node<V>>, rank: seq<real>, j: int)
    requires Scatter(h, nodes, rank) && 0 <= j < |nodes| && nodes[j].key.Live?
    ensures First(h, nodes, rank, nodes[j].key.key, j)
  {
    var k := nodes[j].key.key;
    assert Used(nodes, j);
    forall q | 0 <= q < |nodes| && Matches(nodes[q], k)
    && OnPath(nodes, rank, h(k, |nodes|), q) ensures OnPath(nodes, rank, j, q) {
      if q != j {
        assert nodes[q].key == Dead(k);
      }
    }
  }

  /** What happens to a table between two steps of a traversal: existing fields are
      reassigned or erased, and erased keys may be collected. */
  ghost predicate Edited<V>(s: Parts<V>, t: Parts<V>) {
    |s.arr| == |t.arr| && SameChains(s.nodes, t.nodes)
  }

  lemma FirstKept<V>(h: (Key, int) -> int, nodes: seq<Node<V>>, r: seq<Node<V>>, rank: seq<real>, k: Key, j: int)
    requires First(h, nodes, rank, k, j) && SameChains(nodes, r)
    ensures First(h, r, rank, k, j)
  {
    SameChainsChained(nodes, r, rank);
    hide OnPath;
    forall i, q | 0 <= i < |nodes| ensures OnPath(r, rank, i, q) <==> OnPath(nodes, rank, i, q) {
      SameChainsPath(nodes, r, rank, i, q);
    }
  }

  /** The key a step returned is found at the same position after the edits. */
  lemma StepFinds<V>(h: (Key, int) -> int, s: Parts<V>, t: Parts<V>, rank: seq<real>, p: int)
    requires Scatter(h, s.nodes, rank) && Separate(s.arr, s.nodes) && Edited(s, t)
    requires 0 <= p < Size(s) && ValueAt(s, p).Some?
    ensures p >= |s.arr| ==> s.nodes[p - |s.arr|].key.Live?
    ensures IsIndex(h, t, rank, KeyAt(s, p), p)
  {
    if p >= |s.arr| {
      var j := p - |s.arr|;
      assert s.nodes[j].key.Live?;
      LiveIndex(h, s.nodes, rank, j);
      FirstKept(h, s.nodes, t.nodes, rank, s.nodes[j].key.key, j);
    }
  }

  // ------------------------------------------------------------------- runs

  /** Step `t` of a traversal looks up the key of the step before. */
  ghost predicate Returned<V>(h: (Key, int) -> int, rank: seq<real>, states: seq<Parts<V>>, steps: seq<Step<V>>,
      visits: seq<int>, t: int)
    requires 0 <= t < |visits| == |states| == |steps|
  {
    exists i :: StepsTo(states[t], i, steps[t], visits[t]) &&
      if t == 0 then i == -1 else steps[t - 1].Entry? && IsIndex(h, states[t], rank, steps[t - 1].key, i)
  }

  /** A traversal from nil to its end: `states[t]` is the table at step `t`, which
      returned `steps[t]` from position `visits[t]`. */
  ghost predicate Traversal<V>(h: (Key, int) -> int, rank: seq<real>, states: seq<Parts<V>>, steps: seq<Step<V>>,
      visits: seq<int>) {
    && |states| == |steps| == |visits| > 0 && steps[|steps| - 1].Done?
    && (forall t :: 0 <= t < |states| ==> Scatter(h, states[t].nodes, rank) && Separate(states[t].arr, states[t].nodes))
    && (forall t, u :: 0 <= t && u == t + 1 && u < |states| ==> Edited(states[t], states[u]))
    && (forall t :: 0 <= t < |visits| ==> Returned(h, rank, states, steps, visits, t))
  }

  lemma EditedTransitive<V>(r: Parts<V>, s: Parts<V>, t: Parts<V>)
    requires Edited(r, s) && Edited(s, t)
    ensures Edited(r, t)
  {
  }

  lemma EditedSize<V>(s: Parts<V>, t: Parts<V>)
    requires Edited(s, t)
    ensures |s.arr| == |t.arr| && |s.nodes| == |t.nodes| && Size(s) == Size(t)
  {
  }

  lemma StateOk<V>(h: (Key, int) -> int, rank: seq<real>, states: seq<Parts<V>>, steps: seq<Step<V>>, visits: seq<int>,
      t: int)
    requires Traversal(h, rank, states, steps, visits) && (t == 0 || 0 < t < |states|)
    ensures |states| == |steps| == |visits| > 0
    ensures UniqueKeys(states[t].nodes) && Separate(states[t].arr, states[t].nodes)
    ensures t > 0 ==> Edited(states[t - 1], states[t])
  {
    hide Edited, Returned, Chained, FreeOk, PathsOk, MainOk, DeadLater, UniqueKeys, Separate;
  }

  lemma {:induction false} EditedSince<V>(h: (Key, int) -> int, rank: seq<real>, states: seq<Parts<V>>,
      steps: seq<Step<V>>, visits: seq<int>, t: int)
    requires Traversal(h, rank, states, steps, visits) && 0 <= t < |states|
    ensures Edited(states[0], states[t])
  {
    if t == 0 {
      hide Traversal;
    } else {
      hide *;
      EditedSince(h, rank, states, steps, visits, t - 1);
      StateOk(h, rank, states, steps, visits, t);
      EditedTransitive(states[0], states[t - 1], states[t]);
    }
  }

  /** Every step but the last returns an entry, found further on than the one before. */
  lemma StepMovesOn<V>(h: (Key, int) -> int, rank: seq<real>, states: seq<Parts<V>>, steps: seq<Step<V>>,
      visits: seq<int>, t: int)
    requires Traversal(h, rank, states, steps, visits) && 0 <= t < |visits|
    ensures t > 0 ==> steps[t - 1].Entry?
    ensures StepsTo(states[t], if t == 0 then -1 else visits[t - 1], steps[t], visits[t])
  {
    hide Scatter, Separate, Edited, IsIndex, StepsTo;
    assert Returned(h, rank, states, steps, visits, t);
    if t > 0 {
      assert Returned(h, rank, states, steps, visits, t - 1);
      var i :| StepsTo(states[t], i, steps[t], visits[t]) && IsIndex(h, states[t], rank, steps[t - 1].key, i);
      var j :| StepsTo(states[t - 1], j, steps[t - 1], visits[t - 1]);
      assert Edited(states[t - 1], states[t]);
      StepFound(h, states[t - 1], states[t], rank, j, steps[t - 1], visits[t - 1], i);
    }
  }

  lemma StepEntry<V>(s: Parts<V>, i: int, r: Step<V>, p: int)
    requires StepsTo(s, i, r, p) && r.Entry?
    ensures 0 <= p < Size(s) && ValueAt(s, p) == Some(r.val)
    ensures (p >= |s.arr| ==> s.nodes[p - |s.arr|].key.Live?) && KeyAt(s, p) == r.key
  {
  }

  lemma StepFound<V>(h: (Key, int) -> int, s: Parts<V>, t: Parts<V>, rank: seq<real>, j: int, r: Step<V>, p: int,
      i: int)
    requires Scatter(h, s.nodes, rank) && Separate(s.arr, s.nodes) && Edited(s, t)
    requires StepsTo(s, j, r, p) && r.Entry? && IsIndex(h, t, rank, r.key, i)
    ensures i == p
  {
    hide *;
    StepEntry(s, j, r, p);
    StepFinds(h, s, t, rank, p);
    IndexUnique(h, t, rank, r.key, i, p);
  }

  /** A traversal moves forward, so it visits no position twice. */
  lemma {:induction false} TraversalIncreases<V>(h: (Key, int) -> int, rank: seq<real>, states: seq<Parts<V>>,
      steps: seq<Step<V>>, visits: seq<int>, t: int, u: int)
    requires Traversal(h, rank, states, steps, visits) && 0 <= t < u < |visits|
    ensures visits[t] < visits[u]
    decreases u
  {
    StepMovesOn(h, rank, states, steps, visits, u);
    if t < u - 1 { TraversalIncreases(h, rank, states, steps, visits, t, u - 1); }
  }

  /** A traversal takes at most one step for each position, and one to see the end. */
  lemma {:induction false} TraversalStops<V>(h: (Key, int) -> int, rank: seq<real>, states: seq<Parts<V>>,
      steps: seq<Step<V>>, visits: seq<int>, t: int)
    requires Traversal(h, rank, states, steps, visits) && 0 <= t < |visits|
    ensures t <= visits[t] && t <= Size(states[0])
  {
    StepMovesOn(h, rank, states, steps, visits, t);
    EditedSince(h, rank, states, steps, visits, t);
    if t > 0 { TraversalStops(h, rank, states, steps, visits, t - 1); }
  }

  /** A position that always holds a value is visited. */
  lemma PositionVisited<V>(h: (Key, int) -> int, rank: seq<real>, states: seq<Parts<V>>, steps: seq<Step<V>>,
      visits: seq<int>, p: int) returns (t: int)
    requires Traversal(h, rank, states, steps, visits) && 0 <= p < Size(states[0])
    requires forall t :: 0 <= t < |states| ==> Size(states[t]) == Size(states[0])
    requires forall t :: 0 <= t < |states| ==> ValueAt(states[t], p).Some?
    ensures 0 <= t < |visits| && visits[t] == p && StepsTo(states[t], if t == 0 then -1 else visits[t - 1], steps[t], p)
  {
    hide Scatter, Edited, Separate, Returned;
    StateOk(h, rank, states, steps, visits, 0);
    t := 0;
    StepMovesOn(h, rank, states, steps, visits, 0);
    while visits[t] < p
      invariant 0 <= t < |visits| && (t == 0 || visits[t - 1] < p)
      invariant StepsTo(states[t], if t == 0 then -1 else visits[t - 1], steps[t], visits[t])
      decreases |visits| - t
    {
      t := t + 1;
      StepMovesOn(h, rank, states, steps, visits, t);
    }
    assert ValueAt(states[t], p).Some? && visits[t] == p;
  }

  /** The position of a key with a value. */
  lemma PositionOf<V>(s: Parts<V>, k: Key) returns (p: int)
    requires UniqueKeys(s.nodes) && Lookup(s.arr, s.nodes, k).Some?
    ensures 0 <= p < Size(s) && ValueAt(s, p) == Lookup(s.arr, s.nodes, k)
    ensures (p >= |s.arr| ==> s.nodes[p - |s.arr|].key == Live(k)) && KeyAt(s, p) == k
  {
    if InRange(k, |s.arr|) {
      p := k.n - 1;
    } else {
      assert HasLive(s.nodes, k);
      var j :| 0 <= j < |s.nodes| && s.nodes[j].key == Live(k);
      HashLookupAt(s.nodes, j);
      p := j + |s.arr|;
    }
  }

  /** A key keeps its position through edits. */
  lemma SamePosition<V>(s: Parts<V>, t: Parts<V>, p: int, q: int)
    requires Edited(s, t) && UniqueKeys(s.nodes) && Separate(s.arr, s.nodes)
    requires 0 <= p < Size(s) && (p >= |s.arr| ==> s.nodes[p - |s.arr|].key.Live?)
    requires 0 <= q < Size(t) && (q >= |t.arr| ==> t.nodes[q - |t.arr|].key.Live?)
    requires KeyAt(s, p) == KeyAt(t, q)
    ensures p == q
  {
    if q >= |t.arr| {
      var j := q - |t.arr|;
      assert s.nodes[j].key == t.nodes[j].key;
    }
    if p >= |s.arr| {
      assert !InRange(s.nodes[p - |s.arr|].key.key, |s.arr|);
    }
  }

  /** A key that always has a value is returned by exactly one step, with its value then. */
  lemma TraversalVisits<V>(h: (Key, int) -> int, rank: seq<real>, states: seq<Parts<V>>, steps: seq<Step<V>>,
      visits: seq<int>, k: Key) returns (t: int)
    requires Traversal(h, rank, states, steps, visits)
    requires forall t :: 0 <= t < |states| ==> Lookup(states[t].arr, states[t].nodes, k).Some?
    ensures 0 <= t < |steps| && steps[t].Entry? && steps[t].key == k
    ensures Lookup(states[t].arr, states[t].nodes, k) == Some(steps[t].val)
    ensures forall u :: 0 <= u < |steps| && steps[u].Entry? && steps[u].key == k ==> u == t
  {
    hide Traversal, Scatter, UniqueKeys, Separate, Lookup, Edited;
    StateOk(h, rank, states, steps, visits, 0);
    var p := PositionOf(states[0], k);
    forall u | 0 <= u < |states|
      ensures Size(states[u]) == Size(states[0]) && ValueAt(states[u], p) == Lookup(states[u].arr, states[u].nodes, k)
      ensures (p >= |states[u].arr| ==> states[u].nodes[p - |states[u].arr|].key == Live(k)) && KeyAt(states[u], p) == k
    {
      EditedSince(h, rank, states, steps, visits, u);
      StateOk(h, rank, states, steps, visits, u);
      KeptPosition(states[0], states[u], k, p);
    }
    t := PositionVisited(h, rank, states, steps, visits, p);
    StepEntry(states[t], if t == 0 then -1 else visits[t - 1], steps[t], p);
    hide *;
    forall u | 0 <= u < |steps| && steps[u].Entry? && steps[u].key == k ensures u == t {
      ReturnedOnce(h, rank, states, steps, visits, k, p, t, u);
    }
  }

  lemma ReturnedOnce<V>(h: (Key, int) -> int, rank: seq<real>, states: seq<Parts<V>>, steps: seq<Step<V>>,
      visits: seq<int>, k: Key, p: int, t: int, u: int)
    requires Traversal(h, rank, states, steps, visits)
    requires 0 <= p < Size(states[0]) && (p >= |states[0].arr| ==> states[0].nodes[p - |states[0].arr|].key.Live?)
             && KeyAt(states[0], p) == k
    requires 0 <= t < |steps| && visits[t] == p
    requires 0 <= u < |steps| && steps[u].Entry? && steps[u].key == k
    ensures u == t
  {
    hide *;
    StateOk(h, rank, states, steps, visits, 0);
    StepMovesOn(h, rank, states, steps, visits, u);
    EditedSince(h, rank, states, steps, visits, u);
    StepEntry(states[u], if u == 0 then -1 else visits[u - 1], steps[u], visits[u]);
    SamePosition(states[0], states[u], p, visits[u]);
    if u < t { TraversalIncreases(h, rank, states, steps, visits, u, t); }
    if t < u { TraversalIncreases(h, rank, states, steps, visits, t, u); }
  }

  /** A key with a value stays at its position through edits. */
  lemma KeptPosition<V>(s: Parts<V>, t: Parts<V>, k: Key, p: int)
    requires Edited(s, t) && UniqueKeys(s.nodes) && Separate(s.arr, s.nodes) && UniqueKeys(t.nodes)
    requires Lookup(t.arr, t.nodes, k).Some?
    requires 0 <= p < Size(s) && (p >= |s.arr| ==> s.nodes[p - |s.arr|].key == Live(k)) && KeyAt(s, p) == k
    ensures Size(t) == Size(s) && ValueAt(t, p) == Lookup(t.arr, t.nodes, k)
    ensures (p >= |t.arr| ==> t.nodes[p - |t.arr|].key == Live(k)) && KeyAt(t, p) == k
  {
    hide Edited, UniqueKeys, Separate, Lookup;
    EditedSize(s, t);
    var q := PositionOf(t, k);
    SamePosition(s, t, p, q);
  }

  // ------------------------------------------------------- in the course of one

  /** Edits keep what a traversal needs of a table. */
  ghost predicate Sound<V>(h: (Key, int) -> int, rank: seq<real>, s: Parts<V>) {
    Scatter(h, s.nodes, rank) && Separate(s.arr, s.nodes)
  }

  /** A traversal that has not come to its end: every step returned an entry. */
  ghost predicate SoFar<V>(h: (Key, int) -> int, rank: seq<real>, states: seq<Parts<V>>, steps: seq<Step<V>>,
      visits: seq<int>) {
    && |states| == |steps| == |visits|
    && (forall t :: 0 <= t < |steps| ==> steps[t].Entry?)
    && (forall t :: 0 <= t < |states| ==> Sound(h, rank, states[t]))
    && (forall t, u :: 0 <= t && u == t + 1 && u < |states| ==> Edited(states[t], states[u]))
    && (forall t :: 0 <= t < |visits| ==> Returned(h, rank, states, steps, visits, t))
  }

  /** The table that the next step sees, and where that step starts. */
  ghost predicate Ready<V>(h: (Key, int) -> int, rank: seq<real>, states: seq<Parts<V>>, steps: seq<Step<V>>,
      visits: seq<int>, s: Parts<V>, at: int) {
    && |states| == |steps| == |visits|
    && if states == [] then at == -1 else
         Edited(states[|states| - 1], s) && at == visits[|visits| - 1] && steps[|steps| - 1].Entry? &&
         IsIndex(h, s, rank, steps[|steps| - 1].key, at)
  }

  lemma NothingReturned<V>(h: (Key, int) -> int, rank: seq<real>, s: Parts<V>)
    ensures SoFar<V>(h, rank, [], [], []) && Ready(h, rank, [], [], [], s, -1)
  {
  }

  /** One more step, which returned an entry or came to the end. */
  lemma OneMoreStep<V>(h: (Key, int) -> int, rank: seq<real>, states: seq<Parts<V>>, steps: seq<Step<V>>,
      visits: seq<int>,
                       s: Parts<V>, at: int, r: Step<V>, p: int)
    requires SoFar(h, rank, states, steps, visits) && Ready(h, rank, states, steps, visits, s, at) && Sound(h, rank, s)
    requires StepsTo(s, at, r, p)
    ensures r.Entry? ==> SoFar(h, rank, states + [s], steps + [r], visits + [p])
    ensures r.Done? ==> Traversal(h, rank, states + [s], steps + [r], visits + [p])
  {
    var n := |states|;
    var states', steps', visits' := states + [s], steps + [r], visits + [p];
    hide Edited, StepsTo, IsIndex;
    forall t | 0 <= t < n ensures Returned(h, rank, states', steps', visits', t) {
      assert Returned(h, rank, states, steps, visits, t);
      var i :| StepsTo(states[t], i, steps[t], visits[t]) &&
        if t == 0 then i == -1 else steps[t - 1].Entry? && IsIndex(h, states[t], rank, steps[t - 1].key, i);
      assert StepsTo(states'[t], i, steps'[t], visits'[t]);
    }
    assert StepsTo(states'[n], at, steps'[n], visits'[n]);
    assert Returned(h, rank, states', steps', visits', n);
    hide Scatter, Separate, Returned;
    forall t | 0 <= t < n + 1 ensures Sound(h, rank, states'[t]) && Returned(h, rank, states', steps', visits', t) {}
    forall t, u | 0 <= t && u == t + 1 && u < n + 1 ensures Edited(states'[t], states'[u]) {}
  }

  /** After edits the key of the entry is still found where it was. */
  lemma ReadyAgain<V>(h: (Key, int) -> int, rank: seq<real>, states: seq<Parts<V>>, steps: seq<Step<V>>,
      visits: seq<int>,
                      s: Parts<V>, at: int, r: Step<V>, p: int, t: Parts<V>)
    requires |states| == |steps| == |visits| && Sound(h, rank, s) && StepsTo(s, at, r, p) && r.Entry? && Edited(s, t)
    ensures Ready(h, rank, states + [s], steps + [r], visits + [p], t, p)
  {
    hide StepsTo, Scatter, Separate, Edited, IsIndex;
    StepEntry(s, at, r, p);
    StepFinds(h, s, t, rank, p);
  }

  /** The start is the only index of the last key. */
  lemma OnlyStart<V>(h: (Key, int) -> int, rank: seq<real>, states: seq<Parts<V>>, steps: seq<Step<V>>,
      visits: seq<int>, s: Parts<V>, at: int, i: int)
    requires Ready(h, rank, states, steps, visits, s, at)
    requires if states == [] then i == -1 else IsIndex(h, s, rank, steps[|steps| - 1].key, i)
    ensures i == at
  {
    hide IsIndex, Edited;
    if states != [] { IndexUnique(h, s, rank, steps[|steps| - 1].key, i, at); }
  }

  /** A key that always has a value is returned exactly once, with the value it has then. */
  ghost predicate VisitedOnce<V>(states: seq<Parts<V>>, out: seq<(Key, V)>, k: Key)
    requires |states| == |out| + 1
  {
    exists t :: 0 <= t < |out| && out[t].0 == k && Lookup(states[t].arr, states[t].nodes, k) == Some(out[t].1)
      && forall u :: 0 <= u < |out| && out[u].0 == k ==> u == t
  }

  ghost predicate Stays<V>(states: seq<Parts<V>>, k: Key) {
    forall t :: 0 <= t < |states| ==> Lookup(states[t].arr, states[t].nodes, k).Some?
  }

  function Entries<V>(out: seq<(Key, V)>): seq<Step<V>> {
    seq(|out|, i requires 0 <= i < |out| => Entry(out[i].0, out[i].1))
  }

  lemma VisitsAll<V>(h: (Key, int) -> int, rank: seq<real>, states: seq<Parts<V>>, visits: seq<int>, out: seq<(Key, V)>)
    requires Traversal(h, rank, states, Entries(out) + [Done], visits)
    ensures |states| == |out| + 1 && |out| <= Size(states[0])
    ensures forall k :: Stays(states, k) ==> VisitedOnce(states, out, k)
  {
    var steps := Entries(out) + [Done];
    TraversalSizes(h, rank, states, steps, visits);
    TraversalStops(h, rank, states, steps, visits, |out|);
    forall k | Stays(states, k) ensures VisitedOnce(states, out, k) {
      hide Traversal;
      var t := TraversalVisits(h, rank, states, steps, visits, k);
      hide Lookup;
      assert steps[t] == Entry(out[t].0, out[t].1);
      forall u | 0 <= u < |out| && out[u].0 == k ensures u == t { assert steps[u].Entry? && steps[u].key == k; }
    }
  }

  lemma TraversalSizes<V>(h: (Key, int) -> int, rank: seq<real>, states: seq<Parts<V>>, steps: seq<Step<V>>,
      visits: seq<int>)
    requires Traversal(h, rank, states, steps, visits)
    ensures |states| == |steps| == |visits| > 0
  {
    hide Returned, Edited;
  }
}
