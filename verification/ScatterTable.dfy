/** The hash part of a table: a chained scatter table with Brent's variation. */
module ScatterTable {
  import opened Common

  /** Keys that are (small) integers, and all other keys. */
  datatype Key = Int(n: int) | Other(id: int)

  /** A key whose entry is nil may be marked dead by the collector; it stays in its chain. */
  datatype KeySlot = NoKey | Live(key: Key) | Dead(key: Key)

  /** `next` is the position of the next node of the chain, or -1. */
  datatype Node<+V> = Node(key: KeySlot, val: Option<V>, next: int)

  function FreeNode<V>(): Node<V> { Node(NoKey, None, -1) }

  /** Chains run along increasing ranks. */
  ghost predicate Chained<V>(nodes: seq<Node<V>>, rank: seq<real>) {
    && |rank| == |nodes|
    && (forall i :: 0 <= i < |nodes| && nodes[i].next != -1 ==>
          0 <= nodes[i].next < |nodes| && rank[i] < rank[nodes[i].next])
    && (forall i, j :: 0 <= i < j < |nodes| && nodes[i].next != -1 ==> nodes[i].next != nodes[j].next)
  }

  ghost function Above(rank: seq<real>, i: int): (r: set<int>)
    requires 0 <= i < |rank|
  {
    set k | 0 <= k < |rank| && rank[k] > rank[i]
  }

  /** Node `j` is on the chain that starts at node `i`. */
  ghost predicate OnPath<V>(nodes: seq<Node<V>>, rank: seq<real>, i: int, j: int)
    requires Chained(nodes, rank) && 0 <= i < |nodes|
    decreases Above(rank, i)
  {
    i == j || (nodes[i].next != -1 &&
               (NextIsAbove(nodes, rank, i); OnPath(nodes, rank, nodes[i].next, j)))
  }

  lemma NextIsAbove<V>(nodes: seq<Node<V>>, rank: seq<real>, i: int)
    requires Chained(nodes, rank) && 0 <= i < |nodes| && nodes[i].next != -1
    ensures Above(rank, nodes[i].next) < Above(rank, i)
  {
    assert nodes[i].next in Above(rank, i);
  }

  ghost predicate Used<V>(nodes: seq<Node<V>>, j: int) {
    0 <= j < |nodes| && nodes[j].key != NoKey
  }

  ghost predicate Hashes<V>(h: (Key, int) -> int, nodes: seq<Node<V>>) {
    forall k :: 0 <= h(k, |nodes|) < |nodes|
  }

  /** Free nodes are empty and outside all chains. */
  ghost predicate FreeOk<V>(nodes: seq<Node<V>>) {
    && (forall j :: 0 <= j < |nodes| && nodes[j].key == NoKey ==> nodes[j] == FreeNode())
    && (forall i :: 0 <= i < |nodes| && nodes[i].next != -1 ==> Used(nodes, nodes[i].next))
    && (forall j :: 0 <= j < |nodes| && nodes[j].key.Dead? ==> nodes[j].val.None?)
  }

  /** Every stored key is on the chain of its main position. */
  ghost predicate PathsOk<V>(h: (Key, int) -> int, nodes: seq<Node<V>>, rank: seq<real>)
    requires Hashes(h, nodes) && Chained(nodes, rank)
  {
    forall j :: Used(nodes, j) ==> OnPath(nodes, rank, h(nodes[j].key.key, |nodes|), j)
  }

  /** The node at the main position of a stored key holds a key in its own main
      position; so a node with a key out of place is nobody's main position. */
  ghost predicate MainOk<V>(h: (Key, int) -> int, nodes: seq<Node<V>>)
    requires Hashes(h, nodes)
  {
    forall j :: Used(nodes, j) ==>
      var mp := h(nodes[j].key.key, |nodes|);
      nodes[mp].key != NoKey && h(nodes[mp].key.key, |nodes|) == mp
  }

  ghost predicate UniqueKeys<V>(nodes: seq<Node<V>>) {
    forall i, j :: 0 <= i < j < |nodes| && nodes[i].key.Live? ==> nodes[i].key != nodes[j].key
  }

  /** A dead copy of a live key comes later in the chain. */
  ghost predicate DeadLater<V>(nodes: seq<Node<V>>, rank: seq<real>)
    requires Chained(nodes, rank)
  {
    forall i, j :: 0 <= i < |nodes| && 0 <= j < |nodes| && nodes[i].key.Live?
                   && nodes[j].key == Dead(nodes[i].key.key) ==>
      OnPath(nodes, rank, i, j)
  }

  ghost predicate Scatter<V>(h: (Key, int) -> int, nodes: seq<Node<V>>, rank: seq<real>) {
    && Hashes(h, nodes) && Chained(nodes, rank) && FreeOk(nodes)
    && PathsOk(h, nodes, rank) && MainOk(h, nodes) && UniqueKeys(nodes) && DeadLater(nodes, rank)
  }

  ghost predicate HasLive<V>(nodes: seq<Node<V>>, k: Key) {
    exists j :: 0 <= j < |nodes| && nodes[j].key == Live(k)
  }

  // ------------------------------------------------------------ insertion

  /** The key takes over a node whose entry is nil. */
  function InsertInPlace<V>(nodes: seq<Node<V>>, mp: int, k: Key): (r: seq<Node<V>>)
    requires 0 <= mp < |nodes|
  {
    nodes[mp := nodes[mp].(key := Live(k))]
  }

  /** The key goes to the free node `n`, chained right after `mp`. */
  function InsertAfter<V>(nodes: seq<Node<V>>, mp: int, n: int, k: Key): (r: seq<Node<V>>)
    requires 0 <= mp < |nodes| && 0 <= n < |nodes|
  {
    nodes[n := Node(Live(k), None, nodes[mp].next)][mp := nodes[mp].(next := n)]
  }

  /** The key takes node `mp`, whose old contents move to the free node `n`. */
  function InsertMoving<V>(nodes: seq<Node<V>>, mp: int, prev: int, n: int, k: Key): (r: seq<Node<V>>)
    requires 0 <= mp < |nodes| && 0 <= n < |nodes| && 0 <= prev < |nodes|
  {
    nodes[prev := nodes[prev].(next := n)][n := nodes[mp]][mp := Node(Live(k), None, -1)]
  }

  lemma InPlaceKeepsPaths<V>(nodes: seq<Node<V>>, rank: seq<real>, mp: int, k: Key, i: int, j: int)
    requires Chained(nodes, rank) && 0 <= mp < |nodes| && 0 <= i < |nodes|
    ensures Chained(InsertInPlace(nodes, mp, k), rank)
    ensures OnPath(InsertInPlace(nodes, mp, k), rank, i, j) <==> OnPath(nodes, rank, i, j)
    decreases Above(rank, i)
  {
    if nodes[i].next != -1 {
      NextIsAbove(nodes, rank, i);
      InPlaceKeepsPaths(nodes, rank, mp, k, nodes[i].next, j);
    }
  }

  lemma InPlaceScatter<V>(h: (Key, int) -> int, nodes: seq<Node<V>>, rank: seq<real>, k: Key)
    requires Scatter(h, nodes, rank) && !HasLive(nodes, k)
    requires nodes[h(k, |nodes|)].val.None?
    ensures Scatter(h, InsertInPlace(nodes, h(k, |nodes|), k), rank)
  {
    InPlaceKeepsPaths(nodes, rank, h(k, |nodes|), k, h(k, |nodes|), h(k, |nodes|));
    InPlacePaths(h, nodes, rank, k);
    hide PathsOk, DeadLater, OnPath, Chained;
    var r := InsertInPlace(nodes, h(k, |nodes|), k);
    assert FreeOk(r) && MainOk(h, r) by {
      hide UniqueKeys;
      assert forall j :: Used(r, j) <==> Used(nodes, j) || j == h(k, |nodes|);
    }
  }

  lemma InPlacePaths<V>(h: (Key, int) -> int, nodes: seq<Node<V>>, rank: seq<real>, k: Key)
    requires Hashes(h, nodes) && Chained(nodes, rank) && PathsOk(h, nodes, rank) && DeadLater(nodes, rank)
    requires Chained(InsertInPlace(nodes, h(k, |nodes|), k), rank) && nodes[h(k, |nodes|)].val.None?
    ensures PathsOk(h, InsertInPlace(nodes, h(k, |nodes|), k), rank)
            && DeadLater(InsertInPlace(nodes, h(k, |nodes|), k), rank)
  {
    var mp := h(k, |nodes|);
    var r := InsertInPlace(nodes, mp, k);
    forall j | Used(r, j) ensures OnPath(r, rank, h(r[j].key.key, |nodes|), j) {
      InPlaceKeepsPaths(nodes, rank, mp, k, h(r[j].key.key, |nodes|), j);
      assert j != mp ==> Used(nodes, j);
    }
    forall i, j | 0 <= i < |r| && 0 <= j < |r| && r[i].key.Live?
    && r[j].key == Dead(r[i].key.key) ensures OnPath(r, rank, i, j) {
      InPlaceKeepsPaths(nodes, rank, mp, k, i, j);
      if i == mp { assert Used(nodes, j); }
    }
  }

  /** A rank strictly between a node and its successor. */
  ghost function RankAfter<V>(nodes: seq<Node<V>>, rank: seq<real>, mp: int): (x: real)
    requires Chained(nodes, rank) && 0 <= mp < |nodes|
    ensures rank[mp] < x && (nodes[mp].next != -1 ==> x < rank[nodes[mp].next])
  {
    if nodes[mp].next == -1 then rank[mp] + 1.0 else (rank[mp] + rank[nodes[mp].next]) / 2.0
  }

  lemma AfterChained<V>(nodes: seq<Node<V>>, rank: seq<real>, mp: int, n: int, k: Key)
    requires Chained(nodes, rank) && FreeOk(nodes)
    requires 0 <= mp < |nodes| && 0 <= n < |nodes| && n != mp && nodes[n].key == NoKey
    ensures Chained(InsertAfter(nodes, mp, n, k), rank[n := RankAfter(nodes, rank, mp)])
  {
    var r := InsertAfter(nodes, mp, n, k);
    forall i | 0 <= i < |nodes| && nodes[i].next != -1 ensures nodes[i].next != n {
      assert Used(nodes, nodes[i].next);
    }
  }

  lemma {:induction false} AfterKeepsPaths<V>(nodes: seq<Node<V>>, rank: seq<real>, mp: int, n: int, k: Key, i: int,
      j: int)
    requires Chained(nodes, rank) && FreeOk(nodes)
    requires 0 <= mp < |nodes| && 0 <= n < |nodes| && n != mp && nodes[n].key == NoKey
    requires 0 <= i < |nodes| && i != n
    requires Chained(InsertAfter(nodes, mp, n, k), rank[n := RankAfter(nodes, rank, mp)])
    ensures OnPath(nodes, rank, i, j) ==>
              OnPath(InsertAfter(nodes, mp, n, k), rank[n := RankAfter(nodes, rank, mp)], i, j)
    decreases Above(rank, i)
  {
    var r, rank' := InsertAfter(nodes, mp, n, k), rank[n := RankAfter(nodes, rank, mp)];
    if i != j && OnPath(nodes, rank, i, j) {
      NextIsAbove(nodes, rank, i);
      assert Used(nodes, nodes[i].next);
      AfterKeepsPaths(nodes, rank, mp, n, k, nodes[i].next, j);
      if i == mp {
        assert r[n].next == nodes[mp].next;
        assert OnPath(r, rank', n, j);
      }
    }
  }

  lemma AfterScatter<V>(h: (Key, int) -> int, nodes: seq<Node<V>>, rank: seq<real>, n: int, k: Key)
    requires Scatter(h, nodes, rank) && !HasLive(nodes, k)
    requires 0 <= n < |nodes| && nodes[n].key == NoKey
    requires nodes[h(k, |nodes|)].val.Some? && h(nodes[h(k, |nodes|)].key.key, |nodes|) == h(k, |nodes|)
    ensures Scatter(h, InsertAfter(nodes, h(k, |nodes|), n, k), rank[n := RankAfter(nodes, rank, h(k, |nodes|))])
  {
    var mp := h(k, |nodes|);
    var r, rank' := InsertAfter(nodes, mp, n, k), rank[n := RankAfter(nodes, rank, mp)];
    AfterChained(nodes, rank, mp, n, k);
    AfterPaths(h, nodes, rank, n, k);
    hide PathsOk, DeadLater, OnPath, Chained;
    AfterFree(nodes, mp, n, k);
    AfterKeys(h, nodes, n, k);
  }

  lemma AfterFree<V>(nodes: seq<Node<V>>, mp: int, n: int, k: Key)
    requires FreeOk(nodes) && 0 <= mp < |nodes| && 0 <= n < |nodes| && n != mp && nodes[mp].key != NoKey
    ensures FreeOk(InsertAfter(nodes, mp, n, k))
  {
    var r := InsertAfter(nodes, mp, n, k);
    forall i | 0 <= i < |r| && r[i].next != -1 ensures Used(r, r[i].next) {
      if i == n && nodes[mp].next != -1 { assert Used(nodes, nodes[mp].next); }
      else if i != mp && i != n { assert Used(nodes, nodes[i].next); }
    }
  }

  lemma AfterKeys<V>(h: (Key, int) -> int, nodes: seq<Node<V>>, n: int, k: Key)
    requires Hashes(h, nodes) && MainOk(h, nodes) && UniqueKeys(nodes) && !HasLive(nodes, k)
    requires 0 <= n < |nodes| && nodes[n].key == NoKey
    requires nodes[h(k, |nodes|)].key != NoKey && h(nodes[h(k, |nodes|)].key.key, |nodes|) == h(k, |nodes|)
    ensures MainOk(h, InsertAfter(nodes, h(k, |nodes|), n, k)) && UniqueKeys(InsertAfter(nodes, h(k, |nodes|), n, k))
  {
    var r := InsertAfter(nodes, h(k, |nodes|), n, k);
    forall j | Used(r, j) ensures r[h(r[j].key.key, |nodes|)].key != NoKey
    && h(r[h(r[j].key.key, |nodes|)].key.key, |nodes|) == h(r[j].key.key, |nodes|) {
      if j != n { assert Used(nodes, j); }
    }
    forall i, j | 0 <= i < j < |r| && r[i].key.Live? ensures r[i].key != r[j].key {}
  }

  lemma AfterPaths<V>(h: (Key, int) -> int, nodes: seq<Node<V>>, rank: seq<real>, n: int, k: Key)
    requires Scatter(h, nodes, rank) && !HasLive(nodes, k)
    requires 0 <= n < |nodes| && nodes[n].key == NoKey && h(k, |nodes|) != n
    requires nodes[h(k, |nodes|)].val.Some? && h(nodes[h(k, |nodes|)].key.key, |nodes|) == h(k, |nodes|)
    requires Chained(InsertAfter(nodes, h(k, |nodes|), n, k), rank[n := RankAfter(nodes, rank, h(k, |nodes|))])
    ensures PathsOk(h, InsertAfter(nodes, h(k, |nodes|), n, k), rank[n := RankAfter(nodes, rank, h(k, |nodes|))])
    ensures DeadLater(InsertAfter(nodes, h(k, |nodes|), n, k), rank[n := RankAfter(nodes, rank, h(k, |nodes|))])
  {
    var mp := h(k, |nodes|);
    var r, rank' := InsertAfter(nodes, mp, n, k), rank[n := RankAfter(nodes, rank, mp)];
    forall j | Used(r, j) ensures OnPath(r, rank', h(r[j].key.key, |nodes|), j) {
      if j == n {
        assert r[mp].next == n && OnPath(r, rank', n, n);
      } else {
        assert Used(nodes, j) && nodes[h(nodes[j].key.key, |nodes|)].key != NoKey;
        AfterKeepsPaths(nodes, rank, mp, n, k, h(nodes[j].key.key, |nodes|), j);
      }
    }
    forall i, j | 0 <= i < |r| && 0 <= j < |r| && r[i].key.Live?
    && r[j].key == Dead(r[i].key.key) ensures OnPath(r, rank', i, j) {
      assert j != n && Used(nodes, j);
      if i == n {
        AfterKeepsPaths(nodes, rank, mp, n, k, mp, j);
        assert OnPath(r, rank', mp, j) && j != mp && r[mp].next == n;
      } else {
        AfterKeepsPaths(nodes, rank, mp, n, k, i, j);
      }
    }
  }

  // ------------------------------------- a colliding node out of its place

  /** What holds when the colliding node `mp` moves to the free node `n`. */
  ghost predicate Moving<V>(nodes: seq<Node<V>>, rank: seq<real>, mp: int, prev: int, n: int) {
    && Chained(nodes, rank) && FreeOk(nodes)
    && 0 <= mp < |nodes| && 0 <= n < |nodes| && 0 <= prev < |nodes|
    && nodes[n].key == NoKey && nodes[mp].key != NoKey && nodes[prev].next == mp
  }

  lemma MovingChained<V>(nodes: seq<Node<V>>, rank: seq<real>, mp: int, prev: int, n: int, k: Key)
    requires Moving(nodes, rank, mp, prev, n)
    ensures prev != n && prev != mp && n != mp
    ensures Chained(InsertMoving(nodes, mp, prev, n, k), rank[n := rank[mp]])
  {
    var r := InsertMoving(nodes, mp, prev, n, k);
    forall i | 0 <= i < |nodes| && nodes[i].next != -1 ensures nodes[i].next != n {
      assert Used(nodes, nodes[i].next);
    }
  }

  function Moved(j: int, mp: int, n: int): int {
    if j == mp then n else j
  }

  lemma {:induction false} MovingKeepsPaths<V>(nodes: seq<Node<V>>, rank: seq<real>, mp: int, prev: int, n: int, k: Key,
      i: int, j: int)
    requires Moving(nodes, rank, mp, prev, n) && prev != n && prev != mp && n != mp
    requires Chained(InsertMoving(nodes, mp, prev, n, k), rank[n := rank[mp]])
    requires 0 <= i < |nodes| && i != n && OnPath(nodes, rank, i, j)
    ensures OnPath(InsertMoving(nodes, mp, prev, n, k), rank[n := rank[mp]], Moved(i, mp, n), Moved(j, mp, n))
    decreases Above(rank, i)
  {
    if i != j {
      NextIsAbove(nodes, rank, i);
      assert Used(nodes, nodes[i].next);
      MovingKeepsPaths(nodes, rank, mp, prev, n, k, nodes[i].next, j);
      MovingNext(nodes, rank, mp, prev, n, k, i);
    }
  }

  /** Successors are preserved, up to the move. */
  lemma MovingNext<V>(nodes: seq<Node<V>>, rank: seq<real>, mp: int, prev: int, n: int, k: Key, i: int)
    requires Moving(nodes, rank, mp, prev, n) && prev != n && prev != mp && n != mp
    requires 0 <= i < |nodes| && i != n && nodes[i].next != -1
    ensures InsertMoving(nodes, mp, prev, n, k)[Moved(i, mp, n)].next == Moved(nodes[i].next, mp, n)
  {
  }

  lemma MovingScatter<V>(h: (Key, int) -> int, nodes: seq<Node<V>>, rank: seq<real>, prev: int, n: int, k: Key)
    requires Scatter(h, nodes, rank) && !HasLive(nodes, k)
    requires Moving(nodes, rank, h(k, |nodes|), prev, n)
    requires nodes[h(k, |nodes|)].val.Some? && h(nodes[h(k, |nodes|)].key.key, |nodes|) != h(k, |nodes|)
    ensures Scatter(h, InsertMoving(nodes, h(k, |nodes|), prev, n, k), rank[n := rank[h(k, |nodes|)]])
  {
    var mp := h(k, |nodes|);
    MovingChained(nodes, rank, mp, prev, n, k);
    MovingPaths(h, nodes, rank, prev, n, k);
    hide PathsOk, DeadLater, OnPath;
    MovingFree(nodes, rank, mp, prev, n, k);
    hide Chained;
    MovingKeys(h, nodes, prev, n, k);
  }

  lemma MovingFree<V>(nodes: seq<Node<V>>, rank: seq<real>, mp: int, prev: int, n: int, k: Key)
    requires Moving(nodes, rank, mp, prev, n) && prev != n && prev != mp && n != mp
    ensures FreeOk(InsertMoving(nodes, mp, prev, n, k))
  {
    var r := InsertMoving(nodes, mp, prev, n, k);
    forall i | 0 <= i < |r| && r[i].next != -1 ensures Used(r, r[i].next) {
      if i == n { assert Used(nodes, nodes[mp].next); }
      else if i != prev { assert Used(nodes, nodes[i].next); }
    }
  }

  lemma MovingKeys<V>(h: (Key, int) -> int, nodes: seq<Node<V>>, prev: int, n: int, k: Key)
    requires Hashes(h, nodes) && MainOk(h, nodes) && UniqueKeys(nodes) && !HasLive(nodes, k)
    requires 0 <= n < |nodes| && 0 <= prev < |nodes| && prev != n && prev != h(k, |nodes|) && n != h(k, |nodes|)
    requires nodes[n].key == NoKey && nodes[h(k, |nodes|)].key != NoKey
             && h(nodes[h(k, |nodes|)].key.key, |nodes|) != h(k, |nodes|)
    ensures MainOk(h, InsertMoving(nodes, h(k, |nodes|), prev, n, k))
            && UniqueKeys(InsertMoving(nodes, h(k, |nodes|), prev, n, k))
  {
    var mp := h(k, |nodes|);
    var r := InsertMoving(nodes, mp, prev, n, k);
    forall j | Used(r, j) ensures r[h(r[j].key.key, |nodes|)].key != NoKey
    && h(r[h(r[j].key.key, |nodes|)].key.key, |nodes|) == h(r[j].key.key, |nodes|) {
      if j != mp {
        assert Used(nodes, if j == n then mp else j);
      }
    }
    forall i, j | 0 <= i < j < |r| && r[i].key.Live? ensures r[i].key != r[j].key {
      var i', j' := if i == n then mp else i, if j == n then mp else j;
      assert i != mp ==> r[i].key == nodes[i'].key;
      assert j != mp ==> r[j].key == nodes[j'].key;
    }
  }

  lemma MovingPaths<V>(h: (Key, int) -> int, nodes: seq<Node<V>>, rank: seq<real>, prev: int, n: int, k: Key)
    requires Hashes(h, nodes) && Chained(nodes, rank) && PathsOk(h, nodes, rank) && DeadLater(nodes, rank)
             && MainOk(h, nodes)
    requires Moving(nodes, rank, h(k, |nodes|), prev, n) && prev != n && prev != h(k, |nodes|) && n != h(k, |nodes|)
    requires nodes[h(k, |nodes|)].val.Some? && h(nodes[h(k, |nodes|)].key.key, |nodes|) != h(k, |nodes|)
             && !HasLive(nodes, k)
    requires Chained(InsertMoving(nodes, h(k, |nodes|), prev, n, k), rank[n := rank[h(k, |nodes|)]])
    ensures PathsOk(h, InsertMoving(nodes, h(k, |nodes|), prev, n, k), rank[n := rank[h(k, |nodes|)]])
    ensures DeadLater(InsertMoving(nodes, h(k, |nodes|), prev, n, k), rank[n := rank[h(k, |nodes|)]])
  {
    var mp := h(k, |nodes|);
    var r, rank' := InsertMoving(nodes, mp, prev, n, k), rank[n := rank[mp]];
    MovingPathsOk(h, nodes, rank, prev, n, k);
    hide PathsOk;
    forall i, j | 0 <= i < |r| && 0 <= j < |r| && r[i].key.Live? && r[j].key == Dead(r[i].key.key)
      ensures OnPath(r, rank', i, j)
    {
      var i' := if i == n then mp else i;
      assert j != mp && j != n;
      assert Used(nodes, j) && nodes[h(nodes[j].key.key, |nodes|)].key != NoKey;
      assert i != mp;
      MovingKeepsPaths(nodes, rank, mp, prev, n, k, i', j);
    }
  }

  lemma MovingPathsOk<V>(h: (Key, int) -> int, nodes: seq<Node<V>>, rank: seq<real>, prev: int, n: int, k: Key)
    requires Hashes(h, nodes) && Chained(nodes, rank) && PathsOk(h, nodes, rank) && MainOk(h, nodes)
    requires Moving(nodes, rank, h(k, |nodes|), prev, n) && prev != n && prev != h(k, |nodes|) && n != h(k, |nodes|)
    requires nodes[h(k, |nodes|)].val.Some? && h(nodes[h(k, |nodes|)].key.key, |nodes|) != h(k, |nodes|)
    requires Chained(InsertMoving(nodes, h(k, |nodes|), prev, n, k), rank[n := rank[h(k, |nodes|)]])
    ensures PathsOk(h, InsertMoving(nodes, h(k, |nodes|), prev, n, k), rank[n := rank[h(k, |nodes|)]])
  {
    var mp := h(k, |nodes|);
    var r, rank' := InsertMoving(nodes, mp, prev, n, k), rank[n := rank[mp]];
    forall j | Used(r, j) && j != mp ensures OnPath(r, rank', h(r[j].key.key, |nodes|), j) {
      var j' := if j == n then mp else j;
      assert Used(nodes, j') && h(nodes[j'].key.key, |nodes|) != mp;
      MovingKeepsPaths(nodes, rank, mp, prev, n, k, h(nodes[j'].key.key, |nodes|), j');
    }
  }

  // ---------------------------------------------------------- other updates

  /** An empty hash part. */
  function FreshNodes<V>(size: nat): (r: seq<Node<V>>)
    ensures |r| == size && forall i :: 0 <= i < size ==> r[i] == FreeNode()
  {
    seq(size, i => FreeNode())
  }

  lemma FreshScatter<V>(h: (Key, int) -> int, size: nat)
    requires Hashes(h, FreshNodes<V>(size))
    ensures Scatter(h, FreshNodes<V>(size), seq(size, i => 0.0))
  {
  }

  /** Storing a value, or marking the key of an empty entry dead, moves no node. */
  ghost predicate SameChains<V>(nodes: seq<Node<V>>, r: seq<Node<V>>) {
    && |r| == |nodes|
    && forall j :: 0 <= j < |r| ==>
         && r[j].next == nodes[j].next
         && (r[j].key == nodes[j].key ||
             (nodes[j].key.Live? && r[j].key == Dead(nodes[j].key.key) && r[j].val.None?))
         && (r[j].val == nodes[j].val || nodes[j].key.Live?)
  }

  lemma {:induction false} SameChainsPath<V>(nodes: seq<Node<V>>, r: seq<Node<V>>, rank: seq<real>, i: int, j: int)
    requires SameChains(nodes, r) && Chained(nodes, rank) && 0 <= i < |nodes|
    ensures Chained(r, rank) && (OnPath(r, rank, i, j) <==> OnPath(nodes, rank, i, j))
    decreases Above(rank, i)
  {
    if nodes[i].next != -1 {
      NextIsAbove(nodes, rank, i);
      SameChainsPath(nodes, r, rank, nodes[i].next, j);
    }
  }

  lemma SameChainsScatter<V>(h: (Key, int) -> int, nodes: seq<Node<V>>, r: seq<Node<V>>, rank: seq<real>)
    requires Scatter(h, nodes, rank) && SameChains(nodes, r)
    ensures Scatter(h, r, rank)
  {
    SameChainsChained(nodes, r, rank);
    SameChainsPathsOk(h, nodes, r, rank);
    SameChainsDeadLater(nodes, r, rank);
    hide PathsOk, DeadLater, OnPath, Chained;
    SameChainsKeys(h, nodes, r);
  }

  lemma SameChainsChained<V>(nodes: seq<Node<V>>, r: seq<Node<V>>, rank: seq<real>)
    requires SameChains(nodes, r) && Chained(nodes, rank)
    ensures Chained(r, rank)
  {
  }

  lemma SameChainsKeys<V>(h: (Key, int) -> int, nodes: seq<Node<V>>, r: seq<Node<V>>)
    requires SameChains(nodes, r) && Hashes(h, nodes) && FreeOk(nodes) && MainOk(h, nodes) && UniqueKeys(nodes)
    ensures Hashes(h, r) && FreeOk(r) && MainOk(h, r) && UniqueKeys(r)
  {
    forall j | Used(r, j) ensures r[h(r[j].key.key, |nodes|)].key != NoKey
    && h(r[h(r[j].key.key, |nodes|)].key.key, |nodes|) == h(r[j].key.key, |nodes|) {
      assert Used(nodes, j);
    }
    forall i | 0 <= i < |r| && r[i].next != -1 ensures Used(r, r[i].next) { assert Used(nodes, nodes[i].next); }
  }

  lemma SameChainsPathsOk<V>(h: (Key, int) -> int, nodes: seq<Node<V>>, r: seq<Node<V>>, rank: seq<real>)
    requires SameChains(nodes, r) && Hashes(h, nodes) && Chained(nodes, rank) && PathsOk(h, nodes, rank)
    requires Chained(r, rank)
    ensures PathsOk(h, r, rank)
  {
    forall j | Used(r, j) ensures OnPath(r, rank, h(r[j].key.key, |nodes|), j) {
      assert Used(nodes, j);
      SameChainsPath(nodes, r, rank, h(r[j].key.key, |nodes|), j);
    }
  }

  lemma SameChainsDeadLater<V>(nodes: seq<Node<V>>, r: seq<Node<V>>, rank: seq<real>)
    requires SameChains(nodes, r) && Chained(nodes, rank) && UniqueKeys(nodes) && DeadLater(nodes, rank)
    requires Chained(r, rank)
    ensures DeadLater(r, rank)
  {
    forall i, j | 0 <= i < |r| && 0 <= j < |r| && r[i].key.Live?
    && r[j].key == Dead(r[i].key.key) ensures OnPath(r, rank, i, j) {
      assert nodes[i].key == r[i].key;
      assert nodes[j].key == r[j].key by {
        if nodes[j].key.Live? { assert i != j && nodes[i].key != nodes[j].key; }
      }
      SameChainsPath(nodes, r, rank, i, j);
    }
  }

  // ---------------------------------------------------------------- counting

  ghost function LiveKeys<V>(nodes: seq<Node<V>>): (s: set<Key>)
    ensures forall k :: k in s <==> HasLive(nodes, k)
  {
    set j | 0 <= j < |nodes| && nodes[j].key.Live? :: nodes[j].key.key
  }

  ghost predicate NoDead<V>(nodes: seq<Node<V>>) {
    forall j :: 0 <= j < |nodes| ==> !nodes[j].key.Dead?
  }

  /** With fewer live keys than nodes, and no dead keys, some node is free. */
  lemma SomeFree<V>(nodes: seq<Node<V>>) returns (n: nat)
    requires NoDead(nodes) && UniqueKeys(nodes) && |LiveKeys(nodes)| < |nodes|
    ensures n < |nodes| && nodes[n].key == NoKey
  {
    if forall j :: 0 <= j < |nodes| ==> nodes[j].key.Live? {
      AllLiveCount(nodes);
      assert false;
    }
    n :| 0 <= n < |nodes| && !nodes[n].key.Live?;
  }

  lemma {:induction false} AllLiveCount<V>(nodes: seq<Node<V>>)
    requires UniqueKeys(nodes) && forall j :: 0 <= j < |nodes| ==> nodes[j].key.Live?
    ensures |LiveKeys(nodes)| == |nodes|
    decreases |nodes|
  {
    if |nodes| > 0 {
      var last := |nodes| - 1;
      var front := nodes[..last];
      AllLiveCount(front);
      var k := nodes[last].key.key;
      assert !HasLive(front, k);
      forall x ensures x in LiveKeys(nodes) <==> x in LiveKeys(front) || x == k {
        if HasLive(nodes, x) && x != k {
          var j :| 0 <= j < |nodes| && nodes[j].key == Live(x);
          assert front[j].key == Live(x);
        }
        if HasLive(front, x) {
          var j :| 0 <= j < |front| && front[j].key == Live(x);
          assert nodes[j].key == Live(x);
        }
        assert nodes[last].key == Live(k);
      }
      assert LiveKeys(nodes) == LiveKeys(front) + {k};
    }
  }
}
