/** A table as a finite map, over its array part and its hash part. */
module TableContents {
  import opened Common
  import opened Log2
  import opened ScatterTable
  import opened TableSizes

  predicate InRange(k: Key, n: int) {
    k.Int? && 1 <= k.n <= n
  }

  ghost function HashLookup<V>(nodes: seq<Node<V>>, k: Key): (v: Option<V>) {
    if HasLive(nodes, k) then var j :| 0 <= j < |nodes| && nodes[j].key == Live(k); nodes[j].val else None
  }

  /** The value of a key: from the array part if the key is in its range, else from the hash part. */
  ghost function Lookup<V>(arr: seq<Option<V>>, nodes: seq<Node<V>>, k: Key): (v: Option<V>) {
    if InRange(k, |arr|) then arr[k.n - 1] else HashLookup(nodes, k)
  }

  lemma HashLookupAt<V>(nodes: seq<Node<V>>, j: int)
    requires UniqueKeys(nodes) && 0 <= j < |nodes| && nodes[j].key.Live?
    ensures HashLookup(nodes, nodes[j].key.key) == nodes[j].val
  {
    var k := nodes[j].key.key;
    assert HasLive(nodes, k);
    forall i | 0 <= i < |nodes| && nodes[i].key == Live(k) ensures i == j {}
  }

  ghost function ArrayKeys<V>(arr: seq<Option<V>>): (s: set<Key>)
    ensures forall k :: k in s <==> InRange(k, |arr|) && arr[k.n - 1].Some?
  {
    set i | 1 <= i <= |arr| && arr[i - 1].Some? :: Int(i)
  }

  ghost function HashKeys<V>(nodes: seq<Node<V>>): (s: set<Key>) {
    set j | 0 <= j < |nodes| && nodes[j].key.Live? && nodes[j].val.Some? :: nodes[j].key.key
  }

  /** Integer keys of the array range are never live in the hash part. */
  ghost predicate Separate<V>(arr: seq<Option<V>>, nodes: seq<Node<V>>) {
    forall j :: 0 <= j < |nodes| && nodes[j].key.Live? ==> !InRange(nodes[j].key.key, |arr|)
  }

  /** The finite map a table stands for. */
  ghost function Contents<V>(arr: seq<Option<V>>, nodes: seq<Node<V>>): (m: map<Key, V>)
    ensures forall k :: k in m ==> Lookup(arr, nodes, k) == Some(m[k])
  {
    map k | k in ArrayKeys(arr) + HashKeys(nodes) && Lookup(arr, nodes, k).Some? :: Lookup(arr, nodes, k).value
  }

  lemma ContentsLookup<V>(arr: seq<Option<V>>, nodes: seq<Node<V>>, k: Key)
    ensures Lookup(arr, nodes, k).Some? <==> k in Contents(arr, nodes)
  {
    if Lookup(arr, nodes, k).Some? && !InRange(k, |arr|) {
      assert HasLive(nodes, k);
      var j :| 0 <= j < |nodes| && nodes[j].key == Live(k) && HashLookup(nodes, k) == nodes[j].val;
      assert k in HashKeys(nodes);
    }
  }

  lemma ContentsEqual<V>(arr: seq<Option<V>>, nodes: seq<Node<V>>, arr': seq<Option<V>>, nodes': seq<Node<V>>)
    requires forall k :: Lookup(arr, nodes, k) == Lookup(arr', nodes', k)
    ensures Contents(arr, nodes) == Contents(arr', nodes')
  {
    forall k ensures k in Contents(arr, nodes) <==> k in Contents(arr', nodes') {
      ContentsLookup(arr, nodes, k);
      ContentsLookup(arr', nodes', k);
    }
  }

  /** Changing the value of one key changes the map at that key. */
  lemma ContentsSet<V>(arr: seq<Option<V>>, nodes: seq<Node<V>>, arr': seq<Option<V>>, nodes': seq<Node<V>>, k: Key,
      v: Option<V>)
    requires Lookup(arr', nodes', k) == v
    requires forall x :: x != k ==> Lookup(arr', nodes', x) == Lookup(arr, nodes, x)
    ensures Contents(arr', nodes') == if v.Some? then Contents(arr, nodes)[k := v.value] else Contents(arr, nodes) - {k}
  {
    var m := if v.Some? then Contents(arr, nodes)[k := v.value] else Contents(arr, nodes) - {k};
    forall x ensures x in Contents(arr', nodes') <==> x in m {
      ContentsLookup(arr, nodes, x);
      ContentsLookup(arr', nodes', x);
    }
  }

  lemma ContentsKeys<V>(arr: seq<Option<V>>, nodes: seq<Node<V>>)
    requires UniqueKeys(nodes) && Separate(arr, nodes)
    ensures Contents(arr, nodes).Keys == ArrayKeys(arr) + HashKeys(nodes) && ArrayKeys(arr) !! HashKeys(nodes)
  {
    forall k | k in HashKeys(nodes) ensures k in Contents(arr, nodes) && k !in ArrayKeys(arr) {
      var j :| 0 <= j < |nodes| && nodes[j].key == Live(k) && nodes[j].val.Some?;
      HashLookupAt(nodes, j);
      ContentsLookup(arr, nodes, k);
    }
    forall k | k in ArrayKeys(arr) ensures k in Contents(arr, nodes) { ContentsLookup(arr, nodes, k); }
  }

  // --------------------------------------------- insertion and the contents

  lemma InPlaceLookup<V>(nodes: seq<Node<V>>, mp: int, k: Key, x: Key)
    requires 0 <= mp < |nodes| && nodes[mp].val.None?
    requires UniqueKeys(nodes) && UniqueKeys(InsertInPlace(nodes, mp, k)) && !HasLive(nodes, k)
    ensures HashLookup(InsertInPlace(nodes, mp, k), x) == HashLookup(nodes, x)
  {
    var r := InsertInPlace(nodes, mp, k);
    assert r[mp].key == Live(k);
    HashLookupAt(r, mp);
    if x != k {
      if HasLive(nodes, x) {
        var j :| 0 <= j < |nodes| && nodes[j].key == Live(x);
        HashLookupAt(nodes, j);
        if j != mp { HashLookupAt(r, j); } else { assert !HasLive(r, x); }
      } else {
        assert !HasLive(r, x);
      }
    }
  }

  lemma AfterLookup<V>(nodes: seq<Node<V>>, mp: int, n: int, k: Key, x: Key)
    requires 0 <= mp < |nodes| && 0 <= n < |nodes| && n != mp && nodes[n].key == NoKey
    requires UniqueKeys(nodes) && UniqueKeys(InsertAfter(nodes, mp, n, k)) && !HasLive(nodes, k)
    ensures HashLookup(InsertAfter(nodes, mp, n, k), x) == HashLookup(nodes, x)
  {
    var r := InsertAfter(nodes, mp, n, k);
    assert r[n].key == Live(k);
    HashLookupAt(r, n);
    if x != k {
      if HasLive(nodes, x) {
        var j :| 0 <= j < |nodes| && nodes[j].key == Live(x);
        HashLookupAt(nodes, j);
        assert r[j].key == nodes[j].key && r[j].val == nodes[j].val;
        HashLookupAt(r, j);
      } else {
        assert !HasLive(r, x);
      }
    }
  }

  lemma MovingLookup<V>(nodes: seq<Node<V>>, mp: int, prev: int, n: int, k: Key, x: Key)
    requires 0 <= mp < |nodes| && 0 <= n < |nodes| && 0 <= prev < |nodes|
    requires n != mp && prev != n && prev != mp && nodes[n].key == NoKey
    requires UniqueKeys(nodes) && UniqueKeys(InsertMoving(nodes, mp, prev, n, k)) && !HasLive(nodes, k)
    ensures HashLookup(InsertMoving(nodes, mp, prev, n, k), x) == HashLookup(nodes, x)
  {
    var r := InsertMoving(nodes, mp, prev, n, k);
    assert r[mp].key == Live(k);
    HashLookupAt(r, mp);
    if x != k {
      if HasLive(nodes, x) {
        var j :| 0 <= j < |nodes| && nodes[j].key == Live(x);
        HashLookupAt(nodes, j);
        var j' := Moved(j, mp, n);
        assert r[j'].key == nodes[j].key && r[j'].val == nodes[j].val;
        HashLookupAt(r, j');
      } else {
        assert !HasLive(r, x);
      }
    }
  }

  /** What a key insertion does to a hash part: the key is there, no value changes,
      and no node in use is given up. */
  ghost predicate Inserted<V>(nodes: seq<Node<V>>, r: seq<Node<V>>, j: int, k: Key) {
    && |r| == |nodes| && 0 <= j < |r| && r[j].key == Live(k) && r[j].val.None?
    && (forall x :: HashLookup(r, x) == HashLookup(nodes, x))
    && LiveKeys(r) <= LiveKeys(nodes) + {k}
    && (NoDead(nodes) ==> NoDead(r))
    && (forall i :: Used(nodes, i) ==> Used(r, i))
  }

  lemma LiveKeysGrow<V>(nodes: seq<Node<V>>, r: seq<Node<V>>, k: Key)
    requires forall i {:trigger r[i]} :: 0 <= i < |r| && r[i].key.Live? && r[i].key != Live(k) ==>
                                           HasLive(nodes, r[i].key.key)
    ensures LiveKeys(r) <= LiveKeys(nodes) + {k}
  {
  }

  lemma InPlaceInserted<V>(nodes: seq<Node<V>>, mp: int, k: Key)
    requires 0 <= mp < |nodes| && nodes[mp].val.None?
    requires UniqueKeys(nodes) && UniqueKeys(InsertInPlace(nodes, mp, k)) && !HasLive(nodes, k)
    ensures Inserted(nodes, InsertInPlace(nodes, mp, k), mp, k)
  {
    hide UniqueKeys, LiveKeys, HashLookup;
    var r := InsertInPlace(nodes, mp, k);
    forall x ensures HashLookup(r, x) == HashLookup(nodes, x) { InPlaceLookup(nodes, mp, k, x); }
    LiveKeysGrow(nodes, r, k);
  }

  lemma AfterInserted<V>(nodes: seq<Node<V>>, mp: int, n: int, k: Key)
    requires 0 <= mp < |nodes| && 0 <= n < |nodes| && n != mp && nodes[n].key == NoKey
    requires UniqueKeys(nodes) && UniqueKeys(InsertAfter(nodes, mp, n, k)) && !HasLive(nodes, k)
    ensures Inserted(nodes, InsertAfter(nodes, mp, n, k), n, k)
  {
    hide UniqueKeys, LiveKeys, HashLookup;
    var r := InsertAfter(nodes, mp, n, k);
    forall x ensures HashLookup(r, x) == HashLookup(nodes, x) { AfterLookup(nodes, mp, n, k, x); }
    LiveKeysGrow(nodes, r, k);
  }

  lemma MovingInserted<V>(nodes: seq<Node<V>>, mp: int, prev: int, n: int, k: Key)
    requires 0 <= mp < |nodes| && 0 <= n < |nodes| && 0 <= prev < |nodes|
    requires n != mp && prev != n && prev != mp && nodes[n].key == NoKey && nodes[mp].key != NoKey
    requires UniqueKeys(nodes) && UniqueKeys(InsertMoving(nodes, mp, prev, n, k)) && !HasLive(nodes, k)
    ensures Inserted(nodes, InsertMoving(nodes, mp, prev, n, k), mp, k)
  {
    hide UniqueKeys, LiveKeys, HashLookup;
    var r := InsertMoving(nodes, mp, prev, n, k);
    forall x ensures HashLookup(r, x) == HashLookup(nodes, x) { MovingLookup(nodes, mp, prev, n, k, x); }
    forall i | 0 <= i < |r| && r[i].key.Live? && r[i].key != Live(k) ensures HasLive(nodes, r[i].key.key) {
      assert nodes[if i == n then mp else i].key == r[i].key;
    }
    LiveKeysGrow(nodes, r, k);
  }

  /** A used node is on the path from its main position. */
  lemma OnItsPath<V>(h: (Key, int) -> int, nodes: seq<Node<V>>, rank: seq<real>, mp: int)
    requires Scatter(h, nodes, rank) && 0 <= mp < |nodes| && nodes[mp].val.Some? && nodes[mp].key != NoKey
    ensures Chained(nodes, rank) && 0 <= h(nodes[mp].key.key, |nodes|) < |nodes|
    ensures OnPath(nodes, rank, h(nodes[mp].key.key, |nodes|), mp)
  {
    hide Chained, UniqueKeys, DeadLater, FreeOk;
    assert Used(nodes, mp);
  }

  /** A colliding node has moved to the free node `n`. */
  lemma MovedAway<V>(h: (Key, int) -> int, nodes: seq<Node<V>>, rank: seq<real>, prev: int, n: int, k: Key)
    requires Scatter(h, nodes, rank) && !HasLive(nodes, k)
    requires 0 <= n < |nodes| && nodes[n].key == NoKey && 0 <= prev < |nodes|
    requires var mp := h(k, |nodes|);
             0 <= mp < |nodes| && nodes[prev].next == mp && nodes[mp].val.Some? && nodes[mp].key != NoKey
             && h(nodes[mp].key.key, |nodes|) != mp
    ensures var mp := h(k, |nodes|);
            && prev != n && prev != mp && n != mp && |rank| == |nodes|
            && var r := InsertMoving(nodes, mp, prev, n, k);
            Scatter(h, r, rank[n := rank[mp]]) && Inserted(nodes, r, mp, k) && Used(r, n)
  {
    hide PathsOk, DeadLater, MainOk, OnPath, FreeOk, UniqueKeys, HasLive;
    var mp := h(k, |nodes|);
    MovingChained(nodes, rank, mp, prev, n, k);
    MovingScatter(h, nodes, rank, prev, n, k);
    MovingInserted(nodes, mp, prev, n, k);
  }

  lemma InsertedSeparate<V>(arr: seq<Option<V>>, nodes: seq<Node<V>>, r: seq<Node<V>>, j: int, k: Key)
    requires Separate(arr, nodes) && Inserted(nodes, r, j, k) && !InRange(k, |arr|)
    ensures Separate(arr, r)
  {
    hide HashLookup;
    forall i | 0 <= i < |r| && r[i].key.Live? ensures !InRange(r[i].key.key, |arr|) {
      assert HasLive(r, r[i].key.key) && r[i].key.key in LiveKeys(r);
    }
  }

  /** Storing a value in a node changes the value of its key only. */
  lemma StoreLookup<V>(nodes: seq<Node<V>>, j: int, v: Option<V>, x: Key)
    requires UniqueKeys(nodes) && 0 <= j < |nodes| && nodes[j].key.Live?
    ensures var r := nodes[j := nodes[j].(val := v)];
            HashLookup(r, x) == if x == nodes[j].key.key then v else HashLookup(nodes, x)
  {
    var r := nodes[j := nodes[j].(val := v)];
    HashLookupAt(r, j);
    if x != nodes[j].key.key {
      if HasLive(nodes, x) {
        var i :| 0 <= i < |nodes| && nodes[i].key == Live(x);
        HashLookupAt(nodes, i);
        HashLookupAt(r, i);
      } else {
        assert !HasLive(r, x);
      }
    }
  }

  // ----------------------------------------------------- sizing by the keys

  /** The integer keys that are candidates for the array part. */
  ghost function Ints(keys: set<Key>): (p: set<int>)
    ensures forall i :: i in p <==> Int(i) in keys && 1 <= i <= MAX_ARRAY_SIZE
  {
    set k | k in keys && InRange(k, MAX_ARRAY_SIZE) :: k.n
  }

  ghost function OutOfRange(keys: set<Key>, n: int): set<Key> {
    set k | k in keys && !InRange(k, n)
  }

  lemma {:induction false} IntsSize(keys: set<Key>, n: int)
    requires n <= MAX_ARRAY_SIZE
    ensures |OutOfRange(keys, n)| + |UpTo(Ints(keys), n)| == |keys|
  {
    if keys == {} {
      assert OutOfRange(keys, n) == {} && UpTo(Ints(keys), n) == {};
    } else {
      var k :| k in keys;
      var rest := keys - {k};
      IntsSize(rest, n);
      if InRange(k, n) {
        assert UpTo(Ints(keys), n) == UpTo(Ints(rest), n) + {k.n};
        assert OutOfRange(keys, n) == OutOfRange(rest, n);
      } else {
        assert UpTo(Ints(keys), n) == UpTo(Ints(rest), n);
        assert OutOfRange(keys, n) == OutOfRange(rest, n) + {k};
      }
    }
  }
}
