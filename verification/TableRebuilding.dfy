/** Moving the keys of a table to parts of a new size. */
module TableRebuilding {
  import opened Common
  import opened Log2
  import opened ScatterTable
  import opened TableSizes
  import opened TableContents
  import opened TableCounting

  // -------------------------------------------------------------- rebuilding

  /** The keys in `done` have been moved from the old parts to the new ones, and
      only keys in `room` take up nodes. */
  ghost predicate Rebuilding<V>(arr0: seq<Option<V>>, nodes0: seq<Node<V>>, arr: seq<Option<V>>, nodes: seq<Node<V>>,
                                done: set<Key>, room: set<Key>) {
    && NoDead(nodes) && LiveKeys(nodes) <= room * done
    && forall x :: Lookup(arr, nodes, x) == if x in done then Lookup(arr0, nodes0, x) else None
  }

  /** The array part, cut or extended to its new size. */
  function Resized<V>(arr: seq<Option<V>>, n: nat): (r: seq<Option<V>>)
    ensures |r| == n && forall i :: 0 <= i < n ==> r[i] == if i < |arr| then arr[i] else None
  {
    if n <= |arr| then arr[..n] else arr + seq(n - |arr|, i => None)
  }

  ghost function KeysBelow<V>(arr: seq<Option<V>>, i: nat): (s: set<Key>) {
    set k | k in ArrayKeys(arr) && InRange(k, i)
  }

  lemma StartRebuilding<V>(arr0: seq<Option<V>>, nodes0: seq<Node<V>>, n: nat, size: nat, room: set<Key>)
    ensures Rebuilding(arr0, nodes0, Resized(arr0, n), FreshNodes(size), KeysBelow(arr0, Min(n, |arr0|)), room)
  {
    var nodes, arr := FreshNodes<V>(size), Resized(arr0, n);
    var done := KeysBelow(arr0, Min(n, |arr0|));
    assert LiveKeys(nodes) == {};
    forall x ensures Lookup(arr, nodes, x) == if x in done then Lookup(arr0, nodes0, x) else None {
      assert !HasLive(nodes, x);
    }
  }

  /** A key still to be moved finds a node. */
  lemma RoomLeft<V>(arr0: seq<Option<V>>, nodes0: seq<Node<V>>, arr: seq<Option<V>>, nodes: seq<Node<V>>,
                    done: set<Key>, room: set<Key>, q: Key)
    requires Rebuilding(arr0, nodes0, arr, nodes, done, room)
    requires q in room && q !in done && |room| <= |nodes|
    ensures NoDead(nodes) && |LiveKeys(nodes)| < |nodes|
  {
    hide Lookup, NoDead, LiveKeys;
    KeySubsetSize(LiveKeys(nodes), room - {q});
  }

  /** Where the value of a key is kept. */
  datatype Place = InArray(i: int) | InHash(j: int)

  ghost predicate PlaceOk<V>(arr: seq<Option<V>>, nodes: seq<Node<V>>, p: Place, k: Key) {
    match p
    case InArray(i) => InRange(k, |arr|) && i == k.n - 1
    case InHash(j) => !InRange(k, |arr|) && 0 <= j < |nodes| && nodes[j].key == Live(k)
  }

  function ValueAt<V>(arr: seq<Option<V>>, nodes: seq<Node<V>>, p: Place): Option<V>
    requires match p case InArray(i) => 0 <= i < |arr| case InHash(j) => 0 <= j < |nodes|
  {
    match p
    case InArray(i) => arr[i]
    case InHash(j) => nodes[j].val
  }

  lemma KeySubsetSize(a: set<Key>, b: set<Key>)
    requires a <= b
    ensures |a| <= |b|
  {
    assert b == a + (b - a);
  }

  lemma KeysBelowStep<V>(arr: seq<Option<V>>, i: nat)
    requires i < |arr|
    ensures KeysBelow(arr, i + 1) == KeysBelow(arr, i) + if arr[i].Some? then {Int(i + 1)} else {}
    ensures Int(i + 1) !in KeysBelow(arr, i)
  {
    forall k: Key | k.Int? && k.n == i + 1 ensures k == Int(i + 1) {}
  }

  lemma AllKeysBelow<V>(arr: seq<Option<V>>)
    ensures KeysBelow(arr, |arr|) == ArrayKeys(arr)
  {
  }

  lemma Rebuilt<V>(arr0: seq<Option<V>>, nodes0: seq<Node<V>>, arr: seq<Option<V>>, nodes: seq<Node<V>>, room: set<Key>)
    requires UniqueKeys(nodes0) && Separate(arr0, nodes0)
    requires Rebuilding(arr0, nodes0, arr, nodes, ArrayKeys(arr0) + HashKeys(nodes0), room)
    ensures Contents(arr, nodes) == Contents(arr0, nodes0)
  {
    ContentsKeys(arr0, nodes0);
    forall x ensures Lookup(arr, nodes, x) == Lookup(arr0, nodes0, x) {
      ContentsLookup(arr0, nodes0, x);
    }
    ContentsEqual(arr, nodes, arr0, nodes0);
  }

  /** With the keys of the map and one more counted, the one more has room. */
  lemma RoomForOne<V>(keys: set<Key>, k: Key, n: nat, size: nat, nodes: seq<Node<V>>)
    requires k !in keys && !InRange(k, n) && |OutOfRange(keys + {k}, n)| <= size <= |nodes|
    requires LiveKeys(nodes) <= OutOfRange(keys, n)
    ensures |LiveKeys(nodes)| < size
  {
    KeySubsetSize(LiveKeys(nodes), OutOfRange(keys, n));
    assert OutOfRange(keys + {k}, n) == OutOfRange(keys, n) + {k};
  }

  /** What making a place for a key does, when there is room for it. */
  ghost predicate SlotMade<V>(arr0: seq<Option<V>>, nodes0: seq<Node<V>>, dummy0: bool,
                              arr: seq<Option<V>>, nodes: seq<Node<V>>, dummy: bool, k: Key) {
    && arr == arr0 && |nodes| == |nodes0| && dummy == dummy0
    && LiveKeys(nodes) <= LiveKeys(nodes0) + (if InRange(k, |arr|) then {} else {k})
    && (NoDead(nodes0) ==> NoDead(nodes))
    && forall x :: Lookup(arr, nodes, x) == Lookup(arr0, nodes0, x)
  }

  /** What writing through the place of a key does. */
  ghost predicate Stored<V>(arr0: seq<Option<V>>, nodes0: seq<Node<V>>, arr: seq<Option<V>>, nodes: seq<Node<V>>,
                            k: Key, v: Option<V>) {
    && |arr| == |arr0| && |nodes| == |nodes0|
    && LiveKeys(nodes) == LiveKeys(nodes0) && (NoDead(nodes) <==> NoDead(nodes0))
    && forall x :: Lookup(arr, nodes, x) == if x == k then v else Lookup(arr0, nodes0, x)
  }

  lemma StoredInArray<V>(arr: seq<Option<V>>, nodes: seq<Node<V>>, i: int, v: Option<V>, k: Key)
    requires PlaceOk(arr, nodes, InArray(i), k)
    ensures Stored(arr, nodes, arr[i := v], nodes, k, v)
  {
    hide LiveKeys, NoDead, HashLookup;
    forall x: Key | x.Int? && x.n == k.n ensures x == k {}
  }

  lemma StoredInHash<V>(arr: seq<Option<V>>, nodes: seq<Node<V>>, j: int, v: Option<V>, k: Key)
    requires UniqueKeys(nodes) && PlaceOk(arr, nodes, InHash(j), k)
    ensures Stored(arr, nodes, arr, nodes[j := nodes[j].(val := v)], k, v)
  {
    var r := nodes[j := nodes[j].(val := v)];
    forall x ensures HasLive(r, x) <==> HasLive(nodes, x) {
      if HasLive(nodes, x) {
        var i :| 0 <= i < |nodes| && nodes[i].key == Live(x);
        assert r[i].key == Live(x);
      }
    }
    assert LiveKeys(r) == LiveKeys(nodes);
    assert NoDead(r) <==> NoDead(nodes) by {
      assert forall i :: 0 <= i < |nodes| ==> r[i].key == nodes[i].key;
    }
    hide LiveKeys, HashLookup, UniqueKeys, NoDead;
    forall x ensures Lookup(arr, r, x) == if x == k then v else Lookup(arr, nodes, x) {
      StoreLookup(nodes, j, v, x);
    }
  }

  lemma RebuildSlot<V>(arr0: seq<Option<V>>, nodes0: seq<Node<V>>, arr1: seq<Option<V>>, nodes1: seq<Node<V>>,
      dummy: bool,
                       arr2: seq<Option<V>>, nodes2: seq<Node<V>>, arr: seq<Option<V>>, nodes: seq<Node<V>>,
                       done: set<Key>, room: set<Key>, q: Key)
    requires Rebuilding(arr0, nodes0, arr1, nodes1, done, room)
    requires SlotMade(arr1, nodes1, dummy, arr2, nodes2, dummy, q)
    requires Stored(arr2, nodes2, arr, nodes, q, Lookup(arr0, nodes0, q))
    requires !InRange(q, |arr1|) ==> q in room
    ensures Rebuilding(arr0, nodes0, arr, nodes, done + {q}, room)
  {
    hide Lookup, NoDead, LiveKeys, InRange;
  }

  lemma NotInRange(k: Key, n: int)
    ensures InRange(k, n) <==> k.Int? && 1 <= k.n <= n
  {
  }

  lemma OutOfRangeSize(keys: set<Key>, extra: set<Key>, n: int)
    ensures |OutOfRange(keys, n)| <= |OutOfRange(keys + extra, n)|
  {
    KeySubsetSize(OutOfRange(keys, n), OutOfRange(keys + extra, n));
  }

  lemma ArrayEntry<V>(arr: seq<Option<V>>, nodes: seq<Node<V>>, i: nat, room: set<Key>, n: nat)
    requires n <= i < |arr| && arr[i].Some? && room == OutOfRange(Contents(arr, nodes).Keys, n)
    ensures Int(i + 1) in room && Lookup(arr, nodes, Int(i + 1)) == arr[i]
  {
    ContentsLookup(arr, nodes, Int(i + 1));
  }

  lemma HashEntry<V>(arr: seq<Option<V>>, nodes: seq<Node<V>>, i: nat, room: set<Key>, n: nat)
    requires i < |nodes| && UniqueKeys(nodes) && Separate(arr, nodes)
             && room == OutOfRange(Contents(arr, nodes).Keys, n)
    requires nodes[i].val.Some? ==> nodes[i].key.Live?
    ensures var done := ArrayKeys(arr) + HashKeys(nodes[i + 1..]);
            if nodes[i].val.Some? then
              var q := nodes[i].key.key;
              q !in done && (InRange(q, n) || q in room) && Lookup(arr, nodes, q) == nodes[i].val
              && ArrayKeys(arr) + HashKeys(nodes[i..]) == done + {q}
            else ArrayKeys(arr) + HashKeys(nodes[i..]) == done
  {
    HashKeysStep(nodes, i);
    hide HashKeys, UniqueKeys;
    if nodes[i].val.Some? {
      assert UniqueKeys(nodes);
      HashLookupAt(nodes, i);
      ContentsLookup(arr, nodes, nodes[i].key.key);
    }
  }
}
