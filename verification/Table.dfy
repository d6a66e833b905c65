/** Lua tables: an array part plus a chained scatter hash part, updated in place. */
module Table {
  import opened Common
  import opened Log2
  import opened ScatterTable
  import opened TableSizes
  import opened TableContents
  import opened TableCounting
  import opened TableRebuilding
  import T = TableTraversal

  /** A hash function gives every key a position in every node vector. */
  ghost predicate Hashing(h: (Key, int) -> int) {
    forall k, n :: n > 0 ==> 0 <= h(k, n) < n
  }

  /** Every node at or above `from` has a key. */
  ghost predicate AllUsed<V>(nodes: seq<Node<V>>, from: int) {
    forall j :: 0 <= j < |nodes| && from <= j ==> Used(nodes, j)
  }

  /** The node vector is a power of two of nodes, or the shared dummy node; every
      node from `lastfree` on has a key. */
  ghost predicate PartOk<V>(h: (Key, int) -> int, nodes: seq<Node<V>>, rank: seq<real>, dummy: bool, lastfree: int) {
    && Scatter(h, nodes, rank) && IsPow2(|nodes|) && |nodes| <= Pow2(MAX_BITS) && lastfree <= |nodes|
    && if dummy then nodes == [FreeNode()] && lastfree <= 0 else AllUsed(nodes, lastfree)
  }

  datatype Op<+V> = SetOp(k: Key, v: Option<V>) | GetOp(k: Key) | CollectOp(collectable: Key -> bool)

  /** The finite map after a run of operations: only assignments change it. */
  ghost function MapAfter<V>(m: map<Key, V>, ops: seq<Op<V>>): map<Key, V> {
    if ops == [] then m else AfterOp(MapAfter(m, ops[..|ops| - 1]), ops[|ops| - 1])
  }

  ghost function AfterOp<V>(m: map<Key, V>, op: Op<V>): map<Key, V> {
    match op
    case SetOp(k, v) => if v.Some? then m[k := v.value] else m - {k}
    case GetOp(_) => m
    case CollectOp(_) => m
  }

  ghost function ResultOf<V>(m: map<Key, V>, op: Op<V>): Option<V> {
    if op.GetOp? && op.k in m then Some(m[op.k]) else None
  }


  /** 0 or a present index, whose successor is absent. */
  ghost predicate Boundary<V>(m: map<Key, V>, n: nat) {
    (n == 0 || Int(n) in m) && Int(n + 1) !in m
  }

  /** An edit in the course of a traversal. */
  datatype Edit<+V> = Assign(k: Key, v: Option<V>) | Collect(collectable: Key -> bool)

  class LuaTable<V> {
    const hash: (Key, int) -> int
    var arr: seq<Option<V>>
    var node: seq<Node<V>>
    var dummy: bool
    var lastfree: int
    ghost var rank: seq<real>

    ghost predicate NodesOk()
      reads this
    {
      PartOk(hash, node, rank, dummy, lastfree)
    }

    ghost predicate Valid()
      reads this
    {
      Hashing(hash) && NodesOk() && |arr| <= MAX_ARRAY_SIZE && Separate(arr, node)
    }

    ghost function Map(): map<Key, V>
      reads this
    {
      Contents(arr, node)
    }

    /** There is a place for key `k`, or a free node to make one. */
    ghost predicate HasRoom(k: Key)
      reads this
    {
      || InRange(k, |arr|) || HasLive(node, k)
      || (!dummy && NoDead(node) && |LiveKeys(node)| < |node|)
    }

    constructor (h: (Key, int) -> int)
      requires Hashing(h)
      ensures Valid() && Map() == map[]
    {
      hash := h;
      arr, node := [], [FreeNode()];
      dummy, lastfree := true, 0;
      rank := [0.0];
      new;
      assert node == FreshNodes(1) && rank == seq(1, i => 0.0);
      FreshScatter<V>(hash, 1);
      assert IsPow2(1) by { assert Pow2(0) == 1; }
      assert HashKeys(node) == {};
    }

    // ------------------------------------------------------------ searching

    /** Walk the chain of a key's main position. */
    method FindNode(k: Key) returns (i: int)
      requires Scatter(hash, node, rank)
      ensures i == -1 || (0 <= i < |node| && node[i].key == Live(k))
      ensures i == -1 ==> !HasLive(node, k)
    {
      i := hash(k, |node|);
      ghost var goal := i;
      if HasLive(node, k) {
        ghost var g :| 0 <= g < |node| && node[g].key == Live(k);
        assert Used(node, g);
        goal := g;
      }
      hide PathsOk, MainOk, FreeOk, DeadLater;
      while node[i].key != Live(k)
        invariant 0 <= i < |node|
        invariant HasLive(node, k) ==> 0 <= goal < |node| && node[goal].key == Live(k) && OnPath(node, rank, i, goal)
        decreases Above(rank, i)
      {
        if node[i].next == -1 { return -1; }
        NextIsAbove(node, rank, i);
        i := node[i].next;
      }
    }

    method Get(k: Key) returns (v: Option<V>)
      requires Valid()
      ensures v == Lookup(arr, node, k)
      ensures v == if k in Map() then Some(Map()[k]) else None
    {
      ContentsLookup(arr, node, k);
      if k.Int? && 1 <= k.n <= |arr| { return arr[k.n - 1]; }
      var i := FindNode(k);
      if i == -1 { return None; }
      HashLookupAt(node, i);
      v := node[i].val;
    }

    // ------------------------------------------------------------ inserting

    /** The first free node below `lastfree`, or -1. */
    method GetFreePos() returns (n: int)
      requires NodesOk()
      modifies `lastfree
      ensures n != -1 ==> 0 <= n == lastfree < |node| && node[n].key == NoKey && !dummy && AllUsed(node, n + 1)
      ensures n == -1 ==> NodesOk() && (dummy || AllUsed(node, 0))
    {
      hide Scatter;
      var more := lastfree > 0;
      lastfree := lastfree - 1;
      while more
        invariant lastfree < |node| && (more ==> lastfree >= 0 && !dummy)
        invariant !more ==> lastfree < 0
        invariant !dummy ==> AllUsed(node, lastfree + 1)
        decreases lastfree
      {
        if node[lastfree].key == NoKey { return lastfree; }
        more := lastfree > 0;
        lastfree := lastfree - 1;
      }
      n := -1;
    }

    /** The predecessor of `mp` on the chain that starts at `first`. */
    method FindPrevious(first: int, mp: int) returns (p: int)
      requires Chained(node, rank) && 0 <= first < |node| && first != mp && OnPath(node, rank, first, mp)
      ensures 0 <= p < |node| && node[p].next == mp
    {
      p := first;
      while node[p].next != mp
        invariant 0 <= p < |node| && p != mp && OnPath(node, rank, p, mp)
        decreases Above(rank, p)
      {
        NextIsAbove(node, rank, p);
        p := node[p].next;
      }
    }

    /** The new key goes to its main position, or a free node joins its chain; a
        colliding node that is out of place moves away. */
    method InsertKey(k: Key) returns (j: int)
      requires Valid() && !HasLive(node, k) && !InRange(k, |arr|)
      modifies `node, `lastfree, `rank
      ensures Valid()
      ensures j == -1 ==> node == old(node) && (dummy || AllUsed(node, 0))
      ensures j != -1 ==> Inserted(old(node), node, j, k)
    {
      hide Scatter, Inserted, Separate, HasLive, AllUsed;
      var mp := MainPosition(k);
      if node[mp].val.None? && !dummy {
        InsertHere(k);
        j := mp;
        InsertedUsed(old(node), node, j, k, lastfree);
      } else {
        assert dummy ==> node == [FreeNode()];
        var n := GetFreePos();
        if n == -1 { return -1; }
        ValuesAreLive(hash, node, rank, mp);
        var othern := hash(node[mp].key.key, |node|);
        if othern != mp {
          InsertMovingAway(k, othern, n);
          j := mp;
        } else {
          InsertChained(k, n);
          j := n;
        }
        InsertedUsed(old(node), node, j, k, n + 1);
        OneMoreUsed(node, n);
      }
      InsertedSeparate(arr, old(node), node, j, k);
    }

    function MainPosition(k: Key): (p: int)
      requires Scatter(hash, node, rank)
      reads this
      ensures 0 <= p < |node| && p == hash(k, |node|)
    {
      hash(k, |node|)
    }

    method InsertHere(k: Key)
      requires Scatter(hash, node, rank) && !HasLive(node, k)
      requires node[hash(k, |node|)].val.None?
      modifies `node
      ensures Scatter(hash, node, rank) && Inserted(old(node), node, hash(k, |old(node)|), k)
    {
      var mp := hash(k, |node|);
      InPlaceScatter(hash, node, rank, k);
      InPlaceInserted(node, mp, k);
      hide PathsOk, DeadLater, MainOk, OnPath, Inserted, Chained, FreeOk, UniqueKeys;
      node := node[mp := node[mp].(key := Live(k))];
    }

    method InsertMovingAway(k: Key, othern: int, n: int)
      requires Scatter(hash, node, rank) && !HasLive(node, k)
      requires 0 <= n < |node| && node[n].key == NoKey
      requires var mp := hash(k, |node|); node[mp].val.Some? && node[mp].key != NoKey
                                          && othern == hash(node[mp].key.key, |node|) != mp
      modifies `node, `rank
      ensures Scatter(hash, node, rank) && Inserted(old(node), node, hash(k, |old(node)|), k) && Used(node, n)
    {
      hide Scatter, OnPath, Chained, Inserted, HasLive, Used, Moving;
      var mp := MainPosition(k);
      OnItsPath(hash, node, rank, mp);
      var prev := FindPrevious(othern, mp);
      ghost var nodes := node;
      MovedAway(hash, node, rank, prev, n, k);
      node := node[prev := node[prev].(next := n)];
      node := node[n := node[mp]];
      node := node[mp := node[mp].(next := -1, val := None)];
      node := node[mp := node[mp].(key := Live(k))];
      rank := rank[n := rank[mp]];
      assert node == InsertMoving(nodes, mp, prev, n, k);
    }

    method InsertChained(k: Key, n: int)
      requires Scatter(hash, node, rank) && !HasLive(node, k)
      requires 0 <= n < |node| && node[n].key == NoKey
      requires var mp := hash(k, |node|); node[mp].val.Some? && node[mp].key != NoKey
                                          && hash(node[mp].key.key, |node|) == mp
      modifies `node, `rank
      ensures Scatter(hash, node, rank) && Inserted(old(node), node, n, k) && Used(node, n)
    {
      var mp := hash(k, |node|);
      ghost var nodes := node;
      AfterScatter(hash, node, rank, n, k);
      AfterInserted(node, mp, n, k);
      rank := rank[n := RankAfter(node, rank, mp)];
      FreeNodeIsEmpty(nodes, n);
      hide PathsOk, DeadLater, MainOk, OnPath, Chained, FreeOk, Inserted, UniqueKeys, HasLive, RankAfter;
      node := node[n := node[n].(next := node[mp].next)];
      node := node[mp := node[mp].(next := n)];
      node := node[n := node[n].(key := Live(k))];
      assert node == InsertAfter(nodes, mp, n, k);
    }

    // -------------------------------------------------- growing and rebuilding

    /** A fresh node vector with at least `size` nodes, or the dummy node. */
    method SetNodeVector(size: nat) returns (ok: bool)
      requires Hashing(hash)
      modifies `node, `dummy, `lastfree, `rank
      ensures ok <==> size <= Pow2(MAX_BITS)
      ensures ok ==> NodesOk() && node == FreshNodes(|node|) && size <= |node| && (size > 0 ==> !dummy)
      ensures !ok ==> node == old(node) && dummy == old(dummy) && lastfree == old(lastfree) && rank == old(rank)
    {
      hide PartOk;
      ok := true;
      if size == 0 {
        FreshPart<V>(hash, 0, true, 0);
        node, dummy, lastfree := FreshNodes(1), true, 0;
      } else {
        var lsize := CeilingLog2(size);
        if lsize > MAX_BITS {
          Pow2Monotone(MAX_BITS, lsize - 1);
          return false;
        }
        Pow2Monotone(lsize, MAX_BITS);
        FreshPart<V>(hash, lsize, false, Pow2(lsize));
        node, dummy, lastfree := FreshNodes(Pow2(lsize)), false, Pow2(lsize);
      }
      rank := seq(|node|, i => 0.0);
    }

    /** The place of a key, made if there is none; with room for the key, without
        touching the size of the parts. */
    method SetSlot(k: Key, ghost room: bool) returns (ok: bool, p: Place)
      requires Valid() && (room ==> HasRoom(k))
      modifies this
      ensures !ok ==> !room && |old(Map())| >= Pow2(MAX_BITS)
      ensures ok ==> Valid() && Map() == old(Map()) && PlaceOk(arr, node, p, k)
      ensures room ==> SlotMade(old(arr), old(node), old(dummy), arr, node, dummy, k)
      ensures InRange(k, |old(arr)|) || HasLive(old(node), k) ==>
                ok && arr == old(arr) && node == old(node) && rank == old(rank)
      decreases if room then 0 else 1, 3
    {
      hide Scatter, PartOk, Contents, Lookup, LiveKeys, HasLive, NoDead, Separate;
      if k.Int? && 1 <= k.n <= |arr| {
        return true, InArray(k.n - 1);
      }
      assert Scatter(hash, node, rank) by { PartScatter(hash, node, rank, dummy, lastfree); }
      var i := FindNode(k);
      if i != -1 {
        return true, InHash(i);
      }
      ok, p := NewKey(k, room);
    }

    method NewKey(k: Key, ghost room: bool) returns (ok: bool, p: Place)
      requires Valid() && !HasLive(node, k) && !InRange(k, |arr|)
      requires room ==> HasRoom(k)
      modifies this
      ensures !ok ==> !room && |old(Map())| >= Pow2(MAX_BITS)
      ensures ok ==> Valid() && Map() == old(Map()) && PlaceOk(arr, node, p, k)
      ensures room ==> SlotMade(old(arr), old(node), old(dummy), arr, node, dummy, k)
      decreases if room then 0 else 1, 2
    {
      hide Scatter, Contents, Lookup, LiveKeys, HasLive, NoDead, Separate, Inserted, AllUsed;
      var j := InsertKey(k);
      if j != -1 {
        InsertedKey(arr, old(node), node, j, k, dummy);
        return true, InHash(j);
      }
      assert Scatter(hash, node, rank) by { PartScatter(hash, node, rank, dummy, lastfree); }
      if room { RoomForKey(hash, node, rank); }
      p := InArray(0);
      ok := Rehash(k);
      if ok { ok, p := SetSlot(k, true); }
    }

    /** Choose new sizes from the keys in use and the extra key. */
    method Rehash(k: Key) returns (ok: bool)
      requires Valid() && !HasLive(node, k) && !InRange(k, |arr|)
      modifies this
      ensures !ok ==> |old(Map())| >= Pow2(MAX_BITS)
      ensures ok ==> Valid() && Map() == old(Map()) && HasRoom(k) && BestSize(Ints(old(Map()).Keys + {k}), |arr|)
      decreases 1, 1
    {
      ghost var keys := Map().Keys;
      MapKeys(hash, arr, node, rank, k);
      assert forall x :: x in Map() <==> x in keys;
      hide *;
      var nums, nasize, totaluse := CountKeys(k);
      var n, na := ComputeSizes(nums[..], nasize, Ints(keys + {k}));
      IntsSize(keys + {k}, n);
      assert |keys + {k}| == |keys| + 1 == totaluse;
      ok := Resize(n, totaluse - na, {k});
      if ok && !(k.Int? && 1 <= k.n <= |arr|) {
        NotInRange(k, |arr|);
        RoomForOne(keys, k, |arr|, totaluse - na, node);
      }
    }

    /** Count the keys in use and one extra key. */
    method CountKeys(k: Key) returns (nums: array<nat>, nasize: nat, totaluse: nat)
      requires Scatter(hash, node, rank) && Separate(arr, node) && |arr| <= MAX_ARRAY_SIZE
      requires !HasLive(node, k) && !InRange(k, |arr|)
      ensures fresh(nums) && Counts(nums[..], Ints(Map().Keys + {k})) && nasize == |Ints(Map().Keys + {k})|
      ensures totaluse == |Map().Keys + {k}|
    {
      ghost var keys := Map().Keys;
      MapKeys(hash, arr, node, rank, k);
      ArrayKeysInts(arr);
      hide *;
      nums := new nat[MAX_BITS + 1](_ => 0);
      nasize := NumUseArray(arr, nums);
      totaluse := nasize;
      var used, ints := NumUseHash(hash, node, rank, nums, ArrayKeys(arr));
      totaluse := totaluse + used;
      nasize := nasize + ints;
      var extra := CountInt(k, nums, keys);
      nasize := nasize + extra;
      totaluse := totaluse + 1;
    }

    /** Move all entries to parts of the given sizes; nothing is rehashed again. */
    method Resize(nasize: nat, nhsize: nat, ghost extra: set<Key>) returns (ok: bool)
      requires Valid() && nasize <= MAX_ARRAY_SIZE
      requires |OutOfRange(Map().Keys + extra, nasize)| <= nhsize
      modifies this
      ensures ok <==> nhsize <= Pow2(MAX_BITS)
      ensures ok ==> Valid() && Map() == old(Map()) && |arr| == nasize
      ensures ok ==> NoDead(node) && LiveKeys(node) <= OutOfRange(old(Map()).Keys, nasize)
      ensures ok ==> nhsize <= |node| && (nhsize > 0 ==> !dummy)
      decreases 1, 0
    {
      ghost var room := OutOfRange(Map().Keys, nasize);
      OutOfRangeSize(Map().Keys, extra, nasize);
      var arr0, node0 := arr, node;
      assert UniqueKeys(node0) && Separate(arr0, node0);
      hide *;
      arr := Resized(arr0, nasize);
      ok := SetNodeVector(nhsize);
      if !ok { return; }
      FreshValid(nasize, room);
      StartRebuilding(arr0, node0, nasize, |node|, room);
      MoveArrayPart(arr0, node0, nasize, room);
      MoveHashPart(arr0, node0, room);
      Rebuilt(arr0, node0, arr, node, room);
    }

    /** Re-insert the entries of the vanishing slice of the array part. */
    method MoveArrayPart(arr0: seq<Option<V>>, ghost node0: seq<Node<V>>, nasize: nat, ghost room: set<Key>)
      requires Valid() && |arr| == nasize && |room| <= |node| && (room != {} ==> !dummy)
      requires Rebuilding(arr0, node0, arr, node, KeysBelow(arr0, Min(nasize, |arr0|)), room)
      requires room == OutOfRange(Contents(arr0, node0).Keys, nasize)
      modifies this
      ensures Valid() && |arr| == nasize && |node| == old(|node|) && dummy == old(dummy)
      ensures Rebuilding(arr0, node0, arr, node, ArrayKeys(arr0), room)
      decreases 0, 6
    {
      var i := if nasize < |arr0| then nasize else |arr0|;
      assert i == Min(nasize, |arr0|);
      hide *;
      while i < |arr0|
        invariant Valid() && |arr| == nasize && |node| == old(|node|) && dummy == old(dummy)
        invariant i <= |arr0| && (i < |arr0| ==> nasize <= i)
        invariant Rebuilding(arr0, node0, arr, node, KeysBelow(arr0, i), room)
      {
        MoveArrayEntry(arr0, node0, i, room);
        i := i + 1;
      }
      AllKeysBelow(arr0);
    }

    method MoveArrayEntry(arr0: seq<Option<V>>, ghost node0: seq<Node<V>>, i: nat, ghost room: set<Key>)
      requires Valid() && |arr| <= i < |arr0| && |room| <= |node| && (room != {} ==> !dummy)
      requires Rebuilding(arr0, node0, arr, node, KeysBelow(arr0, i), room)
      requires room == OutOfRange(Contents(arr0, node0).Keys, |arr|)
      modifies this
      ensures Valid() && |arr| == old(|arr|) && |node| == old(|node|) && dummy == old(dummy)
      ensures Rebuilding(arr0, node0, arr, node, KeysBelow(arr0, i + 1), room)
      decreases 0, 5
    {
      hide *;
      KeysBelowStep(arr0, i);
      if arr0[i].Some? {
        ArrayEntry(arr0, node0, i, room, |arr|);
        Reinsert(Int(i + 1), arr0[i], arr0, node0, KeysBelow(arr0, i), room);
      }
    }

    /** Re-insert the entries of the old hash part, from the top down. */
    method MoveHashPart(ghost arr0: seq<Option<V>>, node0: seq<Node<V>>, ghost room: set<Key>)
      requires Valid() && |room| <= |node| && (room != {} ==> !dummy)
      requires UniqueKeys(node0) && Separate(arr0, node0)
               && (forall j :: 0 <= j < |node0| && node0[j].val.Some? ==> node0[j].key.Live?)
      requires Rebuilding(arr0, node0, arr, node, ArrayKeys(arr0), room)
      requires room == OutOfRange(Contents(arr0, node0).Keys, |arr|)
      modifies this
      ensures Valid() && |arr| == old(|arr|) && |node| == old(|node|) && dummy == old(dummy)
      ensures Rebuilding(arr0, node0, arr, node, ArrayKeys(arr0) + HashKeys(node0), room)
      decreases 0, 5
    {
      var i := |node0|;
      assert ArrayKeys(arr0) + HashKeys(node0[i..]) == ArrayKeys(arr0);
      hide *;
      while i > 0
        invariant Valid() && |arr| == old(|arr|) && |node| == old(|node|) && dummy == old(dummy)
        invariant 0 <= i <= |node0|
        invariant Rebuilding(arr0, node0, arr, node, ArrayKeys(arr0) + HashKeys(node0[i..]), room)
        decreases i
      {
        i := i - 1;
        HashEntry(arr0, node0, i, room, |arr|);
        if node0[i].val.Some? {
          Reinsert(node0[i].key.key, node0[i].val, arr0, node0, ArrayKeys(arr0) + HashKeys(node0[i + 1..]), room);
        }
      }
      assert node0[0..] == node0;
    }

    lemma FreshValid(nasize: nat, room: set<Key>)
      requires Hashing(hash) && NodesOk() && node == FreshNodes(|node|) && |arr| == nasize <= MAX_ARRAY_SIZE
      ensures Valid()
    {
    }

    method Reinsert(q: Key, v: Option<V>, ghost arr0: seq<Option<V>>, ghost node0: seq<Node<V>>, ghost done: set<Key>,
        ghost room: set<Key>)
      requires Valid() && Rebuilding(arr0, node0, arr, node, done, room) && q !in done
      requires InRange(q, |arr|) || (q in room && |room| <= |node| && !dummy)
      requires v == Lookup(arr0, node0, q)
      modifies this
      ensures Valid() && |arr| == old(|arr|) && |node| == old(|node|) && dummy == old(dummy)
      ensures Rebuilding(arr0, node0, arr, node, done + {q}, room)
      decreases 0, 4
    {
      hide Scatter, Contents, Lookup, LiveKeys, HasLive, NoDead, Separate, Rebuilding;
      if !InRange(q, |arr|) { RoomLeft(arr0, node0, arr, node, done, room, q); }
      ghost var arr1, node1 := arr, node;
      var ok, p := SetSlot(q, true);
      ghost var arr2, node2 := arr, node;
      Store(p, v, q);
      RebuildSlot(arr0, node0, arr1, node1, dummy, arr2, node2, arr, node, done, room, q);
    }

    /** Assign to a field, where None stands for nil. A key that has a place keeps it, and
        so do all others. */
    method Set(k: Key, v: Option<V>) returns (ok: bool)
      requires Valid()
      modifies this
      ensures !ok ==> |old(Map())| >= Pow2(MAX_BITS)
      ensures InRange(k, |old(arr)|) || HasLive(old(node), k) ==>
                ok && |arr| == |old(arr)| && SameChains(old(node), node) && rank == old(rank)
      ensures ok ==> Valid() && Map() == if v.Some? then old(Map())[k := v.value] else old(Map()) - {k}
    {
      var p;
      ok, p := SetSlot(k, false);
      if ok {
        ghost var arr1, node1 := arr, node;
        Store(p, v, k);
        hide *;
        StoredContents(arr1, node1, arr, node, k, v);
      }
    }

    /** The collector marks the collectable keys of empty entries as dead. */
    method RemoveEntries(collectable: Key -> bool)
      requires Valid()
      modifies `node
      ensures Valid() && Map() == old(Map()) && SameChains(old(node), node)
    {
      var i := |node|;
      while i > 0
        invariant 0 <= i <= |node| && Valid() && Map() == old(Map()) && SameChains(old(node), node)
        decreases i
      {
        i := i - 1;
        if node[i].val.None? && node[i].key.Live? && collectable(node[i].key.key) {
          RemovedEntry(hash, arr, node, rank, dummy, lastfree, i);
          hide *;
          SameChainsTransitive(old(node), node, i);
          node := node[i := node[i].(key := Dead(node[i].key.key))];
        }
      }
    }

    /** The virtual machine extends the array part for a table constructor. */
    method ResizeArray(nasize: nat) returns (ok: bool)
      requires Valid() && |arr| <= nasize <= MAX_ARRAY_SIZE
      modifies this
      ensures ok && Valid() && Map() == old(Map()) && |arr| == nasize
    {
      GrownKeys(hash, arr, node, rank, dummy, lastfree, nasize);
      var nsize := if dummy then 0 else |node|;
      hide *;
      ok := Resize(nasize, nsize, {});
    }

    method Perform(op: Op<V>) returns (v: Option<V>, ok: bool)
      requires Valid()
      modifies this
      ensures ok ==> Valid() && Map() == AfterOp(old(Map()), op) && v == ResultOf(old(Map()), op)
      ensures !ok ==> |old(Map())| >= Pow2(MAX_BITS)
    {
      hide Valid, Map;
      v, ok := None, true;
      match op {
        case SetOp(k, x) => ok := Set(k, x);
        case GetOp(k) => v := Get(k);
        case CollectOp(collectable) => RemoveEntries(collectable);
      }
    }

    /** A run of assignments, look-ups and collections gives the results of a finite map. */
    method Run(ops: seq<Op<V>>) returns (out: seq<Option<V>>, ok: bool)
      requires Valid()
      modifies this
      ensures ok ==> Valid() && Map() == MapAfter(old(Map()), ops)
      ensures ok ==> |out| == |ops| && forall i ::
                       0 <= i < |ops| ==> out[i] == ResultOf(MapAfter(old(Map()), ops[..i]), ops[i])
      ensures !ok ==> exists i :: 0 <= i < |ops| && |MapAfter(old(Map()), ops[..i])| >= Pow2(MAX_BITS)
    {
      hide *;
      ghost var m := Map();
      out := [];
      var i := 0;
      NoResults(m, ops);
      while i < |ops|
        invariant 0 <= i <= |ops| && |out| == i && Valid() && Map() == MapAfter(m, ops[..i]) && Results(m, ops, out)
      {
        var v, done := Perform(ops[i]);
        OneMoreResult(m, ops, out, v);
        if !done { return out, false; }
        out := out + [v];
        i := i + 1;
      }
      AllResults(m, ops, out);
      ok := true;
    }

    // ------------------------------------------------------------ traversing

    ghost function Parts(): T.Parts<V>
      reads this
    {
      T.Parts(arr, node)
    }

    /** The index of the last key of a traversal, -1 at its start. */
    ghost predicate StandsAt(prev: Option<Key>, i: int)
      reads this
    {
      if prev.None? then i == -1 else T.IsIndex(hash, Parts(), rank, prev.value, i)
    }

    /** The index of a key for traversals, or None for an invalid key. */
    method FindIndex(k: Option<Key>) returns (i: Option<int>)
      requires Valid()
      ensures i.Some? ==> StandsAt(k, i.value) && -1 <= i.value < |arr| + |node|
      ensures i.None? ==> forall x :: !StandsAt(k, x)
    {
      hide PathsOk, MainOk, FreeOk, DeadLater, UniqueKeys, IsPow2, AllUsed, Separate;
      if k.None? { return Some(-1); }
      var key := k.value;
      if key.Int? && 1 <= key.n <= |arr| { return Some(key.n - 1); }
      var n := hash(key, |node|);
      ghost var mp := n;
      while !T.Matches(node[n], key)
        invariant 0 <= n < |node| && OnPath(node, rank, mp, n)
        invariant forall q :: 0 <= q < |node| && T.Matches(node[q], key) && OnPath(node, rank, mp, q) ==>
                                OnPath(node, rank, n, q)
        decreases Above(rank, n)
      {
        if node[n].next == -1 { return None; }
        NextIsAbove(node, rank, n);
        T.PathExtends(node, rank, mp, n);
        n := node[n].next;
      }
      i := Some(n + |arr|);
    }

    /** The next entry after a key: its key and value, or the end of the traversal. */
    method Next(k: Option<Key>) returns (r: T.Step<V>, ghost i: int, ghost p: int)
      requires Valid()
      ensures r.InvalidKey? <==> forall x :: !StandsAt(k, x)
      ensures !r.InvalidKey? ==> StandsAt(k, i) && T.StepsTo(Parts(), i, r, p)
    {
      var start := FindIndex(k);
      if start.None? { return T.InvalidKey, 0, 0; }
      i := start.value;
      assert T.ValuesLive(node) by { hide PathsOk, MainOk, DeadLater, UniqueKeys, AllUsed; }
      hide Valid, NodesOk, PartOk, Scatter, StandsAt, T.IsNext, T.ValuesLive;
      r, p := T.NextEntry(arr, node, start.value);
      assert !r.InvalidKey? && StandsAt(k, i);
    }

    method HasPlace(k: Key) returns (has: bool)
      requires Valid()
      ensures has <==> InRange(k, |arr|) || HasLive(node, k)
    {
      hide PathsOk, MainOk, FreeOk, DeadLater, UniqueKeys, AllUsed;
      if k.Int? && 1 <= k.n <= |arr| { return true; }
      var i := FindNode(k);
      has := i != -1;
    }

    /** Between two steps of a traversal: existing fields are assigned (others are left
        alone), and empty entries may be collected. Nothing changes its place. */
    method EditFields(edits: seq<Edit<V>>)
      requires Valid()
      modifies this
      ensures Valid() && T.Edited(old(Parts()), Parts()) && rank == old(rank)
    {
      hide *;
      NotEdited(arr, node);
      ghost var before := Parts();
      ThesePartsAre();
      var i := 0;
      while i < |edits|
        invariant 0 <= i <= |edits| && Valid() && rank == old(rank) && T.Edited(before, T.Parts(arr, node))
      {
        ghost var was := T.Parts(arr, node);
        match edits[i] {
          case Assign(k, v) =>
            var has := HasPlace(k);
            if has {
              var ok := Set(k, v);
              OneEdit(was.arr, was.nodes, arr, node);
            } else {
              NotEdited(arr, node);
            }
          case Collect(collectable) =>
            RemoveEntries(collectable);
            OneEdit(was.arr, was.nodes, arr, node);
        }
        EditedAgain(before, was, T.Parts(arr, node));
        i := i + 1;
      }
      ThesePartsAre();
    }

    lemma ThesePartsAre()
      ensures Parts() == T.Parts(arr, node)
    {
    }

    lemma ValidIsSound()
      requires Valid()
      ensures T.Sound(hash, rank, Parts())
    {
      hide PathsOk, MainOk, FreeOk, DeadLater, UniqueKeys, AllUsed, Separate, Hashes, Chained;
    }

    /** A whole traversal, with edits of existing fields after each step: it never finds its
        key invalid, it ends, and every key that holds a value all the time is returned
        exactly once. */
    method Traverse(edits: seq<seq<Edit<V>>>)
        returns (out: seq<(Key, V)>, ghost states: seq<T.Parts<V>>, ghost visits: seq<int>)
      requires Valid()
      modifies this
      ensures Valid() && T.Traversal(hash, rank, states, T.Entries(out) + [T.Done], visits)
      ensures |states| == |out| + 1 && states[0] == old(Parts()) && |out| <= T.Size(old(Parts()))
      ensures forall k :: T.Stays(states, k) ==> T.VisitedOnce(states, out, k)
    {
      hide *;
      out, states, visits := [], [], [];
      ghost var steps: seq<T.Step<V>>, at := [], -1;
      ghost var size := T.Size(Parts());
      T.NothingReturned(hash, rank, Parts());
      NoEntries<V>();
      var prev: Option<Key>, more := None, true;
      while more
        invariant Valid() && rank == old(rank) && steps == if more then T.Entries(out) else T.Entries(out) + [T.Done]
        invariant |steps| == |visits| == |states| == |out| + (if more then 0 else 1)
                  && (states == [] ==> Parts() == old(Parts())) && (states != [] ==> states[0] == old(Parts()))
        invariant more ==> T.SoFar(hash, rank, states, steps, visits)
                           && T.Ready(hash, rank, states, steps, visits, Parts(), at)
        invariant more ==> prev == (if out == [] then None else Some(out[|out| - 1].0)) && T.Size(Parts()) == size
                           && -1 <= at < size + 1
        invariant !more ==> T.Traversal(hash, rank, states, steps, visits)
        decreases if more then size - at + 1 else 0
      {
        ghost var s := Parts();
        ValidIsSound();
        var r; ghost var i, p;
        StartIs(prev, states, steps, visits, out, at);
        r, i, p := Next(prev);
        assert StandsAt(prev, at);
        SameStart(prev, states, steps, visits, out, at, i);
        T.OneMoreStep(hash, rank, states, steps, visits, s, at, r, p);
        StepKind(s, at, r, p);
        if r.Done? {
          more := false;
        } else {
          if |out| < |edits| { EditFields(edits[|out|]); } else { SelfEdited(); }
          T.ReadyAgain(hash, rank, states, steps, visits, s, at, r, p, Parts());
          T.EditedSize(s, Parts());
          OneMoreEntry(out, r);
          out := out + [(r.key, r.val)];
          prev := Some(r.key);
          at := p;
        }
        states, steps, visits := states + [s], steps + [r], visits + [p];
      }
      T.VisitsAll(hash, rank, states, visits, out);
    }

    lemma SelfEdited()
      ensures T.Edited(Parts(), Parts())
    {
    }

    /** The key of the last entry is found, so the next step is valid. */
    lemma StartIs(prev: Option<Key>, states: seq<T.Parts<V>>, steps: seq<T.Step<V>>, visits: seq<int>,
        out: seq<(Key, V)>, at: int)
      requires T.Ready(hash, rank, states, steps, visits, Parts(), at) && steps == T.Entries(out)
      requires |states| == |out| && prev == if out == [] then None else Some(out[|out| - 1].0)
      ensures StandsAt(prev, at)
    {
      hide T.IsIndex;
    }

    lemma SameStart(prev: Option<Key>, states: seq<T.Parts<V>>, steps: seq<T.Step<V>>, visits: seq<int>,
        out: seq<(Key, V)>, at: int, i: int)
      requires T.Ready(hash, rank, states, steps, visits, Parts(), at) && steps == T.Entries(out)
      requires |states| == |out| && prev == (if out == [] then None else Some(out[|out| - 1].0)) && StandsAt(prev, i)
      ensures i == at
    {
      T.OnlyStart(hash, rank, states, steps, visits, Parts(), at, i) by { hide T.IsIndex; }
    }

    // ---------------------------------------------------------------- length

    /** A boundary: 0 or a present index, whose successor is absent. */
    method GetN() returns (n: nat)
      requires Valid()
      ensures Boundary(Map(), n) && n <= MAX_INT
    {
      assert dummy ==> node == [FreeNode()];
      hide NodesOk, Separate, Contents, Lookup;
      var j := |arr|;
      if j > 0 && arr[j - 1].None? {
        var i := 0;
        while j - i > 1
          invariant 0 <= i < j <= |arr| && (i == 0 || arr[i - 1].Some?) && arr[j - 1].None?
        {
          var m := (i + j) / 2;
          if arr[m - 1].None? { j := m; } else { i := m; }
        }
        ArrayBoundary(arr, node, i);
        return i;
      }
      if dummy {
        DummyBoundary(arr, node);
        return j;
      }
      SizeLimit();
      ArrayEnd(arr, node);
      n := UnboundSearch(j);
    }

    /** Whether an integer key is present. */
    method IsPresent(i: int) returns (b: bool)
      requires Valid()
      ensures b <==> Int(i) in Map()
    {
      var v := Get(Int(i));
      b := v.Some?;
    }

    method UnboundSearch(start: nat) returns (n: nat)
      requires Valid() && start <= MAX_ARRAY_SIZE && (start == 0 || Int(start) in Map())
      ensures Boundary(Map(), n) && n <= MAX_INT
    {
      SizeLimit();
      ContentsSize(hash, arr, node, rank, dummy, lastfree);
      hide *;
      var i, j := start, start + 1;
      var b := IsPresent(j);
      while b
        invariant 0 <= i < j <= MAX_INT && (i == 0 || Int(i) in Map())
        invariant b <==> Int(j) in Map()
        decreases MAX_INT - j
      {
        i := j;
        j := j * 2;
        if j > MAX_INT {
          n := LinearSearch();
          return;
        }
        b := IsPresent(j);
      }
      n := BinarySearch(i, j);
    }

    method BinarySearch(start: nat, end: nat) returns (n: nat)
      requires Valid() && start < end <= MAX_INT && (start == 0 || Int(start) in Map()) && Int(end) !in Map()
      ensures Boundary(Map(), n) && n <= MAX_INT
    {
      hide Valid, Map;
      var i, j := start, end;
      while j - i > 1
        invariant 0 <= i < j <= MAX_INT && (i == 0 || Int(i) in Map()) && Int(j) !in Map()
      {
        var m := (i + j) / 2;
        var b := IsPresent(m);
        if !b { j := m; } else { i := m; }
      }
      n := i;
    }

    method LinearSearch() returns (n: nat)
      requires Valid() && |Map()| <= MAX_INT
      ensures Boundary(Map(), n) && n <= MAX_INT
    {
      var i := 1;
      hide *;
      var b := IsPresent(1);
      while b
        invariant 1 <= i <= |Map()| + 1 && (b <==> Int(i) in Map())
        invariant forall x :: 1 <= x < i ==> Int(x) in Map()
        decreases |Map()| + 1 - i
      {
        AllPresent(Map(), i);
        i := i + 1;
        b := IsPresent(i);
      }
      n := i - 1;
      assert Boundary(Map(), n) by { IsBoundary(Map(), n); }
    }

    /** Write through the place of a key. */
    method Store(p: Place, v: Option<V>, ghost k: Key)
      requires Valid() && PlaceOk(arr, node, p, k)
      modifies `arr, `node
      ensures Valid() && |arr| == old(|arr|) && |node| == old(|node|) && SameChains(old(node), node)
      ensures Stored(old(arr), old(node), arr, node, k, v)
    {
      assert UniqueKeys(node) by { PartScatter(hash, node, rank, dummy, lastfree); }
      hide PartOk, Separate, Stored;
      match p
      case InArray(i) =>
        StoredInArray(arr, node, i, v, k);
        StoredSeparate(arr, node, i, v);
        arr := arr[i := v];
      case InHash(j) =>
        StoredInHash(arr, node, j, v, k);
        StorePart(hash, arr, node, rank, dummy, lastfree, j, v, k);
        node := node[j := node[j].(val := v)];
    }
  }

  /** The results so far are those of the finite map. */
  ghost predicate Results<V>(m: map<Key, V>, ops: seq<Op<V>>, out: seq<Option<V>>) {
    |out| <= |ops| && forall i :: 0 <= i < |out| ==> out[i] == ResultOf(MapAfter(m, ops[..i]), ops[i])
  }

  lemma NoResults<V>(m: map<Key, V>, ops: seq<Op<V>>)
    ensures Results(m, ops, []) && MapAfter(m, ops[..0]) == m
  {
  }

  lemma OneMoreResult<V>(m: map<Key, V>, ops: seq<Op<V>>, out: seq<Option<V>>, v: Option<V>)
    requires Results(m, ops, out) && |out| < |ops|
    ensures var i := |out|;
            && MapAfter(m, ops[..i + 1]) == AfterOp(MapAfter(m, ops[..i]), ops[i])
            && (v == ResultOf(MapAfter(m, ops[..i]), ops[i]) ==> Results(m, ops, out + [v]))
            && (|MapAfter(m, ops[..i])| >= Pow2(MAX_BITS) ==> exists j ::
                                                                0 <= j < |ops|
                                                                && |MapAfter(m, ops[..j])| >= Pow2(MAX_BITS))
  {
    assert ops[..|out| + 1][..|out|] == ops[..|out|];
    hide AfterOp, ResultOf, Pow2;
  }

  lemma AllResults<V>(m: map<Key, V>, ops: seq<Op<V>>, out: seq<Option<V>>)
    requires Results(m, ops, out) && |out| == |ops|
    ensures MapAfter(m, ops[..|ops|]) == MapAfter(m, ops)
    ensures forall i :: 0 <= i < |out| ==> out[i] == ResultOf(MapAfter(m, ops[..i]), ops[i])
  {
    assert ops[..|ops|] == ops;
  }

  lemma NotEdited<V>(arr: seq<Option<V>>, nodes: seq<Node<V>>)
    ensures T.Edited(T.Parts(arr, nodes), T.Parts(arr, nodes))
  {
  }

  lemma OneEdit<V>(arr0: seq<Option<V>>, nodes0: seq<Node<V>>, arr: seq<Option<V>>, nodes: seq<Node<V>>)
    requires |arr| == |arr0| && SameChains(nodes0, nodes)
    ensures T.Edited(T.Parts(arr0, nodes0), T.Parts(arr, nodes))
  {
  }

  lemma EditedAgain<V>(r: T.Parts<V>, s: T.Parts<V>, t: T.Parts<V>)
    requires T.Edited(r, s) && T.Edited(s, t)
    ensures T.Edited(r, t)
  {
    T.EditedTransitive(r, s, t);
  }

  lemma NoEntries<V>()
    ensures T.Entries<V>([]) == []
  {
  }

  lemma StepKind<V>(s: T.Parts<V>, i: int, r: T.Step<V>, p: int)
    requires T.StepsTo(s, i, r, p)
    ensures !r.InvalidKey? && i < p <= T.Size(s) && (r.Entry? ==> p < T.Size(s))
  {
  }

  lemma OneMoreEntry<V>(out: seq<(Key, V)>, r: T.Step<V>)
    requires r.Entry?
    ensures T.Entries(out + [(r.key, r.val)]) == T.Entries(out) + [r]
  {
  }

  lemma FreshPart<V>(h: (Key, int) -> int, lsize: nat, dummy: bool, lastfree: int)
    requires Hashing(h) && lsize <= MAX_BITS && if dummy then lsize == 0 && lastfree == 0 else lastfree == Pow2(lsize)
    ensures var n := Pow2(lsize);
            n > 0 && (lsize == 0 ==> n == 1) && PartOk(h, FreshNodes<V>(n), seq(n, i => 0.0), dummy, lastfree)
  {
    Pow2Monotone(lsize, MAX_BITS);
    assert Pow2(0) == 1;
    FreshScatter<V>(h, Pow2(lsize));
    hide Scatter;
    assert dummy ==> FreshNodes<V>(1) == [FreeNode()];
  }

  lemma StoredSeparate<V>(arr: seq<Option<V>>, nodes: seq<Node<V>>, i: int, v: Option<V>)
    requires Separate(arr, nodes) && 0 <= i < |arr|
    ensures Separate(arr[i := v], nodes) && SameChains(nodes, nodes)
  {
  }

  lemma StorePart<V>(h: (Key, int) -> int, arr: seq<Option<V>>, nodes: seq<Node<V>>, rank: seq<real>, dummy: bool,
      lastfree: int,
                     j: int, v: Option<V>, k: Key)
    requires PartOk(h, nodes, rank, dummy, lastfree) && PlaceOk(arr, nodes, InHash(j), k) && Separate(arr, nodes)
    ensures var r := nodes[j := nodes[j].(val := v)];
            PartOk(h, r, rank, dummy, lastfree) && Separate(arr, r) && SameChains(nodes, r)
  {
    var r := nodes[j := nodes[j].(val := v)];
    SameChainsScatter(h, nodes, r, rank);
    hide Scatter;
    assert forall i :: Used(nodes, i) <==> Used(r, i);
  }

  lemma StoredContents<V>(arr0: seq<Option<V>>, nodes0: seq<Node<V>>, arr: seq<Option<V>>, nodes: seq<Node<V>>, k: Key,
      v: Option<V>)
    requires Stored(arr0, nodes0, arr, nodes, k, v)
    ensures Contents(arr, nodes) == if v.Some? then Contents(arr0, nodes0)[k := v.value]
            else Contents(arr0, nodes0) - {k}
  {
    hide LiveKeys, NoDead, Lookup;
    ContentsSet(arr0, nodes0, arr, nodes, k, v);
  }

  lemma RemovedEntry<V>(h: (Key, int) -> int, arr: seq<Option<V>>, nodes: seq<Node<V>>, rank: seq<real>, dummy: bool,
      lastfree: int, i: int)
    requires PartOk(h, nodes, rank, dummy, lastfree) && Separate(arr, nodes)
    requires 0 <= i < |nodes| && nodes[i].key.Live? && nodes[i].val.None?
    ensures var r := nodes[i := nodes[i].(key := Dead(nodes[i].key.key))];
            PartOk(h, r, rank, dummy, lastfree) && Separate(arr, r) && Contents(arr, r) == Contents(arr, nodes)
  {
    var r := nodes[i := nodes[i].(key := Dead(nodes[i].key.key))];
    assert UniqueKeys(nodes);
    SameChainsScatter(h, nodes, r, rank);
    assert UniqueKeys(r);
    hide Scatter, UniqueKeys;
    assert forall j :: Used(nodes, j) <==> Used(r, j);
    forall x ensures HashLookup(r, x) == HashLookup(nodes, x) {
      DeadLookup(nodes, i, x);
    }
    hide HashLookup;
    ContentsEqual(arr, r, arr, nodes);
  }

  /** In a larger array part, the keys of the hash part still fit in their nodes. */
  lemma GrownKeys<V>(h: (Key, int) -> int, arr: seq<Option<V>>, nodes: seq<Node<V>>, rank: seq<real>, dummy: bool,
      lastfree: int, n: nat)
    requires PartOk(h, nodes, rank, dummy, lastfree) && Separate(arr, nodes) && n >= |arr|
    ensures |OutOfRange(Contents(arr, nodes).Keys + {}, n)| <= if dummy then 0 else |nodes|
    ensures |nodes| <= Pow2(MAX_BITS)
  {
    ContentsKeys(arr, nodes);
    HashKeysSize(nodes);
    var rest := OutOfRange(Contents(arr, nodes).Keys + {}, n);
    assert rest <= HashKeys(nodes);
    KeySubsetSize(rest, HashKeys(nodes));
    if dummy { assert HashKeys(nodes) == {}; }
  }

  lemma DeadLookup<V>(nodes: seq<Node<V>>, i: int, x: Key)
    requires 0 <= i < |nodes| && nodes[i].key.Live? && nodes[i].val.None? && UniqueKeys(nodes)
    requires UniqueKeys(nodes[i := nodes[i].(key := Dead(nodes[i].key.key))])
    ensures HashLookup(nodes[i := nodes[i].(key := Dead(nodes[i].key.key))], x) == HashLookup(nodes, x)
  {
    var r := nodes[i := nodes[i].(key := Dead(nodes[i].key.key))];
    if HasLive(nodes, x) {
      var j :| 0 <= j < |nodes| && nodes[j].key == Live(x);
      HashLookupAt(nodes, j);
      if j != i { HashLookupAt(r, j); } else { assert !HasLive(r, x); }
    } else {
      assert !HasLive(r, x);
    }
  }

  lemma SameChainsTransitive<V>(nodes: seq<Node<V>>, r: seq<Node<V>>, i: int)
    requires SameChains(nodes, r) && 0 <= i < |r| && r[i].key.Live? && r[i].val.None?
    ensures SameChains(nodes, r[i := r[i].(key := Dead(r[i].key.key))])
  {
  }

  lemma SizeLimit()
    ensures MAX_ARRAY_SIZE == 0x400_0000
  {
    assert Pow2(4) == 16 && Pow2(8) == 256 && Pow2(12) == 0x1000 && Pow2(16) == 0x1_0000 && Pow2(20) == 0x10_0000;
    assert Pow2(24) == 0x100_0000;
  }

  lemma IsBoundary<V>(m: map<Key, V>, n: nat)
    requires (n == 0 || Int(n) in m) && Int(n + 1) !in m
    ensures Boundary(m, n)
  {
  }

  lemma ArrayBoundary<V>(arr: seq<Option<V>>, nodes: seq<Node<V>>, i: nat)
    requires i < |arr| <= MAX_ARRAY_SIZE && (i == 0 || arr[i - 1].Some?) && arr[i].None?
    ensures Boundary(Contents(arr, nodes), i) && i <= MAX_INT
  {
    SizeLimit();
    ContentsLookup(arr, nodes, Int(i));
    ContentsLookup(arr, nodes, Int(i + 1));
  }

  lemma DummyBoundary<V>(arr: seq<Option<V>>, nodes: seq<Node<V>>)
    requires nodes == [FreeNode()] && |arr| <= MAX_ARRAY_SIZE && (|arr| == 0 || arr[|arr| - 1].Some?)
    ensures Boundary(Contents(arr, nodes), |arr|) && |arr| <= MAX_INT
  {
    SizeLimit();
    ContentsLookup(arr, nodes, Int(|arr|));
    ContentsLookup(arr, nodes, Int(|arr| + 1));
    assert !HasLive(nodes, Int(|arr| + 1));
  }

  lemma ArrayEnd<V>(arr: seq<Option<V>>, nodes: seq<Node<V>>)
    requires |arr| == 0 || arr[|arr| - 1].Some?
    ensures |arr| == 0 || Int(|arr|) in Contents(arr, nodes)
  {
    ContentsLookup(arr, nodes, Int(|arr|));
  }

  /** A table has room for at most 2^27 entries. */
  lemma ContentsSize<V>(h: (Key, int) -> int, arr: seq<Option<V>>, nodes: seq<Node<V>>, rank: seq<real>, dummy: bool,
      lastfree: int)
    requires PartOk(h, nodes, rank, dummy, lastfree) && Separate(arr, nodes) && |arr| <= MAX_ARRAY_SIZE
    ensures |Contents(arr, nodes)| <= 2 * MAX_ARRAY_SIZE
  {
    ContentsKeys(arr, nodes);
    ArrayKeysInts(arr);
    UpToSize(ArrayInts(arr), |arr|);
    assert UpTo(ArrayInts(arr), |arr|) == ArrayInts(arr);
    HashKeysSize(nodes);
  }

  lemma {:induction false} HashKeysSize<V>(nodes: seq<Node<V>>)
    requires UniqueKeys(nodes) && forall j :: 0 <= j < |nodes| && nodes[j].val.Some? ==> nodes[j].key.Live?
    ensures |HashKeys(nodes)| <= |nodes|
    decreases |nodes|
  {
    if |nodes| > 0 {
      HashKeysSize(nodes[1..]);
      HashKeysStep(nodes, 0);
      assert nodes[0..] == nodes;
    }
  }

  /** A map with the keys 1..n has at least n entries. */
  lemma {:induction false} AllPresent<V>(m: map<Key, V>, n: nat)
    requires forall x :: 1 <= x <= n ==> Int(x) in m
    ensures n <= |m|
    decreases n
  {
    if n > 0 {
      var rest := m - {Int(n)};
      AllPresent(rest, n - 1);
      assert m.Keys == rest.Keys + {Int(n)};
    }
  }

  lemma PartScatter<V>(h: (Key, int) -> int, nodes: seq<Node<V>>, rank: seq<real>, dummy: bool, lastfree: int)
    requires PartOk(h, nodes, rank, dummy, lastfree)
    ensures Scatter(h, nodes, rank)
  {
  }

  lemma RoomForKey<V>(h: (Key, int) -> int, nodes: seq<Node<V>>, rank: seq<real>)
    requires Scatter(h, nodes, rank) && NoDead(nodes) && |LiveKeys(nodes)| < |nodes|
    ensures !AllUsed(nodes, 0)
  {
    hide PathsOk, DeadLater, MainOk, OnPath, Chained, LiveKeys, NoDead, UniqueKeys;
    var n := SomeFree(nodes);
    assert !Used(nodes, n);
  }

  lemma InsertedKey<V>(arr: seq<Option<V>>, nodes: seq<Node<V>>, r: seq<Node<V>>, j: int, k: Key, dummy: bool)
    requires Inserted(nodes, r, j, k) && !InRange(k, |arr|)
    ensures PlaceOk(arr, r, InHash(j), k) && Contents(arr, r) == Contents(arr, nodes)
    ensures SlotMade(arr, nodes, dummy, arr, r, dummy, k)
  {
    hide LiveKeys, NoDead, HashLookup;
    ContentsEqual(arr, r, arr, nodes);
  }

  lemma MapKeys<V>(h: (Key, int) -> int, arr: seq<Option<V>>, nodes: seq<Node<V>>, rank: seq<real>, k: Key)
    requires Scatter(h, nodes, rank) && Separate(arr, nodes) && !HasLive(nodes, k) && !InRange(k, |arr|)
    ensures Contents(arr, nodes).Keys == ArrayKeys(arr) + HashKeys(nodes) && ArrayKeys(arr) !! HashKeys(nodes)
    ensures k !in Contents(arr, nodes)
    ensures |Contents(arr, nodes).Keys| == |ArrayKeys(arr)| + |HashKeys(nodes)|
  {
    ContentsKeys(arr, nodes);
    HashKeysLive(nodes);
  }

  lemma FreeNodeIsEmpty<V>(nodes: seq<Node<V>>, n: int)
    requires FreeOk(nodes) && 0 <= n < |nodes| && nodes[n].key == NoKey
    ensures nodes[n] == FreeNode()
  {
  }

  lemma OneMoreUsed<V>(nodes: seq<Node<V>>, n: int)
    requires AllUsed(nodes, n + 1) && Used(nodes, n)
    ensures AllUsed(nodes, n)
  {
  }

  lemma InsertedUsed<V>(nodes: seq<Node<V>>, r: seq<Node<V>>, j: int, k: Key, from: int)
    requires Inserted(nodes, r, j, k) && AllUsed(nodes, from)
    ensures AllUsed(r, from) && Used(r, j) && |r| == |nodes| && 0 <= j < |r|
  {
    hide HashLookup, LiveKeys, NoDead;
  }
}
