/** Counting the keys of a table, by slices between powers of two. */
module TableCounting {
  import opened Common
  import opened Log2
  import opened ScatterTable
  import opened TableSizes
  import opened TableContents

  function Min(a: nat, b: nat): nat { if a < b then a else b }

  /** A node with a value has a live key. */
  lemma ValuesAreLive<V>(h: (Key, int) -> int, nodes: seq<Node<V>>, rank: seq<real>, j: int)
    requires Scatter(h, nodes, rank) && 0 <= j < |nodes| && nodes[j].val.Some?
    ensures nodes[j].key.Live? && 0 <= h(nodes[j].key.key, |nodes|) < |nodes|
  {
    hide PathsOk, DeadLater, MainOk, OnPath, Chained, UniqueKeys;
  }

  ghost function ArrayInts<V>(arr: seq<Option<V>>): (s: set<int>)
    ensures forall i :: i in s <==> 1 <= i <= |arr| && arr[i - 1].Some?
  {
    set k | 0 <= k < |arr| && arr[k].Some? :: k + 1
  }

  ghost function Between(p: set<int>, a: int, b: int): set<int> {
    set i | i in p && a <= i < b
  }

  lemma BetweenStep(p: set<int>, a: int, b: int)
    requires a <= b
    ensures |Between(p, a, b + 1)| == |Between(p, a, b)| + if b in p then 1 else 0
  {
    if b in p {
      assert Between(p, a, b + 1) == Between(p, a, b) + {b};
    } else {
      assert Between(p, a, b + 1) == Between(p, a, b);
    }
  }

  function SliceStart(lg: nat): int {
    if lg == 0 then 1 else Pow2(lg - 1) + 1
  }

  /** A slice cut off at the size of the array part loses nothing. */
  lemma SliceBetween(p: set<int>, lg: nat, size: nat)
    requires forall i :: i in p ==> i <= size
    ensures Slice(p, lg) == Between(p, SliceStart(lg), (if Pow2(lg) > size then size else Pow2(lg)) + 1)
  {
  }

  lemma SlicePast(p: set<int>, lg: nat, size: nat)
    requires (forall i :: i in p ==> i <= size) && SliceStart(lg) > size
    ensures forall l: nat :: l >= lg ==> Slice(p, l) == {}
  {
    forall l: nat | l >= lg ensures Slice(p, l) == {} {
      if lg > 0 { Pow2Monotone(lg - 1, l - 1); }
    }
  }

  lemma BetweenSplit(p: set<int>, a: int, b: int, c: int)
    requires a <= b <= c
    ensures |Between(p, a, c)| == |Between(p, a, b)| + |Between(p, b, c)|
  {
    assert Between(p, a, c) == Between(p, a, b) + Between(p, b, c);
  }

  lemma NothingBetween(p: set<int>, a: int)
    ensures Between(p, a, a) == {}
  {
  }

  /** The slices below `lg` are counted: the entries below `i`, `ause` in all. */
  ghost predicate CountedTo(nums: seq<nat>, p: set<int>, size: nat, lg: nat, i: int, ause: nat) {
    && |nums| == MAX_BITS + 1 && size <= MAX_ARRAY_SIZE && (forall x :: x in p ==> 1 <= x <= size)
    && i == (if SliceStart(lg) > size then size + 1 else SliceStart(lg))
    && ause == |Between(p, 1, i)|
    && forall l :: 0 <= l <= MAX_BITS ==> nums[l] == if l < lg then |Slice(p, l)| else 0
  }

  lemma CountedStart(nums: seq<nat>, p: set<int>, size: nat)
    requires |nums| == MAX_BITS + 1 && forall l :: 0 <= l <= MAX_BITS ==> nums[l] == 0
    requires size <= MAX_ARRAY_SIZE && forall x :: x in p ==> 1 <= x <= size
    ensures CountedTo(nums, p, size, 0, 1, 0) && Pow2(0) == 1
  {
    NothingBetween(p, 1);
  }

  lemma CountedBounds(nums: seq<nat>, p: set<int>, size: nat, lg: nat, i: int, ause: nat)
    requires CountedTo(nums, p, size, lg, i, ause)
    ensures 1 <= i && (i <= size || Pow2(lg) <= size ==> i <= Pow2(lg)) && |nums| == MAX_BITS + 1
  {
  }

  lemma CountedStep(nums: seq<nat>, p: set<int>, size: nat, lg: nat, i: int, ause: nat, lim: nat, lc: nat)
    requires CountedTo(nums, p, size, lg, i, ause) && lg <= MAX_BITS && i <= lim == Min(Pow2(lg), size)
    requires lc == |Between(p, i, lim + 1)|
    ensures CountedTo(nums[lg := nums[lg] + lc], p, size, lg + 1, lim + 1, ause + lc) && Pow2(lg + 1) == 2 * Pow2(lg)
  {
    SliceBetween(p, lg, size);
    BetweenSplit(p, 1, i, lim + 1);
    hide Slice, Between;
  }

  /** All slices are counted once the entries are, or the slices run out. */
  lemma AllSlices(nums: seq<nat>, p: set<int>, size: nat, lg: nat, i: int, ause: nat)
    requires CountedTo(nums, p, size, lg, i, ause) && (i > size || lg > MAX_BITS)
    ensures Counts(nums, p) && ause == |p|
  {
    if lg > MAX_BITS { Pow2Monotone(MAX_BITS, lg - 1); }
    if lg > 0 && SliceStart(lg) <= size { assert false; }
    SlicePast(p, lg, size);
    assert Between(p, 1, size + 1) == p;
  }

  lemma ArrayKeysInts<V>(arr: seq<Option<V>>)
    requires |arr| <= MAX_ARRAY_SIZE
    ensures Ints(ArrayKeys(arr)) == ArrayInts(arr) && |ArrayKeys(arr)| == |ArrayInts(arr)|
  {
    IntsSize(ArrayKeys(arr), |arr|);
    assert OutOfRange(ArrayKeys(arr), |arr|) == {};
    assert UpTo(Ints(ArrayKeys(arr)), |arr|) == ArrayInts(arr);
  }

  lemma IntsAdd(keys: set<Key>, k: Key)
    requires k !in keys
    ensures InRange(k, MAX_ARRAY_SIZE) ==> k.n !in Ints(keys) && Ints(keys + {k}) == Ints(keys) + {k.n}
    ensures !InRange(k, MAX_ARRAY_SIZE) ==> Ints(keys + {k}) == Ints(keys)
  {
  }

  lemma HashKeysStep<V>(nodes: seq<Node<V>>, i: int)
    requires UniqueKeys(nodes) && 0 <= i < |nodes|
    requires nodes[i].val.Some? ==> nodes[i].key.Live?
    ensures HashKeys(nodes[i..]) == HashKeys(nodes[i + 1..]) + (if nodes[i].val.Some? then {nodes[i].key.key} else {})
    ensures nodes[i].val.Some? ==> nodes[i].key.key !in HashKeys(nodes[i + 1..])
  {
    var s, t := nodes[i..], nodes[i + 1..];
    assert s[0] == nodes[i];
    forall j | 0 <= j < |t| ensures t[j] == s[j + 1] == nodes[i + 1 + j] {}
    forall k ensures k in HashKeys(s) <==> k in HashKeys(t) || (nodes[i].val.Some? && k == nodes[i].key.key) {
      if k in HashKeys(s) {
        var j :| 0 <= j < |s| && s[j].key.Live? && s[j].val.Some? && s[j].key.key == k;
        if j > 0 { assert t[j - 1].key.key == k; }
      }
      if k in HashKeys(t) {
        var j :| 0 <= j < |t| && t[j].key.Live? && t[j].val.Some? && t[j].key.key == k;
        assert s[j + 1].key.key == k;
      }
    }
  }

  lemma HashKeysLive<V>(nodes: seq<Node<V>>)
    ensures HashKeys(nodes) <= LiveKeys(nodes)
  {
    forall k | k in HashKeys(nodes) ensures k in LiveKeys(nodes) {
      var j :| 0 <= j < |nodes| && nodes[j].key.Live? && nodes[j].val.Some? && nodes[j].key.key == k;
      assert nodes[j].key == Live(k);
    }
  }

  lemma NextHashKey<V>(h: (Key, int) -> int, nodes: seq<Node<V>>, rank: seq<real>, i: int, counted: set<Key>)
    requires Scatter(h, nodes, rank) && 0 <= i < |nodes| && counted !! HashKeys(nodes)
    ensures var k, rest := nodes[i].key, counted + HashKeys(nodes[i + 1..]);
            if nodes[i].val.Some? then
              k.Live? && k.key !in rest && counted + HashKeys(nodes[i..]) == rest + {k.key}
              && |HashKeys(nodes[i..])| == |HashKeys(nodes[i + 1..])| + 1
            else HashKeys(nodes[i..]) == HashKeys(nodes[i + 1..])
  {
    if nodes[i].val.Some? { ValuesAreLive(h, nodes, rank, i); }
    hide PathsOk, DeadLater, MainOk, OnPath, Chained;
    HashKeysStep(nodes, i);
    if nodes[i].val.Some? {
      assert nodes[i].key.key in HashKeys(nodes);
    }
  }

  method AddCount(nums: array<nat>, l: nat, c: nat)
    requires l < nums.Length
    modifies nums
    ensures nums[..] == old(nums[..])[l := old(nums[..])[l] + c]
  {
    nums[l] := nums[l] + c;
  }

  /** One more key to count, if it is a candidate for the array part. */
  method CountInt(k: Key, nums: array<nat>, ghost keys: set<Key>) returns (c: nat)
    requires Counts(nums[..], Ints(keys)) && k !in keys
    modifies nums
    ensures Counts(nums[..], Ints(keys + {k})) && c == |Ints(keys + {k})| - |Ints(keys)|
  {
    IntsAdd(keys, k);
    hide Ints;
    if k.Int? && 1 <= k.n <= MAX_ARRAY_SIZE {
      CountOne(nums[..], Ints(keys), k.n);
      hide Counts;
      var l := CeilingLog2(k.n);
      AddCount(nums, l, 1);
      return 1;
    }
    return 0;
  }

  /** Count the entries of the array part from `i` to `lim`. */
  method CountRange<V>(arr: seq<Option<V>>, i: int, lim: int) returns (lc: nat)
    requires 1 <= i <= lim <= |arr|
    ensures lc == |Between(ArrayInts(arr), i, lim + 1)|
  {
    lc := 0;
    var j := i;
    NothingBetween(ArrayInts(arr), i);
    hide Between;
    while j <= lim
      invariant i <= j <= lim + 1
      invariant lc == |Between(ArrayInts(arr), i, j)|
    {
      BetweenStep(ArrayInts(arr), i, j);
      if arr[j - 1].Some? { lc := lc + 1; }
      j := j + 1;
    }
  }

  method CountSlice<V>(arr: seq<Option<V>>, nums: array<nat>, lg: nat, i: int, lim: nat, ghost ause: nat)
      returns (lc: nat)
    requires CountedTo(nums[..], ArrayInts(arr), |arr|, lg, i, ause)
    requires lg <= MAX_BITS && i <= lim == Min(Pow2(lg), |arr|)
    modifies nums
    ensures CountedTo(nums[..], ArrayInts(arr), |arr|, lg + 1, lim + 1, ause + lc) && Pow2(lg + 1) == 2 * Pow2(lg)
  {
    CountedBounds(nums[..], ArrayInts(arr), |arr|, lg, i, ause);
    lc := CountRange(arr, i, lim);
    CountedStep(nums[..], ArrayInts(arr), |arr|, lg, i, ause, lim, lc);
    hide *;
    AddCount(nums, lg, lc);
  }

  method CountSlices<V>(arr: seq<Option<V>>, nums: array<nat>) returns (ause: nat)
    requires CountedTo(nums[..], ArrayInts(arr), |arr|, 0, 1, 0) && Pow2(0) == 1
    modifies nums
    ensures Counts(nums[..], ArrayInts(arr)) && ause == |ArrayInts(arr)|
  {
    hide Pow2, CountedTo, Counts, ArrayInts;
    ause := 0;
    var i, lg, ttlg := 1, 0, 1;
    while lg <= MAX_BITS
      invariant 0 <= lg <= MAX_BITS + 1 && ttlg == Pow2(lg)
      invariant CountedTo(nums[..], ArrayInts(arr), |arr|, lg, i, ause)
    {
      CountedBounds(nums[..], ArrayInts(arr), |arr|, lg, i, ause);
      var lim := ttlg;
      if lim > |arr| {
        lim := |arr|;
        if i > lim { break; }
      }
      var lc := CountSlice(arr, nums, lg, i, lim, ause);
      ause := ause + lc;
      i, lg, ttlg := lim + 1, lg + 1, ttlg * 2;
    }
    AllSlices(nums[..], ArrayInts(arr), |arr|, lg, i, ause);
  }

  /** Count the entries of the array part, slice by slice. */
  method NumUseArray<V>(arr: seq<Option<V>>, nums: array<nat>) returns (ause: nat)
    requires |arr| <= MAX_ARRAY_SIZE && nums.Length == MAX_BITS + 1 && forall l :: 0 <= l <= MAX_BITS ==> nums[l] == 0
    modifies nums
    ensures Counts(nums[..], Ints(ArrayKeys(arr))) && ause == |ArrayKeys(arr)|
  {
    CountedStart(nums[..], ArrayInts(arr), |arr|);
    ause := CountSlices(arr, nums);
    ArrayKeysInts(arr);
  }

  /** Count the entries of the hash part, from the top down. */
  method NumUseHash<V>(h: (Key, int) -> int, node: seq<Node<V>>, ghost rank: seq<real>, nums: array<nat>,
      ghost counted: set<Key>) returns (totaluse: nat, ause: nat)
    requires Scatter(h, node, rank) && Counts(nums[..], Ints(counted)) && counted !! HashKeys(node)
    modifies nums
    ensures Counts(nums[..], Ints(counted + HashKeys(node)))
    ensures totaluse == |HashKeys(node)| && ause == |Ints(counted + HashKeys(node))| - |Ints(counted)|
  {
    totaluse, ause := 0, 0;
    var i := |node|;
    assert node[i..] == [] && HashKeys(node[i..]) == {} && counted + {} == counted;
    hide *;
    while i != 0
      invariant 0 <= i <= |node|
      invariant Counts(nums[..], Ints(counted + HashKeys(node[i..])))
      invariant totaluse == |HashKeys(node[i..])|
      invariant ause == |Ints(counted + HashKeys(node[i..]))| - |Ints(counted)|
      decreases i
    {
      i := i - 1;
      NextHashKey(h, node, rank, i, counted);
      if node[i].val.Some? {
        var c := CountInt(node[i].key.key, nums, counted + HashKeys(node[i + 1..]));
        ause := ause + c;
        totaluse := totaluse + 1;
      }
    }
    assert node[0..] == node;
  }
}
