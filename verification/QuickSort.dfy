/** Sorting in place, with sentinels instead of bounds checks and recursion on the smaller
    part only. Slot 0 of the array is not used. */
module QuickSort {
  import opened Log2

  /** The order function is a strict weak order. */
  ghost predicate StrictWeak<T(!new)>(lt: (T, T) -> bool) {
    && (forall x :: !lt(x, x))
    && (forall x, y, z :: lt(x, y) && lt(y, z) ==> lt(x, z))
    && (forall x, y, z :: !lt(x, y) && !lt(y, z) ==> !lt(x, z))
  }

  ghost predicate Asymmetric<T(!new)>(lt: (T, T) -> bool) {
    forall x, y :: lt(x, y) ==> !lt(y, x)
  }

  predicate Le<T>(lt: (T, T) -> bool, x: T, y: T) {
    !lt(y, x)
  }

  ghost predicate Sorted<T>(s: seq<T>, l: int, u: int, lt: (T, T) -> bool)
    requires 0 <= l && u < |s|
  {
    forall x, y :: l <= x < y <= u ==> Le(lt, s[x], s[y])
  }

  /** Only the elements from `l` to `u` are rearranged. */
  ghost predicate Rearranged<T>(s: seq<T>, t: seq<T>, l: int, u: int) {
    && |s| == |t| && multiset(s) == multiset(t)
    && forall k :: 0 <= k < |s| && !(l <= k <= u) ==> t[k] == s[k]
  }

  /** All pairs are in order, unless both are between `l` and `u`. */
  ghost predicate SortedOutside<T>(s: seq<T>, l0: int, u0: int, l: int, u: int, lt: (T, T) -> bool)
    requires 0 <= l0 && u0 < |s|
  {
    forall x, y :: l0 <= x < y <= u0 && !(l <= x && y <= u) ==> Le(lt, s[x], s[y])
  }

  function Swapped<T>(s: seq<T>, i: int, j: int): seq<T>
    requires 0 <= i < |s| && 0 <= j < |s|
  {
    s[i := s[j]][j := s[i]]
  }

  lemma SwapRearranges<T>(s: seq<T>, i: int, j: int, l: int, u: int)
    requires 0 <= l <= i <= u < |s| && l <= j <= u
    ensures Rearranged(s, Swapped(s, i, j), l, u)
  {
  }

  lemma RearrangedAgain<T>(r: seq<T>, s: seq<T>, t: seq<T>, l: int, u: int, l1: int, u1: int)
    requires Rearranged(r, s, l, u) && Rearranged(s, t, l1, u1) && l <= l1 && u1 <= u
    ensures Rearranged(r, t, l, u)
  {
  }

  /** A rearranged element comes from the same range. */
  lemma Origin<T>(s: seq<T>, t: seq<T>, l: int, u: int, k: int) returns (o: int)
    requires Rearranged(s, t, l, u) && 0 <= l <= k <= u < |s|
    ensures l <= o <= u && s[o] == t[k]
  {
    var sm, tm, se, te := s[l..u + 1], t[l..u + 1], s[u + 1..], t[u + 1..];
    Parts(s, l, u);
    Parts(t, l, u);
    assert s[..l] == t[..l];
    forall x | 0 <= x < |se| ensures se[x] == te[x] { assert s[u + 1 + x] == t[u + 1 + x]; }
    assert se == te;
    var front, end := multiset(s[..l]), multiset(se);
    assert front + multiset(sm) + end == front + multiset(tm) + end;
    assert multiset(sm) == multiset(tm) by { Cancel(front, multiset(sm), multiset(tm), end); }
    assert tm[k - l] in multiset(tm);
    assert tm[k - l] in sm;
    o :| 0 <= o < |sm| && sm[o] == tm[k - l];
    o := o + l;
  }

  lemma Cancel<T>(a: multiset<T>, x: multiset<T>, y: multiset<T>, b: multiset<T>)
    requires a + x + b == a + y + b
    ensures x == y
  {
    forall e ensures x[e] == y[e] { assert (a + x + b)[e] == (a + y + b)[e]; }
  }

  lemma Parts<T>(s: seq<T>, l: int, u: int)
    requires 0 <= l <= u < |s|
    ensures multiset(s) == multiset(s[..l]) + multiset(s[l..u + 1]) + multiset(s[u + 1..])
  {
    assert s == s[..l] + (s[l..u + 1] + s[u + 1..]);
  }

  /** Rearranging a range keeps its order with what is outside. */
  lemma OutsideKept<T>(s: seq<T>, t: seq<T>, l0: int, u0: int, l: int, u: int, lt: (T, T) -> bool)
    requires 0 <= l0 <= l && u <= u0 < |s| && SortedOutside(s, l0, u0, l, u, lt) && Rearranged(s, t, l, u)
    ensures SortedOutside(t, l0, u0, l, u, lt)
  {
    forall x, y | l0 <= x < y <= u0 && !(l <= x && y <= u) ensures Le(lt, t[x], t[y]) {
      var ox, oy := x, y;
      if l <= x <= u { ox := Origin(s, t, l, u, x); }
      if l <= y <= u { oy := Origin(s, t, l, u, y); }
      assert Le(lt, s[ox], s[oy]);
    }
  }

  /** The pivot is in its place. */
  ghost predicate Partitioned<T>(s: seq<T>, l: int, i: int, u: int, lt: (T, T) -> bool) {
    && 0 <= l <= i <= u < |s|
    && (forall k :: l <= k < i ==> Le(lt, s[k], s[i]))
    && (forall k :: i < k <= u ==> Le(lt, s[i], s[k]))
  }

  /** Around the pivot, one part sorted leaves the other one to be sorted. */
  lemma OnePartLeft<T(!new)>(s: seq<T>, t: seq<T>, l0: int, u0: int, l: int, i: int, u: int, low: bool,
      lt: (T, T) -> bool)
    requires StrictWeak(lt) && 0 <= l0 <= l && u <= u0 < |s|
    requires SortedOutside(s, l0, u0, l, u, lt) && Partitioned(s, l, i, u, lt)
    requires if low then Rearranged(s, t, l, i - 1) && Sorted(t, l, i - 1, lt)
             else Rearranged(s, t, i + 1, u) && Sorted(t, i + 1, u, lt)
    ensures if low then SortedOutside(t, l0, u0, i + 1, u, lt) else SortedOutside(t, l0, u0, l, i - 1, lt)
  {
    var a, b := if low then l else i + 1, if low then i - 1 else u;
    RearrangedAgain(s, s, t, l, u, a, b);
    OutsideKept(s, t, l0, u0, l, u, lt);
    forall x, y | l <= x < y <= u && !(a <= x && y <= b)
    && !(if low then i + 1 <= x else y <= i - 1) ensures Le(lt, t[x], t[y]) {
      var ox, oy := x, y;
      if a <= x <= b { ox := Origin(s, t, a, b, x); }
      if a <= y <= b { oy := Origin(s, t, a, b, y); }
      assert ox <= i <= oy;
      if ox < i { assert Le(lt, s[ox], s[i]); }
      if i < oy { assert Le(lt, s[i], s[oy]); }
    }
  }

  /** Indices that are read, all between two bounds. */
  ghost predicate Within(seen: set<int>, l: int, u: int) {
    forall k :: k in seen ==> l <= k <= u
  }

  lemma WithinBoth(s: set<int>, t: set<int>, l: int, u: int, l0: int, u0: int)
    requires Within(s, l0, u0) && Within(t, l, u) && l0 <= l && u <= u0
    ensures Within(s + t, l0, u0)
  {
  }

  lemma WithinFew(s: set<int>, i: int, j: int, l: int, u: int)
    requires Within(s, l, u) && l <= i <= u && l <= j <= u
    ensures Within(s + {i, j}, l, u) && Within({}, l, u) && Within({i, j}, l, u)
  {
  }

  method Swap<T>(a: array<T>, i: int, j: int)
    requires 0 <= i < a.Length && 0 <= j < a.Length
    modifies a
    ensures a[..] == Swapped(old(a[..]), i, j)
  {
    a[i], a[j] := a[j], a[i];
  }

  /** Swap two elements if the one that should come first does not. */
  method Order<T>(a: array<T>, i: int, j: int, ghost l: int, ghost u: int, lt: (T, T) -> bool)
    returns (swapped: bool, ghost seen: set<int>)
    requires 0 <= l <= i < j <= u < a.Length
    modifies a
    ensures swapped == old(lt(a[j], a[i]))
    ensures a[..] == if swapped then Swapped(old(a[..]), i, j) else old(a[..])
    ensures Rearranged(old(a[..]), a[..], l, u) && Within(seen, l, u)
  {
    seen := {i, j};
    swapped := lt(a[j], a[i]);
    if swapped {
      SwapRearranges(a[..], i, j, l, u);
      Swap(a, i, j);
    }
  }

  /** Put a[l], a[(l+u)/2] and a[u] in order. */
  method SortThree<T(!new)>(a: array<T>, l: int, u: int, lt: (T, T) -> bool) returns (m: int, ghost seen: set<int>)
    requires StrictWeak(lt) && 1 <= l < u < a.Length
    modifies a
    ensures m == (l + u) / 2 && Rearranged(old(a[..]), a[..], l, u) && Within(seen, l, u)
    ensures Le(lt, a[l], a[u]) && (u - l > 1 ==> Le(lt, a[l], a[m]) && Le(lt, a[m], a[u]))
  {
    hide Rearranged, StrictWeak, Le, Within;
    m := (l + u) / 2;
    ghost var s0, more := a[..], {};
    var b1;
    b1, seen := Order(a, l, u, l, u, lt);
    ghost var s1 := a[..];
    FirstTwo(s0, l, u, b1, lt);
    if u - l == 1 { return; }
    var b2;
    b2, more := Order(a, l, m, l, u, lt);
    WithinBoth(seen, more, l, u, l, u);
    seen := seen + more;
    ghost var s2 := a[..];
    RearrangedAgain(s0, s1, s2, l, u, l, u);
    var b3 := false;
    if !b2 {
      b3, more := Order(a, m, u, l, u, lt);
      WithinBoth(seen, more, l, u, l, u);
      seen := seen + more;
      RearrangedAgain(s0, s2, a[..], l, u, l, u);
    }
    AllThree(s1, l, m, u, b2, b3, lt);
  }

  lemma FirstTwo<T(!new)>(s: seq<T>, l: int, u: int, b: bool, lt: (T, T) -> bool)
    requires StrictWeak(lt) && 0 <= l < u < |s| && b == lt(s[u], s[l])
    ensures var t := if b then Swapped(s, l, u) else s; Le(lt, t[l], t[u])
  {
    assert !(lt(s[u], s[l]) && lt(s[l], s[u]));
  }

  lemma AllThree<T(!new)>(s: seq<T>, l: int, m: int, u: int, b2: bool, b3: bool, lt: (T, T) -> bool)
    requires StrictWeak(lt) && 0 <= l < m < u < |s| && Le(lt, s[l], s[u])
    requires b2 == lt(s[m], s[l]) && b3 == (!b2 && lt(s[u], s[m]))
    ensures var t := if b2 then Swapped(s, l, m) else if b3 then Swapped(s, m, u) else s;
            Le(lt, t[l], t[u]) && Le(lt, t[l], t[m]) && Le(lt, t[m], t[u])
  {
    var x, y, z := s[l], s[m], s[u];
    assert lt(y, x) ==> !lt(x, y);
    assert lt(z, y) ==> !lt(y, z);
    assert !lt(z, x) && !lt(x, y) ==> !lt(z, y);
    assert !lt(z, y) && !lt(y, x) ==> !lt(z, x);
  }

  /** Everything up to `i` is at most the pivot, everything from `j` on at least. */
  ghost predicate Split<T>(s: seq<T>, l: int, i: int, j: int, u: int, pivot: T, lt: (T, T) -> bool) {
    && 0 <= l <= i <= u < |s| && l <= j <= u
    && (forall k :: l <= k <= i ==> Le(lt, s[k], pivot))
    && (forall k :: j <= k <= u ==> Le(lt, pivot, s[k]))
  }

  /** Repeat ++i until a[i] >= P: some element between `i` and `stop` stops it. */
  method ScanUp<T(!new)>(a: array<T>, l: int, start: int, ghost stop: int, u: int, pivot: T, lt: (T, T) -> bool)
    returns (i: int, error: bool, ghost seen: set<int>)
    requires 0 <= l <= start < stop <= u < a.Length && Le(lt, pivot, a[stop])
    requires forall k :: l <= k <= start ==> Le(lt, a[k], pivot)
    requires Asymmetric(lt)
    ensures start < i <= stop && Le(lt, pivot, a[i]) && !error && Within(seen, l, u)
    ensures forall k :: l <= k < i ==> Le(lt, a[k], pivot)
  {
    error := false;
    i := start + 1;
    seen := {i};
    while lt(a[i], pivot)
      invariant start < i <= stop && !error && i in seen && Within(seen, l, u)
      invariant forall k :: l <= k < i ==> Le(lt, a[k], pivot)
      decreases stop - i
    {
      if i > u { error := true; }
      i := i + 1;
      seen := seen + {i};
    }
  }

  /** Repeat --j until a[j] <= P: some element between `stop` and `j` stops it. */
  method ScanDown<T(!new)>(a: array<T>, l: int, ghost stop: int, start: int, u: int, pivot: T, lt: (T, T) -> bool)
    returns (j: int, error: bool, ghost seen: set<int>)
    requires 0 <= l <= stop < start <= u < a.Length && Le(lt, a[stop], pivot)
    requires forall k :: start <= k <= u ==> Le(lt, pivot, a[k])
    requires Asymmetric(lt)
    ensures stop <= j < start && Le(lt, a[j], pivot) && !error && Within(seen, l, u)
    ensures forall k :: j < k <= u ==> Le(lt, pivot, a[k])
  {
    error := false;
    j := start - 1;
    seen := {j};
    while lt(pivot, a[j])
      invariant stop <= j < start && !error && j in seen && Within(seen, l, u)
      invariant forall k :: j < k <= u ==> Le(lt, pivot, a[k])
      decreases j
    {
      if j < l { error := true; }
      j := j - 1;
      seen := seen + {j};
    }
  }

  /** Elements up to `i` are at most the pivot a[u-1], the others at least. */
  ghost predicate Distributed<T>(s: seq<T>, l: int, i: int, u: int, lt: (T, T) -> bool)
    requires 0 <= l <= i <= u - 1 && u < |s|
  {
    (forall k :: l <= k < i ==> Le(lt, s[k], s[u - 1])) && (forall k :: i <= k <= u ==> Le(lt, s[u - 1], s[k]))
  }

  /** Bring smaller elements to the front and larger ones to the back, until the scans meet. */
  method Distribute<T(!new)>(a: array<T>, l: int, u: int, lt: (T, T) -> bool)
    returns (i: int, error: bool, ghost seen: set<int>)
    requires StrictWeak(lt) && 1 <= l < u - 2 && u < a.Length && Le(lt, a[l], a[u - 1]) && Le(lt, a[u - 1], a[u])
    modifies a
    ensures Rearranged(old(a[..]), a[..], l, u) && !error && l < i <= u - 1 && Distributed(a[..], l, i, u, lt)
    ensures Within(seen, l, u)
  {
    hide Rearranged, StrictWeak, Split, Asymmetric, Within;
    var pivot := a[u - 1];
    var j;
    i, j, error, seen := l, u - 1, false, {u - 1};
    StartDistribute(a[..], l, u, lt);
    while true
      invariant Rearranged(old(a[..]), a[..], l, u) && Split(a[..], l, i, j, u, pivot, lt)
      invariant l <= i <= j <= u - 1 && i < u - 1 && (i == j ==> l < i) && a[u - 1] == pivot && !error
                && Within(seen, l, u)
      decreases u - i
    {
      ghost var i0, was := i, a[..];
      SplitEnds(was, l, i, j, u, pivot, lt);
      var e1, e2; ghost var up, down;
      i, e1, up := ScanUp(a, l, i, if i == j then u - 1 else j, u, pivot, lt);
      j, e2, down := ScanDown(a, l, if i0 == j then j - 1 else i0, j, u, pivot, lt);
      WithinBoth(seen, up, l, u, l, u);
      WithinBoth(seen + up, down, l, u, l, u);
      seen := seen + up + down;
      error := e1 || e2;
      if j < i { break; }
      SwapRearranges(was, i, j, l, u);
      SwapSplit(was, l, i, j, u, pivot, lt);
      Swap(a, i, j);
      RearrangedAgain(old(a[..]), was, a[..], l, u, l, u);
    }
  }

  lemma StartDistribute<T(!new)>(s: seq<T>, l: int, u: int, lt: (T, T) -> bool)
    requires StrictWeak(lt) && 0 <= l < u - 1 && u < |s| && Le(lt, s[l], s[u - 1]) && Le(lt, s[u - 1], s[u])
    ensures Split(s, l, l, u - 1, u, s[u - 1], lt) && Rearranged(s, s, l, u) && Within({u - 1}, l, u) && Asymmetric(lt)
  {
  }

  lemma SplitEnds<T>(s: seq<T>, l: int, i: int, j: int, u: int, pivot: T, lt: (T, T) -> bool)
    requires Split(s, l, i, j, u, pivot, lt)
    ensures Le(lt, s[i], pivot) && Le(lt, pivot, s[j])
    ensures forall k :: l <= k <= i ==> Le(lt, s[k], pivot)
    ensures forall k :: j <= k <= u ==> Le(lt, pivot, s[k])
  {
  }

  /** Move the pivot a[m] to its place; the order function is never found invalid. */
  method Partition<T(!new)>(a: array<T>, l: int, m: int, u: int, lt: (T, T) -> bool)
    returns (i: int, error: bool, ghost seen: set<int>)
    requires StrictWeak(lt) && 1 <= l < m < u < a.Length && u - l > 2 && m < u - 1
    requires Le(lt, a[l], a[m]) && Le(lt, a[m], a[u])
    modifies a
    ensures Rearranged(old(a[..]), a[..], l, u) && Partitioned(a[..], l, i, u, lt) && !error && Within(seen, l, u)
  {
    hide Rearranged, StrictWeak, Le, Partitioned, Distributed, Swapped, Within;
    ghost var s0 := a[..];
    SwapRearranges(s0, m, u - 1, l, u);
    PivotAside(s0, l, m, u);
    Swap(a, m, u - 1);
    ghost var first := a[..];
    i, error, seen := Distribute(a, l, u, lt);
    WithinFew(seen, m, u - 1, l, u);
    WithinFew(seen + {m, u - 1}, u - 1, i, l, u);
    seen := seen + {m, u - 1} + {u - 1, i};
    ghost var was := a[..];
    SwapRearranges(was, u - 1, i, l, u);
    PivotPlaced(was, l, i, u, lt);
    Swap(a, u - 1, i);
    RearrangedAgain(s0, first, was, l, u, l, u);
    RearrangedAgain(s0, was, a[..], l, u, l, u);
  }

  lemma PivotAside<T>(s: seq<T>, l: int, m: int, u: int)
    requires 0 <= l < m < u - 1 && u < |s|
    ensures var t := Swapped(s, m, u - 1); |t| == |s| && t[l] == s[l] && t[u - 1] == s[m] && t[u] == s[u]
  {
  }

  lemma PivotPlaced<T>(s: seq<T>, l: int, i: int, u: int, lt: (T, T) -> bool)
    requires 0 <= l < i <= u - 1 && u < |s| && Distributed(s, l, i, u, lt)
    ensures Partitioned(Swapped(s, u - 1, i), l, i, u, lt)
  {
  }

  lemma SwapSplit<T>(s: seq<T>, l: int, i: int, j: int, u: int, pivot: T, lt: (T, T) -> bool)
    requires 0 <= l <= i <= j <= u < |s| && Le(lt, s[j], pivot) && Le(lt, pivot, s[i])
    requires forall k :: l <= k < i ==> Le(lt, s[k], pivot)
    requires forall k :: j < k <= u ==> Le(lt, pivot, s[k])
    ensures Split(Swapped(s, i, j), l, i, j, u, pivot, lt)
  {
  }

  /** `auxsort`: sort from `lo` to `hi`. `used` is the depth that the recursion reached, and
      `seen` has the indices that were read. */
  method AuxSort<T(!new)>(a: array<T>, lo: int, hi: int, lt: (T, T) -> bool)
    returns (error: bool, ghost used: nat, ghost seen: set<int>)
    requires StrictWeak(lt) && 1 <= lo && hi < a.Length && lo <= hi + 1
    modifies a
    ensures Rearranged(old(a[..]), a[..], lo, hi) && Sorted(a[..], lo, hi, lt) && !error
    ensures Pow2(used) <= hi - lo + 2 && Within(seen, lo, hi)
    decreases hi - lo
  {
    hide StrictWeak, Rearranged, Partitioned, Working, Le, Sorted, Pow2, Within;
    var l, u := lo, hi;
    error, used, seen := false, 0, {};
    StartSort(a[..], lo, hi, lt);
    while l < u
      invariant lo <= l && u <= hi && l <= u + 1 && !error
      invariant Working(old(a[..]), a[..], lo, hi, l, u, seen, lt) && Pow2(used) <= hi - lo + 2
      decreases u - l
    {
      ghost var s0 := a[..];
      var m; ghost var more;
      m, more := SortThree(a, l, u, lt);
      ghost var s1 := a[..];
      StepWorks(old(a[..]), s0, s1, lo, hi, l, u, seen, more, lt);
      seen := seen + more;
      if u - l <= 2 {
        AllSorted(old(a[..]), s1, lo, hi, l, u, seen, lt);
        return;
      }
      var i, e;
      i, e, more := Partition(a, l, m, u, lt);
      ghost var s2 := a[..];
      PivotInRange(s2, l, i, u, lt);
      StepWorks(old(a[..]), s1, s2, lo, hi, l, u, seen, more, lt);
      seen := seen + more;
      ghost var deeper;
      if i - l < u - i {
        e, deeper, more := AuxSort(a, l, i - 1, lt);
        PartWorks(old(a[..]), s2, a[..], lo, hi, l, i, u, true, seen, more, lt);
        l := i + 1;
      } else {
        e, deeper, more := AuxSort(a, i + 1, u, lt);
        PartWorks(old(a[..]), s2, a[..], lo, hi, l, i, u, false, seen, more, lt);
        u := i - 1;
      }
      seen := seen + more;
      Deeper(deeper);
      used := if used < deeper + 1 then deeper + 1 else used;
    }
    EndSort(old(a[..]), a[..], lo, hi, l, u, seen, lt);
  }

  /** What is left to sort is from `l` to `u`. */
  ghost predicate Working<T>(s0: seq<T>, s: seq<T>, lo: int, hi: int, l: int, u: int, seen: set<int>,
      lt: (T, T) -> bool)
  {
    && 0 <= lo && hi < |s|
    && Rearranged(s0, s, lo, hi) && SortedOutside(s, lo, hi, l, u, lt) && Within(seen, lo, hi)
  }

  lemma StepWorks<T>(s0: seq<T>, s: seq<T>, t: seq<T>, lo: int, hi: int, l: int, u: int, seen: set<int>,
      more: set<int>, lt: (T, T) -> bool)
    requires 0 <= lo <= l && u <= hi < |s| == |t| && Working(s0, s, lo, hi, l, u, seen, lt)
    requires Rearranged(s, t, l, u) && Within(more, l, u)
    ensures Working(s0, t, lo, hi, l, u, seen + more, lt)
  {
    hide Rearranged, SortedOutside, Within;
    OutsideKept(s, t, lo, hi, l, u, lt);
    RearrangedAgain(s0, s, t, lo, hi, l, u);
    WithinBoth(seen, more, l, u, lo, hi);
  }

  /** One side of the pivot has been sorted. */
  lemma PartWorks<T(!new)>(s0: seq<T>, s: seq<T>, t: seq<T>, lo: int, hi: int, l: int, i: int, u: int, low: bool,
      seen: set<int>, more: set<int>, lt: (T, T) -> bool)
    requires StrictWeak(lt) && 0 <= lo <= l <= i <= u <= hi < |s| == |t|
    requires Working(s0, s, lo, hi, l, u, seen, lt) && Partitioned(s, l, i, u, lt)
    requires var (x, y) := if low then (l, i - 1) else (i + 1, u);
             Rearranged(s, t, x, y) && Sorted(t, x, y, lt) && Within(more, x, y)
    ensures var (x, y) := if low then (i + 1, u) else (l, i - 1);
            Working(s0, t, lo, hi, x, y, seen + more, lt)
  {
    hide Rearranged, SortedOutside, Sorted, Within, Partitioned, StrictWeak;
    OnePartLeft(s, t, lo, hi, l, i, u, low, lt);
    var (x, y) := if low then (l, i - 1) else (i + 1, u);
    RearrangedAgain(s0, s, t, lo, hi, x, y);
    WithinBoth(seen, more, x, y, lo, hi);
  }

  lemma PivotInRange<T>(s: seq<T>, l: int, i: int, u: int, lt: (T, T) -> bool)
    requires Partitioned(s, l, i, u, lt)
    ensures l <= i <= u
  {
  }

  lemma StartSort<T>(s: seq<T>, lo: int, hi: int, lt: (T, T) -> bool)
    requires 0 <= lo && hi < |s|
    ensures Working(s, s, lo, hi, lo, hi, {}, lt) && Pow2(0) == 1
  {
  }

  lemma Deeper(d: nat)
    ensures Pow2(d + 1) == 2 * Pow2(d)
  {
  }

  lemma EndSort<T>(s0: seq<T>, s: seq<T>, lo: int, hi: int, l: int, u: int, seen: set<int>, lt: (T, T) -> bool)
    requires 0 <= lo && hi < |s| && l >= u && Working(s0, s, lo, hi, l, u, seen, lt)
    ensures Rearranged(s0, s, lo, hi) && Sorted(s, lo, hi, lt) && Within(seen, lo, hi)
  {
    hide Rearranged, Within;
  }

  lemma AllSorted<T>(s0: seq<T>, s: seq<T>, lo: int, hi: int, l: int, u: int, seen: set<int>, lt: (T, T) -> bool)
    requires 0 <= lo <= l < u <= hi < |s| && u - l <= 2 && Working(s0, s, lo, hi, l, u, seen, lt)
    requires Le(lt, s[l], s[u]) && (u - l == 2 ==> Le(lt, s[l], s[l + 1]) && Le(lt, s[l + 1], s[u]))
    ensures Rearranged(s0, s, lo, hi) && Sorted(s, lo, hi, lt) && Within(seen, lo, hi)
  {
    hide Rearranged, Within;
  }
}
