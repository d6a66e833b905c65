/** How big the array part of a table should be: more than half of it in use. */
module TableSizes {
  import opened Log2

  const MAX_BITS: nat := 26
  const MAX_ARRAY_SIZE: nat := Pow2(26)

  /** The members of `p` among 1..n. */
  ghost function UpTo(p: set<int>, n: int): set<int> {
    set i | i in p && 1 <= i <= n
  }

  /** The members of `p` above 2^(lg-1), up to 2^lg; 1 is in slice 0. */
  ghost function Slice(p: set<int>, lg: nat): set<int> {
    set i | i in p && (if lg == 0 then 1 else Pow2(lg - 1) + 1) <= i <= Pow2(lg)
  }

  ghost function Interval(n: nat): (s: set<int>)
    ensures forall i :: i in s <==> 1 <= i <= n
  {
    if n == 0 then {} else Interval(n - 1) + {n}
  }

  lemma {:induction false} IntervalSize(n: nat)
    ensures |Interval(n)| == n
  {
    if n > 0 { IntervalSize(n - 1); }
  }

  lemma SubsetSize(a: set<int>, b: set<int>)
    requires a <= b
    ensures |a| <= |b|
  {
    assert b == a + (b - a);
  }

  lemma UpToSize(p: set<int>, n: nat)
    ensures |UpTo(p, n)| <= n && |UpTo(p, n)| <= |p|
  {
    IntervalSize(n);
    SubsetSize(UpTo(p, n), Interval(n));
    SubsetSize(UpTo(p, n), p);
  }

  lemma UpToSplit(p: set<int>, lg: nat)
    ensures UpTo(p, Pow2(lg)) == (if lg == 0 then {} else UpTo(p, Pow2(lg - 1))) + Slice(p, lg)
    ensures |UpTo(p, Pow2(lg))| == (if lg == 0 then 0 else |UpTo(p, Pow2(lg - 1))|) + |Slice(p, lg)|
  {
    var low := if lg == 0 then {} else UpTo(p, Pow2(lg - 1));
    assert UpTo(p, Pow2(lg)) == low + Slice(p, lg);
    assert low !! Slice(p, lg);
  }

  /** `nums` counts the members of `p` slice by slice. */
  ghost predicate Counts(nums: seq<nat>, p: set<int>) {
    |nums| == MAX_BITS + 1 && forall lg :: 0 <= lg <= MAX_BITS ==> nums[lg] == |Slice(p, lg)|
  }

  lemma CountOne(nums: seq<nat>, p: set<int>, k: int)
    requires Counts(nums, p) && k !in p && 1 <= k <= MAX_ARRAY_SIZE
    ensures CeilLog2(k) <= MAX_BITS
    ensures Counts(nums[CeilLog2(k) := nums[CeilLog2(k)] + 1], p + {k})
  {
    var c := CeilLog2(k);
    if c > MAX_BITS { Pow2Monotone(MAX_BITS, c - 1); }
    forall lg | 0 <= lg <= MAX_BITS ensures |Slice(p + {k}, lg)| == |Slice(p, lg)| + if lg == c then 1 else 0 {
      AddToSlice(p, k, lg);
    }
  }

  lemma AddToSlice(p: set<int>, k: int, lg: nat)
    requires k !in p && k >= 1
    ensures |Slice(p + {k}, lg)| == |Slice(p, lg)| + if lg == CeilLog2(k) then 1 else 0
  {
    var c := CeilLog2(k);
    if lg == c {
      assert Slice(p + {k}, lg) == Slice(p, lg) + {k};
    } else {
      if lg < c { Pow2Monotone(lg, c - 1); } else { Pow2Monotone(c, lg - 1); }
      assert Slice(p + {k}, lg) == Slice(p, lg);
    }
  }

  ghost predicate IsPow2(n: nat) {
    exists i: nat :: n == Pow2(i)
  }

  /** `n` is the largest power of two (or 0) with more than half of 1..n in `p`. */
  ghost predicate BestSize(p: set<int>, n: nat) {
    && (n == 0 || (IsPow2(n) && 2 * |UpTo(p, n)| > n))
    && forall j: nat :: Pow2(j) > n ==> 2 * |UpTo(p, Pow2(j))| <= Pow2(j)
  }

  /** The best size for the array part, and how many of the keys then live there. */
  method ComputeSizes(nums: seq<nat>, narray: nat, ghost p: set<int>) returns (n: nat, na: nat)
    requires Counts(nums, p) && narray == |p| && forall i :: i in p ==> 1 <= i <= MAX_ARRAY_SIZE
    ensures BestSize(p, n) && na == |UpTo(p, n)|
    ensures n <= MAX_ARRAY_SIZE && n / 2 <= na <= n
  {
    var i: nat, twotoi: nat, a: nat := 0, 1, 0;
    n, na := 0, 0;
    assert UpTo(p, 0) == {};
    assert BestBelow(p, 0, 0, 0);
    hide Slice, Counts, UpTo, BestBelow, IsPow2, Pow2;
    while twotoi / 2 < narray
      invariant i <= MAX_BITS + 1 && twotoi == Pow2(i)
      invariant a == CountedBelow(p, i)
      invariant twotoi / 2 < narray ==> i <= MAX_BITS
      invariant BestBelow(p, i, n, na)
      decreases MAX_BITS + 1 - i
    {
      CountSlice(nums, p, i);
      if nums[i] > 0 {
        a := a + nums[i];
        if a > twotoi / 2 {
          n, na := twotoi, a;
        }
      }
      BestStep(p, i, n, na, a);
      if a == narray {
        AllCounted(p, i, n, na);
        return;
      }
      i := i + 1;
      twotoi := twotoi * 2;
      if i == MAX_BITS + 1 { EverythingCounted(p); }
    }
    NoneLarger(p, i, n, na, twotoi);
  }

  ghost function CountedBelow(p: set<int>, i: nat): nat {
    if i == 0 then 0 else |UpTo(p, Pow2(i - 1))|
  }

  /** `n` is the best size among the powers of two below 2^i. */
  ghost predicate BestBelow(p: set<int>, i: nat, n: nat, na: nat) {
    && na == |UpTo(p, n)| && n <= MAX_ARRAY_SIZE && (n == 0 || (IsPow2(n) && 2 * na > n))
    && forall j: nat :: j < i && Pow2(j) > n ==> 2 * |UpTo(p, Pow2(j))| <= Pow2(j)
  }

  lemma CountSlice(nums: seq<nat>, p: set<int>, i: nat)
    requires Counts(nums, p) && i <= MAX_BITS
    ensures |UpTo(p, Pow2(i))| == CountedBelow(p, i) + nums[i] && |nums| == MAX_BITS + 1
    ensures nums[i] == 0 ==> 2 * |UpTo(p, Pow2(i))| <= Pow2(i)
    ensures Pow2(i + 1) == 2 * Pow2(i)
  {
    UpToSplit(p, i);
    if i > 0 { UpToSize(p, Pow2(i - 1)); }
  }

  /** The new best size is 2^i if more than half used, and the old one if not. */
  lemma BestStep(p: set<int>, i: nat, n: nat, na: nat, a: nat)
    requires a == |UpTo(p, Pow2(i))| && i <= MAX_BITS
    requires if n == Pow2(i) && na == a then 2 * a > n else BestBelow(p, i, n, na) && 2 * a <= Pow2(i)
    ensures BestBelow(p, i + 1, n, na)
  {
    hide UpTo;
    Pow2Monotone(i, MAX_BITS);
    forall j: nat | j < i + 1 && Pow2(j) > n ensures 2 * |UpTo(p, Pow2(j))| <= Pow2(j) {
      Pow2Monotone(j, i);
    }
  }

  lemma EverythingCounted(p: set<int>)
    requires forall i :: i in p ==> 1 <= i <= MAX_ARRAY_SIZE
    ensures |UpTo(p, Pow2(MAX_BITS))| == |p|
  {
    assert UpTo(p, MAX_ARRAY_SIZE) == p;
  }

  /** Once all keys are counted, no larger size is more than half used. */
  lemma AllCounted(p: set<int>, i: nat, n: nat, na: nat)
    requires |UpTo(p, Pow2(i))| == |p|
    requires BestBelow(p, i + 1, n, na)
    ensures BestSize(p, n) && na == |UpTo(p, n)| && n <= MAX_ARRAY_SIZE && n / 2 <= na <= n
  {
    UpToSize(p, n);
    forall j: nat | j > i ensures 2 * |UpTo(p, Pow2(j))| <= Pow2(j) {
      UpToSize(p, Pow2(i));
      UpToSize(p, Pow2(j));
      Pow2Monotone(i + 1, j);
    }
  }

  lemma NoneLarger(p: set<int>, i: nat, n: nat, na: nat, twotoi: nat)
    requires twotoi == Pow2(i) && twotoi / 2 >= |p|
    requires BestBelow(p, i, n, na)
    ensures BestSize(p, n) && na == |UpTo(p, n)| && n <= MAX_ARRAY_SIZE && n / 2 <= na <= n
  {
    UpToSize(p, n);
    forall j: nat | j >= i ensures 2 * |UpTo(p, Pow2(j))| <= Pow2(j) {
      UpToSize(p, Pow2(j));
      Pow2Monotone(i, j);
    }
  }
}
