/** Integer logarithms by table look-up, as the table sizes need them. */
module Log2 {

  function Pow2(n: nat): (p: nat)
    ensures p > 0
  {
    if n == 0 then 1 else 2 * Pow2(n - 1)
  }

  lemma {:induction false} Pow2Monotone(a: nat, b: nat)
    requires a <= b
    ensures Pow2(a) <= Pow2(b)
  {
    if a < b { Pow2Monotone(a, b - 1); }
  }

  function Run(n: nat, v: int): (r: seq<int>)
    ensures |r| == n && forall i :: 0 <= i < n ==> r[i] == v
  {
    seq(n, i => v)
  }

  /** The look-up table, written in runs: number of bits of a byte, that is 0 for 0
      and otherwise one more than its logarithm. */
  const LOG_2: seq<int> :=
    Run(1, 0) + Run(1, 1) + Run(2, 2) + Run(4, 3) + Run(8, 4) + Run(16, 5) + Run(32, 6) + Run(64, 7) + Run(128, 8)

  /** `l` is the integer logarithm of `x`, and -1 for 0. */
  ghost predicate IsLog(x: nat, l: int) {
    if x == 0 then l == -1 else l >= 0 && Pow2(l) <= x < Pow2(l + 1)
  }

  lemma ByteLog(x: nat)
    requires x < 256
    ensures IsLog(x, LOG_2[x] - 1)
  {
    assert Pow2(1) == 2 && Pow2(2) == 4 && Pow2(3) == 8 && Pow2(4) == 16;
    assert Pow2(5) == 32 && Pow2(6) == 64 && Pow2(7) == 128 && Pow2(8) == 256;
  }

  /** The integer logarithm, one bit at a time. */
  function FloorLog2(x: nat): (l: int)
    ensures IsLog(x, l)
  {
    if x == 0 then -1 else 1 + FloorLog2(x / 2)
  }

  lemma Halve(x: nat)
    requires x > 0
    ensures FloorLog2(x) == 1 + FloorLog2(x / 2)
  {
  }

  lemma Halve4(x: nat)
    requires x >= 16
    ensures FloorLog2(x) == FloorLog2(x / 16) + 4
  {
    hide FloorLog2, IsLog;
    Halve(x);
    Halve(x / 2);
    Halve(x / 2 / 2);
    Halve(x / 2 / 2 / 2);
    assert x / 2 / 2 / 2 / 2 == x / 16;
  }

  lemma ShiftLog(x: nat)
    requires x >= 256
    ensures FloorLog2(x) == FloorLog2(x / 256) + 8
  {
    hide FloorLog2, IsLog;
    Halve4(x);
    Halve4(x / 16);
  }

  lemma LogUnique(x: nat, l: int, k: int)
    requires IsLog(x, l) && IsLog(x, k)
    ensures l == k
  {
    if 0 <= l < k { Pow2Monotone(l + 1, k); }
    if 0 <= k < l { Pow2Monotone(k + 1, l); }
  }

  method IntLog2(x: nat) returns (l: int)
    ensures l == FloorLog2(x) && IsLog(x, l)
  {
    var y: nat := x;
    l := -1;
    while y >= 256
      invariant l + 1 + FloorLog2(y) == FloorLog2(x)
    {
      ShiftLog(y);
      y := y / 256;
      l := l + 8;
    }
    ByteLog(y);
    LogUnique(y, LOG_2[y] - 1, FloorLog2(y));
    l := l + LOG_2[y];
  }

  /** The least exponent whose power of two is at least `x`. */
  function CeilLog2(x: nat): (c: nat)
    ensures x <= Pow2(c) && (c > 0 ==> Pow2(c - 1) < x)
  {
    if x <= 1 then 0 else 1 + CeilLog2((x + 1) / 2)
  }

  /** The macro `ceillog2`, for positive arguments. */
  method CeilingLog2(x: nat) returns (c: nat)
    requires x > 0
    ensures c == CeilLog2(x)
  {
    var l := IntLog2(x - 1);
    c := l + 1;
    CeilLogUnique(x, c, CeilLog2(x));
  }

  lemma CeilLogUnique(x: nat, c: nat, d: nat)
    requires x <= Pow2(c) && (c > 0 ==> Pow2(c - 1) < x)
    requires x <= Pow2(d) && (d > 0 ==> Pow2(d - 1) < x)
    ensures c == d
  {
    if c < d { Pow2Monotone(c, d - 1); }
    if d < c { Pow2Monotone(d, c - 1); }
  }
}
