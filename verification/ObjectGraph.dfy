/** The heap the collector works on: collectable objects with their reference
    slots, and what it means for one object to be reachable from another. */
module ObjectGraph {
  import opened Common

  type Ref = nat

  datatype Kind = String | Userdata | Upvalue | Closure | Table | Thread | Proto

  /** An open upvalue has its value in a slot of a thread's stack; a closed one
      (and every other object) holds its own slots. */
  datatype Location = Closed | Open(thread: Ref, level: nat)

  /** `None` in a slot is nil or a value that is not collectable. The hash is
      meaningful for strings only. */
  datatype Object = Object(kind: Kind, slots: seq<Option<Ref>>, loc: Location, hash: nat)

  type Graph = map<Ref, Object>

  /** The values an object refers to; an open upvalue refers to its stack slot. */
  function Kids(g: Graph, o: Ref): (vs: seq<Option<Ref>>)
    requires o in g
  {
    match g[o].loc
    case Closed => g[o].slots
    case Open(t, i) => if t in g && i < |g[t].slots| then [g[t].slots[i]] else []
  }

  predicate Edge(g: Graph, o: Ref, c: Ref) {
    o in g && Some(c) in Kids(g, o)
  }

  ghost predicate Walk(g: Graph, p: seq<Ref>) {
    |p| > 0 && forall i, j {:trigger p[i], p[j]} :: 0 <= i && j == i + 1 && j < |p| ==> Edge(g, p[i], p[j])
  }

  ghost predicate WalkFrom(g: Graph, roots: set<Ref>, p: seq<Ref>, o: Ref) {
    Walk(g, p) && p[0] in roots && p[|p| - 1] == o
  }

  ghost predicate Reachable(g: Graph, roots: set<Ref>, o: Ref) {
    exists p :: WalkFrom(g, roots, p, o)
  }

  ghost predicate ClosedUnder(g: Graph, c: set<Ref>) {
    forall x, y :: x in c && Edge(g, x, y) ==> y in c
  }

  /** Whatever contains the roots and follows every edge contains all that is reachable. */
  lemma {:induction false} ReachableWithin(g: Graph, roots: set<Ref>, c: set<Ref>, o: Ref)
    requires roots <= c && ClosedUnder(g, c)
    requires Reachable(g, roots, o)
    ensures o in c
  {
    var p :| WalkFrom(g, roots, p, o);
    WalkStaysWithin(g, c, p, |p| - 1);
  }

  lemma {:induction false} WalkStaysWithin(g: Graph, c: set<Ref>, p: seq<Ref>, k: nat)
    requires Walk(g, p) && p[0] in c && ClosedUnder(g, c) && k < |p|
    ensures p[k] in c
  {
    if k > 0 {
      WalkStaysWithin(g, c, p, k - 1);
      assert Edge(g, p[k - 1], p[k]);
    }
  }

  lemma RootIsReachable(g: Graph, roots: set<Ref>, o: Ref)
    requires o in roots
    ensures Reachable(g, roots, o)
  {
    assert WalkFrom(g, roots, [o], o);
  }

  lemma ReachableStep(g: Graph, roots: set<Ref>, o: Ref, c: Ref)
    requires Reachable(g, roots, o) && Edge(g, o, c)
    ensures Reachable(g, roots, c)
  {
    var p :| WalkFrom(g, roots, p, o);
    var q := p + [c];
    forall i, j | 0 <= i && j == i + 1 && j < |q| ensures Edge(g, q[i], q[j]) {
      if j < |p| { assert q[i] == p[i] && q[j] == p[j]; }
    }
    assert WalkFrom(g, roots, q, c);
  }

  /** The reachable part of a heap that contains its roots. */
  ghost function ReachableSet(g: Graph, roots: set<Ref>): (r: set<Ref>)
    ensures forall o :: o in r <==> o in g && Reachable(g, roots, o)
  {
    set o | o in g && Reachable(g, roots, o)
  }

  function Without(s: seq<Ref>, x: Ref): (r: seq<Ref>)
    ensures forall y :: y in r <==> y in s && y != x
    ensures NoDuplicates(s) ==> NoDuplicates(r)
    ensures x !in s ==> r == s
  {
    if s == [] then []
    else
      var rest := Without(s[1..], x);
      assert forall y :: y in s <==> y == s[0] || y in s[1..];
      assert NoDuplicates(s) ==> NoDuplicates(s[1..]) && s[0] !in s[1..] by {
        if NoDuplicates(s) {
          forall i, j | 0 <= i < j < |s[1..]| ensures s[1..][i] != s[1..][j] {
            assert s[1..][i] == s[i + 1] && s[1..][j] == s[j + 1];
          }
        }
      }
      if s[0] == x then rest else [s[0]] + rest
  }

  lemma {:induction false} WithoutPrefix(q: seq<Ref>, x: Ref, n: nat)
    requires n <= |q| && x !in q[..n]
    ensures |Without(q, x)| >= n && Without(q, x)[..n] == q[..n]
    decreases |q|
  {
    if n > 0 {
      assert q[0] in q[..n] && q[1..][..n - 1] == q[..n][1..];
      WithoutPrefix(q[1..], x, n - 1);
    }
  }

  lemma {:induction false} WithoutLength(q: seq<Ref>, x: Ref)
    requires NoDuplicates(q) && x in q
    ensures |Without(q, x)| == |q| - 1
    decreases |q|
  {
    forall i, j | 0 <= i < j < |q[1..]| ensures q[1..][i] != q[1..][j] {
      assert q[1..][i] == q[i + 1] && q[1..][j] == q[j + 1];
    }
    if q[0] != x { WithoutLength(q[1..], x); }
  }
}
