/** What holds of the collector's state between any two steps. */
module CollectorInvariant {
  import opened Common
  import opened ObjectGraph
  import opened Marking
  import opened CollectorState

  ghost predicate IsThread(s: State, t: Ref) {
    t in s.graph && s.graph[t].kind == Thread
  }

  ghost predicate Placed(g: Graph) {
    forall x :: x in g && g[x].loc.Open? ==>
      && g[x].loc.thread in g && g[g[x].loc.thread].kind == Thread
      && g[x].loc.level < |g[g[x].loc.thread].slots|
  }

  /** Every object is in exactly the chain it belongs to. */
  ghost predicate InMainChain(s: State, x: Ref) {
    x in s.graph && s.graph[x].kind != String && s.graph[x].loc.Closed?
  }

  ghost predicate InStringChain(s: State, x: Ref, b: nat) {
    |s.strt| > 0 && x in s.graph && s.graph[x].kind == String && s.graph[x].hash % |s.strt| == b
  }

  ghost predicate InOpenChain(s: State, x: Ref, t: Ref) {
    x in s.graph && s.graph[x].loc.Open? && s.graph[x].loc.thread == t
  }

  ghost predicate MainChain(s: State) {
    NoDuplicates(s.rootgc) && forall x :: x in s.rootgc <==> InMainChain(s, x)
  }

  ghost predicate StringChains(s: State) {
    && |s.strt| > 0
    && (forall b :: 0 <= b < |s.strt| ==> NoDuplicates(s.strt[b]))
    && (forall b, x :: 0 <= b < |s.strt| ==> (x in s.strt[b] <==> InStringChain(s, x, b)))
  }

  ghost predicate OpenChains(s: State) {
    && (forall t :: t in s.openupval <==> IsThread(s, t))
    && (forall t :: t in s.openupval ==> NoDuplicates(s.openupval[t]))
    && (forall t, x :: t in s.openupval ==> (x in s.openupval[t] <==> InOpenChain(s, x, t)))
  }

  ghost predicate UvHead(s: State) {
    NoDuplicates(s.uvhead) && forall x :: x in s.uvhead <==> IsOpen(s.graph, x)
  }

  ghost predicate Chains(s: State) {
    MainChain(s) && StringChains(s) && OpenChains(s) && UvHead(s)
  }

  ghost predicate Shape(s: State) {
    && s.color.Keys == s.graph.Keys
    && Typed(s.graph) && Placed(s.graph)
    && IsThread(s, s.main)
    && s.main in s.fixed
    && (forall x :: x in s.fixed ==> x in s.graph && (x == s.main || s.graph[x].kind == String))
    && Chains(s)
  }

  /** No live object refers to a dead one, and the roots are live. */
  ghost predicate LiveOk(s: State) {
    && (forall r :: r in s.Roots() ==> Live(s, r))
    && (forall x, y :: Live(s, x) && Edge(s.graph, x, y) ==> Live(s, y))
  }

  ghost predicate AllWhite(s: State) {
    forall x :: x in s.color ==> s.color[x] == White(s.white)
  }

  /** Gray objects whose kids may be unmarked while the mutator runs: those kept
      for the atomic phase, and open upvalues. */
  ghost function Lax(s: State): set<Ref> {
    set x | x in s.color && s.color[x] == Gray && (x in s.grayagain || IsOpen(s.graph, x))
  }

  ghost predicate MarkingOk(s: State) {
    && (forall x :: x in s.color && s.color[x].White? ==> s.color[x] == White(s.white))
    && MarkInv(s.graph, s.GetMarks(), Lax(s), {})
    && !IsWhite(s.GetMarks(), s.main) && !IsWhite(s.GetMarks(), s.registry)
  }

  ghost predicate CurrentWhite(s: State, x: Ref) {
    x in s.color && s.color[x] == White(s.white)
  }

  /** An object the sweep has passed. */
  ghost predicate Settled(s: State, x: Ref) {
    && CurrentWhite(s, x)
    && (x in s.openupval ==> forall u :: u in s.openupval[x] ==> CurrentWhite(s, u))
  }

  ghost predicate StringsSwept(s: State, n: nat) {
    forall b, x {:trigger x in s.strt[b]} :: 0 <= b < n && b < |s.strt| && x in s.strt[b] ==> CurrentWhite(s, x)
  }

  ghost predicate OpenNotBlack(s: State) {
    forall x :: IsOpen(s.graph, x) && x in s.color ==> s.color[x] != Black
  }

  ghost predicate PhaseOk(s: State) {
    match s.phase
    case Pause => AllWhite(s)
    case Finalize => AllWhite(s)
    case Propagate => MarkingOk(s)
    case SweepString => s.sweepstr < |s.strt| && s.sweepgc == 0 && StringsSwept(s, s.sweepstr) && OpenNotBlack(s)
    case Sweep =>
      && OpenNotBlack(s)
      && StringsSwept(s, |s.strt|)
      && s.sweepgc <= |s.rootgc|
      && forall k :: 0 <= k < s.sweepgc ==> Settled(s, s.rootgc[k])
  }

  ghost predicate Inv(s: State) {
    Shape(s) && LiveOk(s) && PhaseOk(s)
  }

  /** While marking, no black object refers to a white one. */
  lemma NoBlackToWhite(s: State, x: Ref, y: Ref)
    requires Inv(s) && s.phase == Propagate
    requires x in s.color && s.color[x] == Black && Edge(s.graph, x, y)
    ensures y in s.graph && !IsWhite(s.GetMarks(), y)
  {
    assert Live(s, x) && Live(s, y);
    var m := s.GetMarks();
    assert x !in m.gray && x !in Lax(s);
    assert KidsMarked(s.graph, m, x);
  }

  /** Nothing reachable is dead. */
  lemma ReachableIsLive(s: State, o: Ref)
    requires Inv(s) && Reachable(s.graph, s.Roots(), o)
    ensures Live(s, o)
  {
    var live := set x | x in s.graph && Live(s, x);
    assert ClosedUnder(s.graph, live) by {
      forall x, y | x in live && Edge(s.graph, x, y) ensures y in live { assert Live(s, y); }
    }
    ReachableWithin(s.graph, s.Roots(), live, o);
  }
}
