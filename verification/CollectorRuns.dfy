/** Runs of the collector interleaved with the mutator: nothing reachable is ever
    freed, and a full collection keeps exactly what is reachable or fixed. */
module CollectorRuns {
  import opened Common
  import opened ObjectGraph
  import opened Marking
  import opened CollectorState
  import opened CollectorInvariant
  import opened CollectorMutator
  import opened CollectorLinking
  import opened CollectorClosing
  import opened CollectorMarkPhase
  import opened CollectorSweep

  // ------------------------------------------------------ steps of the collector

  /** Everything the sweep of this cycle will leave behind. */
  ghost function KeptSet(s: State): (k: set<Ref>)
    ensures s.color.Keys == s.graph.Keys ==> Keeps(s, k)
    ensures Inv(s) ==> Keeps(s, k)
    ensures Inv(s) ==> forall o :: Live(s, o) ==> o in k
  {
    set x | x in s.graph && Kept(s, x)
  }

  lemma SingleStepInv(s: State, keep: set<Ref>)
    requires Inv(s)
    requires s.phase == SweepString || s.phase == Sweep ==> Keeps(s, keep)
    ensures Inv(SingleStep(s))
    ensures s.phase == SweepString || s.phase == Sweep ==>
              Keeps(SingleStep(s), keep) && SameEdges(s, SingleStep(s))
    ensures s.phase == Pause || s.phase == Propagate || s.phase == Finalize ==>
              SingleStep(s).graph == s.graph && SingleStep(s).fixed == s.fixed && SingleStep(s).Roots() == s.Roots()
  {
    hide Keeps, SameEdges, PhaseOk, LiveOk, Shape;
    match s.phase
    case Pause => MarkRootInv(s);
    case Propagate => if s.gray != [] { PropagateStepInv(s); } else { AtomicInv(s); }
    case SweepString => SweepOneStringInv(s, keep);
    case Sweep => SweepSomeInv(s, keep);
    case Finalize => FinalizeInv(s);
  }

  lemma FinalizeInv(s: State)
    requires Inv(s) && s.phase == Finalize
    ensures Inv(s.(phase := Pause)) && s.(phase := Pause).Roots() == s.Roots()
  {
    PhaseKeepsShape(s, Pause);
    PhaseKeepsLive(s, Pause);
  }

  /** A step of the collector frees no live object. */
  lemma SingleStepSafe(s: State)
    requires Inv(s)
    ensures Inv(SingleStep(s))
    ensures forall o :: Live(s, o) ==> o in SingleStep(s).graph
  {
    SingleStepInv(s, KeptSet(s));
  }

  // --------------------------------------------------------- full collections

  /** How far a state is from the end of its cycle. */
  function PhaseRank(s: State): nat {
    match s.phase
    case Pause => 0
    case Finalize => 1
    case Sweep => 2
    case SweepString => 3
    case Propagate => 4
  }

  ghost function Unmarked(s: State): set<Ref> {
    if s.phase == Propagate then Whites(s.GetMarks()) else {}
  }

  function Remaining(s: State): int {
    match s.phase
    case Propagate => |s.gray|
    case SweepString => |s.strt| - s.sweepstr
    case Sweep => Work(s)
    case _ => 0
  }

  ghost predicate Closer(s: State, s': State) {
    || PhaseRank(s') < PhaseRank(s)
    || (PhaseRank(s') == PhaseRank(s) &&
        (Unmarked(s') < Unmarked(s) || (Unmarked(s') == Unmarked(s) && Remaining(s') < Remaining(s))))
  }

  lemma SingleStepCloser(s: State)
    requires Inv(s) && s.phase != Pause
    ensures Closer(s, SingleStep(s)) && Remaining(s) >= 0
  {
    match s.phase
    case Propagate => PropagateCloser(s);
    case SweepString => SweepStringCloser(s);
    case Sweep => SweepCloser(s);
    case Finalize => hide Inv, MarkRoot, Atomic, SweepOneString, SweepSome;
  }

  lemma PropagateCloser(s: State)
    requires s.phase == Propagate
    ensures Closer(s, SingleStep(s)) && Remaining(s) >= 0
  {
    if s.gray != [] {
      hide MarkRoot, Atomic, SweepOneString, SweepSome;
      assert SingleStep(s).GetMarks() == PropagateMark(s.graph, s.GetMarks());
    } else {
      hide MarkRoot, AtomicMarks, SweepOneString, SweepSome;
    }
  }

  lemma SweepStringCloser(s: State)
    requires s.phase == SweepString && s.sweepstr < |s.strt|
    ensures Closer(s, SingleStep(s)) && Remaining(s) >= 0
    ensures SingleStep(s).phase == SweepString || SingleStep(s).phase == Sweep
  {
    hide MarkRoot, Atomic, SweepSome, SweepChain;
  }

  lemma SweepCloser(s: State)
    requires Inv(s) && s.phase == Sweep
    ensures Closer(s, SingleStep(s)) && Remaining(s) >= 0
    ensures SingleStep(s).phase == Sweep || SingleStep(s).phase == Finalize
  {
    hide Keeps, MarkRoot, Atomic, SweepOneString, SweepSome, Shape, LiveOk;
    SweepSomeInv(s, KeptSet(s));
  }

  /** Take steps of the collector until a phase is reached. */
  ghost function RunUntil(s: State, stop: Phase): (r: State)
    requires Inv(s) && (stop == Pause || (stop == Finalize && s.phase != Pause))
    ensures Inv(r) && r.phase == stop
    decreases PhaseRank(s), Unmarked(s), Remaining(s)
  {
    if s.phase == stop then s
    else
      SingleStepSafe(s);
      SingleStepCloser(s);
      assert stop == Finalize ==> PhaseRank(SingleStep(s)) >= 1 by {
        if stop == Finalize { StepsBeforePause(s); }
      }
      RunUntil(SingleStep(s), stop)
  }

  lemma StepsBeforePause(s: State)
    requires Inv(s) && s.phase != Pause && s.phase != Finalize
    ensures SingleStep(s).phase != Pause
    ensures s.phase != Propagate ==> SingleStep(s).phase != Propagate
  {
    hide Shape, LiveOk, MarkRoot, AtomicMarks, SweepOneString, SweepSome;
    if s.phase == SweepString { SweepStringCloser(s); }
    if s.phase == Sweep { SweepCloser(s); }
  }

  lemma ResetInv(s: State)
    requires Inv(s)
    ensures Inv(ResetForFull(s)) && ResetForFull(s).phase != Pause && ResetForFull(s).phase != Propagate
    ensures ResetForFull(s).graph == s.graph && ResetForFull(s).fixed == s.fixed
    ensures ResetForFull(s).Roots() == s.Roots()
    ensures forall o :: Live(s, o) <==> Live(ResetForFull(s), o)
  {
    if s.phase == Pause || s.phase == Propagate {
      var s' := ResetForFull(s);
      assert s'.Roots() == s.Roots();
      AtomicShape(s, s');
      assert LiveOk(s') by { assert forall x :: Live(s', x) <==> Live(s, x); }
      assert OpenNotBlack(s') by {
        forall x | IsOpen(s'.graph, x) && x in s'.color ensures s'.color[x] != Black {
          if s.phase == Propagate { assert BlackKinds(s.graph, s.GetMarks()); }
        }
      }
    }
  }

  ghost function FullGc(s: State): (r: State)
    requires Inv(s)
    ensures Inv(r) && r.phase == Pause
  {
    ResetInv(s);
    var s1 := RunUntil(ResetForFull(s), Finalize);
    MarkRootInv(s1);
    RunUntil(MarkRoot(s1), Pause)
  }

  /** Sweeping to the end leaves the heap `keep`, without changing its edges. */
  lemma {:induction false} FinishSweepKeeps(s: State, keep: set<Ref>)
    requires Inv(s) && s.phase != Pause && s.phase != Propagate
    requires if s.phase == Finalize then s.graph.Keys == keep else Keeps(s, keep)
    ensures var r := RunUntil(s, Finalize); r.graph.Keys == keep && SameEdges(s, r)
    decreases PhaseRank(s), Remaining(s)
  {
    hide SameEdges, Keeps;
    SameEdgesReflexive(s);
    if s.phase != Finalize {
      SingleStepInv(s, keep);
      SingleStepCloser(s);
      var s1 := SingleStep(s);
      if s1.phase == Finalize { FinalizeKeepsAll(s1, keep); }
      assert s1.phase != Pause && s1.phase != Propagate by { StepsBeforePause(s); }
      FinishSweepKeeps(s1, keep);
      SameEdgesTransitive(s, s1, RunUntil(s1, Finalize));
    }
  }

  lemma FinalizeKeepsAll(s: State, keep: set<Ref>)
    requires Inv(s) && s.phase == Finalize && Keeps(s, keep)
    ensures s.graph.Keys == keep
  {
  }

  // ------------------------------------------- a cycle without the mutator

  ghost predicate Reached(s: State, c: set<Ref>) {
    c == ReachableSet(s.graph, s.Roots())
  }

  /** `c` is what was reachable when the cycle began. */
  ghost predicate CycleOk(s: State, c: set<Ref>) {
    match s.phase
    case Propagate => Reached(s, c) && MarkedWithin(s.GetMarks(), c)
    case SweepString => Keeps(s, c + s.fixed)
    case Sweep => Keeps(s, c + s.fixed)
    case Finalize => s.graph.Keys == c + s.fixed
    case Pause => s.graph.Keys == c + s.fixed
  }

  lemma ReachedIsClosed(s: State, c: set<Ref>)
    requires Inv(s) && Reached(s, c)
    ensures ClosedUnder(s.graph, c) && s.Roots() <= c
  {
    forall x, y | x in c && Edge(s.graph, x, y) ensures y in c {
      ReachableIsLive(s, x);
      ReachableStep(s.graph, s.Roots(), x, y);
      assert Live(s, y);
    }
    forall r | r in s.Roots() ensures r in c {
      RootIsReachable(s.graph, s.Roots(), r);
      assert Live(s, r);
    }
  }

  /** Marking the roots of an unmarked heap marks only what is reachable. */
  lemma MarkRootWithin(s: State, c: set<Ref>)
    requires Inv(s) && (s.phase == Pause || s.phase == Finalize) && Reached(s, c)
    ensures CycleOk(MarkRoot(s), c)
  {
    hide Inv, Reachable;
    ReachedIsClosed(s, c);
    UnmarkedHeap(s, c);
    var g := s.graph;
    var m0 := Marks(s.color, [], []);
    assert s.main in s.Roots() && s.registry in s.Roots();
    MarkObjectWithin(g, m0, c, s.main);
    var m1 := MarkObject(g, m0, s.main);
    forall v: Ref | Some(v) in GlobalTable(s) ensures v in c { assert Edge(g, s.main, v); }
    MarkValuesWithin(g, m1, c, GlobalTable(s));
    var m2 := MarkValues(g, m1, GlobalTable(s));
    MarkObjectWithin(g, m2, c, s.registry);
    var m3 := MarkObject(g, m2, s.registry);
    forall v | Some(v) in s.mt ensures v in c { assert v in s.Roots(); }
    MarkValuesWithin(g, m3, c, s.mt);
    assert MarkRoot(s).Roots() == s.Roots();
  }

  lemma UnmarkedHeap(s: State, c: set<Ref>)
    requires Inv(s) && (s.phase == Pause || s.phase == Finalize)
    ensures Typed(s.graph) && MarkedWithin(Marks(s.color, [], []), c) && s.main in s.graph
    ensures s.graph[s.main].loc.Closed?
  {
  }

  lemma {:induction false} RemarkUpvalsWithin(g: Graph, m: Marks, c: set<Ref>, uvs: seq<Ref>)
    requires MarkedWithin(m, c) && ClosedUnder(g, c) && Typed(g)
    ensures MarkedWithin(RemarkUpvals(g, m, uvs), c)
    decreases |uvs|
  {
    if uvs != [] {
      var uv := uvs[0];
      var m1 := m;
      if uv in g && uv in m.color && m.color[uv] == Gray {
        forall v | Some(v) in Kids(g, uv) ensures v in c { assert Edge(g, uv, v); }
        MarkValuesWithin(g, m, c, Kids(g, uv));
        m1 := MarkValues(g, m, Kids(g, uv));
      }
      RemarkUpvalsWithin(g, m1, c, uvs[1..]);
    }
  }

  lemma AtomicRestWithin(g: Graph, m1: Marks, c: set<Ref>, again: set<Ref>, running: Ref, mt: seq<Option<Ref>>)
    requires MarkInv(g, m1, again, {}) && forall x :: x in again ==> x in m1.grayagain
    requires MarkedWithin(m1, c) && ClosedUnder(g, c) && running in c && forall v :: Some(v) in mt ==> v in c
    ensures var m4 := MarkValues(g, MarkObject(g, PropagateAll(g, m1), running), mt);
            var m5 := PropagateAll(g, m4);
            MarkedWithin(PropagateAll(g, Marks(m5.color, m5.grayagain, [])), c)
  {
    hide MarkInv, Tricolor, MarkedWithin;
    PropagateAllInv(g, m1, again, {});
    PropagateAllWithin(g, m1, c, again, {});
    var m2 := PropagateAll(g, m1);
    assert Typed(g) by { MarkInvTyped(g, m1, again); }
    MarkObjectInv(g, m2, again, {}, running);
    MarkObjectWithin(g, m2, c, running);
    var m3 := MarkObject(g, m2, running);
    MarkValuesInv(g, m3, again, {}, mt);
    MarkValuesWithin(g, m3, c, mt);
    var m4 := MarkValues(g, m3, mt);
    PropagateAllInv(g, m4, again, {});
    PropagateAllWithin(g, m4, c, again, {});
    var m5 := PropagateAll(g, m4);
    RevisitAgain(g, m5, again);
    RevisitWithin(m5, c);
    PropagateAllWithin(g, Marks(m5.color, m5.grayagain, []), c, {}, {});
  }

  lemma MarkInvTyped(g: Graph, m: Marks, lax: set<Ref>)
    requires MarkInv(g, m, lax, {})
    ensures Typed(g)
  {
  }

  lemma RevisitWithin(m: Marks, c: set<Ref>)
    requires MarkedWithin(m, c)
    ensures MarkedWithin(Marks(m.color, m.grayagain, []), c)
  {
  }

  lemma AtomicMarksWithin(s: State, c: set<Ref>)
    requires Inv(s) && s.phase == Propagate && s.gray == [] && CycleOk(s, c)
    ensures MarkedWithin(AtomicMarks(s), c)
  {
    hide Inv, Reachable, CycleOk;
    MarkingFacts(s, c);
    ReachedIsClosed(s, c);
    var g, m := s.graph, s.GetMarks();
    RemarkedWithin(s, c);
    var again := set x | x in m.grayagain;
    AtomicRestWithin(g, RemarkUpvals(g, m, s.uvhead), c, again, s.running, s.mt);
  }

  lemma MarkingFacts(s: State, c: set<Ref>)
    requires Inv(s) && s.phase == Propagate && CycleOk(s, c)
    ensures Reached(s, c) && MarkedWithin(s.GetMarks(), c)
  {
  }

  lemma RemarkedWithin(s: State, c: set<Ref>)
    requires Inv(s) && s.phase == Propagate && ClosedUnder(s.graph, c) && MarkedWithin(s.GetMarks(), c)
    ensures var m1 := RemarkUpvals(s.graph, s.GetMarks(), s.uvhead);
            MarkedWithin(m1, c) && MarkInv(s.graph, m1, set x | x in s.grayagain, {}) && m1.grayagain == s.grayagain
  {
    hide LiveOk, Shape, Tricolor, ListsOk, GrayListed, BlackKinds, ClosedUnder;
    var g, m := s.graph, s.GetMarks();
    RemarkUpvalsInv(g, m, Lax(s), s.uvhead);
    RemarkUpvalsWithin(g, m, c, s.uvhead);
    RemarkTightens(s, RemarkUpvals(g, m, s.uvhead), set x | x in m.grayagain);
  }

  /** After the flip the kept objects are the reachable and the fixed ones. */
  lemma AtomicExact(s: State, c: set<Ref>)
    requires Inv(s) && s.phase == Propagate && s.gray == [] && CycleOk(s, c)
    ensures CycleOk(Atomic(s), c)
  {
    hide AtomicMarks, Inv, CycleOk, ReachableSet;
    AtomicMarksWithin(s, c);
    AtomicInv(s);
    AtomicColors(s);
    var s' := Atomic(s);
    CycleIsLive(s, s', c);
    FixedInHeap(s');
    MarkedAreKept(s', AtomicMarks(s), c);
    AtomicCycle(s', c);
  }

  lemma AtomicColors(s: State)
    requires Inv(s) && s.phase == Propagate && s.gray == []
    ensures forall x :: x in AtomicMarks(s).color && IsWhite(AtomicMarks(s), x) ==>
              AtomicMarks(s).color[x] == White(s.white)
  {
    hide AtomicMarks, Shape, LiveOk;
    AtomicMarksDone(s);
  }

  lemma CycleIsLive(s: State, s': State, c: set<Ref>)
    requires CycleOk(s, c) && s.phase == Propagate && Inv(s')
    requires s'.graph == s.graph && s'.Roots() == s.Roots()
    ensures forall x :: x in c ==> Live(s', x)
  {
    hide Inv;
    forall x | x in c ensures Live(s', x) { ReachableIsLive(s', x); }
  }

  lemma AtomicCycle(s': State, c: set<Ref>)
    requires s'.phase == SweepString && c <= s'.graph.Keys && s'.fixed <= s'.graph.Keys
    requires forall x :: x in s'.graph ==> (x in c + s'.fixed <==> Kept(s', x))
    ensures CycleOk(s', c)
  {
  }

  lemma FixedInHeap(s: State)
    requires Inv(s)
    ensures s.fixed <= s.graph.Keys && s.color.Keys == s.graph.Keys
  {
  }

  lemma MarkedAreKept(s': State, r: Marks, c: set<Ref>)
    requires s'.color == r.color && s'.color.Keys == s'.graph.Keys
    requires forall x :: x in c ==> Live(s', x)
    requires MarkedWithin(r, c)
    requires forall x :: x in r.color && IsWhite(r, x) ==> r.color[x] == White(!s'.white)
    ensures forall x :: x in s'.graph ==> (x in c + s'.fixed <==> Kept(s', x))
  {
  }

  lemma PropagateCycle(s: State, c: set<Ref>)
    requires Inv(s) && s.phase == Propagate && s.gray != [] && CycleOk(s, c)
    ensures CycleOk(SingleStep(s), c)
  {
    hide LiveOk, Shape, Reachable;
    ReachedIsClosed(s, c);
    assert s.gray[0] in s.gray;
    PropagateMarkWithin(s.graph, s.GetMarks(), c);
    assert SingleStep(s).GetMarks() == PropagateMark(s.graph, s.GetMarks());
    assert SingleStep(s).Roots() == s.Roots();
  }

  lemma CycleStep(s: State, c: set<Ref>)
    requires Inv(s) && s.phase != Pause && CycleOk(s, c)
    ensures Inv(SingleStep(s)) && CycleOk(SingleStep(s), c) && SameEdges(s, SingleStep(s))
  {
    hide PhaseOk, LiveOk, Shape;
    SameEdgesReflexive(s);
    SingleStepInv(s, c + s.fixed);
    match s.phase
    case Propagate =>
      if s.gray != [] { PropagateCycle(s, c); } else { AtomicExact(s, c); }
      SameGraphEdges(s, SingleStep(s));
    case SweepString => StepsBeforePause(s);
    case Sweep => SweepEndsExactly(s, c);
    case Finalize => FinalizeInv(s); SameGraphEdges(s, SingleStep(s));
    case _ =>
  }

  lemma SameGraphEdges(s: State, s': State)
    requires s'.graph == s.graph && s'.Roots() == s.Roots() && s'.fixed == s.fixed
    ensures SameEdges(s, s')
  {
  }

  lemma SweepEndsExactly(s: State, c: set<Ref>)
    requires Inv(s) && s.phase == Sweep && Keeps(s, c + s.fixed)
    ensures CycleOk(SingleStep(s), c)
  {
    hide Keeps, MarkRoot, Atomic, SweepOneString, SweepSome, PhaseOk, Shape, LiveOk;
    SweepSomeInv(s, c + s.fixed);
    if SingleStep(s).phase == Finalize { FinalizeKeepsAll(SingleStep(s), c + s.fixed); }
  }

  lemma {:induction false} RunToPauseExact(s: State, c: set<Ref>)
    requires Inv(s) && CycleOk(s, c)
    ensures var r := RunUntil(s, Pause); r.graph.Keys == c + r.fixed && SameEdges(s, r)
    decreases PhaseRank(s), Unmarked(s), Remaining(s)
  {
    SameEdgesReflexive(s);
    if s.phase != Pause {
      CycleStep(s, c);
      SingleStepCloser(s);
      RunToPauseExact(SingleStep(s), c);
      SameEdgesTransitive(s, SingleStep(s), RunUntil(SingleStep(s), Pause));
    }
  }

  /** Where the edges of what is left are unchanged, the same objects are reachable. */
  lemma SameReachable(s: State, s': State)
    requires Inv(s) && Inv(s') && SameEdges(s, s')
    ensures ReachableSet(s.graph, s.Roots()) == ReachableSet(s'.graph, s'.Roots())
  {
    hide Inv, Reachable;
    var c, c' := ReachableSet(s.graph, s.Roots()), ReachableSet(s'.graph, s'.Roots());
    ReachedIsClosed(s, c);
    ReachedIsClosed(s', c');
    SameClosed(s, s', c, c');
    forall o | o in c ensures o in c' { ReachableWithin(s.graph, s.Roots(), c', o); }
    forall o | o in c' ensures o in c { ReachableWithin(s'.graph, s'.Roots(), c, o); }
  }

  lemma SameClosed(s: State, s': State, c: set<Ref>, c': set<Ref>)
    requires SameEdges(s, s') && ClosedUnder(s.graph, c) && ClosedUnder(s'.graph, c') && c' <= s'.graph.Keys
    ensures ClosedUnder(s'.graph, c) && ClosedUnder(s.graph, c')
  {
    forall x, y | x in c && Edge(s'.graph, x, y) ensures y in c { assert Edge(s.graph, x, y); }
    forall x, y | x in c' && Edge(s.graph, x, y) ensures y in c' { assert Edge(s'.graph, x, y); }
  }

  /** A full collection leaves exactly the reachable and the fixed objects, all of the
      current white; and if it starts in the mark phase its first sweep frees nothing. */
  lemma FullGcExact(s: State)
    requires Inv(s)
    ensures FullGc(s).graph.Keys == ReachableSet(s.graph, s.Roots()) + s.fixed
    ensures AllWhite(FullGc(s)) && SameEdges(s, FullGc(s))
    ensures s.phase == Pause || s.phase == Propagate ==>
              Inv(ResetForFull(s)) && ResetForFull(s).phase == SweepString &&
              RunUntil(ResetForFull(s), Finalize).graph.Keys == s.graph.Keys
  {
    hide Inv, Keeps, CycleOk, SameEdges, ReachableSet, MarkRoot;
    FirstSweep(s);
    var s1 := RunUntil(ResetForFull(s), Finalize);
    SecondCycle(s1);
    SameReachable(s, s1);
    var s2 := MarkRoot(s1);
    var r := RunUntil(s2, Pause);
    SameEdgesTransitive(s, s1, r);
    SameFixed(s, s1);
    SameFixed(s1, r);
    PauseAllWhite(r);
  }

  lemma SameFixed(s: State, s': State)
    requires SameEdges(s, s')
    ensures s'.fixed == s.fixed
  {
  }

  lemma PauseAllWhite(s: State)
    requires Inv(s) && s.phase == Pause
    ensures AllWhite(s)
  {
  }

  /** The first half of a full collection: finish, or just run, a sweep. */
  lemma FirstSweep(s: State)
    requires Inv(s)
    ensures Inv(ResetForFull(s)) && ResetForFull(s).phase != Pause && ResetForFull(s).phase != Propagate
    ensures SameEdges(s, RunUntil(ResetForFull(s), Finalize))
    ensures s.phase == Pause || s.phase == Propagate ==>
              ResetForFull(s).phase == SweepString && RunUntil(ResetForFull(s), Finalize).graph.Keys == s.graph.Keys
  {
    hide Keeps, SameEdges, RunUntil;
    ResetInv(s);
    var s0 := ResetForFull(s);
    SameGraphEdges(s, s0);
    if s.phase == Pause || s.phase == Propagate {
      FirstSweepAllLive(s);
      NothingDead(s0);
    }
    FinishSweepKeeps(s0, if s.phase == Finalize then s.graph.Keys else KeptSet(s0));
    SameEdgesTransitive(s, s0, RunUntil(s0, Finalize));
  }

  lemma FirstSweepAllLive(s: State)
    requires Inv(s) && (s.phase == Pause || s.phase == Propagate)
    ensures forall x :: x in ResetForFull(s).color ==> !Dead(ResetForFull(s), x)
  {
  }

  /** The second half: a whole cycle, from marking the roots to the pause. */
  lemma SecondCycle(s1: State)
    requires Inv(s1) && s1.phase == Finalize
    ensures Inv(MarkRoot(s1)) && SameEdges(s1, RunUntil(MarkRoot(s1), Pause))
    ensures RunUntil(MarkRoot(s1), Pause).graph.Keys == ReachableSet(s1.graph,
                                                                     s1.Roots()) + RunUntil(MarkRoot(s1), Pause).fixed
  {
    hide SameEdges, CycleOk, RunUntil;
    var c := ReachableSet(s1.graph, s1.Roots());
    MarkRootInv(s1);
    MarkRootWithin(s1, c);
    var s2 := MarkRoot(s1);
    RunToPauseExact(s2, c);
    SameGraphEdges(s1, s2);
    SameEdgesTransitive(s1, s2, RunUntil(s2, Pause));
  }

  lemma NothingDead(s: State)
    requires forall x :: x in s.color ==> !Dead(s, x)
    ensures KeptSet(s) == s.graph.Keys
  {
  }
}
