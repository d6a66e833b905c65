/** The steps of the mark phase keep the collector's invariant; the atomic phase
    ends with every reachable object marked. */
module CollectorMarkPhase {
  import opened Common
  import opened ObjectGraph
  import opened Marking
  import opened CollectorState
  import opened CollectorInvariant
  import opened CollectorMutator

  /** New marks in the mark phase. */
  lemma MarksInv(s: State, s': State, m: Marks, lax: set<Ref>)
    requires Shape(s) && LiveOk(s) && s' == s.WithMarks(m).(phase := Propagate)
    requires forall x :: x in s.color && s.color[x].White? ==> s.color[x] == White(s.white)
    requires WhitesKept(s.GetMarks(), m)
    requires MarkInv(s.graph, m, lax, {}) && lax <= Lax(s')
    requires !IsWhite(m, s.main) && !IsWhite(m, s.registry)
    ensures Inv(s')
  {
    hide Shape, LiveOk, MarkInv, WhitesKept, Lax;
    var s1 := s.WithMarks(m);
    assert s'.GetMarks() == m;
    assert m.color.Keys == s.color.Keys by { MarkInvKeys(s, m, lax); }
    MarksKeepShape(s, m);
    PhaseKeepsShape(s1, Propagate);
    PhaseKeepsLive(s1, Propagate);
    MarksWhite(s, m);
    MarkInvLax(s.graph, m, lax, Lax(s'));
  }

  lemma MarkInvKeys(s: State, m: Marks, lax: set<Ref>)
    requires Shape(s) && MarkInv(s.graph, m, lax, {})
    ensures m.color.Keys == s.color.Keys
  {
    hide Chains, Tricolor, Typed, ListsOk, GrayListed, BlackKinds;
  }

  lemma MarkInvLax(g: Graph, m: Marks, lax: set<Ref>, more: set<Ref>)
    requires MarkInv(g, m, lax, {}) && lax <= more
    ensures MarkInv(g, m, more, {})
  {
    hide Typed, ListsOk, GrayListed, BlackKinds, KidsMarked;
  }

  lemma MarksKeepShape(s: State, m: Marks)
    requires Shape(s) && LiveOk(s) && WhitesKept(s.GetMarks(), m) && m.color.Keys == s.color.Keys
    requires forall x :: x in s.color && s.color[x].White? ==> s.color[x] == White(s.white)
    ensures Shape(s.WithMarks(m)) && LiveOk(s.WithMarks(m))
  {
    hide Shape, LiveOk;
    MarksWhite(s, m);
    assert forall x :: Live(s, x) <==> Live(s.WithMarks(m), x);
    Recolored(s, s.WithMarks(m));
  }

  /** No other white comes back. */
  lemma MarksWhite(s: State, m: Marks)
    requires WhitesKept(s.GetMarks(), m) && m.color.Keys == s.color.Keys
    requires forall x :: x in s.color && s.color[x].White? ==> s.color[x] == White(s.white)
    ensures forall x :: x in m.color && m.color[x].White? ==> m.color[x] == White(s.white)
  {
  }

  lemma PhaseKeepsShape(s: State, ph: Phase)
    requires Shape(s)
    ensures Shape(s.(phase := ph))
  {
    var s' := s.(phase := ph);
    assert forall x :: InMainChain(s', x) <==> InMainChain(s, x);
    assert forall x, b :: InStringChain(s', x, b) <==> InStringChain(s, x, b);
    assert forall x, t :: InOpenChain(s', x, t) <==> InOpenChain(s, x, t);
  }

  lemma PhaseKeepsLive(s: State, ph: Phase)
    requires LiveOk(s)
    ensures LiveOk(s.(phase := ph))
  {
    assert s.(phase := ph).Roots() == s.Roots();
    assert forall x :: Live(s.(phase := ph), x) <==> Live(s, x);
  }

  /** Between cycles everything is white, and no list is needed. */
  lemma UnmarkedInv(s: State)
    requires Shape(s) && AllWhite(s)
    ensures MarkInv(s.graph, Marks(s.color, [], []), {}, {})
  {
    hide Chains, KidsMarked;
  }

  lemma MarkRootInv(s: State)
    requires Inv(s) && (s.phase == Pause || s.phase == Finalize)
    ensures Inv(MarkRoot(s))
  {
    hide Shape, LiveOk, MarkInv, MarkObject, MarkValues;
    var g := s.graph;
    var m0 := Marks(s.color, [], []);
    UnmarkedInv(s);
    MarkObjectInv(g, m0, {}, {}, s.main);
    MarkObjectWhites(g, m0, s.main);
    var m1 := MarkObject(g, m0, s.main);
    MarkValuesInv(g, m1, {}, {}, GlobalTable(s));
    MarkValuesWhites(g, m1, GlobalTable(s));
    var m2 := MarkValues(g, m1, GlobalTable(s));
    MarkObjectInv(g, m2, {}, {}, s.registry);
    MarkObjectWhites(g, m2, s.registry);
    var m3 := MarkObject(g, m2, s.registry);
    MarkValuesInv(g, m3, {}, {}, s.mt);
    MarkValuesWhites(g, m3, s.mt);
    MarksInv(s, MarkRoot(s), MarkValues(g, m3, s.mt), {});
  }

  lemma PropagateStepInv(s: State)
    requires Inv(s) && s.phase == Propagate && s.gray != []
    ensures Inv(s.WithMarks(PropagateMark(s.graph, s.GetMarks())))
  {
    var m := s.GetMarks();
    var r := PropagateMark(s.graph, m);
    var s' := s.WithMarks(r);
    PropagateMarkInv(s.graph, m, Lax(s), {});
    PropagateMarkWhites(s.graph, m);
    forall x | x in Lax(s) ensures x in Lax(s') {
      PropagateKeepsLax(s, x);
    }
    MarksInv(s, s', r, Lax(s));
  }

  /** Traversal blackens only objects of the gray list. */
  lemma PropagateKeepsLax(s: State, x: Ref)
    requires Shape(s) && MarkingOk(s) && s.gray != [] && x in Lax(s)
    ensures x in Lax(s.WithMarks(PropagateMark(s.graph, s.GetMarks())))
  {
    var m := s.GetMarks();
    var o := m.gray[0];
    assert o in m.gray;
    forall k | 0 <= k < |m.grayagain| ensures m.grayagain[k] != o {
      assert (m.gray + m.grayagain)[|m.gray| + k] == m.grayagain[k] && (m.gray + m.grayagain)[0] == o;
    }
    var m1 := if s.graph[o].kind == Thread then m.(gray := m.gray[1..], grayagain := [o] + m.grayagain)
              else Marks(m.color[o := Black], m.gray[1..], m.grayagain);
    PopGray(s.graph, m, Lax(s), {}, m1);
    MarkValuesInv(s.graph, m1, Lax(s) + {o}, {}, s.graph[o].slots);
    assert !IsWhite(m1, x) && m1.color[x] == Gray;
  }

  // ------------------------------------------------------------ atomic phase

  /** After remarking, no gray open upvalue needs a second look. */
  lemma {:induction false} RemarkUpvalsInv(g: Graph, m: Marks, lax: set<Ref>, uvs: seq<Ref>)
    requires MarkInv(g, m, lax, {})
    ensures MarkInv(g, RemarkUpvals(g, m, uvs), lax, {})
    ensures WhitesKept(m, RemarkUpvals(g, m, uvs)) && Grows(m, RemarkUpvals(g, m, uvs))
    ensures forall uv :: uv in uvs && uv in m.color && m.color[uv] == Gray ==>
              KidsMarked(g, RemarkUpvals(g, m, uvs), uv)
    decreases |uvs|
  {
    if uvs != [] {
      var uv := uvs[0];
      var m1 := m;
      if uv in g && uv in m.color && m.color[uv] == Gray {
        m1 := MarkValues(g, m, Kids(g, uv));
        MarkValuesInv(g, m, lax, {}, Kids(g, uv));
        MarkValuesWhites(g, m, Kids(g, uv));
        assert KidsMarked(g, m1, uv);
      }
      RemarkUpvalsInv(g, m1, lax, uvs[1..]);
      var r := RemarkUpvals(g, m1, uvs[1..]);
      forall v | v in uvs && v in m.color && m.color[v] == Gray ensures KidsMarked(g, r, v) {
        if v == uv {
          forall c | Edge(g, uv, c) ensures !IsWhite(r, c) { assert !IsWhite(m1, c); }
        } else {
          assert v in uvs[1..] && !IsWhite(m, v);
        }
      }
    }
  }

  /** The marks of the atomic phase leave no marked object with an unmarked kid. */
  lemma AtomicMarksDone(s: State)
    requires Inv(s) && s.phase == Propagate && s.gray == []
    ensures MarkInv(s.graph, AtomicMarks(s), {}, {}) && AtomicMarks(s).gray == []
    ensures WhitesKept(s.GetMarks(), AtomicMarks(s))
    ensures !IsWhite(AtomicMarks(s), s.main) && !IsWhite(AtomicMarks(s), s.registry)
    ensures !IsWhite(AtomicMarks(s), s.running) && forall v :: Some(v) in s.mt ==> !IsWhite(AtomicMarks(s), v)
  {
    hide Shape, LiveOk, MarkInv, Lax, PropagateAll, MarkValues, MarkObject;
    var g, m := s.graph, s.GetMarks();
    RemarkUpvalsInv(g, m, Lax(s), s.uvhead);
    var m1 := RemarkUpvals(g, m, s.uvhead);
    var again := set x | x in m.grayagain;
    RemarkTightens(s, m1, again);
    AtomicRest(g, m1, again, s.running, s.mt);
    assert !IsWhite(m, s.main) && !IsWhite(m, s.registry);
  }

  /** Everything after the remarking: drain, mark the running thread and the basic
      metatables, drain, then revisit what was kept for last. */
  lemma AtomicRest(g: Graph, m1: Marks, again: set<Ref>, running: Ref, mt: seq<Option<Ref>>)
    requires MarkInv(g, m1, again, {}) && forall x :: x in again ==> x in m1.grayagain
    ensures var m4 := MarkValues(g, MarkObject(g, PropagateAll(g, m1), running), mt);
            var m5 := PropagateAll(g, m4);
            var r := PropagateAll(g, Marks(m5.color, m5.grayagain, []));
            && MarkInv(g, r, {}, {}) && r.gray == [] && WhitesKept(m1, r)
            && !IsWhite(r, running) && forall v :: Some(v) in mt ==> !IsWhite(r, v)
  {
    PropagateAllInv(g, m1, again, {});
    PropagateAllWhites(g, m1);
    var m2 := PropagateAll(g, m1);
    MarkObjectInv(g, m2, again, {}, running);
    MarkObjectWhites(g, m2, running);
    var m3 := MarkObject(g, m2, running);
    MarkValuesInv(g, m3, again, {}, mt);
    MarkValuesWhites(g, m3, mt);
    var m4 := MarkValues(g, m3, mt);
    PropagateAllInv(g, m4, again, {});
    PropagateAllWhites(g, m4);
    var m5 := PropagateAll(g, m4);
    var m6 := Marks(m5.color, m5.grayagain, []);
    RevisitAgain(g, m5, again);
    PropagateAllInv(g, m6, {}, {});
    PropagateAllWhites(g, m6);
  }

  lemma RemarkTightens(s: State, m1: Marks, again: set<Ref>)
    requires Shape(s) && MarkingOk(s) && again == set x | x in s.grayagain
    requires MarkInv(s.graph, m1, Lax(s), {}) && Grows(s.GetMarks(), m1)
    requires forall uv :: uv in s.uvhead && uv in s.color && s.color[uv] == Gray ==> KidsMarked(s.graph, m1, uv)
    ensures MarkInv(s.graph, m1, again, {})
  {
    forall x | x in m1.color && !IsWhite(m1, x) && x !in again && x !in m1.gray ensures KidsMarked(s.graph, m1, x) {
      if x in Lax(s) { assert x in s.uvhead; }
    }
  }

  /** The objects kept for the atomic phase become the gray list. */
  lemma RevisitAgain(g: Graph, m: Marks, again: set<Ref>)
    requires MarkInv(g, m, again, {}) && m.gray == []
    requires forall x :: x in again ==> x in m.grayagain
    ensures MarkInv(g, Marks(m.color, m.grayagain, []), {}, {})
  {
    var r := Marks(m.color, m.grayagain, []);
    assert r.gray + r.grayagain == m.gray + m.grayagain;
    forall x | x in r.color && !IsWhite(r, x) && x !in r.gray ensures KidsMarked(g, r, x) {
      assert KidsMarked(g, m, x);
      forall c | Edge(g, x, c) ensures !IsWhite(r, c) { assert !IsWhite(m, c); }
    }
  }

  lemma AtomicInv(s: State)
    requires Inv(s) && s.phase == Propagate && s.gray == []
    ensures Inv(Atomic(s))
  {
    AtomicMarksDone(s);
    FlipInv(s, AtomicMarks(s));
  }

  lemma FlipInv(s: State, r: Marks)
    requires Shape(s) && LiveOk(s)
    requires forall x :: x in s.color && s.color[x].White? ==> s.color[x] == White(s.white)
    requires Tricolor(s.graph, r, {}) && BlackKinds(s.graph, r) && r.color.Keys == s.color.Keys
    requires r.gray == [] && WhitesKept(s.GetMarks(), r)
    requires !IsWhite(r, s.main) && !IsWhite(r, s.registry) && !IsWhite(r, s.running)
    requires forall v :: Some(v) in s.mt ==> !IsWhite(r, v)
    ensures Inv(s.WithMarks(r).(white := !s.white, sweepstr := 0, sweepgc := 0, phase := SweepString))
  {
    hide MainChain, OpenChains, UvHead, LiveOk, Tricolor, BlackKinds, WhitesKept, OpenNotBlack;
    var s' := s.WithMarks(r).(white := !s.white, sweepstr := 0, sweepgc := 0, phase := SweepString);
    AtomicShape(s, s');
    BlackKindsAreClosed(s', r);
    assert s'.Roots() == s.Roots();
    AtomicLive(s, s', r);
  }

  lemma BlackKindsAreClosed(s': State, r: Marks)
    requires BlackKinds(s'.graph, r) && s'.color == r.color
    ensures OpenNotBlack(s')
  {
  }

  lemma AtomicShape(s: State, s': State)
    requires Shape(s) && s' == s.(color := s'.color, gray := s'.gray, grayagain := s'.grayagain, phase := s'.phase,
                                  white := s'.white, sweepstr := s'.sweepstr, sweepgc := s'.sweepgc)
    requires s'.color.Keys == s.color.Keys
    ensures Shape(s')
  {
    assert forall x :: InMainChain(s', x) <==> InMainChain(s, x);
    assert forall x, b :: InStringChain(s', x, b) <==> InStringChain(s, x, b);
    assert forall x, t :: InOpenChain(s', x, t) <==> InOpenChain(s, x, t);
  }

  /** After the flip the live objects are the marked ones, and they are closed under edges. */
  lemma AtomicLive(s: State, s': State, r: Marks)
    requires LiveOk(s) && s'.Roots() == s.Roots() && s'.graph == s.graph && s'.color == r.color && s'.white == !s.white
    requires s.color.Keys == s.graph.Keys == r.color.Keys
    requires forall x :: x in s.color && s.color[x].White? ==> s.color[x] == White(s.white)
    requires Tricolor(s.graph, r, {}) && r.gray == [] && WhitesKept(s.GetMarks(), r)
    requires forall x :: x in s.Roots() ==> !IsWhite(r, x)
    ensures LiveOk(s')
  {
    assert forall x :: Live(s, x) <==> x in s.graph;
    assert forall x :: x in s.graph ==> (Live(s', x) <==> !IsWhite(r, x));
    forall x, y | Live(s', x) && Edge(s'.graph, x, y) ensures Live(s', y) {
      assert KidsMarked(s.graph, r, x);
      assert Live(s, x) && Live(s, y);
    }
    forall x | x in s'.Roots() ensures Live(s', x) { assert Live(s, x); }
  }
}
