/** The mutator's operations keep the collector's invariant. */
module CollectorMutator {
  import opened Common
  import opened ObjectGraph
  import opened Marking
  import opened CollectorState
  import opened CollectorInvariant

  // ------------------------------------------------------------------ store

  /** Only the object itself and open upvalues on the slot gain an edge, and only to the value. */
  lemma PutSlotEdges(s: State, o: Ref, i: nat, v: Option<Ref>, x: Ref, y: Ref)
    requires Shape(s) && o in s.graph && i < |s.graph[o].slots|
    requires Edge(PutSlot(s, o, i, v).graph, x, y)
    ensures Edge(s.graph, x, y) || (v == Some(y) && (x == o || InOpenChain(s, x, o)))
  {
    var g := s.graph;
    var g' := PutSlot(s, o, i, v).graph;
    if x != o && g[x].loc.Closed? {
      assert Kids(g', x) == Kids(g, x);
    }
  }

  lemma PutSlotShape(s: State, o: Ref, i: nat, v: Option<Ref>)
    requires Shape(s) && o in s.graph && i < |s.graph[o].slots|
    ensures Shape(PutSlot(s, o, i, v))
  {
    PutSlotChains(s, o, i, v);
    hide Chains;
  }

  lemma PutSlotChains(s: State, o: Ref, i: nat, v: Option<Ref>)
    requires Chains(s) && o in s.graph && i < |s.graph[o].slots|
    ensures Chains(PutSlot(s, o, i, v))
  {
    var s' := PutSlot(s, o, i, v);
    assert forall x :: InMainChain(s', x) <==> InMainChain(s, x);
    assert forall x, b :: InStringChain(s', x, b) <==> InStringChain(s, x, b);
    assert forall x, t :: InOpenChain(s', x, t) <==> InOpenChain(s, x, t);
  }

  lemma PutSlotLive(s: State, o: Ref, i: nat, v: Option<Ref>)
    requires Shape(s) && LiveOk(s) && o in s.graph && i < |s.graph[o].slots|
    requires v.Some? ==> Live(s, v.value)
    ensures LiveOk(PutSlot(s, o, i, v))
  {
    var s' := PutSlot(s, o, i, v);
    assert s'.Roots() == s.Roots();
    forall x, y | Live(s', x) && Edge(s'.graph, x, y) ensures Live(s', y) {
      PutSlotEdges(s, o, i, v, x, y);
      assert Live(s, x) && Live(s, y);
    }
  }

  /** After a store, a settled object has only marked kids, but for the stored value. */
  lemma PutSlotKids(s: State, o: Ref, i: nat, v: Option<Ref>, x: Ref)
    requires Shape(s) && MarkingOk(s) && o in s.graph && i < |s.graph[o].slots|
    requires x in s.color && !IsWhite(s.GetMarks(), x) && x !in Lax(s) && x !in s.gray
    ensures x == o ==> s.color[o] == Black
    ensures forall c: Ref :: Edge(PutSlot(s, o, i, v).graph, x, c) ==>
                               !IsWhite(s.GetMarks(), c) || (x == o && v == Some(c))
  {
    hide Chains;
    var m := s.GetMarks();
    assert !IsOpen(s.graph, x);
    assert KidsMarked(s.graph, m, x);
    hide Tricolor;
    forall c: Ref | Edge(PutSlot(s, o, i, v).graph, x, c) ensures !IsWhite(m, c) || (x == o && v == Some(c)) {
      PutSlotEdges(s, o, i, v, x, c);
    }
  }

  lemma PutSlotMarks(s: State, o: Ref, i: nat, v: Option<Ref>)
    requires Shape(s) && o in s.graph && i < |s.graph[o].slots|
    requires MarkingOk(s)
    ensures MarkInv(PutSlot(s, o, i, v).graph, s.GetMarks(), Lax(s) + {o}, {})
    ensures s.graph[o].kind == Thread || !ValueIsWhite(s, v) || s.color[o] != Black ==>
              MarkInv(PutSlot(s, o, i, v).graph, s.GetMarks(), Lax(s), {})
    ensures forall c: Ref :: Edge(PutSlot(s, o, i, v).graph, o, c) && s.color[o] == Black ==>
              !IsWhite(s.GetMarks(), c) || v == Some(c)
  {
    hide Chains, Kids, ListsOk, GrayListed, BlackKinds;
    var g', m := PutSlot(s, o, i, v).graph, s.GetMarks();
    forall x | x in m.color && !IsWhite(m, x) && x !in Lax(s) && x !in m.gray
      ensures x == o ==> s.color[o] == Black
      ensures forall c: Ref :: Edge(g', x, c) ==> !IsWhite(m, c) || (x == o && v == Some(c))
    {
      PutSlotKids(s, o, i, v, x);
    }
    hide Tricolor;
    PutSlotTricolor(g', m, Lax(s), o, v, s.color[o] == Black);
    PutSlotLists(s.graph, g', m, o);
    if s.color[o] == Black { BlackIsSettled(s.graph, m, o); }
  }

  /** The lists do not care about slots. */
  lemma PutSlotLists(g: Graph, g': Graph, m: Marks, o: Ref)
    requires Typed(g) && o in g && o in g' && g[o].slots != [] && g' == g[o := g[o].(slots := g'[o].slots)]
    requires ListsOk(g, m) && GrayListed(g, m, {}) && BlackKinds(g, m)
    ensures Typed(g') && ListsOk(g', m) && GrayListed(g', m, {}) && BlackKinds(g', m)
  {
  }

  lemma BlackIsSettled(g: Graph, m: Marks, o: Ref)
    requires ListsOk(g, m) && BlackKinds(g, m) && o in g && o in m.color && m.color[o] == Black
    ensures o !in m.gray && o !in m.grayagain && g[o].kind != Thread
  {
  }

  lemma PutSlotTricolor(g': Graph, m: Marks, lax: set<Ref>, o: Ref, v: Option<Ref>, black: bool)
    requires forall x :: x in m.color && !IsWhite(m, x) && x !in lax && x !in m.gray ==>
               (x == o ==> black) && forall c: Ref :: Edge(g', x, c) ==> !IsWhite(m, c) || (x == o && v == Some(c))
    ensures Tricolor(g', m, lax + {o})
    ensures !black || v.None? || !IsWhite(m, v.value) ==> Tricolor(g', m, lax)
  {
  }

  /** The mark-phase invariant, but for the kids of one object. */
  ghost predicate MarkingOkBut(s: State, o: Ref) {
    && (forall x :: x in s.color && s.color[x].White? ==> s.color[x] == White(s.white))
    && MarkInv(s.graph, s.GetMarks(), Lax(s) + {o}, {})
    && !IsWhite(s.GetMarks(), s.main) && !IsWhite(s.GetMarks(), s.registry)
  }

  lemma StoreInv(s: State, o: Ref, i: nat, v: Option<Ref>)
    requires Inv(s) && o in s.graph && i < |s.graph[o].slots|
    requires v.Some? ==> Live(s, v.value)
    ensures Inv(Store(s, o, i, v))
  {
    PutSlotShape(s, o, i, v);
    PutSlotLive(s, o, i, v);
    PutSlotPhase(s, o, i, v);
    if s.graph[o].kind != Thread && ValueIsWhite(s, v) && s.color[o] == Black {
      var s1 := PutSlot(s, o, i, v);
      if s.graph[o].kind == Table { StoreTableBarrier(s1, o); } else { StoreForwardBarrier(s, o, i, v); }
    }
  }

  lemma StoreTableBarrier(s1: State, o: Ref)
    requires Shape(s1) && LiveOk(s1) && o in s1.graph && s1.color[o] == Black && s1.graph[o].kind == Table
    requires s1.phase != Propagate ==> PhaseOk(s1)
    requires s1.phase == Propagate ==> MarkingOkBut(s1, o)
    ensures Inv(BarrierBack(s1, o))
  {
    BarrierBackShape(s1, o);
    if s1.phase == Propagate { BarrierBackMarking(s1, o); } else { SweepKept(s1, BarrierBack(s1, o)); }
  }

  lemma StoreForwardBarrier(s: State, o: Ref, i: nat, v: Option<Ref>)
    requires Shape(s) && PhaseOk(s) && o in s.graph && i < |s.graph[o].slots| && v.Some?
    requires s.color[o] == Black
    requires Shape(PutSlot(s, o, i, v)) && LiveOk(PutSlot(s, o, i, v))
    ensures Inv(BarrierF(PutSlot(s, o, i, v), o, v.value))
  {
    hide Chains, Typed, Placed, LiveOk, MarkInv;
    var s1 := PutSlot(s, o, i, v);
    PutSlotPhase(s, o, i, v);
    if s.phase == Propagate {
      PutSlotMarks(s, o, i, v);
      BarrierFMarking(s1, o, v.value);
    } else {
      Recolored(s1, Whiten(s1, o));
      SweepKept(s1, Whiten(s1, o));
    }
  }

  lemma PutSlotPhase(s: State, o: Ref, i: nat, v: Option<Ref>)
    requires Shape(s) && PhaseOk(s) && o in s.graph && i < |s.graph[o].slots|
    ensures s.phase != Propagate ==> PhaseOk(PutSlot(s, o, i, v))
    ensures s.phase == Propagate ==> MarkingOkBut(PutSlot(s, o, i, v), o)
    ensures s.graph[o].kind == Thread || !ValueIsWhite(s, v) || s.color[o] != Black ==> PhaseOk(PutSlot(s, o, i, v))
  {
    hide Chains;
    var s1 := PutSlot(s, o, i, v);
    if s.phase == Propagate {
      hide MarkingOkBut, MarkingOk, ValueIsWhite;
      PutSlotMarking(s, o, i, v);
    } else if s.phase == SweepString || s.phase == Sweep {
      SweepKept(s, s1);
    }
  }

  lemma PutSlotMarking(s: State, o: Ref, i: nat, v: Option<Ref>)
    requires Shape(s) && s.phase == Propagate && MarkingOk(s) && o in s.graph && i < |s.graph[o].slots|
    ensures var s1 := PutSlot(s, o, i, v);
            && s1.phase == Propagate && MarkingOkBut(s1, o)
            && (s.graph[o].kind == Thread || !ValueIsWhite(s, v) || s.color[o] != Black ==> MarkingOk(s1))
  {
    hide Shape, MarkInv;
    PutSlotMarks(s, o, i, v);
    assert Lax(PutSlot(s, o, i, v)) == Lax(s);
  }

  /** Colours and worklists may change as long as liveness does not. */
  lemma Recolored(s: State, s2: State)
    requires Shape(s) && LiveOk(s)
    requires s2 == s.(color := s2.color, gray := s2.gray, grayagain := s2.grayagain)
    requires s2.color.Keys == s.color.Keys
    requires forall x :: Live(s, x) ==> Live(s2, x)
    requires forall x :: Live(s2, x) ==> Live(s, x)
    ensures Shape(s2) && LiveOk(s2)
  {
    assert s2.Roots() == s.Roots();
    assert forall x :: InMainChain(s2, x) <==> InMainChain(s, x);
    assert forall x, b :: InStringChain(s2, x, b) <==> InStringChain(s, x, b);
    assert forall x, t :: InOpenChain(s2, x, t) <==> InOpenChain(s, x, t);
  }

  /** What the sweep has already passed stays passed when no current white is lost. */
  lemma SweepKept(s: State, s2: State)
    requires PhaseOk(s) && (s.phase == SweepString || s.phase == Sweep)
    requires s2.phase == s.phase && s2.strt == s.strt && s2.sweepstr == s.sweepstr
    requires s2.rootgc == s.rootgc && s2.sweepgc == s.sweepgc && s2.openupval == s.openupval
    requires forall x :: CurrentWhite(s, x) ==> CurrentWhite(s2, x)
    requires OpenNotBlack(s2)
    ensures PhaseOk(s2)
  {
    if s.phase == Sweep {
      forall k | 0 <= k < s2.sweepgc ensures Settled(s2, s2.rootgc[k]) {
        assert Settled(s, s.rootgc[k]);
      }
    }
  }

  lemma BarrierBackShape(s: State, o: Ref)
    requires Shape(s) && LiveOk(s) && o in s.graph && s.color[o] == Black
    ensures Shape(BarrierBack(s, o)) && LiveOk(BarrierBack(s, o))
  {
    Recolored(s, BarrierBack(s, o));
  }

  lemma BarrierBackMarking(s: State, o: Ref)
    requires MarkingOkBut(s, o) && o in s.graph && s.color[o] == Black && s.graph[o].kind == Table
    ensures MarkingOk(BarrierBack(s, o))
  {
    var s2 := BarrierBack(s, o);
    BackMarks(s.graph, s.GetMarks(), Lax(s) + {o}, o);
    assert s2.GetMarks() == s.GetMarks().(color := s.color[o := Gray], grayagain := [o] + s.grayagain);
    assert Lax(s) + {o} <= Lax(s2);
  }

  lemma BackMarks(g: Graph, m: Marks, lax: set<Ref>, o: Ref)
    requires MarkInv(g, m, lax, {}) && o in lax && o in g && m.color[o] == Black && g[o].kind == Table
    ensures MarkInv(g, m.(color := m.color[o := Gray], grayagain := [o] + m.grayagain), lax, {})
  {
    assert o !in m.gray && o !in m.grayagain;
    BackListNoDuplicates(m.gray, m.grayagain, o);
  }

  lemma BackListNoDuplicates(a: seq<Ref>, b: seq<Ref>, o: Ref)
    requires NoDuplicates(a + b) && o !in a && o !in b
    ensures NoDuplicates(a + ([o] + b))
  {
    var q := a + ([o] + b);
    forall i, j | 0 <= i < j < |q| ensures q[i] != q[j] {
      var i' := if i < |a| then i else i - 1;
      var j' := if j < |a| then j else j - 1;
      if i != |a| { assert q[i] == (a + b)[i']; }
      if j != |a| { assert q[j] == (a + b)[j']; }
    }
  }

  lemma BarrierFMarking(s: State, o: Ref, v: Ref)
    requires Shape(s) && LiveOk(s) && s.phase == Propagate && MarkingOkBut(s, o)
    requires o in s.graph && s.color[o] == Black
    requires forall c: Ref :: Edge(s.graph, o, c) ==> !IsWhite(s.GetMarks(), c) || c == v
    ensures Inv(BarrierF(s, o, v))
  {
    var s2 := BarrierF(s, o, v);
    var m := s.GetMarks();
    MarkObjectInv(s.graph, m, Lax(s) + {o}, {}, v);
    MarkObjectWhites(s.graph, m, v);
    var r := MarkObject(s.graph, m, v);
    MarkedStaysCurrent(s, m, r);
    Recolored(s, s2);
    assert s2.GetMarks() == r;
    LaxGrows(s, s2);
    assert KidsMarked(s.graph, r, o) by {
      forall c | Edge(s.graph, o, c) ensures !IsWhite(r, c) {}
    }
    LooserTricolor(s.graph, r, Lax(s) + {o}, Lax(s2), o);
  }

  lemma LooserTricolor(g: Graph, m: Marks, lax: set<Ref>, lax': set<Ref>, o: Ref)
    requires Tricolor(g, m, lax) && KidsMarked(g, m, o) && lax <= lax' + {o}
    ensures Tricolor(g, m, lax')
  {
  }

  /** Marking makes no object white, so it leaves the live objects live. */
  lemma MarkedStaysCurrent(s: State, m: Marks, r: Marks)
    requires m == s.GetMarks() && m.color.Keys == r.color.Keys && Whites(r) <= Whites(m)
    requires forall x :: x in m.color && IsWhite(m, x) ==> m.color[x] == White(s.white)
    requires WhitesKept(m, r)
    ensures forall x :: x in r.color && r.color[x].White? ==> r.color[x] == White(s.white)
    ensures forall x :: Live(s, x) <==> Live(s.WithMarks(r), x)
  {
  }

  lemma LaxGrows(s: State, s2: State)
    requires s2.color.Keys == s.color.Keys && Grows(s.GetMarks(), s2.GetMarks())
    requires forall x :: IsOpen(s2.graph, x) <==> IsOpen(s.graph, x)
    ensures Lax(s) <= Lax(s2)
  {
    forall x | x in Lax(s) ensures x in Lax(s2) {
      assert !IsWhite(s.GetMarks(), x);
    }
  }
}
