/** Closing an open upvalue and freeing a dead object keep the collector's invariant. */
module CollectorClosing {
  import opened Common
  import opened ObjectGraph
  import opened Marking
  import opened CollectorState
  import opened CollectorInvariant
  import opened CollectorMutator
  import opened CollectorLinking

  // ---------------------------------------------------------------- freeing

  /** `s'` is `s` without the dead object `x`; chains may have lost `x` as well. */
  ghost predicate Removed(s: State, s': State, x: Ref) {
    && s'.graph == s.graph - {x} && s'.color == s.color - {x}
    && s'.fixed == s.fixed && s'.main == s.main && s'.registry == s.registry
    && s'.mt == s.mt && s'.running == s.running
    && s'.phase == s.phase && s'.white == s.white
  }

  lemma RemovedLive(s: State, s': State, x: Ref)
    requires Shape(s) && LiveOk(s) && Removed(s, s', x) && Dead(s, x)
    requires forall u :: !InOpenChain(s, u, x)
    ensures LiveOk(s')
    ensures forall u :: u in s'.graph ==> Kids(s'.graph, u) == Kids(s.graph, u)
  {
    assert s'.Roots() == s.Roots();
    forall u | u in s'.graph ensures Kids(s'.graph, u) == Kids(s.graph, u) {
      if s.graph[u].loc.Open? { assert InOpenChain(s, u, s.graph[u].loc.thread); }
    }
    forall u, y | Live(s', u) && Edge(s'.graph, u, y) ensures Live(s', y) {
      assert Live(s, u) && Edge(s.graph, u, y) && Live(s, y);
    }
    forall r | r in s'.Roots() ensures Live(s', r) { assert Live(s, r); }
  }

  /** Freeing a dead open upvalue: it leaves its thread's list and `uvhead`. */
  function DropUpval(s: State, uv: Ref): State
    requires IsOpen(s.graph, uv)
  {
    var t := s.graph[uv].loc.thread;
    s.(graph := s.graph - {uv}, color := s.color - {uv}, uvhead := Without(s.uvhead, uv),
       openupval := if t in s.openupval then s.openupval[t := Without(s.openupval[t], uv)] else s.openupval)
  }

  lemma DropUpvalShape(s: State, uv: Ref)
    requires Shape(s) && IsOpen(s.graph, uv)
    ensures Shape(DropUpval(s, uv))
  {
    var s' := DropUpval(s, uv);
    var t := s.graph[uv].loc.thread;
    assert t in s.openupval by { assert IsThread(s, t); }
    assert MainChain(s') by {
      hide StringChains, OpenChains, UvHead;
      assert forall x :: InMainChain(s', x) <==> InMainChain(s, x);
    }
    assert StringChains(s') by {
      hide MainChain, OpenChains, UvHead;
      assert forall x, c :: InStringChain(s', x, c) <==> InStringChain(s, x, c);
    }
    hide MainChain, StringChains;
    assert OpenChains(s') by {
      hide UvHead;
      assert forall x, u :: InOpenChain(s', x, u) <==> InOpenChain(s, x, u) && x != uv;
    }
  }

  lemma DropUpvalInv(s: State, uv: Ref)
    requires Inv(s) && IsOpen(s.graph, uv) && Dead(s, uv)
    ensures Inv(DropUpval(s, uv))
  {
    DropUpvalShape(s, uv);
    var s' := DropUpval(s, uv);
    RemovedLive(s, s', uv);
    DropUpvalPhase(s, uv);
  }

  lemma DropUpvalPhase(s: State, uv: Ref)
    requires Shape(s) && PhaseOk(s) && IsOpen(s.graph, uv) && Dead(s, uv)
    ensures PhaseOk(DropUpval(s, uv))
  {
    var s' := DropUpval(s, uv);
    hide OpenChains, UvHead;
    if s.phase == Sweep {
      forall k | 0 <= k < s'.sweepgc ensures Settled(s', s'.rootgc[k]) {
        assert InMainChain(s, s.rootgc[k]) by { assert s.rootgc[k] in s.rootgc; }
        assert Settled(s, s.rootgc[k]);
      }
    }
    if s.phase == SweepString || s.phase == Sweep { StringsKept(s, s', uv, s.sweepstr, s.phase); }
  }

  lemma StringsKept(s: State, s': State, x: Ref, n: nat, ph: Phase)
    requires Shape(s) && Removed(s, s', x) && s'.strt == s.strt && x in s.graph && s.graph[x].kind != String
    ensures forall k :: StringsSwept(s, k) ==> StringsSwept(s', k)
  {
  }

  // ---------------------------------------------------------------- closing

  /** An open upvalue gets its own slot and moves to the main chain; colours stay. */
  function Detach(s: State, uv: Ref): State
    requires IsOpen(s.graph, uv)
  {
    var t := s.graph[uv].loc.thread;
    LinkFirst(s.(graph := s.graph[uv := s.graph[uv].(slots := Kids(s.graph, uv), loc := Closed)],
                 uvhead := Without(s.uvhead, uv),
                 openupval := if t in s.openupval then s.openupval[t := Without(s.openupval[t], uv)]
                 else s.openupval), uv)
  }

  lemma DetachEdges(s: State, uv: Ref)
    requires Shape(s) && IsOpen(s.graph, uv)
    ensures forall x :: x in s.graph ==> Kids(Detach(s, uv).graph, x) == Kids(s.graph, x)
    ensures forall x, y :: Edge(Detach(s, uv).graph, x, y) <==> Edge(s.graph, x, y)
  {
    var g' := Detach(s, uv).graph;
    forall x | x in s.graph ensures Kids(g', x) == Kids(s.graph, x) {
      if s.graph[x].loc.Open? && x != uv { assert s.graph[x].loc.thread != uv; }
    }
  }

  lemma DetachMainChain(s: State, uv: Ref)
    requires MainChain(s) && IsOpen(s.graph, uv) && Typed(s.graph)
    ensures MainChain(Detach(s, uv))
  {
    var s' := Detach(s, uv);
    assert !InMainChain(s, uv);
    ConsNoDuplicates(uv, s.rootgc);
    assert forall x :: InMainChain(s', x) <==> InMainChain(s, x) || x == uv;
  }

  lemma DetachOpenChains(s: State, uv: Ref)
    requires OpenChains(s) && UvHead(s) && IsOpen(s.graph, uv) && Placed(s.graph)
    ensures OpenChains(Detach(s, uv)) && UvHead(Detach(s, uv))
  {
    var s' := Detach(s, uv);
    var t := s.graph[uv].loc.thread;
    assert t in s.openupval by { assert IsThread(s, t); }
    assert forall x :: IsThread(s', x) <==> IsThread(s, x);
    assert forall x, u :: InOpenChain(s', x, u) <==> InOpenChain(s, x, u) && x != uv;
  }

  lemma DetachStringChains(s: State, uv: Ref)
    requires StringChains(s) && IsOpen(s.graph, uv) && Typed(s.graph)
    ensures StringChains(Detach(s, uv))
  {
    var s' := Detach(s, uv);
    assert forall x, c :: InStringChain(s', x, c) <==> InStringChain(s, x, c);
  }

  lemma DetachShape(s: State, uv: Ref)
    requires Shape(s) && IsOpen(s.graph, uv)
    ensures Shape(Detach(s, uv))
  {
    DetachMainChain(s, uv);
    DetachOpenChains(s, uv);
    DetachStringChains(s, uv);
  }

  lemma DetachLive(s: State, uv: Ref)
    requires Shape(s) && LiveOk(s) && IsOpen(s.graph, uv)
    ensures LiveOk(Detach(s, uv))
  {
    DetachEdges(s, uv);
    assert Detach(s, uv).Roots() == s.Roots();
    assert forall x :: Live(Detach(s, uv), x) <==> Live(s, x);
  }

  /** At the level of marks: an upvalue that stops being open keeps its kids. */
  ghost predicate Relocated(g: Graph, g': Graph, uv: Ref) {
    && IsOpen(g, uv) && g[uv].kind == Upvalue
    && g'.Keys == g.Keys
    && (forall x :: x in g && x != uv ==> g'[x] == g[x])
    && g'[uv].kind == Upvalue && g'[uv].loc.Closed?
    && (forall x, y :: Edge(g', x, y) <==> Edge(g, x, y))
  }

  lemma RelocatedWhite(g: Graph, g': Graph, m: Marks, lax: set<Ref>, uv: Ref)
    requires Relocated(g, g', uv) && MarkInv(g, m, lax, {}) && m.color[uv].White?
    ensures MarkInv(g', m, lax, {})
  {
    forall x | x in m.color && !IsWhite(m, x) && x !in lax && x !in m.gray ensures KidsMarked(g', m, x) {
      assert KidsMarked(g, m, x);
    }
  }

  lemma RelocatedGray(g: Graph, g': Graph, m: Marks, lax: set<Ref>, uv: Ref)
    requires Relocated(g, g', uv) && MarkInv(g, m, lax, {}) && m.color[uv] == Gray
    ensures MarkInv(g', m.(color := m.color[uv := Black]), lax + {uv}, {})
  {
    hide Tricolor, ListsOk, GrayListed, BlackKinds, Typed;
    RelocatedTricolor(g, g', m, lax, uv);
    RelocatedLists(g, g', m, uv);
  }

  lemma RelocatedLists(g: Graph, g': Graph, m: Marks, uv: Ref)
    requires Relocated(g, g', uv) && uv in m.color && m.color[uv] == Gray
    requires Typed(g) && ListsOk(g, m) && GrayListed(g, m, {}) && BlackKinds(g, m)
    ensures var m' := m.(color := m.color[uv := Black]);
            Typed(g') && ListsOk(g', m') && GrayListed(g', m', {}) && BlackKinds(g', m')
  {
    hide NoDuplicates, Edge;
    assert uv !in m.gray && uv !in m.grayagain;
  }

  lemma RelocatedTricolor(g: Graph, g': Graph, m: Marks, lax: set<Ref>, uv: Ref)
    requires Relocated(g, g', uv) && Tricolor(g, m, lax) && uv in m.color && m.color[uv] == Gray
    ensures Tricolor(g', m.(color := m.color[uv := Black]), lax + {uv})
  {
    var m' := m.(color := m.color[uv := Black]);
    forall x | x in m'.color && !IsWhite(m', x) && x !in lax + {uv} && x !in m'.gray ensures KidsMarked(g', m', x) {
      assert KidsMarked(g, m, x);
      forall c | Edge(g', x, c) ensures !IsWhite(m', c) { assert Edge(g, x, c); }
    }
  }

  lemma DetachRelocates(s: State, uv: Ref)
    requires Shape(s) && IsOpen(s.graph, uv)
    ensures Relocated(s.graph, Detach(s, uv).graph, uv)
  {
    DetachEdges(s, uv);
  }

  lemma CloseWhite(s: State, uv: Ref)
    requires MarkingOk(s) && IsOpen(s.graph, uv) && s.color[uv].White?
    requires Relocated(s.graph, Detach(s, uv).graph, uv)
    ensures MarkingOk(Detach(s, uv))
  {
    RelocatedWhite(s.graph, Detach(s, uv).graph, s.GetMarks(), Lax(s), uv);
    assert Lax(s) == Lax(Detach(s, uv));
  }

  lemma CloseGrayMarks(g: Graph, g': Graph, m: Marks, lax: set<Ref>, uv: Ref)
    requires Relocated(g, g', uv) && MarkInv(g, m, lax, {}) && m.color[uv] == Gray
    ensures var m1 := m.(color := m.color[uv := Black]);
            var r := MarkValues(g', m1, Kids(g, uv));
            MarkInv(g', r, lax + {uv}, {}) && KidsMarked(g', r, uv) && Grows(m1, r) && WhitesKept(m1, r)
  {
    var m1 := m.(color := m.color[uv := Black]);
    var value := Kids(g, uv);
    RelocatedGray(g, g', m, lax, uv);
    MarkValuesInv(g', m1, lax + {uv}, {}, value);
    MarkValuesWhites(g', m1, value);
    var r := MarkValues(g', m1, value);
    forall c: Ref | Edge(g', uv, c) ensures !IsWhite(r, c) { assert Edge(g, uv, c) && Some(c) in value; }
  }

  /** The colours after closing a gray upvalue in the mark phase. */
  lemma CloseGray(s: State, s1: State, uv: Ref)
    requires MarkingOk(s) && IsOpen(s.graph, uv) && s1 == Detach(s, uv) && s.color[uv] == Gray
    requires Relocated(s.graph, s1.graph, uv)
    ensures var m := s.GetMarks().(color := s.color[uv := Black]);
            var s2 := s1.WithMarks(MarkValues(s1.graph, m, Kids(s.graph, uv)));
            MarkingOk(s2) && s2.color.Keys == s.color.Keys && (forall x :: Live(s2, x) <==> Live(s1, x))
  {
    var m := s.GetMarks().(color := s.color[uv := Black]);
    CloseGrayMarks(s.graph, s1.graph, s.GetMarks(), Lax(s), uv);
    var r := MarkValues(s1.graph, m, Kids(s.graph, uv));
    var s2 := s1.WithMarks(r);
    assert s2.GetMarks() == r;
    CloseGrayLax(s, s2, m, r, uv);
    LooserTricolor(s1.graph, r, Lax(s) + {uv}, Lax(s2), uv);
    CloseGrayWhites(s, s1, m, r, uv);
  }

  lemma CloseGrayWhites(s: State, s1: State, m: Marks, r: Marks, uv: Ref)
    requires m.color == s.color[uv := Black] && uv in s.color && s.color[uv] == Gray
    requires s1.white == s.white && s1.color == s.color && s1.main == s.main && s1.registry == s.registry
    requires WhitesKept(m, r) && r.color.Keys == m.color.Keys
    requires forall x :: x in s.color && s.color[x].White? ==> s.color[x] == White(s.white)
    requires !IsWhite(s.GetMarks(), s.main) && !IsWhite(s.GetMarks(), s.registry)
    ensures forall x :: x in r.color && r.color[x].White? ==> r.color[x] == White(s.white)
    ensures !IsWhite(r, s.main) && !IsWhite(r, s.registry)
    ensures forall x :: Live(s1.WithMarks(r), x) <==> Live(s1, x)
  {
  }

  lemma CloseGrayLax(s: State, s2: State, m: Marks, r: Marks, uv: Ref)
    requires m.color == s.color[uv := Black] && m.grayagain == s.grayagain && s2.GetMarks() == r && Grows(m, r)
    requires IsOpen(s.graph, uv) && s2.graph == Detach(s, uv).graph
    ensures Lax(s) <= Lax(s2) + {uv}
  {
    forall x | x in Lax(s) ensures x in Lax(s2) + {uv} {
      assert !IsWhite(m, x);
    }
  }

  lemma CloseMarking(s: State, uv: Ref)
    requires Inv(s) && s.phase == Propagate && IsOpen(s.graph, uv) && !Dead(s, uv)
    ensures Inv(CloseUpval(s, uv))
  {
    DetachShape(s, uv);
    DetachLive(s, uv);
    DetachRelocates(s, uv);
    var s1 := Detach(s, uv);
    if s.color[uv] == Gray {
      CloseGray(s, s1, uv);
      Recolored(s1, CloseUpval(s, uv));
    } else {
      CloseWhite(s, uv);
    }
  }

  lemma CloseElsewhere(s: State, uv: Ref)
    requires Inv(s) && s.phase != Propagate && IsOpen(s.graph, uv) && !Dead(s, uv)
    ensures Inv(CloseUpval(s, uv))
  {
    hide Chains, Placed, Typed, LiveOk, PhaseOk, Kids, Without;
    DetachShape(s, uv);
    DetachLive(s, uv);
    var s1 := Detach(s, uv);
    if s.color[uv] == Gray { WhitenKeeps(s1, uv); }
    CloseElsewherePhase(s, uv);
  }

  lemma WhitenKeeps(s: State, x: Ref)
    requires Shape(s) && LiveOk(s) && x in s.graph && x in s.color && !Dead(s, x)
    ensures Shape(Whiten(s, x)) && LiveOk(Whiten(s, x))
  {
    hide Shape, LiveOk;
    assert forall y :: Live(s, y) <==> Live(Whiten(s, x), y);
    Recolored(s, Whiten(s, x));
  }

  lemma CloseElsewherePhase(s: State, uv: Ref)
    requires Shape(s) && PhaseOk(s) && s.phase != Propagate && IsOpen(s.graph, uv) && !Dead(s, uv)
    ensures PhaseOk(CloseUpval(s, uv))
  {
    hide Chains, Kids, Placed, Settled, StringsSwept;
    var s2 := CloseUpval(s, uv);
    OpenIsNoThread(s, uv);
    ClosedColor(s, uv);
    if s.phase == Sweep {
      ClosedInSweep(s, s2, uv);
    }
  }

  lemma OpenIsNoThread(s: State, uv: Ref)
    requires Chains(s) && Typed(s.graph) && IsOpen(s.graph, uv)
    ensures uv !in s.openupval && |s.strt| > 0
  {
    assert !IsThread(s, uv);
  }

  /** Outside the mark phase a closed upvalue ends with the current white. */
  lemma ClosedColor(s: State, uv: Ref)
    requires PhaseOk(s) && s.phase != Propagate && IsOpen(s.graph, uv) && uv in s.color && !Dead(s, uv)
    ensures CurrentWhite(CloseUpval(s, uv), uv)
    ensures forall x :: CurrentWhite(s, x) ==> CurrentWhite(CloseUpval(s, uv), x)
    ensures (s.phase == Pause || s.phase == Finalize) ==> AllWhite(CloseUpval(s, uv))
    ensures (s.phase == SweepString || s.phase == Sweep) ==> OpenNotBlack(CloseUpval(s, uv))
    ensures s.phase == SweepString ==> StringsSwept(CloseUpval(s, uv), s.sweepstr)
  {
    hide Kids, Without, Settled;
  }

  lemma ClosedInSweep(s: State, s2: State, uv: Ref)
    requires s.phase == Sweep && PhaseOk(s) && IsOpen(s.graph, uv) && !Dead(s, uv) && uv !in s.openupval
    requires s2 == CloseUpval(s, uv) && CurrentWhite(s2, uv) && OpenNotBlack(s2)
    requires forall x :: CurrentWhite(s, x) ==> CurrentWhite(s2, x)
    ensures PhaseOk(s2)
  {
    hide Kids, StringsSwept, OpenNotBlack, CurrentWhite;
    FirstLinkPassed(s, s2, uv);
  }

  lemma CloseUpvalInv(s: State, uv: Ref)
    requires Inv(s) && IsOpen(s.graph, uv)
    ensures Inv(CloseUpval(s, uv))
  {
    if Dead(s, uv) {
      assert CloseUpval(s, uv) == DropUpval(s, uv);
      DropUpvalInv(s, uv);
    } else if s.phase == Propagate {
      CloseMarking(s, uv);
    } else {
      CloseElsewhere(s, uv);
    }
  }
}
