/** New objects, revived ones and closed upvalues keep the collector's invariant. */
module CollectorLinking {
  import opened Common
  import opened ObjectGraph
  import opened Marking
  import opened CollectorState
  import opened CollectorInvariant
  import opened CollectorMutator

  /** A new object is white and nothing live refers to it yet. */
  ghost predicate Added(s: State, s': State, o: Ref, obj: Object) {
    && o !in s.graph
    && s'.graph == s.graph[o := obj]
    && s'.color == s.color[o := White(s.white)]
    && s'.fixed == s.fixed && s'.main == s.main && s'.registry == s.registry
    && s'.mt == s.mt && s'.running == s.running
    && s'.phase == s.phase && s'.white == s.white
    && s'.gray == s.gray && s'.grayagain == s.grayagain
    && s'.sweepstr == s.sweepstr
  }

  lemma AddedEdges(s: State, s': State, o: Ref, obj: Object)
    requires Shape(s) && Added(s, s', o, obj)
    ensures forall x :: x in s.graph ==> Kids(s'.graph, x) == Kids(s.graph, x)
    ensures forall x, y :: x in s.graph ==> (Edge(s'.graph, x, y) <==> Edge(s.graph, x, y))
  {
    forall x | x in s.graph ensures Kids(s'.graph, x) == Kids(s.graph, x) {}
  }

  lemma AddedLive(s: State, s': State, o: Ref, obj: Object)
    requires Shape(s) && LiveOk(s) && Added(s, s', o, obj)
    requires forall y :: Edge(s'.graph, o, y) ==> Live(s, y)
    ensures LiveOk(s')
  {
    hide Shape, Edge, Kids;
    assert s'.Roots() == s.Roots();
    forall x, y | Live(s', x) && Edge(s'.graph, x, y) ensures Live(s', y) {
      if x != o { AddedEdge(s, s', o, obj, x, y); }
      assert Live(s, y);
    }
  }

  lemma AddedEdge(s: State, s': State, o: Ref, obj: Object, x: Ref, y: Ref)
    requires Shape(s) && Added(s, s', o, obj) && x in s.graph && Edge(s'.graph, x, y)
    ensures Edge(s.graph, x, y)
  {
    AddedEdges(s, s', o, obj);
  }

  lemma AddedTricolor(s: State, s': State, o: Ref, obj: Object)
    requires Shape(s) && LiveOk(s) && Added(s, s', o, obj)
    requires Tricolor(s.graph, s.GetMarks(), Lax(s))
    requires forall x :: x in s.color && s.color[x].White? ==> s.color[x] == White(s.white)
    ensures Tricolor(s'.graph, s'.GetMarks(), Lax(s'))
  {
    var m, m' := s.GetMarks(), s'.GetMarks();
    forall x | x in m'.color && !IsWhite(m', x) && x !in Lax(s') && x !in m'.gray
      ensures KidsMarked(s'.graph, m', x)
    {
      assert x != o && x !in Lax(s);
      assert KidsMarked(s.graph, m, x) && Live(s, x);
      AddedEdges(s, s', o, obj);
      forall c | Edge(s'.graph, x, c) ensures !IsWhite(m', c) {
        assert Edge(s.graph, x, c) && Live(s, c);
      }
    }
  }

  lemma AddedMarking(s: State, s': State, o: Ref, obj: Object)
    requires Shape(s) && LiveOk(s) && MarkingOk(s) && Added(s, s', o, obj)
    requires obj.kind == String ==> obj.slots == []
    requires obj.loc.Open? ==> obj.kind == Upvalue && obj.slots == []
    ensures MarkingOk(s')
  {
    hide Chains, Placed, LiveOk, Tricolor, Typed, ListsOk, GrayListed, BlackKinds, Lax;
    RootsKnown(s);
    assert s'.GetMarks() == s.GetMarks().(color := s.color[o := White(s.white)]);
    AddedTricolor(s, s', o, obj);
    AddedMarkLists(s.graph, s'.graph, s.GetMarks(), o, obj, s.white);
  }

  lemma RootsKnown(s: State)
    requires LiveOk(s)
    ensures s.main in s.graph && s.registry in s.graph
  {
    assert s.main in s.Roots() && s.registry in s.Roots();
  }

  lemma AddedMarkLists(g: Graph, g': Graph, m: Marks, o: Ref, obj: Object, w: bool)
    requires o !in g && g' == g[o := obj] && m.color.Keys == g.Keys
    requires obj.kind == String ==> obj.slots == []
    requires obj.loc.Open? ==> obj.kind == Upvalue && obj.slots == []
    requires Typed(g) && ListsOk(g, m) && GrayListed(g, m, {}) && BlackKinds(g, m)
    ensures Typed(g')
    ensures ListsOk(g', m.(color := m.color[o := White(w)]))
    ensures GrayListed(g', m.(color := m.color[o := White(w)]), {})
    ensures BlackKinds(g', m.(color := m.color[o := White(w)]))
  {
  }

  lemma FirstLinkPassed(s: State, s': State, o: Ref)
    requires s.phase == Sweep && PhaseOk(s)
    requires s'.phase == Sweep && s'.strt == s.strt
    requires s'.rootgc == [o] + s.rootgc && s'.sweepgc == if s.sweepgc == 0 then 0 else s.sweepgc + 1
    requires forall x :: CurrentWhite(s, x) ==> CurrentWhite(s', x)
    requires Settled(s', o) && OpenNotBlack(s')
    requires forall x :: x in s'.openupval && x != o ==>
               x in s.openupval && forall u :: u in s'.openupval[x] ==> u in s.openupval[x] || CurrentWhite(s', u)
    ensures PhaseOk(s')
  {
    forall k | 0 <= k < s'.sweepgc ensures Settled(s', s'.rootgc[k]) {
      if k > 0 { assert s'.rootgc[k] == s.rootgc[k - 1] && Settled(s, s.rootgc[k - 1]); }
    }
  }

  lemma ConsNoDuplicates(x: Ref, q: seq<Ref>)
    requires NoDuplicates(q) && x !in q
    ensures NoDuplicates([x] + q)
    ensures forall y :: y in [x] + q <==> y == x || y in q
  {
  }

  lemma InsertNoDuplicates(x: Ref, q: seq<Ref>, k: nat)
    requires NoDuplicates(q) && x !in q && k <= |q|
    ensures NoDuplicates(q[..k] + [x] + q[k..])
    ensures forall y :: y in q[..k] + [x] + q[k..] <==> y == x || y in q
  {
    var r := q[..k] + [x] + q[k..];
    assert q == q[..k] + q[k..];
    forall i, j | 0 <= i < j < |r| ensures r[i] != r[j] {
      var i' := if i < k then i else i - 1;
      var j' := if j < k then j else j - 1;
      if i != k { assert r[i] == q[i']; }
      if j != k { assert r[j] == q[j']; }
    }
  }

  // ------------------------------------------------------- objects and strings

  lemma LinkShape(s: State, o: Ref, kind: Kind, slots: seq<Option<Ref>>)
    requires Shape(s) && o !in s.graph && kind != String
    ensures Shape(Link(s, o, kind, slots))
  {
    hide MainChain, StringChains, OpenChains, UvHead, NoDuplicates;
    LinkOneChain(s, o, kind, slots);
    LinkOpenChains(s, o, kind, slots);
  }

  lemma LinkOneChain(s: State, o: Ref, kind: Kind, slots: seq<Option<Ref>>)
    requires MainChain(s) && StringChains(s) && o !in s.graph && kind != String
    ensures MainChain(Link(s, o, kind, slots)) && StringChains(Link(s, o, kind, slots))
  {
    var s' := Link(s, o, kind, slots);
    ConsNoDuplicates(o, s.rootgc);
    assert forall x :: InMainChain(s', x) <==> InMainChain(s, x) || x == o;
    assert forall x, b :: InStringChain(s', x, b) <==> InStringChain(s, x, b);
  }

  lemma LinkOpenChains(s: State, o: Ref, kind: Kind, slots: seq<Option<Ref>>)
    requires OpenChains(s) && UvHead(s) && Placed(s.graph) && o !in s.graph
    ensures OpenChains(Link(s, o, kind, slots)) && UvHead(Link(s, o, kind, slots))
  {
    var s' := Link(s, o, kind, slots);
    assert forall x, t :: InOpenChain(s', x, t) <==> InOpenChain(s, x, t);
    assert forall x :: !InOpenChain(s, x, o);
  }

  lemma LinkInv(s: State, o: Ref, kind: Kind, slots: seq<Option<Ref>>)
    requires Inv(s) && o !in s.graph && kind != String
    requires forall v :: Some(v) in slots ==> Live(s, v)
    ensures Inv(Link(s, o, kind, slots))
  {
    var s' := Link(s, o, kind, slots);
    LinkShape(s, o, kind, slots);
    AddedLive(s, s', o, s'.graph[o]);
    LinkPhase(s, o, kind, slots);
  }

  lemma LinkPhase(s: State, o: Ref, kind: Kind, slots: seq<Option<Ref>>)
    requires Shape(s) && LiveOk(s) && PhaseOk(s) && o !in s.graph && kind != String
    ensures PhaseOk(Link(s, o, kind, slots))
  {
    var s' := Link(s, o, kind, slots);
    if s.phase == Propagate { AddedMarking(s, s', o, s'.graph[o]); }
    if s.phase == Sweep { FirstLinkPassed(s, s', o); }
  }

  lemma LinkUserdataMainChain(s: State, o: Ref, slots: seq<Option<Ref>>)
    requires MainChain(s) && o !in s.graph
    ensures MainChain(LinkUserdata(s, o, slots))
  {
    var s' := LinkUserdata(s, o, slots);
    InsertNoDuplicates(o, s.rootgc, PositionAfter(s.rootgc, s.main));
    hide NoDuplicates;
    assert forall x :: InMainChain(s', x) <==> InMainChain(s, x) || x == o;
  }

  lemma LinkUserdataShape(s: State, o: Ref, slots: seq<Option<Ref>>)
    requires Shape(s) && o !in s.graph
    ensures Shape(LinkUserdata(s, o, slots))
  {
    hide MainChain, StringChains, OpenChains, UvHead, NoDuplicates;
    LinkUserdataMainChain(s, o, slots);
    LinkUserdataOthers(s, o, slots);
  }

  lemma LinkUserdataOthers(s: State, o: Ref, slots: seq<Option<Ref>>)
    requires StringChains(s) && OpenChains(s) && UvHead(s) && o !in s.graph
    ensures var s' := LinkUserdata(s, o, slots);
            StringChains(s') && OpenChains(s') && UvHead(s')
  {
    hide NoDuplicates;
    var s' := LinkUserdata(s, o, slots);
    assert StringChains(s') by {
      hide OpenChains, UvHead;
      assert forall x, b :: InStringChain(s', x, b) <==> InStringChain(s, x, b);
    }
    hide StringChains;
    assert forall x, t :: InOpenChain(s', x, t) <==> InOpenChain(s, x, t);
  }

  lemma LinkUserdataInv(s: State, o: Ref, slots: seq<Option<Ref>>)
    requires Inv(s) && o !in s.graph
    requires forall v :: Some(v) in slots ==> Live(s, v)
    ensures Inv(LinkUserdata(s, o, slots))
  {
    LinkUserdataShape(s, o, slots);
    var s' := LinkUserdata(s, o, slots);
    AddedLive(s, s', o, s'.graph[o]);
    LinkUserdataPhase(s, o, slots);
  }

  lemma LinkUserdataPhase(s: State, o: Ref, slots: seq<Option<Ref>>)
    requires Shape(s) && LiveOk(s) && PhaseOk(s) && o !in s.graph
    ensures PhaseOk(LinkUserdata(s, o, slots))
  {
    hide OpenChains, UvHead, MainChain, LiveOk, MarkingOk, Typed, Placed, Settled;
    var s' := LinkUserdata(s, o, slots);
    if s.phase == Propagate {
      AddedMarking(s, s', o, s'.graph[o]);
    } else if s.phase == Sweep {
      NotAChain(s, o);
      LinkUserdataPassed(s, o, slots);
    }
  }

  lemma NotAChain(s: State, o: Ref)
    requires OpenChains(s) && o !in s.graph
    ensures o !in s.openupval
  {
  }

  lemma LinkUserdataPassed(s: State, o: Ref, slots: seq<Option<Ref>>)
    requires PhaseOk(s) && s.phase == Sweep && o !in s.openupval
    requires forall x :: CurrentWhite(s, x) ==> x != o
    ensures PhaseOk(LinkUserdata(s, o, slots))
  {
    var s' := LinkUserdata(s, o, slots);
    assert forall x :: CurrentWhite(s', x) <==> CurrentWhite(s, x) || x == o;
    hide CurrentWhite;
    if s.phase == Sweep {
      var k := PositionAfter(s.rootgc, s.main);
      forall j | 0 <= j < s'.sweepgc ensures Settled(s', s'.rootgc[j]) {
        if j < k { assert Settled(s, s.rootgc[j]); }
        if j > k { assert s'.rootgc[j] == s.rootgc[j - 1] && Settled(s, s.rootgc[j - 1]); }
      }
    }
  }

  lemma LinkStringChains(s: State, o: Ref, hash: nat)
    requires StringChains(s) && o !in s.graph
    ensures StringChains(LinkString(s, o, hash))
  {
    var s' := LinkString(s, o, hash);
    var b := hash % |s.strt|;
    ConsNoDuplicates(o, s.strt[b]);
    assert forall x, c :: InStringChain(s', x, c) <==> InStringChain(s, x, c) || (x == o && c == b);
  }

  lemma LinkStringShape(s: State, o: Ref, hash: nat)
    requires Shape(s) && o !in s.graph
    ensures Shape(LinkString(s, o, hash))
  {
    hide MainChain, OpenChains, UvHead, NoDuplicates;
    LinkStringChains(s, o, hash);
    LinkStringOthers(s, o, hash);
  }

  lemma LinkStringOthers(s: State, o: Ref, hash: nat)
    requires |s.strt| > 0 && MainChain(s) && OpenChains(s) && UvHead(s) && o !in s.graph
    ensures var s' := LinkString(s, o, hash);
            MainChain(s') && OpenChains(s') && UvHead(s')
  {
    hide NoDuplicates;
    var s' := LinkString(s, o, hash);
    assert MainChain(s') by {
      hide OpenChains, UvHead;
      assert forall x :: InMainChain(s', x) <==> InMainChain(s, x);
    }
    hide MainChain;
    assert forall x, t :: InOpenChain(s', x, t) <==> InOpenChain(s, x, t);
  }

  lemma LinkStringInv(s: State, o: Ref, hash: nat)
    requires Inv(s) && o !in s.graph
    ensures Inv(LinkString(s, o, hash))
  {
    hide PhaseOk;
    LinkStringShape(s, o, hash);
    var s' := LinkString(s, o, hash);
    assert !Edge(s'.graph, o, o);
    AddedLive(s, s', o, s'.graph[o]);
    LinkStringPhase(s, o, hash);
  }

  lemma LinkStringPhase(s: State, o: Ref, hash: nat)
    requires Shape(s) && LiveOk(s) && PhaseOk(s) && o !in s.graph
    ensures PhaseOk(LinkString(s, o, hash))
  {
    var s' := LinkString(s, o, hash);
    if s.phase == Propagate { AddedMarking(s, s', o, s'.graph[o]); }
    hide OpenChains, UvHead, MainChain, LiveOk;
    if s.phase == Sweep {
      forall k | 0 <= k < s'.sweepgc ensures Settled(s', s'.rootgc[k]) { assert Settled(s, s.rootgc[k]); }
    }
  }

  // ---------------------------------------------------------- open upvalues

  lemma LinkOpenUpvalShape(s: State, uv: Ref, t: Ref, level: nat, pos: nat)
    requires Shape(s) && uv !in s.graph && IsThread(s, t) && level < |s.graph[t].slots|
    requires t in s.openupval && pos <= |s.openupval[t]|
    ensures Shape(LinkOpenUpval(s, uv, t, level, pos))
  {
    var s' := LinkOpenUpval(s, uv, t, level, pos);
    assert StringChains(s') by {
      hide MainChain, OpenChains, UvHead;
      assert forall x, c :: InStringChain(s', x, c) <==> InStringChain(s, x, c);
    }
    hide StringChains;
    assert MainChain(s') by {
      hide OpenChains, UvHead;
      assert forall x :: InMainChain(s', x) <==> InMainChain(s, x);
    }
    hide MainChain;
    InsertNoDuplicates(uv, s.openupval[t], pos);
    ConsNoDuplicates(uv, s.uvhead);
    assert forall x, u :: InOpenChain(s', x, u) <==> InOpenChain(s, x, u) || (x == uv && u == t);
  }

  lemma LinkOpenUpvalInv(s: State, uv: Ref, t: Ref, level: nat, pos: nat)
    requires Inv(s) && uv !in s.graph && IsThread(s, t) && Live(s, t) && level < |s.graph[t].slots|
    requires t in s.openupval && pos <= |s.openupval[t]|
    ensures Inv(LinkOpenUpval(s, uv, t, level, pos))
  {
    hide PhaseOk;
    LinkOpenUpvalShape(s, uv, t, level, pos);
    var s' := LinkOpenUpval(s, uv, t, level, pos);
    forall y | Edge(s'.graph, uv, y) ensures Live(s, y) { assert Edge(s.graph, t, y); }
    AddedLive(s, s', uv, s'.graph[uv]);
    LinkOpenUpvalPhase(s, uv, t, level, pos);
  }

  lemma LinkOpenUpvalPhase(s: State, uv: Ref, t: Ref, level: nat, pos: nat)
    requires Shape(s) && LiveOk(s) && PhaseOk(s) && uv !in s.graph && IsThread(s, t)
    requires t in s.openupval && pos <= |s.openupval[t]|
    ensures PhaseOk(LinkOpenUpval(s, uv, t, level, pos))
  {
    var s' := LinkOpenUpval(s, uv, t, level, pos);
    if s.phase == Propagate { AddedMarking(s, s', uv, s'.graph[uv]); }
    hide OpenChains, UvHead, MainChain, StringChains, LiveOk;
    if s.phase == Sweep {
      InsertNoDuplicates(uv, s.openupval[t], pos);
      forall k | 0 <= k < s'.sweepgc ensures Settled(s', s'.rootgc[k]) { assert Settled(s, s.rootgc[k]); }
    }
  }

  /** A string, or an open upvalue of a live thread, may come back to life. */
  lemma ReviveInv(s: State, o: Ref)
    requires Inv(s) && o in s.graph
    requires s.graph[o].kind == String || (IsOpen(s.graph, o) && Live(s, s.graph[o].loc.thread))
    ensures Inv(Revive(s, o)) && Live(Revive(s, o), o)
  {
    if Dead(s, o) {
      var s' := Whiten(s, o);
      ReviveLive(s, o);
      ReviveShape(s, o);
      hide Shape, LiveOk, MarkingOk;
      if s.phase == SweepString || s.phase == Sweep { SweepKept(s, s'); }
    }
  }

  lemma ReviveLive(s: State, o: Ref)
    requires LiveOk(s) && Typed(s.graph) && Placed(s.graph) && o in s.graph && Dead(s, o)
    requires s.graph[o].kind == String || (IsOpen(s.graph, o) && Live(s, s.graph[o].loc.thread))
    ensures LiveOk(Whiten(s, o))
  {
    var s' := Whiten(s, o);
    assert s'.Roots() == s.Roots();
    forall x, y | Live(s', x) && Edge(s'.graph, x, y) ensures Live(s', y) {
      if x == o && IsOpen(s.graph, o) { assert Edge(s.graph, s.graph[o].loc.thread, y); } else { assert Live(s, x); }
      assert Live(s, y);
    }
  }

  lemma ReviveShape(s: State, o: Ref)
    requires Shape(s) && o in s.graph
    ensures Shape(Whiten(s, o))
  {
    var s' := Whiten(s, o);
    assert forall x :: InMainChain(s', x) <==> InMainChain(s, x);
    assert forall x, c :: InStringChain(s', x, c) <==> InStringChain(s, x, c);
    assert forall x, t :: InOpenChain(s', x, t) <==> InOpenChain(s, x, t);
  }
}
