/** The sweep keeps the collector's invariant and frees exactly the dead objects. */
module CollectorSweep {
  import opened Common
  import opened ObjectGraph
  import opened Marking
  import opened CollectorState
  import opened CollectorInvariant
  import opened CollectorMutator
  import opened CollectorLinking
  import opened CollectorClosing
  import opened CollectorMarkPhase

  /** `keep` is what the current sweep is going to leave in the heap. */
  ghost predicate Keeps(s: State, keep: set<Ref>) {
    keep <= s.graph.Keys && forall x :: x in s.graph ==> (x in keep <==> Kept(s, x))
  }

  /** Objects may have gone, but those that are left have the same kids as before. */
  ghost predicate SameEdges(s: State, s': State) {
    && s'.graph.Keys <= s.graph.Keys && s'.Roots() == s.Roots() && s'.fixed == s.fixed
    && forall x :: x in s'.graph ==> Kids(s'.graph, x) == Kids(s.graph, x)
  }

  // ----------------------------------------------------------- one chain

  predicate Swept(s: State, chain: seq<Ref>, x: Ref) {
    x in chain && !Kept(s, x)
  }

  /** What sweeping a chain does to the state, object by object. */
  ghost predicate ChainSwept(s: State, chain: seq<Ref>, s': State, kept: seq<Ref>) {
    && s' == s.(graph := s'.graph, color := s'.color, uvhead := s'.uvhead)
    && NoDuplicates(kept)
    && (forall x :: x in kept <==> x in chain && Kept(s, x))
    && (forall x :: x in s'.graph <==> x in s.graph && !Swept(s, chain, x))
    && (forall x :: x in s'.graph ==> s'.graph[x] == s.graph[x])
    && (forall x :: x in s'.color <==> x in s.color && !Swept(s, chain, x))
    && (forall x :: x in s'.color ==> s'.color[x] == if x in chain then White(s.white) else s.color[x])
    && NoDuplicates(s'.uvhead)
    && (forall x :: x in s'.uvhead <==> x in s.uvhead && !(Swept(s, chain, x) && IsOpen(s.graph, x)))
  }

  lemma {:induction false} SweepChainEffect(s: State, chain: seq<Ref>)
    requires NoDuplicates(chain) && s.color.Keys == s.graph.Keys && NoDuplicates(s.uvhead)
    requires forall x :: x in chain ==> x in s.graph
    ensures ChainSwept(s, chain, SweepChain(s, chain).0, SweepChain(s, chain).1)
    decreases |chain|
  {
    if chain != [] {
      var x, rest := chain[0], chain[1..];
      assert forall i, j :: 0 <= i < j < |rest| ==> rest[i] == chain[i + 1] && rest[j] == chain[j + 1];
      assert x !in rest;
      assert forall y :: y in chain <==> y == x || y in rest;
      if Kept(s, x) {
        assert forall y :: y in rest ==> (Kept(Whiten(s, x), y) <==> Kept(s, y));
        SweepChainEffect(Whiten(s, x), rest);
        ChainSweptKeep(s, chain, SweepChain(Whiten(s, x), rest).0, SweepChain(Whiten(s, x), rest).1);
      } else {
        assert forall y :: y in rest ==> (Kept(Erase(s, x), y) <==> Kept(s, y));
        SweepChainEffect(Erase(s, x), rest);
        ChainSweptErase(s, chain, SweepChain(Erase(s, x), rest).0, SweepChain(Erase(s, x), rest).1);
      }
    }
  }

  lemma ChainSweptKeep(s: State, chain: seq<Ref>, s2: State, kept: seq<Ref>)
    requires chain != [] && chain[0] !in chain[1..] && s.color.Keys == s.graph.Keys
    requires forall y :: y in chain <==> y == chain[0] || y in chain[1..]
    requires chain[0] in s.graph && Kept(s, chain[0])
    requires forall y :: y in chain[1..] ==> (Kept(Whiten(s, chain[0]), y) <==> Kept(s, y))
    requires ChainSwept(Whiten(s, chain[0]), chain[1..], s2, kept)
    ensures ChainSwept(s, chain, s2, [chain[0]] + kept)
  {
    var x, rest, s1 := chain[0], chain[1..], Whiten(s, chain[0]);
    assert forall y :: Swept(s, chain, y) <==> Swept(s1, rest, y);
  }

  lemma ChainSweptErase(s: State, chain: seq<Ref>, s2: State, kept: seq<Ref>)
    requires chain != [] && chain[0] !in chain[1..] && s.color.Keys == s.graph.Keys && NoDuplicates(s.uvhead)
    requires forall y :: y in chain <==> y == chain[0] || y in chain[1..]
    requires chain[0] in s.graph && !Kept(s, chain[0])
    requires forall y :: y in chain[1..] ==> (Kept(Erase(s, chain[0]), y) <==> Kept(s, y))
    requires ChainSwept(Erase(s, chain[0]), chain[1..], s2, kept)
    ensures ChainSwept(s, chain, s2, kept)
  {
    var x, rest, s1 := chain[0], chain[1..], Erase(s, chain[0]);
    assert forall y :: Swept(s, chain, y) <==> Swept(s1, rest, y) || y == x;
    assert forall y :: y in s.graph && y != x ==> y in s1.graph && s1.graph[y] == s.graph[y];
    assert forall y :: y in s.color && y != x ==> y in s1.color && s1.color[y] == s.color[y];
    forall y ensures y in s2.uvhead <==> y in s.uvhead && !(Swept(s, chain, y) && IsOpen(s.graph, y)) {
      assert y in s1.uvhead <==> y in s.uvhead && !(y == x && IsOpen(s.graph, x));
    }
  }

  /** Chains swept in one go hold strings or open upvalues, never threads. */
  ghost predicate LeafChain(s: State, chain: seq<Ref>) {
    && (forall x :: x in chain ==> x in s.graph && s.graph[x].kind != Thread)
    && (forall x :: x in chain && x in s.fixed ==> s.graph[x].kind == String)
  }

  lemma ChainSweptEdges(s: State, chain: seq<Ref>, s': State, kept: seq<Ref>)
    requires Typed(s.graph) && Placed(s.graph) && LeafChain(s, chain) && ChainSwept(s, chain, s', kept)
    ensures SameEdges(s, s')
  {
    forall x | x in s'.graph ensures Kids(s'.graph, x) == Kids(s.graph, x) {}
  }

  lemma ChainSweptLive(s: State, chain: seq<Ref>, s': State, kept: seq<Ref>)
    requires Shape(s) && LiveOk(s) && LeafChain(s, chain) && ChainSwept(s, chain, s', kept)
    ensures LiveOk(s')
  {
    ChainSweptEdges(s, chain, s', kept);
    forall x | Live(s, x) ensures Live(s', x) {}
    forall x, y | Live(s', x) && Edge(s'.graph, x, y) ensures Live(s', y) {
      assert Live(s, x);
      assert Live(s, y);
    }
    forall r | r in s'.Roots() ensures Live(s', r) { assert Live(s, r); }
  }

  lemma ChainSweptKeeps(s: State, chain: seq<Ref>, s': State, kept: seq<Ref>, keep: set<Ref>)
    requires s.color.Keys == s.graph.Keys && ChainSwept(s, chain, s', kept) && Keeps(s, keep)
    ensures Keeps(s', keep)
  {
    forall x | x in s'.graph ensures x in keep <==> Kept(s', x) {
      assert Kept(s', x) <==> Kept(s, x);
    }
  }

  // ------------------------------------------------------- the string chains

  lemma SweepStringChain(s: State)
    requires Shape(s) && s.sweepstr < |s.strt|
    ensures var chain := s.strt[s.sweepstr];
            LeafChain(s, chain) && ChainSwept(s, chain, SweepChain(s, chain).0, SweepChain(s, chain).1)
  {
    var chain := s.strt[s.sweepstr];
    forall x | x in chain ensures x in s.graph && s.graph[x].kind == String {
      assert InStringChain(s, x, s.sweepstr);
    }
    SweepChainEffect(s, chain);
  }

  lemma SweepOneStringShape(s: State)
    requires Shape(s) && s.sweepstr < |s.strt|
    ensures Shape(SweepOneString(s))
  {
    SweepStringChain(s);
    var b := s.sweepstr;
    var s' := SweepOneString(s);
    assert forall x :: x in s'.graph <==> x in s.graph && !Swept(s, s.strt[b], x);
    forall x | Swept(s, s.strt[b], x) ensures InStringChain(s, x, b) {}
    SweptMainChain(s, s', b);
    SweptStringChains(s, s', b);
    SweptOpenChains(s, s', b);
    forall x | x in s'.graph && s'.graph[x].loc.Open? ensures s'.graph[x].loc.thread in s'.graph {
      assert s.graph[s.graph[x].loc.thread].kind == Thread;
    }
  }

  /** `s'` has lost some strings of chain `b` and nothing else. */
  ghost predicate LostStrings(s: State, s': State, b: nat) {
    && (forall x :: x in s'.graph ==> x in s.graph && s'.graph[x] == s.graph[x])
    && (forall x :: x in s.graph && x !in s'.graph ==> InStringChain(s, x, b))
    && s'.rootgc == s.rootgc && s'.openupval == s.openupval
  }

  lemma SweptMainChain(s: State, s': State, b: nat)
    requires MainChain(s) && LostStrings(s, s', b)
    ensures MainChain(s')
  {
    assert forall x :: InMainChain(s', x) <==> InMainChain(s, x);
  }

  lemma SweptStringChains(s: State, s': State, b: nat)
    requires StringChains(s) && LostStrings(s, s', b) && b < |s.strt| && |s'.strt| == |s.strt|
    requires forall c :: 0 <= c < |s.strt| && c != b ==> s'.strt[c] == s.strt[c]
    requires NoDuplicates(s'.strt[b])
    requires forall x :: x in s'.strt[b] <==> x in s.strt[b] && x in s'.graph
    ensures StringChains(s')
  {
    forall c, x | 0 <= c < |s'.strt| ensures x in s'.strt[c] <==> InStringChain(s', x, c) {
      assert x in s.strt[c] <==> InStringChain(s, x, c);
    }
  }

  lemma SweptOpenChains(s: State, s': State, b: nat)
    requires OpenChains(s) && UvHead(s) && Typed(s.graph) && LostStrings(s, s', b)
    requires NoDuplicates(s'.uvhead)
    requires forall x :: x in s'.uvhead <==> x in s.uvhead
    ensures OpenChains(s') && UvHead(s')
  {
    assert forall x :: IsThread(s', x) <==> IsThread(s, x);
    assert forall x, t :: InOpenChain(s', x, t) <==> InOpenChain(s, x, t);
    assert forall x :: IsOpen(s'.graph, x) <==> IsOpen(s.graph, x);
  }

  lemma SweepOneStringPhase(s: State)
    requires Shape(s) && s.phase == SweepString && PhaseOk(s)
    ensures PhaseOk(SweepOneString(s))
  {
    SweepStringChain(s);
    var b := s.sweepstr;
    var s' := SweepOneString(s);
    forall c, x {:trigger x in s'.strt[c]} | 0 <= c <= b && c < |s'.strt|
    && x in s'.strt[c] ensures CurrentWhite(s', x) {
      if c < b {
        assert x in s.strt[c];
        assert InStringChain(s, x, c) && !InStringChain(s, x, b);
      }
    }
  }

  lemma SweepOneStringInv(s: State, keep: set<Ref>)
    requires Inv(s) && s.phase == SweepString && Keeps(s, keep)
    ensures Inv(SweepOneString(s)) && Keeps(SweepOneString(s), keep) && SameEdges(s, SweepOneString(s))
  {
    SweepStringChain(s);
    var s' := SweepOneString(s);
    var (s1, kept) := SweepChain(s, s.strt[s.sweepstr]);
    ChainSweptEdges(s, s.strt[s.sweepstr], s1, kept);
    ChainSweptLive(s, s.strt[s.sweepstr], s1, kept);
    ChainSweptKeeps(s, s.strt[s.sweepstr], s1, kept, keep);
    SweepOneStringShape(s);
    SweepOneStringPhase(s);
    assert s'.Roots() == s1.Roots();
    assert forall x :: Live(s1, x) <==> Live(s', x);
    assert forall x :: Kept(s1, x) <==> Kept(s', x);
  }

  // ---------------------------------------------------------- the main chain

  lemma SweepOpenChain(s: State, x: Ref)
    requires Shape(s) && x in s.openupval
    ensures var chain := s.openupval[x];
            LeafChain(s, chain) && ChainSwept(s, chain, SweepChain(s, chain).0, SweepChain(s, chain).1)
  {
    var chain := s.openupval[x];
    forall u | u in chain ensures u in s.graph && s.graph[u].loc.Open? {
      assert InOpenChain(s, u, x);
    }
    SweepChainEffect(s, chain);
  }

  lemma SweepOpenShape(s: State, x: Ref)
    requires Shape(s)
    ensures Shape(SweepOpen(s, x))
  {
    if x in s.openupval {
      SweepOpenEffect(s, x);
      hide SweepOpen, MainChain, StringChains, OpenChains, UvHead, InOpenChain, Typed, Placed, NoDuplicates;
      OpenSweptObjects(s, SweepOpen(s, x), x);
      OpenSweptChains(s, SweepOpen(s, x), x);
      OpenSweptFixed(s, SweepOpen(s, x), x);
    }
  }

  lemma SweepOpenEffect(s: State, x: Ref)
    requires Shape(s) && x in s.openupval
    ensures var s' := SweepOpen(s, x);
            && s' == s.(graph := s'.graph, color := s'.color, uvhead := s'.uvhead, openupval := s'.openupval)
            && s'.color.Keys == s'.graph.Keys
            && (forall u :: u in s'.graph ==> u in s.graph && s'.graph[u] == s.graph[u])
            && (forall u :: u in s.graph && u !in s'.graph ==> InOpenChain(s, u, x))
            && s'.openupval.Keys == s.openupval.Keys
            && (forall t :: t in s.openupval && t != x ==> s'.openupval[t] == s.openupval[t])
            && NoDuplicates(s'.openupval[x])
            && (forall u :: u in s'.openupval[x] <==> u in s.openupval[x] && u in s'.graph)
            && NoDuplicates(s'.uvhead)
            && (forall u :: u in s'.uvhead <==> u in s.uvhead && u in s'.graph)
  {
    hide SweepChain, MainChain, StringChains, NoDuplicates, Typed, Placed;
    SweepOpenChain(s, x);
    assert forall u :: Swept(s, s.openupval[x], u) ==> InOpenChain(s, u, x);
  }

  lemma OpenSweptFixed(s: State, s': State, x: Ref)
    requires Typed(s.graph) && IsThread(s, s.main)
    requires forall f :: f in s.fixed ==> f in s.graph && (f == s.main || s.graph[f].kind == String)
    requires s'.fixed == s.fixed && s'.main == s.main
    requires forall u :: u in s'.graph ==> u in s.graph && s'.graph[u] == s.graph[u]
    requires forall u :: u in s.graph && u !in s'.graph ==> InOpenChain(s, u, x)
    ensures IsThread(s', s'.main)
    ensures forall f :: f in s'.fixed ==> f in s'.graph && (f == s'.main || s'.graph[f].kind == String)
  {
  }

  /** Some open upvalues of thread `x` have gone. */
  lemma OpenSweptObjects(s: State, s': State, x: Ref)
    requires MainChain(s) && StringChains(s) && Typed(s.graph) && Placed(s.graph)
    requires s'.rootgc == s.rootgc && s'.strt == s.strt
    requires forall u :: u in s'.graph ==> u in s.graph && s'.graph[u] == s.graph[u]
    requires forall u :: u in s.graph && u !in s'.graph ==> InOpenChain(s, u, x)
    ensures MainChain(s') && StringChains(s') && Typed(s'.graph) && Placed(s'.graph)
  {
    assert MainChain(s') by {
      hide StringChains;
      assert forall u :: InMainChain(s', u) <==> InMainChain(s, u);
    }
    assert StringChains(s') by {
      hide MainChain;
      assert forall u, c :: InStringChain(s', u, c) <==> InStringChain(s, u, c);
    }
    hide MainChain, StringChains;
    forall u | u in s'.graph && s'.graph[u].loc.Open? ensures s'.graph[u].loc.thread in s'.graph {
      assert s.graph[s.graph[u].loc.thread].kind == Thread;
    }
  }

  lemma OpenSweptChains(s: State, s': State, x: Ref)
    requires OpenChains(s) && UvHead(s) && Typed(s.graph) && x in s.openupval
    requires forall u :: u in s'.graph ==> u in s.graph && s'.graph[u] == s.graph[u]
    requires forall u :: u in s.graph && u !in s'.graph ==> InOpenChain(s, u, x)
    requires s'.openupval.Keys == s.openupval.Keys
    requires forall t :: t in s.openupval && t != x ==> s'.openupval[t] == s.openupval[t]
    requires NoDuplicates(s'.openupval[x])
    requires forall u :: u in s'.openupval[x] <==> u in s.openupval[x] && u in s'.graph
    requires NoDuplicates(s'.uvhead)
    requires forall u :: u in s'.uvhead <==> u in s.uvhead && u in s'.graph
    ensures OpenChains(s') && UvHead(s')
  {
    assert forall u :: IsThread(s', u) <==> IsThread(s, u);
    forall t, u | t in s'.openupval ensures u in s'.openupval[t] <==> InOpenChain(s', u, t) {
      assert u in s.openupval[t] <==> InOpenChain(s, u, t);
    }
    assert forall u :: IsOpen(s'.graph, u) <==> IsOpen(s.graph, u) && u in s'.graph;
  }

  lemma SweepOpenPhase(s: State, x: Ref)
    requires Shape(s) && s.phase == Sweep && PhaseOk(s)
    ensures PhaseOk(SweepOpen(s, x))
    ensures x in s.openupval ==> x in SweepOpen(s, x).openupval
    ensures x in s.openupval ==>
              forall u :: u in SweepOpen(s, x).openupval[x] ==> CurrentWhite(SweepOpen(s, x), u)
  {
    if x in s.openupval {
      hide Shape, SweepChain, NoDuplicates, StringsSwept, Settled, OpenNotBlack;
      SweepOpenChain(s, x);
      var s' := SweepOpen(s, x);
      assert forall u :: CurrentWhite(s, u) ==> CurrentWhite(s', u);
      StaysSwept(s, s');
    }
  }

  /** What the sweep has passed stays passed when chains of open upvalues only lose members. */
  lemma StaysSwept(s: State, s': State)
    requires s.phase == s'.phase == Sweep && PhaseOk(s)
    requires s'.strt == s.strt && s'.rootgc == s.rootgc && s'.sweepgc == s.sweepgc && OpenNotBlack(s')
    requires forall u :: CurrentWhite(s, u) ==> CurrentWhite(s', u)
    requires forall t, u :: t in s'.openupval && u in s'.openupval[t] ==>
                              t in s.openupval && u in s.openupval[t]
    ensures PhaseOk(s')
  {
    hide OpenNotBlack, CurrentWhite;
    forall k | 0 <= k < s'.sweepgc ensures Settled(s', s'.rootgc[k]) { assert Settled(s, s.rootgc[k]); }
  }

  lemma SweepOpenInv(s: State, x: Ref, keep: set<Ref>)
    requires Inv(s) && s.phase == Sweep && Keeps(s, keep)
    ensures Inv(SweepOpen(s, x)) && Keeps(SweepOpen(s, x), keep) && SameEdges(s, SweepOpen(s, x))
  {
    SweepOpenShape(s, x);
    SweepOpenPhase(s, x);
    if x in s.openupval {
      SweepOpenChain(s, x);
      var (s1, kept) := SweepChain(s, s.openupval[x]);
      var s' := SweepOpen(s, x);
      ChainSweptEdges(s, s.openupval[x], s1, kept);
      ChainSweptLive(s, s.openupval[x], s1, kept);
      ChainSweptKeeps(s, s.openupval[x], s1, kept, keep);
      assert s'.Roots() == s1.Roots();
      assert forall y :: Live(s1, y) <==> Live(s', y);
      assert forall y :: Kept(s1, y) <==> Kept(s', y);
    }
  }

  /** A kept object turns white and the sweep passes it. */
  lemma PassInv(s: State, x: Ref, keep: set<Ref>)
    requires Inv(s) && s.phase == Sweep && s.sweepgc < |s.rootgc| && s.rootgc[s.sweepgc] == x
    requires Kept(s, x) && Keeps(s, keep)
    requires x in s.openupval ==> forall u :: u in s.openupval[x] ==> CurrentWhite(s, u)
    ensures Inv(Whiten(s, x).(sweepgc := s.sweepgc + 1)) && Keeps(Whiten(s, x).(sweepgc := s.sweepgc + 1), keep)
    ensures SameEdges(s, Whiten(s, x).(sweepgc := s.sweepgc + 1))
  {
    hide Shape, LiveOk, PhaseOk;
    KeptIsLive(s, x);
    var s1 := Whiten(s, x);
    var s' := s1.(sweepgc := s.sweepgc + 1);
    Recolored(s, s1);
    PositionShape(s1, s.sweepgc + 1);
    PositionLive(s1, s.sweepgc + 1);
    PassPhase(s, x);
    assert s'.Roots() == s.Roots();
    assert forall y :: Kept(s', y) <==> Kept(s, y);
  }

  /** The only fixed object of the main chain is the main thread, which is live. */
  lemma KeptIsLive(s: State, x: Ref)
    requires Shape(s) && LiveOk(s) && x in s.rootgc && Kept(s, x)
    ensures Live(s, x)
  {
    assert InMainChain(s, x);
    if Dead(s, x) { assert x == s.main && s.main in s.Roots() && Live(s, s.main); }
  }

  lemma PassPhase(s: State, x: Ref)
    requires Shape(s) && s.phase == Sweep && PhaseOk(s) && s.sweepgc < |s.rootgc| && s.rootgc[s.sweepgc] == x
    requires x in s.openupval ==> forall u :: u in s.openupval[x] ==> CurrentWhite(s, u)
    ensures PhaseOk(Whiten(s, x).(sweepgc := s.sweepgc + 1))
  {
    var s' := Whiten(s, x).(sweepgc := s.sweepgc + 1);
    assert x in s.rootgc && InMainChain(s, x);
    assert forall u :: CurrentWhite(s, u) ==> CurrentWhite(s', u);
    forall k | 0 <= k < s'.sweepgc ensures Settled(s', s'.rootgc[k]) {
      if k < s.sweepgc { assert Settled(s, s.rootgc[k]); }
    }
  }

  lemma PositionLive(s: State, p: nat)
    requires LiveOk(s)
    ensures LiveOk(s.(sweepgc := p))
  {
    assert s.(sweepgc := p).Roots() == s.Roots();
    assert forall y :: Live(s.(sweepgc := p), y) <==> Live(s, y);
  }

  lemma PositionShape(s: State, p: nat)
    requires Shape(s)
    ensures Shape(s.(sweepgc := p))
  {
    var s' := s.(sweepgc := p);
    assert forall x :: InMainChain(s', x) <==> InMainChain(s, x);
    assert forall x, b :: InStringChain(s', x, b) <==> InStringChain(s, x, b);
    assert forall x, t :: InOpenChain(s', x, t) <==> InOpenChain(s, x, t);
  }

  lemma DropObjectShape(s: State, x: Ref)
    requires Shape(s) && InMainChain(s, x) && x !in s.fixed
    requires forall u :: !InOpenChain(s, u, x)
    ensures Shape(DropObject(s, x))
  {
    hide MainChain, StringChains, OpenChains, UvHead;
    var s' := DropObject(s, x);
    DropObjectChains(s, x);
    DropOpenChains(s, x);
    forall u | u in s'.graph && s'.graph[u].loc.Open? ensures s'.graph[u].loc.thread in s'.graph {
      assert InOpenChain(s, u, s.graph[u].loc.thread);
    }
  }

  lemma DropObjectChains(s: State, x: Ref)
    requires MainChain(s) && StringChains(s) && InMainChain(s, x)
    ensures MainChain(DropObject(s, x)) && StringChains(DropObject(s, x))
  {
    var s' := DropObject(s, x);
    assert forall u :: InMainChain(s', u) <==> InMainChain(s, u) && u != x;
    assert forall u, b :: InStringChain(s', u, b) <==> InStringChain(s, u, b);
  }

  lemma DropOpenChains(s: State, x: Ref)
    requires OpenChains(s) && UvHead(s) && InMainChain(s, x) && forall u :: !InOpenChain(s, u, x)
    ensures OpenChains(DropObject(s, x)) && UvHead(DropObject(s, x))
  {
    var s' := DropObject(s, x);
    assert forall u, t :: InOpenChain(s', u, t) <==> InOpenChain(s, u, t);
  }

  lemma DropObjectPhase(s: State, x: Ref)
    requires Shape(s) && s.phase == Sweep && PhaseOk(s) && InMainChain(s, x) && Dead(s, x)
    ensures PhaseOk(DropObject(s, x))
  {
    hide OpenChains, UvHead, MainChain, Typed, Placed;
    var s' := DropObject(s, x);
    forall k | 0 <= k < s.sweepgc ensures s.rootgc[k] != x { assert Settled(s, s.rootgc[k]); }
    assert x !in s.rootgc[..s.sweepgc];
    WithoutPrefix(s.rootgc, x, s.sweepgc);
    forall k | 0 <= k < s'.sweepgc ensures Settled(s', s'.rootgc[k]) {
      assert s'.rootgc[k] == s'.rootgc[..s.sweepgc][k] == s.rootgc[..s.sweepgc][k] == s.rootgc[k];
      assert Settled(s, s.rootgc[k]);
      assert forall u :: CurrentWhite(s, u) ==> CurrentWhite(s', u);
    }
  }

  lemma DropObjectInv(s: State, x: Ref, keep: set<Ref>)
    requires Inv(s) && s.phase == Sweep && InMainChain(s, x) && !Kept(s, x) && Keeps(s, keep)
    requires forall u :: !InOpenChain(s, u, x)
    ensures Inv(DropObject(s, x)) && Keeps(DropObject(s, x), keep) && SameEdges(s, DropObject(s, x))
  {
    DropObjectShape(s, x);
    DropObjectPhase(s, x);
    var s' := DropObject(s, x);
    RemovedLive(s, s', x);
    assert s'.Roots() == s.Roots();
    assert forall y :: y in s'.graph ==> (Kept(s', y) <==> Kept(s, y));
  }

  /** What is left to do in the sweep of the main chain. */
  function Work(s: State): int {
    2 * |s.uvhead| + |s.rootgc| - s.sweepgc
  }

  lemma SubsetLength(a: seq<Ref>, b: seq<Ref>)
    requires NoDuplicates(a) && forall x :: x in a ==> x in b
    ensures |a| <= |b|
    decreases |a|
  {
    if a != [] {
      var x, rest := a[0], a[1..];
      assert forall i, j :: 0 <= i < j < |rest| ==> rest[i] == a[i + 1] && rest[j] == a[j + 1];
      assert x !in rest;
      var b' := RemoveOne(b, x);
      SubsetLength(rest, b');
    }
  }

  function RemoveOne(q: seq<Ref>, x: Ref): (r: seq<Ref>)
    requires x in q
    ensures |r| == |q| - 1 && forall y :: y in q && y != x ==> y in r
  {
    if q[0] == x then q[1..] else [q[0]] + RemoveOne(q[1..], x)
  }

  lemma SweepOpenWork(s: State, x: Ref)
    requires Shape(s)
    ensures Work(SweepOpen(s, x)) <= Work(s)
    ensures SweepOpen(s, x).rootgc == s.rootgc && SweepOpen(s, x).sweepgc == s.sweepgc
    ensures SweepOpen(s, x).phase == s.phase && SweepOpen(s, x).fixed == s.fixed
    ensures SweepOpen(s, x).openupval.Keys == s.openupval.Keys
  {
    if x in s.openupval {
      SweepOpenChain(s, x);
      SubsetLength(SweepOpen(s, x).uvhead, s.uvhead);
    }
  }

  lemma SameEdgesTransitive(a: State, b: State, c: State)
    requires SameEdges(a, b) && SameEdges(b, c)
    ensures SameEdges(a, c)
  {
  }

  lemma SameEdgesReflexive(a: State)
    ensures SameEdges(a, a)
  {
  }

  lemma DetachInSweep(s: State, t: Ref, keep: set<Ref>)
    requires Inv(s) && s.phase == Sweep && Keeps(s, keep) && t in s.openupval && s.openupval[t] != []
    requires forall u :: u in s.openupval[t] ==> CurrentWhite(s, u)
    ensures IsOpen(s.graph, s.openupval[t][0])
    ensures var s1 := CloseUpval(s, s.openupval[t][0]);
            && Inv(s1) && Keeps(s1, keep) && SameEdges(s, s1) && s1.phase == Sweep
            && t in s1.openupval && s1.openupval[t] == s.openupval[t][1..]
            && s1.color == s.color && s1.white == s.white && Work(s1) <= Work(s)
  {
    hide PhaseOk, LiveOk, MainChain, StringChains, Typed, Placed;
    var uvs := s.openupval[t];
    var uv := uvs[0];
    assert uv in uvs && InOpenChain(s, uv, t) && CurrentWhite(s, uv);
    var s1 := Detach(s, uv);
    assert CloseUpval(s, uv) == s1;
    CloseUpvalInv(s, uv);
    DetachEdges(s, uv);
    assert s1.Roots() == s.Roots();
    assert forall y :: Kept(s1, y) <==> Kept(s, y);
    WithoutLength(s.uvhead, uv);
    assert uv !in uvs[1..];
  }

  /** The upvalues a dead thread still has are live: closing them moves them and no more. */
  lemma {:induction false} CloseAllInv(s: State, t: Ref, keep: set<Ref>)
    requires Inv(s) && s.phase == Sweep && Keeps(s, keep) && t in s.openupval
    requires forall u :: u in s.openupval[t] ==> CurrentWhite(s, u)
    ensures var s' := CloseAll(s, s.openupval[t]);
            && Inv(s') && Keeps(s', keep) && SameEdges(s, s') && s'.phase == Sweep
            && t in s'.openupval && s'.openupval[t] == [] && s'.color == s.color && s'.white == s.white
            && Work(s') <= Work(s)
    decreases |s.openupval[t]|
  {
    var uvs := s.openupval[t];
    if uvs != [] {
      DetachInSweep(s, t, keep);
      var s1 := CloseUpval(s, uvs[0]);
      forall u | u in s1.openupval[t] ensures CurrentWhite(s1, u) { assert u in uvs && CurrentWhite(s, u); }
      CloseAllInv(s1, t, keep);
      SameEdgesTransitive(s, s1, CloseAll(s1, uvs[1..]));
    }
  }

  lemma SweepRootInv(s: State, keep: set<Ref>)
    requires Inv(s) && s.phase == Sweep && s.sweepgc < |s.rootgc| && Keeps(s, keep)
    ensures Inv(SweepRoot(s)) && Keeps(SweepRoot(s), keep) && SameEdges(s, SweepRoot(s))
    ensures SweepRoot(s).phase == Sweep && Work(SweepRoot(s)) < Work(s)
  {
    var x := s.rootgc[s.sweepgc];
    var s1 := SweepOpen(s, x);
    SweepOpenInv(s, x, keep);
    SweepOpenPhase(s, x);
    SweepOpenWork(s, x);
    SweepObjectInv(s1, x, keep);
    SameEdgesTransitive(s, s1, SweepObject(s1, x));
  }

  lemma SweepObjectInv(s: State, x: Ref, keep: set<Ref>)
    requires Inv(s) && s.phase == Sweep && s.sweepgc < |s.rootgc| && s.rootgc[s.sweepgc] == x && Keeps(s, keep)
    requires x in s.openupval ==> forall u :: u in s.openupval[x] ==> CurrentWhite(s, u)
    ensures var s' := SweepObject(s, x);
            Inv(s') && Keeps(s', keep) && SameEdges(s, s') && s'.phase == Sweep && Work(s') < Work(s)
  {
    hide SameEdges, Keeps, CloseAll, PhaseOk, LiveOk;
    if Kept(s, x) {
      PassInv(s, x, keep);
    } else {
      assert x in s.rootgc && InMainChain(s, x);
      if x in s.openupval {
        SweepDeadThread(s, x, keep);
      } else {
        assert !IsThread(s, x);
        forall u ensures !InOpenChain(s, u, x) {}
        DropObjectInv(s, x, keep);
        WithoutLength(s.rootgc, x);
      }
    }
  }

  lemma SweepDeadThread(s: State, x: Ref, keep: set<Ref>)
    requires Inv(s) && s.phase == Sweep && x in s.openupval && Keeps(s, keep) && !Kept(s, x)
    requires forall u :: u in s.openupval[x] ==> CurrentWhite(s, u)
    ensures var s' := DropObject(CloseAll(s, s.openupval[x]), x);
            Inv(s') && Keeps(s', keep) && SameEdges(s, s') && s'.phase == Sweep && Work(s') < Work(s)
  {
    hide PhaseOk, LiveOk, StringChains, UvHead, SameEdges, Keeps;
    CloseAllInv(s, x, keep);
    var s2 := CloseAll(s, s.openupval[x]);
    assert IsThread(s2, x) && InMainChain(s2, x);
    forall u ensures !InOpenChain(s2, u, x) { assert u !in s2.openupval[x]; }
    DropObjectInv(s2, x, keep);
    assert x in s2.rootgc;
    WithoutLength(s2.rootgc, x);
    SameEdgesTransitive(s, s2, DropObject(s2, x));
  }

  lemma {:induction false} SweepListInv(s: State, count: nat, keep: set<Ref>)
    requires Inv(s) && s.phase == Sweep && Keeps(s, keep)
    ensures var s' := SweepList(s, count);
            && Inv(s') && Keeps(s', keep) && SameEdges(s, s') && s'.phase == Sweep && Work(s') <= Work(s)
            && (count > 0 && s.sweepgc < |s.rootgc| ==> Work(s') < Work(s))
    decreases count
  {
    hide Inv, Keeps, SameEdges, SweepRoot;
    SameEdgesReflexive(s);
    if count > 0 && s.sweepgc < |s.rootgc| {
      SweepRootInv(s, keep);
      SweepListInv(SweepRoot(s), count - 1, keep);
      SameEdgesTransitive(s, SweepRoot(s), SweepList(SweepRoot(s), count - 1));
    }
  }

  /** Once the sweep has passed everything, every object has the current white. */
  lemma SweepEnds(s: State)
    requires Inv(s) && s.phase == Sweep && s.sweepgc >= |s.rootgc|
    ensures AllWhite(s)
  {
    forall x | x in s.color ensures CurrentWhite(s, x) {
      if s.graph[x].kind == String {
        var b := s.graph[x].hash % |s.strt|;
        assert InStringChain(s, x, b) && x in s.strt[b];
      } else if s.graph[x].loc.Open? {
        var t := s.graph[x].loc.thread;
        assert IsThread(s, t) && InOpenChain(s, x, t) && x in s.openupval[t];
        assert InMainChain(s, t) && t in s.rootgc;
        var k :| 0 <= k < |s.rootgc| && s.rootgc[k] == t;
        assert Settled(s, s.rootgc[k]);
      } else {
        assert InMainChain(s, x) && x in s.rootgc;
        var k :| 0 <= k < |s.rootgc| && s.rootgc[k] == x;
        assert Settled(s, s.rootgc[k]);
      }
    }
  }

  lemma SweepSomeInv(s: State, keep: set<Ref>)
    requires Inv(s) && s.phase == Sweep && Keeps(s, keep)
    ensures var s' := SweepSome(s);
            && Inv(s') && Keeps(s', keep) && SameEdges(s, s')
            && (s'.phase == Finalize || (s'.phase == Sweep && Work(s') < Work(s)))
  {
    hide SameEdges, Keeps, PhaseOk, SweepRoot;
    SweepListInv(s, SWEEP_MAX, keep);
    var s1 := SweepList(s, SWEEP_MAX);
    if s1.sweepgc >= |s1.rootgc| {
      FinishSweepInv(s1, keep);
      SameEdgesTransitive(s, s1, s1.(phase := Finalize));
    }
  }

  lemma FinishSweepInv(s: State, keep: set<Ref>)
    requires Inv(s) && s.phase == Sweep && s.sweepgc >= |s.rootgc| && Keeps(s, keep)
    ensures var s' := s.(phase := Finalize);
            Inv(s') && Keeps(s', keep) && SameEdges(s, s')
  {
    SweepEnds(s);
    PhaseKeepsShape(s, Finalize);
    PhaseKeepsLive(s, Finalize);
    var s' := s.(phase := Finalize);
    assert s'.Roots() == s.Roots();
    assert forall x :: Kept(s', x) <==> Kept(s, x);
  }
}
