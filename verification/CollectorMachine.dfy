/** The collector as it runs: the global state is updated in place, object by object. */
module CollectorMachine {
  import opened Common
  import opened ObjectGraph
  import opened Marking
  import opened CollectorState
  import opened CollectorInvariant
  import CollectorMarkPhase
  import opened CollectorSweep
  import opened CollectorRuns
  import opened CollectorSafety
  import opened CollectorEffects

  class GlobalState {
    var graph: Graph
    var color: map<Ref, Color>
    var fixed: set<Ref>
    const main: Ref
    const registry: Ref
    var mt: seq<Option<Ref>>
    var running: Ref
    var phase: Phase
    var currentWhite: bool
    var gray: seq<Ref>
    var grayagain: seq<Ref>
    var strt: seq<seq<Ref>>
    var sweepstr: nat
    var rootgc: seq<Ref>
    var sweepgc: nat
    var openupval: map<Ref, seq<Ref>>
    var uvhead: seq<Ref>

    function S(): State
      reads this
    {
      State(graph, color, fixed, main, registry, mt, running, phase, currentWhite, gray, grayagain,
            strt, sweepstr, rootgc, sweepgc, openupval, uvhead)
    }

    function M(): Marks
      reads this
    {
      Marks(color, gray, grayagain)
    }

    constructor (mainThread: Ref, globals: Ref, reg: Ref, stack: nat, tags: nat, chains: nat)
      requires mainThread != globals && globals != reg && mainThread != reg && chains > 0
      ensures S() == InitialState(mainThread, globals, reg, stack, tags, chains) && Inv(S())
    {
      var s := InitialState(mainThread, globals, reg, stack, tags, chains);
      graph, color, fixed, main, registry, mt, running := s.graph, s.color, s.fixed, s.main, s.registry, s.mt,
        s.running;
      phase, currentWhite, gray, grayagain := s.phase, s.white, s.gray, s.grayagain;
      strt, sweepstr, rootgc, sweepgc := s.strt, s.sweepstr, s.rootgc, s.sweepgc;
      openupval, uvhead := s.openupval, s.uvhead;
      InitialInv(mainThread, globals, reg, stack, tags, chains);
    }

    // ------------------------------------------------------------- marking

    method ReallyMarkObject(o: Ref)
      requires IsWhite(M(), o) && o in graph
      modifies `color, `gray
      ensures M() == MarkObject(graph, old(M()), o)
      decreases Whites(M()), 0, 0
    {
      ghost var m := M();
      var m1 := m.(color := m.color[o := Gray]);
      assert o in Whites(m) && o !in Whites(m1) && Whites(m1) <= Whites(m);
      color := color[o := Gray];
      match graph[o].kind {
        case String =>
          assert M() == m1;
        case Userdata =>
          color := color[o := Black];
          var m2 := m.(color := m.color[o := Black]);
          assert M() == m2 && Whites(m2) == Whites(m1);
          MarkAll(graph[o].slots);
          assert M() == MarkValues(graph, m2, graph[o].slots);
        case Upvalue =>
          assert M() == m1;
          MarkAll(Kids(graph, o));
          if graph[o].loc.Closed? { color := color[o := Black]; }
        case _ =>
          gray := [o] + gray;
          assert M() == m1.(gray := [o] + m.gray);
      }
    }

    /** The macro `markobject`. */
    method MarkIfWhite(o: Ref)
      modifies `color, `gray
      ensures M() == MarkObject(graph, old(M()), o)
      decreases Whites(M()), 0, 1
    {
      if IsWhite(M(), o) && o in graph { ReallyMarkObject(o); }
    }

    /** The `markvalue` of every collectable value in a block of slots. */
    method MarkAll(vs: seq<Option<Ref>>)
      modifies `color, `gray
      ensures M() == MarkValues(graph, old(M()), vs)
      decreases Whites(M()), 1, 0
    {
      var i := 0;
      while i < |vs|
        invariant 0 <= i <= |vs|
        invariant Whites(M()) <= old(Whites(M()))
        invariant MarkValues(graph, M(), vs[i..]) == MarkValues(graph, old(M()), vs)
      {
        ghost var m := M();
        assert vs[i..][0] == vs[i] && vs[i..][1..] == vs[i + 1..];
        if vs[i].Some? { MarkIfWhite(vs[i].value); }
        assert M() == if vs[i].None? then m else MarkObject(graph, m, vs[i].value);
        i := i + 1;
      }
      assert vs[|vs|..] == [];
    }

    method PropagateOne()
      requires gray != []
      modifies `color, `gray, `grayagain
      ensures M() == PropagateMark(graph, old(M()))
    {
      var o := gray[0];
      gray := gray[1..];
      if o in graph && o in color {
        if graph[o].kind == Thread {
          grayagain := [o] + grayagain;
        } else {
          color := color[o := Black];
        }
        MarkAll(graph[o].slots);
      } else if o in graph && graph[o].kind == Thread {
        grayagain := [o] + grayagain;
        MarkAll(graph[o].slots);
      }
    }

    method DrainGray()
      modifies `color, `gray, `grayagain
      ensures M() == PropagateAll(graph, old(M())) && gray == []
    {
      while gray != []
        invariant PropagateAll(graph, M()) == PropagateAll(graph, old(M()))
        decreases Whites(M()), |gray|
      {
        PropagateOne();
      }
    }

    method MarkRoots()
      modifies this
      ensures S() == MarkRoot(old(S()))
    {
      hide BasicMarks, GlobalTable;
      var globals := GlobalTable(S());
      gray, grayagain := [], [];
      MarkBasics(globals);
      phase := Propagate;
    }

    method MarkBasics(globals: seq<Option<Ref>>)
      modifies `color, `gray
      ensures M() == BasicMarks(graph, old(M()), main, globals, registry, mt)
    {
      hide MarkObject, MarkValues;
      MarkIfWhite(main);
      MarkAll(globals);
      MarkIfWhite(registry);
      MarkAll(mt);
    }

    method RemarkOpenUpvals()
      modifies `color, `gray
      ensures M() == RemarkUpvals(graph, old(M()), uvhead)
    {
      var i := 0;
      while i < |uvhead|
        invariant 0 <= i <= |uvhead|
        invariant RemarkUpvals(graph, M(), uvhead[i..]) == RemarkUpvals(graph, old(M()), uvhead)
      {
        assert uvhead[i..][0] == uvhead[i] && uvhead[i..][1..] == uvhead[i + 1..];
        var uv := uvhead[i];
        if uv in graph && uv in color && color[uv] == Gray { MarkAll(Kids(graph, uv)); }
        i := i + 1;
      }
      assert uvhead[|uvhead|..] == [];
    }

    method AtomicMarking()
      modifies `color, `gray, `grayagain
      ensures M() == AtomicMarks(old(S()))
    {
      hide MarkObject, MarkValues, PropagateAll, RemarkUpvals;
      RemarkOpenUpvals();
      DrainGray();
      MarkIfWhite(running);
      MarkAll(mt);
      DrainGray();
      gray, grayagain := grayagain, [];
      DrainGray();
    }

    method AtomicPhase()
      modifies this
      ensures S() == Atomic(old(S()))
    {
      hide AtomicMarks;
      AtomicMarking();
      currentWhite := !currentWhite;
      sweepstr, sweepgc := 0, 0;
      phase := SweepString;
    }

    // ------------------------------------------------------------ sweeping

    method SweepWholeList(chain: seq<Ref>) returns (kept: seq<Ref>)
      modifies `graph, `color, `uvhead
      ensures S() == SweepChain(old(S()), chain).0 && kept == SweepChain(old(S()), chain).1
    {
      var i := 0;
      kept := [];
      while i < |chain|
        invariant 0 <= i <= |chain|
        invariant SweepChain(S(), chain[i..]).0 == SweepChain(old(S()), chain).0
        invariant kept + SweepChain(S(), chain[i..]).1 == SweepChain(old(S()), chain).1
      {
        var x := chain[i];
        ghost var s := S();
        assert chain[i..][0] == x && chain[i..][1..] == chain[i + 1..];
        if Kept(S(), x) {
          color := color[x := White(currentWhite)];
          ghost var rest := SweepChain(S(), chain[i + 1..]).1;
          assert kept + ([x] + rest) == (kept + [x]) + rest;
          kept := kept + [x];
        } else {
          if IsOpen(graph, x) { uvhead := Without(uvhead, x); }
          graph, color := graph - {x}, color - {x};
          assert S() == Erase(s, x);
        }
        i := i + 1;
      }
      assert chain[|chain|..] == [];
    }

    /** Move an upvalue that has just been closed to the main chain and repair its colour. */
    method LinkUpval(uv: Ref, value: seq<Option<Ref>>)
      modifies `rootgc, `sweepgc, `color, `gray
      ensures var s2 := LinkFirst(old(S()), uv);
              S() == if uv !in old(color) || old(color)[uv] != Gray then s2
                     else if phase == Propagate
                     then s2.WithMarks(MarkValues(graph, Marks(old(color)[uv := Black], old(gray), grayagain), value))
                     else Whiten(s2, uv)
    {
      hide MarkValues;
      rootgc := [uv] + rootgc;
      if sweepgc > 0 { sweepgc := sweepgc + 1; }
      if uv in color && color[uv] == Gray {
        if phase == Propagate {
          color := color[uv := Black];
          MarkAll(value);
        } else {
          color := color[uv := White(currentWhite)];
        }
      }
    }

    /** The body of `luaF_close` for one open upvalue. */
    method CloseOne(uv: Ref)
      requires IsOpen(graph, uv)
      modifies this
      ensures S() == CloseUpval(old(S()), uv)
    {
      hide MarkValues, Kids, Without;
      var t := graph[uv].loc.thread;
      var value := Kids(graph, uv);
      var dead := Dead(S(), uv);
      Unchain(uv, t);
      if dead {
        graph, color := graph - {uv}, color - {uv};
      } else {
        graph := graph[uv := graph[uv].(slots := value, loc := Closed)];
        LinkUpval(uv, value);
      }
    }

    method Unchain(uv: Ref, t: Ref)
      modifies `uvhead, `openupval
      ensures uvhead == Without(old(uvhead), uv)
      ensures openupval == if t in old(openupval) then old(openupval)[t := Without(old(openupval)[t], uv)]
                           else old(openupval)
    {
      if t in openupval { openupval := openupval[t := Without(openupval[t], uv)]; }
      uvhead := Without(uvhead, uv);
    }

    method CloseEvery(uvs: seq<Ref>)
      modifies this
      ensures S() == CloseAll(old(S()), uvs)
    {
      var i := 0;
      while i < |uvs|
        invariant 0 <= i <= |uvs|
        invariant CloseAll(S(), uvs[i..]) == CloseAll(old(S()), uvs)
      {
        assert uvs[i..][0] == uvs[i] && uvs[i..][1..] == uvs[i + 1..];
        if IsOpen(graph, uvs[i]) { CloseOne(uvs[i]); }
        i := i + 1;
      }
      assert uvs[|uvs|..] == [];
    }

    method SweepOpenUpvals(x: Ref)
      modifies `graph, `color, `uvhead, `openupval
      ensures S() == SweepOpen(old(S()), x)
    {
      hide SweepChain;
      if x in openupval {
        var kept := SweepWholeList(openupval[x]);
        openupval := openupval[x := kept];
      }
    }

    method SweepThis(x: Ref)
      modifies this
      ensures S() == SweepObject(old(S()), x)
    {
      hide CloseAll, Without;
      if Kept(S(), x) {
        color := color[x := White(currentWhite)];
        sweepgc := sweepgc + 1;
      } else {
        if x in openupval { CloseEvery(openupval[x]); }
        graph, color := graph - {x}, color - {x};
        rootgc, openupval := Without(rootgc, x), openupval - {x};
      }
    }

    method SweepNext()
      requires sweepgc < |rootgc|
      modifies this
      ensures S() == SweepRoot(old(S()))
    {
      hide SweepOpen, SweepObject;
      var x := rootgc[sweepgc];
      SweepOpenUpvals(x);
      SweepThis(x);
    }

    method SweepMany(count: nat)
      modifies this
      ensures S() == SweepList(old(S()), count)
    {
      var n := count;
      while n > 0 && sweepgc < |rootgc|
        invariant SweepList(S(), n) == SweepList(old(S()), count)
      {
        SweepNext();
        n := n - 1;
      }
    }

    /** One string chain per step. */
    method SweepOneChain()
      requires phase == SweepString && sweepstr < |strt|
      modifies this
      ensures S() == SweepOneString(old(S()))
    {
      hide SweepChain;
      var kept := SweepWholeList(strt[sweepstr]);
      strt := strt[sweepstr := kept];
      sweepstr := sweepstr + 1;
      if sweepstr >= |strt| { phase := Sweep; }
    }

    method Step()
      requires phase == SweepString ==> sweepstr < |strt|
      modifies this
      ensures S() == SingleStep(old(S()))
    {
      hide MarkRoot, PropagateMark, Atomic, SweepOneString, SweepList;
      match phase {
        case Pause => MarkRoots();
        case Propagate =>
          if gray != [] { PropagateOne(); } else { AtomicPhase(); }
        case SweepString =>
          SweepOneChain();
        case Sweep =>
          SweepMany(SWEEP_MAX);
          if sweepgc >= |rootgc| { phase := Finalize; }
        case Finalize =>
          phase := Pause;
      }
    }

    /** Step until a phase is reached. */
    method StepUntil(stop: Phase)
      requires Inv(S()) && (stop == Pause || (stop == Finalize && phase != Pause))
      modifies this
      ensures S() == RunUntil(old(S()), stop) && Inv(S()) && phase == stop
    {
      hide Inv, SingleStep;
      while phase != stop
        invariant Inv(S()) && (stop == Finalize ==> phase != Pause)
        invariant RunUntil(S(), stop) == RunUntil(old(S()), stop)
        decreases PhaseRank(S()), Unmarked(S()), Remaining(S())
      {
        SingleStepSafe(S());
        SingleStepCloser(S());
        StepIsReady(S());
        if stop == Finalize { StepsBeforePause(S()); }
        Step();
      }
    }

    method ResetSweep()
      modifies this
      ensures S() == ResetForFull(old(S()))
    {
      if phase == Pause || phase == Propagate {
        sweepstr, sweepgc := 0, 0;
        gray, grayagain := [], [];
        phase := SweepString;
      }
    }

    /** A full collection: afterwards the heap holds exactly what was reachable or fixed. */
    method FullCollection()
      requires Inv(S())
      modifies this
      ensures S() == FullGc(old(S())) && Inv(S()) && phase == Pause
      ensures graph.Keys == ReachableSet(old(graph), old(S().Roots())) + old(fixed)
      ensures AllWhite(S())
    {
      hide Inv, MarkRoot, ReachableSet, RunUntil, ResetForFull, SameEdges, AllWhite;
      FullGcExact(S());
      ResetInv(S());
      ResetSweep();
      StepUntil(Finalize);
      CollectorMarkPhase.MarkRootInv(S());
      MarkRoots();
      StepUntil(Pause);
    }

    static lemma StepIsReady(s: State)
      requires Inv(s)
      ensures s.phase == SweepString ==> s.sweepstr < |s.strt|
    {
    }

    // ------------------------------------------------------------- mutator

    method BarrierForward(o: Ref, v: Ref)
      requires v in graph && v in color && color[v].White?
      modifies `color, `gray
      ensures S() == BarrierF(old(S()), o, v)
    {
      if phase == Propagate { ReallyMarkObject(v); } else { color := color[o := White(currentWhite)]; }
    }

    method BarrierBackward(o: Ref)
      modifies `color, `grayagain
      ensures S() == BarrierBack(old(S()), o)
    {
      color := color[o := Gray];
      grayagain := [o] + grayagain;
    }

    /** A store by the mutator, followed by the barrier the object's kind takes. */
    method StoreInto(o: Ref, i: nat, v: Option<Ref>)
      requires HasSlot(S(), o, i) && o in color && (v.Some? && v.value in color ==> v.value in graph)
      modifies `graph, `color, `gray, `grayagain
      ensures S() == Store(old(S()), o, i, v)
      ensures Wrote(old(graph), graph, o, i, v) && graph.Keys == old(graph).Keys
    {
      hide BarrierBack, BarrierF, Wrote;
      StoreWrites(S(), o, i, v);
      graph := graph[o := graph[o].(slots := graph[o].slots[i := v])];
      if graph[o].kind != Thread && v.Some? && v.value in color && color[v.value].White? && color[o] == Black {
        if graph[o].kind == Table { BarrierBackward(o); } else { BarrierForward(o, v.value); }
      }
    }

    method SetSlot(o: Ref, i: nat, v: Option<Ref>)
      requires Inv(S()) && Enabled(S(), Action.SetSlot(o, i, v))
      modifies `graph, `color, `gray, `grayagain
      ensures S() == Store(old(S()), o, i, v) && Inv(S())
      ensures Wrote(old(graph), graph, o, i, v) && graph.Keys == old(graph).Keys
    {
      hide Inv, Enabled, Safe, Store, Wrote;
      ActionSafe(S(), Action.SetSlot(o, i, v));
      StoredIsKnown(S(), o, i, v);
      StoreInto(o, i, v);
    }

    static lemma StoredIsKnown(s: State, o: Ref, i: nat, v: Option<Ref>)
      requires Inv(s) && Enabled(s, Action.SetSlot(o, i, v))
      ensures o in s.graph && i < |s.graph[o].slots| && o in s.color && (v.Some? ==> v.value in s.graph)
    {
      ReachableIsLive(s, o);
      ReachAllLive(s, [v]);
      if v.Some? { assert Some(v.value) in [v]; }
    }

    /** `luaC_link`. */
    method LinkObject(o: Ref, kind: Kind, slots: seq<Option<Ref>>)
      modifies this
      ensures S() == Link(old(S()), o, kind, slots) && o in graph
    {
      graph := graph[o := Object(kind, slots, Closed, 0)];
      if kind == Thread { openupval := openupval[o := []]; }
      rootgc := [o] + rootgc;
      if sweepgc > 0 { sweepgc := sweepgc + 1; }
      color := color[o := White(currentWhite)];
    }

    /** Userdata are linked right after the main thread. */
    method LinkUserdataObject(o: Ref, slots: seq<Option<Ref>>)
      modifies this
      ensures S() == LinkUserdata(old(S()), o, slots) && o in graph
    {
      var k := PositionAfter(rootgc, main);
      graph, color := graph[o := Object(Userdata, slots, Closed, 0)], color[o := White(currentWhite)];
      rootgc := rootgc[..k] + [o] + rootgc[k..];
      if sweepgc > k { sweepgc := sweepgc + 1; }
    }

    method LinkStringObject(o: Ref, hash: nat)
      requires |strt| > 0
      modifies this
      ensures S() == LinkString(old(S()), o, hash) && o in graph
    {
      var b := hash % |strt|;
      graph, color := graph[o := Object(String, [], Closed, hash)], color[o := White(currentWhite)];
      strt := strt[b := [o] + strt[b]];
    }

    method LinkUpvalue(uv: Ref, level: nat, pos: nat)
      requires running in openupval && pos <= |openupval[running]|
      modifies this
      ensures S() == LinkOpenUpval(old(S()), uv, old(running), level, pos) && uv in graph
    {
      var l := openupval[running];
      graph := graph[uv := Object(Upvalue, [], Open(running, level), 0)];
      color := color[uv := White(currentWhite)];
      openupval := openupval[running := l[..pos] + [uv] + l[pos..]];
      uvhead := [uv] + uvhead;
    }

    /** `changewhite` of a string or an open upvalue that is found dead. */
    method ReviveIfDead(o: Ref)
      modifies `color
      ensures S() == Revive(old(S()), o)
    {
      if Dead(S(), o) { color := color[o := White(currentWhite)]; }
    }

    method AnchorAt(i: nat, o: Ref)
      requires o in color ==> o in graph
      modifies `graph, `color, `gray, `grayagain
      ensures S() == Anchor(old(S()), i, o)
    {
      hide Store;
      if HasSlot(S(), running, i) && running in color { StoreInto(running, i, Some(o)); }
    }

    method SetThroughUpvalue(o: Ref, v: Option<Ref>)
      requires IsOpen(graph, o) && (v.Some? && v.value in color ==> v.value in graph)
      modifies `graph, `color, `gray, `grayagain
      ensures S() == StoreUpvalue(old(S()), o, v)
    {
      hide Store;
      var t, i := graph[o].loc.thread, graph[o].loc.level;
      if HasSlot(S(), t, i) && t in color { StoreInto(t, i, v); }
    }

    /** Any step of the collector or the mutator, in place: nothing that could be reached is
        freed, and the invariant is kept. */
    method Perform(a: Action)
      requires Inv(S()) && Enabled(S(), a)
      modifies this
      ensures S() == Next(old(S()), a) && Inv(S()) && Effect(old(S()), a, S())
      ensures forall o :: old(CanReach(S(), o)) ==> o in graph
    {
      hide Effect;
      ActionEffect(S(), a);
      ActionSafe(S(), a);
      ActionIsKnown(S(), a);
      if a.CollectorStep? {
        hide Enabled, Inv;
        StepIsReady(S());
        Step();
      } else if a.FullCollection? {
        hide Enabled, Inv;
        FullCollection();
      } else {
        hide Inv, CanReachAll, CanReach;
        MutatorAction(a);
      }
    }

    method MutatorAction(a: Action)
      requires Inv(S()) && Enabled(S(), a) && !a.CollectorStep? && !a.FullCollection?
      requires color.Keys == graph.Keys && |strt| > 0
      modifies this
      ensures S() == Next(old(S()), a)
    {
      hide Inv, CanReachAll, CanReach, Link, LinkUserdata, LinkString, LinkOpenUpval, Revive, Anchor, Store,
        CloseUpval;
      ActionIsKnown(S(), a);
      if Anchors(a) {
        Allocation(a);
      } else {
        match a {
          case CloseUpvalue(o) => CloseOne(o);
          case SetSlot(o, i, v) => StoreInto(o, i, v);
          case SetOpenUpvalue(o, v) => SetThroughUpvalue(o, v);
          case SetBasicMetatable(k, v) => mt := mt[k := v];
          case Resume(t) => running := t;
          case FixString(o) => fixed := fixed + {o};
        }
      }
    }

    /** Actions that make or find an object and store it in the running thread. */
    static predicate Anchors(a: Action) {
      a.NewObject? || a.NewUserdata? || a.NewString? || a.FindString? || a.NewUpvalue? || a.FindUpvalue?
    }

    method Allocation(a: Action)
      requires Inv(S()) && Enabled(S(), a)
      requires Anchors(a)
      requires color.Keys == graph.Keys && |strt| > 0
      modifies this
      ensures S() == Next(old(S()), a)
    {
      hide Inv, CanReachAll, CanReach, Link, LinkUserdata, LinkString, LinkOpenUpval, Revive, Anchor;
      match a {
        case NewObject(o, kind, slots, anchor) =>
          LinkObject(o, kind, slots);
          AnchorAt(anchor, o);
        case NewUserdata(o, slots, anchor) =>
          LinkUserdataObject(o, slots);
          AnchorAt(anchor, o);
        case NewString(o, hash, anchor) =>
          LinkStringObject(o, hash);
          AnchorAt(anchor, o);
        case FindString(o, anchor) =>
          ReviveIfDead(o);
          AnchorAt(anchor, o);
        case NewUpvalue(o, level, pos, anchor) =>
          LinkUpvalue(o, level, pos);
          AnchorAt(anchor, o);
        case FindUpvalue(o, anchor) =>
          ReviveIfDead(o);
          AnchorAt(anchor, o);
      }
    }

    static lemma ActionIsKnown(s: State, a: Action)
      requires Inv(s)
      ensures s.color.Keys == s.graph.Keys && |s.strt| > 0
    {
    }
  }
}
