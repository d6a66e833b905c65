/** Every interleaving of collector steps with a mutator that uses only what it can
    reach: the invariant holds throughout and nothing reachable is ever freed. */
module CollectorSafety {
  import opened Common
  import opened ObjectGraph
  import opened Marking
  import opened CollectorState
  import opened CollectorInvariant
  import opened CollectorMutator
  import opened CollectorLinking
  import opened CollectorClosing
  import opened CollectorRuns

  /** The mutator keeps what it gets in a slot `anchor` of the running thread. */
  datatype Action =
    | CollectorStep
    | FullCollection
    | NewObject(o: Ref, kind: Kind, slots: seq<Option<Ref>>, anchor: nat)
    | NewUserdata(o: Ref, slots: seq<Option<Ref>>, anchor: nat)
    | NewString(o: Ref, hash: nat, anchor: nat)
    | FindString(o: Ref, anchor: nat)
    | NewUpvalue(o: Ref, level: nat, pos: nat, anchor: nat)
    | FindUpvalue(o: Ref, anchor: nat)
    | CloseUpvalue(o: Ref)
    | SetSlot(o: Ref, i: nat, v: Option<Ref>)
    | SetOpenUpvalue(o: Ref, v: Option<Ref>)
    | SetBasicMetatable(k: nat, v: Option<Ref>)
    | Resume(t: Ref)
    | FixString(o: Ref)

  ghost predicate CanReach(s: State, o: Ref) {
    Reachable(s.graph, s.Roots(), o)
  }

  ghost predicate CanReachAll(s: State, vs: seq<Option<Ref>>) {
    forall v :: Some(v) in vs ==> CanReach(s, v)
  }

  predicate HasSlot(s: State, o: Ref, i: nat) {
    o in s.graph && i < |s.graph[o].slots|
  }

  /** What the mutator may do: use reachable objects, strings it can name by content,
      and open upvalues of the running thread. */
  ghost predicate Enabled(s: State, a: Action) {
    match a
    case CollectorStep => true
    case FullCollection => true
    case NewObject(o, kind, slots, anchor) =>
      o !in s.graph && kind !in {String, Userdata} && CanReachAll(s, slots) && HasSlot(s, s.running, anchor)
    case NewUserdata(o, slots, anchor) => o !in s.graph && CanReachAll(s, slots) && HasSlot(s, s.running, anchor)
    case NewString(o, hash, anchor) => o !in s.graph && HasSlot(s, s.running, anchor)
    case FindString(o, anchor) => o in s.graph && s.graph[o].kind == String && HasSlot(s, s.running, anchor)
    case NewUpvalue(o, level, pos, anchor) =>
      && o !in s.graph && HasSlot(s, s.running, level) && HasSlot(s, s.running, anchor)
      && s.running in s.openupval && pos <= |s.openupval[s.running]|
    case FindUpvalue(o, anchor) =>
      o in s.graph && IsOpen(s.graph, o) && s.graph[o].loc.thread == s.running && HasSlot(s, s.running, anchor)
    case CloseUpvalue(o) => IsOpen(s.graph, o)
    case SetSlot(o, i, v) => CanReach(s, o) && HasSlot(s, o, i) && CanReachAll(s, [v])
    case SetOpenUpvalue(o, v) => CanReach(s, o) && IsOpen(s.graph, o) && CanReachAll(s, [v])
    case SetBasicMetatable(k, v) => k < |s.mt| && CanReachAll(s, [v])
    case Resume(t) => CanReach(s, t) && IsThread(s, t)
    case FixString(o) => CanReach(s, o) && o in s.graph && s.graph[o].kind == String
  }

  /** The running thread's stack takes a value; threads need no barrier. */
  function Anchor(s: State, i: nat, o: Ref): State {
    if HasSlot(s, s.running, i) && s.running in s.color then Store(s, s.running, i, Some(o)) else s
  }

  /** A store through an open upvalue goes to the stack it points into. */
  function StoreUpvalue(s: State, o: Ref, v: Option<Ref>): State
    requires IsOpen(s.graph, o)
  {
    var t, i := s.graph[o].loc.thread, s.graph[o].loc.level;
    if HasSlot(s, t, i) && t in s.color then Store(s, t, i, v) else s
  }

  ghost function Next(s: State, a: Action): State
    requires Inv(s) && Enabled(s, a)
  {
    match a
    case CollectorStep => SingleStep(s)
    case FullCollection => FullGc(s)
    case NewObject(o, kind, slots, anchor) => Anchor(Link(s, o, kind, slots), anchor, o)
    case NewUserdata(o, slots, anchor) => Anchor(LinkUserdata(s, o, slots), anchor, o)
    case NewString(o, hash, anchor) => Anchor(LinkString(s, o, hash), anchor, o)
    case FindString(o, anchor) => Anchor(Revive(s, o), anchor, o)
    case NewUpvalue(o, level, pos, anchor) => Anchor(LinkOpenUpval(s, o, s.running, level, pos), anchor, o)
    case FindUpvalue(o, anchor) => Anchor(Revive(s, o), anchor, o)
    case CloseUpvalue(o) => CloseUpval(s, o)
    case SetSlot(o, i, v) => Store(s, o, i, v)
    case SetOpenUpvalue(o, v) => StoreUpvalue(s, o, v)
    case SetBasicMetatable(k, v) => s.(mt := s.mt[k := v])
    case Resume(t) => s.(running := t)
    case FixString(o) => s.(fixed := s.fixed + {o})
  }

  /** A step keeps the invariant and every live object. */
  ghost predicate Safe(s: State, s': State) {
    Inv(s') && forall o :: Live(s, o) ==> o in s'.graph
  }

  lemma ReachAllLive(s: State, vs: seq<Option<Ref>>)
    requires Inv(s) && CanReachAll(s, vs)
    ensures forall v :: Some(v) in vs ==> Live(s, v)
  {
    forall v: Ref | Some(v) in vs ensures Live(s, v) { ReachableIsLive(s, v); }
  }

  lemma RunningIsLive(s: State)
    requires Inv(s)
    ensures Live(s, s.running) && |s.strt| > 0
  {
    assert s.running in s.Roots();
  }

  lemma AnchorSafe(s: State, i: nat, o: Ref)
    requires Inv(s) && HasSlot(s, s.running, i) && s.running in s.color && Live(s, o)
    ensures Inv(Anchor(s, i, o)) && Anchor(s, i, o).graph.Keys == s.graph.Keys
  {
    StoreInv(s, s.running, i, Some(o));
    StoreKeys(s, s.running, i, Some(o));
  }

  lemma StoreKeys(s: State, o: Ref, i: nat, v: Option<Ref>)
    requires HasSlot(s, o, i) && o in s.color
    ensures Store(s, o, i, v).graph.Keys == s.graph.Keys
  {
  }

  lemma NewSafe(s: State, a: Action)
    requires Inv(s) && Enabled(s, a)
    requires a.NewObject? || a.NewUserdata? || a.NewString?
    ensures Safe(s, Next(s, a))
  {
    hide Inv, CanReachAll, Anchor, Link, LinkUserdata, LinkString;
    if a.NewObject? {
      NewObjectSafe(s, a.o, a.kind, a.slots, a.anchor);
    } else if a.NewUserdata? {
      NewUserdataSafe(s, a.o, a.slots, a.anchor);
    } else {
      NewStringSafe(s, a.o, a.hash, a.anchor);
    }
  }

  /** `s'` has all objects of `s` and a new one, and the same running thread. */
  ghost predicate Extended(s: State, s': State, o: Ref) {
    s.graph.Keys <= s'.graph.Keys && s'.running == s.running && Live(s', o)
  }

  lemma ExtendedSafe(s: State, s': State, o: Ref, i: nat)
    requires Inv(s') && Extended(s, s', o)
    ensures Safe(s, Anchor(s', i, o))
  {
    hide Inv;
    if HasSlot(s', s'.running, i) && s'.running in s'.color { AnchorSafe(s', i, o); }
  }

  lemma NewObjectSafe(s: State, o: Ref, kind: Kind, slots: seq<Option<Ref>>, anchor: nat)
    requires Inv(s) && o !in s.graph && kind != String && CanReachAll(s, slots)
    ensures Safe(s, Anchor(Link(s, o, kind, slots), anchor, o))
  {
    hide Inv, CanReachAll;
    ReachAllLive(s, slots);
    LinkInv(s, o, kind, slots);
    assert Extended(s, Link(s, o, kind, slots), o);
    ExtendedSafe(s, Link(s, o, kind, slots), o, anchor);
  }

  lemma NewUserdataSafe(s: State, o: Ref, slots: seq<Option<Ref>>, anchor: nat)
    requires Inv(s) && o !in s.graph && CanReachAll(s, slots)
    ensures Safe(s, Anchor(LinkUserdata(s, o, slots), anchor, o))
  {
    hide Inv, CanReachAll;
    ReachAllLive(s, slots);
    LinkUserdataInv(s, o, slots);
    assert Extended(s, LinkUserdata(s, o, slots), o);
    ExtendedSafe(s, LinkUserdata(s, o, slots), o, anchor);
  }

  lemma NewStringSafe(s: State, o: Ref, hash: nat, anchor: nat)
    requires Inv(s) && o !in s.graph
    ensures |s.strt| > 0 && Safe(s, Anchor(LinkString(s, o, hash), anchor, o))
  {
    RunningIsLive(s);
    hide Inv;
    LinkStringInv(s, o, hash);
    assert Extended(s, LinkString(s, o, hash), o);
    ExtendedSafe(s, LinkString(s, o, hash), o, anchor);
  }

  lemma UpvalueSafe(s: State, a: Action)
    requires Inv(s) && Enabled(s, a)
    requires a.FindString? || a.NewUpvalue? || a.FindUpvalue?
    ensures Safe(s, Next(s, a))
  {
    RunningIsLive(s);
    hide Inv, Anchor;
    if a.NewUpvalue? {
      RunningIsThread(s);
      var s' := LinkOpenUpval(s, a.o, s.running, a.level, a.pos);
      LinkOpenUpvalInv(s, a.o, s.running, a.level, a.pos);
      assert Extended(s, s', a.o);
      ExtendedSafe(s, s', a.o, a.anchor);
    } else {
      ReviveInv(s, a.o);
      assert Extended(s, Revive(s, a.o), a.o);
      ExtendedSafe(s, Revive(s, a.o), a.o, a.anchor);
    }
  }

  lemma RunningIsThread(s: State)
    requires Inv(s) && s.running in s.openupval
    ensures IsThread(s, s.running)
  {
  }

  lemma CloseSafe(s: State, o: Ref)
    requires Inv(s) && IsOpen(s.graph, o)
    ensures Safe(s, CloseUpval(s, o))
  {
    hide Inv;
    CloseUpvalInv(s, o);
  }

  lemma StoreSafe(s: State, a: Action)
    requires Inv(s) && Enabled(s, a) && (a.SetSlot? || a.SetOpenUpvalue?)
    ensures Safe(s, Next(s, a))
  {
    ReachAllLive(s, [a.v]);
    assert a.v.Some? ==> Live(s, a.v.value) by { if a.v.Some? { assert Some(a.v.value) in [a.v]; } }
    hide Inv;
    var t, i := if a.SetSlot? then a.o else s.graph[a.o].loc.thread, if a.SetSlot? then a.i else s.graph[a.o].loc.level;
    if a.SetSlot? { ReachableIsLive(s, a.o); LiveHasColor(s, a.o); } else { OpenHasSlot(s, a.o); }
    StoreInv(s, t, i, a.v);
    StoreKeys(s, t, i, a.v);
  }

  lemma LiveHasColor(s: State, o: Ref)
    requires Live(s, o)
    ensures o in s.color
  {
  }

  lemma OpenHasSlot(s: State, o: Ref)
    requires Inv(s) && IsOpen(s.graph, o)
    ensures HasSlot(s, s.graph[o].loc.thread, s.graph[o].loc.level) && s.graph[o].loc.thread in s.color
  {
  }

  lemma RootsSafe(s: State, a: Action)
    requires Inv(s) && Enabled(s, a) && (a.SetBasicMetatable? || a.Resume? || a.FixString?)
    ensures Safe(s, Next(s, a))
  {
    hide PhaseOk, LiveOk, Reachable, Shape, CanReach;
    var s' := Next(s, a);
    RootsKnown(s, a);
    RootsShape(s, s');
    RootsLive(s, s');
    RootsPhase(s, s');
  }

  /** New roots were reachable before. */
  lemma RootsKnown(s: State, a: Action)
    requires Inv(s) && Enabled(s, a) && (a.SetBasicMetatable? || a.Resume? || a.FixString?)
    ensures var s' := Next(s, a);
            && s' == s.(mt := s'.mt, running := s'.running, fixed := s'.fixed) && s.fixed <= s'.fixed
            && (forall x :: x in s'.fixed && x !in s.fixed ==> x in s.graph && s.graph[x].kind == String)
            && forall r :: r in s'.Roots() ==> r in s.Roots() || CanReach(s, r)
  {
    hide Reachable, Inv;
    var s' := Next(s, a);
    forall r: Ref | r in s'.Roots() ensures r in s.Roots() || CanReach(s, r) {
      if a.SetBasicMetatable? && Some(r) in s'.mt && Some(r) !in s.mt { assert Some(r) in [a.v]; }
    }
  }

  lemma RootsLive(s: State, s': State)
    requires Inv(s) && s' == s.(mt := s'.mt, running := s'.running, fixed := s'.fixed)
    requires forall r :: r in s'.Roots() ==> r in s.Roots() || CanReach(s, r)
    ensures LiveOk(s')
  {
    hide PhaseOk, Shape, Reachable;
    forall r | r in s'.Roots() ensures Live(s', r) {
      if r in s.Roots() { assert Live(s, r); } else { ReachableIsLive(s, r); }
    }
    assert forall x :: Live(s', x) <==> Live(s, x);
  }

  lemma RootsPhase(s: State, s': State)
    requires PhaseOk(s) && s' == s.(mt := s'.mt, running := s'.running, fixed := s'.fixed)
    ensures PhaseOk(s')
  {
    if s.phase == SweepString || s.phase == Sweep { SweepKept(s, s'); }
    if s.phase == Propagate { assert Lax(s') == Lax(s) && s'.GetMarks() == s.GetMarks(); }
  }

  lemma RootsShape(s: State, s': State)
    requires Shape(s) && s' == s.(mt := s'.mt, running := s'.running, fixed := s'.fixed)
    requires s.fixed <= s'.fixed
    requires forall x :: x in s'.fixed && x !in s.fixed ==> x in s.graph && s.graph[x].kind == String
    ensures Shape(s')
  {
    assert forall x :: InMainChain(s', x) <==> InMainChain(s, x);
    assert forall x, b :: InStringChain(s', x, b) <==> InStringChain(s, x, b);
    assert forall x, t :: InOpenChain(s', x, t) <==> InOpenChain(s, x, t);
  }

  /** One action never frees what the mutator can reach, and keeps the invariant. */
  lemma ActionSafe(s: State, a: Action)
    requires Inv(s) && Enabled(s, a)
    ensures Inv(Next(s, a))
    ensures forall o :: CanReach(s, o) ==> o in Next(s, a).graph
  {
    hide Inv;
    match a {
      case CollectorStep => SingleStepSafe(s);
      case FullCollection => FullGcExact(s);
      case NewObject(_, _, _, _) => NewSafe(s, a);
      case NewUserdata(_, _, _) => NewSafe(s, a);
      case NewString(_, _, _) => NewSafe(s, a);
      case CloseUpvalue(o) => CloseSafe(s, o);
      case SetSlot(_, _, _) => StoreSafe(s, a);
      case SetOpenUpvalue(_, _) => StoreSafe(s, a);
      case SetBasicMetatable(_, _) => RootsSafe(s, a);
      case Resume(_) => RootsSafe(s, a);
      case FixString(_) => RootsSafe(s, a);
      case _ => UpvalueSafe(s, a);
    }
    forall o | CanReach(s, o) ensures o in Next(s, a).graph {
      ReachableIsLive(s, o);
    }
  }

  // -------------------------------------------------------------- whole runs

  /** A new state: the main thread with its global table, and the registry. */
  function InitialState(main: Ref, globals: Ref, registry: Ref, stack: nat, tags: nat, chains: nat): State {
    var graph := map[
      main := Object(Thread, [Some(globals)] + seq(stack, i => None), Closed, 0),
      globals := Object(Table, [], Closed, 0),
      registry := Object(Table, [], Closed, 0)];
    State(graph, map[main := White(false), globals := White(false), registry := White(false)], {main},
          main, registry, seq(tags, i => None), main, Pause, false, [], [],
          seq(chains, i => []), 0, [registry, globals, main], 0, map[main := []], [])
  }

  lemma InitialInv(main: Ref, globals: Ref, registry: Ref, stack: nat, tags: nat, chains: nat)
    requires main != globals && globals != registry && main != registry && chains > 0
    ensures Inv(InitialState(main, globals, registry, stack, tags, chains))
  {
    hide MainChain, StringChains, OpenChains, UvHead, InitialState;
    InitialChains(main, globals, registry, stack, tags, chains);
    InitialLive(main, globals, registry, stack, tags, chains);
    InitialObjects(main, globals, registry, stack, tags, chains);
  }

  lemma InitialObjects(main: Ref, globals: Ref, registry: Ref, stack: nat, tags: nat, chains: nat)
    requires main != globals && globals != registry && main != registry
    ensures var s := InitialState(main, globals, registry, stack, tags, chains);
            && s.color.Keys == s.graph.Keys && Typed(s.graph) && Placed(s.graph) && IsThread(s, s.main)
            && s.fixed == {s.main} && s.phase == Pause && AllWhite(s)
  {
  }

  lemma InitialChains(main: Ref, globals: Ref, registry: Ref, stack: nat, tags: nat, chains: nat)
    requires main != globals && globals != registry && main != registry && chains > 0
    ensures Chains(InitialState(main, globals, registry, stack, tags, chains))
  {
    var s := InitialState(main, globals, registry, stack, tags, chains);
    assert forall x :: x in s.rootgc <==> x == registry || x == globals || x == main;
    assert MainChain(s);
    assert StringChains(s);
    assert OpenChains(s);
    assert UvHead(s);
  }

  lemma InitialLive(main: Ref, globals: Ref, registry: Ref, stack: nat, tags: nat, chains: nat)
    requires main != globals && globals != registry && main != registry
    ensures LiveOk(InitialState(main, globals, registry, stack, tags, chains))
  {
    var s := InitialState(main, globals, registry, stack, tags, chains);
    assert s.graph.Keys == {main, globals, registry} == s.color.Keys;
    forall x: Ref, y: Ref | Live(s, x) && Edge(s.graph, x, y) ensures Live(s, y) {
      assert x == main && Some(y) in s.graph[main].slots;
    }
    assert forall v: Ref :: Some(v) !in s.mt;
  }

  ghost predicate IsRun(states: seq<State>, actions: seq<Action>) {
    && |states| == |actions| + 1
    && Inv(states[0])
    && forall i {:trigger actions[i]} :: 0 <= i < |actions| ==>
         Inv(states[i]) ==> Enabled(states[i], actions[i]) && states[i + 1] == Next(states[i], actions[i])
  }

  lemma {:induction false} RunInv(states: seq<State>, actions: seq<Action>, k: nat)
    requires IsRun(states, actions) && k < |states|
    ensures Inv(states[k])
  {
    hide Inv, Next, Enabled;
    if k > 0 {
      RunInv(states, actions, k - 1);
      var a := actions[k - 1];
      ActionSafe(states[k - 1], a);
    }
  }

  predicate BlackHasEdge(s: State, o: Ref, y: Ref) {
    s.phase == Propagate && o in s.color && s.color[o] == Black && Edge(s.graph, o, y)
  }

  /** Over any run: no object is freed by a step while it is reachable, and whenever
      the mark phase is on, no black object refers to a white one. */
  lemma RunSafe(states: seq<State>, actions: seq<Action>, k: nat, o: Ref, y: Ref)
    requires IsRun(states, actions) && k < |actions|
    ensures CanReach(states[k], o) ==> o in states[k].graph && o in states[k + 1].graph
    ensures BlackHasEdge(states[k], o, y) ==> y in states[k].color && !states[k].color[y].White?
  {
    RunInv(states, actions, k);
    var a := actions[k];
    ActionSafe(states[k], a);
    if CanReach(states[k], o) { ReachableIsLive(states[k], o); }
    if BlackHasEdge(states[k], o, y) {
      NoBlackToWhite(states[k], o, y);
    }
  }
}
