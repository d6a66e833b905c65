/** What the actions do to the objects of the heap: stores store, new objects are what was
    asked for and are anchored, and the collector changes no object that it keeps. */
module CollectorEffects {
  import opened Common
  import opened ObjectGraph
  import opened Marking
  import opened CollectorState
  import opened CollectorInvariant
  import CollectorMarkPhase
  import opened CollectorRuns
  import opened CollectorSafety

  /** Slot `i` of `o` has a new value; everything else of the objects there were is as before. */
  ghost predicate Wrote(g: Graph, g': Graph, o: Ref, i: nat, v: Option<Ref>) {
    && o in g && i < |g[o].slots|
    && (forall x :: x in g ==> x in g' && g'[x].kind == g[x].kind && g'[x].loc == g[x].loc && g'[x].hash == g[x].hash
                               && |g'[x].slots| == |g[x].slots|)
    && (forall x, j :: x in g && 0 <= j < |g[x].slots| && (x != o || j != i) ==> g'[x].slots[j] == g[x].slots[j])
    && g'[o].slots[i] == v
  }

  ghost predicate SameRoots(s: State, s': State) {
    s'.main == s.main && s'.registry == s.registry && s'.mt == s.mt && s'.running == s.running && s'.fixed == s.fixed
  }

  /** A new object with exactly this kind and these slots, put in the running thread. */
  ghost predicate MadeAndPut(s: State, s': State, o: Ref, kind: Kind, slots: seq<Option<Ref>>, i: nat) {
    && s'.graph.Keys == s.graph.Keys + {o} && o !in s.graph
    && s'.graph[o].kind == kind && s'.graph[o].slots == slots
    && Wrote(s.graph, s'.graph, s.running, i, Some(o))
  }

  // ---------------------------------------------------- actions of the mutator

  lemma StoreWrites(s: State, o: Ref, i: nat, v: Option<Ref>)
    requires o in s.graph && o in s.color && i < |s.graph[o].slots|
    ensures var s' := Store(s, o, i, v);
            Wrote(s.graph, s'.graph, o, i, v) && s'.graph.Keys == s.graph.Keys && SameRoots(s, s')
  {
    PutWrites(s, o, i, v);
    hide Wrote, PutSlot;
    StoreGraph(s, o, i, v);
  }

  lemma PutWrites(s: State, o: Ref, i: nat, v: Option<Ref>)
    requires o in s.graph && i < |s.graph[o].slots|
    ensures var s' := PutSlot(s, o, i, v);
            Wrote(s.graph, s'.graph, o, i, v) && s'.graph.Keys == s.graph.Keys && SameRoots(s, s')
  {
  }

  /** Barriers change colours and lists only. */
  lemma StoreGraph(s: State, o: Ref, i: nat, v: Option<Ref>)
    requires o in s.graph && o in s.color && i < |s.graph[o].slots|
    ensures var s', s1 := Store(s, o, i, v), PutSlot(s, o, i, v); s'.graph == s1.graph && SameRoots(s1, s')
  {
    hide MarkObject, PutSlot;
  }

  /** Linking adds one object. */
  ghost predicate Linked(s: State, s1: State, o: Ref, kind: Kind, slots: seq<Option<Ref>>) {
    && o !in s.graph && s1.graph.Keys == s.graph.Keys + {o} && (forall x :: x in s.graph ==> s1.graph[x] == s.graph[x])
    && s1.graph[o].kind == kind && s1.graph[o].slots == slots && SameRoots(s, s1) && s.color.Keys <= s1.color.Keys
  }

  lemma AnchorWrites(s: State, s1: State, o: Ref, kind: Kind, slots: seq<Option<Ref>>, i: nat)
    requires Linked(s, s1, o, kind, slots) && HasSlot(s, s.running, i) && s.running in s.color
    ensures var s' := Anchor(s1, i, o); MadeAndPut(s, s', o, kind, slots, i) && SameRoots(s, s')
  {
    hide Store;
    StoreWrites(s1, s.running, i, Some(o));
  }

  lemma FoundWrites(s: State, o: Ref, i: nat)
    requires HasSlot(s, s.running, i) && s.running in s.color
    ensures var s' := Anchor(Revive(s, o), i, o);
            Wrote(s.graph, s'.graph, s.running, i, Some(o)) && s'.graph.Keys == s.graph.Keys && SameRoots(s, s')
  {
    hide Store;
    StoreWrites(Revive(s, o), s.running, i, Some(o));
  }

  /** What the program sees of an action: the objects and the roots after it. */
  ghost predicate Effect(s: State, a: Action, s': State)
    requires Inv(s) && Enabled(s, a)
  {
    var g, g' := s.graph, s'.graph;
    match a
    case NewObject(o, kind, slots, i) => MadeAndPut(s, s', o, kind, slots, i) && g'[o].loc == Closed && SameRoots(s, s')
    case NewUserdata(o, slots, i) => MadeAndPut(s, s', o, Userdata, slots, i) && g'[o].loc == Closed && SameRoots(s, s')
    case NewString(o, hash, i) =>
      MadeAndPut(s, s', o, String, [], i) && g'[o].loc == Closed && g'[o].hash == hash && SameRoots(s, s')
    case NewUpvalue(o, level, pos, i) =>
      MadeAndPut(s, s', o, Upvalue, [], i) && g'[o].loc == Open(s.running, level) && SameRoots(s, s')
    case FindString(o, i) => Wrote(g, g', s.running, i, Some(o)) && g'.Keys == g.Keys && SameRoots(s, s')
    case FindUpvalue(o, i) => Wrote(g, g', s.running, i, Some(o)) && g'.Keys == g.Keys && SameRoots(s, s')
    case SetSlot(o, i, v) => Wrote(g, g', o, i, v) && g'.Keys == g.Keys && SameRoots(s, s')
    case SetOpenUpvalue(o, v) =>
      Wrote(g, g', g[o].loc.thread, g[o].loc.level, v) && g'.Keys == g.Keys && SameRoots(s, s')
    case CloseUpvalue(o) =>
      && (forall x :: x in g && x != o ==> x in g' && g'[x] == g[x]) && g'.Keys <= g.Keys && SameRoots(s, s')
      && (o in g' <==> !Dead(s, o))
      && (o in g' ==> g'[o].kind == Upvalue && g'[o].loc == Closed
                      && g'[o].slots == [g[g[o].loc.thread].slots[g[o].loc.level]])
    case SetBasicMetatable(k, v) =>
      && g' == g && s'.main == s.main && s'.registry == s.registry && s'.running == s.running && s'.fixed == s.fixed
      && |s'.mt| == |s.mt| && s'.mt[k] == v && forall j :: 0 <= j < |s.mt| && j != k ==> s'.mt[j] == s.mt[j]
    case Resume(t) =>
      && g' == g && s'.main == s.main && s'.registry == s.registry && s'.mt == s.mt && s'.fixed == s.fixed
      && s'.running == t
    case FixString(o) =>
      && g' == g && s'.main == s.main && s'.registry == s.registry && s'.mt == s.mt && s'.running == s.running
      && o in s'.fixed && forall x :: x != o ==> (x in s'.fixed <==> x in s.fixed)
    case _ => SameRoots(s, s') && KeepsObjects(g, g')
  }

  /** Objects may go, and open upvalues be closed; all others are as they were. */
  ghost predicate KeepsObjects(g: Graph, g': Graph) {
    forall x :: x in g' ==> x in g && (g'[x] == g[x] || (g[x].loc.Open? && g'[x].loc.Closed?))
  }

  lemma RunningHasColor(s: State)
    requires Inv(s)
    ensures s.running in s.graph && s.running in s.color && |s.strt| > 0 && s.color.Keys == s.graph.Keys
  {
    RunningIsLive(s);
  }

  lemma NewEffect(s: State, a: Action)
    requires Inv(s) && Enabled(s, a) && (a.NewObject? || a.NewUserdata? || a.NewString? || a.NewUpvalue?)
    ensures Effect(s, a, Next(s, a))
  {
    RunningHasColor(s);
    hide Inv, CanReachAll, Anchor, Link, LinkUserdata, LinkString, LinkOpenUpval, MadeAndPut, SameRoots;
    if a.NewObject? {
      ObjectMade(s, a.o, a.kind, a.slots, a.anchor);
    } else if a.NewUserdata? {
      UserdataMade(s, a.o, a.slots, a.anchor);
    } else if a.NewString? {
      StringMade(s, a.o, a.hash, a.anchor);
    } else {
      UpvalueMade(s, a.o, a.level, a.pos, a.anchor);
    }
  }

  lemma ObjectMade(s: State, o: Ref, kind: Kind, slots: seq<Option<Ref>>, i: nat)
    requires o !in s.graph && HasSlot(s, s.running, i) && s.running in s.color
    ensures var s' := Anchor(Link(s, o, kind, slots), i, o);
            MadeAndPut(s, s', o, kind, slots, i) && o in s'.graph && s'.graph[o].loc == Closed && SameRoots(s, s')
  {
    hide Anchor, Wrote;
    AnchorWrites(s, Link(s, o, kind, slots), o, kind, slots, i);
    AnchorKeepsPlace(Link(s, o, kind, slots), i, o);
  }

  lemma UserdataMade(s: State, o: Ref, slots: seq<Option<Ref>>, i: nat)
    requires o !in s.graph && HasSlot(s, s.running, i) && s.running in s.color
    ensures var s' := Anchor(LinkUserdata(s, o, slots), i, o);
            MadeAndPut(s, s', o, Userdata, slots, i) && o in s'.graph && s'.graph[o].loc == Closed && SameRoots(s, s')
  {
    hide Anchor, Wrote;
    AnchorWrites(s, LinkUserdata(s, o, slots), o, Userdata, slots, i);
    AnchorKeepsPlace(LinkUserdata(s, o, slots), i, o);
  }

  lemma StringMade(s: State, o: Ref, hash: nat, i: nat)
    requires o !in s.graph && HasSlot(s, s.running, i) && s.running in s.color && |s.strt| > 0
    ensures var s' := Anchor(LinkString(s, o, hash), i, o);
            MadeAndPut(s, s', o, String, [], i) && o in s'.graph && s'.graph[o].loc == Closed
            && s'.graph[o].hash == hash && SameRoots(s, s')
  {
    hide Anchor, Wrote;
    AnchorWrites(s, LinkString(s, o, hash), o, String, [], i);
    AnchorKeepsPlace(LinkString(s, o, hash), i, o);
  }

  lemma UpvalueMade(s: State, o: Ref, level: nat, pos: nat, i: nat)
    requires o !in s.graph && HasSlot(s, s.running, i) && s.running in s.color
    requires s.running in s.openupval && pos <= |s.openupval[s.running]|
    ensures var s' := Anchor(LinkOpenUpval(s, o, s.running, level, pos), i, o);
            MadeAndPut(s, s', o, Upvalue, [], i) && o in s'.graph && s'.graph[o].loc == Open(s.running, level)
            && SameRoots(s, s')
  {
    hide Anchor, Wrote;
    AnchorWrites(s, LinkOpenUpval(s, o, s.running, level, pos), o, Upvalue, [], i);
    AnchorKeepsPlace(LinkOpenUpval(s, o, s.running, level, pos), i, o);
  }

  lemma AnchorKeepsPlace(s: State, i: nat, o: Ref)
    ensures forall x :: x in s.graph ==>
              x in Anchor(s, i, o).graph && Anchor(s, i, o).graph[x].loc == s.graph[x].loc
              && Anchor(s, i, o).graph[x].hash == s.graph[x].hash
  {
    hide Store;
    if HasSlot(s, s.running, i) && s.running in s.color { StoreWrites(s, s.running, i, Some(o)); }
  }

  lemma StoreEffect(s: State, a: Action)
    requires Inv(s) && Enabled(s, a) && (a.FindString? || a.FindUpvalue? || a.SetSlot? || a.SetOpenUpvalue?)
    ensures Effect(s, a, Next(s, a))
  {
    RunningHasColor(s);
    if a.SetOpenUpvalue? { OpenHasSlot(s, a.o); }
    hide Inv, CanReach, CanReachAll, Anchor, Store, Revive;
    match a
    case FindString(o, i) => FoundWrites(s, o, i);
    case FindUpvalue(o, i) => FoundWrites(s, o, i);
    case SetSlot(o, i, v) => StoreWrites(s, o, i, v);
    case SetOpenUpvalue(o, v) => StoreWrites(s, s.graph[o].loc.thread, s.graph[o].loc.level, v);
  }

  lemma CloseEffect(s: State, a: Action)
    requires Inv(s) && Enabled(s, a) && a.CloseUpvalue?
    ensures Effect(s, a, Next(s, a))
  {
    OpenHasSlot(s, a.o);
    RunningHasColor(s);
    OpenIsUpvalue(s, a.o);
    hide Inv, CloseUpval, SameRoots;
    ClosedOne(s, a.o);
  }

  lemma ClosedOne(s: State, o: Ref)
    requires IsOpen(s.graph, o) && HasSlot(s, s.graph[o].loc.thread, s.graph[o].loc.level)
    ensures var g, s' := s.graph, CloseUpval(s, o);
            && (forall x :: x in g && x != o ==> x in s'.graph && s'.graph[x] == g[x]) && s'.graph.Keys <= g.Keys
            && SameRoots(s, s') && (o in s'.graph <==> !Dead(s, o))
            && (o in s'.graph ==> s'.graph[o].kind == g[o].kind && s'.graph[o].loc == Closed
                                  && s'.graph[o].slots == [g[g[o].loc.thread].slots[g[o].loc.level]])
  {
    ClosedGraph(s, o);
    hide CloseUpval, SameRoots;
  }

  lemma ClosedGraph(s: State, o: Ref)
    requires IsOpen(s.graph, o)
    ensures CloseUpval(s, o).graph == (if Dead(s, o) then s.graph - {o}
                                       else s.graph[o := s.graph[o].(slots := Kids(s.graph, o), loc := Closed)])
    ensures SameRoots(s, CloseUpval(s, o))
  {
    hide MarkValues, Without, Kids;
  }

  lemma OpenIsUpvalue(s: State, o: Ref)
    requires Inv(s) && IsOpen(s.graph, o)
    ensures s.graph[o].kind == Upvalue
  {
  }

  lemma RootEffect(s: State, a: Action)
    requires Inv(s) && Enabled(s, a) && (a.SetBasicMetatable? || a.Resume? || a.FixString?)
    ensures Effect(s, a, Next(s, a))
  {
    hide Inv, CanReach, CanReachAll;
  }

  // ------------------------------------------------------- what collection keeps

  lemma {:induction false} ChainKeeps(s: State, chain: seq<Ref>)
    ensures var s' := SweepChain(s, chain).0; KeepsObjects(s.graph, s'.graph) && SameRoots(s, s')
    decreases |chain|
  {
    if chain != [] {
      if Kept(s, chain[0]) { ChainKeeps(Whiten(s, chain[0]), chain[1..]);
                            } else { ChainKeeps(Erase(s, chain[0]), chain[1..]); }
    }
  }

  lemma CloseKeeps(s: State, uv: Ref)
    requires IsOpen(s.graph, uv)
    ensures KeepsObjects(s.graph, CloseUpval(s, uv).graph) && SameRoots(s, CloseUpval(s, uv))
  {
    ClosedGraph(s, uv);
    hide CloseUpval, SameRoots, Kids;
  }

  lemma {:induction false} CloseAllKeeps(s: State, uvs: seq<Ref>)
    ensures KeepsObjects(s.graph, CloseAll(s, uvs).graph) && SameRoots(s, CloseAll(s, uvs))
    decreases |uvs|
  {
    hide CloseUpval;
    if uvs != [] {
      if IsOpen(s.graph, uvs[0]) { CloseKeeps(s, uvs[0]); }
      CloseAllKeeps(if IsOpen(s.graph, uvs[0]) then CloseUpval(s, uvs[0]) else s, uvs[1..]);
    }
  }

  lemma RootKeeps(s: State)
    requires s.sweepgc < |s.rootgc|
    ensures KeepsObjects(s.graph, SweepRoot(s).graph) && SameRoots(s, SweepRoot(s))
  {
    hide SweepChain, CloseAll;
    var x := s.rootgc[s.sweepgc];
    var s1 := SweepOpen(s, x);
    if x in s.openupval { ChainKeeps(s, s.openupval[x]); }
    if x in s1.openupval { CloseAllKeeps(s1, s1.openupval[x]); }
  }

  lemma {:induction false} ListKeeps(s: State, count: nat)
    ensures KeepsObjects(s.graph, SweepList(s, count).graph) && SameRoots(s, SweepList(s, count))
    decreases count
  {
    hide SweepRoot;
    if count > 0 && s.sweepgc < |s.rootgc| {
      RootKeeps(s);
      ListKeeps(SweepRoot(s), count - 1);
    }
  }

  lemma StepKeeps(s: State)
    requires s.phase == SweepString ==> s.sweepstr < |s.strt|
    ensures KeepsObjects(s.graph, SingleStep(s).graph) && SameRoots(s, SingleStep(s))
  {
    hide SweepChain, SweepList, PropagateMark, BasicMarks, AtomicMarks;
    if s.phase == SweepString { ChainKeeps(s, s.strt[s.sweepstr]); }
    if s.phase == Sweep { ListKeeps(s, SWEEP_MAX); }
  }

  lemma KeptAgain(s: State, s1: State, s2: State)
    requires KeepsObjects(s.graph, s1.graph) && SameRoots(s, s1) && KeepsObjects(s1.graph, s2.graph)
             && SameRoots(s1, s2)
    ensures KeepsObjects(s.graph, s2.graph) && SameRoots(s, s2)
  {
  }

  lemma KeptItself(s: State)
    ensures KeepsObjects(s.graph, s.graph) && SameRoots(s, s)
  {
  }

  lemma {:induction false} UntilKeeps(s: State, stop: Phase)
    requires Inv(s) && (stop == Pause || (stop == Finalize && s.phase != Pause))
    ensures KeepsObjects(s.graph, RunUntil(s, stop).graph) && SameRoots(s, RunUntil(s, stop))
    decreases PhaseRank(s), Unmarked(s), Remaining(s)
  {
    hide Inv, SingleStep, Remaining, Unmarked, KeepsObjects, SameRoots;
    if s.phase != stop {
      SingleStepSafe(s);
      SingleStepCloser(s);
      StepReady(s);
      StepKeeps(s);
      if stop == Finalize { StepsBeforePause(s); }
      UntilKeeps(SingleStep(s), stop);
      KeptAgain(s, SingleStep(s), RunUntil(s, stop));
    } else {
      KeptItself(s);
    }
  }

  lemma StepReady(s: State)
    requires Inv(s)
    ensures s.phase == SweepString ==> s.sweepstr < |s.strt|
  {
  }

  lemma FullKeeps(s: State)
    requires Inv(s)
    ensures KeepsObjects(s.graph, FullGc(s).graph) && SameRoots(s, FullGc(s))
  {
    hide Inv, RunUntil, BasicMarks;
    ResetInv(s);
    UntilKeeps(ResetForFull(s), Finalize);
    var s1 := RunUntil(ResetForFull(s), Finalize);
    CollectorMarkPhase.MarkRootInv(s1);
    UntilKeeps(MarkRoot(s1), Pause);
    KeptAgain(s, s1, RunUntil(MarkRoot(s1), Pause));
  }

  /** Every action does to the objects and roots what it is for, and no more. */
  lemma ActionEffect(s: State, a: Action)
    requires Inv(s) && Enabled(s, a)
    ensures Effect(s, a, Next(s, a))
  {
    hide Inv, Enabled, Effect;
    if a.CollectorStep? || a.FullCollection? {
      CollectorEffect(s, a);
    } else if a.NewObject? || a.NewUserdata? || a.NewString? || a.NewUpvalue? {
      NewEffect(s, a);
    } else if a.CloseUpvalue? {
      CloseEffect(s, a);
    } else if a.SetBasicMetatable? || a.Resume? || a.FixString? {
      RootEffect(s, a);
    } else {
      StoreEffect(s, a);
    }
  }

  lemma CollectorEffect(s: State, a: Action)
    requires Inv(s) && Enabled(s, a) && (a.CollectorStep? || a.FullCollection?)
    ensures Effect(s, a, Next(s, a))
  {
    StepReady(s);
    hide Inv, SingleStep, FullGc;
    if a.CollectorStep? { StepKeeps(s); } else { FullKeeps(s); }
  }

  // ------------------------------------------------------ what stays reachable

  /** A new or found object can be reached: the running thread has it. */
  lemma AnchoredIsReachable(s: State, a: Action, o: Ref, i: nat)
    requires Inv(s) && Enabled(s, a) && PutsInRunning(a, o, i)
    ensures CanReach(Next(s, a), o)
  {
    ActionEffect(s, a);
    ActionSafe(s, a);
    var s' := Next(s, a);
    RunningHasColor(s');
    assert s'.running == s.running && HasSlot(s', s'.running, i) && s'.graph[s'.running].slots[i] == Some(o) by {
      hide Inv, CanReachAll, SameRoots, Next;
      SlotWritten(s, a, s', s.running, i, Some(o));
    }
    hide Next, Enabled, Effect;
    ClosedHasSlots(s', s'.running, i);
    RootIsReachable(s'.graph, s'.Roots(), s'.running);
    ReachableStep(s'.graph, s'.Roots(), s'.running, o);
  }

  /** Actions that put an object in the running thread. */
  predicate Puts(a: Action) {
    a.NewObject? || a.NewUserdata? || a.NewString? || a.NewUpvalue? || a.FindString? || a.FindUpvalue?
  }

  predicate PutsInRunning(a: Action, o: Ref, i: nat) {
    Puts(a) && a.o == o && a.anchor == i
  }

  /** Objects with slots are not open upvalues, so those slots are what they refer to. */
  lemma ClosedHasSlots(s: State, o: Ref, i: nat)
    requires Inv(s) && HasSlot(s, o, i)
    ensures s.graph[o].loc == Closed && Kids(s.graph, o) == s.graph[o].slots && s.graph[o].slots[i] in Kids(s.graph, o)
  {
    hide Chains, LiveOk, PhaseOk, Placed;
  }

  /** The action puts `v` in slot `i` of `o`. */
  predicate Writes(s: State, a: Action, o: Ref, i: nat, v: Option<Ref>) {
    || (a.SetSlot? && a.o == o && a.i == i && a.v == v)
    || (a.SetOpenUpvalue? && a.o in s.graph && s.graph[a.o].loc == Open(o, i) && a.v == v)
    || (v.Some? && s.running == o && PutsInRunning(a, v.value, i))
  }

  lemma SlotWritten(s: State, a: Action, s': State, o: Ref, i: nat, v: Option<Ref>)
    requires Inv(s) && Enabled(s, a) && Effect(s, a, s') && Writes(s, a, o, i, v)
    ensures HasSlot(s', o, i) && s'.graph[o].slots[i] == v && s'.running == s.running
  {
    hide Inv, CanReach, CanReachAll;
  }

  /** No other action changes a slot. */
  lemma SlotKept(s: State, a: Action, s': State, o: Ref, i: nat)
    requires Inv(s) && Enabled(s, a) && Effect(s, a, s') && HasSlot(s, o, i) && o in s'.graph
    requires forall v :: !Writes(s, a, o, i, v)
    ensures HasSlot(s', o, i) && s'.graph[o].slots[i] == s.graph[o].slots[i]
  {
    hide Inv, Enabled, Effect, Wrote;
    ClosedHasSlots(s, o, i);
    WroteBy(s, a, s');
    if a.SetSlot? {
      assert !Writes(s, a, o, i, a.v);
      WroteOther(s.graph, s'.graph, a.o, a.i, a.v, o, i);
    } else if a.SetOpenUpvalue? {
      assert !Writes(s, a, o, i, a.v);
      WroteOther(s.graph, s'.graph, s.graph[a.o].loc.thread, s.graph[a.o].loc.level, a.v, o, i);
    } else if Puts(a) {
      assert !Writes(s, a, o, i, Some(a.o));
      WroteOther(s.graph, s'.graph, s.running, a.anchor, Some(a.o), o, i);
    }
  }

  /** The writing actions write one slot; the others leave objects as they are. */
  lemma WroteBy(s: State, a: Action, s': State)
    requires Inv(s) && Enabled(s, a) && Effect(s, a, s')
    ensures Puts(a) ==> Wrote(s.graph, s'.graph, s.running, a.anchor, Some(a.o))
    ensures a.SetSlot? ==> Wrote(s.graph, s'.graph, a.o, a.i, a.v)
    ensures a.SetOpenUpvalue? ==> IsOpen(s.graph, a.o) &&
                                  Wrote(s.graph, s'.graph, s.graph[a.o].loc.thread, s.graph[a.o].loc.level, a.v)
    ensures !Puts(a) && !a.SetSlot? && !a.SetOpenUpvalue? ==>
              forall o :: o in s.graph && s.graph[o].loc == Closed && o in s'.graph ==> s'.graph[o] == s.graph[o]
  {
    hide Inv, Wrote, CanReach, CanReachAll, SameRoots;
  }

  lemma WroteOther(g: Graph, g': Graph, x: Ref, n: nat, v: Option<Ref>, o: Ref, i: nat)
    requires Wrote(g, g', x, n, v) && o in g && i < |g[o].slots| && (x != o || n != i)
    ensures o in g' && i < |g'[o].slots| && g'[o].slots[i] == g[o].slots[i]
  {
  }

  /** Over any run: what was last put in a slot of an object is still there as long as the
      object stays reachable, and then it is in the heap itself. */
  lemma {:induction false} LastStored(states: seq<State>, actions: seq<Action>, k: nat, j: nat, o: Ref, i: nat,
      v: Option<Ref>)
    requires IsRun(states, actions) && k < j < |states| && Writes(states[k], actions[k], o, i, v)
    requires forall t :: k < t < j ==> CanReach(states[t], o) && forall x :: !Writes(states[t], actions[t], o, i, x)
    ensures HasSlot(states[j], o, i) && states[j].graph[o].slots[i] == v
    ensures v.Some? && CanReach(states[j], o) ==> CanReach(states[j], v.value) && v.value in states[j].graph
    decreases j
  {
    hide Inv, Next, Enabled, Effect, CanReach, Writes;
    RunInv(states, actions, j - 1);
    RunInv(states, actions, j);
    var a := actions[j - 1];
    ActionEffect(states[j - 1], a);
    if j == k + 1 {
      SlotWritten(states[k], a, states[j], o, i, v);
    } else {
      LastStored(states, actions, k, j - 1, o, i, v);
      ActionSafe(states[j - 1], a);
      SlotKept(states[j - 1], a, states[j], o, i);
    }
    if v.Some? && CanReach(states[j], o) { ReferredIsReachable(states[j], o, i); }
  }

  lemma ReferredIsReachable(s: State, o: Ref, i: nat)
    requires Inv(s) && CanReach(s, o) && HasSlot(s, o, i) && s.graph[o].slots[i].Some?
    ensures CanReach(s, s.graph[o].slots[i].value) && s.graph[o].slots[i].value in s.graph
  {
    ClosedHasSlots(s, o, i);
    hide Inv;
    ReachableStep(s.graph, s.Roots(), o, s.graph[o].slots[i].value);
    ReachableIsLive(s, s.graph[o].slots[i].value);
  }
}
