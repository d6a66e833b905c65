/** The collector's global state and its steps as functions: marking the roots,
    the atomic phase, the sweeps, the write barriers, and linking new objects. */
module CollectorState {
  import opened Common
  import opened ObjectGraph
  import opened Marking

  datatype Phase = Pause | Propagate | SweepString | Sweep | Finalize

  /** Objects swept by one step of the sweep phase. */
  const SWEEP_MAX: nat := 40

  /** `rootgc` is the chain of all objects except strings and open upvalues and
      `sweepgc` says how many of its links the sweep has passed; `strt` holds the
      string chains; `openupval` the chain of open upvalues of each thread, and
      `uvhead` all open upvalues. */
  datatype State = State(
    graph: Graph,
    color: map<Ref, Color>,
    fixed: set<Ref>,
    main: Ref,
    registry: Ref,
    mt: seq<Option<Ref>>,
    running: Ref,
    phase: Phase,
    white: bool,
    gray: seq<Ref>,
    grayagain: seq<Ref>,
    strt: seq<seq<Ref>>,
    sweepstr: nat,
    rootgc: seq<Ref>,
    sweepgc: nat,
    openupval: map<Ref, seq<Ref>>,
    uvhead: seq<Ref>
  ) {
    function GetMarks(): Marks { Marks(color, gray, grayagain) }

    function WithMarks(m: Marks): State {
      this.(color := m.color, gray := m.gray, grayagain := m.grayagain)
    }

    function Roots(): set<Ref> { RootSet(main, registry, running, mt) }
  }

  function RootSet(main: Ref, registry: Ref, running: Ref, mt: seq<Option<Ref>>): (r: set<Ref>)
    ensures forall v :: v in r <==> v == main || v == registry || v == running || Some(v) in mt
  {
    {main, registry, running} + set k | 0 <= k < |mt| && mt[k].Some? :: mt[k].value
  }

  predicate Dead(s: State, x: Ref) {
    x in s.color && s.color[x] == White(!s.white)
  }

  predicate Live(s: State, x: Ref) {
    x in s.graph && x in s.color && s.color[x] != White(!s.white)
  }

  // ---------------------------------------------------------------- marking

  function GlobalTable(s: State): seq<Option<Ref>> {
    if s.main in s.graph && s.graph[s.main].slots != [] then [s.graph[s.main].slots[0]] else []
  }

  /** The main thread, its globals, the registry and the basic metatables. */
  function BasicMarks(g: Graph, m0: Marks, main: Ref, globals: seq<Option<Ref>>, registry: Ref,
      mt: seq<Option<Ref>>): Marks
  {
    var m1 := MarkObject(g, m0, main);
    var m2 := MarkValues(g, m1, globals);
    var m3 := MarkObject(g, m2, registry);
    MarkValues(g, m3, mt)
  }

  function MarkRoot(s: State): State {
    var m := BasicMarks(s.graph, Marks(s.color, [], []), s.main, GlobalTable(s), s.registry, s.mt);
    s.WithMarks(m).(phase := Propagate)
  }

  /** Mark again the values of gray open upvalues: their threads may be dead. */
  function RemarkUpvals(g: Graph, m: Marks, uvs: seq<Ref>): (r: Marks)
    ensures r.color.Keys == m.color.Keys && r.grayagain == m.grayagain && Whites(r) <= Whites(m)
    decreases |uvs|
  {
    if uvs == [] then m
    else
      var uv := uvs[0];
      var m1 := if uv in g && uv in m.color && m.color[uv] == Gray then MarkValues(g, m, Kids(g, uv)) else m;
      RemarkUpvals(g, m1, uvs[1..])
  }

  function AtomicMarks(s: State): Marks {
    var m1 := RemarkUpvals(s.graph, s.GetMarks(), s.uvhead);
    var m2 := PropagateAll(s.graph, m1);
    var m3 := MarkObject(s.graph, m2, s.running);
    var m4 := MarkValues(s.graph, m3, s.mt);
    var m5 := PropagateAll(s.graph, m4);
    PropagateAll(s.graph, Marks(m5.color, m5.grayagain, []))
  }

  function Atomic(s: State): State {
    s.WithMarks(AtomicMarks(s)).(white := !s.white, sweepstr := 0, sweepgc := 0, phase := SweepString)
  }

  // --------------------------------------------------------------- sweeping

  predicate Kept(s: State, x: Ref) {
    !Dead(s, x) || x in s.fixed
  }

  function Whiten(s: State, x: Ref): State {
    s.(color := s.color[x := White(s.white)])
  }

  /** Free one object. An open upvalue also leaves the list of open upvalues. */
  function Erase(s: State, x: Ref): State {
    s.(graph := s.graph - {x}, color := s.color - {x},
       uvhead := if IsOpen(s.graph, x) then Without(s.uvhead, x) else s.uvhead)
  }

  /** Sweep a whole chain; the second part is what is left of it. */
  function SweepChain(s: State, chain: seq<Ref>): (State, seq<Ref>)
    decreases |chain|
  {
    if chain == [] then (s, [])
    else if Kept(s, chain[0]) then
      var (s1, rest) := SweepChain(Whiten(s, chain[0]), chain[1..]);
      (s1, [chain[0]] + rest)
    else SweepChain(Erase(s, chain[0]), chain[1..])
  }

  function LinkFirst(s: State, x: Ref): State {
    s.(rootgc := [x] + s.rootgc, sweepgc := if s.sweepgc == 0 then 0 else s.sweepgc + 1)
  }

  /** Close one open upvalue: free it if it is dead, otherwise give it its own
      slot, move it to the main chain and repair its colour. */
  function CloseUpval(s: State, uv: Ref): State
    requires IsOpen(s.graph, uv)
  {
    var t := s.graph[uv].loc.thread;
    var value := Kids(s.graph, uv);
    var s1 := s.(uvhead := Without(s.uvhead, uv),
                 openupval := if t in s.openupval then s.openupval[t := Without(s.openupval[t], uv)] else s.openupval);
    if Dead(s, uv) then
      s1.(graph := s.graph - {uv}, color := s.color - {uv})
    else
      var s2 := LinkFirst(s1.(graph := s.graph[uv := s.graph[uv].(slots := value, loc := Closed)]), uv);
      if uv !in s.color || s.color[uv] != Gray then s2
      else if s.phase == Propagate then
        s2.WithMarks(MarkValues(s2.graph, Marks(s.color[uv := Black], s.gray, s.grayagain), value))
      else Whiten(s2, uv)
  }

  function CloseAll(s: State, uvs: seq<Ref>): State
    decreases |uvs|
  {
    if uvs == [] then s
    else CloseAll(if IsOpen(s.graph, uvs[0]) then CloseUpval(s, uvs[0]) else s, uvs[1..])
  }

  /** Sweep the open upvalues of a thread. */
  function SweepOpen(s: State, x: Ref): State {
    if x in s.openupval then
      var (s', kept) := SweepChain(s, s.openupval[x]);
      s'.(openupval := s'.openupval[x := kept])
    else s
  }

  /** Free a dead object of the main chain. */
  function DropObject(s: State, x: Ref): State {
    s.(graph := s.graph - {x}, color := s.color - {x}, rootgc := Without(s.rootgc, x), openupval := s.openupval - {x})
  }

  /** The sweep passes a kept object; a dead thread closes the upvalues it still
      has before it is freed. */
  function SweepObject(s: State, x: Ref): State {
    if Kept(s, x) then Whiten(s, x).(sweepgc := s.sweepgc + 1)
    else DropObject(if x in s.openupval then CloseAll(s, s.openupval[x]) else s, x)
  }

  /** Sweep the object at the sweep position, open upvalues first. */
  function SweepRoot(s: State): State
    requires s.sweepgc < |s.rootgc|
  {
    SweepObject(SweepOpen(s, s.rootgc[s.sweepgc]), s.rootgc[s.sweepgc])
  }

  function SweepList(s: State, count: nat): State
    decreases count
  {
    if count == 0 || s.sweepgc >= |s.rootgc| then s else SweepList(SweepRoot(s), count - 1)
  }

  function SweepOneString(s: State): State
    requires s.sweepstr < |s.strt|
  {
    var (s1, kept) := SweepChain(s, s.strt[s.sweepstr]);
    s1.(strt := s.strt[s.sweepstr := kept], sweepstr := s.sweepstr + 1,
        phase := if s.sweepstr + 1 >= |s.strt| then Sweep else SweepString)
  }

  function SweepSome(s: State): State {
    var s1 := SweepList(s, SWEEP_MAX);
    if s1.sweepgc >= |s1.rootgc| then s1.(phase := Finalize) else s1
  }

  /** One step of an incremental collection. */
  function SingleStep(s: State): State
    requires s.phase == SweepString ==> s.sweepstr < |s.strt|
  {
    match s.phase
    case Pause => MarkRoot(s)
    case Propagate => if s.gray != [] then s.WithMarks(PropagateMark(s.graph, s.GetMarks())) else Atomic(s)
    case SweepString => SweepOneString(s)
    case Sweep => SweepSome(s)
    case Finalize => s.(phase := Pause)
  }

  /** The start of a full collection: from the mark phase, go straight to a sweep
      that returns every object to the current white. */
  function ResetForFull(s: State): State {
    if s.phase == Pause || s.phase == Propagate
    then s.(sweepstr := 0, sweepgc := 0, gray := [], grayagain := [], phase := SweepString)
    else s
  }

  // ---------------------------------------------------------------- mutator

  predicate ValueIsWhite(s: State, v: Option<Ref>) {
    v.Some? && v.value in s.color && s.color[v.value].White?
  }

  /** Forward barrier: mark the value, or outside the mark phase whiten the object. */
  function BarrierF(s: State, o: Ref, v: Ref): State {
    if s.phase == Propagate then s.WithMarks(MarkObject(s.graph, s.GetMarks(), v)) else Whiten(s, o)
  }

  /** Backward barrier: make the table gray again and revisit it in the atomic phase. */
  function BarrierBack(s: State, o: Ref): State {
    s.(color := s.color[o := Gray], grayagain := [o] + s.grayagain)
  }

  function PutSlot(s: State, o: Ref, i: nat, v: Option<Ref>): State
    requires o in s.graph && i < |s.graph[o].slots|
  {
    s.(graph := s.graph[o := s.graph[o].(slots := s.graph[o].slots[i := v])])
  }

  /** Store into a slot of an object, with the barrier its kind takes. Threads take none. */
  function Store(s: State, o: Ref, i: nat, v: Option<Ref>): State
    requires o in s.graph && o in s.color && i < |s.graph[o].slots|
  {
    var s1 := PutSlot(s, o, i, v);
    if s.graph[o].kind == Thread || !ValueIsWhite(s, v) || s.color[o] != Black then s1
    else if s.graph[o].kind == Table then BarrierBack(s1, o)
    else BarrierF(s1, o, v.value)
  }

  /** `luaC_link`: a new object starts with the current white, first in the chain. */
  function Link(s: State, o: Ref, kind: Kind, slots: seq<Option<Ref>>): State {
    var s1 := s.(graph := s.graph[o := Object(kind, slots, Closed, 0)], color := s.color[o := White(s.white)],
                 openupval := if kind == Thread then s.openupval[o := []] else s.openupval);
    LinkFirst(s1, o)
  }

  /** The position right behind `x` in a chain. */
  function PositionAfter(q: seq<Ref>, x: Ref): (k: nat)
    ensures k <= |q|
    ensures x in q ==> k > 0 && q[k - 1] == x
  {
    if q == [] then 0 else if q[0] == x then 1 else 1 + PositionAfter(q[1..], x)
  }

  /** Userdata are linked right after the main thread. */
  function LinkUserdata(s: State, o: Ref, slots: seq<Option<Ref>>): State {
    var k := PositionAfter(s.rootgc, s.main);
    s.(graph := s.graph[o := Object(Userdata, slots, Closed, 0)], color := s.color[o := White(s.white)],
       rootgc := s.rootgc[..k] + [o] + s.rootgc[k..],
       sweepgc := if s.sweepgc > k then s.sweepgc + 1 else s.sweepgc)
  }

  function LinkString(s: State, o: Ref, hash: nat): State
    requires |s.strt| > 0
  {
    var b := hash % |s.strt|;
    s.(graph := s.graph[o := Object(String, [], Closed, hash)], color := s.color[o := White(s.white)],
       strt := s.strt[b := [o] + s.strt[b]])
  }

  /** A new open upvalue enters its thread's list at `pos` and the list of all open upvalues. */
  function LinkOpenUpval(s: State, uv: Ref, t: Ref, level: nat, pos: nat): State
    requires t in s.openupval && pos <= |s.openupval[t]|
  {
    var l := s.openupval[t];
    s.(graph := s.graph[uv := Object(Upvalue, [], Open(t, level), 0)], color := s.color[uv := White(s.white)],
       openupval := s.openupval[t := l[..pos] + [uv] + l[pos..]], uvhead := [uv] + s.uvhead)
  }

  /** A dead string or open upvalue that is found again turns to the current white. */
  function Revive(s: State, o: Ref): State {
    if Dead(s, o) then Whiten(s, o) else s
  }
}
