/** The code generated for a boolean expression takes the route of the expression. */
module BoolCodeCorrect {
  import opened Common
  import opened BoolExpr
  import opened BoolCode
  import opened BoolCodeGen
  import opened BoolCodeRuns

  ghost predicate KindOk(s: State, k: DKind, n: int) {
    match k
    case DJump(j) =>
      && s.jpc == {} && 1 <= j == |s.code| - 1 && s.code[j - 1].COMPARE? && s.code[j] == JMP(NO_JUMP)
      && CodeOk(s.code[..j - 1])
    case DFetch(_) => s.jpc == {}
    case DNot(b) => s.jpc == {} && 0 <= b
    case DReg(r) => 0 <= r < n
    case DLocal(r) => 0 <= r < n
    case DConst(v) => Truthy(v)
    case _ => true
  }

  ghost predicate DescOk(s: State, d: Desc, n: int) {
    && StateOk(s) && KindOk(s, d.k, n) && 0 <= n <= s.free
    && ListOk(s.code, d.t) && ListOk(s.code, d.f)
    && d.t !! d.f && s.jpc !! d.t && s.jpc !! d.f
    && (d.k.DJump? ==> d.k.j !in d.t && d.k.j !in d.f)
  }

  ghost function KindValue(w: World, k: DKind, R: Regs): Value {
    match k
    case DNil => VNil
    case DTrue => VBool(true)
    case DFalse => VBool(false)
    case DConst(v) => v
    case DLocal(r) => R[r]
    case DGlobal(g) => w.globals(g)
    case DFetch(g) => w.globals(g)
    case DNot(b) => VBool(!Truthy(R[b]))
    case DReg(r) => R[r]
    case DJump(_) => VNil
  }

  /** The registers in use are the same. */
  ghost predicate Agree(R: Regs, B: Regs, free: int) {
    forall r :: 0 <= r < free ==> R[r] == B[r]
  }

  /** A run of the code stops as a route says. */
  ghost predicate Routed(w: World, s: State, d: Desc, route: Route, p: Stop) {
    match route
    case By(when, c) => p.Exit? && p.j in d.Exits(when) && p.carried == c
    case End(h, v) =>
      if d.k.DJump? then
        v.VBool? && h.None? && if v.b then p == Exit(d.k.j, p.R, None) else p.Fall?
      else AtEnd(s, p) && Held(p) == h && KindValue(w, d.k, p.R) == v
  }

  /** A run stops at the end of the code or at a jump of the descriptor. */
  ghost predicate Inside(s: State, d: Desc, p: Stop) {
    AtEnd(s, p) || p.j in d.t || p.j in d.f || (d.k.DJump? && p.j == d.k.j)
  }

  // ------------------------------------------------------------- discharging

  lemma DischargeVarsOk(s: State, d: Desc, n: int)
    requires DescOk(s, d, n)
    ensures var (r, k) := DischargeVars(s, d.k);
            && DescOk(r, d.(k := k), n) && Extends(s.code, r.code, s.jpc) && |r.code| == |s.code|
            && r.free == s.free && r.jpc <= s.jpc && !k.DLocal? && !k.DGlobal?
            && Abstract(k) == Discharged(Abstract(d.k)) && (k.DJump? <==> d.k.DJump?)
  {
    if d.k.DGlobal? {
      DischargeOk(s);
      hide CodeOk;
    }
  }

  lemma DischargeVarsRuns(w: World, s: State, d: Desc, n: int, route: Route, pc: int, R: Regs)
    requires DescOk(s, d, n) && Starts(s, pc)
    ensures var (r, k) := DischargeVars(s, d.k);
            var p := Exec(w, s.code, pc, R);
            Starts(r, pc) &&
            var q := Exec(w, r.code, pc, R);
            && q.R == p.R && (!Inside(s, d, p) ==> q == p)
            && (Routed(w, s, d, route, p) ==> Routed(w, r, d.(k := k), AfterDischarge(Abstract(d.k), route), q))
  {
    var p := Exec(w, s.code, pc, R);
    if d.k.DGlobal? {
      DischargeRuns(w, s, pc, R);
      var q := Exec(w, DischargeJpc(s).code, pc, R);
      hide Exec, CodeOk, DischargeJpc, StateOk, DescOk, IsStart, Routed;
      if Routed(w, s, d, route, p) { RoutedFetch(w, s, DischargeJpc(s), d, route, p, q); }
    } else {
      hide Exec, CodeOk, StateOk, IsStart, Starts, Routed, DescOk;
      RoutedLocal(w, s, d, route, p);
    }
  }

  lemma RoutedLocal(w: World, s: State, d: Desc, route: Route, p: Stop)
    requires !d.k.DGlobal?
    ensures var k := DischargeVars(s, d.k).1;
            Routed(w, s, d, route, p) ==> Routed(w, s, d.(k := k), AfterDischarge(Abstract(d.k), route), p)
  {
  }

  lemma RoutedFetch(w: World, s: State, r: State, d: Desc, route: Route, p: Stop, q: Stop)
    requires d.k.DGlobal? && r.jpc == {} && q == (if AtEnd(s, p) then Fall(p.R) else p)
    requires s.jpc !! d.t && s.jpc !! d.f && Routed(w, s, d, route, p)
    ensures Routed(w, r, d.(k := DFetch(d.k.g)), AfterDischarge(KGlobal, route), q)
  {
  }

  lemma LoadedValue(w: World, k: DKind, reg: int, R: Regs)
    ensures LoadOf(k, reg).Some? ==> Loaded(w, LoadOf(k, reg).value, R) == KindValue(w, k, R)
  {
  }

  /** Jump when the value is `cond`, with the value unless it is the result of `not`. */
  lemma JumpOnCondOk(s: State, k: DKind, n: int, cond: bool)
    requires StateOk(s) && KindOk(s, k, n) && 0 <= n <= s.free && !k.DLocal? && !k.DGlobal? && !k.DJump?
    ensures var (r, j) := JumpOnCond(s, k, n, cond);
            && StateOk(r) && Extends(s.code, r.code, s.jpc) && r.jpc == {} && r.free == s.free
            && |s.code| < j == |r.code| - 1 && Pending(r.code, j)
  {
    if k.DNot? {
      hide CodeOk;
      CondJumpOk(s, TEST(k.b, !cond));
    } else if k.DReg? {
      hide CodeOk;
      CondJumpOk(FreeReg(s, n, k.r), TESTSET(NO_REG, k.r, cond));
    } else {
      var (s1, reg) := Discharge2AnyReg(s, k);
      EmitOk(s, LoadOf(k, reg).value);
      hide CodeOk;
      CondJumpOk(FreeReg(s1, n, reg), TESTSET(NO_REG, reg, cond));
      ExtendsAgain(s.code, s1.code, JumpOnCond(s, k, n, cond).0.code, s.jpc, {}, s.jpc);
    }
  }

  /** A test stops at its jump if the value is `cond`. */
  ghost predicate Tested(s: State, k: DKind, cond: bool, v: Value, j: int, p: Stop, q: Stop) {
    if !AtEnd(s, p) then q == p
    else
      && Agree(q.R, p.R, s.free)
      && if Truthy(v) == cond then q == Exit(j, q.R, if k.DNot? then None else Some(v)) else q.Fall?
  }

  lemma JumpOnCondRuns(w: World, s: State, k: DKind, n: int, cond: bool, pc: int, R: Regs)
    requires StateOk(s) && KindOk(s, k, n) && 0 <= n <= s.free && !k.DLocal? && !k.DGlobal? && !k.DJump?
    requires Starts(s, pc)
    ensures var (r, j) := JumpOnCond(s, k, n, cond);
            var p := Exec(w, s.code, pc, R);
            Starts(r, pc) && Tested(s, k, cond, KindValue(w, k, p.R), j, p, Exec(w, r.code, pc, R))
  {
    if k.DNot? {
      hide Exec, CodeOk, IsStart, ListOk;
      CondJumpRuns(w, s, TEST(k.b, !cond), pc, R);
    } else if k.DReg? {
      hide Exec, CodeOk, IsStart, ListOk;
      CondJumpRuns(w, FreeReg(s, n, k.r), TESTSET(NO_REG, k.r, cond), pc, R);
    } else {
      hide JumpOnCond, Exec, CodeOk, IsStart, ListOk, Tested, KindValue, Starts;
      LoadAndJumpRuns(w, s, k, n, cond, pc, R);
    }
  }

  lemma LoadAndJumpRuns(w: World, s: State, k: DKind, n: int, cond: bool, pc: int, R: Regs)
    requires StateOk(s) && KindOk(s, k, n) && 0 <= n <= s.free && !k.DLocal? && !k.DGlobal? && !k.DJump? && !k.DNot?
             && !k.DReg?
    requires Starts(s, pc)
    ensures var (r, j) := JumpOnCond(s, k, n, cond);
            var p := Exec(w, s.code, pc, R);
            Starts(r, pc) && Tested(s, k, cond, KindValue(w, k, p.R), j, p, Exec(w, r.code, pc, R))
  {
    var (s1, reg) := Discharge2AnyReg(s, k);
    hide Exec, CodeOk, IsStart, ListOk, KindValue;
    EmitRuns(w, s, LoadOf(k, reg).value, pc, R);
    LoadedValue(w, k, reg, Exec(w, s.code, pc, R).R);
    hide LoadOf;
    CondJumpRuns(w, FreeReg(s1, n, reg), TESTSET(NO_REG, reg, cond), pc, R);
  }

  // -------------------------------------------------- going on in and / or

  /** The result of GoIf: where runs leave, and where they go on. */
  ghost predicate GoneIf(code: seq<Instr>, mine: set<int>, s: State, list: set<int>, free: int) {
    && StateOk(s) && ListOk(s.code, list) && s.jpc !! list && s.free == free
    && Extends(code, s.code, mine)
    && forall j :: j in s.jpc || j in list ==> j in mine || j >= |code|
  }

  /** All jumps that belong to a descriptor. */
  ghost function Mine(s: State, d: Desc): set<int> {
    s.jpc + d.t + d.f + if d.k.DJump? then {d.k.j} else {}
  }

  lemma ExtendsMore(code: seq<Instr>, r: seq<Instr>, list: set<int>, all: set<int>)
    requires Extends(code, r, list) && list <= all
    ensures Extends(code, r, all)
  {
  }

  lemma ExtendsList(code: seq<Instr>, r: seq<Instr>, mine: set<int>, list: set<int>)
    requires Extends(code, r, mine) && ListOk(code, list) && mine !! list
    ensures ListOk(r, list)
  {
  }

  lemma ExtendsSelf(code: seq<Instr>)
    ensures Extends(code, code, {})
  {
  }

  /** A run leaves or goes on, as a continuation says. */
  ghost predicate Continues(s: State, list: set<int>, c: Continuation, cond: bool, q: Stop) {
    if c.Leaves? then q.Exit? && q.j in list && c.r == By(!cond, q.carried)
    else AtEnd(s, q) && Held(q) == c.held && (q.Exit? ==> q.j !in list)
  }

  lemma GoIfJumpOk(s: State, k: DKind, n: int, cond: bool)
    requires StateOk(s) && KindOk(s, k, n) && 0 <= n <= s.free && !k.DLocal? && !k.DGlobal?
    ensures var (r, list) := GoIfJump(s, k, n, cond);
            && StateOk(r) && ListOk(r.code, list) && r.jpc !! list && r.free == s.free && r.jpc <= s.jpc
            && Extends(s.code, r.code, s.jpc)
            && (forall j :: j in list ==> j in s.jpc || j >= |s.code| || (k.DJump? && j == k.j))
  {
    if NeverJumps(Abstract(k), cond) {
      ExtendsSelf(s.code);
      ExtendsMore(s.code, s.code, {}, s.jpc);
    } else if AlwaysJumps(Abstract(k), cond) {
      JumpOk(s);
      hide CodeOk, Extends;
      ExtendsMore(s.code, Jump(s).0.code, {}, s.jpc);
    } else if k.DJump? {
      InvertOk(s.code, k.j);
      ExtendsSelf(s.code);
      hide CodeOk, Extends;
      ExtendsMore(s.code, Inverted(s.code, k.j), {}, s.jpc);
      ExtendsMore(s.code, s.code, {}, s.jpc);
    } else {
      JumpOnCondOk(s, k, n, !cond);
      hide CodeOk, Extends;
    }
  }

  /** The run starts before the comparison at the end of the code, if there is one. */
  ghost predicate StartsBefore(s: State, k: DKind, pc: int) {
    Starts(s, pc) && (k.DJump? ==> 1 <= k.j <= |s.code| && IsStart(s.code[..k.j - 1], pc))
  }

  /** Runs at the end of the code, by the value they have there. */
  lemma GoIfJumpRuns(w: World, s: State, d: Desc, n: int, cond: bool, route: Route, pc: int, R: Regs)
    requires DescOk(s, d, n) && !d.k.DLocal? && !d.k.DGlobal? && StartsBefore(s, d.k, pc)
    ensures var (r, list) := GoIfJump(s, d.k, n, cond);
            var p := Exec(w, s.code, pc, R);
            Starts(r, pc) &&
            var q := Exec(w, r.code, pc, R);
            && (!Inside(s, d, p) ==> q == p)
            && (Routed(w, s, d, route, p) ==> Agree(q.R, p.R, s.free) && GoneOn(r, list, d, route, cond, p, q))
  {
    var k := d.k;
    var p := Exec(w, s.code, pc, R);
    if NeverJumps(Abstract(k), cond) {
      hide Exec, CodeOk, IsStart, ListOk, StateOk;
    } else if AlwaysJumps(Abstract(k), cond) {
      hide Exec, CodeOk, IsStart, ListOk, StateOk;
      JumpRuns(w, s, pc, R);
    } else {
      hide GoIfJump, Inside, GoneOn, Routed, Exec, CodeOk, IsStart, ListOk, StateOk, Starts, DescOk;
      if k.DJump? {
        GoIfCompareRuns(w, s, d, n, cond, route, pc, R);
      } else {
        GoIfTestRuns(w, s, d, n, cond, route, pc, R);
      }
    }
  }

  lemma GoIfCompareRuns(w: World, s: State, d: Desc, n: int, cond: bool, route: Route, pc: int, R: Regs)
    requires DescOk(s, d, n) && d.k.DJump? && StartsBefore(s, d.k, pc)
    ensures var (r, list) := GoIfJump(s, d.k, n, cond);
            var p := Exec(w, s.code, pc, R);
            Starts(r, pc) &&
            var q := Exec(w, r.code, pc, R);
            && (!Inside(s, d, p) ==> q == p)
            && (Routed(w, s, d, route, p) ==> Agree(q.R, p.R, s.free) && GoneOn(r, list, d, route, cond, p, q))
  {
    if cond { InvertRuns(w, s.code, d.k.j, pc, R); }
    NothingListed(Inverted(s.code, d.k.j));
    hide Inverted, Exec, CodeOk, IsStart, ListOk, Inside, Routed, GoneOn;
    var (r, list) := GoIfJump(s, d.k, n, cond);
    CompareGoesOn(w, s, r, d, route, cond, Exec(w, s.code, pc, R), Exec(w, r.code, pc, R));
  }

  lemma CompareGoesOn(w: World, s: State, r: State, d: Desc, route: Route, cond: bool, p: Stop, q: Stop)
    requires d.k.DJump? && s.jpc == {} && r.jpc == {} && d.k.j !in d.t && d.k.j !in d.f
    requires q == if cond then Swapped(p, d.k.j) else p
    ensures !Inside(s, d, p) ==> q == p
    ensures Routed(w, s, d, route, p) ==> q.R == p.R && GoneOn(r, {d.k.j}, d, route, cond, p, q)
  {
  }

  lemma GoIfTestRuns(w: World, s: State, d: Desc, n: int, cond: bool, route: Route, pc: int, R: Regs)
    requires DescOk(s, d, n) && !d.k.DLocal? && !d.k.DGlobal? && !d.k.DJump? && Starts(s, pc)
    requires !NeverJumps(Abstract(d.k), cond) && !AlwaysJumps(Abstract(d.k), cond)
    ensures var (r, list) := GoIfJump(s, d.k, n, cond);
            var p := Exec(w, s.code, pc, R);
            Starts(r, pc) &&
            var q := Exec(w, r.code, pc, R);
            && (!Inside(s, d, p) ==> q == p)
            && (Routed(w, s, d, route, p) ==> Agree(q.R, p.R, s.free) && GoneOn(r, list, d, route, cond, p, q))
  {
    hide Exec, CodeOk, IsStart, ListOk, JumpOnCond, KindValue;
    JumpOnCondRuns(w, s, d.k, n, !cond, pc, R);
    var (r, j) := JumpOnCond(s, d.k, n, !cond);
    var p, q := Exec(w, s.code, pc, R), Exec(w, r.code, pc, R);
    JumpOnCondOk(s, d.k, n, !cond);
    hide Routed, Starts;
    if Routed(w, s, d, route, p) { TestGoesOn(w, s, r, j, d, route, cond, p, q); }
  }

  ghost predicate GoneOn(r: State, list: set<int>, d: Desc, route: Route, cond: bool, p: Stop, q: Stop) {
    if route.By? then q == p else Continues(r, list, Continue(Abstract(d.k), route, cond), cond, q)
  }

  lemma TestGoesOn(w: World, s: State, r: State, j: int, d: Desc, route: Route, cond: bool, p: Stop, q: Stop)
    requires Routed(w, s, d, route, p) && !d.k.DJump? && r.jpc == {}
    requires !NeverJumps(Abstract(d.k), cond) && !AlwaysJumps(Abstract(d.k), cond)
    requires s.jpc !! d.t && s.jpc !! d.f
    requires Tested(s, d.k, !cond, KindValue(w, d.k, p.R), j, p, q)
    ensures GoneOn(r, {j}, d, route, cond, p, q) && Agree(q.R, p.R, s.free)
  {
  }

  lemma GoIfOk(s: State, d: Desc, n: int, cond: bool)
    requires DescOk(s, d, n)
    ensures var (r, list) := GoIf(s, d, n, cond);
            GoneIf(s.code, Mine(s, d), r, list, s.free) && Extends(s.code, r.code, s.jpc)
  {
    hide CodeOk, Extends, ListOk;
    DischargeVarsOk(s, d, n);
    var (s1, k) := DischargeVars(s, d.k);
    var (s2, list) := GoIfJump(s1, k, n, cond);
    var (r, exits) := GoIf(s, d, n, cond);
    assert k.DJump? ==> k == d.k;
    GoIfJumpOk(s1, k, n, cond);
    hide DischargeVars, GoIfJump, KindOk;
    ExtendsAgain(s.code, s1.code, s2.code, s.jpc, s1.jpc, s.jpc);
    ExtendsMore(s.code, r.code, s.jpc, Mine(s, d)) by { HeldAreMine(s, d); }
    ListBelow(s.code, d.t);
    ListBelow(s.code, d.f);
    GoIfLists(s1.code, s1.jpc, s2.code, s2.jpc, list, d.Exits(cond), d.Exits(!cond));
    hide Mine;
    ExitsAreMine(s, d, cond);
    assert s2.jpc !! d.Exits(!cond) && list !! d.Exits(cond);
  }

  lemma HeldAreMine(s: State, d: Desc)
    ensures s.jpc <= Mine(s, d)
  {
  }

  lemma ExitsAreMine(s: State, d: Desc, cond: bool)
    ensures d.Exits(cond) <= Mine(s, d) && d.Exits(!cond) <= Mine(s, d) && s.jpc <= Mine(s, d)
            && (d.k.DJump? ==> d.k.j in Mine(s, d))
  {
  }

  /** The jumps that come here and those that leave, after the jump of a condition. */
  lemma GoIfLists(code: seq<Instr>, jpc: set<int>, r: seq<Instr>, held: set<int>, list: set<int>, come: set<int>,
      leave: set<int>)
    requires Extends(code, r, jpc) && ListOk(code, come) && ListOk(code, leave) && ListOk(r, held) && ListOk(r, list)
    requires jpc !! come && jpc !! leave
    ensures ListOk(r, held + come) && ListOk(r, leave + list)
  {
    hide Extends, ListOk;
    ExtendsList(code, r, jpc, come);
    ExtendsList(code, r, jpc, leave);
    ListUnion(r, held, come);
    ListUnion(r, list, leave);
  }

  lemma ListBelow(code: seq<Instr>, list: set<int>)
    requires ListOk(code, list)
    ensures forall j :: j in list ==> 0 <= j < |code|
  {
  }

  lemma ListUnion(code: seq<Instr>, a: set<int>, b: set<int>)
    requires ListOk(code, a) && ListOk(code, b)
    ensures ListOk(code, a + b) && ListOk(code, b + a)
  {
  }

  /** A run leaves by a list of exits or goes on, as a continuation says. */
  ghost predicate Leads(s: State, list: set<int>, c: Continuation, cond: bool, q: Stop) {
    if c.Leaves? then q.Exit? && q.j in list && c.r == By(!cond, q.carried)
    else AtEnd(s, q) && Held(q) == c.held
  }

  lemma ContinueDischarged(k: Kind, route: Route, cond: bool)
    ensures Continue(Discharged(k), AfterDischarge(k, route), cond) == Continue(k, route, cond)
  {
  }

  lemma GoIfRuns(w: World, s: State, d: Desc, n: int, cond: bool, route: Route, pc: int, R: Regs)
    requires DescOk(s, d, n) && StartsBefore(s, d.k, pc)
    ensures var (r, list) := GoIf(s, d, n, cond);
            var p := Exec(w, s.code, pc, R);
            Starts(r, pc) &&
            var q := Exec(w, r.code, pc, R);
            && (!Inside(s, d, p) ==> q == p)
            && (Routed(w, s, d, route, p) ==> Agree(q.R, p.R, s.free)
                                              && Leads(r, list, Continue(Abstract(d.k), route, cond), cond, q))
  {
    var (s1, k) := DischargeVars(s, d.k);
    var (s2, list) := GoIfJump(s1, k, n, cond);
    var (r, exits) := GoIf(s, d, n, cond);
    DischargeVarsOk(s, d, n);
    DischargeVarsRuns(w, s, d, n, route, pc, R);
    assert StartsBefore(s1, k, pc) by { hide CodeOk; }
    GoIfJumpRuns(w, s1, d.(k := k), n, cond, AfterDischarge(Abstract(d.k), route), pc, R);
    ContinueDischarged(Abstract(d.k), route, cond);
    GoIfOk(s, d, n, cond);
    assert r.code == s2.code;
    var p, p1, q := Exec(w, s.code, pc, R), Exec(w, s1.code, pc, R), Exec(w, s2.code, pc, R);
    hide Exec, CodeOk, StateOk, ListOk, KindOk, IsStart, Extends, Routed, Continue, AfterDischarge, GoIfJump;
    assert r.jpc == s2.jpc + d.Exits(cond) && exits == d.Exits(!cond) + list;
    if Routed(w, s, d, route, p) {
      LeadsOn(w, s1, r, s2, d.(k := k), route, cond, list, p1, q, AfterDischarge(Abstract(d.k), route));
    }
  }

  lemma LeadsOn(w: World, s1: State, r: State, s2: State, d: Desc, route: Route, cond: bool, list: set<int>, p: Stop,
      q: Stop, route1: Route)
    requires Routed(w, s1, d, route1, p) && GoneOn(s2, list, d, route1, cond, p, q)
    requires r.jpc == s2.jpc + d.Exits(cond)
    ensures Leads(r, d.Exits(!cond) + list, Continue(Abstract(d.k), route1, cond), cond, q)
  {
  }

  // --------------------------------------------------------------- negation

  ghost predicate NegatedWell(s: State, k: DKind, n: int, r: State, k': DKind) {
    && StateOk(r) && Extends(s.code, r.code, s.jpc) && r.jpc <= s.jpc && r.free == s.free
    && KindOk(r, k', n) && (k.DJump? ==> k' == k) && (k'.DJump? ==> k.DJump?) && Abstract(k') == Negated(Abstract(k))
  }

  lemma NegateKindOk(s: State, k: DKind, n: int)
    requires StateOk(s) && KindOk(s, k, n) && 0 <= n <= s.free && !k.DLocal? && !k.DGlobal?
    ensures NegatedWell(s, k, n, NegateKind(s, k, n).0, NegateKind(s, k, n).1)
  {
    if IsConstant(Abstract(k)) {
      hide CodeOk, Extends, ListOk, StateOk;
      ExtendsSelf(s.code);
      ExtendsMore(s.code, s.code, {}, s.jpc);
    } else if k.DJump? {
      hide NegatedWell;
      NegateJumpOk(s, k, n);
    } else {
      hide NegatedWell;
      NegateRegOk(s, k, n);
    }
  }

  lemma NegateJumpOk(s: State, k: DKind, n: int)
    requires StateOk(s) && KindOk(s, k, n) && 0 <= n <= s.free && k.DJump?
    ensures NegatedWell(s, k, n, NegateKind(s, k, n).0, NegateKind(s, k, n).1)
  {
    InvertOk(s.code, k.j);
    NothingListed(Inverted(s.code, k.j));
    InvertSplit(s.code, k.j);
    assert Inverted(s.code, k.j)[..k.j - 1] == s.code[..k.j - 1];
    hide CodeOk, Extends, ListOk;
    ExtendsMore(s.code, Inverted(s.code, k.j), {}, s.jpc);
  }

  lemma NegateRegOk(s: State, k: DKind, n: int)
    requires StateOk(s) && KindOk(s, k, n) && 0 <= n <= s.free
    requires !k.DLocal? && !k.DGlobal? && !k.DJump? && !IsConstant(Abstract(k))
    ensures NegatedWell(s, k, n, NegateKind(s, k, n).0, NegateKind(s, k, n).1)
  {
    hide CodeOk, Extends, ListOk;
    var (s1, reg) := Discharge2AnyReg(s, k);
    if k.DReg? {
      ExtendsSelf(s.code);
      ExtendsMore(s.code, s.code, {}, s.jpc);
    } else {
      EmitOk(s, LoadOf(k, reg).value);
    }
    DischargeOk(FreeReg(s1, n, reg));
    ExtendsAgain(s.code, s1.code, NegateKind(s, k, n).0.code, s.jpc, s1.jpc, s.jpc);
  }

  /** At the end of the code, the value is negated. */
  ghost function OppositeRoute(k: Kind, route: Route): Route {
    if route.End? then End(if IsConstant(k) then route.held else None, VBool(!Truthy(route.v))) else route
  }

  lemma NegateKindRuns(w: World, s: State, d: Desc, n: int, route: Route, pc: int, R: Regs)
    requires DescOk(s, d, n) && !d.k.DLocal? && !d.k.DGlobal? && StartsBefore(s, d.k, pc)
    ensures var (r, k) := NegateKind(s, d.k, n);
            var p := Exec(w, s.code, pc, R);
            Starts(r, pc) &&
            var q := Exec(w, r.code, pc, R);
            && (!Inside(s, d, p) ==> q == p)
            && (Routed(w, s, d, route, p) ==> Agree(q.R, p.R, s.free)
                                              && Routed(w, r, d.(k := k), OppositeRoute(Abstract(d.k), route), q))
  {
    if IsConstant(Abstract(d.k)) {
      hide Exec, CodeOk, IsStart, StateOk, ListOk;
    } else if d.k.DJump? {
      hide NegateKind, Routed, OppositeRoute, Exec, CodeOk, DescOk, Starts;
      NegateJumpRuns(w, s, d, n, route, pc, R);
    } else {
      hide NegateKind, Routed, OppositeRoute, Exec, CodeOk, DescOk, Starts;
      NegateRegRuns(w, s, d, n, route, pc, R);
    }
  }

  lemma NegateJumpRuns(w: World, s: State, d: Desc, n: int, route: Route, pc: int, R: Regs)
    requires DescOk(s, d, n) && d.k.DJump? && StartsBefore(s, d.k, pc)
    ensures var (r, k) := NegateKind(s, d.k, n);
            var p := Exec(w, s.code, pc, R);
            Starts(r, pc) &&
            var q := Exec(w, r.code, pc, R);
            && (!Inside(s, d, p) ==> q == p)
            && (Routed(w, s, d, route, p) ==> Agree(q.R, p.R, s.free)
                                              && Routed(w, r, d.(k := k), OppositeRoute(Abstract(d.k), route), q))
  {
    InvertRuns(w, s.code, d.k.j, pc, R);
    NothingListed(Inverted(s.code, d.k.j));
    var p, q := Exec(w, s.code, pc, R), Exec(w, Inverted(s.code, d.k.j), pc, R);
    hide Inverted, Routed, OppositeRoute, Exec, CodeOk, IsStart, ListOk, Pending, AtEnd, Held;
    NegatedJump(w, s, NegateKind(s, d.k, n).0, d, route, p, q);
  }

  lemma NegateRegRuns(w: World, s: State, d: Desc, n: int, route: Route, pc: int, R: Regs)
    requires DescOk(s, d, n) && !d.k.DLocal? && !d.k.DGlobal? && !d.k.DJump? && !IsConstant(Abstract(d.k))
             && Starts(s, pc)
    ensures var (r, k) := NegateKind(s, d.k, n);
            var p := Exec(w, s.code, pc, R);
            Starts(r, pc) &&
            var q := Exec(w, r.code, pc, R);
            && (!Inside(s, d, p) ==> q == p)
            && (Routed(w, s, d, route, p) ==> Agree(q.R, p.R, s.free)
                                              && Routed(w, r, d.(k := k), OppositeRoute(Abstract(d.k), route), q))
  {
    var k, p := d.k, Exec(w, s.code, pc, R);
    var (s1, reg) := Discharge2AnyReg(s, k);
    if !k.DReg? {
      EmitRuns(w, s, LoadOf(k, reg).value, pc, R);
      LoadedValue(w, k, reg, p.R);
    }
    var s2 := FreeReg(s1, n, reg);
    var p1 := Exec(w, s2.code, pc, R);
    hide Exec, CodeOk, IsStart, StateOk, ListOk, LoadOf, KindValue, DischargeJpc, Routed;
    DischargeRuns(w, s2, pc, R);
    NegatedValue(w, s, d, s1, NegateKind(s, k, n).0, reg, route, p, p1, Exec(w, DischargeJpc(s2).code, pc, R));
  }

  lemma NegatedJump(w: World, s: State, r: State, d: Desc, route: Route, p: Stop, q: Stop)
    requires d.k.DJump? && q == Swapped(p, d.k.j) && s.jpc == {} && d.k.j !in d.t && d.k.j !in d.f
    ensures !Inside(s, d, p) ==> q == p
    ensures Routed(w, s, d, route, p) ==> q.R == p.R && Routed(w, r, d, OppositeRoute(KJump, route), q)
  {
  }

  lemma NegatedValue(w: World, s: State, d: Desc, s1: State, r: State, reg: int, route: Route, p: Stop, p1: Stop,
      q: Stop)
    requires s.jpc !! d.t && s.jpc !! d.f && !d.k.DJump? && !IsConstant(Abstract(d.k)) && s1.jpc <= s.jpc && r.jpc == {}
    requires if !AtEnd(s, p) then p1 == p
             else AtEnd(s1, p1) && Agree(p1.R, p.R, s.free) && p1.R[reg] == KindValue(w, d.k, p.R)
    requires q == if AtEnd(s1, p1) then Fall(p1.R) else p1
    ensures Routed(w, s, d, route, p) ==> Agree(q.R, p.R, s.free)
                                          && Routed(w, r, d.(k := DNot(reg)), OppositeRoute(Abstract(d.k), route), q)
  {
  }

  lemma NegateOk(s: State, d: Desc, n: int)
    requires DescOk(s, d, n)
    ensures var (r, d') := Negate(s, d, n);
            && DescOk(r, d', n) && Extends(s.code, r.code, Mine(s, d)) && r.free == s.free
            && d'.t == d.f && d'.f == d.t && Abstract(d'.k) == Negated(Abstract(d.k))
            && Mine(r, d') <= Mine(s, d)
  {
    DischargeVarsOk(s, d, n);
    var (s1, k) := DischargeVars(s, d.k);
    var (s2, k2) := NegateKind(s1, k, n);
    var (r, d') := Negate(s, d, n);
    NegateKindOk(s1, k, n);
    assert Extends(s.code, s2.code, s.jpc) && ListOk(s2.code, d.t) && ListOk(s2.code, d.f) by {
      hide CodeOk, Extends, ListOk, KindOk;
      ExtendsAgain(s.code, s1.code, s2.code, s.jpc, s1.jpc, s.jpc);
      ExtendsList(s1.code, s2.code, s1.jpc, d.t);
      ExtendsList(s1.code, s2.code, s1.jpc, d.f);
    }
    hide DischargeVars, NegateKind, Abstract, CodeOk, Extends, ListOk, KindOk, WithoutValues;
    WithoutKind(s2, d.t, k2, n);
    WithoutKind(s2.(code := WithoutValues(s2.code, d.t)), d.f, k2, n);
    WithoutListOk(s2.code, d.t, d.t);
    WithoutListOk(s2.code, d.t, d.f);
    WithoutListOk(WithoutValues(s2.code, d.t), d.f, d.t);
    WithoutListOk(WithoutValues(s2.code, d.t), d.f, d.f);
    ExtendsAgain(s.code, s2.code, WithoutValues(s2.code, d.t), s.jpc, d.t, s.jpc + d.t);
    ExtendsAgain(s.code, WithoutValues(s2.code, d.t), r.code, s.jpc + d.t, d.f, Mine(s, d));
  }

  lemma WithoutKind(s: State, list: set<int>, k: DKind, n: int)
    requires StateOk(s) && KindOk(s, k, n)
    ensures var r := s.(code := WithoutValues(s.code, list));
            StateOk(r) && KindOk(r, k, n) && Extends(s.code, r.code, list)
  {
    WithoutOk(s.code, list);
    WithoutListOk(s.code, list, s.jpc);
    if k.DJump? {
      WithoutPrefix(s.code, list, k.j - 1);
      WithoutOk(s.code[..k.j - 1], list);
    }
    hide CodeOk, ListOk, Pending, Carries, IsStart;
  }

  lemma WithoutPrefix(code: seq<Instr>, list: set<int>, m: int)
    requires 0 <= m <= |code|
    ensures WithoutValues(code, list)[..m] == WithoutValues(code[..m], list)
  {
  }

  lemma WithoutListOk(code: seq<Instr>, list: set<int>, l: set<int>)
    requires ListOk(code, l)
    ensures ListOk(WithoutValues(code, list), l)
  {
  }

  /** The route through the code of a negation. */
  ghost function NegatedRoute(k: Kind, route: Route): Route {
    if route.By? then By(!route.when, None)
    else End(if IsConstant(k) then route.held else None, VBool(!Truthy(route.v)))
  }

  lemma NegateRuns(w: World, s: State, d: Desc, n: int, route: Route, pc: int, R: Regs)
    requires DescOk(s, d, n) && StartsBefore(s, d.k, pc)
    ensures var (r, d') := Negate(s, d, n);
            var p := Exec(w, s.code, pc, R);
            Starts(r, pc) &&
            var q := Exec(w, r.code, pc, R);
            && (!Inside(s, d, p) ==> q == p)
            && (Routed(w, s, d, route, p) ==> Agree(q.R, p.R, s.free)
                                              && Routed(w, r, d', NegatedRoute(Abstract(d.k), route), q))
  {
    var (s1, k) := DischargeVars(s, d.k);
    var (s2, k2) := NegateKind(s1, k, n);
    var (r, d') := Negate(s, d, n);
    DischargeVarsOk(s, d, n);
    DischargeVarsRuns(w, s, d, n, route, pc, R);
    assert StartsBefore(s1, k, pc) by { hide CodeOk; }
    var route1 := AfterDischarge(Abstract(d.k), route);
    NegateKindRuns(w, s1, d.(k := k), n, route1, pc, R);
    NegateOk(s, d, n);
    NegatedLists(s, d, n);
    var p := Exec(w, s.code, pc, R);
    var p2 := Exec(w, s2.code, pc, R);
    hide Exec, CodeOk, StateOk, ListOk, KindOk, IsStart, Extends, NegateKind, DischargeVars, WithoutValues, Routed,
      OppositeRoute, AfterDischarge;
    WithoutBothRuns(w, s2, d.t, d.f, pc, R);
    if Routed(w, s, d, route, p) {
      UncarriedRoute(w, s2, d.(k := k2), OppositeRoute(Abstract(k), route1), p2);
      NegatedRoutes(Abstract(d.k), route);
      RoutedSame(w, s2, r, d', NegatedRoute(Abstract(d.k), route), Uncarried(Uncarried(p2, d.t), d.f));
    }
  }

  lemma RoutedSame(w: World, s: State, r: State, d: Desc, route: Route, p: Stop)
    requires s.jpc == r.jpc
    ensures Routed(w, s, d, route, p) <==> Routed(w, r, d, route, p)
  {
  }

  lemma NegatedRoutes(k: Kind, route: Route)
    ensures var o := OppositeRoute(Discharged(k), AfterDischarge(k, route));
            (if o.By? then By(!o.when, None) else o) == NegatedRoute(k, route)
  {
  }

  lemma WithoutBothRuns(w: World, s: State, t: set<int>, f: set<int>, pc: int, R: Regs)
    requires Starts(s, pc) && ListOk(s.code, t) && ListOk(s.code, f)
    ensures var r := s.(code := WithoutValues(WithoutValues(s.code, t), f));
            Starts(r, pc) && Exec(w, r.code, pc, R) == Uncarried(Uncarried(Exec(w, s.code, pc, R), t), f)
  {
    var mid := WithoutValues(s.code, t);
    WithoutOk(s.code, t);
    WithoutListOk(s.code, t, f);
    WithoutListOk(s.code, t, s.jpc);
    WithoutListOk(mid, f, s.jpc);
    WithoutOk(mid, f);
    hide Exec, CodeOk, ListOk, Pending, Carries, IsStart, WithoutValues;
    WithoutRuns(w, s.code, t, pc, R);
    WithoutRuns(w, mid, f, pc, R);
  }

  lemma NegatedLists(s: State, d: Desc, n: int)
    requires DescOk(s, d, n)
    ensures var (s1, k) := DischargeVars(s, d.k);
            var (s2, k2) := NegateKind(s1, k, n);
            StateOk(s2) && ListOk(s2.code, d.t) && ListOk(s2.code, d.f) && s2.jpc <= s.jpc && (k2.DJump? ==> k2 == d.k)
  {
    DischargeVarsOk(s, d, n);
    var (s1, k) := DischargeVars(s, d.k);
    var (s2, k2) := NegateKind(s1, k, n);
    NegateKindOk(s1, k, n);
    hide CodeOk, Extends, ListOk, KindOk;
    ExtendsAgain(s.code, s1.code, s2.code, s.jpc, s1.jpc, s.jpc);
    ExtendsList(s1.code, s2.code, s1.jpc, d.t);
    ExtendsList(s1.code, s2.code, s1.jpc, d.f);
  }

  lemma UncarriedRoute(w: World, s: State, d: Desc, route: Route, p: Stop)
    requires Routed(w, s, d, route, p) && d.t !! d.f && s.jpc !! d.t && s.jpc !! d.f
    requires d.k.DJump? ==> d.k.j !in d.t && d.k.j !in d.f
    ensures var q := Uncarried(Uncarried(p, d.t), d.f);
            q.R == p.R && Routed(w, s, Desc(d.k, d.f, d.t), if route.By? then By(!route.when, None) else route, q)
  {
  }
}
