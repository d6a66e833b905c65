/** Putting the value of a boolean expression in a register. */
module BoolCodeValue {
  import opened Common
  import opened BoolExpr
  import opened BoolCode
  import opened BoolCodeGen
  import opened BoolCodeRuns
  import opened BoolCodeCorrect

  /** The registers are the same, but for one. */
  ghost predicate AgreeBut(R: Regs, B: Regs, reg: int) {
    forall r: int :: r != reg ==> R[r] == B[r]
  }

  ghost predicate Unlocal(k: DKind) {
    !k.DLocal? && !k.DGlobal?
  }

  // ----------------------------------------------------------- the loading

  lemma Discharge2RegOk(s: State, d: Desc, n: int, reg: int)
    requires DescOk(s, d, n) && Unlocal(d.k)
    ensures var r := Discharge2Reg(s, d.k, reg);
            && StateOk(r) && Extends(s.code, r.code, s.jpc) && r.jpc <= s.jpc && r.free == s.free
            && ListOk(r.code, d.t) && ListOk(r.code, d.f) && (d.k.DJump? ==> r == s)
            && (LoadOf(d.k, reg).Some? ==> r.jpc == {})
  {
    var i := LoadOf(d.k, reg);
    hide CodeOk, Extends, ListOk, KindOk;
    if i.Some? {
      EmitOk(s, i.value);
      ExtendsList(s.code, Emit(s, i.value).code, s.jpc, d.t);
      ExtendsList(s.code, Emit(s, i.value).code, s.jpc, d.f);
    } else {
      ExtendsSelf(s.code);
      ExtendsMore(s.code, s.code, {}, s.jpc);
    }
  }

  /** A run that was at the end of the code has the value in the register. */
  ghost predicate LoadedIn(w: World, s: State, d: Desc, reg: int, r: State, p: Stop, q: Stop) {
    if d.k.DJump? || !AtEnd(s, p) then q == p
    else
      && AtEnd(r, q) && AgreeBut(q.R, p.R, reg) && q.R[reg] == KindValue(w, d.k, p.R)
      && (if LoadOf(d.k, reg).Some? then q.Fall? else q == p)
  }

  lemma Discharge2RegRuns(w: World, s: State, d: Desc, n: int, reg: int, pc: int, R: Regs)
    requires DescOk(s, d, n) && Unlocal(d.k) && Starts(s, pc)
    ensures var r := Discharge2Reg(s, d.k, reg);
            Starts(r, pc) && LoadedIn(w, s, d, reg, r, Exec(w, s.code, pc, R), Exec(w, r.code, pc, R))
  {
    var i := LoadOf(d.k, reg);
    if i.Some? {
      hide CodeOk, IsStart, ListOk, Exec, KindOk, KindValue;
      EmitRuns(w, s, i.value, pc, R);
      LoadedValue(w, d.k, reg, Exec(w, s.code, pc, R).R);
      hide LoadOf;
    } else {
      hide CodeOk, IsStart, ListOk, Exec, KindOk;
    }
  }

  // ------------------------------------------------- targets for the exits

  lemma LoadBoolsOk(reg: int)
    ensures CodeOk(LoadBools(reg))
  {
  }

  /** Enough room for the two loads at the end, when some jump needs them. */
  ghost predicate TargetsThere(s: State, reg: int, t: set<int>, f: set<int>) {
    (NeedValue(s.code, t) || NeedValue(s.code, f)) ==>
      && 2 <= |s.code| && s.code[|s.code| - 2] == LOADBOOL(reg, false, true)
      && s.code[|s.code| - 1] == LOADBOOL(reg, true, false)
      && IsStart(s.code, |s.code| - 2)
      && forall j :: j in t || j in f ==> j < |s.code| - 2
  }

  lemma SameNeed(code: seq<Instr>, r: seq<Instr>, list: set<int>, jpc: set<int>)
    requires Extends(code, r, jpc) && ListOk(code, list) && jpc !! list
    ensures NeedValue(r, list) <==> NeedValue(code, list)
  {
    if NeedValue(code, list) {
      var j :| j in list && 0 <= j < |code| && !Carries(code, j);
      assert Pending(code, j) && Pending(r, j);
    }
    if NeedValue(r, list) {
      var j :| j in list && 0 <= j < |r| && !Carries(r, j);
      assert Pending(code, j);
    }
  }

  lemma BoolsAppended(code: seq<Instr>, reg: int)
    requires CodeOk(code)
    ensures var r := code + LoadBools(reg);
            && CodeOk(r) && Extends(code, r, {}) && IsStart(r, |r| - 2)
            && r[|r| - 2] == LOADBOOL(reg, false, true) && r[|r| - 1] == LOADBOOL(reg, true, false)
  {
    LoadBoolsOk(reg);
    AppendExtends(code, LoadBools(reg));
    EndIsStart(code);
    AppendStart(code, LoadBools(reg), |code|);
  }

  lemma ExitTargetsOk(s: State, k: DKind, t: set<int>, f: set<int>, reg: int)
    requires StateOk(s) && ListOk(s.code, t) && ListOk(s.code, f) && s.jpc !! t && s.jpc !! f
    ensures var r := ExitTargets(s, k, t, f, reg);
            && StateOk(r) && Extends(s.code, r.code, {}) && r.free == s.free
            && ListOk(r.code, t) && ListOk(r.code, f) && r.jpc !! t && r.jpc !! f
            && (forall j :: j in r.jpc ==> j in s.jpc || j >= |s.code|)
            && TargetsThere(r, reg, t, f)
  {
    var r := ExitTargets(s, k, t, f, reg);
    if !NeedValue(s.code, t) && !NeedValue(s.code, f) {
      ExtendsSelf(s.code);
    } else {
      var s1, jpc := s.code, s.jpc;
      if !k.DJump? {
        JumpOk(s);
        s1, jpc := Jump(s).0.code, Jump(s).1;
      } else {
        ExtendsSelf(s.code);
      }
      hide CodeOk, IsStart, NeedValue;
      BoolsAppended(s1, reg);
      ListBelow(s.code, t);
      ListBelow(s.code, f);
      hide ListOk, Extends;
      ExtendsAgain(s.code, s1, r.code, {}, {}, {});
      ExtendsList(s1, r.code, {}, jpc);
      ExtendsList(s.code, r.code, {}, t);
      ExtendsList(s.code, r.code, {}, f);
    }
  }

  lemma LoadBoolRuns(w: World, code: seq<Instr>, pc: int, R: Regs)
    requires CodeOk(code) && IsStart(code, pc) && pc < |code| && code[pc].LOADBOOL?
    requires (if code[pc].skip then pc + 2 else pc + 1) == |code|
    ensures Exec(w, code, pc, R) == Fall(R[code[pc].a := VBool(code[pc].value)])
  {
  }

  /** Where a run falls into the targets: past them, or through the load of false. */
  ghost predicate Separated(k: DKind, reg: int, need: bool, s: State, r: State, p: Stop, q: Stop) {
    if !p.Fall? || !need then q == p
    else if k.DJump? then q == Fall(p.R[reg := VBool(false)])
    else q == Exit(|s.code|, p.R, None) && |s.code| in r.jpc
  }

  lemma ExitTargetsRuns(w: World, s: State, k: DKind, t: set<int>, f: set<int>, reg: int, pc: int, R: Regs)
    requires Starts(s, pc) && ListOk(s.code, t) && ListOk(s.code, f) && s.jpc !! t && s.jpc !! f
    ensures var r := ExitTargets(s, k, t, f, reg);
            Starts(r, pc) && s.jpc <= r.jpc &&
            Separated(k, reg, NeedValue(s.code, t) || NeedValue(s.code, f), s, r, Exec(w, s.code, pc, R),
                      Exec(w, r.code, pc, R))
  {
    ExitTargetsOk(s, k, t, f, reg);
    hide CodeOk, IsStart, NeedValue, Exec, ListOk;
    if NeedValue(s.code, t) || NeedValue(s.code, f) {
      BoolsAppended(s.code, reg);
      if k.DJump? {
        AppendRuns(w, s.code, LoadBools(reg), pc, R);
        var p := Exec(w, s.code, pc, R);
        if p.Fall? { LoadBoolRuns(w, s.code + LoadBools(reg), |s.code|, p.R); }
      } else {
        JumpOk(s);
        JumpRuns(w, s, pc, R);
        BoolsAppended(Jump(s).0.code, reg);
        AppendRuns(w, Jump(s).0.code, LoadBools(reg), pc, R);
      }
    }
  }

  // -------------------------------------------------------- patching exits

  /** What the patched exits lead to. */
  ghost function Settled(t: set<int>, f: set<int>, reg: int, p: Stop): Stop {
    if p.Exit? && (p.j in t || p.j in f) then
      Fall(p.R[reg := if p.carried.Some? then p.carried.value else VBool(p.j in t)])
    else p
  }

  lemma ExitTargetOk(s: State, reg: int, t: set<int>, f: set<int>, list: set<int>, target: int)
    requires StateOk(s) && TargetsThere(s, reg, t, f) && ListOk(s.code, list) && (list == t || list == f)
    requires target == |s.code| - 2 || target == |s.code| - 1
    ensures TargetsOk(s.code, list, |s.code|, target)
  {
    EndIsStart(s.code);
    forall j | j in list && Pending(s.code, j)
      ensures var x := if Carries(s.code, j) then |s.code| else target; j < x && IsStart(s.code, x)
    {
      if !Carries(s.code, j) {
        assert NeedValue(s.code, list);
        hide CodeOk;
      }
    }
  }

  /** A list patched for its values, and the jumps that stay unpatched. */
  lemma PatchListExtends(s: State, list: set<int>, target: int, reg: int, dtarget: int)
    requires StateOk(s) && ListOk(s.code, list) && TargetsOk(s.code, list, target, dtarget) && s.jpc !! list
    ensures var r := s.(code := PatchList(s.code, list, target, reg, dtarget));
            StateOk(r) && Extends(s.code, r.code, list)
  {
    var r := PatchList(s.code, list, target, reg, dtarget);
    PatchOk(s.code, list, target, reg, dtarget);
    hide CodeOk, IsStart, TargetsOk, Pending, Carries, PatchList;
    forall pc ensures IsStart(s.code, pc) ==> IsStart(r, pc) { PatchStart(s.code, list, target, reg, dtarget, pc); }
    forall j | Pending(s.code, j) && j !in list ensures Pending(r, j) && Carries(r, j) == Carries(s.code, j) {
      PatchPending(s.code, list, target, reg, dtarget, j);
    }
  }

  /** The instructions of the targets are not touched by the patches before them. */
  lemma TargetsStay(s: State, reg: int, t: set<int>, f: set<int>)
    requires StateOk(s) && TargetsThere(s, reg, t, f) && ListOk(s.code, t) && ListOk(s.code, f) && t !! f && s.jpc !! f
    requires TargetsOk(s.code, f, |s.code|, |s.code| - 2)
    ensures var r := s.(code := PatchList(s.code, f, |s.code|, reg, |s.code| - 2));
            TargetsThere(r, reg, t, {}) && StateOk(r) && ListOk(r.code, t)
            && (NeedValue(r.code, t) <==> NeedValue(s.code, t))
  {
    var n := |s.code|;
    var r := PatchList(s.code, f, n, reg, n - 2);
    hide CodeOk, ListOk, Extends, TargetsOk, NeedValue, PatchList, IsStart;
    PatchListExtends(s, f, n, reg, n - 2);
    ExtendsList(s.code, r, f, t);
    SameNeed(s.code, r, t, f);
    if NeedValue(s.code, t) {
      UntouchedInstr(s.code, f, n, reg, n - 2, n - 2);
      UntouchedInstr(s.code, f, n, reg, n - 2, n - 1);
      ExtendsStart(s.code, r, f, n - 2);
    }
    NeedsNothing(r);
  }

  lemma NeedsNothing(code: seq<Instr>)
    ensures !NeedValue(code, {})
  {
  }

  lemma ExtendsStart(code: seq<Instr>, r: seq<Instr>, list: set<int>, pc: int)
    requires Extends(code, r, list) && IsStart(code, pc)
    ensures IsStart(r, pc)
  {
  }

  lemma UntouchedInstr(code: seq<Instr>, list: set<int>, target: int, reg: int, dtarget: int, i: int)
    requires 0 <= i < |code| && i !in list && i + 1 !in list
    ensures PatchList(code, list, target, reg, dtarget)[i] == code[i]
  {
  }

  lemma PatchExitsOk(s: State, t: set<int>, f: set<int>, reg: int)
    requires StateOk(s) && TargetsThere(s, reg, t, f) && ListOk(s.code, t) && ListOk(s.code, f)
    requires t !! f && s.jpc !! t && s.jpc !! f
    ensures var r := PatchExits(s, t, f, reg);
            StateOk(r) && Extends(s.code, r.code, t + f) && r.jpc == s.jpc && r.free == s.free
  {
    var n := |s.code|;
    var mid := s.(code := PatchList(s.code, f, n, reg, n - 2));
    hide CodeOk, ListOk, Extends, TargetsOk, NeedValue, PatchList, TargetsThere;
    ExitTargetOk(s, reg, t, f, f, n - 2);
    PatchListExtends(s, f, n, reg, n - 2);
    TargetsStay(s, reg, t, f);
    ExitTargetOk(mid, reg, t, {}, t, n - 1);
    PatchListExtends(mid, t, n, reg, n - 1);
    ExtendsAgain(s.code, mid.code, PatchExits(s, t, f, reg).code, f, t, t + f);
  }

  lemma SettleRuns(w: World, s: State, list: set<int>, reg: int, dtarget: int, value: bool, pc: int, R: Regs)
    requires Starts(s, pc) && ListOk(s.code, list) && TargetsOk(s.code, list, |s.code|, dtarget) && s.jpc !! list
             && reg != NO_REG
    requires NeedValue(s.code, list) ==>
               && 0 <= dtarget < |s.code| && s.code[dtarget] == LOADBOOL(reg, value, !value)
               && (if value then dtarget + 1 else dtarget + 2) == |s.code| && IsStart(s.code, dtarget)
               && forall j :: j in list ==> j < dtarget
    ensures var r := s.(code := PatchList(s.code, list, |s.code|, reg, dtarget));
            Starts(r, pc) &&
            var p, q := Exec(w, s.code, pc, R), Exec(w, r.code, pc, R);
            q == if p.Exit? && p.j in list then Fall(p.R[reg := if p.carried.Some? then p.carried.value
                                                         else VBool(value)]) else p
  {
    var n := |s.code|;
    var r := PatchList(s.code, list, n, reg, dtarget);
    PatchListExtends(s, list, n, reg, dtarget);
    var p := Exec(w, s.code, pc, R);
    if p.Exit? && p.j in list && p.carried.None? {
      assert NeedValue(s.code, list);
      assert PatchedInstr(s.code, list, n, reg, dtarget, dtarget) == s.code[dtarget];
      PatchStart(s.code, list, n, reg, dtarget, dtarget);
      LoadBoolRuns(w, r, dtarget, p.R);
    }
    hide CodeOk, IsStart, ListOk, TargetsOk, NeedValue, PatchList, Extends;
    PatchRuns(w, s.code, list, n, reg, dtarget, pc, R);
  }

  lemma PatchExitsRuns(w: World, s: State, t: set<int>, f: set<int>, reg: int, pc: int, R: Regs)
    requires Starts(s, pc) && TargetsThere(s, reg, t, f) && ListOk(s.code, t) && ListOk(s.code, f)
    requires t !! f && s.jpc !! t && s.jpc !! f && reg != NO_REG
    ensures var r := PatchExits(s, t, f, reg);
            Starts(r, pc) && Exec(w, r.code, pc, R) == Settled(t, f, reg, Exec(w, s.code, pc, R))
  {
    var n := |s.code|;
    var mid := s.(code := PatchList(s.code, f, n, reg, n - 2));
    hide CodeOk, ListOk, TargetsOk, NeedValue, PatchList, Exec, Extends;
    ExitTargetOk(s, reg, t, f, f, n - 2);
    TargetsStay(s, reg, t, f);
    ExitTargetOk(mid, reg, t, {}, t, n - 1);
    assert NeedValue(mid.code, t) ==> IsStart(mid.code, n - 1);
    hide IsStart;
    PatchListExtends(s, f, n, reg, n - 2);
    ExtendsList(s.code, mid.code, f, s.jpc);
    SettleRuns(w, s, f, reg, n - 2, false, pc, R);
    SettleRuns(w, mid, t, reg, n - 1, true, pc, R);
  }

  // ---------------------------------------------------------- the register

  /** All exits of a descriptor, with the jump of its comparison. */
  lemma JumpListed(s: State, d: Desc, n: int)
    requires DescOk(s, d, n)
    ensures var t := WithJump(d.k, d.t);
            ListOk(s.code, t) && t !! d.f && s.jpc !! t && t + d.f + s.jpc == Mine(s, d)
  {
  }

  lemma Exp2RegOk(s: State, d: Desc, n: int, reg: int)
    requires DescOk(s, d, n) && Unlocal(d.k)
    ensures var r := Exp2Reg(s, d, reg);
            && StateOk(r) && Extends(s.code, r.code, Mine(s, d)) && r.free == s.free
            && (forall j :: j in r.jpc ==> j in s.jpc || j >= |s.code|)
  {
    var s1 := Discharge2Reg(s, d.k, reg);
    var t := WithJump(d.k, d.t);
    JumpListed(s, d, n);
    Discharge2RegOk(s, d, n, reg);
    hide CodeOk, ListOk, Extends, KindOk, Discharge2Reg;
    ExtendsList(s.code, s1.code, s.jpc, t);
    ExtendsMore(s.code, s1.code, s.jpc, Mine(s, d));
    if t != {} || d.f != {} {
      var s2 := ExitTargets(s1, d.k, t, d.f, reg);
      hide ExitTargets, TargetsThere, DescOk;
      ExitTargetsOk(s1, d.k, t, d.f, reg);
      PatchExitsOk(s2, t, d.f, reg);
      ExtendsAgain(s1.code, s2.code, PatchExits(s2, t, d.f, reg).code, {}, t + d.f, t + d.f);
      ExtendsAgain(s.code, s1.code, PatchExits(s2, t, d.f, reg).code, s.jpc, t + d.f, Mine(s, d));
    }
  }

  /** The value of the route is in the register, and nothing is on hold unless the
      register had it already. */
  ghost predicate ValueIn(r: State, d: Desc, reg: int, route: Route, p: Stop, q: Stop) {
    && AtEnd(r, q) && AgreeBut(q.R, p.R, reg) && q.R[reg] == Outcome(route)
    && (!(d.k.DReg? && d.k.r == reg) ==> Held(q) == None)
  }

  lemma Exp2RegRuns(w: World, s: State, d: Desc, n: int, reg: int, route: Route, pc: int, R: Regs)
    requires DescOk(s, d, n) && Unlocal(d.k) && Starts(s, pc) && reg != NO_REG
    ensures var r := Exp2Reg(s, d, reg);
            var p := Exec(w, s.code, pc, R);
            Starts(r, pc) &&
            var q := Exec(w, r.code, pc, R);
            && (!Inside(s, d, p) ==> q == p)
            && (Routed(w, s, d, route, p) ==> ValueIn(r, d, reg, route, p, q))
  {
    var s1 := Discharge2Reg(s, d.k, reg);
    var t := WithJump(d.k, d.t);
    hide CodeOk, IsStart, ListOk, Extends, KindOk, DescOk, Discharge2Reg, WithJump, Exec, Routed, ValueIn, LoadedIn,
      Inside, ExitTargets, PatchExits, Exp2Reg, Separated, Settled, NeedValue, Mine, LoadOf, Pending, Carries;
    JumpListed(s, d, n);
    Discharge2RegOk(s, d, n, reg);
    Discharge2RegRuns(w, s, d, n, reg, pc, R);
    LoadedLists(s, d, n, reg);
    SplitExp2Reg(s, d, reg);
    var p, p1 := Exec(w, s.code, pc, R), Exec(w, s1.code, pc, R);
    if t != {} || d.f != {} {
      var s2 := ExitTargets(s1, d.k, t, d.f, reg);
      var p2 := ExitsRun(w, s1, d.k, t, d.f, reg, pc, R);
      Settling(w, s, d, reg, s1, s2, t, route, NeedValue(s1.code, t) || NeedValue(s1.code, d.f), p, p1, p2);
      ValueSame(s2, Exp2Reg(s, d, reg), d, reg, route, p, Settled(t, d.f, reg, p2));
    } else {
      JustLoaded(w, s, d, reg, s1, route, p, p1);
    }
  }

  lemma LoadedLists(s: State, d: Desc, n: int, reg: int)
    requires DescOk(s, d, n) && Unlocal(d.k)
    ensures var s1 := Discharge2Reg(s, d.k, reg);
            var t := WithJump(d.k, d.t);
            && ListOk(s1.code, t) && ListOk(s1.code, d.f) && s1.jpc <= s.jpc && s.jpc !! t && s.jpc !! d.f && t !! d.f
            && s1.jpc !! t && s1.jpc !! d.f && (t == {} ==> !d.k.DJump? && d.t == {})
            && (d.k.DJump? ==> NeedValue(s1.code, t) && s.jpc == {})
  {
    var s1 := Discharge2Reg(s, d.k, reg);
    var t := WithJump(d.k, d.t);
    JumpListed(s, d, n);
    Discharge2RegOk(s, d, n, reg);
    CompareNeeds(s, d, t);
    hide CodeOk, ListOk, Extends, Discharge2Reg, NeedValue;
    ExtendsList(s.code, s1.code, s.jpc, t);
  }

  lemma SplitExp2Reg(s: State, d: Desc, reg: int)
    ensures var s1, t := Discharge2Reg(s, d.k, reg), WithJump(d.k, d.t);
            Exp2Reg(s, d, reg) == if t == {} && d.f == {} then s1
            else PatchExits(ExitTargets(s1, d.k, t, d.f, reg), t, d.f, reg)
  {
  }

  lemma ValueSame(s: State, r: State, d: Desc, reg: int, route: Route, p: Stop, q: Stop)
    requires s.jpc == r.jpc
    ensures ValueIn(s, d, reg, route, p, q) <==> ValueIn(r, d, reg, route, p, q)
  {
  }

  lemma ExitsRun(w: World, s: State, k: DKind, t: set<int>, f: set<int>, reg: int, pc: int, R: Regs) returns (p: Stop)
    requires Starts(s, pc) && ListOk(s.code, t) && ListOk(s.code, f) && t !! f && s.jpc !! t && s.jpc !! f
             && reg != NO_REG
    ensures var s2 := ExitTargets(s, k, t, f, reg);
            var r := PatchExits(s2, t, f, reg);
            && Starts(r, pc) && r.jpc == s2.jpc && s.jpc <= s2.jpc && s2.jpc !! t && s2.jpc !! f
            && Separated(k, reg, NeedValue(s.code, t) || NeedValue(s.code, f), s, s2, Exec(w, s.code, pc, R), p)
            && Exec(w, r.code, pc, R) == Settled(t, f, reg, p)
  {
    var s2 := ExitTargets(s, k, t, f, reg);
    hide CodeOk, ListOk, Extends, ExitTargets, TargetsThere, Separated, Exec, IsStart, NeedValue;
    ExitTargetsOk(s, k, t, f, reg);
    ExitTargetsRuns(w, s, k, t, f, reg, pc, R);
    PatchExitsRuns(w, s2, t, f, reg, pc, R);
    p := Exec(w, s2.code, pc, R);
  }

  /** The jump of a comparison carries no value. */
  lemma CompareNeeds(s: State, d: Desc, t: set<int>)
    requires t == WithJump(d.k, d.t) && (d.k.DJump? ==> 1 <= d.k.j < |s.code| && s.code[d.k.j - 1].COMPARE?)
    ensures d.k.DJump? ==> NeedValue(s.code, t)
  {
    if d.k.DJump? { assert !Carries(s.code, d.k.j); }
  }

  lemma JustLoaded(w: World, s: State, d: Desc, reg: int, s1: State, route: Route, p: Stop, q: Stop)
    requires LoadedIn(w, s, d, reg, s1, p, q) && Unlocal(d.k) && d.t == {} && d.f == {} && !d.k.DJump?
    ensures (!Inside(s, d, p) ==> q == p) && (Routed(w, s, d, route, p) ==> ValueIn(s1, d, reg, route, p, q))
  {
  }

  lemma Settling(w: World, s: State, d: Desc, reg: int, s1: State, s2: State, t: set<int>, route: Route, need: bool,
      p: Stop, p1: Stop, p2: Stop)
    requires LoadedIn(w, s, d, reg, s1, p, p1) && Unlocal(d.k) && t == WithJump(d.k, d.t) && t !! d.f
    requires s.jpc !! t && s.jpc !! d.f && s2.jpc !! t && s2.jpc !! d.f
    requires d.k.DJump? ==> need && s.jpc == {}
    requires Separated(d.k, reg, need, s1, s2, p1, p2) && s1.jpc <= s2.jpc
    ensures var q := Settled(t, d.f, reg, p2);
            (!Inside(s, d, p) ==> q == p) && (Routed(w, s, d, route, p) ==> ValueIn(s2, d, reg, route, p, q))
  {
    if !d.k.DJump? { LoadUnless(d.k, reg); }
    hide LoadOf, KindValue;
  }

  lemma LoadUnless(k: DKind, reg: int)
    requires Unlocal(k) && !k.DJump?
    ensures LoadOf(k, reg).Some? || k == DReg(reg)
  {
  }

  // ------------------------------------------------------------- operands

  lemma OutcomeDischarged(k: Kind, route: Route)
    ensures Outcome(AfterDischarge(k, route)) == Outcome(route)
  {
  }

  /** Jumps on hold were on hold before, or are new. */
  ghost predicate Recent(code: seq<Instr>, jpc: set<int>, list: set<int>) {
    forall j :: j in list ==> j in jpc || j >= |code|
  }

  /** The state and the descriptor for which the new register is filled. */
  ghost function NextRegState(s: State, d: Desc): (State, Desc) {
    var (s1, k) := DischargeVars(s, d.k);
    (s1.(free := s1.free + 1), d.(k := k))
  }

  lemma NextRegStart(s: State, d: Desc, n: int)
    requires DescOk(s, d, n)
    ensures var (s1, d1) := NextRegState(s, d);
            && DescOk(s1, d1, n) && Unlocal(d1.k) && s1.free == s.free + 1 && s1.jpc <= s.jpc && |s1.code| == |s.code|
            && Extends(s.code, s1.code, s.jpc) && Mine(s1, d1) <= Mine(s, d) && (d1.k.DReg? ==> d1.k.r < s.free)
            && s.free >= 0
            && Exp2NextReg(s, d, n) == (Exp2Reg(s1, d1, s.free), s.free)
  {
    var (s1, k) := DischargeVars(s, d.k);
    DischargeVarsOk(s, d, n);
    hide CodeOk, ListOk, Extends, Exp2Reg;
    assert d.(k := k).(k := k) == d.(k := k);
  }

  lemma Exp2NextRegOk(s: State, d: Desc, n: int)
    requires DescOk(s, d, n)
    ensures var (r, reg) := Exp2NextReg(s, d, n);
            && StateOk(r) && Extends(s.code, r.code, Mine(s, d)) && reg == s.free && r.free == s.free + 1
            && Recent(s.code, s.jpc, r.jpc)
  {
    NextRegStart(s, d, n);
    var (s1, d1) := NextRegState(s, d);
    hide CodeOk, ListOk, Extends, Exp2Reg, Exp2NextReg, NextRegState, DescOk, KindOk, Mine, StateOk;
    Exp2RegOk(s1, d1, n, s.free);
    MineHasHeld(s, d);
    ExtendsAgain(s.code, s1.code, Exp2Reg(s1, d1, s.free).code, s.jpc, Mine(s1, d1), Mine(s, d));
  }

  lemma MineHasHeld(s: State, d: Desc)
    ensures s.jpc <= Mine(s, d)
  {
  }

  /** The value of the route is in a register above those in use. */
  ghost predicate OperandIs(r: State, x: RK, free: int, held: Option<Value>, route: Route, p: Stop, q: Stop) {
    AtEnd(r, q) && Agree(q.R, p.R, free) && Operand(q.R, x) == Outcome(route) && Held(q) == held
  }

  lemma NextRegStarts(w: World, s: State, d: Desc, n: int, route: Route, pc: int, R: Regs)
    requires DescOk(s, d, n) && Starts(s, pc)
    ensures var (s1, d1) := NextRegState(s, d);
            var p := Exec(w, s.code, pc, R);
            Starts(s1, pc) &&
            var q := Exec(w, s1.code, pc, R);
            && q.R == p.R && (!Inside(s, d, p) ==> q == p && !Inside(s1, d1, q))
            && (Routed(w, s, d, route, p) ==> Routed(w, s1, d1, AfterDischarge(Abstract(d.k), route), q))
  {
    DischargeVarsOk(s, d, n);
    DischargeVarsRuns(w, s, d, n, route, pc, R);
    var (s1, k) := DischargeVars(s, d.k);
    var p, q := Exec(w, s.code, pc, R), Exec(w, s1.code, pc, R);
    hide Exec, CodeOk, ListOk, AfterDischarge, DischargeVars, Extends;
    RoutedSame(w, s1, s1.(free := s1.free + 1), d.(k := k), AfterDischarge(Abstract(d.k), route), q);
  }

  lemma Exp2NextRegRuns(w: World, s: State, d: Desc, n: int, route: Route, pc: int, R: Regs)
    requires DescOk(s, d, n) && Starts(s, pc)
    ensures var (r, reg) := Exp2NextReg(s, d, n);
            var p := Exec(w, s.code, pc, R);
            Starts(r, pc) &&
            var q := Exec(w, r.code, pc, R);
            && (!Inside(s, d, p) ==> q == p)
            && (Routed(w, s, d, route, p) ==> OperandIs(r, Reg(reg), s.free, None, route, p, q))
  {
    hide CodeOk, ListOk, Extends, Exp2Reg, Exec, Routed, Exp2NextReg, NextRegState, DescOk, Starts, AfterDischarge,
      Inside;
    NextRegStart(s, d, n);
    NextRegStarts(w, s, d, n, route, pc, R);
    var (s1, d1) := NextRegState(s, d);
    Exp2RegRuns(w, s1, d1, n, s.free, AfterDischarge(Abstract(d.k), route), pc, R);
    OutcomeDischarged(Abstract(d.k), route);
  }

  /** A value that the operand can stay where it is for: a constant or a local variable. */
  predicate InPlace(d: Desc) {
    !d.HasJumps() && (IsConstant(Abstract(d.k)) || Abstract(d.k) == KLocal)
  }

  lemma Exp2RKOk(s: State, d: Desc, n: int)
    requires DescOk(s, d, n)
    ensures var (r, x) := Exp2RK(s, d, n);
            && StateOk(r) && Extends(s.code, r.code, Mine(s, d)) && Recent(s.code, s.jpc, r.jpc)
            && (if InPlace(d) then r == s && (x.Reg? ==> 0 <= x.r < n) else x == Reg(s.free) && r.free == s.free + 1)
  {
    if InPlace(d) {
      hide CodeOk;
      ExtendsSelf(s.code);
      ExtendsMore(s.code, s.code, {}, Mine(s, d));
    } else {
      NotInPlace(s, d, n);
      hide CodeOk, Extends, ListOk, Exp2NextReg;
      Exp2NextRegOk(s, d, n);
    }
  }

  lemma NotInPlace(s: State, d: Desc, n: int)
    requires DescOk(s, d, n) && !InPlace(d)
    ensures var (r, reg) := Exp2NextReg(s, d, n); Exp2RK(s, d, n) == (r, Reg(reg))
  {
    var (s1, k) := DischargeVars(s, d.k);
    assert DischargeJpc(DischargeJpc(s)) == DischargeJpc(s) by {
      assert DischargeJpc(DischargeJpc(s)).code == DischargeJpc(s).code;
    }
    assert DischargeVars(s1, k) == (s1, k);
  }

  lemma Exp2RKRuns(w: World, s: State, d: Desc, n: int, route: Route, pc: int, R: Regs)
    requires DescOk(s, d, n) && Starts(s, pc)
    ensures var (r, x) := Exp2RK(s, d, n);
            var p := Exec(w, s.code, pc, R);
            Starts(r, pc) &&
            var q := Exec(w, r.code, pc, R);
            && (!Inside(s, d, p) ==> q == p)
            && (Routed(w, s, d, route, p) ==>
                  OperandIs(r, x, s.free, if route.End? && InPlace(d) then route.held else None, route, p, q))
  {
    if InPlace(d) {
      hide Exec, CodeOk, IsStart, ListOk;
    } else {
      NotInPlace(s, d, n);
      hide Exec, CodeOk, IsStart, ListOk, Exp2NextReg, Exp2RK, Routed, Inside, OperandIs, DescOk, Starts;
      Exp2NextRegRuns(w, s, d, n, route, pc, R);
    }
  }
}
