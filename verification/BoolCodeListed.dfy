/** Every unpatched jump is on one of the lists, so finished code has none. */
module BoolCodeListed {
  import opened BoolExpr
  import opened BoolCode
  import opened BoolCodeGen
  import opened BoolCodeRuns
  import opened BoolCodeCorrect
  import opened BoolCodeValue
  import opened BoolCompiler

  /** Of the lists `a` of the earlier code, unpatched jumps remain in the lists `b` of the
      later code, as do all new unpatched jumps. */
  ghost predicate Accounts(code: seq<Instr>, r: seq<Instr>, a: set<int>, b: set<int>) {
    forall j :: Pending(r, j) ==> j in b || (Pending(code, j) && j !in a)
  }

  lemma AccountsAgain(code: seq<Instr>, mid: seq<Instr>, r: seq<Instr>, a: set<int>, b: set<int>, a': set<int>,
      b': set<int>, a'': set<int>, b'': set<int>)
    requires Accounts(code, mid, a, b) && Accounts(mid, r, a', b')
    requires b' <= b'' && b - a' <= b'' && a'' <= a + a' + b''
    ensures Accounts(code, r, a'', b'')
  {
  }

  lemma NothingNew(code: seq<Instr>, a: set<int>)
    ensures Accounts(code, code, a, a)
  {
  }

  lemma DischargeAccounts(s: State)
    requires StateOk(s)
    ensures Accounts(s.code, DischargeJpc(s).code, s.jpc, {})
  {
    EndIsStart(s.code);
    PatchAccounts(s.code, s.jpc, |s.code|, NO_REG, |s.code|);
  }

  lemma PatchAccounts(code: seq<Instr>, list: set<int>, vtarget: int, reg: int, dtarget: int)
    requires CodeOk(code) && ListOk(code, list) && TargetsOk(code, list, vtarget, dtarget)
    ensures Accounts(code, PatchList(code, list, vtarget, reg, dtarget), list, {})
  {
    hide CodeOk, ListOk, TargetsOk, PatchList, Pending, Carries;
    forall j | Pending(PatchList(code, list, vtarget, reg, dtarget), j) ensures Pending(code, j) && j !in list {
      PatchPending(code, list, vtarget, reg, dtarget, j);
    }
  }

  lemma AppendAccounts(code: seq<Instr>, more: seq<Instr>, b: set<int>)
    requires forall i :: 0 <= i < |more| && more[i] == JMP(NO_JUMP) ==> |code| + i in b
    ensures Accounts(code, code + more, {}, b)
  {
    var r := code + more;
    forall j | Pending(r, j) && j >= |code| ensures j in b { assert more[j - |code|] == JMP(NO_JUMP); }
  }

  lemma EmitAccounts(s: State, i: Instr)
    requires StateOk(s) && IsLoad(i)
    ensures Accounts(s.code, Emit(s, i).code, s.jpc, {})
  {
    DischargeAccounts(s);
    AppendAccounts(DischargeJpc(s).code, [i], {});
    hide Accounts;
    AccountsAgain(s.code, DischargeJpc(s).code, Emit(s, i).code, s.jpc, {}, {}, {}, s.jpc, {});
  }

  lemma CondJumpAccounts(s: State, i: Instr)
    requires StateOk(s) && IsTest(i)
    ensures var (r, j) := CondJump(s, i); Accounts(s.code, r.code, s.jpc, {j})
  {
    var (r, j) := CondJump(s, i);
    DischargeAccounts(s);
    AppendAccounts(DischargeJpc(s).code, [i, JMP(NO_JUMP)], {j});
    hide Accounts;
    AccountsAgain(s.code, DischargeJpc(s).code, r.code, s.jpc, {}, {}, {j}, s.jpc, {j});
  }

  lemma JumpAccounts(s: State)
    ensures var (r, list) := Jump(s); Accounts(s.code, r.code, s.jpc, list)
  {
    AppendAccounts(s.code, [JMP(NO_JUMP)], {|s.code|});
  }

  lemma DischargeVarsAccounts(s: State, k: DKind)
    requires StateOk(s)
    ensures var (r, k') := DischargeVars(s, k); Accounts(s.code, r.code, s.jpc, r.jpc)
  {
    NothingNew(s.code, s.jpc);
    if k.DGlobal? { DischargeAccounts(s); }
  }

  lemma AnyRegAccounts(s: State, k: DKind)
    requires StateOk(s) && Unlocal(k) && !k.DJump?
    ensures var (r, reg) := Discharge2AnyReg(s, k); Accounts(s.code, r.code, s.jpc, r.jpc)
    ensures StateOk(Discharge2AnyReg(s, k).0)
  {
    NothingNew(s.code, s.jpc);
    if !k.DReg? {
      EmitAccounts(s, LoadOf(k, s.free).value);
      EmitOk(s, LoadOf(k, s.free).value);
      hide CodeOk;
    }
  }

  lemma GoIfJumpAccounts(s: State, k: DKind, n: int, cond: bool)
    requires StateOk(s) && KindOk(s, k, n) && Unlocal(k)
    ensures var (r, list) := GoIfJump(s, k, n, cond); Accounts(s.code, r.code, s.jpc, r.jpc + list)
  {
    hide CodeOk, ListOk;
    if NeverJumps(Abstract(k), cond) {
      NothingNew(s.code, s.jpc);
      assert s.jpc + {} == s.jpc;
    } else if AlwaysJumps(Abstract(k), cond) {
      JumpAccounts(s);
      assert {} + Jump(s).1 == Jump(s).1;
    } else if k.DJump? {
      CodeOfState(s);
      InvertOk(s.code, k.j);
    } else if k.DNot? {
      CondJumpAccounts(s, TEST(k.b, cond));
      assert {} + {CondJump(s, TEST(k.b, cond)).1} == {CondJump(s, TEST(k.b, cond)).1};
    } else {
      var (s1, reg) := Discharge2AnyReg(s, k);
      var s2 := FreeReg(s1, n, reg);
      var i := TESTSET(NO_REG, reg, !cond);
      AnyRegAccounts(s, k);
      SameCode(s1, s2);
      CondJumpAccounts(s2, i);
      var j := CondJump(s2, i).1;
      assert {} + {j} == {j};
      hide Accounts;
      AccountsAgain(s.code, s1.code, CondJump(s2, i).0.code, s.jpc, s1.jpc, s1.jpc, {j}, s.jpc, {j});
    }
  }

  lemma CodeOfState(s: State)
    requires StateOk(s)
    ensures CodeOk(s.code)
  {
  }

  lemma SameCode(s: State, r: State)
    requires StateOk(s) && s.code == r.code && s.jpc == r.jpc
    ensures StateOk(r)
  {
  }

  lemma GoIfAccounts(s: State, d: Desc, n: int, cond: bool)
    requires DescOk(s, d, n)
    ensures var (r, exits) := GoIf(s, d, n, cond); Accounts(s.code, r.code, Mine(s, d), r.jpc + exits)
  {
    var (s1, k) := DischargeVars(s, d.k);
    var (s2, list) := GoIfJump(s1, k, n, cond);
    var (r, exits) := GoIf(s, d, n, cond);
    DischargeVarsOk(s, d, n);
    DischargeVarsAccounts(s, d.k);
    GoIfJumpAccounts(s1, k, n, cond);
    if k.DJump? { JumpInList(s1, k, n, cond); }
    assert d.k.DJump? ==> k == d.k;
    hide Accounts, DischargeVars, GoIfJump, CodeOk, ListOk;
    AccountsAgain(s.code, s1.code, r.code, s.jpc, s1.jpc, s1.jpc, s2.jpc + list, Mine(s, d), r.jpc + exits);
  }

  /** The jump of a comparison stays on a list, or is where the code goes on. */
  lemma JumpInList(s: State, k: DKind, n: int, cond: bool)
    requires k.DJump? && 1 <= k.j < |s.code| && s.code[k.j - 1].COMPARE?
    ensures k.j in GoIfJump(s, k, n, cond).1
  {
  }

  lemma WithoutAccounts(code: seq<Instr>, list: set<int>)
    requires CodeOk(code)
    ensures Accounts(code, WithoutValues(code, list), {}, {}) && CodeOk(WithoutValues(code, list))
  {
    WithoutOk(code, list);
  }

  lemma NegateKindAccounts(s: State, k: DKind, n: int)
    requires StateOk(s) && KindOk(s, k, n) && Unlocal(k)
    ensures var (r, k') := NegateKind(s, k, n); Accounts(s.code, r.code, s.jpc, r.jpc)
  {
    hide CodeOk, ListOk;
    NothingNew(s.code, s.jpc);
    if k.DJump? {
      CodeOfState(s);
      InvertOk(s.code, k.j);
    } else if !IsConstant(Abstract(k)) {
      var (s1, reg) := Discharge2AnyReg(s, k);
      var s2 := FreeReg(s1, n, reg);
      AnyRegAccounts(s, k);
      SameCode(s1, s2);
      DischargeAccounts(s2);
      hide Accounts;
      AccountsAgain(s.code, s1.code, DischargeJpc(s2).code, s.jpc, s1.jpc, s1.jpc, {}, s.jpc, {});
    }
  }

  lemma NegateAccounts(s: State, d: Desc, n: int)
    requires DescOk(s, d, n)
    ensures var (r, d') := Negate(s, d, n); Accounts(s.code, r.code, Mine(s, d), Mine(r, d'))
  {
    var (s1, k) := DischargeVars(s, d.k);
    var (s2, k2) := NegateKind(s1, k, n);
    var mid := WithoutValues(s2.code, d.t);
    var (r, d') := Negate(s, d, n);
    DischargeVarsOk(s, d, n);
    DischargeVarsAccounts(s, d.k);
    NegateKindOk(s1, k, n);
    NegateKindAccounts(s1, k, n);
    CodeOfState(s2);
    WithoutAccounts(s2.code, d.t);
    WithoutAccounts(mid, d.f);
    assert d.k.DJump? ==> k2 == d.k;
    hide Accounts, DischargeVars, NegateKind, CodeOk, ListOk, WithoutValues, NegatedWell;
    AccountsAgain(s.code, s1.code, s2.code, s.jpc, s1.jpc, s1.jpc, s2.jpc, s.jpc, s2.jpc);
    AccountsAgain(s.code, s2.code, mid, s.jpc, s2.jpc, {}, {}, s.jpc, s2.jpc);
    AccountsAgain(s.code, mid, r.code, s.jpc, s2.jpc, {}, {}, Mine(s, d), Mine(r, d'));
  }

  lemma ExitTargetsAccounts(s: State, k: DKind, t: set<int>, f: set<int>, reg: int)
    requires k.DJump? ==> s.jpc == {}
    ensures var r := ExitTargets(s, k, t, f, reg); Accounts(s.code, r.code, s.jpc, r.jpc)
  {
    hide NeedValue;
    NothingNew(s.code, s.jpc);
    if NeedValue(s.code, t) || NeedValue(s.code, f) {
      if k.DJump? {
        AppendAccounts(s.code, LoadBools(reg), {});
      } else {
        var (s1, fj) := Jump(s);
        JumpAccounts(s);
        AppendAccounts(s1.code, LoadBools(reg), {});
        hide Accounts, Jump;
        AccountsAgain(s.code, s1.code, s1.code + LoadBools(reg), s.jpc, fj, {}, {}, s.jpc, fj);
      }
    }
  }

  lemma PatchExitsAccounts(s: State, t: set<int>, f: set<int>, reg: int)
    requires StateOk(s) && TargetsThere(s, reg, t, f) && ListOk(s.code, t) && ListOk(s.code, f)
    requires t !! f && s.jpc !! t && s.jpc !! f
    ensures Accounts(s.code, PatchExits(s, t, f, reg).code, t + f, {})
  {
    var n := |s.code|;
    var mid := s.(code := PatchList(s.code, f, n, reg, n - 2));
    hide CodeOk, ListOk, Extends, TargetsOk, NeedValue, PatchList, TargetsThere, Accounts;
    ExitTargetOk(s, reg, t, f, f, n - 2);
    TargetsStay(s, reg, t, f);
    ExitTargetOk(mid, reg, t, {}, t, n - 1);
    CodeOfState(s);
    CodeOfState(mid);
    PatchAccounts(s.code, f, n, reg, n - 2);
    PatchAccounts(mid.code, t, n, reg, n - 1);
    AccountsAgain(s.code, mid.code, PatchExits(s, t, f, reg).code, f, {}, t, {}, t + f, {});
  }

  lemma Exp2RegAccounts(s: State, d: Desc, n: int, reg: int)
    requires DescOk(s, d, n) && Unlocal(d.k)
    ensures var r := Exp2Reg(s, d, reg); Accounts(s.code, r.code, Mine(s, d), r.jpc)
  {
    var s1 := Discharge2Reg(s, d.k, reg);
    var t := WithJump(d.k, d.t);
    hide CodeOk, ListOk, Extends, KindOk, Accounts, Exp2Reg, ExitTargets, PatchExits;
    JumpListed(s, d, n);
    Discharge2RegOk(s, d, n, reg);
    LoadedLists(s, d, n, reg);
    SplitExp2Reg(s, d, reg);
    NothingNew(s.code, s.jpc);
    if LoadOf(d.k, reg).Some? { EmitAccounts(s, LoadOf(d.k, reg).value); }
    assert Accounts(s.code, s1.code, s.jpc, s1.jpc);
    hide Discharge2Reg, WithJump;
    if t != {} || d.f != {} {
      var s2 := ExitTargets(s1, d.k, t, d.f, reg);
      ExitTargetsOk(s1, d.k, t, d.f, reg);
      ExitTargetsAccounts(s1, d.k, t, d.f, reg);
      PatchExitsAccounts(s2, t, d.f, reg);
      PatchExitsOk(s2, t, d.f, reg);
      AccountsAgain(s.code, s1.code, s2.code, s.jpc, s1.jpc, s1.jpc, s2.jpc, s.jpc, s2.jpc);
      AccountsAgain(s.code, s2.code, PatchExits(s2, t, d.f, reg).code, s.jpc, s2.jpc, t + d.f, {}, Mine(s, d), s2.jpc);
    } else {
      AccountsAgain(s.code, s1.code, s1.code, s.jpc, s1.jpc, {}, {}, Mine(s, d), s1.jpc);
    }
  }

  lemma Exp2NextRegAccounts(s: State, d: Desc, n: int)
    requires DescOk(s, d, n)
    ensures var (r, reg) := Exp2NextReg(s, d, n); Accounts(s.code, r.code, Mine(s, d), r.jpc)
  {
    var (s1, d1) := NextRegState(s, d);
    DischargeVarsAccounts(s, d.k);
    hide CodeOk, ListOk, Extends, KindOk, Accounts, Exp2Reg, Exp2NextReg, DescOk, DischargeVars;
    NextRegStart(s, d, n);
    Exp2RegAccounts(s1, d1, n, s.free);
    MineDischarged(s, d);
    AccountsAgain(s.code, s1.code, Exp2Reg(s1, d1, s.free).code, s.jpc, s1.jpc, Mine(s1, d1),
                  Exp2Reg(s1, d1, s.free).jpc,
                  Mine(s, d), Exp2Reg(s1, d1, s.free).jpc);
  }

  lemma MineDischarged(s: State, d: Desc)
    ensures var (s1, d1) := NextRegState(s, d); Mine(s, d) <= s.jpc + Mine(s1, d1) && s1.jpc <= Mine(s1, d1)
  {
  }

  lemma Exp2RKAccounts(s: State, d: Desc, n: int)
    requires DescOk(s, d, n)
    ensures var (r, x) := Exp2RK(s, d, n); Accounts(s.code, r.code, Mine(s, d), r.jpc)
  {
    if InPlace(d) {
      NothingNew(s.code, s.jpc);
      assert Mine(s, d) == s.jpc;
    } else {
      NotInPlace(s, d, n);
      hide Exp2NextReg, Exp2RK, Accounts;
      Exp2NextRegAccounts(s, d, n);
    }
  }

  lemma JoinAccounts(s: State, d: Desc, n: int, exits: set<int>, cond: bool)
    requires DescOk(s, d, n)
    ensures var (r, d') := Join(s, d, exits, cond); Accounts(s.code, r.code, Mine(s, d) + exits, Mine(r, d'))
  {
    var (s1, k) := DischargeVars(s, d.k);
    DischargeVarsAccounts(s, d.k);
    var (r, d') := Join(s, d, exits, cond);
    assert d.k.DJump? ==> k == d.k;
    hide Accounts, DischargeVars;
    NothingNew(s1.code, {});
    AccountsAgain(s.code, s1.code, s1.code, s.jpc, s1.jpc, {}, {}, Mine(s, d) + exits, Mine(r, d'));
  }

  lemma CompareAccounts(s: State, op: RelOp, x: RK, y: RK, n: int)
    requires StateOk(s)
    ensures var (r, d) := Compare(s, op, x, y, n); Accounts(s.code, r.code, s.jpc, Mine(r, d))
  {
    var s1 := FreeOperand(FreeOperand(s, n, y), n, x);
    var i := CompareInstr(op, x, y);
    SameCode(s, s1);
    CondJumpAccounts(s1, i);
    var (r, d) := Compare(s, op, x, y, n);
    assert Mine(r, d) == {d.k.j};
  }

  lemma {:induction false} CompileAccounts(e: Expr, s: State, n: int)
    requires StateOk(s) && 0 <= n <= s.free && Scoped(e, n)
    ensures var (r, d) := Compile(e, s, n); Accounts(s.code, r.code, s.jpc, Mine(r, d))
    decreases e
  {
    var (r, d) := Compile(e, s, n);
    hide Compile, Compiled, GoIf, Exp2RK, Negate, Join, Compare, Accounts, CodeOk, ListOk, DescOk, Mine, LeftDone,
      OperandDone, HasExits, KindOf, NeverJumps;
    if e.And? || e.Or? {
      BothAccounts(e, s, n);
    } else if e.Not? {
      var (s1, d1) := Compile(e.e, s, n);
      CompileOk(e.e, s, n);
      CompiledDesc(e.e, s, n, s1, d1);
      CompileAccounts(e.e, s, n);
      UnfoldNot(e, s, n);
      NegateAccounts(s1, d1, n);
      AccountsAgain(s.code, s1.code, r.code, s.jpc, Mine(s1, d1), Mine(s1, d1), Mine(r, d), s.jpc, Mine(r, d));
    } else if e.Rel? {
      RelationAccounts(e, s, n);
    } else {
      LeafAccounts(e, s, n);
    }
  }

  lemma CompiledDesc(e: Expr, s: State, n: int, r: State, d: Desc)
    requires Compiled(e, s, n, r, d)
    ensures DescOk(r, d, n) && StateOk(r)
  {
    hide CodeOk;
  }

  lemma LeafAccounts(e: Expr, s: State, n: int)
    requires !e.And? && !e.Or? && !e.Not? && !e.Rel?
    ensures var (r, d) := Compile(e, s, n); Accounts(s.code, r.code, s.jpc, Mine(r, d))
  {
    NothingNew(s.code, s.jpc);
    var (r, d) := Compile(e, s, n);
    assert r == s && Mine(r, d) == s.jpc;
  }

  lemma BothAccounts(e: Expr, s: State, n: int)
    requires (e.And? || e.Or?) && StateOk(s) && 0 <= n <= s.free && Scoped(e, n)
    ensures var (r, d) := Compile(e, s, n); Accounts(s.code, r.code, s.jpc, Mine(r, d))
    decreases e, 0
  {
    var (s1, d1) := Compile(e.a, s, n);
    var (s2, exits) := GoIf(s1, d1, n, e.And?);
    var (s3, d2) := Compile(e.b, s2, n);
    var (r, d) := Compile(e, s, n);
    hide Compile, Compiled, GoIf, Join, Accounts, CodeOk, ListOk, DescOk, Mine, LeftDone, HasExits, KindOf, NeverJumps;
    CompileOk(e.a, s, n);
    CompiledDesc(e.a, s, n, s1, d1);
    CompileAccounts(e.a, s, n);
    GoIfAccounts(s1, d1, n, e.And?);
    LeftOk(e.a, s, n, s1, d1, e.And?);
    LeftState(s, n, s2, exits);
    CompileOk(e.b, s2, n);
    CompiledDesc(e.b, s2, n, s3, d2);
    CompileAccounts(e.b, s2, n);
    UnfoldBoth(e, s, n);
    JoinAccounts(s3, d2, n, exits, e.And?);
    JoinMine(s3, d2, exits, e.And?);
    AccountsAgain(s.code, s1.code, s2.code, s.jpc, Mine(s1, d1), Mine(s1, d1), s2.jpc + exits, s.jpc, s2.jpc + exits);
    AccountsAgain(s.code, s2.code, s3.code, s.jpc, s2.jpc + exits, s2.jpc, Mine(s3, d2), s.jpc, exits + Mine(s3, d2));
    AccountsAgain(s.code, s3.code, r.code, s.jpc, exits + Mine(s3, d2), Mine(s3, d2) + exits, Mine(r, d), s.jpc,
                  Mine(r, d));
  }

  lemma JoinMine(s: State, d: Desc, exits: set<int>, cond: bool)
    ensures var (r, d') := Join(s, d, exits, cond); exits <= Mine(r, d')
  {
  }

  lemma RelationAccounts(e: Expr, s: State, n: int)
    requires e.Rel? && StateOk(s) && 0 <= n <= s.free && Scoped(e, n)
    ensures var (r, d) := Compile(e, s, n); Accounts(s.code, r.code, s.jpc, Mine(r, d))
    decreases e, 0
  {
    var (s1, d1) := Compile(e.a, s, n);
    var (s2, x) := Exp2RK(s1, d1, n);
    var (s3, d2) := Compile(e.b, s2, n);
    var (s4, y) := Exp2RK(s3, d2, n);
    var (r, d) := Compile(e, s, n);
    hide Compile, Compiled, Exp2RK, Compare, Accounts, CodeOk, ListOk, DescOk, Mine, OperandDone, KindOf;
    CompileOk(e.a, s, n);
    CompiledDesc(e.a, s, n, s1, d1);
    CompileAccounts(e.a, s, n);
    Exp2RKAccounts(s1, d1, n);
    OperandOk(e.a, s, n, s1, d1);
    OperandState(e.a, d1, s, n, s2, x);
    CompileOk(e.b, s2, n);
    CompiledDesc(e.b, s2, n, s3, d2);
    CompileAccounts(e.b, s2, n);
    Exp2RKAccounts(s3, d2, n);
    OperandOk(e.b, s2, n, s3, d2);
    OperandState(e.b, d2, s2, n, s4, y);
    UnfoldRel(e, s, n);
    CompareAccounts(s4, e.op, x, y, n);
    AccountsAgain(s.code, s1.code, s2.code, s.jpc, Mine(s1, d1), Mine(s1, d1), s2.jpc, s.jpc, s2.jpc);
    AccountsAgain(s.code, s2.code, s3.code, s.jpc, s2.jpc, s2.jpc, Mine(s3, d2), s.jpc, Mine(s3, d2));
    AccountsAgain(s.code, s3.code, s4.code, s.jpc, Mine(s3, d2), Mine(s3, d2), s4.jpc, s.jpc, s4.jpc);
    AccountsAgain(s.code, s4.code, r.code, s.jpc, s4.jpc, s4.jpc, Mine(r, d), s.jpc, Mine(r, d));
  }

  /** The finished program has no unpatched jump. */
  lemma ProgramFinished(e: Expr, n: nat)
    requires Scoped(e, n)
    ensures forall j :: !Pending(Program(e, n), j)
  {
    var s := Start(n);
    var (s1, d) := Compile(e, s, n);
    var (r, reg) := Exp2NextReg(s1, d, n);
    hide Compile, Compiled, Exp2NextReg, CodeOk, ListOk, DescOk, Mine;
    NothingListed([]);
    assert StateOk(s) by { EmptyOk(n); }
    CompileOk(e, s, n);
    CompiledDesc(e, s, n, s1, d);
    CompileAccounts(e, s, n);
    Exp2NextRegAccounts(s1, d, n);
    Exp2NextRegOk(s1, d, n);
    DischargeAccounts(r);
    hide Accounts;
    AccountsAgain([], s1.code, r.code, {}, Mine(s1, d), Mine(s1, d), r.jpc, {}, r.jpc);
    AccountsAgain([], r.code, DischargeJpc(r).code, {}, r.jpc, r.jpc, {}, {}, {});
    NonePending(DischargeJpc(r).code);
  }

  lemma NonePending(code: seq<Instr>)
    requires Accounts([], code, {}, {})
    ensures forall j :: !Pending(code, j)
  {
  }

  lemma EmptyOk(n: int)
    ensures StateOk(Start(n))
  {
  }
}
