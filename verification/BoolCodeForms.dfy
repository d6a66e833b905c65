/** The code of each operator on local variables, instruction by instruction, and what the
    operators and the comparisons mean. */
module BoolCodeForms {
  import opened Common
  import opened BoolExpr
  import opened BoolCode
  import opened BoolCodeGen
  import opened BoolCompiler

  // ------------------------------------------------------------ the language

  /** Only nil and false count as false: `and` gives its left operand then and `or` its right
      one, and the other way round for any other value, zero and the empty string included. */
  lemma OperatorsMean(a: Expr, b: Expr, w: World)
    requires Scoped(a, |w.locals|) && Scoped(b, |w.locals|)
    ensures var x, y := Eval(a, w), Eval(b, w);
            if x == VNil || x == VBool(false)
            then Eval(And(a, b), w) == x && Eval(Or(a, b), w) == y && Eval(Not(a), w) == VBool(true)
            else Eval(And(a, b), w) == y && Eval(Or(a, b), w) == x && Eval(Not(a), w) == VBool(false)
  {
  }

  ghost predicate OrdersNumbers(w: World) {
    forall i: int, j: int :: (w.lt(VNum(i), VNum(j)) <==> i < j) && (w.le(VNum(i), VNum(j)) <==> i <= j)
  }

  /** Where the order of the world is that of numbers, every comparison is the one it says. */
  lemma ComparisonsMean(op: RelOp, i: int, j: int, w: World)
    requires OrdersNumbers(w)
    ensures var holds := match op
                         case OpEq => i == j case OpNe => i != j case OpLt => i < j case OpLe => i <= j
                         case OpGt => i > j case OpGe => i >= j;
            Scoped(Rel(op, Num(i), Num(j)), |w.locals|) && Eval(Rel(op, Num(i), Num(j)), w) == VBool(holds)
  {
    assert Scoped(Num(i), |w.locals|) && Scoped(Num(j), |w.locals|);
    assert w.lt(VNum(j), VNum(i)) <==> j < i;
  }

  // ------------------------------------------------------------ the programs

  /** A descriptor of a register with exits in a new state. */
  lemma Tested(x: int, n: int, cond: bool)
    requires 0 <= x < n
    ensures GoIf(Start(n), Desc(DLocal(x), {}, {}), n, cond) ==
            (State([TESTSET(NO_REG, x, !cond), JMP(NO_JUMP)], {}, n), {1})
  {
    var s := Start(n);
    assert DischargeJpc(s) == s;
    assert s.code + [TESTSET(NO_REG, x, !cond), JMP(NO_JUMP)] == [TESTSET(NO_REG, x, !cond), JMP(NO_JUMP)];
    var none: set<int> := {};
    var r := s.(code := [TESTSET(NO_REG, x, !cond), JMP(NO_JUMP)]);
    assert CondJump(s, TESTSET(NO_REG, x, !cond)) == (r, 1);
    assert GoIfJump(s, DReg(x), n, cond) == (r, {1});
    assert none + {1} == {1} && none + none == none;
    assert PatchToHere(r, none) == r;
  }

  lemma Moved(x: int, y: int, n: int, cond: bool, d: Desc)
    requires 0 <= x < n && 0 <= y < n
    requires d == if cond then Desc(DReg(y), {}, {1}) else Desc(DReg(y), {1}, {})
    ensures var s := State([TESTSET(NO_REG, x, !cond), JMP(NO_JUMP)], {}, n + 1);
            Exp2Reg(s, d, n) == State([TESTSET(n, x, !cond), JMP(1), MOVE(n, y)], {}, n + 1)
  {
    var s := State([TESTSET(NO_REG, x, !cond), JMP(NO_JUMP)], {}, n + 1);
    assert DischargeJpc(s) == s;
    var c := [TESTSET(NO_REG, x, !cond), JMP(NO_JUMP), MOVE(n, y)];
    assert s.code + [MOVE(n, y)] == c;
    assert Carries(c, 1);
    assert PatchList(c, {1}, 3, n, 1) == [TESTSET(n, x, !cond), JMP(1), MOVE(n, y)];
    assert PatchList(c, {}, 3, n, 1) == c;
    var r := [TESTSET(n, x, !cond), JMP(1), MOVE(n, y)];
    assert PatchList(r, {}, 3, n, 2) == r;
    assert PatchList(c, {1}, 3, n, 2) == r;
  }

  /** `x and y` and `x or y`: a test that keeps the left operand, and a move of the right one. */
  lemma ConnectiveForm(x: nat, y: nat, n: nat, e: Expr)
    requires x < n && y < n && (e == And(Local(x), Local(y)) || e == Or(Local(x), Local(y)))
    ensures Program(e, n) == [TESTSET(n, x, e.Or?), JMP(1), MOVE(n, y)]
  {
    var s, cond := Start(n), e.And?;
    Tested(x, n, cond);
    var s2 := State([TESTSET(NO_REG, x, !cond), JMP(NO_JUMP)], {}, n);
    UnfoldBoth(e, s, n);
    var d := if cond then Desc(DReg(y), {}, {1}) else Desc(DReg(y), {1}, {});
    assert {} + {1} == {1};
    assert Compile(e, s, n) == (s2, d) by { hide GoIf; }
    Moved(x, y, n, cond, d);
    hide Compile, GoIf, Exp2Reg;
    var r := State([TESTSET(n, x, !cond), JMP(1), MOVE(n, y)], {}, n + 1);
    assert CompileValue(e, s, n).0 == r;
    assert DischargeJpc(r) == r;
  }

  /** `not x`: one negation. */
  lemma NotForm(x: nat, n: nat)
    requires x < n
    ensures Program(Not(Local(x)), n) == [NOT(n, x)]
  {
    var s := Start(n);
    assert DischargeJpc(s) == s;
    assert WithoutValues([], {}) == [];
    assert Compile(Not(Local(x)), s, n) == (s, Desc(DNot(x), {}, {}));
    hide Compile;
    assert Program(Not(Local(x)), n) == [NOT(n, x)] by {
      var s1 := s.(free := n + 1);
      assert DischargeJpc(s1) == s1 && s.code + [NOT(n, x)] == [NOT(n, x)];
      var r := State([NOT(n, x)], {}, n + 1);
      assert Exp2Reg(s1, Desc(DNot(x), {}, {}), n) == r;
      assert DischargeJpc(r) == r;
    }
  }

  /** The comparison and its operands; the reversed ones are exchanged. */
  function Comparison(op: RelOp, x: int, y: int): Instr {
    match op
    case OpEq => COMPARE(EQ, true, Reg(x), Reg(y))
    case OpNe => COMPARE(EQ, false, Reg(x), Reg(y))
    case OpLt => COMPARE(LT, true, Reg(x), Reg(y))
    case OpLe => COMPARE(LE, true, Reg(x), Reg(y))
    case OpGt => COMPARE(LT, true, Reg(y), Reg(x))
    case OpGe => COMPARE(LE, true, Reg(y), Reg(x))
  }

  lemma Compared(op: RelOp, x: int, y: int, n: int)
    requires 0 <= x < n && 0 <= y < n
    ensures Compile(Rel(op, Local(x), Local(y)), Start(n), n) ==
            (State([Comparison(op, x, y), JMP(NO_JUMP)], {}, n), Desc(DJump(1), {}, {}))
  {
    var s, e := Start(n), Rel(op, Local(x), Local(y));
    assert DischargeJpc(s) == s;
    assert s.code + [Comparison(op, x, y), JMP(NO_JUMP)] == [Comparison(op, x, y), JMP(NO_JUMP)];
    assert Compare(s, op, Reg(x), Reg(y), n) ==
           (State([Comparison(op, x, y), JMP(NO_JUMP)], {}, n), Desc(DJump(1), {}, {}));
    UnfoldRel(e, s, n);
    assert Exp2RK(s, Desc(DLocal(x), {}, {}), n) == (s, Reg(x));
    assert Exp2RK(s, Desc(DLocal(y), {}, {}), n) == (s, Reg(y));
    hide Exp2RK, Compare;
  }

  lemma Chosen(i: Instr, n: int)
    requires i.COMPARE? && n >= 0
    ensures var s := State([i, JMP(NO_JUMP)], {}, n + 1);
            Exp2Reg(s, Desc(DJump(1), {}, {}), n) ==
            State([i, JMP(1), LOADBOOL(n, false, true), LOADBOOL(n, true, false)], {}, n + 1)
  {
    var s := State([i, JMP(NO_JUMP)], {}, n + 1);
    var none: set<int> := {};
    assert none + {1} == {1};
    assert 1 in {1} && !Carries(s.code, 1);
    var c := [i, JMP(NO_JUMP), LOADBOOL(n, false, true), LOADBOOL(n, true, false)];
    assert s.code + LoadBools(n) == c;
    assert PatchList(c, none, 4, n, 2) == c;
    assert !Carries(c, 1);
    assert PatchList(c, {1}, 4, n, 3) == [i, JMP(1), LOADBOOL(n, false, true), LOADBOOL(n, true, false)];
  }

  /** A comparison jumps over the load of false, which skips the load of true. */
  lemma ComparisonForm(op: RelOp, x: nat, y: nat, n: nat)
    requires x < n && y < n
    ensures Program(Rel(op, Local(x), Local(y)), n) ==
            [Comparison(op, x, y), JMP(1), LOADBOOL(n, false, true), LOADBOOL(n, true, false)]
  {
    var e, i := Rel(op, Local(x), Local(y)), Comparison(op, x, y);
    Compared(op, x, y, n);
    Chosen(i, n);
    hide Compile, Exp2Reg, Comparison;
    var r := State([i, JMP(1), LOADBOOL(n, false, true), LOADBOOL(n, true, false)], {}, n + 1);
    assert CompileValue(e, Start(n), n).0 == r;
    assert DischargeJpc(r) == r;
  }
}
