/** Whole boolean expressions: their code gives the outcome of their route. */
module BoolCompiler {
  import opened Common
  import opened BoolExpr
  import opened BoolCode
  import opened BoolCodeGen
  import opened BoolCodeRuns
  import opened BoolCodeCorrect
  import opened BoolCodeValue

  /** The code of an expression, and the descriptor of its value. */
  ghost function Compile(e: Expr, s: State, n: int): (r: (State, Desc))
    ensures CompareLast(r.0, r.1.k)
    decreases e, 1
  {
    match e
    case Nil => (s, Desc(DNil, {}, {}))
    case True => (s, Desc(DTrue, {}, {}))
    case False => (s, Desc(DFalse, {}, {}))
    case Num(x) => (s, Desc(DConst(VNum(x)), {}, {}))
    case Str(x) => (s, Desc(DConst(VStr(x)), {}, {}))
    case Local(x) => (s, Desc(DLocal(x), {}, {}))
    case Global(g) => (s, Desc(DGlobal(g), {}, {}))
    case Not(a) =>
      var (s1, d) := Compile(a, s, n);
      Negate(s1, d, n)
    case And(_, _) => CompileBoth(e, s, n)
    case Or(_, _) => CompileBoth(e, s, n)
    case Rel(op, a, b) =>
      var (s1, d1) := Compile(a, s, n);
      var (s2, x) := Exp2RK(s1, d1, n);
      var (s3, d2) := Compile(b, s2, n);
      var (s4, y) := Exp2RK(s3, d2, n);
      Compare(s4, op, x, y, n)
  }

  /** `and` goes on if the left operand is true, `or` if it is false. */
  ghost function CompileBoth(e: Expr, s: State, n: int): (r: (State, Desc))
    requires e.And? || e.Or?
    ensures CompareLast(r.0, r.1.k)
    decreases e, 0
  {
    var (s1, d1) := Compile(e.a, s, n);
    var (s2, exits) := GoIf(s1, d1, n, e.And?);
    var (s3, d2) := Compile(e.b, s2, n);
    Join(s3, d2, exits, e.And?)
  }

  ghost predicate CompareLast(s: State, k: DKind) {
    k.DJump? ==> 1 <= k.j < |s.code| && s.code[k.j - 1].COMPARE?
  }

  lemma UnfoldBoth(e: Expr, s: State, n: int)
    requires e.And? || e.Or?
    ensures var (s1, d1) := Compile(e.a, s, n);
            var (s2, exits) := GoIf(s1, d1, n, e.And?);
            var (s3, d2) := Compile(e.b, s2, n);
            Compile(e, s, n) == Join(s3, d2, exits, e.And?)
  {
    hide GoIf, Join;
  }

  lemma UnfoldNot(e: Expr, s: State, n: int)
    requires e.Not?
    ensures var (s1, d1) := Compile(e.e, s, n); Compile(e, s, n) == Negate(s1, d1, n)
  {
    hide Negate;
  }

  lemma UnfoldRel(e: Expr, s: State, n: int)
    requires e.Rel?
    ensures var (s1, d1) := Compile(e.a, s, n);
            var (s2, x) := Exp2RK(s1, d1, n);
            var (s3, d2) := Compile(e.b, s2, n);
            var (s4, y) := Exp2RK(s3, d2, n);
            Compile(e, s, n) == Compare(s4, e.op, x, y, n)
  {
    hide Exp2RK, Compare;
  }

  // -------------------------------------------------------- well-formed code

  /** What compiling an expression does to the code before it and its jumps. */
  ghost predicate Compiled(e: Expr, s: State, n: int, r: State, d: Desc) {
    && DescOk(r, d, n) && Extends(s.code, r.code, s.jpc) && r.free == s.free && |s.code| <= |r.code|
    && Abstract(d.k) == KindOf(e)
    && (d.t != {} <==> HasExits(e, true)) && (d.f != {} <==> HasExits(e, false))
    && Recent(s.code, s.jpc, Mine(r, d))
    && (d.k.DJump? ==> |s.code| <= d.k.j - 1)
  }

  lemma {:induction false} CompileOk(e: Expr, s: State, n: int)
    requires StateOk(s) && 0 <= n <= s.free && Scoped(e, n)
    ensures Compiled(e, s, n, Compile(e, s, n).0, Compile(e, s, n).1)
    decreases e
  {
    hide Compile, GoIf, Exp2RK, Compiled, LeftDone, OperandDone, NeverJumps, HasExits, KindOf;
    if e.And? || e.Or? {
      var (s1, d1) := Compile(e.a, s, n);
      var (s2, exits) := GoIf(s1, d1, n, e.And?);
      CompileOk(e.a, s, n);
      LeftOk(e.a, s, n, s1, d1, e.And?);
      LeftState(s, n, s2, exits);
      CompileOk(e.b, s2, n);
      UnfoldBoth(e, s, n);
      JoinCompiled(e, s, n, s2, exits, Compile(e.b, s2, n).0, Compile(e.b, s2, n).1);
    } else if e.Not? {
      CompileOk(e.e, s, n);
      NegationOk(e, s, n);
    } else if e.Rel? {
      var (s1, d1) := Compile(e.a, s, n);
      var (s2, x) := Exp2RK(s1, d1, n);
      CompileOk(e.a, s, n);
      OperandOk(e.a, s, n, s1, d1);
      OperandState(e.a, d1, s, n, s2, x);
      CompileOk(e.b, s2, n);
      OperandOk(e.b, s2, n, Compile(e.b, s2, n).0, Compile(e.b, s2, n).1);
      RelationOk(e, s, n);
    } else {
      LeafOk(e, s, n);
    }
  }

  lemma LeftState(s: State, n: int, r: State, exits: set<int>)
    requires LeftDone(s, n, r, exits)
    ensures StateOk(r) && r.free == s.free
  {
  }

  lemma OperandState(a: Expr, d: Desc, s: State, n: int, r: State, x: RK)
    requires OperandDone(a, d, s, n, r, x)
    ensures StateOk(r) && s.free <= r.free
  {
  }

  lemma LeafOk(e: Expr, s: State, n: int)
    requires StateOk(s) && 0 <= n <= s.free && Scoped(e, n)
    requires !e.And? && !e.Or? && !e.Not? && !e.Rel?
    ensures Compiled(e, s, n, Compile(e, s, n).0, Compile(e, s, n).1)
  {
    ExtendsSelf(s.code);
    NothingListed(s.code);
    hide CodeOk, Extends, ListOk;
    ExtendsMore(s.code, s.code, {}, s.jpc);
  }

  /** The state in which the right operand starts. */
  ghost predicate LeftDone(s: State, n: int, r: State, exits: set<int>) {
    && StateOk(r) && r.free == s.free && ListOk(r.code, exits) && r.jpc !! exits
    && Extends(s.code, r.code, s.jpc) && Recent(s.code, s.jpc, r.jpc) && Recent(s.code, s.jpc, exits)
  }

  lemma LeftOk(a: Expr, s: State, n: int, s1: State, d1: Desc, cond: bool)
    requires Compiled(a, s, n, s1, d1) && CompareLast(s1, d1.k)
    ensures var (r, exits) := GoIf(s1, d1, n, cond);
            LeftDone(s, n, r, exits) && (exits != {} <==> HasExits(a, !cond) || !NeverJumps(KindOf(a), cond))
  {
    var (r, exits) := GoIf(s1, d1, n, cond);
    hide GoIf, CodeOk, Extends, ListOk, DescOk, Mine;
    GoIfOk(s1, d1, n, cond);
    GoIfExits(s1, d1, n, cond);
    JpcMine(s1, d1);
    ExtendsLonger(s.code, s1.code, s.jpc);
    ExtendsAgain(s.code, s1.code, r.code, s.jpc, Mine(s1, d1), s.jpc);
  }

  lemma GoIfExits(s: State, d: Desc, n: int, cond: bool)
    requires CompareLast(s, d.k)
    ensures GoIf(s, d, n, cond).1 != {} <==> d.Exits(!cond) != {} || !NeverJumps(Abstract(d.k), cond)
  {
  }

  lemma JoinOk(s: State, d: Desc, n: int, exits: set<int>, cond: bool)
    requires DescOk(s, d, n) && ListOk(s.code, exits) && exits !! Mine(s, d)
    ensures var (r, d') := Join(s, d, exits, cond);
            && DescOk(r, d', n) && Extends(s.code, r.code, s.jpc) && r.free == s.free && |r.code| == |s.code|
            && Abstract(d'.k) == Discharged(Abstract(d.k)) && Mine(r, d') <= Mine(s, d) + exits
            && d'.Exits(cond) == d.Exits(cond) && d'.Exits(!cond) == d.Exits(!cond) + exits
            && (d'.k.DJump? ==> d'.k == d.k && r.code == s.code)
  {
    DischargeVarsOk(s, d, n);
    var (r, k) := DischargeVars(s, d.k);
    assert d.k.DJump? ==> r == s;
    hide DischargeVars, CodeOk, Extends, ListOk;
    ExtendsList(s.code, r.code, s.jpc, exits);
    ListUnion(r.code, d.Exits(!cond), exits);
  }

  lemma ExitsApart(s2: State, exits: set<int>, mine: set<int>)
    requires ListOk(s2.code, exits) && s2.jpc !! exits && Recent(s2.code, s2.jpc, mine)
    ensures exits !! mine
  {
    ListBelow(s2.code, exits);
    forall j | j in exits ensures j !in mine {}
  }

  lemma JoinCompiled(e: Expr, s: State, n: int, s2: State, exits: set<int>, s3: State, d2: Desc)
    requires e.And? || e.Or?
    requires LeftDone(s, n, s2, exits) && (exits != {} <==> HasExits(e.a, !e.And?) || !NeverJumps(KindOf(e.a), e.And?))
    requires Compiled(e.b, s2, n, s3, d2)
    ensures Compiled(e, s, n, Join(s3, d2, exits, e.And?).0, Join(s3, d2, exits, e.And?).1)
  {
    var (r, d) := Join(s3, d2, exits, e.And?);
    hide CodeOk, ListOk, KindOk, Extends, Mine, Join, DescOk, Abstract, NeverJumps;
    ExitsApart(s2, exits, Mine(s3, d2));
    ExtendsList(s2.code, s3.code, s2.jpc, exits);
    JoinOk(s3, d2, n, exits, e.And?);
    JpcMine(s3, d2);
    ExtendsLonger(s.code, s2.code, s.jpc);
    ExtendsAgain(s.code, s2.code, s3.code, s.jpc, s2.jpc, s.jpc);
    ExtendsAgain(s.code, s3.code, r.code, s.jpc, s3.jpc, s.jpc);
    assert DescOk(r, d, n);
    assert Extends(s.code, r.code, s.jpc) && r.free == s.free && |s.code| <= |r.code|;
    assert Abstract(d.k) == KindOf(e);
    assert d.t != {} <==> HasExits(e, true);
    assert d.f != {} <==> HasExits(e, false);
    assert Recent(s.code, s.jpc, Mine(r, d));
  }

  lemma JpcMine(s: State, d: Desc)
    ensures s.jpc <= Mine(s, d)
  {
  }

  lemma ExtendsLonger(code: seq<Instr>, r: seq<Instr>, list: set<int>)
    requires Extends(code, r, list)
    ensures |code| <= |r|
  {
  }

  lemma NegationOk(e: Expr, s: State, n: int)
    requires e.Not? && Compiled(e.e, s, n, Compile(e.e, s, n).0, Compile(e.e, s, n).1)
    ensures Compiled(e, s, n, Compile(e, s, n).0, Compile(e, s, n).1)
  {
    hide Compile, Negate, CodeOk, ListOk, KindOk, DescOk, Extends, Compiled, KindOf, HasExits;
    var (s1, d1) := Compile(e.e, s, n);
    var (r, d) := Negate(s1, d1, n);
    UnfoldNot(e, s, n);
    CompiledDesc(e.e, s, n, s1, d1);
    NegateOk(s1, d1, n);
    NegateJump(s1, d1, n);
    NegationCompiled(e, s, n, s1, d1, r, d);
  }

  lemma CompiledDesc(e: Expr, s: State, n: int, r: State, d: Desc)
    requires Compiled(e, s, n, r, d)
    ensures DescOk(r, d, n)
  {
    hide DescOk;
  }

  lemma NegationCompiled(e: Expr, s: State, n: int, s1: State, d1: Desc, r: State, d: Desc)
    requires e.Not? && Compiled(e.e, s, n, s1, d1) && DescOk(r, d, n) && r.free == s1.free
    requires Extends(s1.code, r.code, Mine(s1, d1)) && Abstract(d.k) == Negated(Discharged(Abstract(d1.k)))
    requires d.t == d1.f && d.f == d1.t && (forall j :: j in Mine(r, d) ==> j in Mine(s1, d1) || j >= |s1.code|)
    requires d.k.DJump? ==> d.k == d1.k
    ensures Compiled(e, s, n, r, d)
  {
    hide DescOk, Extends, Abstract;
    ExtendsLonger(s.code, s1.code, s.jpc);
    ExtendsLonger(s1.code, r.code, Mine(s1, d1));
    ExtendsAgain(s.code, s1.code, r.code, s.jpc, Mine(s1, d1), s.jpc);
  }

  lemma NegateJump(s: State, d: Desc, n: int)
    requires CompareLast(s, d.k)
    ensures Negate(s, d, n).1.k.DJump? ==> Negate(s, d, n).1.k == d.k
  {
  }

  /** The state after an operand is in place. */
  ghost predicate OperandDone(a: Expr, d: Desc, s: State, n: int, r: State, x: RK) {
    && StateOk(r) && Extends(s.code, r.code, s.jpc) && Recent(s.code, s.jpc, r.jpc)
    && (x.Reg? ==> (0 <= x.r < n && r.free == s.free) || (x.r == s.free && r.free == s.free + 1))
    && (x.Const? ==> r.free == s.free)
    && (InPlace(d) <==> !HasJumps(a) && (IsConstant(KindOf(a)) || KindOf(a) == KLocal))
  }

  lemma OperandOk(a: Expr, s: State, n: int, s1: State, d1: Desc)
    requires Compiled(a, s, n, s1, d1)
    ensures OperandDone(a, d1, s, n, Exp2RK(s1, d1, n).0, Exp2RK(s1, d1, n).1)
  {
    Exp2RKOk(s1, d1, n);
    var (r, x) := Exp2RK(s1, d1, n);
    hide Exp2RK, CodeOk, ListOk, KindOk, DescOk, Extends;
    ExtendsAgain(s.code, s1.code, r.code, s.jpc, Mine(s1, d1), s.jpc);
  }

  lemma FreeOperands(s: State, n: int, x: RK, y: RK, free: int)
    requires 0 <= n <= free
    requires x.Reg? ==> 0 <= x.r < n || x.r == free
    requires y.Reg? ==> 0 <= y.r < n || y.r == (if x.Reg? && x.r >= n then free + 1 else free)
    requires s.free == free + (if x.Reg? && x.r >= n then 1 else 0) + (if y.Reg? && y.r >= n then 1 else 0)
    ensures FreeOperand(FreeOperand(s, n, y), n, x) == s.(free := free)
  {
  }

  lemma CompareOk(s: State, op: RelOp, x: RK, y: RK, n: int, free: int)
    requires StateOk(s) && 0 <= n <= free && FreeOperand(FreeOperand(s, n, y), n, x) == s.(free := free)
    ensures var (r, d) := Compare(s, op, x, y, n);
            && DescOk(r, d, n) && Extends(s.code, r.code, s.jpc) && r.free == free && |s.code| <= |r.code|
            && d == Desc(DJump(|s.code| + 1), {}, {}) && r.jpc == {}
  {
    var i := CompareInstr(op, x, y);
    var s1 := s.(free := free);
    CondJumpOk(s1, i);
    var (r, j) := CondJump(s1, i);
    DischargeOk(s1);
    assert r.code[..j - 1] == DischargeJpc(s1).code;
    assert r.code[j] == JMP(NO_JUMP);
    NothingListed(r.code);
    hide CodeOk, Extends, ListOk;
  }

  lemma RelationOk(e: Expr, s: State, n: int)
    requires e.Rel? && 0 <= n <= s.free
    requires var (s1, d1) := Compile(e.a, s, n);
             var (s2, x) := Exp2RK(s1, d1, n);
             var (s3, d2) := Compile(e.b, s2, n);
             var (s4, y) := Exp2RK(s3, d2, n);
             OperandDone(e.a, d1, s, n, s2, x) && OperandDone(e.b, d2, s2, n, s4, y)
    ensures Compiled(e, s, n, Compile(e, s, n).0, Compile(e, s, n).1)
  {
    var (s1, d1) := Compile(e.a, s, n);
    var (s2, x) := Exp2RK(s1, d1, n);
    var (s3, d2) := Compile(e.b, s2, n);
    var (s4, y) := Exp2RK(s3, d2, n);
    var (r, d) := Compare(s4, e.op, x, y, n);
    hide Compile, CodeOk, ListOk, Extends, Exp2RK, Compare, FreeOperand, CompareInstr;
    UnfoldRel(e, s, n);
    FreeOperands(s4, n, x, y, s.free);
    CompareOk(s4, e.op, x, y, n, s.free);
    ExtendsAgain(s.code, s2.code, s4.code, s.jpc, s2.jpc, s.jpc);
    ExtendsAgain(s.code, s4.code, r.code, s.jpc, s4.jpc, s.jpc);
  }

  // ---------------------------------------------------------------- the route

  ghost predicate EnvOk(w: World, R: Regs) {
    forall r :: 0 <= r < |w.locals| ==> R[r] == w.locals[r]
  }

  /** A run that comes to the start of an expression's code takes its route. */
  ghost predicate Follows(w: World, e: Expr, s: State, r: State, d: Desc, p: Stop, q: Stop)
    requires Scoped(e, |w.locals|)
  {
    && (!AtEnd(s, p) ==> q == p)
    && (AtEnd(s, p) && EnvOk(w, p.R) ==> Agree(q.R, p.R, s.free) && Routed(w, r, d, Run(e, w, Held(p)), q))
  }

  ghost predicate RunsOn(w: World, e: Expr, s: State, r: State, d: Desc, pc: int, R: Regs) {
    Scoped(e, |w.locals|) && Starts(s, pc) && Starts(r, pc)
    && Follows(w, e, s, r, d, Exec(w, s.code, pc, R), Exec(w, r.code, pc, R))
  }

  lemma CompiledStarts(e: Expr, s: State, n: int, r: State, d: Desc, pc: int)
    requires Compiled(e, s, n, r, d) && Starts(s, pc)
    ensures StartsBefore(r, d.k, pc)
  {
    hide CodeOk;
  }

  lemma {:induction false} CompileRuns(w: World, e: Expr, s: State, n: int, pc: int, R: Regs)
    requires Starts(s, pc) && 0 <= n == |w.locals| <= s.free && Scoped(e, n)
    ensures var (r, d) := Compile(e, s, n);
            RunsOn(w, e, s, r, d, pc, R)
    decreases e, 1
  {
    hide Compile, GoIf, Exec, CodeOk, ListOk, DescOk, Compiled, Follows, WentOn, LeftDone, Routed, Run;
    if e.And? || e.Or? {
      BothFollow(w, e, s, n, pc, R);
    } else if e.Not? {
      CompileOk(e.e, s, n);
      CompileRuns(w, e.e, s, n, pc, R);
      CompiledStarts(e.e, s, n, Compile(e.e, s, n).0, Compile(e.e, s, n).1, pc);
      NegationRuns(w, e, s, n, pc, R);
    } else if e.Rel? {
      RelationRuns(w, e, s, n, pc, R);
    } else {
      LeafRuns(w, e, s, n, pc, R);
    }
  }

  lemma BothFollow(w: World, e: Expr, s: State, n: int, pc: int, R: Regs)
    requires (e.And? || e.Or?) && Starts(s, pc) && 0 <= n == |w.locals| <= s.free && Scoped(e, n)
    ensures var (r, d) := Compile(e, s, n);
            RunsOn(w, e, s, r, d, pc, R)
    decreases e, 0
  {
    hide Compile, GoIf, Join, Exec, CodeOk, ListOk, DescOk, Compiled, Follows, WentOn, LeftDone, Routed, Run, Extends;
    var (s1, d1) := Compile(e.a, s, n);
    var (s2, exits) := GoIf(s1, d1, n, e.And?);
    CompileOk(e.a, s, n);
    CompileRuns(w, e.a, s, n, pc, R);
    CompiledStarts(e.a, s, n, s1, d1, pc);
    LeftOk(e.a, s, n, s1, d1, e.And?);
    LeftRuns(w, e.a, s, n, s1, d1, e.And?, pc, R);
    LeftState(s, n, s2, exits);
    CompileOk(e.b, s2, n);
    CompileRuns(w, e.b, s2, n, pc, R);
    UnfoldBoth(e, s, n);
    JoinRuns(w, e, s, n, s2, exits, Compile(e.b, s2, n).0, Compile(e.b, s2, n).1, pc, R);
  }

  lemma LeafRuns(w: World, e: Expr, s: State, n: int, pc: int, R: Regs)
    requires Starts(s, pc) && 0 <= n == |w.locals| <= s.free && Scoped(e, n)
    requires !e.And? && !e.Or? && !e.Not? && !e.Rel?
    ensures var (r, d) := Compile(e, s, n);
            RunsOn(w, e, s, r, d, pc, R)
  {
    hide Exec, CodeOk, IsStart, ListOk;
  }

  /** Where the runs are when the right operand starts. */
  ghost predicate WentOn(w: World, a: Expr, s: State, r: State, exits: set<int>, cond: bool, p: Stop, q: Stop)
    requires Scoped(a, |w.locals|)
  {
    && (!AtEnd(s, p) ==> q == p)
    && (AtEnd(s, p) && EnvOk(w, p.R) ==>
          Agree(q.R, p.R, s.free) && Leads(r, exits, Continue(KindOf(a), Run(a, w, Held(p)), cond), cond, q))
  }

  ghost predicate WentOnFrom(w: World, a: Expr, s: State, r: State, exits: set<int>, cond: bool, pc: int, R: Regs) {
    && Scoped(a, |w.locals|) && Starts(s, pc) && Starts(r, pc)
    && WentOn(w, a, s, r, exits, cond, Exec(w, s.code, pc, R), Exec(w, r.code, pc, R))
  }

  ghost predicate LeftFrom(w: World, a: Expr, s: State, s1: State, d1: Desc, n: int, cond: bool, pc: int, R: Regs) {
    CompareLast(s1, d1.k) && var (r, exits) := GoIf(s1, d1, n, cond);
    WentOnFrom(w, a, s, r, exits, cond, pc, R)
  }

  lemma LeftRuns(w: World, a: Expr, s: State, n: int, s1: State, d1: Desc, cond: bool, pc: int, R: Regs)
    requires CompareLast(s1, d1.k)
    requires Starts(s, pc) && Scoped(a, |w.locals|) && Compiled(a, s, n, s1, d1)
    requires StartsBefore(s1, d1.k, pc) && RunsOn(w, a, s, s1, d1, pc, R)
    ensures LeftFrom(w, a, s, s1, d1, n, cond, pc, R)
  {
    var p, p1 := Exec(w, s.code, pc, R), Exec(w, s1.code, pc, R);
    var route := Run(a, w, Held(p));
    hide CodeOk, IsStart, Exec, Extends, ListOk, GoIf, DescOk, Inside, Routed, Leads, Continue, Run, KindOf, Mine;
    if !AtEnd(s, p) { OutsideStays(s, n, s1, d1, a, p); }
    GoIfRuns(w, s1, d1, n, cond, route, pc, R);
  }

  /** A run that stopped at an earlier jump is outside an expression's code. */
  lemma OutsideStays(s: State, n: int, r: State, d: Desc, e: Expr, p: Stop)
    requires Compiled(e, s, n, r, d) && !AtEnd(s, p) && p.j < |s.code|
    ensures !Inside(r, d, p)
  {
    hide CodeOk, DescOk, Extends;
  }

  lemma JoinRuns(w: World, e: Expr, s: State, n: int, s2: State, exits: set<int>, s3: State, d2: Desc, pc: int, R: Regs)
    requires (e.And? || e.Or?) && Scoped(e, |w.locals|) && 0 <= n == |w.locals| <= s.free
    requires Starts(s, pc) && Starts(s2, pc) && Starts(s3, pc)
    requires LeftDone(s, n, s2, exits) && Compiled(e.b, s2, n, s3, d2)
    requires WentOnFrom(w, e.a, s, s2, exits, e.And?, pc, R)
    requires RunsOn(w, e.b, s2, s3, d2, pc, R)
    ensures var (r, d) := Join(s3, d2, exits, e.And?);
            RunsOn(w, e, s, r, d, pc, R)
  {
    var p, p2, p3 := Exec(w, s.code, pc, R), Exec(w, s2.code, pc, R), Exec(w, s3.code, pc, R);
    var (r, d) := Join(s3, d2, exits, e.And?);
    var (r1, k) := DischargeVars(s3, d2.k);
    var route2 := if AtEnd(s2, p2) then Run(e.b, w, Held(p2)) else By(true, None);
    DischargeVarsRuns(w, s3, d2, n, route2, pc, R);
    assert r == r1;
    var q := Exec(w, r.code, pc, R);
    hide CodeOk, IsStart, Exec, Extends, ListOk, DescOk, DischargeVars, Inside, Routed, Leads, Continue, KindOf,
      Abstract, AfterDischarge, Mine;
    if !AtEnd(s2, p2) { OutsideStays(s2, n, s3, d2, e.b, p2); }
    if AtEnd(s, p) && EnvOk(w, p.R) {
      var c := Continue(KindOf(e.a), Run(e.a, w, Held(p)), e.And?);
      var route := Run(e, w, Held(p));
      AgreeEnv(w, p2.R, p.R, s.free);
      RouteOfBoth(e, w, Held(p));
      if c.Leaves? {
        LeadsOut(w, s2, exits, r, d2, k, c, e.And?, p2, p3, q);
      } else {
        LeadsIn(s2, exits, c, e.And?, p2);
        RoutedJoined(w, r, d2.(k := k), exits, e.And?, AfterDischarge(KindOf(e.b), route2), q);
      }
    } else if !AtEnd(s, p) {
      NotAtEndAgain(s, n, s2, exits, p);
      OutsideStays(s2, n, s3, d2, e.b, p);
    }
  }

  lemma RouteOfBoth(e: Expr, w: World, held: Option<Value>)
    requires (e.And? || e.Or?) && Scoped(e, |w.locals|)
    ensures var c := Continue(KindOf(e.a), Run(e.a, w, held), e.And?);
            Run(e, w, held) == if c.Leaves? then c.r else AfterDischarge(KindOf(e.b), Run(e.b, w, c.held))
  {
  }

  lemma AgreeEnv(w: World, R: Regs, B: Regs, free: int)
    requires Agree(R, B, free) && |w.locals| <= free && EnvOk(w, B)
    ensures EnvOk(w, R)
  {
  }

  lemma NotAtEndAgain(s: State, n: int, r: State, exits: set<int>, p: Stop)
    requires LeftDone(s, n, r, exits) && !AtEnd(s, p) && p.j < |s.code|
    ensures !AtEnd(r, p) && |s.code| <= |r.code|
  {
    hide CodeOk, ListOk;
  }

  lemma LeadsOut(w: World, s2: State, exits: set<int>, r: State, d2: Desc, k: DKind, c: Continuation, cond: bool,
      p2: Stop, p3: Stop, q: Stop)
    requires c.Leaves? && Leads(s2, exits, c, cond, p2) && s2.jpc !! exits && (!AtEnd(s2, p2) ==> q == p2)
    ensures Routed(w, r, if cond then Desc(k, d2.t, d2.f + exits) else Desc(k, d2.t + exits, d2.f), c.r, q) && q == p2
  {
  }

  lemma LeadsIn(s2: State, exits: set<int>, c: Continuation, cond: bool, p2: Stop)
    requires c.Enters? && Leads(s2, exits, c, cond, p2)
    ensures AtEnd(s2, p2) && Held(p2) == c.held
  {
  }

  lemma RoutedJoined(w: World, r: State, d: Desc, exits: set<int>, cond: bool, route: Route, q: Stop)
    requires Routed(w, r, d, route, q)
    ensures Routed(w, r, if cond then Desc(d.k, d.t, d.f + exits) else Desc(d.k, d.t + exits, d.f), route, q)
  {
  }

  lemma NegationRuns(w: World, e: Expr, s: State, n: int, pc: int, R: Regs)
    requires e.Not? && Scoped(e, |w.locals|) && Starts(s, pc) && 0 <= n == |w.locals| <= s.free
    requires var (s1, d1) := Compile(e.e, s, n);
             Compiled(e.e, s, n, s1, d1) && StartsBefore(s1, d1.k, pc) &&
             RunsOn(w, e.e, s, s1, d1, pc, R)
    ensures var (r, d) := Compile(e, s, n);
            RunsOn(w, e, s, r, d, pc, R)
  {
    var (s1, d1) := Compile(e.e, s, n);
    var p := Exec(w, s.code, pc, R);
    var route := Run(e.e, w, Held(p));
    assert Run(e, w, Held(p)) == NegatedRoute(KindOf(e.e), route) by { hide Compile, Exec; }
    UnfoldNot(e, s, n);
    hide Compile, CodeOk, IsStart, Exec, Extends, ListOk, DescOk, Negate, Inside, Routed, KindOf, Abstract, Mine, Run,
      NegatedRoute;
    if !AtEnd(s, p) { OutsideStays(s, n, s1, d1, e.e, p); }
    NegateRuns(w, s1, d1, n, route, pc, R);
  }

  // ------------------------------------------------------------- comparisons

  /** A run that comes to the start of an operand's code has its value in place. */
  ghost predicate Placed(w: World, a: Expr, s: State, r: State, x: RK, p: Stop, q: Stop)
    requires Scoped(a, |w.locals|)
  {
    && (!AtEnd(s, p) ==> q == p)
    && (AtEnd(s, p) && EnvOk(w, p.R) ==>
          var route := Run(a, w, Held(p));
          OperandIs(r, x, s.free, HeldByOperand(a, route), route, p, q))
  }

  lemma OperandRuns(w: World, a: Expr, s: State, n: int, s1: State, d1: Desc, pc: int, R: Regs)
    requires Starts(s, pc) && Scoped(a, |w.locals|) && Compiled(a, s, n, s1, d1) && Starts(s1, pc)
    requires RunsOn(w, a, s, s1, d1, pc, R)
    ensures var (r, x) := Exp2RK(s1, d1, n);
            Starts(r, pc) && Placed(w, a, s, r, x, Exec(w, s.code, pc, R), Exec(w, r.code, pc, R))
  {
    var p, p1 := Exec(w, s.code, pc, R), Exec(w, s1.code, pc, R);
    var route := Run(a, w, Held(p));
    OperandOk(a, s, n, s1, d1);
    hide CodeOk, IsStart, Exec, Extends, ListOk, Exp2RK, DescOk, Inside, Routed, Run, KindOf, Mine, InPlace, HasJumps;
    if !AtEnd(s, p) { OutsideStays(s, n, s1, d1, a, p); }
    Exp2RKRuns(w, s1, d1, n, route, pc, R);
  }

  lemma RelationRuns(w: World, e: Expr, s: State, n: int, pc: int, R: Regs)
    requires e.Rel? && Starts(s, pc) && 0 <= n == |w.locals| <= s.free && Scoped(e, n)
    ensures var (r, d) := Compile(e, s, n);
            RunsOn(w, e, s, r, d, pc, R)
    decreases e, 0
  {
    var (s1, d1) := Compile(e.a, s, n);
    var (s2, x) := Exp2RK(s1, d1, n);
    var (s3, d2) := Compile(e.b, s2, n);
    var (s4, y) := Exp2RK(s3, d2, n);
    hide Compile, Exp2RK, CodeOk, IsStart, Exec, Extends, ListOk, DescOk, Compiled, Follows, Placed, Compare, Run;
    CompileOk(e.a, s, n);
    CompileRuns(w, e.a, s, n, pc, R);
    OperandOk(e.a, s, n, s1, d1);
    OperandRuns(w, e.a, s, n, s1, d1, pc, R);
    CompileOk(e.b, s2, n);
    CompileRuns(w, e.b, s2, n, pc, R);
    OperandOk(e.b, s2, n, s3, d2);
    OperandRuns(w, e.b, s2, n, s3, d2, pc, R);
    UnfoldRel(e, s, n);
    ComparedRuns(w, e, s, n, d1, s2, x, d2, s4, y, pc, R);
  }

  lemma TakenWhen(w: World, op: RelOp, x: RK, y: RK, R: Regs)
    ensures Taken(w, CompareInstr(op, x, y), R) <==> w.Relate(op, Operand(R, x), Operand(R, y))
  {
  }

  lemma SameOperand(x: RK, free: int, R: Regs, B: Regs)
    requires Agree(R, B, free) && (x.Reg? ==> 0 <= x.r < free)
    ensures Operand(R, x) == Operand(B, x)
  {
  }

  lemma ComparedRuns(w: World, e: Expr, s: State, n: int, d1: Desc, s2: State, x: RK, d2: Desc, s4: State, y: RK,
      pc: int, R: Regs)
    requires e.Rel? && Scoped(e, |w.locals|) && 0 <= n == |w.locals| <= s.free && Starts(s, pc) && Starts(s2, pc)
             && Starts(s4, pc)
    requires OperandDone(e.a, d1, s, n, s2, x) && OperandDone(e.b, d2, s2, n, s4, y)
    requires Placed(w, e.a, s, s2, x, Exec(w, s.code, pc, R), Exec(w, s2.code, pc, R))
    requires Placed(w, e.b, s2, s4, y, Exec(w, s2.code, pc, R), Exec(w, s4.code, pc, R))
    ensures var (r, d) := Compare(s4, e.op, x, y, n);
            RunsOn(w, e, s, r, d, pc, R)
  {
    var p, p2, p4 := Exec(w, s.code, pc, R), Exec(w, s2.code, pc, R), Exec(w, s4.code, pc, R);
    var i := CompareInstr(e.op, x, y);
    var s5 := s4.(free := s.free);
    var (r, d) := Compare(s4, e.op, x, y, n);
    hide CodeOk, IsStart, Exec, Extends, ListOk, Compare, CondJump, CompareInstr, KindOf, InPlace, HasJumps, Run,
      Placed, Follows, Taken, CarriedBy, EnvOk;
    CompareIs(s4, e.op, x, y, n, s.free);
    IsCompare(e.op, x, y);
    CondJumpRuns(w, s5, i, pc, R);
    StopsWithin(w, s.code, pc, R);
    var q := Exec(w, r.code, pc, R);
    if AtEnd(s, p) {
      ComparedAtEnd(w, e, s, n, d1, s2, x, d2, s4, y, r, d.k.j, p, p2, p4, q);
    } else {
      NotAtEndOperands(e, s, n, d1, s2, x, d2, s4, y, p);
      ComparedElsewhere(w, e, s, s2, x, s4, y, r, d, p, p2, p4, q);
    }
  }

  lemma IsCompare(op: RelOp, x: RK, y: RK)
    ensures CompareInstr(op, x, y).COMPARE? && IsTest(CompareInstr(op, x, y))
  {
  }

  /** A run that stops at a jump stops within the code. */
  lemma StopsWithin(w: World, code: seq<Instr>, pc: int, R: Regs)
    requires CodeOk(code) && IsStart(code, pc)
    ensures var p := Exec(w, code, pc, R); p.Exit? ==> p.j < |code|
  {
    hide CodeOk, IsStart;
  }

  /** The comparison finds the outcomes of both operands in place. */
  lemma ComparedValues(w: World, op: RelOp, x: RK, y: RK, free: int, free2: int, R0: Regs, R2: Regs, R4: Regs,
      va: Value, vb: Value)
    requires Agree(R2, R0, free) && Agree(R4, R2, free2) && free <= free2 && (x.Reg? ==> 0 <= x.r < free2)
    requires Operand(R2, x) == va && Operand(R4, y) == vb
    ensures Agree(R4, R0, free) && (Taken(w, CompareInstr(op, x, y), R4) <==> w.Relate(op, va, vb))
    ensures CarriedBy(CompareInstr(op, x, y), R4) == None
  {
    TakenWhen(w, op, x, y, R4);
    SameOperand(x, free2, R4, R2);
    hide Operand, Taken;
  }

  ghost predicate Branched(w: World, i: Instr, j: int, R: Regs, q: Stop) {
    IsTest(i) && q == if Taken(w, i, R) then Exit(j, R, CarriedBy(i, R)) else Fall(R)
  }

  lemma ComparedAtEnd(w: World, e: Expr, s: State, n: int, d1: Desc, s2: State, x: RK, d2: Desc, s4: State, y: RK,
      r: State, j: int, p: Stop, p2: Stop, p4: Stop, q: Stop)
    requires e.Rel? && Scoped(e, |w.locals|) && 0 <= n == |w.locals| <= s.free && AtEnd(s, p)
    requires OperandDone(e.a, d1, s, n, s2, x) && OperandDone(e.b, d2, s2, n, s4, y)
    requires Placed(w, e.a, s, s2, x, p, p2) && Placed(w, e.b, s2, s4, y, p2, p4)
    requires AtEnd(s4, p4) ==> Branched(w, CompareInstr(e.op, x, y), j, p4.R, q)
    ensures Follows(w, e, s, r, Desc(DJump(j), {}, {}), p, q)
  {
    hide CodeOk, ListOk, Extends, KindOf, InPlace, HasJumps, HeldByOperand, Run, CompareInstr, Taken, CarriedBy,
      Operand, Agree, EnvOk;
    if EnvOk(w, p.R) {
      var ra := Run(e.a, w, Held(p));
      var rb := Run(e.b, w, HeldByOperand(e.a, ra));
      AgreeEnv(w, p2.R, p.R, s.free);
      RouteOfRelation(e, w, Held(p));
      ComparedValues(w, e.op, x, y, s.free, s2.free, p.R, p2.R, p4.R, Outcome(ra), Outcome(rb));
    }
  }

  lemma ComparedElsewhere(w: World, e: Expr, s: State, s2: State, x: RK, s4: State, y: RK, r: State, d: Desc, p: Stop,
      p2: Stop, p4: Stop, q: Stop)
    requires e.Rel? && Scoped(e, |w.locals|) && !AtEnd(s, p) && !AtEnd(s2, p) && !AtEnd(s4, p)
    requires Placed(w, e.a, s, s2, x, p, p2) && Placed(w, e.b, s2, s4, y, p2, p4)
    requires !AtEnd(s4, p4) ==> q == p4
    ensures Follows(w, e, s, r, d, p, q)
  {
    hide Run, HeldByOperand, EnvOk, Agree, Operand;
  }

  lemma CompareIs(s: State, op: RelOp, x: RK, y: RK, n: int, free: int)
    requires 0 <= n <= free
    requires x.Reg? ==> 0 <= x.r < n || x.r == free
    requires y.Reg? ==> 0 <= y.r < n || y.r == (if x.Reg? && x.r >= n then free + 1 else free)
    requires s.free == free + (if x.Reg? && x.r >= n then 1 else 0) + (if y.Reg? && y.r >= n then 1 else 0)
    ensures var (r, j) := CondJump(s.(free := free), CompareInstr(op, x, y));
            Compare(s, op, x, y, n) == (r, Desc(DJump(j), {}, {}))
  {
    hide CondJump, FreeOperand;
    FreeOperands(s, n, x, y, free);
  }

  lemma NotAtEndOperands(e: Expr, s: State, n: int, d1: Desc, s2: State, x: RK, d2: Desc, s4: State, y: RK, p: Stop)
    requires e.Rel? && OperandDone(e.a, d1, s, n, s2, x) && OperandDone(e.b, d2, s2, n, s4, y)
    ensures p.Exit? && !AtEnd(s, p) && p.j < |s.code| ==> !AtEnd(s2, p) && !AtEnd(s4, p)
  {
    hide CodeOk, ListOk, KindOf, InPlace, HasJumps;
  }

  lemma RouteOfRelation(e: Expr, w: World, held: Option<Value>)
    requires e.Rel? && Scoped(e, |w.locals|)
    ensures var ra := Run(e.a, w, held);
            var rb := Run(e.b, w, HeldByOperand(e.a, ra));
            Run(e, w, held) == End(None, VBool(w.Relate(e.op, Outcome(ra), Outcome(rb))))
  {
  }

  // ------------------------------------------------------------- the results

  /** Conditions take nil for false. */
  function AsCondition(d: Desc): Desc {
    if d.k.DNil? then Desc(DFalse, d.t, d.f) else d
  }

  /** An expression compiled as the condition of a statement: its exits when false. */
  ghost function CompileCondition(e: Expr, s: State, n: int): (State, set<int>) {
    var (s1, d) := Compile(e, s, n);
    GoIf(s1, AsCondition(d), n, true)
  }

  /** The route with nil taken for false. */
  ghost function ConditionRoute(k: Kind, route: Route): Route {
    if k == KNil && route.End? then End(route.held, VBool(false)) else route
  }

  lemma ConditionDesc(w: World, s: State, d: Desc, n: int, route: Route, p: Stop)
    requires DescOk(s, d, n)
    ensures DescOk(s, AsCondition(d), n) && (AsCondition(d).k.DJump? <==> d.k.DJump?)
    ensures AsCondition(d).k.DJump? ==> AsCondition(d) == d
    ensures Routed(w, s, d, route, p) ==> Routed(w, s, AsCondition(d), ConditionRoute(Abstract(d.k), route), p)
  {
    hide StateOk, ListOk;
  }

  /** Run as a condition, the code of every expression changes no register in use, and goes
      on at its end or leaves by the exits. It goes on exactly when the expression is true,
      if and only if it does not misjudge the expression. */
  lemma ConditionCode(w: World, e: Expr, s: State, n: int, pc: int, R: Regs)
    requires Starts(s, pc) && 0 <= n == |w.locals| <= s.free && Scoped(e, n)
    requires var p := Exec(w, s.code, pc, R); AtEnd(s, p) && EnvOk(w, p.R)
    ensures var (r, exits) := CompileCondition(e, s, n);
            var p := Exec(w, s.code, pc, R);
            && Starts(r, pc) && r.jpc !! exits && ListOk(r.code, exits)
            && var q := Exec(w, r.code, pc, R);
            && Agree(q.R, p.R, s.free)
            && (AtEnd(r, q) <==> !(q.Exit? && q.j in exits))
            && ((AtEnd(r, q) <==> Truthy(Eval(e, w))) <==> !Misjudges(e, w, Held(p)))
            && (CleanOperands(e, Held(p).Some?) ==> (AtEnd(r, q) <==> Truthy(Eval(e, w))))
  {
    hide Compile, GoIf, Exec, CodeOk, DescOk, Compiled, Routed, Run, Extends, CleanOperands, Misjudges, IsStart,
      Continue,
      GoesTrue, Eval, KindOf, Mine, ListOk, Inside, ConditionRoute, AsCondition;
    var (s1, d) := Compile(e, s, n);
    var p := Exec(w, s.code, pc, R);
    var route := Run(e, w, Held(p));
    CompileOk(e, s, n);
    CompileRuns(w, e, s, n, pc, R);
    CompiledStarts(e, s, n, s1, d, pc);
    CompiledDesc(e, s, n, s1, d);
    CompiledKind(e, s, n, s1, d);
    ConditionDesc(w, s1, d, n, route, Exec(w, s1.code, pc, R));
    GoIfOk(s1, AsCondition(d), n, true);
    GoIfRuns(w, s1, AsCondition(d), n, true, ConditionRoute(KindOf(e), route), pc, R);
    ConditionIff(e, w, Held(p));
    GuardsSuffice(e, w, Held(p), Held(p).Some?);
    JudgedBy(e, w, Held(p), d);
  }

  lemma CompiledKind(e: Expr, s: State, n: int, r: State, d: Desc)
    requires Compiled(e, s, n, r, d)
    ensures Abstract(d.k) == KindOf(e) && r.free == s.free
  {
    hide DescOk, Extends;
  }

  /** A condition goes on exactly if its route goes on as true. */
  lemma JudgedBy(e: Expr, w: World, held: Option<Value>, d: Desc)
    requires Scoped(e, |w.locals|) && Abstract(d.k) == KindOf(e)
    ensures Continue(Abstract(AsCondition(d).k), ConditionRoute(KindOf(e), Run(e, w, held)), true).Enters?
            <==> GoesTrue(Run(e, w, held))
  {
    var r := Run(e, w, held);
    if r.End? { ConstantValue(e, w, held); }
    hide Run, KindOf;
    NoJudgement(ConditionRoute(Abstract(d.k), r), Abstract(AsCondition(d).k), true);
  }

  /** An expression compiled for its value, in the next free register. */
  ghost function CompileValue(e: Expr, s: State, n: int): (State, int) {
    var (s1, d) := Compile(e, s, n);
    Exp2NextReg(s1, d, n)
  }

  /** Run for its value, the code of every expression leaves the outcome of its route in
      the register, and changes no register in use. */
  lemma ValueCode(w: World, e: Expr, s: State, n: int, pc: int, R: Regs)
    requires Starts(s, pc) && 0 <= n == |w.locals| <= s.free && Scoped(e, n)
    requires var p := Exec(w, s.code, pc, R); AtEnd(s, p) && EnvOk(w, p.R)
    ensures var (r, reg) := CompileValue(e, s, n);
            var p := Exec(w, s.code, pc, R);
            && Starts(r, pc) && reg == s.free && r.free == s.free + 1
            && var q := Exec(w, r.code, pc, R);
            AtEnd(r, q) && Agree(q.R, p.R, s.free) && q.R[reg] == Outcome(Run(e, w, Held(p)))
  {
    var (s1, d) := Compile(e, s, n);
    hide Compile, Exp2NextReg, Exec, CodeOk, ListOk, Routed, Run, Extends, Mine, IsStart;
    CompileOk(e, s, n);
    CompileRuns(w, e, s, n, pc, R);
    assert DescOk(s1, d, n) && s1.free == s.free;
    hide DescOk;
    Exp2NextRegOk(s1, d, n);
    Exp2NextRegRuns(w, s1, d, n, Run(e, w, Held(Exec(w, s.code, pc, R))), pc, R);
  }

  ghost function Start(n: int): State {
    State([], {}, n)
  }

  /** The code for one value, with the jumps to its end patched. */
  ghost function Program(e: Expr, n: int): seq<Instr> {
    DischargeJpc(CompileValue(e, Start(n), n).0).code
  }

  lemma StartRuns(w: World, n: int, R: Regs)
    ensures Starts(Start(n), 0) && Exec(w, [], 0, R) == Fall(R)
  {
  }

  /** The virtual machine runs the program of every expression to its end. The value is
      right if and only if evaluation does not escape, in all worlds; it always is for
      clean expressions. */
  lemma ProgramRuns(w: World, e: Expr, n: int, R: Regs)
    requires 0 <= n == |w.locals| && Scoped(e, n) && EnvOk(w, R)
    ensures CodeOk(Program(e, n)) && IsStart(Program(e, n), 0)
    ensures var q := Exec(w, Program(e, n), 0, R);
            && q.Fall? && Agree(q.R, R, n) && q.R[n] == Outcome(Run(e, w, None))
            && (q.R[n] == Eval(e, w) <==> !Escapes(e, w, None))
            && (Clean(e, false) ==> q.R[n] == Eval(e, w))
  {
    hide Compile, Exp2NextReg, CodeOk, Routed, Run, Clean, CleanOperands, Escapes, Misjudges, Eval;
    StartRuns(w, n, R);
    hide Exec, IsStart;
    ValueCode(w, e, Start(n), n, 0, R);
    var (r, reg) := CompileValue(e, Start(n), n);
    DischargeRuns(w, r, 0, R);
    ValueIff(e, w, None);
    GuardsSuffice(e, w, None, false);
  }

  /** The program for `((1 or false) and true) or false` leaves 1 where it should leave true. */
  lemma WrongProgram(w: World, R: Regs)
    requires w.locals == []
    ensures var e := Or(And(Or(Num(1), False), True), False);
            Scoped(e, 0) && Eval(e, w) == VBool(true) &&
            CodeOk(Program(e, 0)) && IsStart(Program(e, 0), 0) &&
            var q := Exec(w, Program(e, 0), 0, R);
            q.Fall? && q.R[0] == VNum(1)
  {
    var e := Or(And(Or(Num(1), False), True), False);
    hide Program, Exec, CodeOk;
    WrongValue(w);
    ProgramRuns(w, e, 0, R);
  }

  /** The condition `(((1 or false) and true) or false) == true` is true, but its code leaves
      by the exits of a false one. */
  lemma WrongConditionCode(w: World, R: Regs)
    requires w.locals == []
    ensures var e := Rel(OpEq, Or(And(Or(Num(1), False), True), False), True);
            Scoped(e, 0) && Eval(e, w) == VBool(true) &&
            var (r, exits) := CompileCondition(e, Start(0), 0);
            Starts(r, 0) && var q := Exec(w, r.code, 0, R); q.Exit? && q.j in exits && !AtEnd(r, q)
  {
    var e := Rel(OpEq, Or(And(Or(Num(1), False), True), False), True);
    hide CompileCondition, Misjudges, Run;
    StartRuns(w, 0, R);
    hide Exec, CodeOk, IsStart;
    WrongCondition(w);
    ConditionCode(w, e, Start(0), 0, 0, R);
  }
}
