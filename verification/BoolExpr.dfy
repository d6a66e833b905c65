/** Boolean expressions, and how the code generated for them finds its value. */
module BoolExpr {
  import opened Common

  datatype Value = VNil | VBool(b: bool) | VNum(n: int) | VStr(s: string)

  predicate Truthy(v: Value) {
    v != VNil && v != VBool(false)
  }

  datatype CmpOp = EQ | LT | LE
  datatype RelOp = OpEq | OpNe | OpLt | OpLe | OpGt | OpGe

  /** What the code runs against: local variables, globals and the order of values. */
  datatype World = World(locals: seq<Value>, globals: string -> Value, lt: (Value, Value) -> bool,
                         le: (Value, Value) -> bool)
  {
    function Compare(op: CmpOp, x: Value, y: Value): bool {
      match op
      case EQ => x == y
      case LT => lt(x, y)
      case LE => le(x, y)
    }

    function Relate(op: RelOp, x: Value, y: Value): bool {
      match op
      case OpEq => x == y
      case OpNe => x != y
      case OpLt => lt(x, y)
      case OpLe => le(x, y)
      case OpGt => lt(y, x)
      case OpGe => le(y, x)
    }
  }

  datatype Expr =
    | Nil | True | False
    | Num(n: int) | Str(s: string)
    | Local(r: nat)
    | Global(g: string)
    | Not(e: Expr)
    | And(a: Expr, b: Expr)
    | Or(a: Expr, b: Expr)
    | Rel(op: RelOp, a: Expr, b: Expr)

  /** All local variables of the expression are in registers below `n`. */
  ghost predicate Scoped(e: Expr, n: int) {
    match e
    case Local(r) => r < n
    case Not(a) => Scoped(a, n)
    case And(a, b) => Scoped(a, n) && Scoped(b, n)
    case Or(a, b) => Scoped(a, n) && Scoped(b, n)
    case Rel(_, a, b) => Scoped(a, n) && Scoped(b, n)
    case _ => true
  }

  /** The meaning of an expression. */
  function Eval(e: Expr, w: World): Value
    requires Scoped(e, |w.locals|)
  {
    match e
    case Nil => VNil
    case True => VBool(true)
    case False => VBool(false)
    case Num(n) => VNum(n)
    case Str(s) => VStr(s)
    case Local(r) => w.locals[r]
    case Global(g) => w.globals(g)
    case Not(a) => VBool(!Truthy(Eval(a, w)))
    case And(a, b) => if Truthy(Eval(a, w)) then Eval(b, w) else Eval(a, w)
    case Or(a, b) => if Truthy(Eval(a, w)) then Eval(a, w) else Eval(b, w)
    case Rel(op, a, b) => VBool(w.Relate(op, Eval(a, w), Eval(b, w)))
  }

  // ------------------------------------------- the route through the code

  /** The kind of descriptor an expression compiles to, before its variables are
      discharged. */
  datatype Kind = KNil | KTrue | KFalse | KConst | KLocal | KGlobal | KNot | KFetch | KJump

  predicate IsConstant(k: Kind) {
    k == KNil || k == KTrue || k == KFalse || k == KConst
  }

  function Discharged(k: Kind): Kind {
    if k == KGlobal then KFetch else k
  }

  function Negated(k: Kind): Kind {
    match k
    case KNil => KTrue
    case KFalse => KTrue
    case KTrue => KFalse
    case KConst => KFalse
    case KJump => KJump
    case _ => KNot
  }

  function KindOf(e: Expr): Kind {
    match e
    case Nil => KNil
    case True => KTrue
    case False => KFalse
    case Num(_) => KConst
    case Str(_) => KConst
    case Local(_) => KLocal
    case Global(_) => KGlobal
    case Not(a) => Negated(KindOf(a))
    case And(_, b) => Discharged(KindOf(b))
    case Or(_, b) => Discharged(KindOf(b))
    case Rel(_, _, _) => KJump
  }

  /** A left operand of this kind needs no test: it is known to be `cond`. */
  predicate NeverJumps(k: Kind, cond: bool) {
    if cond then k == KTrue || k == KConst else k == KNil || k == KFalse
  }

  /** A left operand of this kind always jumps: it is known not to be `cond`. */
  predicate AlwaysJumps(k: Kind, cond: bool) {
    k == if cond then KFalse else KTrue
  }

  /** Whether the list of exits taken when the value is `when` has any jump. */
  predicate HasExits(e: Expr, when: bool) {
    match e
    case Not(a) => HasExits(a, !when)
    case And(a, b) => HasExits(b, when) || (!when && (HasExits(a, false) || !NeverJumps(KindOf(a), true)))
    case Or(a, b) => HasExits(b, when) || (when && (HasExits(a, true) || !NeverJumps(KindOf(a), false)))
    case _ => false
  }

  predicate HasJumps(e: Expr) {
    HasExits(e, true) || HasExits(e, false)
  }

  /** How a run leaves the code of an expression: by an exit jump, which may carry the
      value; or at the end, perhaps by a jump on hold that carries a value, where
      `v` is what the descriptor stands for. */
  datatype Route = By(when: bool, carried: Option<Value>) | End(held: Option<Value>, v: Value)

  /** The value a route stands for, once all exits are patched. */
  function Outcome(r: Route): Value {
    match r
    case By(when, c) => if c.Some? then c.value else VBool(when)
    case End(_, v) => v
  }

  /** After the variables of the descriptor are discharged; a global is fetched, which
      takes the jumps on hold off hold. */
  function AfterDischarge(k: Kind, r: Route): Route {
    if r.End? && k == KGlobal then End(None, r.v) else r
  }

  /** The continuation of `and` (cond) or `or` (!cond) after its left operand: either
      its route out, or the value on hold with which the right operand starts. */
  datatype Continuation = Leaves(r: Route) | Enters(held: Option<Value>)

  function Continue(k: Kind, r: Route, cond: bool): Continuation {
    match r
    case By(when, c) => if when == cond then Enters(c) else Leaves(r)
    case End(h, v) =>
      if NeverJumps(k, cond) then Enters(h)
      else if AlwaysJumps(k, cond) then Leaves(By(!cond, h))
      else if Truthy(v) == cond then Enters(None)
      else if k == KJump || k == KNot then Leaves(By(!cond, None))
      else Leaves(By(!cond, Some(v)))
  }

  /** What is still on hold once an operand of a comparison is in place. */
  function HeldByOperand(e: Expr, r: Route): Option<Value> {
    if r.End? && !HasJumps(e) && (IsConstant(KindOf(e)) || KindOf(e) == KLocal) then r.held else None
  }

  /** The route that the code of an expression takes, entered with a value on hold. */
  function Run(e: Expr, w: World, held: Option<Value>): Route
    requires Scoped(e, |w.locals|)
  {
    match e
    case Nil => End(held, VNil)
    case True => End(held, VBool(true))
    case False => End(held, VBool(false))
    case Num(n) => End(held, VNum(n))
    case Str(s) => End(held, VStr(s))
    case Local(r) => End(held, w.locals[r])
    case Global(g) => End(held, w.globals(g))
    case Not(a) =>
      var r := Run(a, w, held);
      if r.By? then By(!r.when, None)
      else End(if IsConstant(KindOf(a)) then r.held else None, VBool(!Truthy(r.v)))
    case And(a, b) =>
      var c := Continue(KindOf(a), Run(a, w, held), true);
      if c.Leaves? then c.r else AfterDischarge(KindOf(b), Run(b, w, c.held))
    case Or(a, b) =>
      var c := Continue(KindOf(a), Run(a, w, held), false);
      if c.Leaves? then c.r else AfterDischarge(KindOf(b), Run(b, w, c.held))
    case Rel(op, a, b) =>
      var ra := Run(a, w, held);
      var rb := Run(b, w, HeldByOperand(a, ra));
      End(None, VBool(w.Relate(op, Outcome(ra), Outcome(rb))))
  }

  // ------------------------------------------------- when the route is right

  /** Whether a value may be on hold at the end of the code, if one may be at the start. */
  predicate MayHold(e: Expr, held: bool)
    decreases e, 0
  {
    match e
    case Not(a) => IsConstant(KindOf(a)) && MayHold(a, held)
    case And(a, b) => KindOf(b) != KGlobal && MayHold(b, MayEnterHeld(a, held, true))
    case Or(a, b) => KindOf(b) != KGlobal && MayHold(b, MayEnterHeld(a, held, false))
    case Rel(_, _, _) => false
    case _ => held
  }

  /** Whether an exit may carry a value. */
  predicate MayCarry(e: Expr, held: bool, when: bool)
    decreases e, 0
  {
    match e
    case And(a, b) =>
      || MayCarry(b, MayEnterHeld(a, held, true), when)
      || (!when && (MayCarry(a, held, false) || MayCarryOut(a, held, true)))
    case Or(a, b) =>
      || MayCarry(b, MayEnterHeld(a, held, false), when)
      || (when && (MayCarry(a, held, true) || MayCarryOut(a, held, false)))
    case _ => false
  }

  predicate MayCarryOut(a: Expr, held: bool, cond: bool)
    decreases a, 1
  {
    var k := KindOf(a);
    if NeverJumps(k, cond) || k == KJump || k == KNot then false
    else if AlwaysJumps(k, cond) then MayHold(a, held)
    else true
  }

  /** Whether the right operand may be entered with a value on hold. */
  predicate MayEnterHeld(a: Expr, held: bool, cond: bool)
    decreases a, 1
  {
    MayCarry(a, held, cond) || (NeverJumps(KindOf(a), cond) && MayHold(a, held))
  }

  predicate MayHoldAtOperand(e: Expr, held: bool) {
    !HasJumps(e) && (IsConstant(KindOf(e)) || KindOf(e) == KLocal) && MayHold(e, held)
  }

  /** The guard of the branches that let jumps with a value join a control jump: no
      left operand that always jumps is reached with a value on hold. */
  predicate Clean(e: Expr, held: bool) {
    match e
    case Not(a) => Clean(a, held)
    case And(a, b) => Clean(a, held) && !(AlwaysJumps(KindOf(a), true) && MayHold(a, held))
         && Clean(b, MayEnterHeld(a, held, true))
    case Or(a, b) => Clean(a, held) && !(AlwaysJumps(KindOf(a), false) && MayHold(a, held))
         && Clean(b, MayEnterHeld(a, held, false))
    case Rel(_, a, b) => Clean(a, held) && Clean(b, MayHoldAtOperand(a, held))
    case _ => true
  }

  /** Only the operands of comparisons are clean. */
  predicate CleanOperands(e: Expr, held: bool) {
    match e
    case Not(a) => CleanOperands(a, held)
    case And(a, b) => CleanOperands(a, held) && CleanOperands(b, MayEnterHeld(a, held, true))
    case Or(a, b) => CleanOperands(a, held) && CleanOperands(b, MayEnterHeld(a, held, false))
    case Rel(_, a, b) => Clean(a, held) && Clean(b, MayHoldAtOperand(a, held))
    case _ => true
  }

  /** A route agrees with a value in truth. */
  ghost predicate TrueTo(r: Route, v: Value) {
    match r
    case By(when, _) => when == Truthy(v)
    case End(_, x) => x == v
  }

  /** A route stands for exactly a value. */
  ghost predicate Exactly(r: Route, v: Value) {
    match r
    case By(when, c) => when == Truthy(v) && v == (if c.Some? then c.value else VBool(when))
    case End(_, x) => x == v
  }

  ghost predicate Holds(e: Expr, held: bool, r: Route) {
    match r
    case By(when, c) => c.Some? ==> MayCarry(e, held, when)
    case End(h, _) => h.Some? ==> MayHold(e, held)
  }

  lemma ConstantValue(e: Expr, w: World, held: Option<Value>)
    requires Scoped(e, |w.locals|) && Run(e, w, held).End?
    ensures var v, k := Run(e, w, held).v, KindOf(e);
            && (k == KNil ==> v == VNil) && (k == KTrue ==> v == VBool(true)) && (k == KFalse ==> v == VBool(false))
            && (k == KConst ==> Truthy(v)) && (k == KJump || k == KNot ==> v.VBool?)
  {
  }

  lemma {:induction false} RouteHolds(e: Expr, w: World, held: Option<Value>, may: bool)
    requires Scoped(e, |w.locals|) && (held.Some? ==> may)
    ensures Holds(e, may, Run(e, w, held))
  {
    if e.And? || e.Or? {
      var c := Continue(KindOf(e.a), Run(e.a, w, held), e.And?);
      RouteHolds(e.a, w, held, may);
      var rb := if c.Enters? then Run(e.b, w, c.held) else c.r;
      if c.Enters? {
        LeftHolds(e.a, Run(e.a, w, held), may, e.And?);
        RouteHolds(e.b, w, c.held, MayEnterHeld(e.a, may, e.And?));
      }
      BothHold(e, Run(e.a, w, held), rb, may);
    } else if e.Not? {
      RouteHolds(e.e, w, held, may);
    }
  }

  lemma BothHold(e: Expr, ra: Route, rb: Route, may: bool)
    requires (e.And? || e.Or?) && Holds(e.a, may, ra)
    requires Continue(KindOf(e.a), ra, e.And?).Enters? ==> Holds(e.b, MayEnterHeld(e.a, may, e.And?), rb)
    ensures var c := Continue(KindOf(e.a), ra, e.And?);
            Holds(e, may, if c.Leaves? then c.r else AfterDischarge(KindOf(e.b), rb))
  {
    LeftHolds(e.a, ra, may, e.And?);
    hide Continue, MayEnterHeld, MayCarryOut, KindOf;
  }

  lemma LeftHolds(a: Expr, r: Route, may: bool, cond: bool)
    requires Holds(a, may, r)
    ensures var c := Continue(KindOf(a), r, cond);
            if c.Enters? then c.held.Some? ==> MayEnterHeld(a, may, cond)
            else c.r.By? && c.r.when != cond && (c.r.carried.Some? ==>
                                                   MayCarry(a, may, !cond) || MayCarryOut(a, may, cond))
  {
    hide MayHold, MayCarry, KindOf;
  }

  /** A clean expression gives exactly its value. */
  lemma {:induction false} CleanIsExact(e: Expr, w: World, held: Option<Value>, may: bool)
    requires Scoped(e, |w.locals|) && (held.Some? ==> may) && Clean(e, may)
    ensures Exactly(Run(e, w, held), Eval(e, w))
  {
    if e.And? || e.Or? {
      CleanIsExact(e.a, w, held, may);
      LeftExact(e.a, w, held, may, e.And?);
      var c := Continue(KindOf(e.a), Run(e.a, w, held), e.And?);
      if c.Enters? { CleanIsExact(e.b, w, c.held, MayEnterHeld(e.a, may, e.And?)); }
    } else if e.Not? {
      CleanIsExact(e.e, w, held, may);
    } else if e.Rel? {
      CleanIsExact(e.a, w, held, may);
      RouteHolds(e.a, w, held, may);
      CleanIsExact(e.b, w, HeldByOperand(e.a, Run(e.a, w, held)), MayHoldAtOperand(e.a, may));
    }
  }

  /** A left operand decides between its value and the right operand. */
  lemma LeftExact(a: Expr, w: World, held: Option<Value>, may: bool, cond: bool)
    requires Scoped(a, |w.locals|) && (held.Some? ==> may) && Exactly(Run(a, w, held), Eval(a, w))
    requires !(AlwaysJumps(KindOf(a), cond) && MayHold(a, may))
    ensures var c := Continue(KindOf(a), Run(a, w, held), cond);
            if c.Leaves? then Truthy(Eval(a, w)) != cond && Exactly(c.r, Eval(a, w))
            else Truthy(Eval(a, w)) == cond && (c.held.Some? ==> MayEnterHeld(a, may, cond))
  {
    RouteHolds(a, w, held, may);
    if Run(a, w, held).End? { ConstantValue(a, w, held); }
    hide Run, Eval;
  }

  /** Run as a condition, an expression with clean operands has the truth of its value. */
  lemma {:induction false} ConditionIsTrue(e: Expr, w: World, held: Option<Value>, may: bool)
    requires Scoped(e, |w.locals|) && (held.Some? ==> may) && CleanOperands(e, may)
    ensures TrueTo(Run(e, w, held), Eval(e, w))
  {
    if e.And? || e.Or? {
      ConditionIsTrue(e.a, w, held, may);
      LeftTrue(e.a, w, held, may, e.And?);
      var c := Continue(KindOf(e.a), Run(e.a, w, held), e.And?);
      if c.Enters? { ConditionIsTrue(e.b, w, c.held, MayEnterHeld(e.a, may, e.And?)); }
    } else if e.Not? {
      ConditionIsTrue(e.e, w, held, may);
    } else if e.Rel? {
      CleanIsExact(e, w, held, may);
    }
  }

  lemma LeftTrue(a: Expr, w: World, held: Option<Value>, may: bool, cond: bool)
    requires Scoped(a, |w.locals|) && (held.Some? ==> may) && TrueTo(Run(a, w, held), Eval(a, w))
    ensures var c := Continue(KindOf(a), Run(a, w, held), cond);
            if c.Leaves? then Truthy(Eval(a, w)) != cond && TrueTo(c.r, Eval(a, w))
            else Truthy(Eval(a, w)) == cond && (c.held.Some? ==> MayEnterHeld(a, may, cond))
  {
    RouteHolds(a, w, held, may);
    if Run(a, w, held).End? { ConstantValue(a, w, held); }
    hide Run, Eval;
  }

  // ------------------------------------------------ exactly when it is right

  /** Whether a route goes on as a true condition. */
  predicate GoesTrue(r: Route) {
    match r
    case By(when, _) => when
    case End(_, v) => Truthy(v)
  }

  /** The code judges the expression wrongly as a condition. It starts at a comparison of
      which an operand escapes, where the relation on the outcomes differs; a misjudged
      left operand of `and` or `or` matters unless the right operand makes up for it. */
  predicate Misjudges(e: Expr, w: World, held: Option<Value>)
    requires Scoped(e, |w.locals|)
    decreases e, 0
  {
    match e
    case Not(a) => Misjudges(a, w, held)
    case And(a, b) => MisjudgesBoth(e, w, held)
    case Or(a, b) => MisjudgesBoth(e, w, held)
    case Rel(op, a, b) =>
      var ra := Run(a, w, held);
      var hb := HeldByOperand(a, ra);
      && (Escapes(a, w, held) || Escapes(b, w, hb))
      && w.Relate(op, Outcome(ra), Outcome(Run(b, w, hb))) != w.Relate(op, Eval(a, w), Eval(b, w))
    case _ => false
  }

  predicate MisjudgesBoth(e: Expr, w: World, held: Option<Value>)
    requires (e.And? || e.Or?) && Scoped(e, |w.locals|)
    decreases e, 0, 0
  {
    var c := Continue(KindOf(e.a), Run(e.a, w, held), e.And?);
    if Misjudges(e.a, w, held) then
      (if c.Enters? then GoesTrue(Run(e.b, w, c.held)) else Truthy(Eval(e.b, w))) == e.And?
    else c.Enters? && Misjudges(e.b, w, c.held)
  }

  /** The code gives another value. Evaluation gets out through a left operand that always
      jumps and is reached with another value on hold; or a comparison is misjudged, and
      what is gone on to has another value. */
  predicate Escapes(e: Expr, w: World, held: Option<Value>)
    requires Scoped(e, |w.locals|)
    decreases e, 1
  {
    match e
    case Not(_) => Misjudges(e, w, held)
    case Rel(_, _, _) => Misjudges(e, w, held)
    case And(_, _) => EscapesBoth(e, w, held)
    case Or(_, _) => EscapesBoth(e, w, held)
    case _ => false
  }

  predicate EscapesBoth(e: Expr, w: World, held: Option<Value>)
    requires (e.And? || e.Or?) && Scoped(e, |w.locals|)
    decreases e, 0, 0
  {
    var ra := Run(e.a, w, held);
    var c := Continue(KindOf(e.a), ra, e.And?);
    if Misjudges(e.a, w, held) then
      (if c.Enters? then Outcome(Run(e.b, w, c.held)) != Eval(e.a, w) else Outcome(c.r) != Eval(e.b, w))
    else if c.Enters? then Escapes(e.b, w, c.held)
    else if AlwaysJumps(KindOf(e.a), e.And?) && ra.End? && ra.held.Some? then ra.held.value != Eval(e.a, w)
    else Escapes(e.a, w, held)
  }

  lemma NoJudgement(r: Route, k: Kind, cond: bool)
    requires r.End? ==> KindHas(k, r.v)
    ensures Continue(k, r, cond).Enters? <==> GoesTrue(r) == cond
  {
  }

  /** What is known of a value from its kind. */
  predicate KindHas(k: Kind, v: Value) {
    && (k == KNil ==> v == VNil) && (k == KTrue ==> v == VBool(true)) && (k == KFalse ==> v == VBool(false))
    && (k == KConst ==> Truthy(v)) && (k == KJump || k == KNot ==> v.VBool?)
  }

  lemma LeavingOutcome(r: Route, k: Kind, cond: bool)
    requires (r.End? ==> KindHas(k, r.v)) && Continue(k, r, cond).Leaves?
    ensures Outcome(Continue(k, r, cond).r) ==
            if AlwaysJumps(k, cond) && r.End? && r.held.Some? then r.held.value else Outcome(r)
    ensures !GoesTrue(Continue(k, r, cond).r) == cond
  {
  }

  lemma DischargeKeeps(k: Kind, r: Route)
    ensures Outcome(AfterDischarge(k, r)) == Outcome(r) && GoesTrue(AfterDischarge(k, r)) == GoesTrue(r)
  {
  }

  /** For every expression, in every world: as a condition the code goes on as true if and
      only if the value is true, unless it misjudges the expression. */
  lemma {:induction false} ConditionIff(e: Expr, w: World, held: Option<Value>)
    requires Scoped(e, |w.locals|)
    ensures GoesTrue(Run(e, w, held)) == Truthy(Eval(e, w)) <==> !Misjudges(e, w, held)
    decreases e, 0
  {
    if e.And? || e.Or? {
      BothConditionIff(e, w, held);
    } else if e.Not? {
      ConditionIff(e.e, w, held);
    } else if e.Rel? {
      ValueIff(e.a, w, held);
      ValueIff(e.b, w, HeldByOperand(e.a, Run(e.a, w, held)));
    }
  }

  lemma BothConditionIff(e: Expr, w: World, held: Option<Value>)
    requires (e.And? || e.Or?) && Scoped(e, |w.locals|)
    ensures GoesTrue(Run(e, w, held)) == Truthy(Eval(e, w)) <==> !Misjudges(e, w, held)
    decreases e, 0, 0
  {
    var ra := Run(e.a, w, held);
    var c := Continue(KindOf(e.a), ra, e.And?);
    ConditionIff(e.a, w, held);
    if ra.End? { ConstantValue(e.a, w, held); }
    NoJudgement(ra, KindOf(e.a), e.And?);
    if c.Enters? {
      ConditionIff(e.b, w, c.held);
      DischargeKeeps(KindOf(e.b), Run(e.b, w, c.held));
    } else {
      LeavingOutcome(ra, KindOf(e.a), e.And?);
    }
    hide Continue, KindOf, GoesTrue, AfterDischarge, Truthy;
  }

  /** For every expression, in every world: the code gives the value of the expression if
      and only if evaluation does not escape. */
  lemma {:induction false} ValueIff(e: Expr, w: World, held: Option<Value>)
    requires Scoped(e, |w.locals|)
    ensures Outcome(Run(e, w, held)) == Eval(e, w) <==> !Escapes(e, w, held)
    decreases e, 1
  {
    if e.And? || e.Or? {
      var ra := Run(e.a, w, held);
      var c := Continue(KindOf(e.a), ra, e.And?);
      ConditionIff(e.a, w, held);
      ValueIff(e.a, w, held);
      if ra.End? { ConstantValue(e.a, w, held); }
      NoJudgement(ra, KindOf(e.a), e.And?);
      if c.Enters? {
        ValueIff(e.b, w, c.held);
        DischargeKeeps(KindOf(e.b), Run(e.b, w, c.held));
      } else {
        LeavingOutcome(ra, KindOf(e.a), e.And?);
      }
      hide Continue, KindOf, GoesTrue, AfterDischarge, Outcome, AlwaysJumps;
    } else if e.Not? || e.Rel? {
      ConditionIff(e, w, held);
      TruthIsValue(e, w, held);
    }
  }

  lemma TruthIsValue(e: Expr, w: World, held: Option<Value>)
    requires (e.Not? || e.Rel?) && Scoped(e, |w.locals|)
    ensures Eval(e, w) == VBool(Truthy(Eval(e, w))) && Outcome(Run(e, w, held)) == VBool(GoesTrue(Run(e, w, held)))
  {
  }

  /** Static guards: with clean operands nothing is misjudged, and clean expressions
      never escape. */
  lemma GuardsSuffice(e: Expr, w: World, held: Option<Value>, may: bool)
    requires Scoped(e, |w.locals|) && (held.Some? ==> may)
    ensures CleanOperands(e, may) ==> !Misjudges(e, w, held)
    ensures Clean(e, may) ==> !Escapes(e, w, held)
  {
    ConditionIff(e, w, held);
    ValueIff(e, w, held);
    hide Run, Eval, Escapes, Misjudges, Clean, CleanOperands;
    if CleanOperands(e, may) { ConditionIsTrue(e, w, held, may); }
    if Clean(e, may) { CleanIsExact(e, w, held, may); }
  }

  /** The event behind every failure: the route reaches a left operand that always jumps
      with another value on hold than the constant it stands for. */
  predicate Derails(e: Expr, w: World, held: Option<Value>)
    requires Scoped(e, |w.locals|)
  {
    match e
    case Not(a) => Derails(a, w, held)
    case And(a, b) =>
      || Derails(a, w, held) || JumpsWithOther(a, w, held, true)
      || (var c := Continue(KindOf(a), Run(a, w, held), true); c.Enters? && Derails(b, w, c.held))
    case Or(a, b) =>
      || Derails(a, w, held) || JumpsWithOther(a, w, held, false)
      || (var c := Continue(KindOf(a), Run(a, w, held), false); c.Enters? && Derails(b, w, c.held))
    case Rel(_, a, b) => Derails(a, w, held) || Derails(b, w, HeldByOperand(a, Run(a, w, held)))
    case _ => false
  }

  predicate JumpsWithOther(a: Expr, w: World, held: Option<Value>, cond: bool)
    requires Scoped(a, |w.locals|)
  {
    var r := Run(a, w, held);
    AlwaysJumps(KindOf(a), cond) && r.End? && r.held.Some? && r.held.value != VBool(!cond)
  }

  /** A route that never does so is right, as a condition and in value. */
  lemma {:induction false} OnlyDerailedFails(e: Expr, w: World, held: Option<Value>)
    requires Scoped(e, |w.locals|) && !Derails(e, w, held)
    ensures !Misjudges(e, w, held) && !Escapes(e, w, held)
  {
    if e.And? || e.Or? {
      var ra := Run(e.a, w, held);
      var c := Continue(KindOf(e.a), ra, e.And?);
      OnlyDerailedFails(e.a, w, held);
      ValueIff(e.a, w, held);
      if ra.End? { ConstantValue(e.a, w, held); }
      if c.Enters? { OnlyDerailedFails(e.b, w, c.held); }
      hide Run, Eval, Continue, KindOf;
    } else if e.Not? {
      OnlyDerailedFails(e.e, w, held);
    } else if e.Rel? {
      OnlyDerailedFails(e.a, w, held);
      OnlyDerailedFails(e.b, w, HeldByOperand(e.a, Run(e.a, w, held)));
    }
  }

  /** The static guard rules the event out in every world. */
  lemma {:induction false} CleanNeverDerails(e: Expr, w: World, held: Option<Value>, may: bool)
    requires Scoped(e, |w.locals|) && (held.Some? ==> may) && Clean(e, may)
    ensures !Derails(e, w, held)
  {
    if e.And? || e.Or? {
      CleanNeverDerails(e.a, w, held, may);
      RouteHolds(e.a, w, held, may);
      LeftHolds(e.a, Run(e.a, w, held), may, e.And?);
      var c := Continue(KindOf(e.a), Run(e.a, w, held), e.And?);
      if c.Enters? { CleanNeverDerails(e.b, w, c.held, MayEnterHeld(e.a, may, e.And?)); }
    } else if e.Not? {
      CleanNeverDerails(e.e, w, held, may);
    } else if e.Rel? {
      CleanNeverDerails(e.a, w, held, may);
      RouteHolds(e.a, w, held, may);
      CleanNeverDerails(e.b, w, HeldByOperand(e.a, Run(e.a, w, held)), MayHoldAtOperand(e.a, may));
    }
  }

  /** No left operand of `and` or `or` is a compile-time true or false. */
  predicate NoConstantLeft(e: Expr) {
    match e
    case Not(a) => NoConstantLeft(a)
    case And(a, b) => NoConstantLeft(a) && NoConstantLeft(b) && KindOf(a) != KTrue && KindOf(a) != KFalse
    case Or(a, b) => NoConstantLeft(a) && NoConstantLeft(b) && KindOf(a) != KTrue && KindOf(a) != KFalse
    case Rel(_, a, b) => NoConstantLeft(a) && NoConstantLeft(b)
    case _ => true
  }

  lemma {:induction false} NoConstantLeftIsClean(e: Expr, held: bool)
    requires NoConstantLeft(e)
    ensures Clean(e, held)
  {
    match e {
      case Not(a) => NoConstantLeftIsClean(a, held);
      case And(a, b) => NoConstantLeftIsClean(a, held); NoConstantLeftIsClean(b, MayEnterHeld(a, held, true));
      case Or(a, b) => NoConstantLeftIsClean(a, held); NoConstantLeftIsClean(b, MayEnterHeld(a, held, false));
      case Rel(_, a, b) => NoConstantLeftIsClean(a, held); NoConstantLeftIsClean(b, MayHoldAtOperand(a, held));
      case _ =>
    }
  }

  /** `((1 or false) and true) or false` is true, but its code gives 1. */
  lemma WrongValue(w: World)
    ensures var e := Or(And(Or(Num(1), False), True), False);
            Scoped(e, |w.locals|) && Eval(e, w) == VBool(true) && Outcome(Run(e, w, None)) == VNum(1)
  {
    var e1 := Or(Num(1), False);
    assert Scoped(e1, |w.locals|) && Scoped(And(e1, True), |w.locals|);
    var e2 := And(e1, True);
    assert Eval(Num(1), w) == VNum(1) && Eval(True, w) == VBool(true);
    assert Eval(e1, w) == VNum(1);
    assert Eval(e2, w) == VBool(true);
    assert KindOf(False) == KFalse && KindOf(Num(1)) == KConst && KindOf(True) == KTrue;
    assert KindOf(e1) == KFalse;
    assert KindOf(e2) == KTrue;
    assert Run(Num(1), w, None) == End(None, VNum(1))
           && Continue(KConst, End(None, VNum(1)), false) == Leaves(By(true, Some(VNum(1))));
    assert Run(e1, w, None) == By(true, Some(VNum(1)));
    assert Continue(KFalse, Run(e1, w, None), true) == Enters(Some(VNum(1)));
    assert Run(True, w, Some(VNum(1))) == End(Some(VNum(1)), VBool(true));
    assert Run(e2, w, None) == End(Some(VNum(1)), VBool(true));
    assert Continue(KTrue, Run(e2, w, None), false) == Leaves(By(true, Some(VNum(1))));
    assert Scoped(Or(e2, False), |w.locals|) && Run(Or(e2, False), w, None) == By(true, Some(VNum(1)));
  }

  /** `(((1 or false) and true) or false) == true` is true, but its code finds it false. */
  lemma WrongCondition(w: World)
    ensures var e := Rel(OpEq, Or(And(Or(Num(1), False), True), False), True);
            Scoped(e, |w.locals|) && Eval(e, w) == VBool(true) && !GoesTrue(Run(e, w, None)) && Misjudges(e, w, None)
  {
    WrongValue(w);
    var a := Or(And(Or(Num(1), False), True), False);
    var e := Rel(OpEq, a, True);
    assert Scoped(e, |w.locals|);
    assert Run(a, w, None).By?;
    ConditionIff(e, w, None);
  }
}
