/** The code generator for boolean expressions, with its jump lists as sets. */
module BoolCodeGen {
  import opened Common
  import opened BoolExpr
  import opened BoolCode

  /** What the value of an expression descriptor is known to be, or where it is. */
  datatype DKind =
    | DNil | DTrue | DFalse
    | DConst(v: Value)
    | DLocal(r: int)            // a local variable
    | DGlobal(g: string)        // a global variable
    | DFetch(g: string)         // an instruction that fetches a global, without its register
    | DNot(b: int)              // an instruction that negates a register, without its own
    | DJump(j: int)             // a comparison, and the jump taken when it holds
    | DReg(r: int)              // a register

  /** A descriptor, with the jumps that leave when the value is true or false. */
  datatype Desc = Desc(k: DKind, t: set<int>, f: set<int>)
  {
    function Exits(when: bool): set<int> {
      if when then t else f
    }

    predicate HasJumps() {
      t != {} || f != {}
    }
  }

  /** The code so far, the jumps to its end that are on hold, and the first free register. */
  datatype State = State(code: seq<Instr>, jpc: set<int>, free: int)

  function Abstract(k: DKind): Kind {
    match k
    case DNil => KNil
    case DTrue => KTrue
    case DFalse => KFalse
    case DConst(_) => KConst
    case DLocal(_) => KLocal
    case DGlobal(_) => KGlobal
    case DFetch(_) => KFetch
    case DNot(_) => KNot
    case DJump(_) => KJump
    case DReg(_) => KLocal
  }

  // -------------------------------------------------------------- emitting

  /** The jumps on hold go to the next instruction, without their values. */
  function DischargeJpc(s: State): State {
    s.(code := PatchList(s.code, s.jpc, |s.code|, NO_REG, |s.code|), jpc := {})
  }

  function Emit(s: State, i: Instr): State {
    var d := DischargeJpc(s);
    d.(code := d.code + [i])
  }

  /** A jump, which the jumps on hold join. */
  function Jump(s: State): (State, set<int>) {
    (s.(code := s.code + [JMP(NO_JUMP)], jpc := {}), s.jpc + {|s.code|})
  }

  /** A test and the jump it controls. */
  function CondJump(s: State, i: Instr): (State, int) {
    var d := DischargeJpc(s);
    (d.(code := d.code + [i, JMP(NO_JUMP)]), |d.code| + 1)
  }

  function PatchToHere(s: State, list: set<int>): State {
    s.(jpc := s.jpc + list)
  }

  function FreeReg(s: State, n: int, r: int): State {
    if r >= n then s.(free := s.free - 1) else s
  }

  function FreeExp(s: State, n: int, k: DKind): State {
    if k.DReg? then FreeReg(s, n, k.r) else s
  }

  // ------------------------------------------------------------ discharging

  function DischargeVars(s: State, k: DKind): (State, DKind) {
    match k
    case DLocal(r) => (s, DReg(r))
    case DGlobal(g) => (DischargeJpc(s), DFetch(g))
    case _ => (s, k)
  }

  /** The instruction that puts a value in a register. */
  function LoadOf(k: DKind, reg: int): (i: Option<Instr>)
    ensures i.Some? ==> IsLoad(i.value) && !(i.value.LOADBOOL? && i.value.skip) && i.value.a == reg
  {
    match k
    case DNil => Some(LOADNIL(reg))
    case DTrue => Some(LOADBOOL(reg, true, false))
    case DFalse => Some(LOADBOOL(reg, false, false))
    case DConst(v) => Some(LOADK(reg, v))
    case DFetch(g) => Some(GETGLOBAL(reg, g))
    case DNot(b) => Some(NOT(reg, b))
    case DReg(r) => if r != reg then Some(MOVE(reg, r)) else None
    case _ => None
  }

  function Discharge2Reg(s: State, k: DKind, reg: int): State {
    var i := LoadOf(k, reg);
    if i.Some? then Emit(s, i.value) else s
  }

  /** The register of a value, a new one if it has none yet. */
  function Discharge2AnyReg(s: State, k: DKind): (State, int) {
    if k.DReg? then (s, k.r) else (Discharge2Reg(s, k, s.free).(free := s.free + 1), s.free)
  }

  ghost predicate NeedValue(code: seq<Instr>, list: set<int>) {
    exists j :: j in list && 0 <= j < |code| && !Carries(code, j)
  }

  /** The two instructions that jumps without a value go to. */
  function LoadBools(reg: int): seq<Instr> {
    [LOADBOOL(reg, false, true), LOADBOOL(reg, true, false)]
  }

  /** The code and jumps on hold once the targets of the exits exist. */
  ghost function ExitTargets(s: State, k: DKind, t: set<int>, f: set<int>, reg: int): State {
    if !NeedValue(s.code, t) && !NeedValue(s.code, f) then s
    else if k.DJump? then s.(code := s.code + LoadBools(reg))
    else
      var (s1, fj) := Jump(s);
      s1.(code := s1.code + LoadBools(reg), jpc := fj)
  }

  ghost function PatchExits(s: State, t: set<int>, f: set<int>, reg: int): State {
    var end := |s.code|;
    s.(code := PatchList(PatchList(s.code, f, end, reg, end - 2), t, end, reg, end - 1))
  }

  ghost function WithJump(k: DKind, t: set<int>): set<int> {
    if k.DJump? then t + {k.j} else t
  }

  /** Put the value of a descriptor, its variables discharged, in a register. */
  ghost function Exp2Reg(s: State, d: Desc, reg: int): State {
    var s1 := Discharge2Reg(s, d.k, reg);
    var t := WithJump(d.k, d.t);
    if t == {} && d.f == {} then s1 else PatchExits(ExitTargets(s1, d.k, t, d.f, reg), t, d.f, reg)
  }

  /** Put a value in the next free register. */
  ghost function Exp2NextReg(s: State, d: Desc, n: int): (State, int) {
    var (s1, k) := DischargeVars(s, d.k);
    var s2 := FreeExp(s1, n, k);
    (Exp2Reg(s2.(free := s2.free + 1), d.(k := k), s2.free), s2.free)
  }

  ghost function Exp2AnyReg(s: State, d: Desc, n: int): (State, int) {
    var (s1, k) := DischargeVars(s, d.k);
    if k.DReg? && !d.HasJumps() then (s1, k.r)
    else if k.DReg? && k.r >= n then (Exp2Reg(s1, d.(k := k), k.r), k.r)
    else Exp2NextReg(s1, d.(k := k), n)
  }

  function ConstantOf(k: DKind): Option<Value> {
    match k
    case DNil => Some(VNil)
    case DTrue => Some(VBool(true))
    case DFalse => Some(VBool(false))
    case DConst(v) => Some(v)
    case _ => None
  }

  /** A value as an operand: a constant, or a register. */
  ghost function Exp2RK(s: State, d: Desc, n: int): (State, RK) {
    if !d.HasJumps() && ConstantOf(d.k).Some? then (s, Const(ConstantOf(d.k).value))
    else
      var (s1, r) := Exp2AnyReg(s, d, n);
      (s1, Reg(r))
  }

  // ------------------------------------------------------------- operators

  function Inverted(code: seq<Instr>, j: int): (r: seq<Instr>)
    requires 1 <= j < |code| && code[j - 1].COMPARE?
    ensures |r| == |code|
  {
    code[j - 1 := code[j - 1].(cond := !code[j - 1].cond)]
  }

  /** Jump when the value is `cond`, and carry the value. */
  function JumpOnCond(s: State, k: DKind, n: int, cond: bool): (State, int) {
    if k.DNot? then CondJump(s, TEST(k.b, !cond))
    else
      var (s1, r) := Discharge2AnyReg(s, k);
      CondJump(FreeReg(s1, n, r), TESTSET(NO_REG, r, cond))
  }

  /** The jump that leaves when the value is not `cond`. */
  function GoIfJump(s: State, k: DKind, n: int, cond: bool): (State, set<int>)
    requires k.DJump? ==> 1 <= k.j < |s.code| && s.code[k.j - 1].COMPARE?
  {
    if NeverJumps(Abstract(k), cond) then (s, {})
    else if AlwaysJumps(Abstract(k), cond) then Jump(s)
    else if k.DJump? then (if cond then s.(code := Inverted(s.code, k.j)) else s, {k.j})
    else var (r, j) := JumpOnCond(s, k, n, !cond); (r, {j})
  }

  /** Go on if the value is `cond`: the exits for the opposite, once the others come here. */
  function GoIf(s: State, d: Desc, n: int, cond: bool): (State, set<int>)
    requires d.k.DJump? ==> 1 <= d.k.j < |s.code| && s.code[d.k.j - 1].COMPARE?
  {
    var (s1, k) := DischargeVars(s, d.k);
    var (s2, list) := GoIfJump(s1, k, n, cond);
    (PatchToHere(s2, d.Exits(cond)), d.Exits(!cond) + list)
  }

  /** The opposite of a value whose variables are discharged. */
  function NegateKind(s: State, k: DKind, n: int): (State, DKind)
    requires k.DJump? ==> 1 <= k.j < |s.code| && s.code[k.j - 1].COMPARE?
  {
    match k
    case DNil => (s, DTrue)
    case DFalse => (s, DTrue)
    case DTrue => (s, DFalse)
    case DConst(_) => (s, DFalse)
    case DJump(j) => (s.(code := Inverted(s.code, j)), k)
    case _ =>
      var (s1, r) := Discharge2AnyReg(s, k);
      (DischargeJpc(FreeReg(s1, n, r)), DNot(r))
  }

  /** The exits are exchanged, and carry no value any more. */
  function Negate(s: State, d: Desc, n: int): (State, Desc)
    requires d.k.DJump? ==> 1 <= d.k.j < |s.code| && s.code[d.k.j - 1].COMPARE?
  {
    var (s1, k) := DischargeVars(s, d.k);
    var (s2, k2) := NegateKind(s1, k, n);
    (s2.(code := WithoutValues(WithoutValues(s2.code, d.t), d.f)), Desc(k2, d.f, d.t))
  }

  /** The right operand takes over the exits of the left one. */
  function Join(s: State, d: Desc, exits: set<int>, cond: bool): (State, Desc) {
    var (s1, k) := DischargeVars(s, d.k);
    (s1, if cond then Desc(k, d.t, d.f + exits) else Desc(k, d.t + exits, d.f))
  }

  function CompareInstr(op: RelOp, x: RK, y: RK): Instr {
    match op
    case OpEq => COMPARE(EQ, true, x, y)
    case OpNe => COMPARE(EQ, false, x, y)
    case OpLt => COMPARE(LT, true, x, y)
    case OpLe => COMPARE(LE, true, x, y)
    case OpGt => COMPARE(LT, true, y, x)
    case OpGe => COMPARE(LE, true, y, x)
  }

  function FreeOperand(s: State, n: int, x: RK): State {
    if x.Reg? then FreeReg(s, n, x.r) else s
  }

  function Compare(s: State, op: RelOp, x: RK, y: RK, n: int): (State, Desc) {
    var (s1, j) := CondJump(FreeOperand(FreeOperand(s, n, y), n, x), CompareInstr(op, x, y));
    (s1, Desc(DJump(j), {}, {}))
  }
}
