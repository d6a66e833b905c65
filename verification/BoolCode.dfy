/** The opcodes that boolean expressions compile to, and code with unpatched jumps. */
module BoolCode {
  import opened Common
  import opened BoolExpr

  const NO_REG: int := -1
  const NO_JUMP: int := -1

  /** An operand of a comparison: a register or a constant. */
  datatype RK = Reg(r: int) | Const(v: Value)

  /** A jump with offset NO_JUMP is not patched yet. */
  datatype Instr =
    | MOVE(a: int, b: int)
    | LOADK(a: int, v: Value)
    | LOADBOOL(a: int, value: bool, skip: bool)
    | LOADNIL(a: int)
    | GETGLOBAL(a: int, g: string)
    | NOT(a: int, b: int)
    | JMP(off: int)
    | COMPARE(op: CmpOp, cond: bool, x: RK, y: RK)
    | TEST(a: int, c: bool)
    | TESTSET(a: int, b: int, c: bool)

  type Regs = m: imap<int, Value> | forall r: int :: r in m ghost witness imap r: int :: VNil

  ghost function Operand(R: Regs, x: RK): Value {
    match x
    case Reg(r) => R[r]
    case Const(v) => v
  }

  /** The instructions of test mode, which control the jump that follows them. */
  predicate IsTest(i: Instr) {
    i.COMPARE? || i.TEST? || i.TESTSET?
  }

  /** Whether a test lets the jump after it be taken. */
  ghost predicate Taken(w: World, i: Instr, R: Regs)
    requires IsTest(i)
  {
    match i
    case COMPARE(op, cond, x, y) => w.Compare(op, Operand(R, x), Operand(R, y)) == cond
    case TEST(a, c) => Truthy(R[a]) == c
    case TESTSET(a, b, c) => Truthy(R[b]) == c
  }

  /** The instructions that compute a value into register A. */
  predicate IsLoad(i: Instr) {
    i.MOVE? || i.LOADK? || i.LOADBOOL? || i.LOADNIL? || i.GETGLOBAL? || i.NOT?
  }

  ghost function Loaded(w: World, i: Instr, R: Regs): Value
    requires IsLoad(i)
  {
    match i
    case MOVE(_, b) => R[b]
    case LOADK(_, v) => v
    case LOADBOOL(_, b, _) => VBool(b)
    case LOADNIL(_) => VNil
    case GETGLOBAL(_, g) => w.globals(g)
    case NOT(_, b) => VBool(!Truthy(R[b]))
  }

  /** The instruction that tests for the jump at `j`, or the jump itself. */
  function Control(code: seq<Instr>, j: int): int
    requires 0 <= j < |code|
  {
    if j >= 1 && IsTest(code[j - 1]) then j - 1 else j
  }

  /** The jump at `j` carries the tested value with it. */
  predicate Carries(code: seq<Instr>, j: int)
    requires 0 <= j < |code|
  {
    code[Control(code, j)].TESTSET?
  }

  predicate Pending(code: seq<Instr>, j: int) {
    0 <= j < |code| && code[j] == JMP(NO_JUMP)
  }

  /** Runs start at the beginning of an instruction: not at a jump that a test controls. */
  predicate IsStart(code: seq<Instr>, pc: int) {
    0 <= pc <= |code| && (pc > 0 ==> !IsTest(code[pc - 1]))
  }

  /** Tests are followed by jumps, and patched jumps go forward, at most to the end. */
  ghost predicate CodeOk(code: seq<Instr>) {
    && (forall i :: 0 <= i < |code| && IsTest(code[i]) ==> i + 1 < |code| && code[i + 1].JMP?)
    && (forall i :: 0 <= i < |code| && code[i].LOADBOOL? && code[i].skip ==> IsStart(code, i + 2))
    && (forall i :: 0 <= i < |code| && code[i].JMP? && code[i].off != NO_JUMP ==>
                      0 <= code[i].off && IsStart(code, i + 1 + code[i].off))
  }

  /** How a run of open code ends: at the end of the code, or at an unpatched jump,
      perhaps with a value that it carries. */
  datatype Stop = Fall(R: Regs) | Exit(j: int, R: Regs, carried: Option<Value>)

  /** One instruction of the virtual machine. */
  datatype Move = Goto(pc: int, R: Regs) | Leave(j: int, R: Regs, carried: Option<Value>)

  ghost function JumpAt(code: seq<Instr>, j: int, R: Regs, moved: Regs, carried: Option<Value>): Move
    requires 0 <= j < |code| && code[j].JMP?
  {
    if code[j].off == NO_JUMP then Leave(j, R, carried) else Goto(j + 1 + code[j].off, moved)
  }

  ghost function Step(w: World, code: seq<Instr>, pc: int, R: Regs): (m: Move)
    requires CodeOk(code) && IsStart(code, pc) && pc < |code|
    ensures m.Goto? ==> pc < m.pc && IsStart(code, m.pc)
    ensures m.Leave? ==> pc <= m.j && Pending(code, m.j) && (m.carried.Some? <==> Carries(code, m.j))
  {
    var i := code[pc];
    if i.JMP? then JumpAt(code, pc, R, R, None)
    else if !IsTest(i) then Goto(if i.LOADBOOL? && i.skip then pc + 2 else pc + 1, R[i.a := Loaded(w, i, R)])
    else if !Taken(w, i, R) then Goto(pc + 2, R)
    else if i.TESTSET? then JumpAt(code, pc + 1, R, R[i.a := R[i.b]], Some(R[i.b]))
    else JumpAt(code, pc + 1, R, R, None)
  }

  /** Run the code from `pc` until it ends. */
  ghost function Exec(w: World, code: seq<Instr>, pc: int, R: Regs): (s: Stop)
    requires CodeOk(code) && IsStart(code, pc)
    ensures s.Exit? ==> pc <= s.j && Pending(code, s.j) && (s.carried.Some? <==> Carries(code, s.j))
    decreases |code| - pc
  {
    if pc == |code| then Fall(R)
    else
      var m := Step(w, code, pc, R);
      if m.Leave? then Exit(m.j, m.R, m.carried) else Exec(w, code, m.pc, m.R)
  }

  // --------------------------------------------------------------- appending

  lemma AppendStart(code: seq<Instr>, more: seq<Instr>, pc: int)
    requires CodeOk(code) && IsStart(code, pc)
    ensures IsStart(code + more, pc)
  {
  }

  lemma EndIsStart(code: seq<Instr>)
    requires CodeOk(code)
    ensures IsStart(code, |code|)
  {
  }

  lemma AppendOk(code: seq<Instr>, more: seq<Instr>)
    requires CodeOk(code) && CodeOk(more)
    ensures CodeOk(code + more)
  {
    var all := code + more;
    forall i | 0 <= i < |all| && IsTest(all[i]) ensures i + 1 < |all| && all[i + 1].JMP? {
      if i >= |code| { assert more[i - |code| + 1].JMP?; } else { assert code[i + 1].JMP?; }
    }
    forall i | 0 <= i < |all| && all[i].JMP? && all[i].off != NO_JUMP ensures 0 <= all[i].off
    && IsStart(all, i + 1 + all[i].off) {
      if i >= |code| {
        assert IsStart(more, i - |code| + 1 + more[i - |code|].off);
      } else {
        AppendStart(code, more, i + 1 + all[i].off);
      }
    }
    forall i | 0 <= i < |all| && all[i].LOADBOOL? && all[i].skip ensures IsStart(all, i + 2) {
      if i >= |code| { assert IsStart(more, i - |code| + 2); } else { AppendStart(code, more, i + 2); }
    }
  }

  /** Code appended at the end takes over where the code before it falls. */
  lemma {:induction false} AppendRuns(w: World, code: seq<Instr>, more: seq<Instr>, pc: int, R: Regs)
    requires CodeOk(code) && CodeOk(code + more) && IsStart(code, pc)
    ensures IsStart(code + more, pc) && IsStart(code + more, |code|)
    ensures var s := Exec(w, code, pc, R);
            Exec(w, code + more, pc, R) == if s.Fall? then Exec(w, code + more, |code|, s.R) else s
    decreases |code| - pc
  {
    AppendStart(code, more, pc);
    EndIsStart(code);
    AppendStart(code, more, |code|);
    if pc < |code| {
      var m := Step(w, code, pc, R);
      assert IsTest(code[pc]) ==> pc + 1 < |code|;
      SameStep(w, code, code + more, pc, R);
      hide CodeOk, Step, IsStart;
      if m.Goto? { AppendRuns(w, code, more, m.pc, m.R); }
    }
  }

  /** A step looks only at the instruction, and the jump it controls. */
  lemma SameStep(w: World, code: seq<Instr>, other: seq<Instr>, pc: int, R: Regs)
    requires CodeOk(code) && CodeOk(other) && IsStart(code, pc) && IsStart(other, pc) && pc < |code| && pc < |other|
    requires code[pc] == other[pc] && (IsTest(code[pc]) ==>
                                         pc + 1 < |code| && pc + 1 < |other| && code[pc + 1] == other[pc + 1])
    ensures Step(w, other, pc, R) == Step(w, code, pc, R)
    ensures var m := Step(w, code, pc, R); m.Leave? ==> m.j == if IsTest(code[pc]) then pc + 1 else pc
  {
  }

  // ---------------------------------------------------------------- patching

  /** A TESTSET whose value goes to `reg`; one without a register to go to, or with
      the value there already, is a TEST. */
  function PatchedTest(i: Instr, reg: int): Instr
    requires i.TESTSET?
  {
    if reg != NO_REG && reg != i.b then TESTSET(reg, i.b, i.c) else TEST(i.b, i.c)
  }

  function PatchedInstr(code: seq<Instr>, list: set<int>, vtarget: int, reg: int, dtarget: int, i: int): Instr
    requires 0 <= i < |code|
  {
    if i in list then JMP((if Carries(code, i) then vtarget else dtarget) - (i + 1))
    else if i + 1 in list && i + 1 < |code| && code[i].TESTSET? then PatchedTest(code[i], reg)
    else code[i]
  }

  /** The jumps of a list patched: those that carry a value take it to `reg` and go to
      `vtarget`, the others go to `dtarget`. */
  function PatchList(code: seq<Instr>, list: set<int>, vtarget: int, reg: int, dtarget: int): (r: seq<Instr>)
    ensures |r| == |code| && forall i :: 0 <= i < |code| ==> r[i] == PatchedInstr(code, list, vtarget, reg, dtarget, i)
  {
    seq(|code|, i requires 0 <= i < |code| => PatchedInstr(code, list, vtarget, reg, dtarget, i))
  }

  ghost predicate ListOk(code: seq<Instr>, list: set<int>) {
    forall j :: j in list ==> Pending(code, j)
  }

  ghost predicate TargetsOk(code: seq<Instr>, list: set<int>, vtarget: int, dtarget: int) {
    forall j :: j in list && Pending(code, j) ==>
      var t := if Carries(code, j) then vtarget else dtarget;
      j < t && IsStart(code, t)
  }

  lemma PatchStart(code: seq<Instr>, list: set<int>, vtarget: int, reg: int, dtarget: int, pc: int)
    requires CodeOk(code) && ListOk(code, list)
    ensures IsStart(code, pc) <==> IsStart(PatchList(code, list, vtarget, reg, dtarget), pc)
  {
  }

  lemma PatchOk(code: seq<Instr>, list: set<int>, vtarget: int, reg: int, dtarget: int)
    requires CodeOk(code) && ListOk(code, list) && TargetsOk(code, list, vtarget, dtarget)
    ensures CodeOk(PatchList(code, list, vtarget, reg, dtarget))
  {
    var r := PatchList(code, list, vtarget, reg, dtarget);
    hide IsStart, PatchList;
    forall i | 0 <= i < |r| && IsTest(r[i]) ensures i + 1 < |r| && r[i + 1].JMP? {
      assert i !in list && IsTest(code[i]);
      assert code[i + 1].JMP?;
    }
    forall i | 0 <= i < |r| && r[i].JMP? && r[i].off != NO_JUMP ensures 0 <= r[i].off && IsStart(r, i + 1 + r[i].off) {
      PatchStart(code, list, vtarget, reg, dtarget, i + 1 + r[i].off);
      if i !in list { assert code[i] == r[i]; }
    }
    forall i | 0 <= i < |r| && r[i].LOADBOOL? && r[i].skip ensures IsStart(r, i + 2) {
      PatchStart(code, list, vtarget, reg, dtarget, i + 2);
      assert code[i] == r[i];
    }
  }

  /** Patching a list leaves the other unpatched jumps alone. */
  lemma PatchPending(code: seq<Instr>, list: set<int>, vtarget: int, reg: int, dtarget: int, j: int)
    requires CodeOk(code) && ListOk(code, list) && TargetsOk(code, list, vtarget, dtarget)
    ensures var r := PatchList(code, list, vtarget, reg, dtarget);
            && (Pending(r, j) <==> Pending(code, j) && j !in list)
            && (Pending(r, j) ==> Carries(r, j) == Carries(code, j))
  {
  }

  /** Where a stop leads once the jumps of a list are patched. */
  ghost function Resume(w: World, r: seq<Instr>, list: set<int>, vtarget: int, reg: int, dtarget: int, s: Stop): Stop
    requires CodeOk(r) && (s.Exit? && s.j in list ==> IsStart(r, if s.carried.Some? then vtarget else dtarget))
  {
    if s.Exit? && s.j in list then
      if s.carried.Some? then Exec(w, r, vtarget, if reg == NO_REG then s.R else s.R[reg := s.carried.value])
      else Exec(w, r, dtarget, s.R)
    else s
  }

  lemma PatchStep(w: World, code: seq<Instr>, list: set<int>, vtarget: int, reg: int, dtarget: int, pc: int, R: Regs)
    requires CodeOk(code) && ListOk(code, list) && TargetsOk(code, list, vtarget, dtarget)
    requires CodeOk(PatchList(code, list, vtarget, reg, dtarget))
    requires IsStart(code, pc) && IsStart(PatchList(code, list, vtarget, reg, dtarget), pc) && pc < |code|
    ensures var m, n := Step(w, code, pc, R), Step(w, PatchList(code, list, vtarget, reg, dtarget), pc, R);
            if m.Leave? && m.j in list then
              if m.carried.Some? then n == Goto(vtarget, if reg == NO_REG then m.R else m.R[reg := m.carried.value])
              else n == Goto(dtarget, m.R)
            else n == m
  {
    hide PatchList, CodeOk, IsStart, ListOk, TargetsOk, Pending, Carries, Step;
    PatchFacts(code, list, vtarget, reg, dtarget, pc);
    if IsTest(code[pc]) && pc + 1 in list {
      PatchTestStep(w, code, list, vtarget, reg, dtarget, pc, R);
    } else if pc in list {
      PatchJumpStep(w, code, list, vtarget, reg, dtarget, pc, R);
    } else {
      SameStep(w, code, PatchList(code, list, vtarget, reg, dtarget), pc, R);
    }
  }

  /** The instructions at a start and after it, before and after patching. */
  lemma PatchFacts(code: seq<Instr>, list: set<int>, vtarget: int, reg: int, dtarget: int, pc: int)
    requires CodeOk(code) && ListOk(code, list) && TargetsOk(code, list, vtarget, dtarget)
    requires IsStart(code, pc) && pc < |code|
    ensures var r := PatchList(code, list, vtarget, reg, dtarget);
            && 0 <= pc && (IsTest(code[pc]) ==> pc + 1 < |code| && code[pc + 1].JMP? && r[pc + 1].JMP? && pc !in list)
            && (pc in list ==> code[pc] == JMP(NO_JUMP) && r[pc] == JMP(dtarget - (pc + 1)) && dtarget > pc)
            && (IsTest(code[pc]) && pc + 1 in list ==>
                  code[pc + 1] == JMP(NO_JUMP) && Control(code, pc + 1) == pc
                  && (if code[pc].TESTSET? then vtarget else dtarget) > pc + 1)
            && (pc !in list && !(IsTest(code[pc]) && pc + 1 in list) ==>
                  r[pc] == code[pc] && (IsTest(code[pc]) ==> r[pc + 1] == code[pc + 1]))
  {
    assert IsTest(code[pc]) && pc + 1 in list ==> Pending(code, pc + 1);
    assert pc in list ==> Pending(code, pc) && !Carries(code, pc);
  }

  lemma PatchJumpStep(w: World, code: seq<Instr>, list: set<int>, vtarget: int, reg: int, dtarget: int, pc: int,
      R: Regs)
    requires CodeOk(code) && CodeOk(PatchList(code, list, vtarget, reg, dtarget))
    requires IsStart(code, pc) && IsStart(PatchList(code, list, vtarget, reg, dtarget), pc) && pc < |code|
    requires code[pc] == JMP(NO_JUMP) && PatchList(code, list, vtarget, reg, dtarget)[pc] == JMP(dtarget - (pc + 1))
    requires dtarget > pc
    ensures Step(w, code, pc, R) == Leave(pc, R, None)
    ensures Step(w, PatchList(code, list, vtarget, reg, dtarget), pc, R) == Goto(dtarget, R)
  {
    hide PatchList, IsStart;
  }

  lemma PatchTestStep(w: World, code: seq<Instr>, list: set<int>, vtarget: int, reg: int, dtarget: int, pc: int,
      R: Regs)
    requires CodeOk(code) && CodeOk(PatchList(code, list, vtarget, reg, dtarget))
    requires IsStart(code, pc) && IsStart(PatchList(code, list, vtarget, reg, dtarget), pc) && pc < |code|
    requires IsTest(code[pc]) && pc + 1 < |code| && code[pc + 1] == JMP(NO_JUMP) && pc + 1 in list && pc !in list
             && Control(code, pc + 1) == pc
    requires (if code[pc].TESTSET? then vtarget else dtarget) > pc + 1
    ensures var m, n := Step(w, code, pc, R), Step(w, PatchList(code, list, vtarget, reg, dtarget), pc, R);
            if m.Leave? then
              m.j == pc + 1 &&
              (if m.carried.Some? then n == Goto(vtarget, if reg == NO_REG then m.R else m.R[reg := m.carried.value])
               else n == Goto(dtarget, m.R))
            else n == m
  {
    var r := PatchList(code, list, vtarget, reg, dtarget);
    assert r[pc + 1] == JMP((if code[pc].TESTSET? then vtarget else dtarget) - (pc + 2));
    assert r[pc] == if code[pc].TESTSET? then PatchedTest(code[pc], reg) else code[pc];
    hide CodeOk, PatchList, IsStart, Control, Step, Taken;
    StepTest(w, code, pc, R);
    StepTest(w, r, pc, R);
    if code[pc].TESTSET? {
      PatchedTaken(w, code[pc], reg, R);
    }
  }

  /** A step over a test and the jump it controls. */
  lemma StepTest(w: World, code: seq<Instr>, pc: int, R: Regs)
    requires CodeOk(code) && IsStart(code, pc) && pc + 1 < |code| && IsTest(code[pc]) && code[pc + 1].JMP?
    ensures Step(w, code, pc, R) ==
            var i, off := code[pc], code[pc + 1].off;
            if !Taken(w, i, R) then Goto(pc + 2, R)
            else if off == NO_JUMP then Leave(pc + 1, R, if i.TESTSET? then Some(R[i.b]) else None)
            else Goto(pc + 2 + off, if i.TESTSET? then R[i.a := R[i.b]] else R)
  {
    hide Taken, CodeOk, IsStart;
  }

  /** A TESTSET patched to `reg` is taken as before, and leaves the tested value there. */
  lemma PatchedTaken(w: World, i: Instr, reg: int, R: Regs)
    requires i.TESTSET?
    ensures var p := PatchedTest(i, reg);
            && Taken(w, p, R) == Taken(w, i, R)
            && (if p.TESTSET? then R[p.a := R[p.b]] else R) == if reg == NO_REG then R else R[reg := R[i.b]]
  {
    assert R[i.b := R[i.b]] == R;
  }

  lemma {:induction false} PatchRuns(w: World, code: seq<Instr>, list: set<int>, vtarget: int, reg: int, dtarget: int,
      pc: int, R: Regs)
    requires CodeOk(code) && ListOk(code, list) && TargetsOk(code, list, vtarget, dtarget)
    requires CodeOk(PatchList(code, list, vtarget, reg, dtarget))
    requires IsStart(code, pc)
    ensures var s, r := Exec(w, code, pc, R), PatchList(code, list, vtarget, reg, dtarget);
            && IsStart(r, pc)
            && (s.Exit? && s.j in list ==> IsStart(r, if s.carried.Some? then vtarget else dtarget))
            && Exec(w, r, pc, R) == Resume(w, r, list, vtarget, reg, dtarget, s)
    decreases |code| - pc
  {
    var r := PatchList(code, list, vtarget, reg, dtarget);
    PatchStart(code, list, vtarget, reg, dtarget, pc);
    if pc < |code| {
      PatchStep(w, code, list, vtarget, reg, dtarget, pc, R);
      var m := Step(w, code, pc, R);
      if m.Goto? {
        hide CodeOk, Step, IsStart, TargetsOk, PatchList, ListOk;
        PatchRuns(w, code, list, vtarget, reg, dtarget, m.pc, m.R);
      } else if m.j in list {
        PatchStart(code, list, vtarget, reg, dtarget, if m.carried.Some? then vtarget else dtarget);
        hide CodeOk, Step, PatchList, ListOk;
      }
    }
  }

  /** The jumps of a list no longer carry a value. */
  function WithoutValues(code: seq<Instr>, list: set<int>): (r: seq<Instr>)
    ensures |r| == |code|
    ensures forall i :: 0 <= i < |code| ==> r[i] == if i + 1 in list && code[i].TESTSET? then TEST(code[i].b, code[i].c)
                                            else code[i]
  {
    seq(|code|, i requires 0 <= i < |code| => if i + 1 in list && code[i].TESTSET? then TEST(code[i].b, code[i].c)
        else code[i])
  }

  lemma WithoutOk(code: seq<Instr>, list: set<int>)
    requires CodeOk(code)
    ensures CodeOk(WithoutValues(code, list))
    ensures forall pc :: IsStart(WithoutValues(code, list), pc) <==> IsStart(code, pc)
    ensures forall j :: Pending(WithoutValues(code, list), j) <==> Pending(code, j)
    ensures forall j :: Pending(code, j) ==> Carries(WithoutValues(code, list), j) == (Carries(code, j) && j !in list)
  {
    var r := WithoutValues(code, list);
    forall pc ensures IsStart(r, pc) <==> IsStart(code, pc) { WithoutStart(code, list, pc); }
    forall j ensures (Pending(r, j) <==> Pending(code, j))
                     && (Pending(code, j) ==> Carries(r, j) == (Carries(code, j) && j !in list)) {
      WithoutPending(code, list, j);
    }
    hide IsStart, Pending, Carries;
    WithoutCode(code, list);
  }

  lemma WithoutStart(code: seq<Instr>, list: set<int>, pc: int)
    ensures IsStart(WithoutValues(code, list), pc) <==> IsStart(code, pc)
  {
  }

  lemma WithoutPending(code: seq<Instr>, list: set<int>, j: int)
    requires CodeOk(code)
    ensures var r := WithoutValues(code, list);
            && (Pending(r, j) <==> Pending(code, j))
            && (Pending(code, j) ==> Carries(r, j) == (Carries(code, j) && j !in list))
  {
    hide IsStart;
  }

  lemma WithoutCode(code: seq<Instr>, list: set<int>)
    requires CodeOk(code) && forall pc :: IsStart(WithoutValues(code, list), pc) <==> IsStart(code, pc)
    ensures CodeOk(WithoutValues(code, list))
  {
    var r := WithoutValues(code, list);
    hide IsStart;
    assert forall i :: 0 <= i < |code| ==> IsTest(r[i]) == IsTest(code[i]) && (!code[i].TESTSET? ==> r[i] == code[i]);
  }

  ghost function Uncarried(s: Stop, list: set<int>): Stop {
    if s.Exit? && s.j in list then Exit(s.j, s.R, None) else s
  }

  lemma {:induction false} WithoutRuns(w: World, code: seq<Instr>, list: set<int>, pc: int, R: Regs)
    requires CodeOk(code) && ListOk(code, list) && CodeOk(WithoutValues(code, list)) && IsStart(code, pc)
             && IsStart(WithoutValues(code, list), pc)
    ensures Exec(w, WithoutValues(code, list), pc, R) == Uncarried(Exec(w, code, pc, R), list)
    decreases |code| - pc
  {
    var r := WithoutValues(code, list);
    if pc < |code| {
      WithoutOk(code, list);
      WithoutStep(w, code, list, pc, R);
      var m := Step(w, code, pc, R);
      if m.Goto? {
        hide CodeOk, Step, IsStart, WithoutValues, Pending, Carries;
        WithoutRuns(w, code, list, m.pc, m.R);
      }
    }
  }

  lemma WithoutStep(w: World, code: seq<Instr>, list: set<int>, pc: int, R: Regs)
    requires CodeOk(code) && ListOk(code, list) && CodeOk(WithoutValues(code, list)) && IsStart(code, pc)
             && IsStart(WithoutValues(code, list), pc) && pc < |code|
    ensures var m, n := Step(w, code, pc, R), Step(w, WithoutValues(code, list), pc, R);
            n == if m.Leave? && m.j in list then Leave(m.j, m.R, None) else m
  {
    var r := WithoutValues(code, list);
    assert IsTest(code[pc]) ==> pc + 1 < |code| && code[pc + 1].JMP? && r[pc + 1] == code[pc + 1];
    if code[pc].TESTSET? && pc + 1 in list {
      assert Pending(code, pc + 1) && r[pc] == TEST(code[pc].b, code[pc].c);
      hide CodeOk, IsStart, WithoutValues, ListOk;
    } else {
      assert r[pc] == code[pc];
      assert !code[pc].TESTSET? || pc + 1 !in list;
      var m := Step(w, code, pc, R);
      assert m.Leave? ==> m.carried.Some? ==> m.j == pc + 1 && code[pc].TESTSET?;
      hide CodeOk, IsStart, WithoutValues, ListOk, Step;
      SameStep(w, code, r, pc, R);
    }
  }
}
