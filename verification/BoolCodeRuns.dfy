/** How the steps of the code generator change the runs of the code. */
module BoolCodeRuns {
  import opened Common
  import opened BoolExpr
  import opened BoolCode
  import opened BoolCodeGen

  ghost predicate StateOk(s: State) {
    CodeOk(s.code) && ListOk(s.code, s.jpc)
  }

  /** The later code keeps the starts and, except for a list, the unpatched jumps of the
      earlier code. */
  ghost predicate Extends(code: seq<Instr>, r: seq<Instr>, list: set<int>) {
    && |code| <= |r|
    && (forall pc :: IsStart(code, pc) ==> IsStart(r, pc))
    && (forall j :: Pending(code, j) && j !in list ==> Pending(r, j) && Carries(r, j) == Carries(code, j))
  }

  lemma ExtendsAgain(code: seq<Instr>, mid: seq<Instr>, r: seq<Instr>, list: set<int>, list': set<int>, all: set<int>)
    requires Extends(code, mid, list) && Extends(mid, r, list')
    requires forall j :: j in list || (j in list' && j < |code|) ==> j in all
    ensures Extends(code, r, all)
  {
  }

  /** A run has come to the end of the code so far, by falling or by a jump on hold. */
  ghost predicate AtEnd(s: State, p: Stop) {
    p.Fall? || p.j in s.jpc
  }

  ghost function Held(p: Stop): Option<Value> {
    if p.Exit? then p.carried else None
  }

  ghost predicate Starts(s: State, pc: int) {
    StateOk(s) && IsStart(s.code, pc)
  }

  // ---------------------------------------------------- jumps on hold

  lemma DischargeOk(s: State)
    requires StateOk(s)
    ensures StateOk(DischargeJpc(s)) && Extends(s.code, DischargeJpc(s).code, s.jpc)
            && |DischargeJpc(s).code| == |s.code|
  {
    var n := |s.code|;
    EndIsStart(s.code);
    assert TargetsOk(s.code, s.jpc, n, n);
    PatchOk(s.code, s.jpc, n, NO_REG, n);
    hide CodeOk, IsStart, TargetsOk, ListOk, Pending, Carries, PatchList;
    forall pc ensures IsStart(s.code, pc) ==> IsStart(PatchList(s.code, s.jpc, n, NO_REG, n), pc) {
      PatchStart(s.code, s.jpc, n, NO_REG, n, pc);
    }
    forall j | Pending(s.code, j) && j !in s.jpc
      ensures Pending(PatchList(s.code, s.jpc, n, NO_REG, n), j)
              && Carries(PatchList(s.code, s.jpc, n, NO_REG, n), j) == Carries(s.code, j)
    {
      PatchPending(s.code, s.jpc, n, NO_REG, n, j);
    }
    NothingListed(DischargeJpc(s).code);
  }

  lemma NothingListed(code: seq<Instr>)
    ensures ListOk(code, {})
  {
  }

  lemma DischargeRuns(w: World, s: State, pc: int, R: Regs)
    requires Starts(s, pc)
    ensures var d, p := DischargeJpc(s), Exec(w, s.code, pc, R);
            Starts(d, pc) && Exec(w, d.code, pc, R) == if AtEnd(s, p) then Fall(p.R) else p
  {
    DischargeOk(s);
    var n := |s.code|;
    EndIsStart(s.code);
    assert TargetsOk(s.code, s.jpc, n, n);
    hide CodeOk, IsStart, TargetsOk, ListOk, Pending, Carries, PatchList;
    PatchRuns(w, s.code, s.jpc, n, NO_REG, n, pc, R);
  }

  // --------------------------------------------------------- appended code

  lemma LoadOk(i: Instr)
    requires IsLoad(i) && !(i.LOADBOOL? && i.skip)
    ensures CodeOk([i])
  {
  }

  lemma TestOk(i: Instr)
    requires IsTest(i)
    ensures CodeOk([i, JMP(NO_JUMP)])
  {
  }

  lemma AppendExtends(code: seq<Instr>, more: seq<Instr>)
    requires CodeOk(code) && CodeOk(more)
    ensures CodeOk(code + more) && Extends(code, code + more, {})
  {
    AppendOk(code, more);
    forall pc | IsStart(code, pc) ensures IsStart(code + more, pc) { AppendStart(code, more, pc); }
  }

  lemma AppendListOk(code: seq<Instr>, more: seq<Instr>, list: set<int>)
    requires ListOk(code, list)
    ensures ListOk(code + more, list)
  {
  }

  lemma EmitOk(s: State, i: Instr)
    requires StateOk(s) && IsLoad(i) && !(i.LOADBOOL? && i.skip)
    ensures StateOk(Emit(s, i)) && Extends(s.code, Emit(s, i).code, s.jpc)
    ensures |Emit(s, i).code| == |s.code| + 1 && Emit(s, i).jpc == {}
  {
    DischargeOk(s);
    LoadOk(i);
    hide CodeOk, Extends, ListOk;
    AppendExtends(DischargeJpc(s).code, [i]);
    ExtendsAgain(s.code, DischargeJpc(s).code, Emit(s, i).code, s.jpc, {}, s.jpc);
    NothingListed(Emit(s, i).code);
  }

  lemma LoadRuns(w: World, code: seq<Instr>, i: Instr, R: Regs)
    requires CodeOk(code) && CodeOk(code + [i]) && IsStart(code + [i], |code|) && IsLoad(i) && !(i.LOADBOOL? && i.skip)
    ensures Exec(w, code + [i], |code|, R) == Fall(R[i.a := Loaded(w, i, R)])
  {
    assert (code + [i])[|code|] == i;
  }

  /** An emitted load runs where the code before it comes to its end. */
  lemma EmitRuns(w: World, s: State, i: Instr, pc: int, R: Regs)
    requires Starts(s, pc) && IsLoad(i) && !(i.LOADBOOL? && i.skip)
    ensures Starts(Emit(s, i), pc)
    ensures var p := Exec(w, s.code, pc, R);
            Exec(w, Emit(s, i).code, pc, R) == if AtEnd(s, p) then Fall(p.R[i.a := Loaded(w, i, p.R)]) else p
  {
    EmitOk(s, i);
    DischargeRuns(w, s, pc, R);
    var d, p := DischargeJpc(s), Exec(w, s.code, pc, R);
    hide CodeOk, IsStart, ListOk, Exec, DischargeJpc;
    AppendRuns(w, d.code, [i], pc, R);
    if AtEnd(s, p) { LoadRuns(w, d.code, i, p.R); }
  }

  lemma CondJumpOk(s: State, i: Instr)
    requires StateOk(s) && IsTest(i)
    ensures var (r, j) := CondJump(s, i);
            && StateOk(r) && Extends(s.code, r.code, s.jpc) && r.jpc == {}
            && j == |s.code| + 1 == |r.code| - 1 && r.code[j - 1] == i && Pending(r.code, j)
            && Carries(r.code, j) == i.TESTSET?
  {
    DischargeOk(s);
    TestOk(i);
    var (r, j) := CondJump(s, i);
    assert r.code[j - 1] == i && r.code[j] == JMP(NO_JUMP);
    hide CodeOk, Extends, ListOk;
    AppendExtends(DischargeJpc(s).code, [i, JMP(NO_JUMP)]);
    ExtendsAgain(s.code, DischargeJpc(s).code, r.code, s.jpc, {}, s.jpc);
    NothingListed(r.code);
  }

  ghost function CarriedBy(i: Instr, R: Regs): Option<Value> {
    if i.TESTSET? then Some(R[i.b]) else None
  }

  lemma TestRuns(w: World, code: seq<Instr>, i: Instr, R: Regs)
    requires CodeOk(code) && IsTest(i)
    requires var all := code + [i, JMP(NO_JUMP)]; CodeOk(all) && IsStart(all, |code|)
    ensures Exec(w, code + [i, JMP(NO_JUMP)], |code|, R) == if Taken(w, i, R) then Exit(|code| + 1, R, CarriedBy(i, R))
            else Fall(R)
  {
    var all := code + [i, JMP(NO_JUMP)];
    assert all[|code|] == i && all[|code| + 1] == JMP(NO_JUMP);
  }

  /** A test runs where the code before it comes to its end; taken, it leaves by its jump. */
  lemma CondJumpRuns(w: World, s: State, i: Instr, pc: int, R: Regs)
    requires Starts(s, pc) && IsTest(i)
    ensures var (r, j) := CondJump(s, i);
            var p := Exec(w, s.code, pc, R);
            Starts(r, pc) &&
            Exec(w, r.code, pc, R) ==
              if !AtEnd(s, p) then p
              else if Taken(w, i, p.R) then Exit(j, p.R, CarriedBy(i, p.R))
              else Fall(p.R)
  {
    CondJumpOk(s, i);
    DischargeRuns(w, s, pc, R);
    var d, p := DischargeJpc(s), Exec(w, s.code, pc, R);
    var more := [i, JMP(NO_JUMP)];
    hide CodeOk, IsStart, ListOk, Exec, DischargeJpc;
    AppendRuns(w, d.code, more, pc, R);
    if AtEnd(s, p) { TestRuns(w, d.code, i, p.R); }
  }

  lemma JumpOk(s: State)
    requires StateOk(s)
    ensures var (r, list) := Jump(s);
            && StateOk(r) && Extends(s.code, r.code, {}) && r.jpc == {} && |r.code| == |s.code| + 1
            && ListOk(r.code, list) && Pending(r.code, |s.code|) && !Carries(r.code, |s.code|)
  {
    var (r, list) := Jump(s);
    var more := [JMP(NO_JUMP)];
    EndIsStart(s.code);
    assert r.code[|s.code|] == JMP(NO_JUMP) && (|s.code| > 0 ==> r.code[|s.code| - 1] == s.code[|s.code| - 1]);
    assert CodeOk(more);
    hide CodeOk, Extends;
    AppendExtends(s.code, more);
    AppendListOk(s.code, more, s.jpc);
  }

  lemma JumpHere(w: World, code: seq<Instr>, R: Regs)
    requires CodeOk(code) && CodeOk(code + [JMP(NO_JUMP)]) && IsStart(code + [JMP(NO_JUMP)], |code|)
    ensures Exec(w, code + [JMP(NO_JUMP)], |code|, R) == Exit(|code|, R, None)
  {
    assert (code + [JMP(NO_JUMP)])[|code|] == JMP(NO_JUMP);
  }

  /** Falling into the jump leaves by it; the jumps on hold stay as they are. */
  lemma JumpRuns(w: World, s: State, pc: int, R: Regs)
    requires Starts(s, pc)
    ensures var (r, list) := Jump(s);
            var p := Exec(w, s.code, pc, R);
            Starts(r, pc) && Exec(w, r.code, pc, R) == if p.Fall? then Exit(|s.code|, p.R, None) else p
  {
    JumpOk(s);
    var more := [JMP(NO_JUMP)];
    hide CodeOk, IsStart, ListOk, Exec;
    AppendRuns(w, s.code, more, pc, R);
    if Exec(w, s.code, pc, R).Fall? { JumpHere(w, s.code, Exec(w, s.code, pc, R).R); }
  }

  // ----------------------------------------------------- inverted comparisons

  lemma InvertOk(code: seq<Instr>, j: int)
    requires CodeOk(code) && 1 <= j < |code| && code[j - 1].COMPARE?
    ensures CodeOk(Inverted(code, j)) && Extends(code, Inverted(code, j), {})
    ensures forall x :: Pending(Inverted(code, j), x) <==> Pending(code, x)
    ensures Inverted(code, j)[j - 1].COMPARE? && Inverted(code, j)[j] == code[j]
  {
    forall pc ensures IsStart(Inverted(code, j), pc) <==> IsStart(code, pc) { InvertStart(code, j, pc); }
    forall x ensures Pending(Inverted(code, j), x) <==> Pending(code, x) { InvertPending(code, j, x); }
    forall x | Pending(code, x) ensures Carries(Inverted(code, j), x) == Carries(code, x) { InvertPending(code, j, x); }
    hide IsStart, Pending, Carries, CodeOk, Inverted;
    InvertCode(code, j);
    assert Inverted(code, j)[j - 1].COMPARE? && Inverted(code, j)[j] == code[j] by { InvertedAt(code, j); }
  }

  lemma InvertedAt(code: seq<Instr>, j: int)
    requires 1 <= j < |code| && code[j - 1].COMPARE?
    ensures Inverted(code, j)[j - 1].COMPARE? && Inverted(code, j)[j] == code[j]
  {
  }

  lemma InvertPending(code: seq<Instr>, j: int, x: int)
    requires 1 <= j < |code| && code[j - 1].COMPARE?
    ensures Pending(Inverted(code, j), x) <==> Pending(code, x)
    ensures Pending(code, x) ==> Carries(Inverted(code, j), x) == Carries(code, x)
  {
  }

  lemma InvertCode(code: seq<Instr>, j: int)
    requires CodeOk(code) && 1 <= j < |code| && code[j - 1].COMPARE?
    requires forall pc :: IsStart(Inverted(code, j), pc) <==> IsStart(code, pc)
    ensures CodeOk(Inverted(code, j))
  {
    hide IsStart;
    var r := Inverted(code, j);
    assert forall i :: 0 <= i < |code| ==> IsTest(r[i]) == IsTest(code[i]) && (i != j - 1 ==> r[i] == code[i]);
  }

  lemma InvertStart(code: seq<Instr>, j: int, pc: int)
    requires 1 <= j < |code| && code[j - 1].COMPARE?
    ensures IsStart(Inverted(code, j), pc) <==> IsStart(code, pc)
  {
  }

  /** A comparison at the end of the code, inverted, exchanges its jump and its fall. */
  ghost function Swapped(p: Stop, j: int): Stop {
    if p.Fall? then Exit(j, p.R, None) else if p.j == j then Fall(p.R) else p
  }

  lemma InvertRuns(w: World, code: seq<Instr>, j: int, pc: int, R: Regs)
    requires CodeOk(code) && 1 <= j == |code| - 1 && code[j - 1].COMPARE? && code[j] == JMP(NO_JUMP)
    requires CodeOk(code[..j - 1]) && IsStart(code[..j - 1], pc)
    ensures CodeOk(Inverted(code, j)) && IsStart(code, pc) && IsStart(Inverted(code, j), pc)
    ensures Exec(w, Inverted(code, j), pc, R) == Swapped(Exec(w, code, pc, R), j)
  {
    InvertOk(code, j);
    EndIsStart(code[..j - 1]);
    InvertSplit(code, j);
    hide *;
    InvertedRuns(w, code[..j - 1], code[j - 1], pc, R);
  }

  lemma InvertSplit(code: seq<Instr>, j: int)
    requires 1 <= j == |code| - 1 && code[j - 1].COMPARE? && code[j] == JMP(NO_JUMP)
    ensures var pre, i := code[..j - 1], code[j - 1];
            |pre| == j - 1 && code == pre + [i, JMP(NO_JUMP)]
            && Inverted(code, j) == pre + [i.(cond := !i.cond), JMP(NO_JUMP)]
  {
  }

  lemma InvertedRuns(w: World, pre: seq<Instr>, i: Instr, pc: int, R: Regs)
    requires i.COMPARE? && CodeOk(pre) && IsStart(pre, pc) && IsStart(pre, |pre|)
    requires CodeOk(pre + [i, JMP(NO_JUMP)]) && CodeOk(pre + [i.(cond := !i.cond), JMP(NO_JUMP)])
    ensures IsStart(pre + [i, JMP(NO_JUMP)], pc) && IsStart(pre + [i.(cond := !i.cond), JMP(NO_JUMP)], pc)
    ensures Exec(w, pre + [i.(cond := !i.cond), JMP(NO_JUMP)], pc,
                 R) == Swapped(Exec(w, pre + [i, JMP(NO_JUMP)], pc, R), |pre| + 1)
  {
    var i' := i.(cond := !i.cond);
    var p := Exec(w, pre, pc, R);
    hide CodeOk, IsStart, Exec;
    AppendRuns(w, pre, [i, JMP(NO_JUMP)], pc, R);
    AppendRuns(w, pre, [i', JMP(NO_JUMP)], pc, R);
    if p.Fall? {
      TestRuns(w, pre, i, p.R);
      TestRuns(w, pre, i', p.R);
    }
  }
}
