/** The programs of the code generator with their LOADNILs merged or left out, as `luaK_nil`
    does while it emits: they leave the same registers. */
module NilPrograms {
  import opened Common
  import opened BoolExpr
  import opened BoolCode
  import opened BoolCodeGen
  import opened BoolCodeRuns
  import opened BoolCodeCorrect
  import opened BoolCodeValue
  import BoolCompiler
  import BoolCodeListed

  /** LOADNIL fills a range of registers; the other instructions are as they were. */
  datatype Op = Plain(i: Instr) | Nils(a: int, b: int)

  ghost function Filled(R: Regs, a: int, b: int): Regs {
    imap r: int :: if a <= r <= b then VNil else R[r]
  }

  predicate TestAt(c: seq<Op>, i: int) {
    0 <= i < |c| && c[i].Plain? && IsTest(c[i].i)
  }

  predicate JumpAt(c: seq<Op>, i: int) {
    0 <= i < |c| && c[i].Plain? && c[i].i.JMP?
  }

  predicate SkipAt(c: seq<Op>, i: int) {
    0 <= i < |c| && c[i].Plain? && c[i].i.LOADBOOL? && c[i].i.skip
  }

  predicate Entry(c: seq<Op>, pc: int) {
    0 <= pc <= |c| && !TestAt(c, pc - 1)
  }

  /** All jumps are patched, and go forward to where runs may come in. */
  ghost predicate Finished(c: seq<Op>) {
    && (forall i :: TestAt(c, i) ==> JumpAt(c, i + 1))
    && (forall i :: JumpAt(c, i) ==> 0 <= c[i].i.off && Entry(c, i + 1 + c[i].i.off))
    && (forall i :: SkipAt(c, i) ==> Entry(c, i + 2))
    && (forall i :: 0 <= i < |c| && c[i].Plain? ==> !c[i].i.LOADNIL?)
  }

  /** One instruction: where it goes, and the registers. */
  ghost function Step(w: World, c: seq<Op>, pc: int, R: Regs): (m: (int, Regs))
    requires Finished(c) && Entry(c, pc) && pc < |c|
    ensures pc < m.0 && Entry(c, m.0)
  {
    if c[pc].Nils? then (pc + 1, Filled(R, c[pc].a, c[pc].b))
    else
      var i := c[pc].i;
      if i.JMP? then (pc + 1 + i.off, R)
      else if !IsTest(i) then (if SkipAt(c, pc) then pc + 2 else pc + 1, R[i.a := Loaded(w, i, R)])
      else
        assert TestAt(c, pc) && JumpAt(c, pc + 1);
        if !Taken(w, i, R) then (pc + 2, R)
        else (pc + 2 + c[pc + 1].i.off, if i.TESTSET? then R[i.a := R[i.b]] else R)
  }

  /** The registers at the end. */
  ghost function Exec(w: World, c: seq<Op>, pc: int, R: Regs): Regs
    requires Finished(c) && Entry(c, pc)
    decreases |c| - pc
  {
    if pc == |c| then R else var m := Step(w, c, pc, R); Exec(w, c, m.0, m.1)
  }

  // ----------------------------------------------- the generator's programs

  function Lift(i: Instr): Op {
    if i.LOADNIL? then Nils(i.a, i.a) else Plain(i)
  }

  function Lifted(code: seq<Instr>): (c: seq<Op>)
    ensures |c| == |code| && forall i :: 0 <= i < |c| ==> c[i] == Lift(code[i])
  {
    seq(|code|, i requires 0 <= i < |code| => Lift(code[i]))
  }

  lemma LiftedOk(code: seq<Instr>)
    requires CodeOk(code) && forall j :: !Pending(code, j)
    ensures Finished(Lifted(code)) && forall pc :: Entry(Lifted(code), pc) <==> IsStart(code, pc)
  {
    hide IsStart, Entry, CodeOk, Pending, Lifted;
    var c := Lifted(code);
    forall pc ensures Entry(c, pc) <==> IsStart(code, pc) { LiftedEntry(code, pc); }
    forall i | TestAt(c, i) ensures JumpAt(c, i + 1) { LiftedTest(code, i); }
    forall i | JumpAt(c, i) ensures 0 <= c[i].i.off && Entry(c, i + 1 + c[i].i.off) { LiftedJump(code, i); }
    forall i | SkipAt(c, i) ensures Entry(c, i + 2) { LiftedSkip(code, i); }
  }

  lemma LiftedEntry(code: seq<Instr>, pc: int)
    ensures Entry(Lifted(code), pc) <==> IsStart(code, pc)
  {
  }

  lemma LiftedTest(code: seq<Instr>, i: int)
    requires CodeOk(code) && TestAt(Lifted(code), i)
    ensures JumpAt(Lifted(code), i + 1)
  {
    hide IsStart;
    assert IsTest(code[i]);
  }

  lemma LiftedJump(code: seq<Instr>, i: int)
    requires CodeOk(code) && (forall j :: !Pending(code, j)) && JumpAt(Lifted(code), i)
    ensures 0 <= Lifted(code)[i].i.off && IsStart(code, i + 1 + Lifted(code)[i].i.off)
  {
    hide IsStart;
    assert !Pending(code, i);
  }

  lemma LiftedSkip(code: seq<Instr>, i: int)
    requires CodeOk(code) && SkipAt(Lifted(code), i)
    ensures IsStart(code, i + 2)
  {
    hide IsStart;
  }

  lemma LiftedStep(w: World, code: seq<Instr>, pc: int, R: Regs)
    requires CodeOk(code) && (forall j :: !Pending(code, j)) && IsStart(code, pc) && pc < |code|
    requires Finished(Lifted(code)) && Entry(Lifted(code), pc)
    ensures var m := Step(w, Lifted(code), pc, R); BoolCode.Step(w, code, pc, R) == Goto(m.0, m.1)
  {
    assert !Pending(code, pc) && !Pending(code, pc + 1);
    var c := Lifted(code);
    if IsTest(code[pc]) {
      assert TestAt(c, pc) && JumpAt(c, pc + 1);
      hide CodeOk, Finished, Taken, BoolCode.Step, Step;
      StepTest(w, code, pc, R);
      TestStep(w, c, pc, R);
    } else {
      assert !TestAt(c, pc);
      hide CodeOk, Finished, Step;
      PlainStep(w, c, pc, R);
      if code[pc].LOADNIL? { assert Filled(R, code[pc].a, code[pc].a) == R[code[pc].a := VNil]; }
    }
  }

  lemma {:induction false} LiftedRuns(w: World, code: seq<Instr>, pc: int, R: Regs)
    requires CodeOk(code) && (forall j :: !Pending(code, j)) && IsStart(code, pc)
    ensures Finished(Lifted(code)) && Entry(Lifted(code), pc)
    ensures BoolCode.Exec(w, code, pc, R) == Fall(Exec(w, Lifted(code), pc, R))
    decreases |code| - pc
  {
    LiftedOk(code);
    if pc < |code| {
      LiftedStep(w, code, pc, R);
      var m := Step(w, Lifted(code), pc, R);
      hide CodeOk, Finished, Step, BoolCode.Step;
      LiftedRuns(w, code, m.0, m.1);
    }
  }

  // ----------------------------------------------- leaving an instruction out

  /** The place of an instruction, or target, once instruction `k` is gone. */
  function Shift(pc: int, k: int): int {
    if pc <= k then pc else pc - 1
  }

  function Shorter(c: seq<Op>, i: int, k: int): Op
    requires 0 <= i < |c|
  {
    if JumpAt(c, i) && i < k < i + 1 + c[i].i.off then Plain(JMP(c[i].i.off - 1)) else c[i]
  }

  /** Without instruction `k`; jumps over it get shorter. */
  function Without(c: seq<Op>, k: int): (r: seq<Op>)
    requires 0 <= k < |c|
    ensures |r| == |c| - 1
    ensures forall i :: 0 <= i < |r| ==> r[i] == Shorter(c, if i < k then i else i + 1, k)
  {
    seq(|c| - 1, i requires 0 <= i < |c| - 1 => Shorter(c, if i < k then i else i + 1, k))
  }

  /** No jump and no skip goes to `k`. */
  ghost predicate NoLabel(c: seq<Op>, k: int) {
    && (forall i :: JumpAt(c, i) ==> i + 1 + c[i].i.off != k)
    && (forall i :: SkipAt(c, i) ==> i + 2 != k)
  }

  function Max(x: int, y: int): int { if x > y then x else y }

  /** What `luaK_nil` does where no jump comes in: at the start of the function a fill of
      registers above the active variables is left out, and elsewhere a fill that connects
      with the one before it is merged into that. */
  ghost predicate Saves(c: seq<Op>, k: int, n: int, r: seq<Op>) {
    && 0 <= k < |c| && c[k].Nils? && NoLabel(c, k)
    && if k == 0 then c[0].a >= n && r == Without(c, 0)
       else c[k - 1].Nils? && c[k - 1].a <= c[k].a <= c[k - 1].b + 1
            && r == Without(c, k)[k - 1 := Nils(c[k - 1].a, Max(c[k - 1].b, c[k].b))]
  }

  /** Above the active variables everything is nil. */
  ghost predicate Fresh(R: Regs, n: int) {
    forall r :: r >= n ==> R[r] == VNil
  }

  lemma SavedAt(c: seq<Op>, k: int, n: int, r: seq<Op>, i: int)
    requires Saves(c, k, n, r) && 0 <= i < |c| && i != k && i != k - 1
    ensures 0 <= Shift(i, k) < |r| && r[Shift(i, k)] == Shorter(c, i, k)
  {
  }

  lemma SavedEntry(c: seq<Op>, k: int, n: int, r: seq<Op>, pc: int)
    requires Finished(c) && Saves(c, k, n, r) && Entry(c, pc) && pc != k
    ensures Entry(r, Shift(pc, k))
  {
  }

  lemma SavedOk(c: seq<Op>, k: int, n: int, r: seq<Op>)
    requires Finished(c) && Saves(c, k, n, r)
    ensures Finished(r)
  {
    hide Entry, Saves;
    SavedSize(c, k, n, r);
    forall i | TestAt(r, i) ensures JumpAt(r, i + 1) { SavedFrom(c, k, n, r, i); }
    forall i | JumpAt(r, i) ensures 0 <= r[i].i.off && Entry(r, i + 1 + r[i].i.off) { SavedFrom(c, k, n, r, i); }
    forall i | SkipAt(r, i) ensures Entry(r, i + 2) { SavedFrom(c, k, n, r, i); }
    forall i | 0 <= i < |r| && r[i].Plain? ensures !r[i].i.LOADNIL? { SavedFrom(c, k, n, r, i); }
  }

  /** The instruction at a place after the removal fits there. */
  ghost predicate SavedHere(r: seq<Op>, i: int) {
    && 0 <= i < |r|
    && (TestAt(r, i) ==> JumpAt(r, i + 1))
    && (JumpAt(r, i) ==> 0 <= r[i].i.off && Entry(r, i + 1 + r[i].i.off))
    && (SkipAt(r, i) ==> Entry(r, i + 2))
    && (r[i].Plain? ==> !r[i].i.LOADNIL?)
  }

  lemma SavedFrom(c: seq<Op>, k: int, n: int, r: seq<Op>, i: int)
    requires Finished(c) && Saves(c, k, n, r) && 0 <= i < |r|
    ensures SavedHere(r, i)
  {
    hide Entry;
    var j := if i < k then i else i + 1;
    if j != k - 1 {
      SavedAt(c, k, n, r, j);
      if TestAt(c, j) { TestSaved(c, k, n, r, j); } else { PlainSaved(c, k, n, r, j); }
      if JumpAt(c, j) { SavedEntry(c, k, n, r, j + 1 + c[j].i.off); }
      if SkipAt(c, j) { SavedEntry(c, k, n, r, j + 2); }
    }
  }

  lemma SavedStep(w: World, c: seq<Op>, k: int, n: int, r: seq<Op>, pc: int, R: Regs)
    requires Finished(c) && Finished(r) && Saves(c, k, n, r) && Entry(c, pc) && pc < |c| && pc != k && pc != k - 1
    requires Entry(r, Shift(pc, k)) && Shift(pc, k) < |r|
    ensures var m := Step(w, c, pc, R); m.0 != k && Step(w, r, Shift(pc, k), R) == (Shift(m.0, k), m.1)
  {
    hide Saves, Finished, Shift, Taken, Loaded, Step;
    if TestAt(c, pc) {
      TestSaved(c, k, n, r, pc);
      TestStep(w, c, pc, R);
      TestStep(w, r, Shift(pc, k), R);
    } else {
      PlainSaved(c, k, n, r, pc);
      PlainStep(w, c, pc, R);
      PlainStep(w, r, Shift(pc, k), R);
    }
  }

  lemma TestStep(w: World, c: seq<Op>, pc: int, R: Regs)
    requires Finished(c) && Entry(c, pc) && pc < |c| && TestAt(c, pc) && JumpAt(c, pc + 1)
    ensures var i := c[pc].i;
            Step(w, c, pc, R) == if !Taken(w, i, R) then (pc + 2, R)
                                 else (pc + 2 + c[pc + 1].i.off, if i.TESTSET? then R[i.a := R[i.b]] else R)
  {
    hide Finished, Taken;
  }

  lemma PlainStep(w: World, c: seq<Op>, pc: int, R: Regs)
    requires Finished(c) && Entry(c, pc) && pc < |c| && !TestAt(c, pc)
    ensures Step(w, c, pc, R) ==
            if c[pc].Nils? then (pc + 1, Filled(R, c[pc].a, c[pc].b))
            else if JumpAt(c, pc) then (pc + 1 + c[pc].i.off, R)
            else (if SkipAt(c, pc) then pc + 2 else pc + 1, R[c[pc].i.a := Loaded(w, c[pc].i, R)])
  {
    hide Finished, Loaded;
  }

  lemma TestSaved(c: seq<Op>, k: int, n: int, r: seq<Op>, pc: int)
    requires Finished(c) && Saves(c, k, n, r) && TestAt(c, pc)
    ensures JumpAt(c, pc + 1) && pc + 2 != k && pc + 2 + c[pc + 1].i.off != k
    ensures var x := Shift(pc, k);
            && TestAt(r, x) && JumpAt(r, x + 1) && r[x] == c[pc]
            && x + 2 == Shift(pc + 2, k) && x + 2 + r[x + 1].i.off == Shift(pc + 2 + c[pc + 1].i.off, k)
  {
    assert JumpAt(c, pc + 1) && 0 <= c[pc + 1].i.off;
    SavedAt(c, k, n, r, pc);
    SavedAt(c, k, n, r, pc + 1);
  }

  lemma PlainSaved(c: seq<Op>, k: int, n: int, r: seq<Op>, pc: int)
    requires Finished(c) && Saves(c, k, n, r) && 0 <= pc < |c| && pc != k && pc != k - 1 && !TestAt(c, pc)
    ensures var x := Shift(pc, k);
            && 0 <= x < |r| && !TestAt(r, x) && (JumpAt(r, x) <==> JumpAt(c, pc)) && (SkipAt(r, x) <==> SkipAt(c, pc))
            && (!JumpAt(c, pc) ==> r[x] == c[pc]) && x + 1 == Shift(pc + 1, k) && pc + 1 != k
            && (SkipAt(c, pc) ==> pc + 2 != k && x + 2 == Shift(pc + 2, k))
            && (JumpAt(c, pc) ==> pc + 1 + c[pc].i.off != k
                                  && x + 1 + r[x].i.off == Shift(pc + 1 + c[pc].i.off, k))
  {
    assert JumpAt(c, pc) ==> 0 <= c[pc].i.off;
    SavedAt(c, k, n, r, pc);
  }

  lemma MergedFill(R: Regs, a: int, b: int, p: int, q: int)
    requires a <= p <= b + 1
    ensures Filled(Filled(R, a, b), p, q) == Filled(R, a, Max(b, q))
  {
  }

  /** Runs that come in anywhere else end with the same registers. */
  lemma {:induction false} SavedRuns(w: World, c: seq<Op>, k: int, n: int, r: seq<Op>, pc: int, R: Regs)
    requires Finished(c) && Saves(c, k, n, r) && Entry(c, pc) && pc != k
    ensures Finished(r) && Entry(r, Shift(pc, k)) && Exec(w, r, Shift(pc, k), R) == Exec(w, c, pc, R)
    decreases |c| - pc
  {
    hide Finished, Saves, Step;
    SavedOk(c, k, n, r);
    SavedEntry(c, k, n, r, pc);
    SavedSize(c, k, n, r);
    if pc == k - 1 {
      MergedStep(w, c, k, n, r, R);
      SavedRuns(w, c, k, n, r, k + 1, Filled(Filled(R, c[pc].a, c[pc].b), c[k].a, c[k].b));
    } else if pc < |c| {
      SavedStep(w, c, k, n, r, pc, R);
      var m := Step(w, c, pc, R);
      SavedRuns(w, c, k, n, r, m.0, m.1);
    }
  }

  lemma SavedSize(c: seq<Op>, k: int, n: int, r: seq<Op>)
    requires Saves(c, k, n, r)
    ensures 0 <= k < |c| && |r| == |c| - 1
  {
  }

  /** Both fills, and the one that they were merged into. */
  lemma MergedStep(w: World, c: seq<Op>, k: int, n: int, r: seq<Op>, R: Regs)
    requires Finished(c) && Finished(r) && 0 < k < |c| == |r| + 1 && Saves(c, k, n, r)
    requires Entry(c, k - 1) && Entry(r, k - 1)
    ensures c[k - 1].Nils? && c[k].Nils? && Entry(c, k + 1) && Entry(r, k)
    ensures var R' := Filled(Filled(R, c[k - 1].a, c[k - 1].b), c[k].a, c[k].b);
            Exec(w, c, k - 1, R) == Exec(w, c, k + 1, R') && Exec(w, r, k - 1, R) == Exec(w, r, k, R')
  {
    hide Finished, Exec, Entry;
    assert c[k - 1].Nils? && c[k].Nils? && r[k - 1] == Nils(c[k - 1].a, Max(c[k - 1].b, c[k].b)) by { hide NoLabel; }
    hide Saves;
    MergedFill(R, c[k - 1].a, c[k - 1].b, c[k].a, c[k].b);
    FillStep(w, c, k - 1, R);
    FillStep(w, c, k, Filled(R, c[k - 1].a, c[k - 1].b));
    FillStep(w, r, k - 1, R);
  }

  lemma FillStep(w: World, c: seq<Op>, pc: int, R: Regs)
    requires Finished(c) && 0 <= pc < |c| && Entry(c, pc) && c[pc].Nils?
    ensures Entry(c, pc + 1) && Exec(w, c, pc, R) == Exec(w, c, pc + 1, Filled(R, c[pc].a, c[pc].b))
  {
    hide Finished;
  }

  /** From the start of a function with fresh registers too. */
  lemma SavedProgram(w: World, c: seq<Op>, k: int, n: int, r: seq<Op>, R: Regs)
    requires Finished(c) && Saves(c, k, n, r) && Fresh(R, n)
    ensures Finished(r) && Exec(w, r, 0, R) == Exec(w, c, 0, R)
  {
    if k == 0 {
      assert Filled(R, c[0].a, c[0].b) == R;
      SavedRuns(w, c, 0, n, r, 1, R);
    } else {
      SavedRuns(w, c, k, n, r, 0, R);
    }
  }

  ghost predicate SavesOne(c: seq<Op>, n: int, r: seq<Op>) {
    exists k :: Saves(c, k, n, r)
  }

  /** Any number of merges and omissions. */
  ghost predicate Squeezes(cs: seq<seq<Op>>, n: int) {
    forall i, j :: 0 <= i && j == i + 1 && j < |cs| ==> SavesOne(cs[i], n, cs[j])
  }

  lemma {:induction false} SqueezedRuns(w: World, cs: seq<seq<Op>>, n: int, R: Regs)
    requires |cs| > 0 && Finished(cs[0]) && Squeezes(cs, n) && Fresh(R, n)
    ensures Finished(cs[|cs| - 1]) && Exec(w, cs[|cs| - 1], 0, R) == Exec(w, cs[0], 0, R)
    decreases |cs|
  {
    hide Finished, Saves, Exec, Fresh;
    if |cs| > 1 {
      var before := cs[..|cs| - 1];
      SqueezedRuns(w, before, n, R);
      var i, j := |cs| - 2, |cs| - 1;
      assert SavesOne(cs[i], n, cs[j]);
      var k :| Saves(cs[i], k, n, cs[j]);
      SavedProgram(w, cs[i], k, n, cs[j], R);
    }
  }

  /** The generator's program for an expression, however its LOADNILs are merged or left out,
      leaves the same registers: the value if and only if evaluation does not escape. */
  lemma SqueezedProgram(w: World, e: Expr, n: int, R: Regs, cs: seq<seq<Op>>)
    requires 0 <= n == |w.locals| && Scoped(e, n) && BoolCompiler.EnvOk(w, R) && Fresh(R, n)
    requires |cs| > 0 && cs[0] == Lifted(BoolCompiler.Program(e, n)) && Squeezes(cs, n)
    ensures Finished(cs[|cs| - 1])
    ensures var code := BoolCompiler.Program(e, n);
            && CodeOk(code) && IsStart(code, 0)
            && BoolCode.Exec(w, code, 0, R) == Fall(Exec(w, cs[|cs| - 1], 0, R))
    ensures var q := Exec(w, cs[|cs| - 1], 0, R);
            Agree(q, R, n) && (q[n] == Eval(e, w) <==> !Escapes(e, w, None))
  {
    hide BoolCompiler.Program, CodeOk, Finished, Exec, BoolCode.Exec, Eval, Escapes, Clean, Run;
    BoolCompiler.ProgramRuns(w, e, n, R);
    BoolCodeListed.ProgramFinished(e, n);
    LiftedRuns(w, BoolCompiler.Program(e, n), 0, R);
    SqueezedRuns(w, cs, n, R);
  }
}
