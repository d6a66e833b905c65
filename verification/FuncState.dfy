/** The code generator as it is: code and jump lists updated in place, each step the step
    of the code generator with sets. */
module FuncState {
  import opened Common
  import opened BoolExpr
  import opened BoolCode
  import opened BoolCodeGen
  import opened BoolCodeRuns
  import opened BoolCodeCorrect
  import opened BoolCodeValue
  import opened BoolCompiler
  import BoolCodeListed
  import opened JumpLists

  datatype ExpKind =
    | VNIL | VTRUE | VFALSE
    | VK(v: Value)
    | VLOCAL(r: int)
    | VGLOBAL(g: string)
    | VJMP(pc: int)
    | VRELOCABLE(pc: int)
    | VNONRELOC(r: int)

  /** An expression descriptor with its lists of exits. */
  datatype ExpDesc = ExpDesc(k: ExpKind, t: int, f: int)

  /** An instruction without its register yet computes the value of a descriptor. */
  predicate IsReloc(i: Instr, d: DKind) {
    match d
    case DFetch(g) => i == GETGLOBAL(0, g)
    case DNot(b) => i == NOT(0, b)
    case _ => false
  }

  /** The kinds correspond; `m` is the length of the code before a relocatable instruction. */
  ghost predicate KindIs(code: seq<Instr>, m: int, k: ExpKind, d: DKind) {
    match k
    case VNIL => d == DNil
    case VTRUE => d == DTrue
    case VFALSE => d == DFalse
    case VK(v) => d == DConst(v)
    case VLOCAL(r) => d == DLocal(r)
    case VGLOBAL(g) => d == DGlobal(g)
    case VJMP(pc) => d == DJump(pc) && Lists(code, pc, {pc})
    case VRELOCABLE(pc) =>
      pc == m == |code| - 1 && 0 <= m && IsReloc(code[m], d)
    case VNONRELOC(r) => d == DReg(r)
  }

  /** A descriptor stands for one of the model. */
  ghost predicate DescIs(code: seq<Instr>, m: State, n: int, e: ExpDesc, d: Desc) {
    && DescOk(m, d, n) && KindIs(code, |m.code|, e.k, d.k)
    && Lists(code, e.t, d.t) && Lists(code, e.f, d.f)
  }

  /** The code with the values of some jumps removed. */
  ghost predicate Stripped(code: seq<Instr>, r: seq<Instr>, m: seq<Instr>, done: set<int>) {
    && |r| == |code| && Threads(r, WithoutValues(m, done)) && KeepsJumps(code, r, {})
    && forall i :: |m| <= i < |code| ==> r[i] == code[i]
  }

  class FuncState {
    var code: seq<Instr>
    var jpc: int
    var freereg: int
    const nactvar: int
    ghost var model: State

    /** The code is threaded, and one relocatable instruction may follow it. */
    ghost predicate Valid(reloc: bool)
      reads this
    {
      && StateOk(model) && Threads(code, model.code) && |code| == |model.code| + (if reloc then 1 else 0)
      && (reloc ==> model.jpc == {})
      && Lists(code, jpc, model.jpc) && freereg == model.free && 0 <= nactvar <= freereg
    }

    ghost predicate Has(e: ExpDesc, d: Desc)
      reads this
    {
      Valid(e.k.VRELOCABLE?) && DescIs(code, model, nactvar, e, d)
    }

    constructor (n: nat)
      ensures Valid(false) && model == Start(n) && nactvar == n && code == []
    {
      code, jpc, freereg, nactvar := [], NO_JUMP, n, n;
      model := Start(n);
    }

    // ------------------------------------------------------------ jump lists

    method Concat(l1: int, l2: int, ghost a: set<int>, ghost b: set<int>) returns (l: int)
      requires Lists(code, l1, a) && Lists(code, l2, b) && a !! b
      requires Threads(code, model.code) && ListOk(model.code, a)
      modifies `code
      ensures Lists(code, l, a + b) && Threads(code, model.code) && |code| == |old(code)|
      ensures KeepsJumps(old(code), code, a)
      ensures forall i :: 0 <= i < |code| && !old(code)[i].JMP? ==> code[i] == old(code)[i]
    {
      if l2 == NO_JUMP {
        assert a + b == a;
        return l1;
      }
      if l1 == NO_JUMP {
        assert a + b == b;
        return l2;
      }
      var list := l1;
      ghost var rest := a;
      var next := GetJump(code, list);
      while next != NO_JUMP
        invariant list != NO_JUMP && Lists(code, list, rest) && LastOf(code, list, rest) == LastOf(code, l1, a)
        invariant next == GetJump(code, list)
        decreases |rest|
      {
        rest := rest - {list};
        list := next;
        next := GetJump(code, list);
      }
      ConcatLists(code, l1, a, l2, b);
      ghost var was := code;
      code := FixedJump(code, list, l2);
      LinkThreads(was, model.code, a, list, l2);
      return l1;
    }

    method NeedsValue(l: int, ghost a: set<int>) returns (b: bool)
      requires Lists(code, l, a) && Threads(code, model.code) && CodeOk(model.code) && ListOk(model.code, a)
      ensures b <==> NeedValue(model.code, a)
    {
      var list := l;
      ghost var rest := a;
      b := false;
      while list != NO_JUMP
        invariant Lists(code, list, rest) && rest <= a
        invariant forall j :: j in a - rest ==> Carries(model.code, j)
        decreases |rest|
      {
        ThreadsCarries(code, model.code, list);
        var c := Control(code, list);
        if !code[c].TESTSET? { return true; }
        rest := rest - {list};
        list := GetJump(code, list);
      }
    }

    method PatchTestReg(node: int, reg: int) returns (b: bool)
      requires 0 <= node < |code|
      modifies `code
      ensures (code, b) == PatchTest(old(code), node, reg)
    {
      var i := Control(code, node);
      if !code[i].TESTSET? { return false; }
      if reg != NO_REG && reg != code[i].b {
        code := code[i := TESTSET(reg, code[i].b, code[i].c)];
      } else {
        code := code[i := TEST(code[i].b, code[i].c)];
      }
      b := true;
    }

    method RemoveValue(node: int, ghost was: seq<Instr>, ghost done: set<int>)
      requires CodeOk(model.code) && Stripped(was, code, model.code, done) && Pending(model.code, node) && node !in done
      modifies `code
      ensures Stripped(was, code, model.code, done + {node}) && KeepsJumps(old(code), code, {})
    {
      WithoutOne(code, model.code, done, node);
      var _ := PatchTestReg(node, NO_REG);
    }

    method RemoveValues(l: int, ghost a: set<int>)
      requires Lists(code, l, a) && Threads(code, model.code) && CodeOk(model.code) && ListOk(model.code, a)
      modifies `code, `model
      ensures model == old(model).(code := WithoutValues(old(model).code, a))
      ensures Stripped(old(code), code, old(model).code, a)
    {
      var list := l;
      ghost var rest, done: set<int> := a, {};
      StrippedStart(code, model.code);
      hide CodeOk, Threads, Stripped, WithoutValues, KeepsJumps, Pending;
      while list != NO_JUMP
        invariant model == old(model) && Lists(code, list, rest) && rest <= a && done == a - rest
        invariant Stripped(old(code), code, model.code, done)
        decreases |rest|
      {
        ghost var was := code;
        var next := GetJump(code, list);
        RemoveValue(list, old(code), done);
        KeepsLists(was, code, {}, next, rest - {list});
        done, rest := done + {list}, rest - {list};
        list := next;
      }
      assert done == a;
      model := model.(code := WithoutValues(model.code, a));
    }

    method PatchJump(node: int, vtarget: int, reg: int, dtarget: int, ghost done: set<int>)
      requires CodeOk(model.code) && Threads(code, PatchList(model.code, done, vtarget, reg, dtarget))
      requires ListOk(model.code, done) && Pending(model.code, node) && node !in done
               && TargetsOk(model.code, done + {node}, vtarget, dtarget)
      modifies `code
      ensures Threads(code, PatchList(model.code, done + {node}, vtarget, reg, dtarget)) && |code| == |old(code)|
      ensures KeepsJumps(old(code), code, {node})
    {
      PatchOne(code, model.code, done, node, vtarget, reg, dtarget);
      var b := PatchTestReg(node, reg);
      code := FixedJump(code, node, if b then vtarget else dtarget);
    }

    method PatchListAux(l: int, vtarget: int, reg: int, dtarget: int, ghost a: set<int>)
      requires Lists(code, l, a) && Threads(code, model.code) && CodeOk(model.code) && ListOk(model.code, a)
      requires TargetsOk(model.code, a, vtarget, dtarget)
      modifies `code, `model
      ensures model == old(model).(code := PatchList(old(model).code, a, vtarget, reg, dtarget))
      ensures Threads(code, model.code) && |code| == |old(code)| && KeepsJumps(old(code), code, a)
    {
      var list := l;
      ghost var rest, done: set<int> := a, {};
      NothingPatched(model.code, vtarget, reg, dtarget);
      KeepsAll(code);
      hide CodeOk, Threads, PatchList, KeepsJumps;
      while list != NO_JUMP
        invariant model == old(model) && Lists(code, list, rest) && rest <= a && done == a - rest
                  && |code| == |old(code)|
        invariant Threads(code, PatchList(model.code, done, vtarget, reg, dtarget)) && KeepsJumps(old(code), code, done)
        decreases |rest|
      {
        ghost var was := code;
        var next := GetJump(code, list);
        PartOfList(model.code, a, done + {list}, vtarget, dtarget);
        PatchJump(list, vtarget, reg, dtarget, done);
        KeepsLists(was, code, {list}, next, rest - {list});
        KeepsAgain(old(code), was, code, done, {list}, done + {list});
        done, rest := done + {list}, rest - {list};
        list := next;
      }
      assert done == a;
      model := model.(code := PatchList(model.code, a, vtarget, reg, dtarget));
    }

    // -------------------------------------------------------------- emitting

    /** The jumps on hold go to the next instruction. */
    method DischargeJpc()
      requires Valid(false)
      modifies `code, `jpc, `model
      ensures Valid(false) && model == BoolCodeGen.DischargeJpc(old(model)) && jpc == NO_JUMP
      ensures KeepsJumps(old(code), code, old(model).jpc) && |code| == |old(code)|
    {
      HoldTargets(model);
      DischargeOk(model);
      hide StateOk, Extends;
      PatchListAux(jpc, |code|, NO_REG, |code|, model.jpc);
      jpc := NO_JUMP;
      model := model.(jpc := {});
    }

    /** A new instruction, that the jumps on hold go to. */
    method Code(i: Instr)
      requires Valid(false)
      modifies `code, `jpc, `model
      ensures |code| == |old(code)| + 1
      ensures model == BoolCodeGen.DischargeJpc(old(model)) && jpc == NO_JUMP && Valid(true) && code[|code| - 1] == i
      ensures KeepsJumps(old(code), code, old(model).jpc)
    {
      DischargeJpc();
      ghost var was := code;
      code := code + [i];
      KeepsAppend(was, [i]);
      KeepsAgain(old(code), was, code, old(model).jpc, {}, old(model).jpc);
    }

    /** A load of a value into its register. */
    method CodeLoad(i: Instr)
      requires Valid(false) && IsLoad(i) && !(i.LOADBOOL? && i.skip)
      modifies `code, `jpc, `model
      ensures Valid(false) && model == Emit(old(model), i) && jpc == NO_JUMP
      ensures KeepsJumps(old(code), code, old(model).jpc)
    {
      EmitOk(model, i);
      hide StateOk, Extends;
      Code(i);
      model := model.(code := model.code + [i]);
    }

    /** A jump, which the jumps on hold join. */
    method Jump() returns (j: int, ghost list: set<int>)
      requires Valid(false)
      modifies `code, `jpc, `model
      ensures Valid(false) && (model, list) == BoolCodeGen.Jump(old(model)) && jpc == NO_JUMP
      ensures Lists(code, j, list) && KeepsJumps(old(code), code, {})
    {
      JumpOk(model);
      hide StateOk, Extends, CodeOk, ListOk;
      var hold := jpc;
      ghost var held := model.jpc;
      JumpThreaded(code, NO_JUMP, {});
      AppendLists(code, [JMP(NO_JUMP)], hold, held);
      // No jump is on hold now, so this instruction patches none.
      j := |code|;
      assert {} + {j} == {j};
      ghost var was := code;
      code := code + [JMP(NO_JUMP)];
      jpc := NO_JUMP;
      model, list := BoolCodeGen.Jump(model).0, BoolCodeGen.Jump(model).1;
      ghost var mid := code;
      ListsIn(was, hold, held);
      assert {j} !! held;
      assert ListOk(model.code, {j}) by { JumpPending(was, model.code, j); }
      j := Concat(j, hold, {j}, held);
      KeepsAgain(was, mid, code, {}, {|was|}, {});
      assert {|was|} + held == list;
    }

    /** A test, and the jump it controls. */
    method CondJump(i: Instr) returns (j: int)
      requires Valid(false) && IsTest(i)
      modifies `code, `jpc, `model
      ensures Valid(false) && (model, j) == BoolCodeGen.CondJump(old(model), i) && jpc == NO_JUMP
      ensures Lists(code, j, {j}) && KeepsJumps(old(code), code, old(model).jpc)
    {
      CondJumpOk(model, i);
      hide StateOk, Extends, CodeOk;
      Code(i);
      ghost var was := code;
      JumpThreaded(code, NO_JUMP, {});
      j := |code|;
      code := code + [JMP(NO_JUMP)];
      TestThreads(was, model.code, i);
      KeepsAppend(was, [JMP(NO_JUMP)]);
      KeepsAgain(old(code), was, code, old(model).jpc, {}, old(model).jpc);
      model := model.(code := model.code + [i, JMP(NO_JUMP)]);
      assert {} + {j} == {j};
      NoneListed(code);
    }

    /** The jumps of a list are on hold for the next instruction. */
    method PatchToHere(l: int, ghost list: set<int>)
      requires Valid(false) && Lists(code, l, list) && ListOk(model.code, list) && model.jpc !! list
      modifies `code, `jpc, `model
      ensures Valid(false) && model == BoolCodeGen.PatchToHere(old(model), list)
      ensures KeepsJumps(old(code), code, old(model).jpc) && |code| == |old(code)|
    {
      ListUnion(model.code, model.jpc, list);
      hide CodeOk, ListOk;
      jpc := Concat(jpc, l, model.jpc, list);
      model := model.(jpc := model.jpc + list);
    }

    // ----------------------------------------------------------- discharging

    method FreeReg(r: int)
      requires Valid(false) && (r >= nactvar ==> r == freereg - 1)
      modifies `freereg, `model
      ensures Valid(false) && model == BoolCodeGen.FreeReg(old(model), nactvar, r)
    {
      if r >= nactvar {
        freereg := freereg - 1;
        model := model.(free := model.free - 1);
      }
    }

    method ReserveReg(ghost reloc: bool)
      requires Valid(reloc)
      modifies `freereg, `model
      ensures Valid(reloc) && model == old(model).(free := old(model).free + 1)
    {
      freereg := freereg + 1;
      model := model.(free := model.free + 1);
    }

    method DischargeVars(e: ExpDesc, ghost d: Desc) returns (x: ExpDesc, ghost dx: Desc)
      requires Has(e, d)
      modifies `code, `jpc, `model
      ensures (model, dx.k) == BoolCodeGen.DischargeVars(old(model), d.k) && dx == d.(k := dx.k)
      ensures Has(x, dx) && Unlocal(dx.k)
      ensures KeepsJumps(old(code), code, old(model).jpc)
    {
      x, dx := e, d;
      KeepsNothing(code, model.jpc);
      hide StateOk, CodeOk, Extends, ListOk, DescOk, Threads, KeepsJumps;
      match e.k
      case VLOCAL(r) =>
        x, dx := e.(k := VNONRELOC(r)), d.(k := DReg(r));
        LocalIs(code, model, nactvar, e, d);
      case VGLOBAL(g) =>
        ghost var was := code;
        Code(GETGLOBAL(0, g));
        x, dx := e.(k := VRELOCABLE(|code| - 1)), d.(k := DFetch(g));
        GlobalIs(was, code, old(model), nactvar, e, d);
      case _ =>
        hide KindIs;
    }

    /** The value in a register; jumps of the descriptor do not come here. */
    method Discharge2Reg(e: ExpDesc, ghost d: Desc, reg: int)
      requires Has(e, d) && Unlocal(d.k)
      modifies `code, `jpc, `model
      ensures Valid(false) && model == BoolCodeGen.Discharge2Reg(old(model), d.k, reg)
      ensures KeepsJumps(old(code), code, old(model).jpc)
    {
      KeepsNothing(code, model.jpc);
      if e.k.VRELOCABLE? {
        SetRegister(e, d, reg);
        return;
      }
      hide StateOk, CodeOk, ListOk, DescOk, Threads, KeepsJumps, Lists;
      match e.k
      case VNIL => CodeLoad(LOADNIL(reg));
      case VFALSE => CodeLoad(LOADBOOL(reg, false, false));
      case VTRUE => CodeLoad(LOADBOOL(reg, true, false));
      case VK(v) => CodeLoad(LOADK(reg, v));
      case VNONRELOC(r) =>
        if r != reg { CodeLoad(MOVE(reg, r)); }
      case _ =>
    }

    /** The relocatable instruction gets its register. */
    method SetRegister(e: ExpDesc, ghost d: Desc, reg: int)
      requires Has(e, d) && e.k.VRELOCABLE?
      modifies `code, `model
      ensures Valid(false) && model == BoolCodeGen.Discharge2Reg(old(model), d.k, reg)
      ensures KeepsJumps(old(code), code, old(model).jpc)
    {
      hide StateOk, CodeOk, Extends, ListOk, Threads, KeepsJumps, DescIs, Emit;
      RelocThreads(code, model, nactvar, e, d, reg);
      ghost var was := code;
      var pc := e.k.pc;
      var i := if code[pc].GETGLOBAL? then GETGLOBAL(reg, code[pc].g) else NOT(reg, code[pc].b);
      code := code[pc := i];
      EmitOk(model, i);
      KeepsLists(was, code, {}, jpc, {});
      model := Emit(model, i);
    }

    method Discharge2AnyReg(e: ExpDesc, ghost d: Desc) returns (r: int)
      requires Has(e, d) && Unlocal(d.k) && !d.k.DJump?
      modifies `code, `jpc, `freereg, `model
      ensures Valid(false) && (model, r) == BoolCodeGen.Discharge2AnyReg(old(model), d.k)
      ensures KeepsJumps(old(code), code, old(model).jpc)
    {
      hide StateOk, CodeOk, ListOk, DescOk, Threads, KeepsJumps, Lists;
      if e.k.VNONRELOC? {
        KeepsNothing(code, model.jpc);
        return e.k.r;
      }
      Discharge2Reg(e, d, freereg);
      ReserveReg(false);
      r := freereg - 1;
    }

    // ---------------------------------------------------- values in registers

    /** The loads of false and true that jumps without a value go to. */
    method CodeLabels(reg: int)
      requires Valid(false) && model.jpc == {}
      modifies `code, `jpc, `model
      ensures Valid(false) && model == old(model).(code := old(model).code + LoadBools(reg)) && jpc == NO_JUMP
      ensures KeepsJumps(old(code), code, {})
    {
      NothingPatched(model.code, |model.code|, NO_REG, |model.code|);
      BoolsAppended(model.code, reg);
      hide StateOk, CodeOk, Extends, ListOk;
      Code(LOADBOOL(reg, false, true));
      ghost var was := code;
      code := code + [LOADBOOL(reg, true, false)];
      KeepsAppend(was, [LOADBOOL(reg, true, false)]);
      KeepsAgain(old(code), was, code, {}, {}, {});
      LabelThreads(was, model.code, reg);
      model := model.(code := model.code + LoadBools(reg));
      NothingListed(model.code);
      assert StateOk(model) by { LabelsOk(model); }
      NoneListed(code);
    }

    /** The targets that the exits need; a value at the end jumps over them. */
    method MakeTargets(isJump: bool, t: int, f: int, reg: int, ghost k: DKind, ghost ts: set<int>, ghost fs: set<int>)
        returns (pf: int, pt: int)
      requires Valid(false) && Lists(code, t, ts) && Lists(code, f, fs) && ListOk(model.code, ts)
               && ListOk(model.code, fs)
      requires isJump == k.DJump? && (isJump ==> model.jpc == {})
      modifies `code, `jpc, `model
      ensures Valid(false) && model == ExitTargets(old(model), k, ts, fs, reg) && KeepsJumps(old(code), code, {})
      ensures NeedValue(old(model).code, ts) || NeedValue(old(model).code, fs) ==> pf == |code| - 2 && pt == |code| - 1
    {
      pf, pt := NO_JUMP, NO_JUMP;
      KeepsAll(code);
      var b := NeedsValue(t, ts);
      if !b { b := NeedsValue(f, fs); }
      hide StateOk, CodeOk, ListOk, Threads, KeepsJumps, Lists, NeedValue;
      if b {
        if isJump {
          CodeLabels(reg);
        } else {
          ghost var was := code;
          var fj, list := Jump();
          ghost var mid := code;
          CodeLabels(reg);
          HeldJumpListed(old(model), mid, code, fj, list, reg);
          KeepsAgain(was, mid, code, {}, {}, {});
          mid := code;
          PatchToHere(fj, list);
          KeepsAgain(was, mid, code, {}, {}, {});
          assert {} + list == list;
        }
        pf, pt := |code| - 2, |code| - 1;
      }
    }

    /** The exits go to the end with their values, or to the loads of false and true. */
    method PatchTheExits(t: int, f: int, reg: int, pf: int, pt: int, ghost ts: set<int>, ghost fs: set<int>)
      requires Valid(false) && Lists(code, t, ts) && Lists(code, f, fs) && ListOk(model.code, ts)
               && ListOk(model.code, fs)
      requires ts !! fs && model.jpc !! ts && model.jpc !! fs && TargetsThere(model, reg, ts, fs)
      requires NeedValue(model.code, ts) || NeedValue(model.code, fs) ==> pf == |code| - 2 && pt == |code| - 1
      modifies `code, `model
      ensures Valid(false) && model == PatchExits(old(model), ts, fs, reg) && KeepsJumps(old(code), code, ts + fs)
    {
      ghost var m := model;
      ghost var was := code;
      ghost var n := |code|;
      hide StateOk, CodeOk, Extends, ListOk, Threads, KeepsJumps, Lists, NeedValue, TargetsOk, TargetsThere, PatchList,
        PatchExits;
      CodeOfState(m);
      PatchExitsOk(model, ts, fs, reg);
      ExitPatches(m, reg, ts, fs, pf, pt);
      var end := |code|;
      PatchListAux(f, end, reg, pf, fs);
      ghost var mid := code;
      KeepsLists(was, mid, fs, t, ts);
      PatchListAux(t, end, reg, pt, ts);
      KeepsAgain(was, mid, code, fs, ts, ts + fs);
      KeepsLists(was, code, ts + fs, jpc, model.jpc);
    }

    /** The exits settled, if there are any. */
    method SettleExits(t: int, f: int, reg: int, isJump: bool, ghost k: DKind, ghost ts: set<int>, ghost fs: set<int>)
      requires Valid(false) && Lists(code, t, ts) && Lists(code, f, fs) && ListOk(model.code, ts)
               && ListOk(model.code, fs)
      requires ts !! fs && model.jpc !! ts && model.jpc !! fs && isJump == k.DJump? && (isJump ==> model.jpc == {})
      modifies `code, `jpc, `model
      ensures Valid(false) && KeepsJumps(old(code), code, ts + fs)
      ensures model == if ts == {} && fs == {} then old(model)
              else PatchExits(ExitTargets(old(model), k, ts, fs, reg), ts, fs, reg)
    {
      ghost var m, was := model, code;
      hide StateOk, CodeOk, Extends, ListOk, Threads, KeepsJumps, Lists, NeedValue, ExitTargets, PatchExits,
        TargetsThere;
      EmptyLists(code, t, ts, f, fs);
      KeepsNothing(code, ts + fs);
      if t != f {
        ExitTargetsOk(m, k, ts, fs, reg);
        TargetsNeed(m, ExitTargets(m, k, ts, fs, reg), k, ts, fs, reg);
        var pf, pt := MakeTargets(isJump, t, f, reg, k, ts, fs);
        ghost var mid := code;
        KeepsLists(was, mid, {}, t, ts);
        KeepsLists(was, mid, {}, f, fs);
        PatchTheExits(t, f, reg, pf, pt, ts, fs);
        KeepsAgain(was, mid, code, {}, ts + fs, ts + fs);
      }
    }

    method Exp2Reg(e: ExpDesc, ghost d: Desc, reg: int) returns (x: ExpDesc)
      requires Has(e, d) && Unlocal(d.k)
      modifies `code, `jpc, `model
      ensures Valid(false) && model == BoolCodeGen.Exp2Reg(old(model), d, reg)
              && x == ExpDesc(VNONRELOC(reg), NO_JUMP, NO_JUMP)
      ensures KeepsJumps(old(code), code, Mine(old(model), d))
    {
      hide StateOk, CodeOk, Extends, ListOk, DescOk, Threads, KeepsJumps, Lists, NeedValue, WithJump, ExitTargets,
        PatchExits, BoolCodeGen.Exp2Reg, BoolCodeGen.Discharge2Reg, Mine;
      ghost var m, was, k := model, code, d.k;
      ghost var ts := WithJump(d.k, d.t);
      SplitExp2Reg(m, d, reg);
      WithJumpIs(e, d, code);
      assert e.k.VJMP? <==> d.k.DJump?;
      LoadedLists(m, d, nactvar, reg);
      ListsApart(m, d, nactvar);
      JumpListed(m, d, nactvar);
      Discharge2RegOk(m, d, nactvar, reg);
      Discharge2Reg(e, d, reg);
      ghost var mid := code;
      KeepsLists(was, code, m.jpc, e.t, d.t);
      KeepsLists(was, code, m.jpc, e.f, d.f);
      var t := e.t;
      if e.k.VJMP? {
        KeepsLists(was, code, m.jpc, e.k.pc, {e.k.pc});
        CompareListed(m, d, nactvar);
        assert model == m && model.jpc == {};
        t := Concat(t, e.k.pc, d.t, {e.k.pc});
        KeepsLists(mid, code, d.t, e.f, d.f);
        KeepsLists(mid, code, d.t, jpc, model.jpc);
      } else {
        KeepsNothing(code, d.t);
      }
      ghost var mid2 := code;
      KeepsAgain(was, mid, mid2, m.jpc, d.t, Mine(m, d));
      SettleExits(t, e.f, reg, e.k.VJMP?, k, ts, d.f);
      KeepsAgain(was, mid2, code, Mine(m, d), ts + d.f, Mine(m, d));
      x := ExpDesc(VNONRELOC(reg), NO_JUMP, NO_JUMP);
    }

    /** The value in the next register. */
    method Exp2NextReg(e: ExpDesc, ghost d: Desc) returns (x: ExpDesc)
      requires Has(e, d)
      modifies `code, `jpc, `freereg, `model
      ensures x == ExpDesc(VNONRELOC(freereg - 1), NO_JUMP, NO_JUMP)
      ensures Valid(false) && (model, freereg - 1) == BoolCodeGen.Exp2NextReg(old(model), d, nactvar)
      ensures KeepsJumps(old(code), code, Mine(old(model), d))
    {
      ghost var m, was := model, code;
      hide StateOk, CodeOk, Extends, ListOk, DescOk, KindOk, Threads, KeepsJumps, Lists, Mine, KindIs,
        BoolCodeGen.DischargeVars, BoolCodeGen.Exp2NextReg, BoolCodeGen.Exp2Reg, LoadOf, Abstract;
      NextRegStart(m, d, nactvar);
      var y, dy := DischargeVars(e, d);
      ghost var mid, s1 := code, model;
      if y.k.VNONRELOC? {
        LocalRegister(code, model, nactvar, y, dy);
        FreeReg(y.k.r);
      }
      ReserveReg(y.k.VRELOCABLE?);
      MoreRegisters(s1, dy, nactvar);
      x := Exp2Reg(y, dy, freereg - 1);
      MineHasHeld(m, d);
      KeepsAgain(was, mid, code, m.jpc, Mine(NextRegState(m, d).0, NextRegState(m, d).1), Mine(m, d));
    }

    /** The value in a register: its own if it is there already, without exits. */
    method Exp2AnyReg(e: ExpDesc, ghost d: Desc) returns (x: ExpDesc)
      requires Has(e, d) && !InPlace(d)
      modifies `code, `jpc, `freereg, `model
      ensures Valid(false) && (model, Reg(freereg - 1)) == BoolCodeGen.Exp2RK(old(model), d, nactvar)
      ensures x == ExpDesc(VNONRELOC(freereg - 1), NO_JUMP, NO_JUMP)
      ensures KeepsJumps(old(code), code, Mine(old(model), d))
    {
      hide StateOk, CodeOk, Extends, ListOk, DescOk, KindOk, Threads, KeepsJumps, Lists, Mine, InPlace,
        BoolCodeGen.Exp2NextReg, BoolCodeGen.Exp2RK;
      NotInPlace(model, d, nactvar);
      x := Exp2NextReg(e, d);
    }

    /** The value as an operand: a constant, a local variable or a new register. */
    method Exp2RK(e: ExpDesc, ghost d: Desc) returns (x: RK)
      requires Has(e, d)
      modifies `code, `jpc, `freereg, `model
      ensures Valid(false) && (model, x) == BoolCodeGen.Exp2RK(old(model), d, nactvar)
      ensures KeepsJumps(old(code), code, Mine(old(model), d))
    {
      hide StateOk, CodeOk, Extends, ListOk, DescOk, KindOk, Threads, KeepsJumps, Mine;
      NoExits(code, model, nactvar, e, d);
      KeepsNothing(code, Mine(model, d));
      if e.t == e.f {
        match e.k
        case VNIL => return Const(VNil);
        case VTRUE => return Const(VBool(true));
        case VFALSE => return Const(VBool(false));
        case VK(v) => return Const(v);
        case VLOCAL(r) => return Reg(r);
        case VNONRELOC(r) => return Reg(r);
        case _ =>
      }
      hide KindIs, Lists, BoolCodeGen.Exp2RK;
      var y := Exp2AnyReg(e, d);
      x := Reg(y.k.r);
    }

    // -------------------------------------------------- jumps on conditions

    /** The comparison before a jump, inverted. */
    method InvertJump(pc: int)
      requires Valid(false) && 1 <= pc == |code| - 1 && model.jpc == {}
      requires model.code[pc - 1].COMPARE? && model.code[pc] == JMP(NO_JUMP)
      modifies `code, `model
      ensures Valid(false) && model == old(model).(code := Inverted(old(model).code, pc))
              && KeepsJumps(old(code), code, {})
    {
      hide StateOk, CodeOk, Extends, ListOk;
      assert code[pc - 1] == model.code[pc - 1];
      InvertedThreads(code, model, pc);
      ghost var was := code;
      code := code[pc - 1 := code[pc - 1].(cond := !code[pc - 1].cond)];
      KeepsLists(was, code, {}, jpc, {});
      model := model.(code := Inverted(model.code, pc));
    }

    /** Jump when the value is `cond`: with a TEST on what a NOT would negate, or with a
        TESTSET that carries the value. */
    method JumpOnCond(e: ExpDesc, ghost d: Desc, cond: bool) returns (j: int)
      requires Has(e, d) && Unlocal(d.k) && !d.k.DJump?
      modifies `code, `jpc, `freereg, `model
      ensures Valid(false) && (model, j) == BoolCodeGen.JumpOnCond(old(model), d.k, nactvar, cond)
      ensures Lists(code, j, {j}) && KeepsJumps(old(code), code, old(model).jpc)
    {
      hide StateOk, CodeOk, Extends, ListOk, DescOk, Threads, KeepsJumps, Lists;
      RelocIs(code, model, nactvar, e, d);
      ghost var m, was := model, code;
      if e.k.VRELOCABLE? && code[e.k.pc].NOT? {
        var b := code[e.k.pc].b;
        DropReloc(code, model, jpc);
        code := code[..|code| - 1];
        ghost var mid := code;
        j := CondJump(TEST(b, !cond));
        KeepsAgain(was, mid, code, {}, m.jpc, m.jpc);
      } else {
        var r := Discharge2AnyReg(e, d);
        ghost var mid, held := code, model.jpc;
        AnyRegister(m, d, nactvar);
        FreeReg(r);
        j := CondJump(TESTSET(NO_REG, r, cond));
        AnyRegHolds(m, d, nactvar);
        KeepsAgain(was, mid, code, m.jpc, held, m.jpc);
      }
    }

    /** The jump that leaves when the value is not `cond`, or NO_JUMP if it never does. */
    method GoIfJump(e: ExpDesc, ghost d: Desc, cond: bool) returns (pc: int, ghost list: set<int>)
      requires Has(e, d) && Unlocal(d.k)
      modifies `code, `jpc, `freereg, `model
      ensures Valid(false) && (model, list) == BoolCodeGen.GoIfJump(old(model), d.k, nactvar, cond)
      ensures Lists(code, pc, list) && KeepsJumps(old(code), code, old(model).jpc)
    {
      hide StateOk, CodeOk, Extends, ListOk, DescOk, Threads, KeepsJumps;
      KeepsNothing(code, model.jpc);
      CompareState(code, model, nactvar, e, d);
      if (if cond then e.k.VK? || e.k.VTRUE? else e.k.VNIL? || e.k.VFALSE?) {
        return NO_JUMP, {};
      }
      if (if cond then e.k.VFALSE? else e.k.VTRUE?) {
        ghost var was, m := code, model;
        pc, list := Jump();
        KeepsMore(was, code, {}, m.jpc);
        return;
      }
      if e.k.VJMP? {
        ghost var was, m := code, model;
        if cond {
          InvertJump(e.k.pc);
          KeepsMore(was, code, {}, m.jpc);
          KeepsLists(was, code, {}, e.k.pc, {e.k.pc});
        }
        return e.k.pc, {e.k.pc};
      }
      hide Lists, KindIs;
      pc := JumpOnCond(e, d, !cond);
      list := {pc};
    }

    /** Go on if the value is `cond`; the new list of exits for the opposite. */
    method GoIf(e: ExpDesc, ghost d: Desc, cond: bool) returns (l: int, ghost exits: set<int>)
      requires Has(e, d)
      modifies `code, `jpc, `freereg, `model
      ensures Valid(false) && (model, exits) == BoolCodeGen.GoIf(old(model), d, nactvar, cond)
      ensures Lists(code, l, exits) && KeepsJumps(old(code), code, Mine(old(model), d))
    {
      hide StateOk, CodeOk, Extends, ListOk, DescOk, KindOk, KindIs, Threads, KeepsJumps, Lists, Mine,
        BoolCodeGen.GoIfJump, BoolCodeGen.DischargeVars;
      ghost var m, was := model, code;
      ListsApart(m, d, nactvar);
      GoIfOk(m, d, nactvar, cond);
      MineLists(m, d);
      var y, dy := DischargeVars(e, d);
      ghost var m1, mid := model, code;
      ListsApart(m1, dy, nactvar);
      JumpApart(m, d, nactvar, cond);
      var pc, list := GoIfJump(y, dy, cond);
      ghost var mid2 := code;
      KeepsAgain(was, mid, mid2, m.jpc, m1.jpc, m.jpc);
      KeepsLists(mid, mid2, m1.jpc, y.t, d.t);
      KeepsLists(mid, mid2, m1.jpc, y.f, d.f);
      ghost var here, away := d.Exits(cond), d.Exits(!cond);
      l := Concat(if cond then y.f else y.t, pc, away, list);
      ghost var mid3 := code;
      KeepsLists(mid2, mid3, away, if cond then y.t else y.f, here);
      KeepsLists(mid2, mid3, away, jpc, model.jpc);
      KeepsAgain(was, mid2, mid3, m.jpc, away, m.jpc + away);
      ghost var hold := model.jpc;
      PatchToHere(if cond then y.t else y.f, here);
      exits := away + list;
      KeepsLists(mid3, code, hold, l, exits);
      KeepsAgain(was, mid3, code, m.jpc + away, hold, Mine(m, d));
    }

    /** `luaK_goiftrue`: the exits when the value is false. */
    method GoIfTrue(e: ExpDesc, ghost d: Desc) returns (l: int, ghost exits: set<int>)
      requires Has(e, d)
      modifies `code, `jpc, `freereg, `model
      ensures Valid(false) && (model, exits) == BoolCodeGen.GoIf(old(model), d, nactvar, true)
      ensures Lists(code, l, exits) && KeepsJumps(old(code), code, Mine(old(model), d))
    {
      l, exits := GoIf(e, d, true);
    }

    /** `luaK_goiffalse`: the exits when the value is true. */
    method GoIfFalse(e: ExpDesc, ghost d: Desc) returns (l: int, ghost exits: set<int>)
      requires Has(e, d)
      modifies `code, `jpc, `freereg, `model
      ensures Valid(false) && (model, exits) == BoolCodeGen.GoIf(old(model), d, nactvar, false)
      ensures Lists(code, l, exits) && KeepsJumps(old(code), code, Mine(old(model), d))
    {
      l, exits := GoIf(e, d, false);
    }

    // -------------------------------------------------------------- operators

    /** The kind of the opposite value. */
    method NegateKind(e: ExpDesc, ghost d: Desc) returns (k: ExpKind, ghost dk: DKind)
      requires Has(e, d) && Unlocal(d.k)
      modifies `code, `jpc, `freereg, `model
      ensures (model, dk) == BoolCodeGen.NegateKind(old(model), d.k, nactvar)
      ensures Valid(k.VRELOCABLE?) && KindIs(code, |model.code|, k, dk) && KeepsJumps(old(code), code, old(model).jpc)
    {
      hide StateOk, CodeOk, Extends, ListOk, DescOk, Threads, KeepsJumps, Lists;
      CompareState(code, model, nactvar, e, d);
      KeepsNothing(code, model.jpc);
      ghost var m, was := model, code;
      if e.k.VNIL? || e.k.VFALSE? {
        return VTRUE, DTrue;
      } else if e.k.VK? || e.k.VTRUE? {
        return VFALSE, DFalse;
      } else if e.k.VJMP? {
        InvertJump(e.k.pc);
        KeepsMore(was, code, {}, m.jpc);
        KeepsLists(was, code, {}, e.k.pc, {e.k.pc});
        return e.k, d.k;
      }
      var r := Discharge2AnyReg(e, d);
      ghost var mid, held := code, model.jpc;
      AnyRegister(m, d, nactvar);
      AnyRegHolds(m, d, nactvar);
      FreeReg(r);
      Code(NOT(0, r));
      KeepsAgain(was, mid, code, m.jpc, held, m.jpc);
      k, dk := VRELOCABLE(|code| - 1), DNot(r);
    }

    /** `codenot`: the exits are exchanged, and lose their values. */
    method CodeNot(e: ExpDesc, ghost d: Desc) returns (x: ExpDesc, ghost dx: Desc)
      requires Has(e, d)
      modifies `code, `jpc, `freereg, `model
      ensures (model, dx) == Negate(old(model), d, nactvar) && Has(x, dx)
      ensures KeepsJumps(old(code), code, Mine(old(model), d))
    {
      hide StateOk, CodeOk, Extends, ListOk, DescOk, KindOk, Threads, KeepsJumps, Lists, Mine, KindIs, Stripped,
        BoolCodeGen.NegateKind, BoolCodeGen.DischargeVars;
      ghost var m, was := model, code;
      ListsApart(m, d, nactvar);
      NegateOk(m, d, nactvar);
      NegatedLists(m, d, nactvar);
      NegatedDescs(m, d, nactvar);
      MineLists(m, d);
      var y, dy := DischargeVars(e, d);
      ghost var m1, mid := model, code;
      ListsApart(m1, dy, nactvar);
      var k;
      ghost var dk;
      k, dk := NegateKind(y, dy);
      ghost var mid2 := code;
      KeepsAgain(was, mid, mid2, m.jpc, m1.jpc, m.jpc);
      KeepsLists(mid, mid2, m1.jpc, y.t, d.t);
      KeepsLists(mid, mid2, m1.jpc, y.f, d.f);
      x, dx := ExpDesc(k, y.f, y.t), Desc(dk, d.f, d.t);
      ghost var m2 := model;
      CodeOfState(m2);
      RemoveValues(x.f, d.t);
      ghost var mid3 := code;
      StrippedKeeps(mid2, mid3, m2, d.t, jpc, k, dk);
      KeepsLists(mid2, mid3, {}, x.t, d.f);
      KeepsLists(mid2, mid3, {}, x.f, d.t);
      WithoutLists(m2, d.t, d.f);
      RemoveValues(x.t, d.f);
      StrippedKeeps(mid3, code, m2.(code := WithoutValues(m2.code, d.t)), d.f, jpc, k, dk);
      KeepsLists(mid3, code, {}, x.t, d.f);
      KeepsLists(mid3, code, {}, x.f, d.t);
      KeepsAgain(was, mid2, mid3, m.jpc, {}, m.jpc);
      KeepsAgain(was, mid3, code, m.jpc, {}, Mine(m, d));
      DescState(model, dx, nactvar);
    }

    /** `luaK_posfix` for `and` and `or`: the right operand takes over the exits. */
    method Join(e: ExpDesc, l: int, ghost d: Desc, ghost exits: set<int>, cond: bool)
        returns (x: ExpDesc, ghost dx: Desc)
      requires Has(e, d) && Lists(code, l, exits) && ListOk(model.code, exits) && exits !! Mine(model, d)
      modifies `code, `jpc, `model
      ensures (model, dx) == BoolCodeGen.Join(old(model), d, exits, cond) && Has(x, dx)
      ensures KeepsJumps(old(code), code, Mine(old(model), d) + exits)
    {
      hide StateOk, CodeOk, Extends, ListOk, DescOk, KindOk, Threads, KeepsJumps, Lists, Mine, KindIs,
        BoolCodeGen.DischargeVars;
      ghost var m, was := model, code;
      MineLists(m, d);
      JoinOk(m, d, nactvar, exits, cond);
      var y, dy := DischargeVars(e, d);
      ghost var m1, mid := model, code;
      ListsApart(m1, dy, nactvar);
      KeepsLists(was, mid, m.jpc, l, exits);
      JoinedLists(m, d, nactvar, exits);
      ghost var out, other := d.Exits(!cond), d.Exits(cond);
      var z := Concat(if cond then y.f else y.t, l, out, exits);
      KeepsLists(mid, code, out, if cond then y.t else y.f, other);
      KeepsLists(mid, code, out, jpc, model.jpc);
      KeepsKind(mid, code, out, |m1.code|, y.k, dy.k);
      KeepsAgain(was, mid, code, m.jpc, out, Mine(m, d) + exits);
      x := if cond then y.(f := z) else y.(t := z);
      dx := if cond then dy.(f := d.f + exits) else dy.(t := d.t + exits);
    }

    method FreeOperand(x: RK)
      requires Valid(false) && (x.Reg? && x.r >= nactvar ==> x.r == freereg - 1)
      modifies `freereg, `model
      ensures Valid(false) && model == BoolCodeGen.FreeOperand(old(model), nactvar, x)
    {
      if x.Reg? { FreeReg(x.r); }
    }

    /** `codecomp`: `>` and `>=` exchange their operands. */
    method CodeComp(op: RelOp, x: RK, y: RK) returns (e: ExpDesc, ghost d: Desc)
      requires Valid(false)
      requires x.Reg? ==> 0 <= x.r < nactvar || nactvar <= x.r == freereg - (if y.Reg? && y.r >= nactvar then 2 else 1)
      requires y.Reg? ==> 0 <= y.r < nactvar || nactvar <= y.r == freereg - 1
      modifies `code, `jpc, `freereg, `model
      ensures (model, d) == Compare(old(model), op, x, y, nactvar) && Has(e, d)
              && KeepsJumps(old(code), code, old(model).jpc)
    {
      hide StateOk, CodeOk, Extends, ListOk, DescOk, Threads, KeepsJumps, Lists, BoolCodeGen.CondJump;
      ghost var m := model;
      ghost var free := m.free - (if x.Reg? && x.r >= nactvar then 1 else 0) - (if y.Reg? && y.r >= nactvar then 1
                                                                                else 0);
      FreeOperands(m, nactvar, x, y, free);
      CompareOk(m, op, x, y, nactvar, free);
      FreeOperand(y);
      FreeOperand(x);
      var i;
      match op {
        case OpEq => i := COMPARE(EQ, true, x, y);
        case OpNe => i := COMPARE(EQ, false, x, y);
        case OpLt => i := COMPARE(LT, true, x, y);
        case OpLe => i := COMPARE(LE, true, x, y);
        case OpGt => i := COMPARE(LT, true, y, x);
        case OpGe => i := COMPARE(LE, true, y, x);
      }
      var j := CondJump(i);
      NoneListed(code);
      e, d := ExpDesc(VJMP(j), NO_JUMP, NO_JUMP), Desc(DJump(j), {}, {});
    }

    // ------------------------------------------------------------ expressions

    /** `subexpr`: the operands and operators of an expression, from left to right. */
    method Expr(e: BoolExpr.Expr) returns (x: ExpDesc, ghost d: Desc)
      requires Valid(false) && Scoped(e, nactvar)
      modifies `code, `jpc, `freereg, `model
      ensures (model, d) == Compile(e, old(model), nactvar) && Has(x, d) && KeepsJumps(old(code), code, old(model).jpc)
      decreases e, 1
    {
      hide StateOk, CodeOk, Extends, ListOk, DescOk, Threads, KeepsJumps, Lists, Compile;
      if e.And? || e.Or? {
        x, d := Both(e);
      } else if e.Not? {
        x, d := Negation(e);
      } else if e.Rel? {
        x, d := Relation(e);
      } else {
        x, d := Leaf(e);
      }
    }

    method Leaf(e: BoolExpr.Expr) returns (x: ExpDesc, ghost d: Desc)
      requires Valid(false) && Scoped(e, nactvar) && !e.And? && !e.Or? && !e.Not? && !e.Rel?
      modifies `code, `jpc, `freereg, `model
      ensures (model, d) == Compile(e, old(model), nactvar) && Has(x, d) && KeepsJumps(old(code), code, old(model).jpc)
    {
      hide StateOk, CodeOk, Extends, ListOk, DescOk, Threads, KeepsJumps;
      KeepsNothing(code, model.jpc);
      NoneListed(code);
      CompileOk(e, model, nactvar);
      BoolCodeListed.CompiledDesc(e, model, nactvar, Compile(e, model, nactvar).0, Compile(e, model, nactvar).1);
      d := Compile(e, model, nactvar).1;
      hide Compiled;
      match e
      case Nil => x := ExpDesc(VNIL, NO_JUMP, NO_JUMP);
      case True => x := ExpDesc(VTRUE, NO_JUMP, NO_JUMP);
      case False => x := ExpDesc(VFALSE, NO_JUMP, NO_JUMP);
      case Num(n) => x := ExpDesc(VK(VNum(n)), NO_JUMP, NO_JUMP);
      case Str(s) => x := ExpDesc(VK(VStr(s)), NO_JUMP, NO_JUMP);
      case Local(r) => x := ExpDesc(VLOCAL(r), NO_JUMP, NO_JUMP);
      case Global(g) => x := ExpDesc(VGLOBAL(g), NO_JUMP, NO_JUMP);
    }

    method Negation(e: BoolExpr.Expr) returns (x: ExpDesc, ghost d: Desc)
      requires Valid(false) && Scoped(e, nactvar) && e.Not?
      modifies `code, `jpc, `freereg, `model
      ensures (model, d) == Compile(e, old(model), nactvar) && Has(x, d) && KeepsJumps(old(code), code, old(model).jpc)
      decreases e, 0
    {
      hide StateOk, CodeOk, Extends, ListOk, DescOk, Threads, KeepsJumps, Lists, KindIs, Compile, Compiled, Negate,
        Mine;
      ghost var m, was := model, code;
      CompileOk(e.e, m, nactvar);
      UnfoldNot(e, m, nactvar);
      var y;
      ghost var dy;
      y, dy := Expr(e.e);
      ghost var mid, m1 := code, model;
      x, d := CodeNot(y, dy);
      RecentKeeps(e.e, m, nactvar, m1, dy, was, mid, code);
    }

    /** The left operand, the jumps of `and` or `or`, and the right operand. */
    method Both(e: BoolExpr.Expr) returns (x: ExpDesc, ghost d: Desc)
      requires Valid(false) && Scoped(e, nactvar) && (e.And? || e.Or?)
      modifies `code, `jpc, `freereg, `model
      ensures (model, d) == Compile(e, old(model), nactvar) && Has(x, d) && KeepsJumps(old(code), code, old(model).jpc)
      decreases e, 0
    {
      hide StateOk, CodeOk, Extends, ListOk, DescOk, Threads, KeepsJumps, Lists, KindIs, Compile, Compiled,
        BoolCodeGen.GoIf, BoolCodeGen.Join, Mine, LeftDone, HasExits, KindOf, NeverJumps;
      ghost var m, was := model, code;
      CompileOk(e.a, m, nactvar);
      UnfoldBoth(e, m, nactvar);
      var y;
      ghost var dy;
      y, dy := Expr(e.a);
      ghost var mid, m1 := code, model;
      var l;
      ghost var exits;
      if e.And? {
        l, exits := GoIfTrue(y, dy);
      } else {
        l, exits := GoIfFalse(y, dy);
      }
      RecentKeeps(e.a, m, nactvar, m1, dy, was, mid, code);
      ghost var mid2, m2 := code, model;
      LeftOk(e.a, m, nactvar, m1, dy, e.And?);
      LeftState(m, nactvar, m2, exits);
      CompileOk(e.b, m2, nactvar);
      var z;
      ghost var dz;
      z, dz := Expr(e.b);
      ghost var mid3, m3 := code, model;
      ExitsKept(e.b, m, m2, nactvar, exits, m3, dz);
      KeepsLists(mid2, mid3, m2.jpc, l, exits);
      x, d := Join(z, l, dz, exits, e.And?);
      BothKeep(e.b, m, m2, nactvar, exits, m3, dz, was, mid2, mid3, code);
    }

    method Relation(e: BoolExpr.Expr) returns (x: ExpDesc, ghost d: Desc)
      requires Valid(false) && Scoped(e, nactvar) && e.Rel?
      modifies `code, `jpc, `freereg, `model
      ensures (model, d) == Compile(e, old(model), nactvar) && Has(x, d) && KeepsJumps(old(code), code, old(model).jpc)
      decreases e, 0
    {
      hide StateOk, CodeOk, Extends, ListOk, DescOk, Threads, KeepsJumps, Lists, KindIs, Compile, Compiled,
        BoolCodeGen.Exp2RK, Compare, Mine, OperandDone, KindOf;
      ghost var m, was := model, code;
      CompileOk(e.a, m, nactvar);
      UnfoldRel(e, m, nactvar);
      var y;
      ghost var dy;
      y, dy := Expr(e.a);
      ghost var mid, m1 := code, model;
      var o1 := Exp2RK(y, dy);
      RecentKeeps(e.a, m, nactvar, m1, dy, was, mid, code);
      ghost var mid2, m2 := code, model;
      OperandOk(e.a, m, nactvar, m1, dy);
      OperandState(e.a, dy, m, nactvar, m2, o1);
      CompileOk(e.b, m2, nactvar);
      var z;
      ghost var dz;
      z, dz := Expr(e.b);
      ghost var mid3, m3 := code, model;
      var o2 := Exp2RK(z, dz);
      ghost var mid4, m4 := code, model;
      RecentKeeps(e.b, m2, nactvar, m3, dz, mid2, mid3, mid4);
      OperandOk(e.b, m2, nactvar, m3, dz);
      OperandRegisters(e.a, e.b, dy, dz, m, m2, m4, nactvar, o1, o2);
      x, d := CodeComp(e.op, o1, o2);
      RelationKeeps(e.a, e.b, dy, dz, m, m2, m4, nactvar, o1, o2, was, mid2, mid4, code);
    }

    /** `cond`: an expression as the condition of a statement, where nil is false. */
    method Condition(e: BoolExpr.Expr) returns (l: int, ghost exits: set<int>)
      requires Valid(false) && Scoped(e, nactvar)
      modifies `code, `jpc, `freereg, `model
      ensures Valid(false) && (model, exits) == CompileCondition(e, old(model), nactvar) && Lists(code, l, exits)
    {
      hide StateOk, CodeOk, Extends, ListOk, Threads, KeepsJumps, Lists, Compile, BoolCodeGen.GoIf, DescOk;
      var x;
      ghost var d;
      x, d := Expr(e);
      ConditionIs(code, model, nactvar, x, d);
      if x.k.VNIL? { x := ExpDesc(VFALSE, x.t, x.f); }
      l, exits := GoIfTrue(x, AsCondition(d));
    }

    /** The whole program for one value: its code runs on the virtual machine, and leaves
        the outcome of the expression's route in the register. */
    method Program(e: BoolExpr.Expr) returns (reg: int)
      requires Valid(false) && model == Start(nactvar) && Scoped(e, nactvar)
      modifies `code, `jpc, `freereg, `model
      ensures reg == nactvar && code == BoolCompiler.Program(e, nactvar)
      ensures forall j :: !Pending(code, j)
    {
      hide StateOk, CodeOk, Extends, ListOk, DescOk, Threads, KeepsJumps, Lists, KindIs, Compile,
        BoolCodeGen.Exp2NextReg, BoolCodeGen.DischargeJpc, Pending;
      var x;
      ghost var d;
      x, d := Expr(e);
      var y := Exp2NextReg(x, d);
      DischargeJpc();
      assert model.code == BoolCompiler.Program(e, nactvar);
      ProgramRegister(e, nactvar);
      BoolCodeListed.ProgramFinished(e, nactvar);
      hide Threads;
      FinishedThreads(code, model.code);
      reg := y.k.r;
    }
  }

  /** What a later step does to the jumps of an expression's code is new to the code before it. */
  lemma RecentKeeps(e: BoolExpr.Expr, s: State, n: int, r: State, d: Desc, was: seq<Instr>, mid: seq<Instr>,
      code: seq<Instr>)
    requires Compiled(e, s, n, r, d) && |was| == |s.code| && KeepsJumps(was, mid, s.jpc)
             && KeepsJumps(mid, code, Mine(r, d))
    ensures KeepsJumps(was, code, s.jpc)
  {
    hide DescOk, Extends;
    KeepsAgain(was, mid, code, s.jpc, Mine(r, d), s.jpc);
  }

  lemma ExitsKept(b: BoolExpr.Expr, s: State, s2: State, n: int, exits: set<int>, r: State, d: Desc)
    requires LeftDone(s, n, s2, exits) && Compiled(b, s2, n, r, d)
    ensures exits !! s2.jpc && exits !! Mine(r, d) && ListOk(r.code, exits)
  {
    hide CodeOk, ListOk, DescOk, Extends, Mine;
    ExitsApart(s2, exits, Mine(r, d));
    ExtendsList(s2.code, r.code, s2.jpc, exits);
  }

  lemma BothKeep(b: BoolExpr.Expr, s: State, s2: State, n: int, exits: set<int>, r: State, d: Desc,
                 was: seq<Instr>, mid: seq<Instr>, mid2: seq<Instr>, code: seq<Instr>)
    requires LeftDone(s, n, s2, exits) && Compiled(b, s2, n, r, d) && |was| == |s.code| && |mid| == |s2.code|
    requires KeepsJumps(was, mid, s.jpc) && KeepsJumps(mid, mid2, s2.jpc) && KeepsJumps(mid2, code, Mine(r, d) + exits)
    ensures KeepsJumps(was, code, s.jpc)
  {
    hide CodeOk, ListOk, DescOk, Extends, Mine, KeepsJumps;
    ExtendsLonger(s.code, s2.code, s.jpc);
    KeepsAgain(was, mid, mid2, s.jpc, s2.jpc, s.jpc);
    KeepsAgain(was, mid2, code, s.jpc, Mine(r, d) + exits, s.jpc);
  }

  lemma OperandRegisters(a: BoolExpr.Expr, b: BoolExpr.Expr, d1: Desc, d2: Desc, s: State, s2: State, s4: State, n: int,
      x: RK, y: RK)
    requires OperandDone(a, d1, s, n, s2, x) && OperandDone(b, d2, s2, n, s4, y) && 0 <= n <= s.free
    ensures x.Reg? ==> 0 <= x.r < n || n <= x.r == s4.free - (if y.Reg? && y.r >= n then 2 else 1)
    ensures y.Reg? ==> 0 <= y.r < n || n <= y.r == s4.free - 1
  {
    hide CodeOk, ListOk, Extends, InPlace, HasJumps, KindOf;
  }

  lemma RelationKeeps(a: BoolExpr.Expr, b: BoolExpr.Expr, d1: Desc, d2: Desc, s: State, s2: State, s4: State, n: int,
      x: RK, y: RK,
                      was: seq<Instr>, mid: seq<Instr>, mid2: seq<Instr>, code: seq<Instr>)
    requires OperandDone(a, d1, s, n, s2, x) && OperandDone(b, d2, s2, n, s4, y) && |was| == |s.code|
             && |mid| == |s2.code|
    requires KeepsJumps(was, mid, s.jpc) && KeepsJumps(mid, mid2, s2.jpc) && KeepsJumps(mid2, code, s4.jpc)
    ensures KeepsJumps(was, code, s.jpc)
  {
    hide CodeOk, ListOk, Extends, InPlace, HasJumps, KindOf, KeepsJumps;
    ExtendsLonger(s.code, s2.code, s.jpc);
    KeepsAgain(was, mid, mid2, s.jpc, s2.jpc, s.jpc);
    KeepsAgain(was, mid2, code, s.jpc, s4.jpc, s.jpc);
  }

  lemma ProgramRegister(e: BoolExpr.Expr, n: nat)
    requires Scoped(e, n)
    ensures CompileValue(e, Start(n), n).1 == n
  {
    hide Compile, Compiled, BoolCodeGen.Exp2NextReg, DescOk, CodeOk;
    BoolCodeListed.EmptyOk(n);
    CompileOk(e, Start(n), n);
    var (s1, d) := Compile(e, Start(n), n);
    BoolCodeListed.CompiledDesc(e, Start(n), n, s1, d);
    CompiledFree(e, Start(n), n, s1, d);
    Exp2NextRegOk(s1, d, n);
  }

  lemma CompiledFree(e: BoolExpr.Expr, s: State, n: int, r: State, d: Desc)
    requires Compiled(e, s, n, r, d)
    ensures r.free == s.free
  {
  }

  /** Without unpatched jumps, the threaded code is the code of the model. */
  lemma FinishedThreads(code: seq<Instr>, m: seq<Instr>)
    requires Threads(code, m) && |code| == |m| && forall j :: !Pending(m, j)
    ensures code == m
  {
    forall i | 0 <= i < |m| ensures code[i] == m[i] { assert !Pending(m, i); }
  }

  lemma DescState(m: State, d: Desc, n: int)
    requires DescOk(m, d, n)
    ensures StateOk(m)
  {
  }

  lemma NegatedDescs(m: State, d: Desc, n: int)
    requires DescOk(m, d, n)
    ensures var (s1, k) := BoolCodeGen.DischargeVars(m, d.k);
            DescOk(s1, d.(k := k), n) && s1.jpc <= m.jpc
  {
    DischargeVarsOk(m, d, n);
  }

  lemma KeepsKind(code: seq<Instr>, r: seq<Instr>, a: set<int>, m: int, k: ExpKind, d: DKind)
    requires KindIs(code, m, k, d) && KeepsJumps(code, r, a) && |r| == |code|
    requires forall i :: 0 <= i < |code| && !code[i].JMP? ==> r[i] == code[i]
    requires d.DJump? ==> d.j !in a
    ensures KindIs(r, m, k, d)
  {
    if k.VJMP? { KeepsLists(code, r, a, k.pc, {k.pc}); }
  }

  lemma StrippedKeeps(code: seq<Instr>, r: seq<Instr>, m: State, a: set<int>, l: int, k: ExpKind, d: DKind)
    requires Stripped(code, r, m.code, a) && Lists(code, l, m.jpc) && KindIs(code, |m.code|, k, d)
    ensures KeepsJumps(code, r, {}) && Lists(r, l, m.jpc) && KindIs(r, |m.code|, k, d)
    ensures |r| == |code| && Threads(r, WithoutValues(m.code, a))
  {
    KeepsLists(code, r, {}, l, m.jpc);
    if k.VJMP? { KeepsLists(code, r, {}, k.pc, {k.pc}); }
  }

  lemma WithoutLists(m: State, a: set<int>, b: set<int>)
    requires StateOk(m) && ListOk(m.code, b)
    ensures CodeOk(WithoutValues(m.code, a)) && ListOk(WithoutValues(m.code, a), b)
  {
    WithoutOk(m.code, a);
    WithoutListOk(m.code, a, b);
  }

  lemma JoinedLists(m: State, d: Desc, n: int, exits: set<int>)
    requires DescOk(m, d, n) && ListOk(m.code, exits) && exits !! Mine(m, d)
    ensures var (s1, k) := BoolCodeGen.DischargeVars(m, d.k);
            && exits !! d.t && exits !! d.f && exits !! s1.jpc && ListOk(s1.code, exits) && ListOk(s1.code, d.t)
            && ListOk(s1.code, d.f)
            && (k.DJump? ==> k.j !in d.t && k.j !in d.f)
  {
    DischargeVarsOk(m, d, n);
    var (s1, k) := BoolCodeGen.DischargeVars(m, d.k);
    hide CodeOk, ListOk, Extends, BoolCodeGen.DischargeVars;
    ExtendsList(m.code, s1.code, m.jpc, exits);
  }

  lemma CompareState(code: seq<Instr>, m: State, n: int, e: ExpDesc, d: Desc)
    requires DescIs(code, m, n, e, d)
    ensures e.k.VJMP? ==> d.k == DJump(e.k.pc) && m.jpc == {} && 1 <= e.k.pc == |m.code| - 1
                          && m.code[e.k.pc - 1].COMPARE? && m.code[e.k.pc] == JMP(NO_JUMP)
    ensures d.k.DJump? ==> e.k.VJMP?
  {
  }

  lemma MineLists(m: State, d: Desc)
    ensures m.jpc + d.t + d.f <= Mine(m, d)
  {
  }

  /** The new jump is on none of the lists of the descriptor. */
  lemma JumpApart(m: State, d: Desc, n: int, cond: bool)
    requires DescOk(m, d, n)
    ensures var (s1, k) := BoolCodeGen.DischargeVars(m, d.k);
            && s1.jpc <= m.jpc && DescOk(s1, d.(k := k), n)
            && (k.DJump? ==> 1 <= k.j < |s1.code| && s1.code[k.j - 1].COMPARE?)
            && var (s2, list) := BoolCodeGen.GoIfJump(s1, k, n, cond);
            && list !! d.t && list !! d.f && s2.jpc <= m.jpc && s2.jpc !! list && StateOk(s2)
            && ListOk(s2.code, d.t) && ListOk(s2.code, d.f) && s2.jpc !! d.t && s2.jpc !! d.f
            && (forall j :: j in s2.jpc ==> j in m.jpc || j >= |m.code|)
  {
    DischargeVarsOk(m, d, n);
    var (s1, k) := BoolCodeGen.DischargeVars(m, d.k);
    GoIfJumpOk(s1, k, n, cond);
    ListBelow(m.code, d.t);
    ListBelow(m.code, d.f);
    hide CodeOk, Extends, ListOk, BoolCodeGen.GoIfJump, BoolCodeGen.DischargeVars;
    ExtendsList(s1.code, BoolCodeGen.GoIfJump(s1, k, n, cond).0.code, s1.jpc, d.t);
    ExtendsList(s1.code, BoolCodeGen.GoIfJump(s1, k, n, cond).0.code, s1.jpc, d.f);
  }

  lemma NoExits(code: seq<Instr>, m: State, n: int, e: ExpDesc, d: Desc)
    requires DescIs(code, m, n, e, d)
    ensures (e.t == e.f <==> !d.HasJumps())
    ensures InPlace(d) <==> e.t == e.f && !e.k.VGLOBAL? && !e.k.VJMP? && !e.k.VRELOCABLE?
  {
    EmptyLists(code, e.t, d.t, e.f, d.f);
  }

  lemma InvertedThreads(code: seq<Instr>, m: State, pc: int)
    requires StateOk(m) && Threads(code, m.code) && |code| == |m.code| && m.jpc == {}
    requires 1 <= pc < |m.code| && m.code[pc - 1].COMPARE?
    ensures code[pc - 1] == m.code[pc - 1] && StateOk(m.(code := Inverted(m.code, pc)))
    ensures var r := code[pc - 1 := code[pc - 1].(cond := !code[pc - 1].cond)];
            Threads(r, Inverted(m.code, pc)) && KeepsJumps(code, r, {})
  {
    InvertOk(m.code, pc);
  }

  /** The descriptor of a relocatable instruction. */
  lemma RelocIs(code: seq<Instr>, m: State, n: int, e: ExpDesc, d: Desc)
    requires DescIs(code, m, n, e, d)
    ensures e.k.VRELOCABLE? ==> e.k.pc == |code| - 1 == |m.code| && (code[e.k.pc].NOT? <==> d.k.DNot?)
                                && (d.k.DNot? ==> d.k.b == code[e.k.pc].b)
    ensures d.k.DNot? ==> e.k.VRELOCABLE?
  {
  }

  /** Without its relocatable instruction, the code is that of the model. */
  lemma DropReloc(code: seq<Instr>, m: State, l: int)
    requires StateOk(m) && Threads(code, m.code) && |code| == |m.code| + 1 && !code[|m.code|].JMP?
             && Lists(code, l, m.jpc)
    ensures Threads(code[..|code| - 1], m.code) && KeepsJumps(code, code[..|code| - 1], {})
            && Lists(code[..|code| - 1], l, m.jpc)
  {
    assert KeepsJumps(code, code[..|code| - 1], {});
    KeepsLists(code, code[..|code| - 1], {}, l, m.jpc);
  }

  /** A new register is the last one. */
  lemma AnyRegister(m: State, d: Desc, n: int)
    requires DescOk(m, d, n)
    ensures var (r, reg) := BoolCodeGen.Discharge2AnyReg(m, d.k); reg >= n ==> reg == r.free - 1 >= n
  {
  }

  lemma AnyRegHolds(m: State, d: Desc, n: int)
    requires DescOk(m, d, n)
    ensures BoolCodeGen.Discharge2AnyReg(m, d.k).0.jpc <= m.jpc
  {
  }

  lemma LocalRegister(code: seq<Instr>, m: State, n: int, e: ExpDesc, d: Desc)
    requires DescIs(code, m, n, e, d) && e.k.VNONRELOC?
    ensures 0 <= e.k.r < n
  {
  }

  lemma MoreRegisters(m: State, d: Desc, n: int)
    requires DescOk(m, d, n)
    ensures DescOk(m.(free := m.free + 1), d, n)
  {
  }

  lemma EmptyLists(code: seq<Instr>, t: int, ts: set<int>, f: int, fs: set<int>)
    requires Lists(code, t, ts) && Lists(code, f, fs) && ts !! fs
    ensures t == f <==> ts == {} && fs == {}
  {
  }

  lemma CompareListed(m: State, d: Desc, n: int)
    requires DescOk(m, d, n) && d.k.DJump?
    ensures d.k.j !in d.t && d.k.j !in d.f && m.jpc == {} && ListOk(m.code, {d.k.j})
  {
  }

  lemma ConditionIs(code: seq<Instr>, m: State, n: int, e: ExpDesc, d: Desc)
    requires DescIs(code, m, n, e, d)
    ensures DescIs(code, m, n, if e.k.VNIL? then ExpDesc(VFALSE, e.t, e.f) else e, AsCondition(d))
  {
    hide StateOk, ListOk, Lists;
  }

  lemma WithJumpIs(e: ExpDesc, d: Desc, code: seq<Instr>)
    ensures WithJump(d.k, d.t) == if d.k.DJump? then d.t + {d.k.j} else d.t
  {
  }

  /** With the targets in place, the order and the targets of the patches are right. */
  lemma ExitPatches(m: State, reg: int, ts: set<int>, fs: set<int>, pf: int, pt: int)
    requires StateOk(m) && TargetsThere(m, reg, ts, fs) && ListOk(m.code, ts) && ListOk(m.code, fs)
    requires ts !! fs && m.jpc !! ts && m.jpc !! fs
    requires NeedValue(m.code, ts) || NeedValue(m.code, fs) ==> pf == |m.code| - 2 && pt == |m.code| - 1
    ensures var n := |m.code|;
            var mid := PatchList(m.code, fs, n, reg, pf);
            && TargetsOk(m.code, fs, n, pf) && TargetsOk(mid, ts, n, pt) && CodeOk(mid) && ListOk(mid, ts)
            && PatchExits(m, ts, fs, reg) == m.(code := PatchList(mid, ts, n, reg, pt))
  {
    var n := |m.code|;
    var mid := m.(code := PatchList(m.code, fs, n, reg, n - 2));
    hide StateOk, CodeOk, ListOk, TargetsOk, NeedValue, PatchList, TargetsThere, IsStart, Extends;
    ExitTargetOk(m, reg, ts, fs, fs, n - 2);
    TargetsStay(m, reg, ts, fs);
    ExitTargetOk(mid, reg, ts, {}, ts, n - 1);
    CodeOfState(m);
    CodeOfState(mid);
    SameTargets(m.code, fs, n, reg, n - 2, pf);
    SameTargets(mid.code, ts, n, reg, n - 1, pt);
  }

  lemma CodeOfState(s: State)
    requires StateOk(s)
    ensures CodeOk(s.code)
  {
  }

  /** Only jumps that need a value use the other target. */
  lemma SameTargets(code: seq<Instr>, list: set<int>, target: int, reg: int, d1: int, d2: int)
    requires ListOk(code, list) && TargetsOk(code, list, target, d1) && (NeedValue(code, list) ==> d1 == d2)
    ensures TargetsOk(code, list, target, d2)
            && PatchList(code, list, target, reg, d1) == PatchList(code, list, target, reg, d2)
  {
    forall j | j in list ensures Carries(code, j) || d1 == d2 {
      if !Carries(code, j) { assert NeedValue(code, list); }
    }
    hide NeedValue, IsStart, Carries;
    assert forall i :: 0 <= i < |code| ==> PatchedInstr(code, list, target, reg, d1,
                                                        i) == PatchedInstr(code, list, target, reg, d2, i);
  }

  lemma TargetsNeed(s: State, r: State, k: DKind, ts: set<int>, fs: set<int>, reg: int)
    requires StateOk(s) && ListOk(s.code, ts) && ListOk(s.code, fs) && s.jpc !! ts && s.jpc !! fs
    requires r == ExitTargets(s, k, ts, fs, reg)
    ensures (NeedValue(r.code, ts) <==> NeedValue(s.code, ts)) && (NeedValue(r.code, fs) <==> NeedValue(s.code, fs))
  {
    ExitTargetsOk(s, k, ts, fs, reg);
    hide ExitTargets, CodeOk, ListOk;
    SameNeed(s.code, r.code, ts, {});
    SameNeed(s.code, r.code, fs, {});
  }

  lemma LabelThreads(code: seq<Instr>, m: seq<Instr>, reg: int)
    requires Threads(code, m) && |code| == |m| + 1 && code[|m|] == LOADBOOL(reg, false, true)
    ensures Threads(code + [LOADBOOL(reg, true, false)], m + LoadBools(reg))
  {
  }

  lemma LabelsOk(s: State)
    requires CodeOk(s.code) && s.jpc == {}
    ensures StateOk(s)
  {
  }

  lemma HeldJumpListed(s: State, mid: seq<Instr>, code: seq<Instr>, fj: int, list: set<int>, reg: int)
    requires StateOk(s) && list == BoolCodeGen.Jump(s).1 && Lists(mid, fj, list) && KeepsJumps(mid, code, {})
    ensures ListOk(BoolCodeGen.Jump(s).0.code + LoadBools(reg), list) && Lists(code, fj, list)
  {
    JumpOk(s);
    AppendListOk(BoolCodeGen.Jump(s).0.code, LoadBools(reg), list);
    KeepsLists(mid, code, {}, fj, list);
  }

  lemma RelocThreads(code: seq<Instr>, m: State, n: int, e: ExpDesc, d: Desc, reg: int)
    requires StateOk(m) && Threads(code, m.code) && DescIs(code, m, n, e, d) && e.k.VRELOCABLE? && m.jpc == {}
    ensures 0 <= e.k.pc < |code| && (code[e.k.pc].GETGLOBAL? || code[e.k.pc].NOT?)
    ensures var i := if code[e.k.pc].GETGLOBAL? then GETGLOBAL(reg, code[e.k.pc].g) else NOT(reg, code[e.k.pc].b);
            && LoadOf(d.k, reg) == Some(i)
            && Threads(code[e.k.pc := i], Emit(m, i).code) && KeepsJumps(code, code[e.k.pc := i], {})
            && |Emit(m, i).code| == |code| && Emit(m, i).jpc == {} && Emit(m, i).free == m.free
  {
    NothingPatched(m.code, |m.code|, NO_REG, |m.code|);
  }

  lemma KeepsNothing(code: seq<Instr>, a: set<int>)
    ensures KeepsJumps(code, code, a)
  {
  }

  lemma LocalIs(code: seq<Instr>, m: State, n: int, e: ExpDesc, d: Desc)
    requires DescIs(code, m, n, e, d) && e.k.VLOCAL?
    ensures DescIs(code, m, n, e.(k := VNONRELOC(e.k.r)), d.(k := DReg(e.k.r))) && d.k == DLocal(e.k.r)
  {
  }

  lemma GlobalIs(code: seq<Instr>, r: seq<Instr>, m: State, n: int, e: ExpDesc, d: Desc)
    requires DescIs(code, m, n, e, d) && e.k.VGLOBAL? && KeepsJumps(code, r, m.jpc)
    requires |r| == |m.code| + 1 && r[|r| - 1] == GETGLOBAL(0, e.k.g)
    ensures d.k == DGlobal(e.k.g) && DescIs(r, BoolCodeGen.DischargeJpc(m), n, e.(k := VRELOCABLE(|r| - 1)),
                                            d.(k := DFetch(e.k.g)))
  {
    DischargeVarsOk(m, d, n);
    hide DescOk, KeepsJumps;
    assert m.jpc !! d.t && m.jpc !! d.f by { ListsApart(m, d, n); }
    KeepsLists(code, r, m.jpc, e.t, d.t);
    KeepsLists(code, r, m.jpc, e.f, d.f);
  }

  lemma ListsApart(m: State, d: Desc, n: int)
    requires DescOk(m, d, n)
    ensures m.jpc !! d.t && m.jpc !! d.f && d.t !! d.f && ListOk(m.code, d.t) && ListOk(m.code, d.f)
  {
  }

  lemma TestThreads(code: seq<Instr>, m: seq<Instr>, i: Instr)
    requires Threads(code, m) && |code| == |m| + 1 && code[|m|] == i && IsTest(i)
    ensures Threads(code + [JMP(NO_JUMP)], m + [i, JMP(NO_JUMP)])
  {
  }

  lemma NoneListed(code: seq<Instr>)
    ensures Lists(code, NO_JUMP, {})
  {
  }

  lemma KeepsMore(code: seq<Instr>, r: seq<Instr>, a: set<int>, all: set<int>)
    requires KeepsJumps(code, r, a) && a <= all
    ensures KeepsJumps(code, r, all)
  {
  }

  lemma HoldTargets(s: State)
    requires StateOk(s)
    ensures TargetsOk(s.code, s.jpc, |s.code|, |s.code|)
  {
    EndIsStart(s.code);
  }

  lemma KeepsAppend(code: seq<Instr>, more: seq<Instr>)
    ensures KeepsJumps(code, code + more, {})
  {
  }

  lemma JumpPending(code: seq<Instr>, m: seq<Instr>, j: int)
    requires |m| == j + 1 && 0 <= j && m[j] == JMP(NO_JUMP)
    ensures ListOk(m, {j})
  {
  }

  lemma StrippedStart(code: seq<Instr>, m: seq<Instr>)
    requires Threads(code, m)
    ensures Stripped(code, code, m, {})
  {
    assert WithoutValues(m, {}) == m;
  }

  lemma KeepsAll(code: seq<Instr>)
    ensures KeepsJumps(code, code, {})
  {
  }

  lemma PartOfList(code: seq<Instr>, a: set<int>, part: set<int>, vtarget: int, dtarget: int)
    requires ListOk(code, a) && TargetsOk(code, a, vtarget, dtarget) && part <= a
    ensures ListOk(code, part) && TargetsOk(code, part, vtarget, dtarget)
  {
  }

  lemma LinkThreads(code: seq<Instr>, m: seq<Instr>, a: set<int>, j: int, dest: int)
    requires Threads(code, m) && ListOk(m, a) && j in a && 0 <= j < |code|
    ensures Threads(FixedJump(code, j, dest), m) && KeepsJumps(code, FixedJump(code, j, dest), a)
  {
  }
}
