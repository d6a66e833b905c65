/** Lists of unpatched jumps, threaded through the offsets of the jumps themselves. */
module JumpLists {
  import opened BoolExpr
  import opened BoolCode
  import opened BoolCodeGen
  import opened BoolCodeRuns

  /** The next jump of a list; a jump to itself ends the list. */
  function GetJump(code: seq<Instr>, pc: int): int
    requires 0 <= pc < |code| && code[pc].JMP?
  {
    if code[pc].off == NO_JUMP then NO_JUMP else pc + 1 + code[pc].off
  }

  function FixedJump(code: seq<Instr>, pc: int, dest: int): (r: seq<Instr>)
    requires 0 <= pc < |code|
    ensures |r| == |code| && r[pc] == JMP(dest - (pc + 1)) && forall i :: 0 <= i < |code| && i != pc ==> r[i] == code[i]
  {
    code[pc := JMP(dest - (pc + 1))]
  }

  /** The list that starts at `l` has exactly the jumps of a set. */
  ghost predicate Lists(code: seq<Instr>, l: int, set_: set<int>)
    decreases |set_|
  {
    if l == NO_JUMP then set_ == {}
    else
      && l in set_ && 0 <= l < |code| && code[l].JMP?
      && Lists(code, GetJump(code, l), set_ - {l})
  }

  lemma {:induction false} ListsSame(code: seq<Instr>, r: seq<Instr>, l: int, a: set<int>)
    requires Lists(code, l, a)
    requires forall j :: j in a && 0 <= j < |code| ==> j < |r| && r[j] == code[j]
    ensures Lists(r, l, a)
    decreases |a|
  {
    if l != NO_JUMP { ListsSame(code, r, GetJump(code, l), a - {l}); }
  }

  lemma {:induction false} ListsIn(code: seq<Instr>, l: int, a: set<int>)
    requires Lists(code, l, a)
    ensures forall j :: j in a ==> 0 <= j < |code| && code[j].JMP?
    decreases |a|
  {
    if l != NO_JUMP {
      ListsIn(code, GetJump(code, l), a - {l});
      forall j | j in a ensures 0 <= j < |code| && code[j].JMP? {
        assert j == l || j in a - {l};
      }
    }
  }

  lemma ListsCons(code: seq<Instr>, l: int, a: set<int>)
    requires l != NO_JUMP && l in a && 0 <= l < |code| && code[l].JMP? && Lists(code, GetJump(code, l), a - {l})
    ensures Lists(code, l, a)
  {
  }

  ghost function LastOf(code: seq<Instr>, l: int, a: set<int>): (j: int)
    requires Lists(code, l, a) && l != NO_JUMP
    ensures j in a && 0 <= j < |code| && code[j].JMP?
    decreases |a|
  {
    if GetJump(code, l) == NO_JUMP then l else LastOf(code, GetJump(code, l), a - {l})
  }

  /** Linking the last jump of one list to another list. */
  lemma {:induction false} ConcatLists(code: seq<Instr>, l1: int, a: set<int>, l2: int, b: set<int>)
    requires Lists(code, l1, a) && Lists(code, l2, b) && l1 != NO_JUMP && l2 != NO_JUMP && a !! b
    ensures Lists(FixedJump(code, LastOf(code, l1, a), l2), l1, a + b)
    decreases |a|
  {
    var r := FixedJump(code, LastOf(code, l1, a), l2);
    var next := GetJump(code, l1);
    if next == NO_JUMP {
      assert a == {l1} && (a + b) - {l1} == b && l2 != l1;
      ListsSame(code, r, l2, b);
      assert GetJump(r, l1) == l2 && Lists(r, l2, (a + b) - {l1});
    } else {
      ConcatLists(code, next, a - {l1}, l2, b);
      assert (a + b) - {l1} == (a - {l1}) + b;
      assert r[l1] == code[l1] by { LastElsewhere(code, next, a - {l1}); }
      assert GetJump(r, l1) == next && Lists(r, next, (a + b) - {l1});
    }
    ListsCons(r, l1, a + b);
  }

  lemma LastElsewhere(code: seq<Instr>, l: int, a: set<int>)
    requires Lists(code, l, a) && l != NO_JUMP
    ensures LastOf(code, l, a) in a
  {
  }

  // ------------------------------------- threaded code and code with holes

  /** The code is that of the model, but for the offsets of its unpatched jumps. */
  ghost predicate Threads(code: seq<Instr>, a: seq<Instr>) {
    && |a| <= |code|
    && forall i :: 0 <= i < |a| ==> if a[i] == JMP(NO_JUMP) then code[i].JMP? else code[i] == a[i]
  }

  /** Only the jumps of a set, and the tests that control them, may differ. */
  ghost predicate Touches(code: seq<Instr>, r: seq<Instr>, a: set<int>) {
    |r| == |code| && forall i :: 0 <= i < |code| && i !in a && i + 1 !in a ==> r[i] == code[i]
  }

  /** `patchtestreg`: the code after it, and whether the jump carries a value. */
  function PatchTest(code: seq<Instr>, node: int, reg: int): (r: (seq<Instr>, bool))
    requires 0 <= node < |code|
    ensures |r.0| == |code|
  {
    var c := Control(code, node);
    if code[c].TESTSET? then (code[c := PatchedTest(code[c], reg)], true) else (code, false)
  }

  /** One more jump of a list is patched. */
  lemma PatchOne(code: seq<Instr>, a: seq<Instr>, done: set<int>, j: int, vtarget: int, reg: int, dtarget: int)
    requires CodeOk(a) && Threads(code, PatchList(a, done, vtarget, reg, dtarget)) && Pending(a, j) && j !in done
    requires ListOk(a, done) && TargetsOk(a, done + {j}, vtarget, dtarget)
    ensures var (c, v) := PatchTest(code, j, reg);
            var r := FixedJump(c, j, if v then vtarget else dtarget);
            && Threads(r, PatchList(a, done + {j}, vtarget, reg, dtarget))
            && Touches(code, r, {j}) && (forall i :: 0 <= i < |code| && code[i].JMP? && i != j ==> r[i] == code[i])
  {
    var m := PatchList(a, done, vtarget, reg, dtarget);
    var n := PatchList(a, done + {j}, vtarget, reg, dtarget);
    PatchOneTest(code, a, done, j, vtarget, reg, dtarget);
    var (c, v) := PatchTest(code, j, reg);
    var r := FixedJump(c, j, if v then vtarget else dtarget);
    PatchTouches(code, j, reg, if v then vtarget else dtarget);
    assert |n| == |a| == |m|;
    forall i | 0 <= i < |a| ensures if n[i] == JMP(NO_JUMP) then r[i].JMP? else r[i] == n[i] {
      assert n[i] == PatchedInstr(a, done + {j}, vtarget, reg, dtarget, i);
      assert m[i] == PatchedInstr(a, done, vtarget, reg, dtarget, i);
    }
  }

  /** The test before an unpatched jump is the same in the code and in the model. */
  lemma PatchOneTest(code: seq<Instr>, a: seq<Instr>, done: set<int>, j: int, vtarget: int, reg: int, dtarget: int)
    requires CodeOk(a) && Threads(code, PatchList(a, done, vtarget, reg, dtarget)) && Pending(a, j) && j !in done
    requires ListOk(a, done)
    ensures 0 <= j < |a| <= |code| && code[j].JMP? && PatchList(a, done, vtarget, reg, dtarget)[j] == a[j]
    ensures Carries(a, j) == code[Control(code, j)].TESTSET?
    ensures j >= 1 && IsTest(a[j - 1]) ==> code[j - 1] == a[j - 1] && j - 1 !in done
    ensures j >= 1 && IsTest(code[j - 1]) ==> IsTest(a[j - 1])
  {
    var m := PatchList(a, done, vtarget, reg, dtarget);
    assert m[j] == a[j] && code[j].JMP?;
    if j >= 1 {
      assert a[j - 1] != JMP(NO_JUMP) || !IsTest(code[j - 1]);
      assert m[j - 1] == PatchedInstr(a, done, vtarget, reg, dtarget, j - 1);
      assert IsTest(a[j - 1]) ==> j - 1 !in done && m[j - 1] == a[j - 1] == code[j - 1];
    }
  }

  lemma PatchTouches(code: seq<Instr>, j: int, reg: int, target: int)
    requires 0 <= j < |code| && code[j].JMP?
    ensures var r := FixedJump(PatchTest(code, j, reg).0, j, target);
            && Touches(code, r, {j}) && (forall i :: 0 <= i < |code| && code[i].JMP? && i != j ==> r[i] == code[i])
  {
  }

  /** All jumps outside a set are as they were. */
  ghost predicate KeepsJumps(code: seq<Instr>, r: seq<Instr>, a: set<int>) {
    forall i :: 0 <= i < |code| && code[i].JMP? && i !in a ==> i < |r| && r[i] == code[i]
  }

  lemma KeepsLists(code: seq<Instr>, r: seq<Instr>, a: set<int>, l: int, b: set<int>)
    requires Lists(code, l, b) && KeepsJumps(code, r, a) && a !! b
    ensures Lists(r, l, b)
  {
    ListsIn(code, l, b);
    ListsSame(code, r, l, b);
  }

  lemma KeepsAgain(code: seq<Instr>, mid: seq<Instr>, r: seq<Instr>, a: set<int>, b: set<int>, all: set<int>)
    requires KeepsJumps(code, mid, a) && KeepsJumps(mid, r, b)
    requires forall i :: i in a || (i in b && 0 <= i < |code|) ==> i in all
    ensures KeepsJumps(code, r, all)
  {
  }

  /** A jump added in front of the jumps on hold. */
  lemma JumpThreaded(code: seq<Instr>, l: int, a: set<int>)
    requires Lists(code, l, a)
    ensures var r := code + [JMP(if l == NO_JUMP then NO_JUMP else l - (|code| + 1))];
            Lists(r, |code|, a + {|code|}) && KeepsJumps(code, r, {})
  {
    var r := code + [JMP(if l == NO_JUMP then NO_JUMP else l - (|code| + 1))];
    ListsIn(code, l, a);
    ListsSame(code, r, l, a);
    assert (a + {|code|}) - {|code|} == a;
    ListsCons(r, |code|, a + {|code|});
  }

  lemma AppendLists(code: seq<Instr>, more: seq<Instr>, l: int, a: set<int>)
    requires Lists(code, l, a)
    ensures Lists(code + more, l, a)
  {
    ListsIn(code, l, a);
    ListsSame(code, code + more, l, a);
  }

  lemma NothingPatched(code: seq<Instr>, vtarget: int, reg: int, dtarget: int)
    ensures PatchList(code, {}, vtarget, reg, dtarget) == code
  {
  }

  /** One more jump of a list loses its value. */
  lemma WithoutOne(code: seq<Instr>, a: seq<Instr>, done: set<int>, j: int)
    requires CodeOk(a) && Threads(code, WithoutValues(a, done)) && Pending(a, j) && j !in done
    ensures var (c, _) := PatchTest(code, j, NO_REG);
            Threads(c, WithoutValues(a, done + {j})) && KeepsJumps(code, c, {})
  {
    var m, n := WithoutValues(a, done), WithoutValues(a, done + {j});
    var (c, v) := PatchTest(code, j, NO_REG);
    assert m[j] == a[j];
    if j >= 1 { assert IsTest(code[j - 1]) <==> IsTest(m[j - 1]); }
    forall i | 0 <= i < |a| ensures if n[i] == JMP(NO_JUMP) then c[i].JMP? else c[i] == n[i] {
      assert i != j - 1 ==> n[i] == m[i];
    }
  }

  /** Whether a jump carries a value can be read off the threaded code. */
  lemma ThreadsCarries(code: seq<Instr>, a: seq<Instr>, j: int)
    requires CodeOk(a) && Threads(code, a) && Pending(a, j)
    ensures code[j].JMP? && Carries(code, j) == Carries(a, j)
  {
    if j >= 1 { assert IsTest(code[j - 1]) <==> IsTest(a[j - 1]); }
  }
}
