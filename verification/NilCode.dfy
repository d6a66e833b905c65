/** Setting registers to nil: instructions that are merged or left out, but never across
    the target of a jump. */
module NilCode {
  import opened Common

  /** None is nil. */
  type Regs<!V> = int -> Option<V>

  /** Filling a range with nil; a jump on a condition, back or forward, with what it does to
      the registers when it is taken; anything else. */
  datatype Instr<!V> =
    | LoadNil(a: int, b: int)
    | JumpIf(cond: Regs<V> -> bool, taken: Regs<V> -> Regs<V>, target: nat)
    | Effect(apply: Regs<V> -> Regs<V>)

  function Filled<V>(R: Regs<V>, a: int, b: int): Regs<V> {
    r => if a <= r <= b then None else R(r)
  }

  ghost predicate Same<V>(R: Regs<V>, S: Regs<V>) {
    forall r :: R(r) == S(r)
  }

  /** The second of two runs, if it ends, leaves what the first leaves and a range of nils. */
  ghost predicate AlsoFills<V>(r: Option<Regs<V>>, was: Option<Regs<V>>, a: int, b: int) {
    (r.Some? <==> was.Some?) && (was.Some? ==> Same(r.value, Filled(was.value, a, b)))
  }

  /** Jumps go to instructions, or to the end of the code so far. */
  ghost predicate CodeOk<V>(code: seq<Instr<V>>) {
    forall i :: 0 <= i < |code| && code[i].JumpIf? ==> code[i].target <= |code|
  }

  /** The registers at the end of the code, when it runs from an instruction on, if it ends
      within some steps. */
  ghost function Run<V>(code: seq<Instr<V>>, pc: nat, R: Regs<V>, steps: nat): Option<Regs<V>>
    requires CodeOk(code) && pc <= |code|
    decreases steps
  {
    if pc == |code| then Some(R)
    else if steps == 0 then None
    else
      match code[pc]
      case LoadNil(a, b) => Run(code, pc + 1, Filled(R, a, b), steps - 1)
      case JumpIf(cond, taken, target) =>
        if cond(R) then Run(code, target, taken(R), steps - 1) else Run(code, pc + 1, R, steps - 1)
      case Effect(apply) => Run(code, pc + 1, apply(R), steps - 1)
  }

  /** A code generator: jumps go to labels, and `lasttarget` is the last of them. */
  class NilState<!V(!new)> {
    var code: seq<Instr<V>>
    var lasttarget: int
    const nactvar: nat

    ghost predicate Valid()
      reads this
    {
      && CodeOk(code) && lasttarget <= |code|
      && forall i :: 0 <= i < |code| && code[i].JumpIf? ==> code[i].target <= lasttarget
    }

    constructor (nactvar: nat)
      ensures Valid() && code == [] && lasttarget == -1 && this.nactvar == nactvar
    {
      code, lasttarget := [], -1;
      this.nactvar := nactvar;
    }

    /** `luaK_getlabel`: the current position becomes a target. */
    method GetLabel() returns (pc: nat)
      requires Valid()
      modifies this`lasttarget
      ensures Valid() && pc == lasttarget == |code|
    {
      lasttarget := |code|;
      pc := |code|;
    }

    /** A jump to a label. */
    method JumpTo(cond: Regs<V> -> bool, taken: Regs<V> -> Regs<V>, label_: nat)
      requires Valid() && label_ <= lasttarget
      modifies this`code
      ensures Valid() && code == old(code) + [JumpIf(cond, taken, label_)]
    {
      code := code + [JumpIf(cond, taken, label_)];
    }

    /** A forward jump is patched to here. */
    method PatchToHere(j: nat)
      requires Valid() && j < |code| && code[j].JumpIf?
      modifies this
      ensures Valid() && lasttarget == |code| && code == old(code)[j := old(code)[j].(target := |code|)]
    {
      var here := GetLabel();
      code := code[j := code[j].(target := here)];
    }

    /** `luaK_nil`: from every place where runs may come in, the start or a target, the code
        now also fills the registers with nil, and ends if and only if it did. At the start
        of a function the registers above the active variables are nil already. */
    method Nil(from: nat, n: nat)
      requires Valid() && n > 0
      modifies this`code
      ensures Valid()
      ensures |old(code)| <= |code| && NowFills(old(code), code, |code| - |old(code)|, lasttarget, nactvar, from, n)
    {
      ghost var was := code;
      if |code| > lasttarget {
        if |code| == 0 {
          if from >= nactvar {
            StartIsClean<V>(lasttarget, nactvar, from, n);
            return;
          }
        } else if code[|code| - 1].LoadNil? {
          var a, b := code[|code| - 1].a, code[|code| - 1].b;
          if a <= from <= b + 1 {
            var top := if from + n - 1 > b then from + n - 1 else b;
            MergedRuns(code[..|code| - 1], a, b, from, n, lasttarget, nactvar);
            assert was == code[..|code| - 1] + [LoadNil(a, b)];
            code := code[..|code| - 1] + [LoadNil(a, top)];
            return;
          }
        }
      }
      AppendedRuns(code, from, n, lasttarget, nactvar);
      code := code + [LoadNil(from, from + n - 1)];
    }
  }

  /** Runs come in at the start of a function, or at a target. */
  ghost predicate EntersAt<V>(code: seq<Instr<V>>, e: nat, lasttarget: int, nactvar: nat, R: Regs<V>) {
    e <= |code| && (e <= lasttarget || (e == 0 && forall r :: r >= nactvar ==> R(r) == None))
  }

  /** From every place where runs may come in, with some steps more. */
  ghost predicate NowFills<V(!new)>(was: seq<Instr<V>>, code: seq<Instr<V>>, more: nat, lasttarget: int, nactvar: nat,
      from: nat, n: nat)
  {
    && CodeOk(was) && CodeOk(code) && |was| <= |code|
    && forall e: nat, R: Regs<V>, k: nat :: EntersAt(was, e, lasttarget, nactvar, R) ==>
         AlsoFills(Run(code, e, R, k + more), Run(was, e, R, k), from, from + n - 1)
  }

  lemma StartIsClean<V(!new)>(lasttarget: int, nactvar: nat, from: nat, n: nat)
    requires from >= nactvar && lasttarget < 0
    ensures NowFills<V>([], [], 0, lasttarget, nactvar, from, n)
  {
  }

  /** All jumps stay at or before a place. */
  ghost predicate JumpsTo<V>(code: seq<Instr<V>>, last: int) {
    forall i :: 0 <= i < |code| && code[i].JumpIf? ==> code[i].target <= last
  }

  lemma AppendedOk<V>(pre: seq<Instr<V>>, x: Instr<V>)
    requires CodeOk(pre) && !x.JumpIf?
    ensures CodeOk(pre + [x])
  {
    var code := pre + [x];
    forall i | 0 <= i < |code| && code[i].JumpIf? ensures code[i].target <= |code| { assert code[i] == pre[i]; }
  }

  /** Code runs the same with a range of nils after it, and then fills the range. */
  lemma {:induction false} AppendedRun<V>(code: seq<Instr<V>>, a: int, b: int, pc: nat, R: Regs<V>, k: nat)
    requires CodeOk(code) && pc <= |code|
    ensures CodeOk(code + [LoadNil(a, b)])
    ensures AlsoFills(Run(code + [LoadNil(a, b)], pc, R, k + 1), Run(code, pc, R, k), a, b)
    decreases k
  {
    AppendedOk(code, LoadNil(a, b));
    var all := code + [LoadNil(a, b)];
    if pc < |code| {
      assert all[pc] == code[pc];
      if k > 0 {
        match code[pc]
        case LoadNil(x, y) => AppendedRun(code, a, b, pc + 1, Filled(R, x, y), k - 1);
        case JumpIf(cond, taken, target) =>
          if cond(R) { AppendedRun(code, a, b, target, taken(R), k - 1); } else {
            AppendedRun(code, a, b, pc + 1, R, k - 1);
          }
        case Effect(apply) => AppendedRun(code, a, b, pc + 1, apply(R), k - 1);
      } else {
        NotYet(all, pc, R);
      }
    } else {
      assert all[pc] == LoadNil(a, b);
    }
  }

  /** One step does not end a run that is not at the last instruction, or jumps there. */
  lemma NotYet<V>(all: seq<Instr<V>>, pc: nat, R: Regs<V>)
    requires CodeOk(all) && pc < |all| - 1 && JumpsTo(all, |all| - 1)
    ensures Run(all, pc, R, 1).None?
  {
  }

  lemma AppendedRuns<V(!new)>(code: seq<Instr<V>>, from: nat, n: nat, lasttarget: int, nactvar: nat)
    requires CodeOk(code) && n > 0
    ensures NowFills(code, code + [LoadNil(from, from + n - 1)], 1, lasttarget, nactvar, from, n)
  {
    var all := code + [LoadNil(from, from + n - 1)];
    AppendedOk(code, LoadNil(from, from + n - 1));
    forall e: nat, R: Regs<V>, k: nat | EntersAt(code, e, lasttarget, nactvar, R)
      ensures AlsoFills(Run(all, e, R, k + 1), Run(code, e, R, k), from, from + n - 1)
    {
      AppendedRun(code, from, from + n - 1, e, R, k);
    }
  }

  /** No run comes in after the instruction that is merged with, and no jump goes there. */
  lemma {:induction false} MergedRun<V>(pre: seq<Instr<V>>, a: int, b: int, from: nat, n: nat, pc: nat, R: Regs<V>,
      k: nat)
    requires n > 0 && a <= from <= b + 1 && JumpsTo(pre, |pre|) && pc <= |pre|
    ensures var top := if from + n - 1 > b then from + n - 1 else b;
            var was, code := pre + [LoadNil(a, b)], pre + [LoadNil(a, top)];
            CodeOk(was) && CodeOk(code) && AlsoFills(Run(code, pc, R, k), Run(was, pc, R, k), from, from + n - 1)
    decreases k
  {
    var top := if from + n - 1 > b then from + n - 1 else b;
    var was, code := pre + [LoadNil(a, b)], pre + [LoadNil(a, top)];
    AppendedOk(pre, LoadNil(a, b));
    AppendedOk(pre, LoadNil(a, top));
    if k > 0 {
      if pc < |pre| {
        assert was[pc] == pre[pc] == code[pc];
        match pre[pc]
        case LoadNil(x, y) => MergedRun(pre, a, b, from, n, pc + 1, Filled(R, x, y), k - 1);
        case JumpIf(cond, taken, target) =>
          if cond(R) { MergedRun(pre, a, b, from, n, target, taken(R), k - 1); } else {
            MergedRun(pre, a, b, from, n, pc + 1, R, k - 1);
          }
        case Effect(apply) => MergedRun(pre, a, b, from, n, pc + 1, apply(R), k - 1);
      } else {
        assert was[pc] == LoadNil(a, b) && code[pc] == LoadNil(a, top);
      }
    }
  }

  lemma MergedRuns<V(!new)>(pre: seq<Instr<V>>, a: int, b: int, from: nat, n: nat, lasttarget: int, nactvar: nat)
    requires n > 0 && a <= from <= b + 1 && lasttarget <= |pre| && JumpsTo(pre, lasttarget)
    ensures var top := if from + n - 1 > b then from + n - 1 else b;
            NowFills(pre + [LoadNil(a, b)], pre + [LoadNil(a, top)], 0, lasttarget, nactvar, from, n)
  {
    var top := if from + n - 1 > b then from + n - 1 else b;
    var was, code := pre + [LoadNil(a, b)], pre + [LoadNil(a, top)];
    AppendedOk(pre, LoadNil(a, b));
    AppendedOk(pre, LoadNil(a, top));
    forall e: nat, R: Regs<V>, k: nat | EntersAt(was, e, lasttarget, nactvar, R)
      ensures AlsoFills(Run(code, e, R, k), Run(was, e, R, k), from, from + n - 1)
    {
      MergedRun(pre, a, b, from, n, e, R, k);
    }
  }
}
