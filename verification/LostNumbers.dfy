/** Numbers that are closed without having been used: they never come back. */
module LostNumbers {
  import opened Common
  import opened SequenceNumbers
  import opened SequenceProtocol

  /** A client read or stored something under a number since it was last issued. */
  predicate Touched(h: seq<Event>, n: int) {
    if h == [] then false
    else
      var e := h[|h| - 1];
      if (e.Get? || e.Set?) && e.n == n then true
      else if e.Issue? && e.n == n then false
      else Touched(h[..|h| - 1], n)
  }

  predicate EverIssued(h: seq<Event>, n: int) {
    exists i :: 0 <= i < |h| && h[i].Issue? && h[i].n == n
  }

  /** Issued once, held by nobody, and not on the stack. */
  predicate Lost(s: State, n: int) {
    EverIssued(s.history, n) && Owner(s.history, n).None? && n !in s.stack
  }

  /** Where the thread that holds the lock is. */
  function Doing(s: State): Pc {
    if s.lock.Some? && 0 <= s.lock.value < |s.pc| then s.pc[s.lock.value] else Idle
  }

  /** A held number has values exactly if it was used since it was issued, and one that was
      issued and is held by nobody is on the stack exactly if it was used while it was held. */
  ghost predicate UseOk(s: State, n: int) {
    var d := Doing(s);
    && (Owner(s.history, n).Some? && d != ClsPush(n) && !(d.SetAt? && d.n == n) ==>
          (n in s.values <==> Touched(s.history, n)))
    && (d == ClsPush(n) ==> Touched(s.history, n))
    && (EverIssued(s.history, n) && Owner(s.history, n).None? ==> (n in s.stack <==> Touched(s.history, n)))
  }

  // -------------------------------------------------------- steps keep it

  lemma TouchedAfter(h: seq<Event>, e: Event, n: int)
    ensures Touched(h + [e], n) == if (e.Get? || e.Set?) && e.n == n then true else if e.Issue? && e.n == n then false
                                                                                else Touched(h, n)
    ensures EverIssued(h + [e], n) <==> EverIssued(h, n) || (e.Issue? && e.n == n)
  {
    assert (h + [e])[..|h|] == h;
    if EverIssued(h, n) {
      var i :| 0 <= i < |h| && h[i].Issue? && h[i].n == n;
      assert (h + [e])[i] == h[i];
    }
    assert (h + [e])[|h|] == e;
    if EverIssued(h + [e], n) {
      var i :| 0 <= i < |h| + 1 && (h + [e])[i].Issue? && (h + [e])[i].n == n;
      assert i < |h| ==> h[i] == (h + [e])[i];
    }
  }

  lemma OwnedWasIssued(h: seq<Event>, n: int)
    requires Owner(h, n).Some?
    ensures EverIssued(h, n)
  {
    if !EverIssued(h, n) { NotIssued(h, n); }
  }

  /** What a step does to the number that it is about, and to no other. */
  ghost predicate Effect(s: State, s': State, t: int, n: int)
    requires 0 <= t < |s.pc| == |s'.pc|
  {
    var pc, pc', h, h' := s.pc[t], s'.pc[t], s.history, s'.history;
    && (pc'.SetAt? <==> pc.SetNode?) && (pc'.SetAt? ==> pc.n == pc'.n)
    && (pc'.ClsPush? <==> pc.ClsErase? && pc.n in s.values) && (pc'.ClsPush? ==> pc.n == pc'.n)
    && match pc
       case GetPop(m) => h' == h + [Issue(t, m)] && s'.values == s.values
            && (n in s'.stack <==> n in s.stack && n != m)
       case GetPush(m) => h' == h && s'.values == s.values
            && (n in s'.stack <==> n in s.stack || (s.stack == [] && n == m + 1))
       case ClsErase(m) => s'.stack == s.stack && (n in s'.values <==> n in s.values && n != m)
            && h' == if m in s.values then h else h + [Close(t, m)]
       case ClsPush(m) => h' == h + [Close(t, m)] && s'.values == s.values
            && (n in s'.stack <==> n in s.stack || n == m)
       case ReadAt(m, k1, k2) => s'.stack == s.stack && (n in s'.values <==> n in s.values || n == m)
            && exists v :: h' == h + [Get(t, m, k1, k2, v)]
       case SetNode(m, _, _, _) => h' == h && s'.stack == s.stack && (n in s'.values <==> n in s.values || n == m)
       case SetAt(m, k1, k2, v) => h' == h + [Set(t, m, k1, k2, v)] && s'.stack == s.stack
            && (n in s'.values <==> n in s.values || n == m)
       case _ => h' == h && s'.stack == s.stack && s'.values == s.values
  }

  lemma StepEffect(s: State, t: int, call: Call, n: int)
    requires Inv(s) && Enabled(s, t, call)
    ensures Effect(s, Next(s, t, call), t, n)
  {
    hide GoodHistory, ValuesOk, Above, Owner, Stored;
    match s.pc[t]
    case GetPop(m) =>
      assert s.stack[|s.stack| - 1] == m;
      PoppedMembers(s.stack, n);
    case ReadAt(m, k1, k2) =>
      ReadKeys(s.values, m, k1, k2, Stored(s.values, m, k1, k2));
      assert n in WithValue(WithNode(s.values, m), m, k1, k2, Stored(s.values, m, k1, k2)).Keys <==>
             n in s.values.Keys || n == m;
    case SetAt(m, k1, k2, v) =>
      SetAtChanges(s.values, m, k1, k2, v);
      assert n in WithValue(s.values, m, k1, k2, v).Keys <==> n in s.values.Keys || n == m;
    case SetNode(m, _, _, _) =>
      NodeStored(s.values, m, n, "", "");
    case _ =>
  }

  lemma PoppedMembers(q: seq<int>, n: int)
    requires q != [] && NoDuplicates(q)
    ensures n in q[..|q| - 1] <==> n in q && n != q[|q| - 1]
  {
    assert q == q[..|q| - 1] + [q[|q| - 1]];
  }

  /** The thread in the critical section goes on there, or another one enters. */
  lemma DoingAfter(s: State, t: int, call: Call)
    requires Inv(s) && Enabled(s, t, call)
    ensures var s' := Next(s, t, call);
            if Inside(s.pc[t]) then Doing(s) == s.pc[t] && Doing(s') == if s.pc[t].Unlocking? then Idle else s'.pc[t]
            else Doing(s') == Doing(s) || (Doing(s) == Idle && !Doing(s').ClsPush? && !Doing(s').SetAt?)
  {
    hide CallsOk, HeldOk, ValuesOk, GoodHistory, Above, Stored, WithValue, WithNode;
  }

  /** The numbers of calls are held by the callers; the top number is free and has no values. */
  lemma CallFacts(s: State, t: int, n: int)
    requires Inv(s) && 0 <= t < |s.pc|
    ensures Uses(s.pc[t], n) ==> Owner(s.history, n) == Some(t) && n !in s.stack
    ensures s.pc[t] == GetPop(n) ==> Owner(s.history, n).None? && n in s.stack
    ensures Owner(s.history, n).None? ==> n !in s.values
    ensures n in s.stack ==> Owner(s.history, n).None?
    ensures s.pc[t].SetAt? && s.pc[t].n == n ==> n in s.values
    ensures s.pc[t] == ClsPush(n) ==> n !in s.values
    ensures s.pc[t].GetPush? && s.stack == [] && n == s.pc[t].n + 1 ==> !EverIssued(s.history, n)
  {
    hide GoodHistory, Owner, LastSet, Stored, Erasing, NoDuplicates;
    if s.pc[t].GetPush? && s.stack == [] {
      assert s.lock == Some(t);
    }
  }

  lemma EnabledIsThread(s: State, t: int, call: Call)
    requires Enabled(s, t, call)
    ensures 0 <= t < |s.pc| == |Next(s, t, call).pc|
  {
  }

  lemma UseStep(s: State, t: int, call: Call, n: int)
    requires Inv(s) && Enabled(s, t, call) && UseOk(s, n)
    ensures UseOk(Next(s, t, call), n)
  {
    hide Inv, Owner, Touched, EverIssued, Doing, Next, Enabled;
    EnabledIsThread(s, t, call);
    var s' := Next(s, t, call);
    DoingAfter(s, t, call);
    CallFacts(s, t, n);
    StepEffect(s, t, call, n);
    if s'.history != s.history {
      assert s'.history[..|s.history|] == s.history;
      var e := s'.history[|s.history|];
      assert s'.history == s.history + [e];
      OwnerAfter(s.history, e, n);
      TouchedAfter(s.history, e, n);
    }
    if Owner(s.history, n).Some? { OwnedWasIssued(s.history, n); }
  }

  // ------------------------------------------------------------------- runs

  /** After every run, a number that was issued and is held by nobody is on the stack, to be
      issued again, if and only if someone used it while it was last held; otherwise it is
      lost. What is held has values if and only if it was used, outside of sections. */
  lemma {:induction false} FreeIffTouched(threads: nat, run: seq<State>, n: int)
    requires IsRun(threads, run)
    ensures var s := run[|run| - 1];
            && UseOk(s, n)
            && (EverIssued(s.history, n) && Owner(s.history, n).None? ==>
                  (n in s.stack <==> Touched(s.history, n)) && (Lost(s, n) <==> !Touched(s.history, n)))
            && (s.lock.None? && Owner(s.history, n).Some? ==> (n in s.values <==> Touched(s.history, n)))
    decreases |run|
  {
    hide Inv, Owner, Touched, EverIssued, Enabled, Next;
    if |run| == 1 {
      assert Init(threads).history == [];
      NothingUsed(n);
    } else {
      var before := run[..|run| - 1];
      assert before[0] == run[0];
      FreeIffTouched(threads, before, n);
      RunInv(threads, before);
      var i, j := |run| - 2, |run| - 1;
      assert StepTo(run[i], run[j]);
      var t, call :| Enabled(run[i], t, call) && run[j] == Next(run[i], t, call);
      UseStep(run[i], t, call, n);
    }
  }

  lemma NothingUsed(n: int)
    ensures !EverIssued([], n) && Owner([], n).None? && !Touched([], n)
  {
  }

  /** `cls_seqno` puts the number back if and only if it was used since it was issued, and
      otherwise loses it. */
  lemma CloseFreesIff(threads: nat, run: seq<State>, t: int, call: Call)
    requires IsRun(threads, run)
    requires var s := run[|run| - 1]; 0 <= t < |s.pc| && s.pc[t].ClsErase?
    ensures var s, n := run[|run| - 1], run[|run| - 1].pc[t].n;
            Sectioned(s, t, call) && var s' := AfterSection(s, t, call);
            (n in s'.stack <==> Touched(s.history, n)) && (Lost(s', n) <==> !Touched(s.history, n))
  {
    var s, n := run[|run| - 1], run[|run| - 1].pc[t].n;
    RunInv(threads, run);
    FreeIffTouched(threads, run, n);
    SectionReady(s, t);
    CallFacts(s, t, n);
    DoingAfter(s, t, call);
    OwnedWasIssued(s.history, n);
    CloseSection(s, t, call);
    OwnerAfter(s.history, Close(t, n), n);
    TouchedAfter(s.history, Close(t, n), n);
    hide Inv, Owner, Touched, EverIssued;
    assert AfterSection(s, t, call).history == s.history + [Close(t, n)];
  }

  /** No step brings a lost number back, and no client sees it again. */
  lemma LostStays(s: State, t: int, call: Call, n: int)
    requires Inv(s) && Enabled(s, t, call) && Lost(s, n)
    ensures var s' := Next(s, t, call);
            Lost(s', n) && (s'.history == s.history || (exists e: Event :: s'.history == s.history + [e] && e.n != n))
  {
    var s' := Next(s, t, call);
    CallFacts(s, t, n);
    StepEffect(s, t, call, n);
    if s'.history != s.history {
      assert s'.history[..|s.history|] == s.history;
      var e := s'.history[|s.history|];
      assert s'.history == s.history + [e];
      OwnerAfter(s.history, e, n);
      TouchedAfter(s.history, e, n);
    }
    hide Inv, Owner, EverIssued;
  }

  /** From the close that lost it on, a number is never on the stack, never held, and in no
      event: it is never issued again. */
  lemma {:induction false} LostForever(threads: nat, run: seq<State>, k: nat, n: int)
    requires IsRun(threads, run) && k < |run| && Lost(run[k], n)
    ensures var s := run[|run| - 1];
            && Lost(s, n) && |run[k].history| <= |s.history| && (forall t :: 0 <= t < |s.held| ==> n !in s.held[t])
            && forall i :: |run[k].history| <= i < |s.history| ==> s.history[i].n != n
    decreases |run|
  {
    hide Inv, Owner, EverIssued, Enabled, Next, Lost;
    RunInv(threads, run);
    if k < |run| - 1 {
      var before := run[..|run| - 1];
      assert before[0] == run[0] && before[k] == run[k];
      LostForever(threads, before, k, n);
      RunInv(threads, before);
      var i, j := |run| - 2, |run| - 1;
      assert StepTo(run[i], run[j]);
      var t, call :| Enabled(run[i], t, call) && run[j] == Next(run[i], t, call);
      LostStays(run[i], t, call, n);
    }
    LostIsHeldByNobody(run[|run| - 1], n);
  }

  lemma LostIsHeldByNobody(s: State, n: int)
    requires Inv(s) && Lost(s, n)
    ensures forall t :: 0 <= t < |s.held| ==> n !in s.held[t]
  {
    hide Owner, GoodHistory, ValuesOk, Above, CallsOk, Exclusive;
  }

  // -------------------------------------------------------------- no gaps

  /** Every number below the first unused one was issued. */
  ghost predicate Dense(s: State) {
    forall unused, m :: Above(s, unused) && 1 <= m < unused ==> EverIssued(s.history, m)
  }

  lemma DenseStep(s: State, t: int, call: Call)
    requires Inv(s) && Enabled(s, t, call) && Dense(s)
    ensures Dense(Next(s, t, call))
  {
    var s' := Next(s, t, call);
    var unused :| Above(s, unused);
    forall u, m | Above(s', u) && 1 <= m < u ensures EverIssued(s'.history, m) {
      SameUnused(s, t, call, unused, u);
      if s'.history != s.history {
        StepEffect(s, t, call, m);
        var e := s'.history[|s.history|];
        assert s'.history == s.history + [e];
        TouchedAfter(s.history, e, m);
      }
      if m < unused { assert EverIssued(s.history, m); }
    }
  }

  /** The first unused number changes only when it is issued itself. */
  lemma SameUnused(s: State, t: int, call: Call, unused: int, u: int)
    requires Inv(s) && Enabled(s, t, call) && Above(s, unused) && Above(Next(s, t, call), u)
    ensures u == unused || (u == unused + 1 && s.pc[t] == GetPop(unused))
  {
    hide HeldOk, ValuesOk, GoodHistory, Stored, WithValue, WithNode, Owner;
  }

  /** After every run: if a number was issued, so were all below it. */
  lemma {:induction false} NoGaps(threads: nat, run: seq<State>, n: int, m: int)
    requires IsRun(threads, run) && 1 <= m <= n && EverIssued(run[|run| - 1].history, n)
    ensures EverIssued(run[|run| - 1].history, m)
  {
    hide EverIssued;
    RunDense(threads, run);
    RunInv(threads, run);
    var s := run[|run| - 1];
    var unused :| Above(s, unused);
    BelowUnused(s, unused, n);
  }

  lemma BelowUnused(s: State, unused: int, n: int)
    requires Above(s, unused) && EverIssued(s.history, n)
    ensures n < unused
  {
  }

  lemma {:induction false} RunDense(threads: nat, run: seq<State>)
    requires IsRun(threads, run)
    ensures Dense(run[|run| - 1])
    decreases |run|
  {
    hide Inv, Enabled, Next, EverIssued;
    if |run| > 1 {
      var before := run[..|run| - 1];
      assert before[0] == run[0];
      RunDense(threads, before);
      RunInv(threads, before);
      var i, j := |run| - 2, |run| - 1;
      assert StepTo(run[i], run[j]);
      var t, call :| Enabled(run[i], t, call) && run[j] == Next(run[i], t, call);
      DenseStep(run[i], t, call);
    }
  }

  // ---------------------------------------------------------------- the input

  /** `get_seqno` and `cls_seqno` with nothing between: 1 is lost and 2 is next. */
  function WastedRun(): seq<State> {
    var got, closed := [Issue(0, 1)], [Issue(0, 1), Close(0, 1)];
    [ State([1], map[], None, [Idle], [{}], []),
      State([1], map[], None, [GetWants], [{}], []),
      State([1], map[], Some(0), [GetTop], [{}], []),
      State([1], map[], Some(0), [GetPop(1)], [{}], []),
      State([], map[], Some(0), [GetPush(1)], [{1}], got),
      State([2], map[], Some(0), [Unlocking], [{1}], got),
      State([2], map[], None, [Idle], [{1}], got),
      State([2], map[], None, [ClsWants(1)], [{1}], got),
      State([2], map[], Some(0), [ClsErase(1)], [{1}], got),
      State([2], map[], Some(0), [Unlocking], [{}], closed),
      State([2], map[], None, [Idle], [{}], closed) ]
  }

  lemma WastedStep(i: int)
    requires 0 <= i < 10
    ensures StepTo(WastedRun()[i], WastedRun()[i + 1])
  {
    var s, s', call := WastedRun()[i], WastedRun()[i + 1], if i == 6 then CallCls(1) else CallGet;
    assert Enabled(s, 0, call);
    var r := Next(s, 0, call);
    var none: set<int> := {};
    assert none + {1} == {1} && {1} - {1} == none;
    assert r == s';
  }

  lemma WastedNumber()
    ensures var run := WastedRun(); IsRun(1, run) && Lost(run[|run| - 1], 1)
  {
    var run := WastedRun();
    assert run[0] == Init(1);
    forall i, j | 0 <= i && j == i + 1 && j < |run| ensures StepTo(run[i], run[j]) {
      WastedStep(i);
    }
    var h := run[10].history;
    assert h[..1] == [Issue(0, 1)] && h[0].Issue?;
    assert Owner(h, 1).None?;
  }
}
