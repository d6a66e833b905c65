/** Worker threads and the sequence numbers: every interleaving of their steps, with the
    lock taken and released as in the host. */
module SequenceProtocol {
  import opened Common
  import opened SequenceNumbers

  /** Where a thread is in a call; at most one is between taking and releasing the lock. */
  datatype Pc =
    | Idle
    | GetWants | GetTop | GetPop(n: int) | GetPush(n: int)
    | ClsWants(n: int) | ClsErase(n: int) | ClsPush(n: int)
    | ReadWants(n: int, k1: string, k2: string) | ReadAt(n: int, k1: string, k2: string)
    | SetWants(n: int, k1: string, k2: string, v: string) | SetNode(n: int, k1: string, k2: string, v: string)
    | SetAt(n: int, k1: string, k2: string, v: string)
    | Unlocking

  predicate Inside(pc: Pc) {
    pc.GetTop? || pc.GetPop? || pc.GetPush? || pc.ClsErase? || pc.ClsPush? || pc.ReadAt? || pc.SetNode? || pc.SetAt?
    || pc.Unlocking?
  }

  /** Calls that use a number the thread holds. */
  predicate Uses(pc: Pc, n: int) {
    || (pc.ClsWants? && pc.n == n) || (pc.ClsErase? && pc.n == n) || (pc.ClsPush? && pc.n == n)
    || (pc.ReadWants? && pc.n == n) || (pc.ReadAt? && pc.n == n)
    || (pc.SetWants? && pc.n == n) || (pc.SetNode? && pc.n == n) || (pc.SetAt? && pc.n == n)
    || (pc.GetPush? && pc.n == n)
  }

  /** What clients observe. */
  datatype Event =
    | Issue(t: int, n: int)
    | Close(t: int, n: int)
    | Get(t: int, n: int, k1: string, k2: string, v: string)
    | Set(t: int, n: int, k1: string, k2: string, v: string)

  datatype State = State(stack: seq<int>, values: Store, lock: Option<int>, pc: seq<Pc>, held: seq<set<int>>,
                         history: seq<Event>)

  datatype Call = CallGet | CallCls(n: int) | CallRead(n: int, k1: string,
                                                       k2: string) | CallSet(n: int, k1: string, k2: string, v: string)

  /** A client only uses numbers that it holds. */
  predicate May(held: set<int>, call: Call) {
    call.CallGet? || call.n in held
  }

  /** Thread `t` can make a step; an idle one makes the call. */
  predicate Enabled(s: State, t: int, call: Call) {
    && 0 <= t < |s.pc| == |s.held|
    && match s.pc[t]
       case Idle => May(s.held[t], call)
       case GetWants => s.lock.None?
       case ClsWants(_) => s.lock.None?
       case ReadWants(_, _, _) => s.lock.None?
       case SetWants(_, _, _, _) => s.lock.None?
       case GetTop => s.stack != []
       case GetPop(_) => s.stack != []
       case SetAt(n, _, _, _) => n in s.values
       case _ => true
  }

  function Wants(call: Call): Pc {
    match call
    case CallGet => GetWants
    case CallCls(n) => ClsWants(n)
    case CallRead(n, k1, k2) => ReadWants(n, k1, k2)
    case CallSet(n, k1, k2, v) => SetWants(n, k1, k2, v)
  }

  function At(s: State, t: int, pc: Pc): State
    requires 0 <= t < |s.pc|
  {
    s.(pc := s.pc[t := pc])
  }

  function Next(s: State, t: int, call: Call): State
    requires Enabled(s, t, call)
  {
    match s.pc[t]
    case Idle => At(s, t, Wants(call))
    case GetWants => At(s, t, GetTop).(lock := Some(t))
    case ClsWants(n) => At(s, t, ClsErase(n)).(lock := Some(t))
    case ReadWants(n, k1, k2) => At(s, t, ReadAt(n, k1, k2)).(lock := Some(t))
    case SetWants(n, k1, k2, v) => At(s, t, SetNode(n, k1, k2, v)).(lock := Some(t))
    case GetTop => At(s, t, GetPop(s.stack[|s.stack| - 1]))
    case GetPop(n) =>
      At(s, t, GetPush(n)).(stack := s.stack[..|s.stack| - 1], held := s.held[t := s.held[t] + {n}],
                            history := s.history + [Issue(t, n)])
    case GetPush(n) => At(s, t, Unlocking).(stack := if s.stack == [] then [n + 1] else s.stack)
    case ClsErase(n) =>
      if n in s.values then At(s, t, ClsPush(n)).(values := s.values - {n})
      else At(s, t, Unlocking).(held := s.held[t := s.held[t] - {n}], history := s.history + [Close(t, n)])
    case ClsPush(n) =>
      At(s, t, Unlocking).(stack := s.stack + [n], held := s.held[t := s.held[t] - {n}],
                           history := s.history + [Close(t, n)])
    case ReadAt(n, k1, k2) =>
      var v := Stored(s.values, n, k1, k2);
      At(s, t, Unlocking).(values := WithValue(WithNode(s.values, n), n, k1, k2, v),
                           history := s.history + [Get(t, n, k1, k2, v)])
    case SetNode(n, k1, k2, v) => At(s, t, SetAt(n, k1, k2, v)).(values := WithNode(s.values, n))
    case SetAt(n, k1, k2, v) =>
      At(s, t, Unlocking).(values := WithValue(s.values, n, k1, k2, v), history := s.history + [Set(t, n, k1, k2, v)])
    case Unlocking => At(s, t, Idle).(lock := None)
  }

  // --------------------------------------------------------- what histories say

  /** Who holds a number. */
  function Owner(h: seq<Event>, n: int): Option<int> {
    if h == [] then None
    else
      var e := h[|h| - 1];
      if e.Issue? && e.n == n then Some(e.t)
      else if e.Close? && e.n == n then None
      else Owner(h[..|h| - 1], n)
  }

  /** What was last stored under a number since it was issued. */
  function LastSet(h: seq<Event>, n: int, k1: string, k2: string): string {
    if h == [] then ""
    else
      var e := h[|h| - 1];
      if e.Set? && e.n == n && e.k1 == k1 && e.k2 == k2 then e.v
      else if e.Issue? && e.n == n then ""
      else LastSet(h[..|h| - 1], n, k1, k2)
  }

  /** A number is issued to nobody while someone holds it, and a holder reads what was last
      stored since the number was issued. */
  predicate Proper(h: seq<Event>, e: Event) {
    match e
    case Issue(_, n) => Owner(h, n).None?
    case Close(t, n) => Owner(h, n) == Some(t)
    case Get(t, n, k1, k2, v) => Owner(h, n) == Some(t) && v == LastSet(h, n, k1, k2)
    case Set(t, n, _, _, _) => Owner(h, n) == Some(t)
  }

  ghost predicate GoodHistory(h: seq<Event>) {
    forall i :: 0 <= i < |h| ==> Proper(h[..i], h[i])
  }

  // ------------------------------------------------------------- the invariant

  /** The lock is held by the thread that is inside, if any. */
  ghost predicate Exclusive(s: State) {
    |s.pc| == |s.held| && forall t :: 0 <= t < |s.pc| ==> (Inside(s.pc[t]) <==> s.lock == Some(t))
  }

  /** Calls are about numbers held by the caller, and see the stack as they left it. */
  ghost predicate CallsOk(s: State)
    requires |s.pc| == |s.held|
  {
    forall t :: 0 <= t < |s.pc| ==>
      && (forall n :: Uses(s.pc[t], n) ==> n in s.held[t])
      && (s.pc[t].GetTop? ==> s.stack != [])
      && (s.pc[t].GetPop? ==> s.stack != [] && s.stack[|s.stack| - 1] == s.pc[t].n)
      && (s.pc[t].ClsPush? ==> s.pc[t].n !in s.values && s.stack != [])
      && (s.pc[t].SetAt? ==> s.pc[t].n in s.values)
      && (s.stack == [] ==> s.pc[t].GetPush? || !Inside(s.pc[t]))
  }

  /** Above every number that was ever issued: the bottom of the stack, or what the thread
      that emptied it is going to put there. */
  ghost predicate Above(s: State, unused: int) {
    && (s.stack != [] ==> unused == s.stack[0])
    && (s.stack == [] ==> s.lock.Some? && 0 <= s.lock.value < |s.pc| && s.pc[s.lock.value].GetPush?
                          && unused == s.pc[s.lock.value].n + 1)
    && unused >= 1
    && (forall i :: 0 < i < |s.stack| ==> 0 < s.stack[i] < unused)
    && (forall i :: 0 <= i < |s.history| && s.history[i].Issue? ==> 0 < s.history[i].n < unused)
  }

  /** Numbers are held by their owners, and those on the stack by nobody. */
  ghost predicate HeldOk(s: State) {
    && (forall t, n :: 0 <= t < |s.held| ==> (n in s.held[t] <==> Owner(s.history, n) == Some(t)))
    && (forall i :: 0 <= i < |s.stack| ==> Owner(s.history, s.stack[i]).None?)
    && NoDuplicates(s.stack)
    && (forall n :: Owner(s.history, n).Some? ==> 0 <= Owner(s.history, n).value < |s.held|)
  }

  /** Only held numbers have values, which are those last stored. */
  ghost predicate ValuesOk(s: State)
    requires |s.pc| == |s.held|
  {
    && (forall n :: n in s.values ==> Owner(s.history, n).Some?)
    && (forall n, k1, k2 :: Owner(s.history, n).Some? && !Erasing(s, n) ==>
                              Stored(s.values, n, k1, k2) == LastSet(s.history, n, k1, k2))
  }

  ghost predicate Erasing(s: State, n: int) {
    exists t :: 0 <= t < |s.pc| && s.pc[t] == ClsPush(n)
  }

  ghost predicate Inv(s: State) {
    && Exclusive(s) && CallsOk(s) && HeldOk(s) && ValuesOk(s) && GoodHistory(s.history)
    && exists unused :: Above(s, unused)
  }

  /** `init` puts 1 on the stack before the threads start. */
  function Init(threads: nat): State {
    State([1], map[], None, seq(threads, i => Idle), seq(threads, i => {}), [])
  }

  lemma InitInv(threads: nat)
    ensures Inv(Init(threads))
  {
    assert Above(Init(threads), 1);
  }

  // -------------------------------------------------------- steps keep it

  lemma OwnerAfter(h: seq<Event>, e: Event, n: int)
    ensures Owner(h + [e], n) == if e.Issue? && e.n == n then Some(e.t) else if e.Close? && e.n == n then None
                                                                             else Owner(h, n)
  {
    assert (h + [e])[..|h|] == h;
  }

  lemma LastSetAfter(h: seq<Event>, e: Event, n: int, k1: string, k2: string)
    ensures LastSet(h + [e], n, k1, k2) ==
            if e.Set? && e.n == n && e.k1 == k1 && e.k2 == k2 then e.v else if e.Issue? && e.n == n then ""
                                                                            else LastSet(h, n, k1, k2)
  {
    assert (h + [e])[..|h|] == h;
  }

  lemma GoodAfter(h: seq<Event>, e: Event)
    requires GoodHistory(h) && Proper(h, e)
    ensures GoodHistory(h + [e])
  {
    forall i | 0 <= i < |h| + 1 ensures Proper((h + [e])[..i], (h + [e])[i]) {
      assert i < |h| ==> (h + [e])[..i] == h[..i];
      assert i == |h| ==> (h + [e])[..i] == h;
    }
  }

  lemma StepInv(s: State, t: int, call: Call)
    requires Inv(s) && Enabled(s, t, call)
    ensures Inv(Next(s, t, call))
  {
    hide Inv;
    match s.pc[t]
    case Idle => StartInv(s, t, call);
    case GetWants => LockInv(s, t, call);
    case ClsWants(_) => LockInv(s, t, call);
    case ReadWants(_, _, _) => LockInv(s, t, call);
    case SetWants(_, _, _, _) => LockInv(s, t, call);
    case GetTop => TopInv(s, t, call);
    case GetPop(n) => PopInv(s, t, call);
    case GetPush(n) => PushInv(s, t, call);
    case ClsErase(n) => if n in s.values { EraseInv(s, t, call); } else { LoseInv(s, t, call); }
    case ClsPush(n) => GiveBackInv(s, t, call);
    case ReadAt(n, k1, k2) => ReadInv(s, t, call);
    case SetNode(n, k1, k2, v) => NodeInv(s, t, call);
    case SetAt(n, k1, k2, v) => SetInv(s, t, call);
    case Unlocking => UnlockInv(s, t, call);
  }

  lemma StartInv(s: State, t: int, call: Call)
    requires Inv(s) && Enabled(s, t, call) && s.pc[t].Idle?
    ensures Inv(Next(s, t, call))
  {
    hide LastSet, Owner, Erasing, GoodHistory, Proper, HeldOk, ValuesOk, Stored, NoDuplicates;
    var s' := Next(s, t, call);
    var unused :| Above(s, unused);
    assert Above(s', unused);
    SameErasing(s, t, s');
    SameHeld(s, s');
    SameValues(s, s');
  }

  lemma SameHeld(s: State, s': State)
    requires HeldOk(s) && s'.held == s.held && s'.history == s.history && s'.stack == s.stack
    ensures HeldOk(s')
  {
  }

  lemma SameValues(s: State, s': State)
    requires |s.pc| == |s.held| && |s'.pc| == |s'.held| && ValuesOk(s)
    requires s'.history == s.history && s'.values == s.values && forall n :: Erasing(s, n) <==> Erasing(s', n)
    ensures ValuesOk(s')
  {
    hide Erasing, Owner, LastSet, Stored;
  }

  lemma SameErasing(s: State, t: int, s': State)
    requires 0 <= t < |s.pc| == |s'.pc| && s'.pc == s.pc[t := s'.pc[t]] && !s.pc[t].ClsPush? && !s'.pc[t].ClsPush?
    ensures forall n :: Erasing(s, n) <==> Erasing(s', n)
  {
    forall n ensures Erasing(s, n) <==> Erasing(s', n) {
      if Erasing(s, n) {
        var u :| 0 <= u < |s.pc| && s.pc[u] == ClsPush(n);
        assert s'.pc[u] == ClsPush(n);
      }
      if Erasing(s', n) {
        var u :| 0 <= u < |s'.pc| && s'.pc[u] == ClsPush(n);
        assert s.pc[u] == ClsPush(n);
      }
    }
  }

  lemma LockInv(s: State, t: int, call: Call)
    requires Inv(s) && Enabled(s, t, call) && (s.pc[t].GetWants? || s.pc[t].ClsWants? || s.pc[t].ReadWants?
                                               || s.pc[t].SetWants?)
    ensures Inv(Next(s, t, call))
  {
    hide LastSet, Owner, Erasing, GoodHistory, Proper, HeldOk, ValuesOk, Stored, NoDuplicates;
    var s' := Next(s, t, call);
    var unused :| Above(s, unused);
    assert Above(s', unused);
    SameErasing(s, t, s');
    SameHeld(s, s');
    SameValues(s, s');
  }

  lemma TopInv(s: State, t: int, call: Call)
    requires Inv(s) && Enabled(s, t, call) && s.pc[t].GetTop?
    ensures Inv(Next(s, t, call))
  {
    hide LastSet, Owner, Erasing, GoodHistory, Proper, HeldOk, ValuesOk, Stored, NoDuplicates;
    var s' := Next(s, t, call);
    var unused :| Above(s, unused);
    assert Above(s', unused);
    SameErasing(s, t, s');
    SameHeld(s, s');
    SameValues(s, s');
  }

  /** The top number is owned by its new holder, and has no values yet. */
  lemma PopInv(s: State, t: int, call: Call)
    requires Inv(s) && Enabled(s, t, call) && s.pc[t].GetPop?
    ensures Inv(Next(s, t, call))
  {
    hide LastSet, Owner, Erasing, GoodHistory, Proper, HeldOk, ValuesOk;
    var s', n := Next(s, t, call), s.pc[t].n;
    var unused :| Above(s, unused);
    assert n == s.stack[|s.stack| - 1];
    FreeOnStack(s, |s.stack| - 1);
    assert Above(s', if |s.stack| == 1 then n + 1 else unused);
    GoodAfter(s.history, Issue(t, n)) by { IssueIsProper(s.history, t, n); }
    SameErasing(s, t, s');
    PopHeld(s, t, s', n);
    PopValues(s, t, s', n);
    PopCalls(s, t, s', n);
  }

  lemma FreeOnStack(s: State, i: int)
    requires HeldOk(s) && 0 <= i < |s.stack|
    ensures Owner(s.history, s.stack[i]).None?
  {
  }

  lemma IssueIsProper(h: seq<Event>, t: int, n: int)
    requires Owner(h, n).None?
    ensures Proper(h, Issue(t, n))
  {
  }

  lemma PopHeld(s: State, t: int, s': State, n: int)
    requires HeldOk(s) && 0 <= t < |s.held| && s.stack != [] && n == s.stack[|s.stack| - 1]
    requires s'.held == s.held[t := s.held[t] + {n}] && s'.history == s.history + [Issue(t, n)]
             && s'.stack == s.stack[..|s.stack| - 1]
    ensures HeldOk(s')
  {
    forall m ensures Owner(s'.history, m) == if m == n then Some(t)
    else Owner(s.history, m) { OwnerAfter(s.history, Issue(t, n), m); }
  }

  lemma PopCalls(s: State, t: int, s': State, n: int)
    requires |s.pc| == |s.held| && Exclusive(s) && CallsOk(s) && 0 <= t < |s.pc| && s.pc[t].GetPop? && s.pc[t].n == n
             && s.lock == Some(t)
    requires s'.pc == s.pc[t := GetPush(n)] && s'.held == s.held[t := s.held[t] + {n}] && s'.values == s.values
    ensures CallsOk(s')
  {
  }

  lemma PopValues(s: State, t: int, s': State, n: int)
    requires |s.pc| == |s.held| && |s'.pc| == |s'.held| && ValuesOk(s) && s'.values == s.values
             && s'.history == s.history + [Issue(t, n)] && Owner(s.history, n).None?
    requires forall m :: Erasing(s, m) <==> Erasing(s', m)
    ensures ValuesOk(s')
  {
    hide Erasing;
    forall m ensures Owner(s'.history, m) == if m == n then Some(t)
    else Owner(s.history, m) { OwnerAfter(s.history, Issue(t, n), m); }
    forall m, k1, k2 | Owner(s'.history, m).Some?
    && !Erasing(s', m) ensures Stored(s'.values, m, k1, k2) == LastSet(s'.history, m, k1, k2) {
      LastSetAfter(s.history, Issue(t, n), m, k1, k2);
    }
  }

  lemma PushInv(s: State, t: int, call: Call)
    requires Inv(s) && Enabled(s, t, call) && s.pc[t].GetPush?
    ensures Inv(Next(s, t, call))
  {
    var s' := Next(s, t, call);
    var unused :| Above(s, unused);
    assert Above(s', unused);
    SameErasing(s, t, s');
    NeverOwned(s, unused);
  }

  /** Nobody holds a number above those ever issued. */
  lemma NeverOwned(s: State, unused: int)
    requires Above(s, unused)
    ensures forall n :: n >= unused || n <= 0 ==> Owner(s.history, n).None?
  {
    forall n | n >= unused || n <= 0 ensures Owner(s.history, n).None? { NotIssued(s.history, n); }
  }

  lemma {:induction false} NotIssued(h: seq<Event>, n: int)
    requires forall i :: 0 <= i < |h| && h[i].Issue? ==> h[i].n != n
    ensures Owner(h, n).None?
  {
    if h != [] {
      NotIssued(h[..|h| - 1], n);
    }
  }

  lemma EraseInv(s: State, t: int, call: Call)
    requires Inv(s) && Enabled(s, t, call) && s.pc[t].ClsErase? && s.pc[t].n in s.values
    ensures Inv(Next(s, t, call))
  {
    hide LastSet, Owner, Erasing, GoodHistory, Proper, HeldOk, ValuesOk, Stored, NoDuplicates;
    var s', n := Next(s, t, call), s.pc[t].n;
    var unused :| Above(s, unused);
    assert Above(s', unused);
    EraseValues(s, t, s', n);
    SameHeld(s, s');
  }

  /** A number whose values are gone is one being erased. */
  lemma EraseValues(s: State, t: int, s': State, n: int)
    requires |s.pc| == |s.held| && ValuesOk(s) && 0 <= t < |s.pc| && !s.pc[t].ClsPush?
    requires s'.pc == s.pc[t := ClsPush(n)] && s'.held == s.held && s'.history == s.history
             && s'.values == s.values - {n}
    ensures ValuesOk(s')
  {
    hide LastSet, Owner;
    assert s'.pc[t] == ClsPush(n);
    forall m | m != n && !Erasing(s', m) ensures !Erasing(s, m) {
      assert forall u :: 0 <= u < |s.pc| && s.pc[u] == ClsPush(m) ==> s'.pc[u] == ClsPush(m);
    }
    assert Erasing(s', n);
  }

  lemma LoseInv(s: State, t: int, call: Call)
    requires Inv(s) && Enabled(s, t, call) && s.pc[t].ClsErase? && s.pc[t].n !in s.values
    ensures Inv(Next(s, t, call))
  {
    var s', n := Next(s, t, call), s.pc[t].n;
    var unused :| Above(s, unused);
    ClosedInv(s, t, s', n);
    assert Above(s', unused);
    SameErasing(s, t, s');
    CloseValues(s, t, s', n);
  }

  /** The history and the holders after a close. */
  lemma ClosedInv(s: State, t: int, s': State, n: int)
    requires Inv(s) && 0 <= t < |s.held| && n in s.held[t] && s'.history == s.history + [Close(t, n)]
             && s'.held == s.held[t := s.held[t] - {n}]
    requires NoDuplicates(s'.stack) && forall i :: 0 <= i < |s'.stack| ==> s'.stack[i] == n || s'.stack[i] in s.stack
    ensures HeldOk(s') && GoodHistory(s'.history)
  {
    forall m ensures Owner(s'.history, m) == if m == n then None
    else Owner(s.history, m) { OwnerAfter(s.history, Close(t, n), m); }
    GoodAfter(s.history, Close(t, n));
    forall i | 0 <= i < |s'.stack| ensures Owner(s'.history, s'.stack[i]).None? {
      if s'.stack[i] != n { var j :| 0 <= j < |s.stack| && s.stack[j] == s'.stack[i]; }
    }
  }

  lemma CloseValues(s: State, t: int, s': State, n: int)
    requires |s.pc| == |s.held| && |s'.pc| == |s'.held| && ValuesOk(s) && s'.values == s.values && n !in s.values
    requires s'.history == s.history + [Close(t, n)]
    requires forall m :: m != n && Erasing(s, m) ==> Erasing(s', m)
    ensures ValuesOk(s')
  {
    hide Erasing;
    forall m ensures Owner(s'.history, m) == if m == n then None
    else Owner(s.history, m) { OwnerAfter(s.history, Close(t, n), m); }
    forall m, k1, k2 | Owner(s'.history, m).Some?
    && !Erasing(s', m) ensures Stored(s'.values, m, k1, k2) == LastSet(s'.history, m, k1, k2) {
      LastSetAfter(s.history, Close(t, n), m, k1, k2);
    }
  }

  lemma GiveBackInv(s: State, t: int, call: Call)
    requires Inv(s) && Enabled(s, t, call) && s.pc[t].ClsPush?
    ensures Inv(Next(s, t, call))
  {
    hide LastSet, Owner, Erasing, GoodHistory, Proper, HeldOk, ValuesOk, Stored, NoDuplicates;
    var s', n := Next(s, t, call), s.pc[t].n;
    var unused :| Above(s, unused);
    NeverOwned(s, unused);
    assert Uses(s.pc[t], n);
    HolderOwns(s, t, n);
    BackOnStack(s, n);
    ClosedInv(s, t, s', n);
    assert 0 < n < unused;
    assert Above(s', unused);
    OneErases(s, t);
    CloseValues(s, t, s', n);
  }

  lemma BackOnStack(s: State, n: int)
    requires HeldOk(s) && Owner(s.history, n).Some?
    ensures NoDuplicates(s.stack + [n])
  {
    hide Owner;
  }

  lemma OneErases(s: State, t: int)
    requires Exclusive(s) && 0 <= t < |s.pc| && s.pc[t].ClsPush?
    ensures forall m :: Erasing(s, m) ==> s.pc[t] == ClsPush(m)
  {
    assert Inside(s.pc[t]);
    forall m | Erasing(s, m) ensures s.pc[t] == ClsPush(m) {
      var u :| 0 <= u < |s.pc| && s.pc[u] == ClsPush(m);
      assert Inside(s.pc[u]);
    }
  }

  lemma ReadInv(s: State, t: int, call: Call)
    requires Inv(s) && Enabled(s, t, call) && s.pc[t].ReadAt?
    ensures Inv(Next(s, t, call))
  {
    hide Stored, WithValue, WithNode, LastSet, Owner, Erasing, GoodHistory, Proper, HeldOk, ValuesOk;
    var s', pc := Next(s, t, call), s.pc[t];
    var unused :| Above(s, unused);
    var e := Get(t, pc.n, pc.k1, pc.k2, Stored(s.values, pc.n, pc.k1, pc.k2));
    assert Uses(pc, pc.n);
    HolderOwns(s, t, pc.n);
    NotErasing(s, t, pc.n);
    GoodAfter(s.history, e) by { GetIsProper(s, e); }
    assert Above(s', unused);
    SameErasing(s, t, s');
    ReadKeeps(s.values, pc.n, pc.k1, pc.k2);
    ReadKeys(s.values, pc.n, pc.k1, pc.k2, e.v);
    SameOwners(s, t, s', e);
    AccessValues(s, s', e);
  }

  lemma GetIsProper(s: State, e: Event)
    requires |s.pc| == |s.held| && ValuesOk(s) && e.Get? && Owner(s.history, e.n) == Some(e.t) && !Erasing(s, e.n)
    requires e.v == Stored(s.values, e.n, e.k1, e.k2)
    ensures Proper(s.history, e)
  {
    hide Erasing;
  }

  lemma ReadKeys(values: Store, n: int, k1: string, k2: string, v: string)
    ensures WithValue(WithNode(values, n), n, k1, k2, v).Keys == values.Keys + {n}
  {
    ValueStored(WithNode(values, n), n, k1, k2, v, 0, "", "");
  }

  /** Reads and writes do not change who holds what. */
  lemma SameOwners(s: State, t: int, s': State, e: Event)
    requires HeldOk(s) && s'.history == s.history + [e] && (e.Get? || e.Set?) && s'.held == s.held
             && s'.stack == s.stack
    ensures HeldOk(s') && forall m :: Owner(s'.history, m) == Owner(s.history, m)
  {
    forall m ensures Owner(s'.history, m) == Owner(s.history, m) { OwnerAfter(s.history, e, m); }
  }

  /** The values after a read or write are those last stored. */
  lemma AccessValues(s: State, s': State, e: Event)
    requires |s.pc| == |s.held| && |s'.pc| == |s'.held| && ValuesOk(s) && s'.history == s.history + [e]
             && (e.Get? || e.Set?)
    requires s'.values.Keys == s.values.Keys + {e.n} && Owner(s.history, e.n).Some?
    requires forall m :: Owner(s'.history, m) == Owner(s.history, m)
    requires forall m :: Erasing(s, m) <==> Erasing(s', m)
    requires forall m, k1, k2 :: Stored(s'.values, m, k1, k2) ==
                                 if e.Set? && m == e.n && k1 == e.k1 && k2 == e.k2 then e.v
                                    else Stored(s.values, m, k1, k2)
    ensures ValuesOk(s')
  {
    hide Erasing, Owner, Stored;
    forall m | m in s'.values ensures Owner(s'.history, m).Some? { assert m in s'.values.Keys; }
    forall m, k1, k2 | Owner(s'.history, m).Some?
    && !Erasing(s', m) ensures Stored(s'.values, m, k1, k2) == LastSet(s'.history, m, k1, k2) {
      LastSetAfter(s.history, e, m, k1, k2);
    }
  }

  /** The number of a call is not being erased by another thread. */
  lemma NotErasing(s: State, t: int, n: int)
    requires Inv(s) && 0 <= t < |s.pc| && Inside(s.pc[t]) && s.pc[t] != ClsPush(n)
    ensures !Erasing(s, n)
  {
    assert forall u :: 0 <= u < |s.pc| && s.pc[u] == ClsPush(n) ==> u == t;
  }

  lemma NodeInv(s: State, t: int, call: Call)
    requires Inv(s) && Enabled(s, t, call) && s.pc[t].SetNode?
    ensures Inv(Next(s, t, call))
  {
    var s', n := Next(s, t, call), s.pc[t].n;
    var unused :| Above(s, unused);
    assert Above(s', unused);
    assert Uses(s.pc[t], n);
    SameErasing(s, t, s');
    NodeStored(s.values, n, 0, "", "");
    hide Stored, WithNode;
    forall m, k1, k2 | Owner(s'.history, m).Some?
    && !Erasing(s', m) ensures Stored(s'.values, m, k1, k2) == LastSet(s'.history, m, k1, k2) {
      NodeStored(s.values, n, m, k1, k2);
    }
  }

  lemma SetInv(s: State, t: int, call: Call)
    requires Inv(s) && Enabled(s, t, call) && s.pc[t].SetAt?
    ensures Inv(Next(s, t, call))
  {
    hide Stored, WithValue, WithNode, LastSet, Owner, Erasing, GoodHistory, Proper, HeldOk, ValuesOk;
    var s', pc := Next(s, t, call), s.pc[t];
    var unused :| Above(s, unused);
    var e := Set(t, pc.n, pc.k1, pc.k2, pc.v);
    assert Uses(pc, pc.n);
    HolderOwns(s, t, pc.n);
    GoodAfter(s.history, e) by { SetIsProper(s.history, e); }
    assert Above(s', unused);
    SameErasing(s, t, s');
    SetAtChanges(s.values, pc.n, pc.k1, pc.k2, pc.v);
    SameOwners(s, t, s', e);
    AccessValues(s, s', e);
  }

  lemma HolderOwns(s: State, t: int, n: int)
    requires HeldOk(s) && 0 <= t < |s.held| && n in s.held[t]
    ensures Owner(s.history, n) == Some(t)
  {
  }

  lemma SetIsProper(h: seq<Event>, e: Event)
    requires e.Set? && Owner(h, e.n) == Some(e.t)
    ensures Proper(h, e)
  {
  }

  lemma SetAtChanges(values: Store, n: int, k1: string, k2: string, v: string)
    requires n in values
    ensures WithValue(values, n, k1, k2, v).Keys == values.Keys + {n}
    ensures forall m, j1, j2 :: Stored(WithValue(values, n, k1, k2, v), m, j1, j2) ==
                                if m == n && j1 == k1 && j2 == k2 then v else Stored(values, m, j1, j2)
  {
    forall m, j1, j2 ensures Stored(WithValue(values, n, k1, k2, v), m, j1, j2) ==
                             if m == n && j1 == k1 && j2 == k2 then v else Stored(values, m, j1, j2) {
      ValueStored(values, n, k1, k2, v, m, j1, j2);
    }
    ValueStored(values, n, k1, k2, v, 0, "", "");
  }

  lemma UnlockInv(s: State, t: int, call: Call)
    requires Inv(s) && Enabled(s, t, call) && s.pc[t].Unlocking?
    ensures Inv(Next(s, t, call))
  {
    var s' := Next(s, t, call);
    var unused :| Above(s, unused);
    assert s.stack != [];
    assert Above(s', unused);
    SameErasing(s, t, s');
  }

  // --------------------------------------------------------- critical sections

  /** While a thread is inside, no other changes the stack, the values or the lock. */
  lemma SectionsAreAtomic(s: State, t: int, u: int, call: Call)
    requires Inv(s) && 0 <= t < |s.pc| && Inside(s.pc[t]) && u != t && Enabled(s, u, call)
    ensures var s' := Next(s, u, call);
            s'.stack == s.stack && s'.values == s.values && s'.lock == s.lock && s'.pc[t] == s.pc[t]
            && s'.held == s.held && s'.history == s.history
  {
    assert !Inside(s.pc[u]);
  }

  /** The steps inside the lock together do what the host's functions do. */
  lemma SectionsAreMethods(s: State, t: int, call: Call)
    requires Inv(s) && 0 <= t < |s.pc| && (s.pc[t].GetTop? || s.pc[t].ClsErase? || s.pc[t].SetNode?)
    ensures Sectioned(s, t, call)
    ensures var s' := AfterSection(s, t, call);
            match s.pc[t]
            case GetTop => (s'.history, s'.stack, s'.values) == (s.history + [Issue(t, Issued(s.stack).0)],
                                                                 Issued(s.stack).1, s.values)
            case ClsErase(n) => s'.values == s.values - {n} && s'.stack == if n in s.values then s.stack + [n]
                 else s.stack
            case SetNode(n, k1, k2, v) => s'.stack == s.stack
                 && s'.values == WithValue(WithNode(s.values, n), n, k1, k2, v)
            case _ => true
  {
    SectionReady(s, t);
    hide *;
    match s.pc[t]
    case GetTop => GetSection(s, t, call);
    case ClsErase(_) => CloseSection(s, t, call);
    case SetNode(_, _, _, _) => SetSection(s, t, call);
  }

  lemma SectionReady(s: State, t: int)
    requires Inv(s) && 0 <= t < |s.pc|
    ensures |s.pc| == |s.held| && (s.pc[t].GetTop? ==> s.stack != [])
  {
    hide HeldOk, ValuesOk, GoodHistory, Above, Exclusive;
    assert Exclusive(s);
    ExclusiveSizes(s);
  }

  lemma ExclusiveSizes(s: State)
    requires Exclusive(s)
    ensures |s.pc| == |s.held|
  {
  }

  lemma GetSection(s: State, t: int, call: Call)
    requires 0 <= t < |s.pc| == |s.held| && s.pc[t].GetTop? && s.stack != []
    ensures Sectioned(s, t, call)
    ensures var s' := AfterSection(s, t, call);
            (s'.history, s'.stack, s'.values) == (s.history + [Issue(t, Issued(s.stack).0)], Issued(s.stack).1,
                                                  s.values)
  {
  }

  lemma CloseSection(s: State, t: int, call: Call)
    requires 0 <= t < |s.pc| == |s.held| && s.pc[t].ClsErase?
    ensures Sectioned(s, t, call)
    ensures var s', n := AfterSection(s, t, call), s.pc[t].n;
            s'.values == s.values - {n} && s'.stack == if n in s.values then s.stack + [n] else s.stack
  {
    if s.pc[t].n !in s.values {
      assert s.values - {s.pc[t].n} == s.values;
    }
  }

  lemma SetSection(s: State, t: int, call: Call)
    requires 0 <= t < |s.pc| == |s.held| && s.pc[t].SetNode?
    ensures Sectioned(s, t, call)
    ensures var s', p := AfterSection(s, t, call), s.pc[t];
            s'.stack == s.stack && s'.values == WithValue(WithNode(s.values, p.n), p.n, p.k1, p.k2, p.v)
  {
  }

  /** A thread that is inside can go on, whatever the others do, until it is to unlock. */
  predicate Sectioned(s: State, t: int, call: Call) {
    && Enabled(s, t, call)
    && var s1 := Next(s, t, call);
    s1.pc[t].Unlocking? || (Enabled(s1, t, call) && var s2 := Next(s1, t, call);
                            s2.pc[t].Unlocking? || Enabled(s2, t, call))
  }

  /** Up to three steps of a thread that is inside, until it is to unlock. */
  function AfterSection(s: State, t: int, call: Call): State
    requires Sectioned(s, t, call)
  {
    var s1 := Next(s, t, call);
    if s1.pc[t].Unlocking? then s1
    else
      var s2 := Next(s1, t, call);
      if s2.pc[t].Unlocking? then s2 else Next(s2, t, call)
  }

  // ------------------------------------------------------------------- runs

  /** Any interleaving: at each step some thread goes on. */
  ghost predicate IsRun(threads: nat, run: seq<State>) {
    && |run| > 0 && run[0] == Init(threads)
    && forall i, j :: 0 <= i && j == i + 1 && j < |run| ==>
         StepTo(run[i], run[j])
  }

  ghost predicate StepTo(s: State, s': State) {
    exists t, call :: Enabled(s, t, call) && s' == Next(s, t, call)
  }

  lemma {:induction false} RunInv(threads: nat, run: seq<State>)
    requires IsRun(threads, run)
    ensures Inv(run[|run| - 1])
    decreases |run|
  {
    if |run| == 1 {
      InitInv(threads);
    } else {
      var before := run[..|run| - 1];
      assert before[0] == run[0];
      RunInv(threads, before);
      var i, j := |run| - 2, |run| - 1;
      assert StepTo(run[i], run[j]);
      var t, call :| Enabled(run[i], t, call) && run[j] == Next(run[i], t, call);
      StepInv(run[i], t, call);
    }
  }

  /** No two clients ever hold the same number; the numbers on the stack are nobody's, have
      no values and the lowest is above all that were ever issued; and all that clients have
      observed is proper. */
  lemma NumbersAreExclusive(threads: nat, run: seq<State>)
    requires IsRun(threads, run)
    ensures var s := run[|run| - 1];
            && |s.held| == |s.pc| && (forall t, u, n :: 0 <= t < u < |s.held| && n in s.held[t] ==> n !in s.held[u])
            && (forall t, i :: 0 <= t < |s.held| && 0 <= i < |s.stack| ==>
                                 s.stack[i] !in s.held[t] && s.stack[i] !in s.values)
            && (s.lock.None? ==> s.stack != [])
            && (s.stack != [] ==> forall i :: 0 <= i < |s.history| && s.history[i].Issue? ==>
                                                s.history[i].n < s.stack[0])
            && GoodHistory(s.history)
  {
    RunInv(threads, run);
    var s := run[|run| - 1];
    var unused :| Above(s, unused);
    forall t, u, n | 0 <= t < u < |s.held| && n in s.held[t] ensures n !in s.held[u] {
      assert Owner(s.history, n) == Some(t);
    }
    forall t, i | 0 <= t < |s.held| && 0 <= i < |s.stack| ensures s.stack[i] !in s.held[t] && s.stack[i] !in s.values {
      assert Owner(s.history, s.stack[i]).None?;
    }
  }

  /** A thread inside the lock can always go on: there is a number on the stack for it. */
  lemma NeverStuckInside(threads: nat, run: seq<State>, t: int, call: Call)
    requires IsRun(threads, run)
    requires var s := run[|run| - 1]; 0 <= t < |s.pc| && Inside(s.pc[t])
    ensures Enabled(run[|run| - 1], t, call)
  {
    RunInv(threads, run);
  }
}
