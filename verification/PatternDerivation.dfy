/** What a pattern matches, by the meaning of its items: derivations as lists of numbers of
    repetitions, their order, and the search, which finds the first. */
module PatternDerivation {
  import opened Common
  import opened PatternClasses
  import opened PatternItems
  import opened PatternSearch

  // --------------------------------------------------- items without a choice

  /** Where an item leads, or how the match ends there. */
  datatype Move = Moves(s: int, caps: seq<Capture>) | Halts(r: Result)

  function Count(src: seq<byte>, i: int, j: int, x: byte): nat
    requires 0 <= i <= j <= |src|
    decreases j - i
  {
    if i == j then 0 else Count(src, i, j - 1, x) + if src[j - 1] == x then 1 else 0
  }

  /** How many `b` are still open before `r`, of `open` at `i`; an `e` closes one, also if it
      is the same character. */
  function StillOpen(src: seq<byte>, i: int, r: int, b: byte, e: byte, open: int): int
    requires 0 <= i <= r <= |src|
  {
    open + (if b == e then 0 else Count(src, i, r, b)) - Count(src, i, r, e)
  }

  /** From a `b` at `s` up to `r`, where for the first time no `b` is open any more. */
  ghost predicate Balances(src: seq<byte>, i: int, r: int, b: byte, e: byte, open: int) {
    && 0 <= i <= r <= |src| && StillOpen(src, i, r, b, e, open) == 0
    && forall k :: i <= k < r ==> StillOpen(src, i, k, b, e, open) > 0
  }

  /** The innermost capture that is still open. */
  ghost predicate Innermost(caps: seq<Capture>, l: int) {
    0 <= l < |caps| && caps[l].len == -1 && forall k :: l < k < |caps| ==> caps[k].len != -1
  }

  predicate HereIn(m: Problem, s: int, set_: CharSet) {
    0 <= s < |m.src| && In(m.src[s], set_)
  }

  ghost function Sole(m: Problem, item: Item, s: int, caps: seq<Capture>): Move
    requires !item.Many? && 0 <= s <= |m.src|
  {
    match item
    case OpenCapture =>
      if |caps| >= 32 then Halts(Raise(TooManyCaptures)) else Moves(s, caps + [Capture(s, -1)])
    case PositionCapture =>
      if |caps| >= 32 then Halts(Raise(TooManyCaptures)) else Moves(s, caps + [Capture(s, -2)])
    case CloseCapture =>
      if exists l :: Innermost(caps, l) then
        var l :| Innermost(caps, l);
        Moves(s, caps[l := Capture(caps[l].init, s - caps[l].init)])
      else Halts(Raise(InvalidPatternCapture))
    case Balance(b, e) =>
      var i := s + 1;
      if s < |m.src| && m.src[s] == b && exists r :: Balances(m.src, i, r, b, e, 1) then
        var r :| Balances(m.src, i, r, b, e, 1);
        Moves(r, caps)
      else Halts(Fail)
    case FrontierTo(set_) =>
      var previous: byte := if s == 0 then 0 else m.src[s - 1];
      var current: byte := if s == |m.src| then 0 else m.src[s];
      if !In(previous, set_) && In(current, set_) then Moves(s, caps) else Halts(Fail)
    case BackReference(l) =>
      if !(0 <= l < |caps|) || caps[l].len == -1 then Halts(Raise(InvalidCaptureIndex))
      else
        var i, n := caps[l].init, caps[l].len;
        if n >= 0 && 0 <= i && i + n <= |m.src| && s + n <= |m.src| && m.src[s..s + n] == m.src[i..i + n]
        then Moves(s + n, caps) else Halts(Fail)
    case AtEnd => if s == |m.src| then Halts(Match(s, caps)) else Halts(Fail)
    case Once(set_) => if HereIn(m, s, set_) then Moves(s + 1, caps) else Halts(Fail)
  }

  // ------------------------------------------------------------- repetitions

  predicate MayRepeat(how: Repeat, n: int) {
    n >= 0 && (how == Optional ==> n <= 1) && (how == Plus ==> n >= 1)
  }

  /** Which number of repetitions is tried before which. */
  predicate TriedBefore(how: Repeat, a: int, b: int) {
    if how == Lazy then a < b else a > b
  }

  ghost predicate AllIn(m: Problem, s: int, n: int, set_: CharSet) {
    0 <= s && 0 <= n && s + n <= |m.src| && forall k :: s <= k < s + n ==> In(m.src[k], set_)
  }

  // -------------------------------------------------------------- derivations

  /** The result of the pattern from `p` on at `s`, with given numbers of repetitions, one
      for each item that has a choice. */
  ghost function Derive(m: Problem, s: int, p: int, caps: seq<Capture>, ch: seq<nat>): Result
    requires 0 <= s <= |m.src| && 0 <= p <= |m.pat|
    decreases |m.pat| - p
  {
    NextIsLater(m.pat, p);
    match ItemAt(m.pat, p)
    case End => if ch == [] then Match(s, caps) else Fail
    case Bad(e) => if ch == [] then Raise(e) else Fail
    case Item(item, next) =>
      if item.Many? then
        if ch != [] && MayRepeat(item.how, ch[0]) && AllIn(m, s, ch[0], item.set_)
        then Derive(m, s + ch[0], next, caps, ch[1..]) else Fail
      else
        SoleInside(m, item, s, caps);
        var d := Sole(m, item, s, caps);
        if d.Moves? then Derive(m, d.s, next, d.caps, ch) else if ch == [] then d.r else Fail
  }

  /** The order of derivations: at the first difference, what is tried first. */
  ghost predicate Earlier(m: Problem, s: int, p: int, caps: seq<Capture>, a: seq<nat>, b: seq<nat>)
    requires 0 <= s <= |m.src| && 0 <= p <= |m.pat|
    decreases |m.pat| - p
  {
    NextIsLater(m.pat, p);
    match ItemAt(m.pat, p)
    case End => false
    case Bad(e) => false
    case Item(item, next) =>
      if item.Many? then
        a != [] && b != [] &&
        if a[0] == b[0] then s + a[0] <= |m.src| && Earlier(m, s + a[0], next, caps, a[1..], b[1..])
        else TriedBefore(item.how, a[0], b[0])
      else
        SoleInside(m, item, s, caps);
        var d := Sole(m, item, s, caps);
        d.Moves? && Earlier(m, d.s, next, d.caps, a, b)
  }

  lemma NextIsLater(pat: seq<byte>, p: int)
    requires 0 <= p <= |pat|
    ensures ItemAt(pat, p).Item? ==> p < ItemAt(pat, p).next <= |pat|
  {
  }

  lemma SoleInside(m: Problem, item: Item, s: int, caps: seq<Capture>)
    requires !item.Many? && 0 <= s <= |m.src|
    ensures var d := Sole(m, item, s, caps); d.Moves? ==> 0 <= d.s <= |m.src|
  {
  }

  /** The first derivation and its result. */
  ghost predicate IsFirst(m: Problem, s: int, p: int, caps: seq<Capture>, ch: seq<nat>, r: Result)
    requires 0 <= s <= |m.src| && 0 <= p <= |m.pat|
  {
    && r != Fail && Derive(m, s, p, caps, ch) == r
    && forall other :: other != ch && Derive(m, s, p, caps, other) != Fail ==> Earlier(m, s, p, caps, ch, other)
  }

  ghost predicate NoDerivation(m: Problem, s: int, p: int, caps: seq<Capture>)
    requires 0 <= s <= |m.src| && 0 <= p <= |m.pat|
  {
    forall ch :: Derive(m, s, p, caps, ch) == Fail
  }

  // ----------------------------------- what the matcher demands is what items mean

  lemma {:induction false} BalanceMeans(src: seq<byte>, i: int, b: byte, e: byte, open: int)
    requires 0 <= i <= |src| && open > 0
    ensures var r := BalanceEnd(src, i, b, e, open);
            if r == -1 then forall t :: !Balances(src, i, t, b, e, open)
            else Balances(src, i, r, b, e, open) && forall t :: Balances(src, i, t, b, e, open) ==> t == r
    decreases |src| - i
  {
    if i < |src| {
      var open' := if src[i] == e then open - 1 else if src[i] == b then open + 1 else open;
      forall t | i < t <= |src| ensures StillOpen(src, i, t, b, e, open) == StillOpen(src, i + 1, t, b, e, open') {
        CountFirst(src, i, t, b);
        CountFirst(src, i, t, e);
      }
      if open' > 0 { BalanceMeans(src, i + 1, b, e, open'); }
      BalanceStep(src, i, b, e, open, open');
    }
    OnlyOne(src, i, b, e, open);
  }

  lemma {:induction false} CountFirst(src: seq<byte>, i: int, j: int, x: byte)
    requires 0 <= i < j <= |src|
    ensures Count(src, i, j, x) == (if src[i] == x then 1 else 0) + Count(src, i + 1, j, x)
    decreases j - i
  {
    if j > i + 1 { CountFirst(src, i, j - 1, x); }
  }

  lemma BalanceStep(src: seq<byte>, i: int, b: byte, e: byte, open: int, open': int)
    requires 0 <= i < |src| && open > 0 && open' >= 0
    requires forall t :: i < t <= |src| ==>
               StillOpen(src, i, t, b, e, open) == StillOpen(src, i + 1, t, b, e, open')
    ensures forall t :: Balances(src, i, t, b, e, open) <==>
                        if open' == 0 then t == i + 1 else Balances(src, i + 1, t, b, e, open')
  {
    assert StillOpen(src, i, i, b, e, open) == open;
    assert StillOpen(src, i + 1, i + 1, b, e, open') == open';
    var n := i + 1;
    forall t ensures Balances(src, i, t, b, e, open) <==>
                     if open' == 0 then t == n else Balances(src, n, t, b, e, open') {
      hide StillOpen;
      if Balances(src, i, t, b, e, open) {
        assert t > i && StillOpen(src, i, t, b, e, open) == StillOpen(src, n, t, b, e, open');
        forall k | n <= k < t ensures StillOpen(src, n, k, b, e, open') > 0 {
          assert StillOpen(src, i, k, b, e, open) == StillOpen(src, n, k, b, e, open');
        }
      } else if i < t <= |src| && (if open' == 0 then t == n else Balances(src, n, t, b, e, open')) {
        assert StillOpen(src, i, t, b, e, open) == StillOpen(src, n, t, b, e, open') == 0;
        forall k | i <= k < t ensures StillOpen(src, i, k, b, e, open) > 0 {
          if k > i { assert StillOpen(src, i, k, b, e, open) == StillOpen(src, n, k, b, e, open'); }
        }
      }
    }
  }

  lemma OnlyOne(src: seq<byte>, i: int, b: byte, e: byte, open: int)
    ensures forall t, u :: Balances(src, i, t, b, e, open) && Balances(src, i, u, b, e, open) ==> t == u
  {
    hide StillOpen;
  }

  /** The demand of an item without a choice. */
  function DemandOf(d: Move, next: int): Demand {
    match d
    case Moves(s, caps) => Go(s, next, caps)
    case Halts(r) => Stop(r)
  }

  lemma SoleMeans(m: Problem, s: int, p: int, caps: seq<Capture>)
    requires 0 <= s <= |m.src| && 0 <= p <= |m.pat| && ItemAt(m.pat, p).Item? && !ItemAt(m.pat, p).item.Many?
    ensures var i := ItemAt(m.pat, p); DemandAt(m, s, p, caps) == DemandOf(Sole(m, i.item, s, caps), i.next)
  {
    var item := ItemAt(m.pat, p).item;
    hide ClassEnd, SetOf, Bracketed, SingleMatch, MatchSet, RunLength, BalanceEnd, Balances, In, Frontier, Balanced,
      PatternSearch.Repeated;
    match item
    case Balance(b, e) => BalancedMeans(m, s, p, caps);
    case FrontierTo(_) => FrontierMeans(m, s, p, caps);
    case Once(_) => OnceMeans(m, s, p, caps);
    case CloseCapture => InnermostIs(caps);
    case _ =>
  }

  lemma BalancedMeans(m: Problem, s: int, p: int, caps: seq<Capture>)
    requires 0 <= s <= |m.src| && 0 <= p <= |m.pat| && ItemAt(m.pat, p).Item? && ItemAt(m.pat, p).item.Balance?
    ensures var i := ItemAt(m.pat, p); DemandAt(m, s, p, caps) == DemandOf(Sole(m, i.item, s, caps), i.next)
  {
    hide ClassEnd, SetOf, Bracketed, BalanceEnd, Balances;
    var i := ItemAt(m.pat, p).item;
    if s < |m.src| { BalanceMeans(m.src, s + 1, i.b, i.e, 1); }
  }

  lemma FrontierMeans(m: Problem, s: int, p: int, caps: seq<Capture>)
    requires 0 <= s <= |m.src| && 0 <= p <= |m.pat| && ItemAt(m.pat, p).Item? && ItemAt(m.pat, p).item.FrontierTo?
    ensures var i := ItemAt(m.pat, p); DemandAt(m, s, p, caps) == DemandOf(Sole(m, i.item, s, caps), i.next)
  {
    hide ClassEnd, SetOf, Bracketed, MatchSet, In;
    BracketMeans(Previous(m.src, s), m.pat, p + 2);
    BracketMeans(At(m.src, s), m.pat, p + 2);
  }

  lemma InnermostIs(caps: seq<Capture>)
    ensures var l := ToClose(caps); if l == -1 then forall k :: !Innermost(caps, k)
                                    else Innermost(caps, l) && forall k :: Innermost(caps, k) ==> k == l
  {
  }

  lemma OnceMeans(m: Problem, s: int, p: int, caps: seq<Capture>)
    requires 0 <= s <= |m.src| && 0 <= p <= |m.pat| && ItemAt(m.pat, p).Item? && ItemAt(m.pat, p).item.Once?
    ensures var i := ItemAt(m.pat, p);
            DemandAt(m, s, p, caps) == if HereIn(m, s, i.item.set_) then Go(s + 1, i.next, caps) else Stop(Fail)
  {
    hide ClassEnd, SetOf, Bracketed, SingleMatch, MatchSet, RunLength, In;
    SetMeans(if s < |m.src| then m.src[s] else 0, m.pat, p);
  }

  lemma NothingMeans(m: Problem, s: int, p: int, caps: seq<Capture>)
    requires 0 <= s <= |m.src| && 0 <= p <= |m.pat| && !ItemAt(m.pat, p).Item?
    ensures DemandAt(m, s, p, caps) == Stop(if ItemAt(m.pat, p).End? then Match(s, caps) else Raise(ItemAt(m.pat, p).e))
  {
    hide ClassEnd, SetOf, Bracketed, SingleMatch, MatchSet, RunLength, BalanceEnd, In;
    if At(m.pat, p) != 0 { SetMeans(0, m.pat, p); }
    if At(m.pat, p) == 37 && At(m.pat, p + 1) == 102 && At(m.pat, p + 2) == 91 { BracketMeans(0, m.pat, p + 2); }
  }

  /** The demand of an item with a choice: `least` is 1 for `+` and 0 otherwise. */
  lemma RepeatMeans(m: Problem, s: int, p: int, caps: seq<Capture>)
    requires 0 <= s <= |m.src| && 0 <= p <= |m.pat| && ItemAt(m.pat, p).Item? && ItemAt(m.pat, p).item.Many?
    ensures var i := ItemAt(m.pat, p);
            var d, least := DemandAt(m, s, p, caps), if i.item.how == Plus then 1 else 0;
            if d.Choose? then
              && d.s == s + least && d.ep + 1 == i.next && d.greedy == (i.item.how != Lazy)
              && forall n :: MayRepeat(i.item.how, n) && AllIn(m, s, n, i.item.set_) <==> least <= n <= d.most + least
            else d == Stop(Fail) && forall n :: !(MayRepeat(i.item.how, n) && AllIn(m, s, n, i.item.set_))
  {
    var item := ItemAt(m.pat, p).item;
    RepeatDemand(m, s, p, caps);
    var ep := SetOf(m.pat, p).ep;
    forall n ensures 0 <= n <= RunLength(m, s, p, ep) <==> AllIn(m, s, n, item.set_) { RunMeans(m, s, p, n); }
    hide DemandAt, ItemAt, AllIn, HereIn, SetOf, SingleMatch;
    if item.how == Plus { OneMoreHere(m, s, p, ep, item.set_); }
    if item.how == Optional { OneMoreHere(m, s, p, ep, item.set_); }
  }

  lemma OneMoreHere(m: Problem, s: int, p: int, ep: int, set_: CharSet)
    requires 0 <= s <= |m.src| && 0 <= p && At(m.pat, p) != 0 && SetOf(m.pat, p) == Written(set_, ep)
    ensures RunLength(m, s, p, ep) == if HereIn(m, s, set_) then 1 + RunLength(m, s + 1, p, ep) else 0
    ensures HereIn(m, s, set_) ==> s < |m.src|
  {
    hide SetOf, SingleMatch, In;
    if s < |m.src| { SetMeans(m.src[s], m.pat, p); }
  }

  lemma RepeatDemand(m: Problem, s: int, p: int, caps: seq<Capture>)
    requires 0 <= s <= |m.src| && 0 <= p <= |m.pat| && ItemAt(m.pat, p).Item? && ItemAt(m.pat, p).item.Many?
    ensures At(m.pat, p) != 0 && SetOf(m.pat, p).Written?
    ensures var i, k := ItemAt(m.pat, p), SetOf(m.pat, p);
            var least := if i.item.how == Plus then 1 else 0;
            && i.item.set_ == k.set_ && i.next == k.ep + 1
            && DemandAt(m, s, p, caps) ==
               if i.item.how == Plus && !HereIn(m, s, k.set_) then Stop(Fail)
               else Choose(i.item.how != Lazy, s + least, p, k.ep,
                           if i.item.how == Optional then (if HereIn(m, s, k.set_) then 1 else 0)
                           else RunLength(m, s + least, p, k.ep))
  {
    hide ClassEnd, SetOf, Bracketed, SingleMatch, MatchSet, In, RunLength;
    SetMeans(0, m.pat, p);
    if s < |m.src| { SetMeans(m.src[s], m.pat, p); }
  }

  lemma RunMeans(m: Problem, s: int, p: int, n: int)
    requires 0 <= s <= |m.src| && 0 <= p && At(m.pat, p) != 0 && SetOf(m.pat, p).Written?
    ensures var k := SetOf(m.pat, p); 0 <= n <= RunLength(m, s, p, k.ep) <==> AllIn(m, s, n, k.set_)
  {
    hide SetOf, In, SingleMatch;
    var k := SetOf(m.pat, p);
    RunIsLongest(m, s, p, k.ep, n);
    forall i | 0 <= i < |m.src| ensures SingleMatch(m.src[i], m.pat, p, k.ep) == In(m.src[i], k.set_) {
      SetMeans(m.src[i], m.pat, p);
    }
    assert AllMatch(m, s, n, p, k.ep) ==> AllIn(m, s, n, k.set_) by {
      if AllMatch(m, s, n, p, k.ep) {
        forall j | s <= j < s + n ensures In(m.src[j], k.set_) { assert SingleMatch(m.src[j], m.pat, p, k.ep); }
      }
    }
    assert AllIn(m, s, n, k.set_) ==> AllMatch(m, s, n, p, k.ep) by {
      if AllIn(m, s, n, k.set_) {
        forall j | s <= j < s + n ensures SingleMatch(m.src[j], m.pat, p, k.ep) { assert In(m.src[j], k.set_); }
      }
    }
  }

  // -------------------------------------------------------- the search is right

  lemma NoneElsewhere(m: Problem, s: int, p: int, caps: seq<Capture>)
    requires 0 <= s <= |m.src| && 0 <= p <= |m.pat|
    ensures NoDerivation(m, s, p, caps) ==> forall ch :: Derive(m, s, p, caps, ch) == Fail
  {
  }

  /** The search fails exactly when there is no derivation, and otherwise gives the result
      of the first one. */
  lemma {:induction false} SearchIsFirst(m: Problem, s: int, p: int, caps: seq<Capture>) returns (ch: seq<nat>)
    requires 0 <= s <= |m.src| && 0 <= p <= |m.pat|
    ensures var r := Search(m, s, p, caps);
            if r == Fail then NoDerivation(m, s, p, caps) else IsFirst(m, s, p, caps, ch, r)
    decreases |m.pat| - p, |m.src| + 3
  {
    hide DemandAt, ItemAt, Sole;
    var d, i := DemandAt(m, s, p, caps), ItemAt(m.pat, p);
    NextIsLater(m.pat, p);
    ch := [];
    if !i.Item? {
      NothingMeans(m, s, p, caps);
    } else if !i.item.Many? {
      SoleMeans(m, s, p, caps);
      SoleInside(m, i.item, s, caps);
      if d.Go? {
        ch := SearchIsFirst(m, d.s, d.p, d.caps);
        SoleFollows(m, s, p, caps);
        hide Derive, Earlier;
      }
    } else {
      RepeatMeans(m, s, p, caps);
      if d.Choose? {
        if d.greedy { ch := MaxIsFirst(m, s, p, caps, d.most); } else { ch := MinIsFirst(m, s, p, caps, 0); }
      }
    }
  }

  /** Through an item without a choice. */
  lemma SoleFollows(m: Problem, s: int, p: int, caps: seq<Capture>)
    requires 0 <= s <= |m.src| && 0 <= p <= |m.pat| && ItemAt(m.pat, p).Item? && !ItemAt(m.pat, p).item.Many?
    requires Sole(m, ItemAt(m.pat, p).item, s, caps).Moves?
    ensures var i := ItemAt(m.pat, p);
            var d := Sole(m, i.item, s, caps);
            && 0 <= d.s <= |m.src| && p < i.next <= |m.pat|
            && (forall o :: Derive(m, s, p, caps, o) == Derive(m, d.s, i.next, d.caps, o))
            && (forall a, b :: Earlier(m, s, p, caps, a, b) == Earlier(m, d.s, i.next, d.caps, a, b))
  {
    NextIsLater(m.pat, p);
    SoleInside(m, ItemAt(m.pat, p).item, s, caps);
    hide ItemAt, Sole;
  }

  /** One number of repetitions, and then what follows. */
  lemma ChoiceFollows(m: Problem, s: int, p: int, caps: seq<Capture>, o: seq<nat>)
    requires 0 <= s <= |m.src| && 0 <= p <= |m.pat| && ItemAt(m.pat, p).Item? && ItemAt(m.pat, p).item.Many?
    ensures var i := ItemAt(m.pat, p);
            p < i.next <= |m.pat| &&
            if o != [] && MayRepeat(i.item.how, o[0]) && AllIn(m, s, o[0], i.item.set_)
            then Derive(m, s, p, caps, o) == Derive(m, s + o[0], i.next, caps, o[1..])
            else Derive(m, s, p, caps, o) == Fail
  {
    NextIsLater(m.pat, p);
    hide ItemAt, Sole;
  }

  lemma OrderFollows(m: Problem, s: int, p: int, caps: seq<Capture>, a: seq<nat>, b: seq<nat>)
    requires 0 <= s <= |m.src| && 0 <= p <= |m.pat| && ItemAt(m.pat, p).Item? && ItemAt(m.pat, p).item.Many?
    requires a != [] && b != [] && s + a[0] <= |m.src|
    ensures var i := ItemAt(m.pat, p);
            p < i.next <= |m.pat| &&
            (Earlier(m, s, p, caps, a, b) <==> if a[0] == b[0] then Earlier(m, s + a[0], i.next, caps, a[1..], b[1..])
                                               else TriedBefore(i.item.how, a[0], b[0]))
  {
    NextIsLater(m.pat, p);
    hide ItemAt, Sole;
  }

  /** The number of repetitions that a choice of the matcher stands for. */
  function Least(m: Problem, p: int): nat
    requires 0 <= p <= |m.pat| && ItemAt(m.pat, p).Item? && ItemAt(m.pat, p).item.Many?
  {
    if ItemAt(m.pat, p).item.how == Plus then 1 else 0
  }

  ghost predicate Greedy(m: Problem, s: int, p: int, caps: seq<Capture>, greedy: bool)
    requires 0 <= s <= |m.src| && 0 <= p <= |m.pat|
  {
    ItemAt(m.pat, p).Item? && ItemAt(m.pat, p).item.Many? && DemandAt(m, s, p, caps).Choose?
    && DemandAt(m, s, p, caps).greedy == greedy
  }

  /** Among the derivations that start with at most `i` repetitions, beside the least number. */
  lemma {:induction false} MaxIsFirst(m: Problem, s: int, p: int, caps: seq<Capture>, i: int) returns (ch: seq<nat>)
    requires 0 <= s <= |m.src| && 0 <= p <= |m.pat| && Greedy(m, s, p, caps, true)
    requires -1 <= i <= DemandAt(m, s, p, caps).most
    ensures var d, top := DemandAt(m, s, p, caps), i + Least(m, p);
            var r := MaxExpand(m, d.s, d.ep + 1, caps, i);
            if r == Fail then forall o :: o != [] && o[0] <= top ==> Derive(m, s, p, caps, o) == Fail
            else ch != [] && ch[0] <= top && Derive(m, s, p, caps, ch) == r &&
                 forall o :: o != [] && o[0] <= top && o != ch && Derive(m, s, p, caps, o) != Fail ==>
                               Earlier(m, s, p, caps, ch, o)
    decreases |m.pat| - p, i + 2
  {
    hide DemandAt, ItemAt, Search, NoDerivation, Derive, Earlier, AllIn;
    var d, least := DemandAt(m, s, p, caps), Least(m, p);
    RepeatMeans(m, s, p, caps);
    ch := [];
    forall o ensures o != [] && o[0] <= i + least && o[0] != i + least ==> o[0] <= i - 1 + least {}
    forall o | o != [] && Derive(m, s, p, caps, o) != Fail
      ensures least <= o[0] <= d.most + least
      ensures Derive(m, s, p, caps, o) == Derive(m, s + o[0], d.ep + 1, caps, o[1..])
    {
      ChoiceFollows(m, s, p, caps, o);
    }
    if i >= 0 {
      var rest := SearchIsFirst(m, d.s + i, d.ep + 1, caps);
      var r := Search(m, d.s + i, d.ep + 1, caps);
      NoneElsewhere(m, d.s + i, d.ep + 1, caps);
      if r != Fail {
        ch := [(i + least) as nat] + rest;
        assert ch[1..] == rest;
        ChoiceFollows(m, s, p, caps, ch);
        forall o | o != [] && o[0] <= i + least && o != ch && Derive(m, s, p, caps, o) != Fail
          ensures Earlier(m, s, p, caps, ch, o)
        {
          OrderFollows(m, s, p, caps, ch, o);
          if o[0] == i + least { assert o == [o[0]] + o[1..]; }
        }
      } else {
        ch := MaxIsFirst(m, s, p, caps, i - 1);
      }
    }
  }

  /** Among the derivations that start with at least `i` repetitions. */
  lemma {:induction false} MinIsFirst(m: Problem, s: int, p: int, caps: seq<Capture>, i: int) returns (ch: seq<nat>)
    requires 0 <= s <= |m.src| && 0 <= p <= |m.pat| && Greedy(m, s, p, caps, false)
    requires 0 <= i <= DemandAt(m, s, p, caps).most + 1
    ensures var d := DemandAt(m, s, p, caps);
            var r := MinExpand(m, d.s, d.ep + 1, caps, i, d.most);
            if r == Fail then forall o :: o != [] && o[0] >= i ==> Derive(m, s, p, caps, o) == Fail
            else ch != [] && ch[0] >= i && Derive(m, s, p, caps, ch) == r &&
                 forall o :: o != [] && o[0] >= i && o != ch && Derive(m, s, p, caps, o) != Fail ==>
                               Earlier(m, s, p, caps, ch, o)
    decreases |m.pat| - p, DemandAt(m, s, p, caps).most + 2 - i
  {
    hide DemandAt, ItemAt, Search, NoDerivation, Derive, Earlier, AllIn;
    var d := DemandAt(m, s, p, caps);
    RepeatMeans(m, s, p, caps);
    ch := [];
    forall o | o != [] && Derive(m, s, p, caps, o) != Fail
      ensures o[0] <= d.most && Derive(m, s, p, caps, o) == Derive(m, s + o[0], d.ep + 1, caps, o[1..])
    {
      ChoiceFollows(m, s, p, caps, o);
    }
    if i <= d.most {
      var rest := SearchIsFirst(m, d.s + i, d.ep + 1, caps);
      var r := Search(m, d.s + i, d.ep + 1, caps);
      NoneElsewhere(m, d.s + i, d.ep + 1, caps);
      if r != Fail {
        ch := [i as nat] + rest;
        assert ch[1..] == rest;
        ChoiceFollows(m, s, p, caps, ch);
        forall o | o != [] && o[0] >= i && o != ch && Derive(m, s, p, caps, o) != Fail
          ensures Earlier(m, s, p, caps, ch, o)
        {
          OrderFollows(m, s, p, caps, ch, o);
          if o[0] == i { assert o == [o[0]] + o[1..]; }
        }
      } else {
        ch := MinIsFirst(m, s, p, caps, i + 1);
      }
    }
  }

  // ------------------------------------------------------ well-formed patterns

  ghost predicate LastTrue(open: seq<bool>, l: int) {
    0 <= l < |open| && open[l] && forall k :: l < k < |open| ==> !open[k]
  }

  /** No item is an error, and captures are opened, closed and referred to in order. */
  ghost predicate ItemsOk(pat: seq<byte>, p: int, open: seq<bool>)
    requires 0 <= p <= |pat|
    decreases |pat| - p
  {
    NextIsLater(pat, p);
    match ItemAt(pat, p)
    case End => true
    case Bad(_) => false
    case Item(item, next) =>
      match item
      case AtEnd => true
      case OpenCapture => |open| < 32 && ItemsOk(pat, next, open + [true])
      case PositionCapture => |open| < 32 && ItemsOk(pat, next, open + [false])
      case CloseCapture => exists l :: LastTrue(open, l) && ItemsOk(pat, next, open[l := false])
      case BackReference(l) => 0 <= l < |open| && !open[l] && ItemsOk(pat, next, open)
      case _ => ItemsOk(pat, next, open)
  }

  lemma {:induction false} WellFormedIff(pat: seq<byte>, p: int, open: seq<bool>)
    requires 0 <= p <= |pat|
    ensures WellFormed(pat, p, open) <==> ItemsOk(pat, p, open)
    decreases |pat| - p
  {
    hide ClassEnd, SetOf, Bracketed, LastOpen;
    NextIsLater(pat, p);
    var i := ItemAt(pat, p);
    if At(pat, p) != 0 { SetMeans(0, pat, p); }
    if At(pat, p) == 37 && At(pat, p + 1) == 102 && At(pat, p + 2) == 91 { BracketMeans(0, pat, p + 2); }
    if i.Item? && !i.item.AtEnd? {
      WellFormedIff(pat, i.next, open + [true]);
      WellFormedIff(pat, i.next, open + [false]);
      WellFormedIff(pat, i.next, open);
      if i.item.CloseCapture? && LastOpen(open) >= 0 {
        WellFormedIff(pat, i.next, open[LastOpen(open) := false]);
        assert LastTrue(open, LastOpen(open));
        assert forall l :: LastTrue(open, l) ==> l == LastOpen(open);
      }
    }
  }
}
