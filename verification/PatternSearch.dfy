/** What a pattern demands at each point, and the search with backtracking. */
module PatternSearch {
  import opened PatternClasses

  const CAP_UNFINISHED := -1
  const CAP_POSITION := -2
  const MAX_CAPTURES: nat := 32

  datatype Capture = Capture(init: int, len: int)

  /** The end of a match with its captures, or no match, or an error. */
  datatype Result = Match(e: int, caps: seq<Capture>) | Fail | Raise(error: Error)

  /** A pattern applied to a subject. */
  datatype Problem = Problem(src: seq<byte>, pat: seq<byte>)

  /** What the pattern demands at one point: to stop with a result, to go on, or to
      choose how many characters from `s` on match the item from `q` to `ep`. */
  datatype Demand =
    | Stop(r: Result)
    | Go(s: int, p: int, caps: seq<Capture>)
    | Choose(greedy: bool, s: int, q: int, ep: int, most: int)

  // ------------------------------------------------------------- the items

  /** The innermost open capture. */
  function ToClose(caps: seq<Capture>): (l: int)
    ensures -1 <= l < |caps|
    ensures l >= 0 ==> caps[l].len == CAP_UNFINISHED
    ensures forall k :: l < k < |caps| ==> caps[k].len != CAP_UNFINISHED
  {
    if caps == [] then -1
    else if caps[|caps| - 1].len == CAP_UNFINISHED then |caps| - 1
    else ToClose(caps[..|caps| - 1])
  }

  /** After the opening character of a balanced string at `s`: the end of the string, from
      `i` on and with `open` brackets open, or -1. */
  function BalanceEnd(src: seq<byte>, i: int, b: byte, e: byte, open: int): (r: int)
    requires 0 <= i
    ensures r == -1 || i < r <= |src|
    decreases |src| - i
  {
    if i >= |src| then -1
    else if src[i] == e then (if open == 1 then i + 1 else BalanceEnd(src, i + 1, b, e, open - 1))
    else BalanceEnd(src, i + 1, b, e, if src[i] == b then open + 1 else open)
  }

  function Previous(src: seq<byte>, s: int): byte {
    if s == 0 then 0 else At(src, s - 1)
  }

  /** A new capture, unless there are too many. */
  function Opened(m: Problem, s: int, p: int, caps: seq<Capture>, what: int): Demand {
    if |caps| >= MAX_CAPTURES then Stop(Raise(TooManyCaptures))
    else Go(s, p, caps + [Capture(s, what)])
  }

  function Closed(m: Problem, s: int, p: int, caps: seq<Capture>): Demand {
    var l := ToClose(caps);
    if l == -1 then Stop(Raise(InvalidPatternCapture))
    else Go(s, p, caps[l := Capture(caps[l].init, s - caps[l].init)])
  }

  /** The captured text again; a position capture never matches, as its length reads as a
      huge number. */
  function Backreference(m: Problem, s: int, p: int, caps: seq<Capture>, digit: int): Demand {
    var l := digit - '1' as int;
    if l < 0 || l >= |caps| || caps[l].len == CAP_UNFINISHED then Stop(Raise(InvalidCaptureIndex))
    else
      var c := caps[l];
      if c.len >= 0 && 0 <= c.init && c.init + c.len <= |m.src| && 0 <= s && s + c.len <= |m.src|
         && m.src[s..s + c.len] == m.src[c.init..c.init + c.len]
      then Go(s + c.len, p, caps) else Stop(Fail)
  }

  function Balanced(m: Problem, s: int, p: int, caps: seq<Capture>): Demand
    requires 0 <= s
  {
    var b, e := At(m.pat, p + 2), At(m.pat, p + 3);
    if b == 0 || e == 0 then Stop(Raise(Unbalanced))
    else if At(m.src, s) != b then Stop(Fail)
    else
      var r := BalanceEnd(m.src, s + 1, b, e, 1);
      if r == -1 then Stop(Fail) else Go(r, p + 4, caps)
  }

  function Frontier(m: Problem, s: int, p: int, caps: seq<Capture>): Demand
    requires 0 <= p
  {
    if At(m.pat, p + 2) != '[' as int then Stop(Raise(MissingFrontierSet))
    else
      var c := ClassEnd(m.pat, p + 2);
      if c.Malformed? then Stop(Raise(c.e))
      else if MatchSet(Previous(m.src, s), m.pat, p + 2, c.ep - 1)
           || !MatchSet(At(m.src, s), m.pat, p + 2, c.ep - 1) then Stop(Fail)
      else Go(s, c.ep, caps)
  }

  /** The longest run of characters from `s` that match an item. */
  function RunLength(m: Problem, s: int, q: int, ep: int): (n: int)
    requires 0 <= s
    ensures 0 <= n && (s <= |m.src| ==> s + n <= |m.src|)
    decreases |m.src| - s
  {
    if s < |m.src| && SingleMatch(m.src[s], m.pat, q, ep) then 1 + RunLength(m, s + 1, q, ep) else 0
  }

  /** An item for one character, with the suffix that says how often it is repeated. */
  function Repeated(m: Problem, s: int, p: int, caps: seq<Capture>): Demand
    requires 0 <= s && 0 <= p && At(m.pat, p) != 0
  {
    var c := ClassEnd(m.pat, p);
    if c.Malformed? then Stop(Raise(c.e))
    else
      var here := s < |m.src| && SingleMatch(m.src[s], m.pat, p, c.ep);
      var suffix := At(m.pat, c.ep);
      if suffix == '?' as int then Choose(true, s, p, c.ep, if here then 1 else 0)
      else if suffix == '*' as int then Choose(true, s, p, c.ep, RunLength(m, s, p, c.ep))
      else if suffix == '+' as int then
        (if here then Choose(true, s + 1, p, c.ep, RunLength(m, s + 1, p, c.ep)) else Stop(Fail))
      else if suffix == '-' as int then Choose(false, s, p, c.ep, RunLength(m, s, p, c.ep))
      else if here then Go(s + 1, c.ep, caps) else Stop(Fail)
  }

  function DemandAt(m: Problem, s: int, p: int, caps: seq<Capture>): (d: Demand)
    requires 0 <= s <= |m.src| && 0 <= p <= |m.pat|
    ensures d.Go? ==> 0 <= d.s <= |m.src| && p < d.p <= |m.pat|
    ensures d.Choose? ==> 0 <= d.s && 0 <= d.most && d.s + d.most <= |m.src| && p < d.ep + 1 <= |m.pat|
  {
    var c, next := At(m.pat, p), At(m.pat, p + 1);
    if c == '(' as int then
      (if next == ')' as int then Opened(m, s, p + 2, caps, CAP_POSITION)
      else Opened(m, s, p + 1, caps, CAP_UNFINISHED))
    else if c == ')' as int then Closed(m, s, p + 1, caps)
    else if c == ESC && next == 'b' as int then Balanced(m, s, p, caps)
    else if c == ESC && next == 'f' as int then Frontier(m, s, p, caps)
    else if c == ESC && IsDigit(next) then Backreference(m, s, p + 2, caps, next)
    else if c == 0 then Stop(Match(s, caps))
    else if c == '$' as int && next == 0 then Stop(if s == |m.src| then Match(s, caps) else Fail)
    else Repeated(m, s, p, caps)
  }

  // ------------------------------------------------------------ repetitions

  /** Each of `n` characters from `s` on matches an item. */
  ghost predicate AllMatch(m: Problem, s: int, n: int, q: int, ep: int) {
    0 <= s && 0 <= n && s + n <= |m.src| && forall k :: s <= k < s + n ==> SingleMatch(m.src[k], m.pat, q, ep)
  }

  // ------------------------------------------------------------- the search

  /** The first result that is not a failure, in the order of the choices. */
  function Search(m: Problem, s: int, p: int, caps: seq<Capture>): Result
    requires 0 <= s <= |m.src| && 0 <= p <= |m.pat|
    decreases |m.pat| - p, 0
  {
    match DemandAt(m, s, p, caps)
    case Stop(r) => r
    case Go(s1, p1, caps1) => Search(m, s1, p1, caps1)
    case Choose(greedy, s1, q, ep, most) =>
      if greedy then MaxExpand(m, s1, ep + 1, caps, most) else MinExpand(m, s1, ep + 1, caps, 0, most)
  }

  /** Try `i` repetitions, then fewer. */
  function MaxExpand(m: Problem, s: int, p: int, caps: seq<Capture>, i: int): Result
    requires 0 <= s && -1 <= i && s + i <= |m.src| && 0 <= p <= |m.pat|
    decreases |m.pat| - p, i + 2
  {
    if i < 0 then Fail
    else
      var r := Search(m, s + i, p, caps);
      if r != Fail then r else MaxExpand(m, s, p, caps, i - 1)
  }

  /** Try `i` repetitions, then more, up to `most`. */
  function MinExpand(m: Problem, s: int, p: int, caps: seq<Capture>, i: int, most: int): Result
    requires 0 <= s && 0 <= i && s + most <= |m.src| && 0 <= p <= |m.pat|
    decreases |m.pat| - p, if i <= most then most - i + 2 else 1
  {
    if i > most then Fail
    else
      var r := Search(m, s + i, p, caps);
      if r != Fail then r else MinExpand(m, s, p, caps, i + 1, most)
  }

  /** A choice is possible exactly if all its characters match the item. */
  lemma {:induction false} RunIsLongest(m: Problem, s: int, q: int, ep: int, n: int)
    requires 0 <= s <= |m.src|
    ensures 0 <= n <= RunLength(m, s, q, ep) <==> AllMatch(m, s, n, q, ep)
    decreases |m.src| - s
  {
    if s < |m.src| {
      RunIsLongest(m, s + 1, q, ep, n - 1);
      if AllMatch(m, s, n, q, ep) && n > 0 { assert SingleMatch(m.src[s], m.pat, q, ep); }
      if SingleMatch(m.src[s], m.pat, q, ep) && AllMatch(m, s + 1, n - 1, q, ep) {
        assert AllMatch(m, s, n, q, ep);
      }
    }
  }

  // ----------------------------------------------------------- the captures

  /** Captures lie in the subject, before the current position. */
  ghost predicate CapturesOk(caps: seq<Capture>, s: int) {
    forall i :: 0 <= i < |caps| ==>
      0 <= caps[i].init <= s && (caps[i].len == CAP_UNFINISHED || caps[i].len == CAP_POSITION
                                 || 0 <= caps[i].len <= s - caps[i].init)
  }

  lemma DemandCaptures(m: Problem, s: int, p: int, caps: seq<Capture>)
    requires 0 <= s <= |m.src| && 0 <= p <= |m.pat| && CapturesOk(caps, s)
    ensures var d := DemandAt(m, s, p, caps);
            && (d.Go? ==> s <= d.s && CapturesOk(d.caps, d.s) && |caps| <= |d.caps|)
            && (d.Choose? ==> s <= d.s && CapturesOk(caps, d.s))
            && (d.Stop? && d.r.Match? ==> d.r.e == s && d.r.caps == caps)
  {
  }

  /** A match ends after its start, with its captures inside the subject. */
  lemma {:induction false} SearchCaptures(m: Problem, s: int, p: int, caps: seq<Capture>)
    requires 0 <= s <= |m.src| && 0 <= p <= |m.pat| && CapturesOk(caps, s)
    ensures var r := Search(m, s, p, caps); r.Match? ==> s <= r.e <= |m.src| && CapturesOk(r.caps, r.e)
    decreases |m.pat| - p, |m.src| + 3
  {
    var d := DemandAt(m, s, p, caps);
    DemandCaptures(m, s, p, caps);
    if d.Go? {
      SearchCaptures(m, d.s, d.p, d.caps);
    } else if d.Choose? {
      MaxCaptures(m, d.s, d.ep + 1, caps, d.most);
      MinCaptures(m, d.s, d.ep + 1, caps, 0, d.most);
    }
  }

  lemma {:induction false} MaxCaptures(m: Problem, s: int, p: int, caps: seq<Capture>, i: int)
    requires 0 <= s && -1 <= i && s + i <= |m.src| && 0 <= p <= |m.pat| && CapturesOk(caps, s)
    ensures var r := MaxExpand(m, s, p, caps, i); r.Match? ==> s <= r.e <= |m.src| && CapturesOk(r.caps, r.e)
    decreases |m.pat| - p, |m.src| + 4 + i
  {
    if i >= 0 {
      assert CapturesOk(caps, s + i);
      SearchCaptures(m, s + i, p, caps);
      MaxCaptures(m, s, p, caps, i - 1);
    }
  }

  lemma {:induction false} MinCaptures(m: Problem, s: int, p: int, caps: seq<Capture>, i: int, most: int)
    requires 0 <= s && 0 <= i && s + most <= |m.src| && 0 <= p <= |m.pat| && CapturesOk(caps, s)
    ensures var r := MinExpand(m, s, p, caps, i, most); r.Match? ==> s <= r.e <= |m.src| && CapturesOk(r.caps, r.e)
    decreases |m.pat| - p, |m.src| + 4 + if i <= most then most - i + 1 else 0
  {
    if i <= most {
      assert CapturesOk(caps, s + i);
      SearchCaptures(m, s + i, p, caps);
      MinCaptures(m, s, p, caps, i + 1, most);
    }
  }

  // ------------------------------------------------------ well-formed patterns

  /** Which captures are open. */
  function OpenFlags(caps: seq<Capture>): (f: seq<bool>)
    ensures |f| == |caps| && forall i :: 0 <= i < |f| ==> f[i] == (caps[i].len == CAP_UNFINISHED)
  {
    seq(|caps|, i requires 0 <= i < |caps| => caps[i].len == CAP_UNFINISHED)
  }

  function LastOpen(open: seq<bool>): (l: int)
    ensures -1 <= l < |open| && (l >= 0 ==> open[l]) && forall k :: l < k < |open| ==> !open[k]
  {
    if open == [] then -1 else if open[|open| - 1] then |open| - 1 else LastOpen(open[..|open| - 1])
  }

  /** The pattern is well formed from a position on, with given captures open: a check
      of the pattern alone. */
  predicate WellFormed(pat: seq<byte>, p: int, open: seq<bool>)
    requires 0 <= p <= |pat|
    decreases |pat| - p
  {
    var c, next := At(pat, p), At(pat, p + 1);
    if c == '(' as int then
      |open| < MAX_CAPTURES &&
      (if next == ')' as int then WellFormed(pat, p + 2, open + [false]) else WellFormed(pat, p + 1, open + [true]))
    else if c == ')' as int then
      var l := LastOpen(open); l >= 0 && WellFormed(pat, p + 1, open[l := false])
    else if c == ESC && next == 'b' as int then
      At(pat, p + 2) != 0 && At(pat, p + 3) != 0 && WellFormed(pat, p + 4, open)
    else if c == ESC && next == 'f' as int then
      At(pat, p + 2) == '[' as int && var e := ClassEnd(pat, p + 2); e.Ends? && WellFormed(pat, e.ep, open)
    else if c == ESC && IsDigit(next) then
      var l := next - '1' as int; 0 <= l < |open| && !open[l] && WellFormed(pat, p + 2, open)
    else if c == 0 || (c == '$' as int && next == 0) then true
    else
      var e := ClassEnd(pat, p);
      e.Ends? && WellFormed(pat, if IsSuffix(At(pat, e.ep)) then e.ep + 1 else e.ep, open)
  }

  predicate IsSuffix(c: byte) {
    c == '?' as int || c == '*' as int || c == '+' as int || c == '-' as int
  }

  lemma FlagsAfter(caps: seq<Capture>)
    ensures ToClose(caps) == LastOpen(OpenFlags(caps))
  {
  }

  lemma DemandWellFormed(m: Problem, s: int, p: int, caps: seq<Capture>)
    requires 0 <= s <= |m.src| && 0 <= p <= |m.pat| && WellFormed(m.pat, p, OpenFlags(caps)) && CapturesOk(caps, s)
    ensures var d := DemandAt(m, s, p, caps);
            && (d.Go? ==> WellFormed(m.pat, d.p, OpenFlags(d.caps)))
            && (d.Choose? ==> WellFormed(m.pat, d.ep + 1, OpenFlags(caps)))
            && (d.Stop? ==> !d.r.Raise?)
  {
    hide ClassEnd, MatchSet, SingleMatch, BalanceEnd, RunLength, ToClose, LastOpen, OpenFlags;
    var c, next := At(m.pat, p), At(m.pat, p + 1);
    FlagsAfter(caps);
    if c == '(' as int {
      var what := if next == ')' as int then CAP_POSITION else CAP_UNFINISHED;
      assert OpenFlags(caps + [Capture(s, what)]) == OpenFlags(caps) + [what == CAP_UNFINISHED];
    } else if c == ')' as int {
      var l := ToClose(caps);
      assert OpenFlags(caps[l := Capture(caps[l].init, s - caps[l].init)]) == OpenFlags(caps)[l := false];
    }
  }

  /** A well-formed pattern never raises an error. */
  lemma {:induction false} WellFormedNeverRaises(m: Problem, s: int, p: int, caps: seq<Capture>)
    requires 0 <= s <= |m.src| && 0 <= p <= |m.pat| && WellFormed(m.pat, p, OpenFlags(caps)) && CapturesOk(caps, s)
    ensures !Search(m, s, p, caps).Raise?
    decreases |m.pat| - p, |m.src| + 3
  {
    var d := DemandAt(m, s, p, caps);
    DemandWellFormed(m, s, p, caps);
    DemandCaptures(m, s, p, caps);
    if d.Go? {
      WellFormedNeverRaises(m, d.s, d.p, d.caps);
    } else if d.Choose? {
      if d.greedy { MaxNeverRaises(m, d.s, d.ep + 1, caps, d.most); }
      else { MinNeverRaises(m, d.s, d.ep + 1, caps, 0, d.most); }
    }
  }

  lemma {:induction false} MaxNeverRaises(m: Problem, s: int, p: int, caps: seq<Capture>, i: int)
    requires 0 <= s && -1 <= i && s + i <= |m.src| && 0 <= p <= |m.pat| && WellFormed(m.pat, p, OpenFlags(caps))
             && CapturesOk(caps, s)
    ensures !MaxExpand(m, s, p, caps, i).Raise?
    decreases |m.pat| - p, |m.src| + 4 + i
  {
    if i >= 0 {
      assert CapturesOk(caps, s + i);
      WellFormedNeverRaises(m, s + i, p, caps);
      MaxNeverRaises(m, s, p, caps, i - 1);
    }
  }

  lemma {:induction false} MinNeverRaises(m: Problem, s: int, p: int, caps: seq<Capture>, i: int, most: int)
    requires 0 <= s && 0 <= i && s + most <= |m.src| && 0 <= p <= |m.pat| && WellFormed(m.pat, p, OpenFlags(caps))
             && CapturesOk(caps, s)
    ensures !MinExpand(m, s, p, caps, i, most).Raise?
    decreases |m.pat| - p, |m.src| + 4 + if i <= most then most - i + 1 else 0
  {
    if i <= most {
      assert CapturesOk(caps, s + i);
      WellFormedNeverRaises(m, s + i, p, caps);
      MinNeverRaises(m, s, p, caps, i + 1, most);
    }
  }
}
