/** The backtracking matcher, with its captures on a stack that it updates in place. */
module PatternMatcher {
  import opened PatternClasses
  import opened PatternSearch
  import opened PatternDerivation

  /** What the matcher returns: an end, no match, or an error raised. */
  datatype Outcome = Found(e: int) | NotFound | Raised(error: Error)

  lemma {:induction false} RunStep(m: Problem, s: int, q: int, ep: int, i: int)
    requires 0 <= s && 0 <= i && s + i <= |m.src| && i <= RunLength(m, s, q, ep)
    ensures RunLength(m, s, q, ep) == i + RunLength(m, s + i, q, ep)
    decreases i
  {
    if i > 0 { RunStep(m, s + 1, q, ep, i - 1); }
  }

  class MatchState {
    const src: seq<byte>
    const pat: seq<byte>
    var level: int
    const capture: array<Capture>

    ghost predicate Valid()
      reads this
    {
      capture.Length == MAX_CAPTURES && 0 <= level <= MAX_CAPTURES
    }

    /** The captures on the stack. */
    ghost function Caps(): seq<Capture>
      reads this, capture
      requires Valid()
    {
      capture[..level]
    }

    function Task(): Problem { Problem(src, pat) }

    /** The outcome is that of the search; if it fails, the captures are as before. */
    ghost predicate Agrees(r: Outcome, spec: Result, before: seq<Capture>)
      reads this, capture
      requires Valid()
    {
      match spec
      case Match(e, caps) => r == Found(e) && Caps() == caps
      case Fail => r == NotFound && Caps() == before
      case Raise(x) => r == Raised(x)
    }

    constructor (s: seq<byte>, p: seq<byte>)
      ensures Valid() && src == s && pat == p && Caps() == [] && fresh(capture)
    {
      src, pat, level := s, p, 0;
      capture := new Capture[MAX_CAPTURES](_ => Capture(0, 0));
    }

    /** The index of a capture that a back-reference may use, or -1. */
    method CheckCapture(digit: int) returns (l: int)
      requires Valid()
      ensures l == -1 || (0 <= l < level && l == digit - '1' as int && Caps()[l].len != CAP_UNFINISHED)
      ensures l == -1 <==> digit - '1' as int < 0 || digit - '1' as int >= level
                           || Caps()[digit - '1' as int].len == CAP_UNFINISHED
    {
      l := digit - '1' as int;
      if l < 0 || l >= level || capture[l].len == CAP_UNFINISHED { return -1; }
    }

    method CaptureToClose() returns (l: int)
      requires Valid()
      ensures l == ToClose(Caps())
    {
      l := level - 1;
      while l >= 0
        invariant -1 <= l < level && ToClose(Caps()) == ToClose(capture[..l + 1])
      {
        if capture[l].len == CAP_UNFINISHED { return; }
        assert capture[..l + 1][..l] == capture[..l];
        l := l - 1;
      }
    }

    method MatchBalance(s: int, p: int) returns (r: Outcome)
      requires 0 <= s <= |src| && 0 <= p
      ensures var d := Balanced(Task(), s, p, []);
              match d
              case Stop(Raise(x)) => r == Raised(x)
              case Stop(_) => r == NotFound
              case Go(e, _, _) => r == Found(e)
              case _ => false
    {
      var b, e := At(pat, p + 2), At(pat, p + 3);
      if b == 0 || e == 0 { return Raised(Unbalanced); }
      if At(src, s) != b { return NotFound; }
      var cont, i := 1, s + 1;
      while i < |src|
        invariant s + 1 <= i && (s < |src| ==> i <= |src|)
        invariant BalanceEnd(src, i, b, e, cont) == BalanceEnd(src, s + 1, b, e, 1)
        decreases |src| - i
      {
        if src[i] == e {
          cont := cont - 1;
          if cont == 0 { return Found(i + 1); }
        } else if src[i] == b {
          cont := cont + 1;
        }
        i := i + 1;
      }
      r := NotFound;
    }

    /** The end of the captured text when it is repeated at `s`. */
    method MatchCapture(s: int, digit: int) returns (r: Outcome)
      requires Valid() && 0 <= s <= |src| && CapturesOk(Caps(), s)
      ensures var d := Backreference(Task(), s, 0, Caps(), digit);
              match d
              case Stop(Raise(x)) => r == Raised(x)
              case Stop(_) => r == NotFound
              case Go(e, _, _) => r == Found(e)
              case _ => false
    {
      var l := CheckCapture(digit);
      if l == -1 { return Raised(InvalidCaptureIndex); }
      var c := capture[l];
      assert c == Caps()[l];
      // The length of a position capture reads as a huge number.
      if c.len >= 0 && |src| - s >= c.len && src[c.init..c.init + c.len] == src[s..s + c.len] {
        r := Found(s + c.len);
      } else {
        r := NotFound;
      }
    }

    method StartCapture(s: int, p: int, what: int) returns (r: Outcome)
      requires Valid() && 0 <= s <= |src| && 0 <= p <= |pat| && CapturesOk(Caps(), s)
               && (what == CAP_UNFINISHED || what == CAP_POSITION)
      modifies this`level, capture
      ensures Valid()
      ensures var d := Opened(Task(), s, p, old(Caps()), what);
              Agrees(r, if d.Go? then Search(Task(), s, p, d.caps) else Raise(TooManyCaptures), old(Caps()))
      decreases |pat| - p, 2
    {
      hide Search;
      if level >= MAX_CAPTURES { return Raised(TooManyCaptures); }
      ghost var before := Caps();
      capture[level] := Capture(s, what);
      level := level + 1;
      assert Caps() == before + [Capture(s, what)];
      r := Match(s, p);
      if r.NotFound? {
        level := level - 1;
        assert Caps() == (before + [Capture(s, what)])[..|before|];
      }
    }

    method EndCapture(s: int, p: int) returns (r: Outcome)
      requires Valid() && 0 <= s <= |src| && 0 <= p <= |pat| && CapturesOk(Caps(), s)
      modifies this`level, capture
      ensures Valid()
      ensures var d := Closed(Task(), s, p, old(Caps()));
              Agrees(r, if d.Go? then Search(Task(), s, p, d.caps) else Raise(InvalidPatternCapture), old(Caps()))
      decreases |pat| - p, 2
    {
      hide Search;
      var l := CaptureToClose();
      if l == -1 { return Raised(InvalidPatternCapture); }
      ghost var before := Caps();
      var init := capture[l].init;
      capture[l] := Capture(init, s - init);
      assert Caps() == before[l := Capture(init, s - init)];
      r := Match(s, p);
      if r.NotFound? {
        assert level == |before|;
        capture[l] := Capture(capture[l].init, CAP_UNFINISHED);
        assert Caps() == before;
      }
    }

    /** Try the longest repetition of an item, then shorter ones. */
    method MaxExpandAt(s: int, q: int, ep: int) returns (r: Outcome)
      requires Valid() && 0 <= s <= |src| && 0 <= ep < |pat| && CapturesOk(Caps(), s)
      modifies this`level, capture
      ensures Valid()
      ensures Agrees(r, MaxExpand(Task(), s, ep + 1, old(Caps()), RunLength(Task(), s, q, ep)), old(Caps()))
      decreases |pat| - (ep + 1), 2
    {
      var i := 0;
      var more := s < |src|;
      if more { more := MatchSingle(src[s], pat, q, ep); }
      while more
        invariant Valid() && Caps() == old(Caps()) && 0 <= i <= RunLength(Task(), s, q, ep) && s + i <= |src|
        invariant RunLength(Task(), s, q, ep) == i + RunLength(Task(), s + i, q, ep)
        invariant more <==> s + i < |src| && SingleMatch(src[s + i], pat, q, ep)
        decreases |src| - s - i
      {
        i := i + 1;
        more := s + i < |src|;
        if more { more := MatchSingle(src[s + i], pat, q, ep); }
      }
      while i >= 0
        invariant Valid() && Caps() == old(Caps()) && -1 <= i && s + i <= |src|
        invariant MaxExpand(Task(), s, ep + 1, old(Caps()), i) == MaxExpand(Task(), s, ep + 1, old(Caps()),
                                                                            RunLength(Task(), s, q, ep))
      {
        r := Match(s + i, ep + 1);
        if r != NotFound { return; }
        i := i - 1;
      }
      r := NotFound;
    }

    /** Try the shortest repetition of an item, then longer ones. */
    method MinExpandAt(s: int, q: int, ep: int) returns (r: Outcome)
      requires Valid() && 0 <= s <= |src| && 0 <= ep < |pat| && CapturesOk(Caps(), s)
      modifies this`level, capture
      ensures Valid()
      ensures Agrees(r, MinExpand(Task(), s, ep + 1, old(Caps()), 0, RunLength(Task(), s, q, ep)), old(Caps()))
      decreases |pat| - (ep + 1), 2
    {
      var t := s;
      ghost var most := RunLength(Task(), s, q, ep);
      while true
        invariant Valid() && Caps() == old(Caps()) && s <= t <= s + most <= |src|
        invariant MinExpand(Task(), s, ep + 1, old(Caps()), t - s,
                            most) == MinExpand(Task(), s, ep + 1, old(Caps()), 0, most)
        decreases |src| - t
      {
        r := Match(t, ep + 1);
        if r != NotFound { return; }
        RunStep(Task(), s, q, ep, t - s);
        var more := t < |src|;
        if more { more := MatchSingle(src[t], pat, q, ep); }
        if !more { return NotFound; }
        t := t + 1;
      }
    }

    /** One item and its suffix: the outcome, or where the loop of `Match` goes on. */
    method MatchItem(s: int, p: int) returns (r: Outcome, goOn: bool, s1: int, p1: int)
      requires Valid() && 0 <= s <= |src| && 0 <= p <= |pat| && At(pat, p) != 0 && CapturesOk(Caps(), s)
      requires Search(Task(), s, p, Caps()) == AfterItem(Task(), Repeated(Task(), s, p, Caps()), Caps())
      requires var d := Repeated(Task(), s, p, Caps()); InBounds(Task(), d, p)
      modifies this`level, capture
      ensures Valid()
      ensures goOn ==> Caps() == old(Caps()) && s <= s1 <= |src| && p < p1 <= |pat|
      ensures goOn ==> Search(Task(), s1, p1, Caps()) == Search(Task(), s, p, old(Caps()))
      ensures !goOn ==> Agrees(r, Search(Task(), s, p, old(Caps())), old(Caps()))
      decreases |pat| - p, 0
    {
      hide SetEnd, ClassEnd, MatchSet, SingleMatch, BalanceEnd, RunLength, Search, MinExpand, DemandAt;
      r, goOn, s1, p1 := NotFound, false, s, p;
      var c := FindClassEnd(pat, p);
      if c.Malformed? { r := Raised(c.e); return; }
      var ep := c.ep;
      var m := s < |src|;
      if m { m := MatchSingle(src[s], pat, p, ep); }
      var suffix := At(pat, ep);
      if suffix == '?' as int {
        if m {
          r := Match(s + 1, ep + 1);
          if r != NotFound { return; }
        }
        assert MaxExpand(Task(), s, ep + 1, Caps(), 0) == Search(Task(), s, ep + 1, Caps());
        goOn, s1, p1 := true, s, ep + 1;
      } else if suffix == '*' as int {
        r := MaxExpandAt(s, p, ep);
      } else if suffix == '+' as int {
        if m { r := MaxExpandAt(s + 1, p, ep); }
      } else if suffix == '-' as int {
        r := MinExpandAt(s, p, ep);
      } else if m {
        goOn, s1, p1 := true, s + 1, ep;
      }
    }

    method Match(start: int, from: int) returns (r: Outcome)
      requires Valid() && 0 <= start <= |src| && 0 <= from <= |pat| && CapturesOk(Caps(), start)
      modifies this`level, capture
      ensures Valid()
      ensures Agrees(r, Search(Task(), start, from, old(Caps())), old(Caps()))
      decreases |pat| - from, 1
    {
      hide SetEnd, ClassEnd, MatchSet, SingleMatch, BalanceEnd, RunLength, ToClose, Search, MaxExpand, MinExpand,
        CapturesOk;
      var s, p := start, from;
      while true
        invariant Valid() && Caps() == old(Caps()) && start <= s <= |src| && from <= p <= |pat| && CapturesOk(Caps(), s)
        invariant Search(Task(), s, p, Caps()) == Search(Task(), start, from, old(Caps()))
        decreases |pat| - p
      {
        var c, next := At(pat, p), At(pat, p + 1);
        DemandCaptures(Task(), s, p, Caps());
        SearchUnfold(Task(), s, p, Caps());
        ghost var at := s;
        if c == '(' as int {
          if next == ')' as int {
            r := StartCapture(s, p + 2, CAP_POSITION);
          } else {
            r := StartCapture(s, p + 1, CAP_UNFINISHED);
          }
          return;
        } else if c == ')' as int {
          r := EndCapture(s, p + 1);
          return;
        } else if c == ESC && next == 'b' as int {
          r := MatchBalance(s, p);
          if !r.Found? { return; }
          s, p := r.e, p + 4;
        } else if c == ESC && next == 'f' as int {
          p := p + 2;
          if At(pat, p) != '[' as int { return Raised(MissingFrontierSet); }
          var e := FindClassEnd(pat, p);
          if e.Malformed? { return Raised(e.e); }
          var before := MatchBracketClass(Previous(src, s), pat, p, e.ep - 1);
          var here := MatchBracketClass(At(src, s), pat, p, e.ep - 1);
          if before || !here { return NotFound; }
          p := e.ep;
        } else if c == ESC && IsDigit(next) {
          r := MatchCapture(s, next);
          if !r.Found? { return; }
          s, p := r.e, p + 2;
        } else if c == 0 {
          return Found(s);
        } else if c == '$' as int && next == 0 {
          return if s == |src| then Found(s) else NotFound;
        } else {
          var goOn;
          r, goOn, s, p := MatchItem(s, p);
          if !goOn { return; }
        }
        CapturesLater(Caps(), at, s);
      }
    }

    /** `string.find` and `string.match`: the first start from `init` on with a match, and
        there the first derivation; only `init` itself for a pattern that starts with `^`. */
    method Find(init: int) returns (start: int, r: Outcome)
      requires Valid() && 0 <= init <= |src|
      modifies this`level, capture
      ensures Valid() && init <= start <= |src| && First() == (if Anchored() then 1 else 0)
      ensures Anchored() <==> pat != [] && pat[0] == 94
      ensures Anchored() ==> start == init
      ensures forall k :: init <= k < start ==> NoDerivation(Task(), k, First(), [])
      ensures r.NotFound? ==> NoDerivation(Task(), start, First(), []) && (Anchored() || start == |src|)
      ensures r.Found? ==> exists ch :: IsFirst(Task(), start, First(), [], ch, Result.Match(r.e, Caps()))
      ensures r.Raised? ==> exists ch :: IsFirst(Task(), start, First(), [], ch, Raise(r.error))
      ensures r.Found? ==> start <= r.e <= |src| && CapturesOk(Caps(), r.e)
    {
      hide Search, NoDerivation, IsFirst;
      var p := First();
      start := init;
      while true
        invariant Valid() && init <= start <= |src| && (Anchored() ==> start == init)
        invariant forall k :: init <= k < start ==> NoDerivation(Task(), k, First(), [])
        decreases |src| - start
      {
        level := 0;
        assert Caps() == [];
        r := Match(start, p);
        ghost var ch := SearchIsFirst(Task(), start, p, []);
        SearchCaptures(Task(), start, p, []);
        if r != NotFound || start >= |src| || Anchored() { return; }
        start := start + 1;
      }
    }

    predicate Anchored() { At(pat, 0) == '^' as int }

    function First(): int
      ensures 0 <= First() <= |pat|
    {
      if Anchored() then 1 else 0
    }
  }

  lemma SearchUnfold(m: Problem, s: int, p: int, caps: seq<Capture>)
    requires 0 <= s <= |m.src| && 0 <= p <= |m.pat|
    ensures var d := DemandAt(m, s, p, caps); InBounds(m, d, p) && Search(m, s, p, caps) == AfterItem(m, d, caps)
  {
  }

  lemma CapturesLater(caps: seq<Capture>, s: int, t: int)
    requires CapturesOk(caps, s) && s <= t
    ensures CapturesOk(caps, t)
  {
  }

  /** The search after the demand of an item. */
  function AfterItem(m: Problem, d: Demand, caps: seq<Capture>): Result
    requires InBounds(m, d, 0)
  {
    match d
    case Stop(r) => r
    case Go(s, p, c) => Search(m, s, p, c)
    case Choose(greedy, s, q, ep, most) =>
      if greedy then MaxExpand(m, s, ep + 1, caps, most) else MinExpand(m, s, ep + 1, caps, 0, most)
  }

  predicate InBounds(m: Problem, d: Demand, p: int) {
    && (d.Go? ==> 0 <= d.s <= |m.src| && p <= d.p <= |m.pat| && 0 <= d.p)
    && (d.Choose? ==> 0 <= d.s && 0 <= d.most && d.s + d.most <= |m.src| && p < d.ep + 1 <= |m.pat| && 0 <= d.ep + 1)
  }
}
