/** The single-character items of string patterns. */
module PatternClasses {

  type byte = x: int | 0 <= x < 256

  const ESC: byte := '%' as int

  /** Patterns end at a zero byte; reading the terminator gives zero. */
  function At(p: seq<byte>, i: int): byte {
    if 0 <= i < |p| then p[i] else 0
  }

  datatype Error =
    | EndsWithEsc | MissingBracket | MissingFrontierSet | Unbalanced
    | InvalidCaptureIndex | InvalidPatternCapture | TooManyCaptures

  datatype ClassEndResult = Ends(ep: int) | Malformed(e: Error)

  /** The end of a set, from a position inside it. The first character does not end it. */
  function SetEnd(p: seq<byte>, q: int): (r: ClassEndResult)
    requires 0 <= q
    ensures r.Ends? ==> q + 2 <= r.ep <= |p|
    decreases |p| - q
  {
    if At(p, q) == 0 then Malformed(MissingBracket)
    else
      var q2 := if At(p, q) == ESC && At(p, q + 1) != 0 then q + 2 else q + 1;
      if At(p, q2) == ']' as int then Ends(q2 + 1) else SetEnd(p, q2)
  }

  /** Where the item that starts at `q` ends. */
  function ClassEnd(p: seq<byte>, q: int): (r: ClassEndResult)
    requires 0 <= q && At(p, q) != 0
    ensures r.Ends? ==> q < r.ep <= |p|
  {
    if At(p, q) == ESC then
      if At(p, q + 1) == 0 then Malformed(EndsWithEsc) else Ends(q + 2)
    else if At(p, q) == '[' as int then
      SetEnd(p, if At(p, q + 1) == '^' as int then q + 2 else q + 1)
    else Ends(q + 1)
  }

  predicate Between(c: int, lo: char, hi: char) {
    lo as int <= c <= hi as int
  }

  predicate IsLower(c: int) { Between(c, 'a', 'z') }

  predicate IsUpper(c: int) { Between(c, 'A', 'Z') }

  predicate IsAlpha(c: int) { IsLower(c) || IsUpper(c) }

  predicate IsDigit(c: int) { Between(c, '0', '9') }

  predicate IsSpace(c: int) { c == ' ' as int || 9 <= c <= 13 }

  predicate IsControl(c: int) { c < 32 || c == 127 }

  predicate IsPunct(c: int) { 32 < c < 127 && !IsAlpha(c) && !IsDigit(c) }

  function ToLower(c: int): int {
    if IsUpper(c) then c + 32 else c
  }

  /** The letters of character classes, in the C locale; an upper-case letter is the
      complement of its class, and other characters stand for themselves. */
  predicate MatchClass(c: byte, cl: byte) {
    var k := ToLower(cl);
    if k == 'a' as int then IsAlpha(c) == IsLower(cl)
    else if k == 'c' as int then IsControl(c) == IsLower(cl)
    else if k == 'd' as int then IsDigit(c) == IsLower(cl)
    else if k == 'l' as int then IsLower(c) == IsLower(cl)
    else if k == 'p' as int then IsPunct(c) == IsLower(cl)
    else if k == 's' as int then IsSpace(c) == IsLower(cl)
    else if k == 'u' as int then IsUpper(c) == IsLower(cl)
    else if k == 'w' as int then (IsAlpha(c) || IsDigit(c)) == IsLower(cl)
    else if k == 'x' as int then (IsDigit(c) || Between(ToLower(c), 'a', 'f')) == IsLower(cl)
    else if k == 'z' as int then (c == 0) == IsLower(cl)
    else cl == c
  }

  /** Whether a member of the set from `q` up to `ec`, its closing bracket, is `c`. */
  predicate InSet(c: byte, p: seq<byte>, q: int, ec: int)
    decreases ec - q
  {
    if q >= ec then false
    else if At(p, q) == ESC then
      MatchClass(c, At(p, q + 1)) || InSet(c, p, q + 2, ec)
    else if At(p, q + 1) == '-' as int && q + 2 < ec then
      At(p, q) <= c <= At(p, q + 2) || InSet(c, p, q + 3, ec)
    else
      At(p, q) == c || InSet(c, p, q + 1, ec)
  }

  predicate MatchSet(c: byte, p: seq<byte>, q: int, ec: int) {
    if At(p, q + 1) == '^' as int then !InSet(c, p, q + 2, ec) else InSet(c, p, q + 1, ec)
  }

  /** Whether a character matches the item from `q` to `ep`. */
  predicate SingleMatch(c: byte, p: seq<byte>, q: int, ep: int) {
    if At(p, q) == '.' as int then true
    else if At(p, q) == ESC then MatchClass(c, At(p, q + 1))
    else if At(p, q) == '[' as int then MatchSet(c, p, q, ep - 1)
    else At(p, q) == c
  }

  // --------------------------------------------------------- the C loops

  /** `classend`. */
  method FindClassEnd(p: seq<byte>, q: int) returns (r: ClassEndResult)
    requires 0 <= q && At(p, q) != 0
    ensures r == ClassEnd(p, q)
  {
    var i := q + 1;
    if At(p, q) == ESC {
      if At(p, i) == 0 { return Malformed(EndsWithEsc); }
      return Ends(i + 1);
    }
    if At(p, q) != '[' as int { return Ends(i); }
    if At(p, i) == '^' as int { i := i + 1; }
    ghost var start := i;
    var more := true;
    while more
      invariant 0 <= i <= |p|
      invariant SetEnd(p, start) == if more then SetEnd(p, i) else Ends(i + 1)
      decreases more, |p| - i
    {
      if At(p, i) == 0 { return Malformed(MissingBracket); }
      var c := At(p, i);
      i := i + 1;
      if c == ESC && At(p, i) != 0 { i := i + 1; }
      more := At(p, i) != ']' as int;
    }
    return Ends(i + 1);
  }

  /** `matchbracketclass`. */
  method MatchBracketClass(c: byte, p: seq<byte>, q: int, ec: int) returns (b: bool)
    ensures b == MatchSet(c, p, q, ec)
  {
    var sig, i := true, q;
    if At(p, q + 1) == '^' as int { sig, i := false, q + 1; }
    i := i + 1;
    ghost var start := i;
    while i < ec
      invariant InSet(c, p, start, ec) == InSet(c, p, i, ec)
      decreases ec - i
    {
      if At(p, i) == ESC {
        i := i + 1;
        if MatchClass(c, At(p, i)) { return sig; }
      } else if At(p, i + 1) == '-' as int && i + 2 < ec {
        i := i + 2;
        if At(p, i - 2) <= c <= At(p, i) { return sig; }
      } else if At(p, i) == c {
        return sig;
      }
      i := i + 1;
    }
    b := !sig;
  }

  method MatchSingle(c: byte, p: seq<byte>, q: int, ep: int) returns (b: bool)
    ensures b == SingleMatch(c, p, q, ep)
  {
    if At(p, q) == '.' as int { return true; }
    if At(p, q) == ESC { return MatchClass(c, At(p, q + 1)); }
    if At(p, q) == '[' as int {
      b := MatchBracketClass(c, p, q, ep - 1);
    } else {
      b := At(p, q) == c;
    }
  }
}
