/** Every way of writing a string literal, by the codes of its characters, and that all of
    them are read as the same text; and the form of `%q`. */
module EscapeSequences {
  import opened Common
  import opened QuotedStrings

  // ------------------------------------------------------------ one escape each

  /** The letter escapes: `\a \b \f \n \r \t \v`. */
  function LetterOf(c: int): Option<int> {
    match c
    case 7 => Some(97)
    case 8 => Some(98)
    case 12 => Some(102)
    case 10 => Some(110)
    case 13 => Some(114)
    case 9 => Some(116)
    case 11 => Some(118)
    case _ => None
  }

  predicate DigitByte(b: int) { 48 <= b <= 57 }

  /** A byte may be written plain, by its letter, by one to three digits, after a backslash
      that changes nothing, or, if it is a newline, as one after a backslash. */
  datatype Way = Plain | Letter | Digits(n: int) | Backslashed | Newline(nl: Bytes)

  /** The bytes a byte is written as, inside delimiters `del`. */
  function Spelled(c: Byte, way: Way, del: Byte): Option<Bytes> {
    match way
    case Plain => if c != del && c != 92 && c != 10 && c != 13 then Some([c]) else None
    case Letter => if LetterOf(c).Some? then Some([92, LetterOf(c).value]) else None
    case Digits(n) =>
      if n == 1 && c <= 9 then Some([92, 48 + c])
      else if n == 2 && c <= 99 then Some([92, 48 + c / 10, 48 + c % 10])
      else if n == 3 then Some([92, 48 + c / 100, 48 + c / 10 % 10, 48 + c % 10])
      else None
    case Backslashed =>
      if c !in {97, 98, 102, 110, 114, 116, 118} && !DigitByte(c) && c != 10 && c != 13 then Some([92, c]) else None
    case Newline(nl) =>
      if c == 10 && nl in {[10], [13], [10, 13], [13, 10]} then Some([92] + nl) else None
  }

  /** What comes next must not be taken for more of the same escape. */
  predicate StopsThere(way: Way, next: int) {
    match way
    case Digits(n) => n < 3 ==> !DigitByte(next)
    case Newline(nl) => nl == [10] ==> next != 13
    case _ => true
  }

  /** As `StopsThere`, also for a newline that a second one could complete. */
  predicate Apart(way: Way, next: int) {
    StopsThere(way, next) && (way == Newline([13]) ==> next != 10)
  }

  /** One byte, written in any way, is read as that byte. */
  lemma SpelledBack(c: Byte, way: Way, del: Byte, rest: Bytes, line: int)
    requires Spelled(c, way, del).Some? && del in {34, 39} && rest != [] && Apart(way, rest[0])
    ensures ReadChars(Spelled(c, way, del).value + rest, del, line) ==
            if !way.Newline? then Prefixed([c], ReadChars(rest, del, line))
            else if line + 1 >= 2147483645 then Failed(TooManyLines)
            else Prefixed([10], ReadChars(rest, del, line + 1))
  {
    var ts := Spelled(c, way, del).value + rest;
    match way
    case Plain => assert ts[1..] == rest;
    case Letter => assert ts[2..] == rest;
    case Backslashed => assert ts[2..] == rest;
    case Digits(n) => DigitsBack(c, n, del, rest, line);
    case Newline(nl) =>
      assert ts[1 + |nl|..] == rest;
      assert NewlineLength(ts[1..]) == |nl|;
  }

  lemma DigitsBack(c: Byte, n: int, del: Byte, rest: Bytes, line: int)
    requires Spelled(c, Digits(n), del).Some? && del in {34, 39} && rest != [] && (n < 3 ==> !DigitByte(rest[0]))
    ensures ReadChars(Spelled(c, Digits(n), del).value + rest, del, line) == Prefixed([c], ReadChars(rest, del, line))
  {
    hide ReadChars;
    var d := Spelled(c, Digits(n), del).value[1..];
    assert [92] + d == Spelled(c, Digits(n), del).value;
    DigitsOf(c, n, d, del);
    NumberRead(c, d, del, rest, line);
  }

  lemma DigitsOf(c: Byte, n: int, d: Bytes, del: Byte)
    requires Spelled(c, Digits(n), del) == Some([92] + d) && d == ([92] + d)[1..]
    ensures |d| == n && 1 <= n <= 3 && (forall i :: 0 <= i < n ==> QuotedStrings.IsDigit(d[i])) && Decimal(d) == c
  {
    hide Decimal;
    Recomposed(c);
    if n == 1 {
      assert d == [48 + c];
    } else if n == 2 {
      assert d == [48 + c / 10, 48 + c % 10];
    } else {
      assert d == [48 + c / 100, 48 + c / 10 % 10, 48 + c % 10];
    }
    DecimalIs(d);
  }

  lemma Recomposed(c: nat)
    ensures c == 10 * (c / 10) + c % 10 == 100 * (c / 100) + 10 * (c / 10 % 10) + c % 10
  {
  }

  lemma Decomposed(a: int, b: int, e: int)
    requires 0 <= a < 10 && 0 <= b < 10 && 0 <= e < 10
    ensures var c := 100 * a + 10 * b + e; c / 100 == a && c / 10 % 10 == b && c % 10 == e
  {
    assert (100 * a + 10 * b + e) / 10 == 10 * a + b;
  }

  /** One to three digits that are all there are, or three. */
  lemma NumberRead(c: Byte, d: Bytes, del: Byte, rest: Bytes, line: int)
    requires 1 <= |d| <= 3 && (forall i :: 0 <= i < |d| ==> QuotedStrings.IsDigit(d[i])) && Decimal(d) == c
    requires del in {34, 39} && rest != [] && (|d| < 3 ==> !DigitByte(rest[0]))
    ensures ReadChars([92] + d + rest, del, line) == Prefixed([c], ReadChars(rest, del, line))
  {
    hide Decimal;
    var ts := [92] + d + rest;
    assert ts[1..] == d + rest;
    assert DigitCount(ts[1..]) == |d|;
    assert ts[1..][..|d|] == d;
    assert ts[1 + |d|..] == rest;
  }

  function Value(digit: int): int { digit - 48 }

  lemma DecimalIs(d: Bytes)
    requires 1 <= |d| <= 3 && forall i :: 0 <= i < |d| ==> QuotedStrings.IsDigit(d[i])
    ensures |d| == 1 ==> Decimal(d) == Value(d[0])
    ensures |d| == 2 ==> Decimal(d) == 10 * Value(d[0]) + Value(d[1])
    ensures |d| == 3 ==> Decimal(d) == 100 * Value(d[0]) + 10 * Value(d[1]) + Value(d[2])
  {
    assert Decimal(d[..0]) == 0;
    assert Decimal(d[..1]) == Value(d[0]) by { assert d[..1][..0] == []; }
    if |d| > 1 { assert Decimal(d[..2]) == 10 * Decimal(d[..1]) + Value(d[1]) by { assert d[..2][..1] == d[..1]; } }
    assert d[..|d|] == d;
  }

  /** A number above 255 is an error. */
  lemma TooLarge(x: Byte, y: Byte, z: Byte, del: Byte, rest: Bytes, line: int)
    requires DigitByte(x) && DigitByte(y) && DigitByte(z) && del in {34, 39}
    requires 100 * Value(x) + 10 * Value(y) + Value(z) > 255
    ensures ReadChars([92, x, y, z] + rest, del, line) == Failed(EscapeTooLarge)
  {
    var ts := [92, x, y, z] + rest;
    assert ts[1..][..3] == [x, y, z] && DigitCount(ts[1..]) == 3;
    DecimalIs([x, y, z]);
  }

  /** A string ends at its delimiter; a newline or the end of the input before that is an error. */
  lemma Endings(del: Byte, b: Byte, rest: Bytes, line: int)
    requires del in {34, 39} && (b == 10 || b == 13)
    ensures ReadChars([del] + rest, del, line) == Done([], rest, line)
    ensures ReadChars([b] + rest, del, line) == Failed(UnfinishedString)
    ensures ReadChars([], del, line) == Failed(UnfinishedAtEnd) && ReadChars([92], del, line) == Failed(UnfinishedAtEnd)
  {
    assert ([del] + rest)[1..] == rest;
  }

  // ------------------------------------------------------------- whole literals

  /** A text written with one way for each byte, up to its delimiter. */
  function Literal(text: Bytes, ways: seq<Way>, del: Byte): Option<Bytes>
    requires |ways| == |text|
    decreases |text|
  {
    if text == [] then Some([del])
    else
      var here, more := Spelled(text[0], ways[0], del), Literal(text[1..], ways[1..], del);
      if here.Some? && more.Some? && more.value != [] && Apart(ways[0], more.value[0])
      then Some(here.value + more.value) else None
  }

  function NewlineWays(ways: seq<Way>): nat {
    if ways == [] then 0 else (if ways[0].Newline? then 1 else 0) + NewlineWays(ways[1..])
  }

  /** However a literal is written, it is read as its text, and the lines are counted. */
  lemma {:induction false} LiteralBack(text: Bytes, ways: seq<Way>, del: Byte, rest: Bytes, line: int)
    requires |ways| == |text| && del in {34, 39} && Literal(text, ways, del).Some?
    requires line + NewlineWays(ways) < 2147483645
    ensures ReadChars(Literal(text, ways, del).value + rest, del, line) == Done(text, rest, line + NewlineWays(ways))
    decreases |text|
  {
    hide ReadChars, Spelled;
    if text == [] {
      Endings(del, 10, rest, line);
    } else {
      var here, more := Spelled(text[0], ways[0], del).value, Literal(text[1..], ways[1..], del).value;
      assert here + more + rest == here + (more + rest);
      SpelledBack(text[0], ways[0], del, more + rest, line);
      if ways[0].Newline? { NewlineIsNewline(text[0], ways[0], del); }
      LiteralBack(text[1..], ways[1..], del, rest, if ways[0].Newline? then line + 1 else line);
      assert text == [text[0]] + text[1..];
    }
  }

  lemma NewlineIsNewline(c: Byte, way: Way, del: Byte)
    requires Spelled(c, way, del).Some? && way.Newline?
    ensures c == 10
  {
  }

  /** How the byte at the front of `ts` is written. */
  function WayOf(ts: Bytes): Way
    requires ts != []
  {
    if ts[0] != 92 || |ts| == 1 then Plain
    else if ts[1] in {97, 98, 102, 110, 114, 116, 118} then Letter
    else if DigitByte(ts[1]) then Digits(DigitCount(ts[1..]))
    else if IsNewline(ts[1]) then Newline(ts[1..][..NewlineLength(ts[1..])])
    else Backslashed
  }

  /** One step of reading takes one way of writing one byte. */
  lemma TakesOne(ts: Bytes, del: Byte, line: int) returns (c: Byte, after: Bytes, next: int)
    requires del in {34, 39} && ReadChars(ts, del, line).Done? && ts[0] != del
    ensures ReadChars(ts, del, line) == Prefixed([c], ReadChars(after, del, next)) && |after| < |ts|
    ensures ReadChars(after, del, next).Done? && after != []
    ensures next == if WayOf(ts).Newline? then line + 1 else line
    ensures Spelled(c, WayOf(ts), del).Some? && ts == Spelled(c, WayOf(ts), del).value + after
    ensures Apart(WayOf(ts), after[0])
  {
    match WayOf(ts)
    case Plain => c, after, next := ts[0], ts[1..], line;
    case Letter => c, after, next := Control(ts[1]), ts[2..], line;
    case Backslashed => c, after, next := ts[1], ts[2..], line;
    case Digits(n) => c, after := TakesDigits(ts, del, line); next := line;
    case Newline(nl) => after := TakesNewline(ts, del, line); c, next := 10, line + 1;
  }

  lemma TakesDigits(ts: Bytes, del: Byte, line: int) returns (c: Byte, after: Bytes)
    requires del in {34, 39} && ReadChars(ts, del, line).Done? && ts[0] == 92 && |ts| > 1 && DigitByte(ts[1])
    ensures ReadChars(ts, del, line) == Prefixed([c], ReadChars(after, del, line)) && |after| < |ts| && after != []
    ensures Spelled(c, Digits(DigitCount(ts[1..])), del).Some?
    ensures ts == Spelled(c, Digits(DigitCount(ts[1..])), del).value + after
    ensures Apart(Digits(DigitCount(ts[1..])), after[0])
  {
    var n := DigitCount(ts[1..]);
    var d := ts[1..][..n];
    after := ts[1 + n..];
    Positive(d);
    c := Decimal(d);
    assert ts == [92] + d + after;
    assert ReadChars([], del, line).Failed?;
    SpelledByDigits(c, d, del);
  }

  lemma SpelledByDigits(c: Byte, d: Bytes, del: Byte)
    requires 1 <= |d| <= 3 && (forall i :: 0 <= i < |d| ==> QuotedStrings.IsDigit(d[i])) && Decimal(d) == c
    ensures Spelled(c, Digits(|d|), del) == Some([92] + d)
  {
    hide Decimal;
    DecimalIs(d);
    if |d| == 1 {
      assert [92] + d == [92, d[0]];
    } else if |d| == 2 {
      Decomposed(0, Value(d[0]), Value(d[1]));
      assert [92] + d == [92, d[0], d[1]];
    } else {
      Decomposed(Value(d[0]), Value(d[1]), Value(d[2]));
      assert [92] + d == [92, d[0], d[1], d[2]];
    }
  }

  lemma TakesNewline(ts: Bytes, del: Byte, line: int) returns (after: Bytes)
    requires del in {34, 39} && ReadChars(ts, del, line).Done? && ts[0] == 92 && |ts| > 1 && IsNewline(ts[1])
    ensures ReadChars(ts, del, line) == Prefixed([10], ReadChars(after, del, line + 1)) && |after| < |ts|
    ensures var way := Newline(ts[1..][..NewlineLength(ts[1..])]);
            after != [] && Spelled(10, way, del).Some? && ts == Spelled(10, way, del).value + after
            && Apart(way, after[0])
  {
    var n := NewlineLength(ts[1..]);
    after := ts[1 + n..];
    assert ReadChars([], del, line + 1).Failed?;
    var nl := ts[1..][..n];
    assert ts == [92] + nl + after;
    assert nl == if n == 1 then [ts[1]] else [ts[1], ts[2]];
  }

  /** And whatever is read is a literal of its text: there are no other ways. */
  lemma {:induction false} ReadIsLiteral(ts: Bytes, del: Byte, line: int) returns (ways: seq<Way>)
    requires del in {34, 39} && ReadChars(ts, del, line).Done?
    ensures var r := ReadChars(ts, del, line);
            |ways| == |r.text| && Literal(r.text, ways, del).Some?
            && ts == Literal(r.text, ways, del).value + r.rest && r.line == line + NewlineWays(ways)
    decreases |ts|
  {
    if ts[0] == del {
      ways := [];
      assert ts == [del] + ts[1..];
    } else {
      hide ReadChars, Spelled, WayOf;
      var c, after, next := TakesOne(ts, del, line);
      var more := ReadIsLiteral(after, del, next);
      ways := [WayOf(ts)] + more;
      OneMore(c, ReadChars(after, del, next).text, WayOf(ts), more, del, after, ReadChars(after, del, next).rest);
    }
  }

  lemma OneMore(c: Byte, text: Bytes, way: Way, ways: seq<Way>, del: Byte, after: Bytes, rest: Bytes)
    requires |ways| == |text| && Literal(text, ways, del).Some? && after == Literal(text, ways, del).value + rest
    requires Spelled(c, way, del).Some? && after != [] && Apart(way, after[0])
    ensures Literal([c] + text, [way] + ways, del).Some?
    ensures Literal([c] + text, [way] + ways, del).value + rest == Spelled(c, way, del).value + after
    ensures NewlineWays([way] + ways) == (if way.Newline? then 1 else 0) + NewlineWays(ways)
  {
    hide Spelled, Apart;
    assert ([c] + text)[1..] == text && ([way] + ways)[1..] == ways;
    EndsInDelimiter(text, ways, del);
  }

  lemma EndsInDelimiter(text: Bytes, ways: seq<Way>, del: Byte)
    requires |ways| == |text| && Literal(text, ways, del).Some?
    ensures Literal(text, ways, del).value != []
  {
  }

  /** Every text can be written, with three digits for each byte. */
  lemma {:induction false} AllDigits(text: Bytes, del: Byte)
    ensures Literal(text, seq(|text|, i => Digits(3)), del).Some?
    decreases |text|
  {
    if text != [] {
      AllDigits(text[1..], del);
      assert seq(|text|, i => Digits(3))[1..] == seq(|text| - 1, i => Digits(3));
    }
  }

  // ------------------------------------------------------------- the form of %q

  function QuotedByte(c: Byte): Bytes {
    match c
    case 34 => [92, 34]
    case 92 => [92, 92]
    case 10 => [92, 10]
    case 13 => [92, 114]
    case 0 => [92, 48, 48, 48]
    case _ => [c]
  }

  function QuotedBytes(s: Bytes): Bytes {
    if s == [] then [] else QuotedBytes(s[..|s| - 1]) + QuotedByte(s[|s| - 1])
  }

  /** `%q` writes a quote, a backslash and a newline after a backslash, a carriage return as
      `\r` and a zero as `\000`, and any other byte as it is, between quotes. */
  lemma {:induction false} QuotedForm(s: Bytes)
    ensures Quoted(s) == [34] + QuotedBytes(s) + [34]
    decreases |s|
  {
    if s != [] {
      EscapedUpTo(s, |s| - 1);
      assert s[..|s|] == s;
      QuotedForm(s[..|s| - 1]);
      SameInside(EscapedAll(s[..|s| - 1]), QuotedBytes(s[..|s| - 1]));
    }
  }

  lemma SameInside(a: Bytes, b: Bytes)
    requires [34] + a + [34] == [34] + b + [34]
    ensures a == b
  {
    assert a == ([34] + a + [34])[1..|a| + 1] && b == ([34] + b + [34])[1..|b| + 1];
    assert |[34] + a + [34]| == |a| + 2 && |[34] + b + [34]| == |b| + 2;
  }
}
