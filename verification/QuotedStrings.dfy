/** The `%q` format and the reading of string literals, which undoes it. */
module QuotedStrings {
  import opened Common

  type Byte = b: int | 0 <= b < 256
  type Bytes = seq<Byte>

  const EOZ: int := -1
  const QUOTE: Byte := 34
  const BACKSLASH: Byte := 92
  const LF: Byte := 10
  const CR: Byte := 13
  const ZERO: Byte := 48

  // ----------------------------------------------------------------- quoting

  function Escaped(c: Byte): Bytes {
    if c == QUOTE || c == BACKSLASH || c == LF then [BACKSLASH, c]
    else if c == CR then [BACKSLASH, 114]
    else if c == 0 then [BACKSLASH, ZERO, ZERO, ZERO]
    else [c]
  }

  function EscapedAll(s: Bytes): Bytes {
    if s == [] then [] else Escaped(s[0]) + EscapedAll(s[1..])
  }

  function Quoted(s: Bytes): Bytes { [QUOTE] + EscapedAll(s) + [QUOTE] }

  lemma {:induction false} EscapedUpTo(s: Bytes, i: nat)
    requires i < |s|
    ensures EscapedAll(s[..i + 1]) == EscapedAll(s[..i]) + Escaped(s[i])
  {
    if i == 0 {
      assert s[..1] == [s[0]];
    } else {
      EscapedUpTo(s[1..], i - 1);
      assert s[..i + 1][1..] == s[1..][..i] && s[..i][1..] == s[1..][..i - 1];
    }
  }

  method AddQuoted(s: Bytes) returns (b: Bytes)
    ensures b == Quoted(s)
  {
    hide EscapedAll;
    b := [QUOTE];
    var l := 0;
    assert EscapedAll(s[..0]) == [] by { NoneEscaped(s); }
    while l < |s|
      invariant 0 <= l <= |s| && b == [QUOTE] + EscapedAll(s[..l])
    {
      EscapedUpTo(s, l);
      var c := s[l];
      if c == QUOTE || c == BACKSLASH || c == LF {
        b := b + [BACKSLASH];
        b := b + [c];
      } else if c == CR {
        b := b + [BACKSLASH, 114];
      } else if c == 0 {
        b := b + [BACKSLASH, ZERO, ZERO, ZERO];
      } else {
        b := b + [c];
      }
      l := l + 1;
    }
    assert s[..|s|] == s;
    b := b + [QUOTE];
  }

  lemma NoneEscaped(s: Bytes)
    ensures EscapedAll(s[..0]) == []
  {
  }

  // ----------------------------------------------------------------- reading

  datatype Error = UnfinishedAtEnd | UnfinishedString | EscapeTooLarge | TooManyLines

  /** The bytes of a string, what is after its delimiter, and the line there. */
  datatype ReadResult = Done(text: Bytes, rest: Bytes, line: int) | Failed(error: Error)

  function Prefixed(a: Bytes, r: ReadResult): ReadResult {
    if r.Done? then Done(a + r.text, r.rest, r.line) else r
  }

  predicate IsNewline(c: int) { c == LF || c == CR }

  predicate IsDigit(c: int) { 48 <= c <= 57 }

  predicate IsControlLetter(c: int) { c in {97, 98, 102, 110, 114, 116, 118} }

  /** What `\a`, `\b`, `\f`, `\n`, `\r`, `\t` and `\v` stand for. */
  function Control(c: int): Byte
    requires IsControlLetter(c)
  {
    if c == 97 then 7 else if c == 98 then 8 else if c == 102 then 12 else if c == 110 then 10
    else if c == 114 then 13 else if c == 116 then 9 else 11
  }

  /** A newline may be one byte or two different ones. */
  function NewlineLength(ts: Bytes): (n: nat)
    requires ts != [] && IsNewline(ts[0])
    ensures 1 <= n <= |ts|
  {
    if |ts| > 1 && IsNewline(ts[1]) && ts[1] != ts[0] then 2 else 1
  }

  /** Up to three digits. */
  function DigitCount(ts: Bytes): (n: nat)
    requires ts != [] && IsDigit(ts[0])
    ensures 1 <= n <= 3 && n <= |ts| && forall i :: 0 <= i < n ==> IsDigit(ts[i])
  {
    if |ts| == 1 || !IsDigit(ts[1]) then 1 else if |ts| == 2 || !IsDigit(ts[2]) then 2 else 3
  }

  function Decimal(ts: Bytes): int
    requires forall i :: 0 <= i < |ts| ==> IsDigit(ts[i])
  {
    if ts == [] then 0 else 10 * Decimal(ts[..|ts| - 1]) + (ts[|ts| - 1] - ZERO)
  }

  /** What is read up to a delimiter. */
  function ReadChars(ts: Bytes, del: Byte, line: int): ReadResult
    decreases |ts|
  {
    if ts == [] then Failed(UnfinishedAtEnd)
    else if ts[0] == del then Done([], ts[1..], line)
    else if IsNewline(ts[0]) then Failed(UnfinishedString)
    else if ts[0] != BACKSLASH then Prefixed([ts[0]], ReadChars(ts[1..], del, line))
    else if |ts| == 1 then Failed(UnfinishedAtEnd)
    else if IsControlLetter(ts[1]) then Prefixed([Control(ts[1])], ReadChars(ts[2..], del, line))
    else if IsNewline(ts[1]) then
      if line + 1 >= MAX_INT then Failed(TooManyLines)
      else Prefixed([LF], ReadChars(ts[1 + NewlineLength(ts[1..])..], del, line + 1))
    else if !IsDigit(ts[1]) then Prefixed([ts[1]], ReadChars(ts[2..], del, line))
    else
      var n := DigitCount(ts[1..]);
      var c := Decimal(ts[1..][..n]);
      if c > 255 then Failed(EscapeTooLarge)
      else
        Positive(ts[1..][..n]);
        Prefixed([c], ReadChars(ts[1 + n..], del, line))
  }

  lemma Positive(ts: Bytes)
    requires forall i :: 0 <= i < |ts| ==> IsDigit(ts[i])
    ensures Decimal(ts) >= 0
  {
  }

  // -------------------------------------------------------------- round trip

  function Newlines(s: Bytes): nat {
    if s == [] then 0 else (if s[0] == LF then 1 else 0) + Newlines(s[1..])
  }

  /** One quoted byte is read back, whatever follows. */
  lemma CharBack(c: Byte, rest: Bytes, line: int)
    requires rest != [] && !IsNewline(rest[0])
    ensures ReadChars(Escaped(c) + rest, QUOTE, line) ==
            if c == LF && line + 1 >= MAX_INT then Failed(TooManyLines)
            else Prefixed([c], ReadChars(rest, QUOTE, if c == LF then line + 1 else line))
  {
    var ts := Escaped(c) + rest;
    if c == QUOTE || c == BACKSLASH || c == CR {
      assert ts[2..] == rest;
    } else if c == LF {
      assert ts[1 + NewlineLength(ts[1..])..] == rest;
    } else if c == 0 {
      assert ts[1..][..3] == [ZERO, ZERO, ZERO] && ts[4..] == rest;
      assert Decimal([ZERO]) == 0 by { assert [ZERO][..0] == []; }
      assert Decimal([ZERO, ZERO]) == 0 by { assert [ZERO, ZERO][..1] == [ZERO]; }
      assert Decimal([ZERO, ZERO, ZERO]) == 0 by { assert [ZERO, ZERO, ZERO][..2] == [ZERO, ZERO]; }
    } else {
      assert ts[1..] == rest;
    }
  }

  lemma StartsPlain(s: Bytes, rest: Bytes)
    ensures var ts := EscapedAll(s) + [QUOTE] + rest; ts != [] && !IsNewline(ts[0])
  {
  }

  lemma {:induction false} AllBack(s: Bytes, rest: Bytes, line: int)
    requires line < MAX_INT
    ensures ReadChars(EscapedAll(s) + [QUOTE] + rest, QUOTE, line) ==
            if line + Newlines(s) < MAX_INT then Done(s, rest, line + Newlines(s)) else Failed(TooManyLines)
    decreases |s|
  {
    hide ReadChars;
    if s == [] {
      EndsThere(rest, line);
      assert EscapedAll(s) + [QUOTE] + rest == [QUOTE] + rest;
    } else {
      var after := EscapedAll(s[1..]) + [QUOTE] + rest;
      assert EscapedAll(s) + [QUOTE] + rest == Escaped(s[0]) + after;
      StartsPlain(s[1..], rest);
      CharBack(s[0], after, line);
      if s[0] != LF || line + 1 < MAX_INT {
        AllBack(s[1..], rest, if s[0] == LF then line + 1 else line);
        assert s == [s[0]] + s[1..];
      }
    }
  }

  lemma EndsThere(rest: Bytes, line: int)
    ensures ReadChars([QUOTE] + rest, QUOTE, line) == Done([], rest, line)
  {
    assert ([QUOTE] + rest)[1..] == rest;
  }

  /** Reading a quoted string gives back its bytes, for every string whose newlines do not
      take the chunk past its last line. */
  lemma ReadQuoted(s: Bytes, rest: Bytes, line: int)
    requires line < MAX_INT
    ensures Quoted(s) != [] && Quoted(s)[0] == QUOTE
    ensures ReadChars((Quoted(s) + rest)[1..], QUOTE, line) ==
            if line + Newlines(s) < MAX_INT then Done(s, rest, line + Newlines(s)) else Failed(TooManyLines)
  {
    AllBack(s, rest, line);
    assert (Quoted(s) + rest)[1..] == EscapedAll(s) + [QUOTE] + rest;
  }

  /** A quoted string has no NUL and no carriage return, and no newline that is not
      escaped: it can be kept as text. */
  lemma {:induction false} KeptAsText(s: Bytes, i: nat)
    requires i < |EscapedAll(s)|
    ensures var t := EscapedAll(s); t[i] != 0 && t[i] != CR && (t[i] == LF ==> i > 0 && t[i - 1] == BACKSLASH)
    decreases |s|
  {
    if i >= |Escaped(s[0])| {
      KeptAsText(s[1..], i - |Escaped(s[0])|);
    }
  }

  // --------------------------------------------------------------- the lexer

  class LexState {
    const input: Bytes
    var p: nat  // where the current character is
    var current: int
    var buff: Bytes
    var linenumber: int

    ghost predicate Valid()
      reads this
    {
      p <= |input| && current == (if p < |input| then input[p] else EOZ)
    }

    ghost function Ahead(): Bytes
      requires Valid()
      reads this
    {
      input[p..]
    }

    constructor (input: Bytes, line: int)
      ensures Valid() && Ahead() == input && linenumber == line && buff == []
    {
      this.input, p, buff, linenumber := input, 0, [], line;
      current := if |input| > 0 then input[0] else EOZ;
    }

    method Next()
      requires Valid() && p < |input|
      modifies this`p, this`current
      ensures Valid() && p == old(p) + 1 && Ahead() == old(Ahead())[1..]
    {
      p := p + 1;
      current := if p < |input| then input[p] else EOZ;
    }

    method SaveAndNext()
      requires Valid() && p < |input|
      modifies this
      ensures Valid() && p == old(p) + 1 && Ahead() == old(Ahead())[1..] && linenumber == old(linenumber)
      ensures buff == old(buff) + [old(Ahead())[0]]
    {
      buff := buff + [current];
      Next();
    }

    method IncLineNumber() returns (error: Option<Error>)
      requires Valid() && IsNewline(current)
      modifies this`p, this`current, this`linenumber
      ensures Valid() && linenumber == old(linenumber) + 1 && Ahead() == old(Ahead())[NewlineLength(old(Ahead()))..]
      ensures error == if linenumber >= MAX_INT then Some(TooManyLines) else None
    {
      var was := current;
      Next();
      if IsNewline(current) && current != was {
        Next();
      }
      linenumber := linenumber + 1;
      error := if linenumber >= MAX_INT then Some(TooManyLines) else None;
    }

    /** An escape sequence after its backslash. */
    method ReadEscape(del: Byte) returns (error: Option<Error>)
      requires Valid() && current != EOZ && del != BACKSLASH
      modifies this
      ensures Valid() && |Ahead()| < |old(Ahead())| && old(buff) <= buff
      ensures var whole := ReadChars([BACKSLASH] + old(Ahead()), del, old(linenumber));
              if error.Some? then whole == Failed(error.value)
              else whole == Prefixed(buff[|old(buff)|..], ReadChars(Ahead(), del, linenumber))
    {
      ghost var ts := [BACKSLASH] + Ahead();
      assert ts[1..] == Ahead() && ts[2..] == Ahead()[1..];
      error := None;
      if IsControlLetter(current) {
        var c := Control(current);
        buff := buff + [c];
        Next();
      } else if IsNewline(current) {
        assert ts[1 + NewlineLength(ts[1..])..] == Ahead()[NewlineLength(Ahead())..];
        buff := buff + [LF];
        error := IncLineNumber();
      } else if !IsDigit(current) {
        SaveAndNext();
      } else {
        error := ReadDecimal();
        assert ts[1 + DigitCount(ts[1..])..] == Ahead();
      }
    }

    /** `\ddd` */
    method ReadDecimal() returns (error: Option<Error>)
      requires Valid() && IsDigit(current)
      modifies this
      ensures Valid() && linenumber == old(linenumber) && Ahead() == old(Ahead())[DigitCount(old(Ahead()))..]
      ensures var c := Decimal(old(Ahead())[..DigitCount(old(Ahead()))]);
              if c > 255 then error == Some(EscapeTooLarge) && buff == old(buff)
                 else error == None && c >= 0 && buff == old(buff) + [c]
    {
      ghost var ts := Ahead();
      ghost var n := DigitCount(ts);
      var i, c := 0, 0;
      assert ts[..0] == [];
      assert Digits(ts, 0) == 0;
      while true
        invariant Valid() && 0 <= i < n && Ahead() == ts[i..] && c == Digits(ts, i) >= 0
        invariant linenumber == old(linenumber) && buff == old(buff)
        decreases 3 - i
      {
        assert ts[..i + 1][..i] == ts[..i];
        c := 10 * c + (current - ZERO);
        Next();
        i := i + 1;
        if !(i < 3 && IsDigit(current)) { break; }
      }
      assert i == n && c == Decimal(ts[..n]);
      error := None;
      if c > 255 {
        return Some(EscapeTooLarge);
      }
      buff := buff + [c];
    }

    /** A string from its opening delimiter on; its text is what is between the delimiters. */
    method ReadString(del: Byte) returns (error: Option<Error>, text: Bytes)
      requires Valid() && current == del && buff == [] && del != BACKSLASH && !IsNewline(del)
      modifies this
      ensures Valid()
      ensures var r := ReadChars(old(Ahead())[1..], del, old(linenumber));
              if error.Some? then r == Failed(error.value) else r == Done(text, Ahead(), linenumber)
    {
      hide ReadChars;
      error, text := None, [];
      SaveAndNext();
      ghost var start := Ahead();
      ghost var r := ReadChars(start, del, linenumber);
      NothingRead(r);
      while current != del
        invariant Valid() && |buff| > 0 && error.None?
        invariant r == Prefixed(buff[1..], ReadChars(Ahead(), del, linenumber))
        decreases |Ahead()|
      {
        ghost var ts, line, was := Ahead(), linenumber, buff;
        ReadFails(ts, del, line);
        if current == EOZ {
          return Some(UnfinishedAtEnd), text;
        } else if IsNewline(current) {
          return Some(UnfinishedString), text;
        } else if current == BACKSLASH {
          Next();
          assert ts == [BACKSLASH] + Ahead();
          if current == EOZ { continue; }
          error := ReadEscape(del);
          if error.Some? { return; }
          ReadMore(was, buff, ReadChars(Ahead(), del, linenumber));
        } else {
          ReadPlain(ts, del, line);
          SaveAndNext();
          ReadMore(was, buff, ReadChars(Ahead(), del, linenumber));
        }
      }
      ReadsDelimiter(buff, Ahead(), del, linenumber);
      SaveAndNext();
      text := buff[1..|buff| - 1];
    }
  }

  function Digits(ts: Bytes, i: int): int
    requires ts != [] && IsDigit(ts[0]) && 0 <= i <= DigitCount(ts)
  {
    Decimal(ts[..i])
  }

  lemma NothingRead(r: ReadResult)
    ensures Prefixed([], r) == r
  {
    if r.Done? { assert [] + r.text == r.text; }
  }

  /** What was read so far, and then some more. */
  lemma ReadMore(was: Bytes, buff: Bytes, r: ReadResult)
    requires |was| > 0 && was <= buff
    ensures Prefixed(was[1..], Prefixed(buff[|was|..], r)) == Prefixed(buff[1..], r)
  {
    assert buff[1..] == was[1..] + buff[|was|..];
    if r.Done? { assert was[1..] + (buff[|was|..] + r.text) == buff[1..] + r.text; }
  }

  lemma ReadFails(ts: Bytes, del: Byte, line: int)
    requires del != BACKSLASH && !IsNewline(del)
    ensures ts == [] ==> ReadChars(ts, del, line) == Failed(UnfinishedAtEnd)
    ensures ts == [BACKSLASH] ==> ReadChars(ts, del, line) == ReadChars([], del, line) == Failed(UnfinishedAtEnd)
    ensures ts != [] && ts[0] != del && IsNewline(ts[0]) ==> ReadChars(ts, del, line) == Failed(UnfinishedString)
  {
  }

  lemma ReadPlain(ts: Bytes, del: Byte, line: int)
    requires ts != [] && ts[0] != del && ts[0] != BACKSLASH && !IsNewline(ts[0])
    ensures ReadChars(ts, del, line) == Prefixed([ts[0]], ReadChars(ts[1..], del, line))
  {
  }

  lemma ReadsDelimiter(buff: Bytes, ts: Bytes, del: Byte, line: int)
    requires ts != [] && ts[0] == del && |buff| > 0
    ensures Prefixed(buff[1..], ReadChars(ts, del, line)) == Done((buff + [del])[1..|buff|], ts[1..], line)
  {
    assert (buff + [del])[1..|buff|] == buff[1..] + [];
  }
}
