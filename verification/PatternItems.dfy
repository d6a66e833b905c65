/** What the items of a pattern mean, each by itself: sets of characters, by their codes, and
    the parsing of a pattern into items. */
module PatternItems {
  import opened Common
  import opened PatternClasses

  datatype Member = Char(c: byte) | Range(lo: byte, hi: byte) | Class(letter: byte)

  datatype CharSet = Any | OneOf(members: seq<Member>) | NoneOf(members: seq<Member>)

  /** How often an item may be repeated, and what is tried first. */
  datatype Repeat = Optional | Star | Plus | Lazy

  datatype Item =
    | OpenCapture | PositionCapture | CloseCapture
    | Balance(b: byte, e: byte)
    | FrontierTo(set_: CharSet)
    | BackReference(l: int)
    | AtEnd
    | Once(set_: CharSet)
    | Many(set_: CharSet, how: Repeat)

  /** The item at a position and where the next one starts; the end; or an error. */
  datatype Parsed = Item(item: Item, next: int) | End | Bad(e: Error)

  // ------------------------------------------------------- sets of characters

  /** The characters of a class named by a small letter. */
  predicate ClassHas(c: byte, letter: byte) {
    match letter
    case 97 => 65 <= c <= 90 || 97 <= c <= 122                                                   // a
    case 99 => c <= 31 || c == 127                                                               // c
    case 100 => 48 <= c <= 57                                                                    // d
    case 108 => 97 <= c <= 122                                                                   // l
    case 112 => 33 <= c <= 47 || 58 <= c <= 64 || 91 <= c <= 96 || 123 <= c <= 126               // p
    case 115 => 9 <= c <= 13 || c == 32                                                          // s
    case 117 => 65 <= c <= 90                                                                    // u
    case 119 => 48 <= c <= 57 || 65 <= c <= 90 || 97 <= c <= 122                                 // w
    case 120 => 48 <= c <= 57 || 65 <= c <= 70 || 97 <= c <= 102                                 // x
    case 122 => c == 0                                                                           // z
    case _ => false
  }

  predicate IsClassLetter(x: int) {
    x == 97 || x == 99 || x == 100 || x == 108 || x == 112 || x == 115 || x == 117 || x == 119 || x == 120 || x == 122
  }

  /** What `%x` stands for: a class, the complement of one, or the character itself. */
  predicate InClass(c: byte, x: byte) {
    if IsClassLetter(x) then ClassHas(c, x)
    else if x < 91 && IsClassLetter(x + 32) then !ClassHas(c, x + 32)
    else c == x
  }

  predicate InMember(c: byte, m: Member) {
    match m
    case Char(x) => c == x
    case Range(lo, hi) => lo <= c <= hi
    case Class(x) => InClass(c, x)
  }

  predicate InSome(c: byte, members: seq<Member>) {
    exists i :: 0 <= i < |members| && InMember(c, members[i])
  }

  predicate In(c: byte, set_: CharSet) {
    match set_
    case Any => true
    case OneOf(ms) => InSome(c, ms)
    case NoneOf(ms) => !InSome(c, ms)
  }

  lemma ClassMeans(c: byte, x: byte)
    ensures MatchClass(c, x) == InClass(c, x)
  {
  }

  // ------------------------------------------------------------------- parsing

  /** The members written from `q` up to the closing bracket at `ec`. */
  function Members(p: seq<byte>, q: int, ec: int): seq<Member>
    decreases ec - q
  {
    if q >= ec then []
    else if At(p, q) == 37 then [Class(At(p, q + 1))] + Members(p, q + 2, ec)
    else if At(p, q + 1) == 45 && q + 2 < ec then [Range(At(p, q), At(p, q + 2))] + Members(p, q + 3, ec)
    else [Char(At(p, q))] + Members(p, q + 1, ec)
  }

  /** The closing bracket of a set with a first character at `q`: the first `]` that is
      neither that character nor after a `%`. */
  function Closing(p: seq<byte>, q: int): (ec: Option<int>)
    requires 0 <= q
    ensures ec.Some? ==> q < ec.value < |p| && p[ec.value] == 93
    decreases |p| - q
  {
    if At(p, q) == 0 then None
    else
      var n := if At(p, q) == 37 && At(p, q + 1) != 0 then q + 2 else q + 1;
      if At(p, n) == 93 then Some(n) else Closing(p, n)
  }

  /** One character's set at `q` and where it ends. */
  datatype SetAt = Written(set_: CharSet, ep: int) | NotASet(e: Error)

  function Bracketed(p: seq<byte>, q: int): SetAt
    requires 0 <= q
  {
    var first := if At(p, q + 1) == 94 then q + 2 else q + 1;
    var ec := Closing(p, first);
    if ec.None? then NotASet(MissingBracket)
    else if At(p, q + 1) == 94 then Written(NoneOf(Members(p, first, ec.value)), ec.value + 1)
    else Written(OneOf(Members(p, first, ec.value)), ec.value + 1)
  }

  function SetOf(p: seq<byte>, q: int): SetAt
    requires 0 <= q
  {
    if At(p, q) == 46 then Written(Any, q + 1)
    else if At(p, q) == 37 then
      if At(p, q + 1) == 0 then NotASet(EndsWithEsc) else Written(OneOf([Class(At(p, q + 1))]), q + 2)
    else if At(p, q) == 91 then Bracketed(p, q)
    else Written(OneOf([Char(At(p, q))]), q + 1)
  }

  function RepeatOf(c: byte): Option<Repeat> {
    match c
    case 63 => Some(Optional)  // ?
    case 42 => Some(Star)
    case 43 => Some(Plus)
    case 45 => Some(Lazy)      // -
    case _ => None
  }

  function ItemAt(p: seq<byte>, q: int): Parsed
    requires 0 <= q <= |p|
  {
    var c, d := At(p, q), At(p, q + 1);
    if c == 0 then End
    else if c == 40 then (if d == 41 then Parsed.Item(PositionCapture, q + 2) else Parsed.Item(OpenCapture, q + 1))
    else if c == 41 then Parsed.Item(CloseCapture, q + 1)
    else if c == 37 && d == 98 then
      if At(p, q + 2) == 0 || At(p, q + 3) == 0 then Bad(Unbalanced)
      else Parsed.Item(Balance(At(p, q + 2), At(p, q + 3)), q + 4)
    else if c == 37 && d == 102 then
      if At(p, q + 2) != 91 then Bad(MissingFrontierSet)
      else
        var k := Bracketed(p, q + 2);
        if k.NotASet? then Bad(k.e) else Parsed.Item(FrontierTo(k.set_), k.ep)
    else if c == 37 && 48 <= d <= 57 then Parsed.Item(BackReference(d - 49), q + 2)
    else if c == 36 && d == 0 then Parsed.Item(AtEnd, q + 1)
    else
      var k := SetOf(p, q);
      if k.NotASet? then Bad(k.e)
      else
        var how := RepeatOf(At(p, k.ep));
        if how.Some? then Parsed.Item(Many(k.set_, how.value), k.ep + 1) else Parsed.Item(Once(k.set_), k.ep)
  }

  // --------------------------------------------- the C loops find those sets

  lemma {:induction false} ClosingIsEnd(p: seq<byte>, q: int)
    requires 0 <= q
    ensures SetEnd(p, q) == if Closing(p, q).Some? then Ends(Closing(p, q).value + 1) else Malformed(MissingBracket)
    decreases |p| - q
  {
    if At(p, q) != 0 {
      var n := if At(p, q) == 37 && At(p, q + 1) != 0 then q + 2 else q + 1;
      if At(p, n) != 93 { ClosingIsEnd(p, n); }
    }
  }

  lemma {:induction false} MembersMean(c: byte, p: seq<byte>, q: int, ec: int)
    ensures InSet(c, p, q, ec) <==> InSome(c, Members(p, q, ec))
    decreases ec - q
  {
    if q < ec {
      var n := if At(p, q) == 37 then q + 2 else if At(p, q + 1) == 45 && q + 2 < ec then q + 3 else q + 1;
      MembersMean(c, p, n, ec);
      ClassMeans(c, At(p, q + 1));
      InSomeFirst(c, Members(p, q, ec));
      assert Members(p, q, ec)[1..] == Members(p, n, ec);
    }
  }

  lemma InSomeFirst(c: byte, ms: seq<Member>)
    requires ms != []
    ensures InSome(c, ms) <==> InMember(c, ms[0]) || InSome(c, ms[1..])
  {
    if InSome(c, ms) {
      var i :| 0 <= i < |ms| && InMember(c, ms[i]);
      assert i > 0 ==> ms[1..][i - 1] == ms[i];
    }
    if InSome(c, ms[1..]) {
      var i :| 0 <= i < |ms[1..]| && InMember(c, ms[1..][i]);
      assert ms[i + 1] == ms[1..][i];
    }
  }

  lemma BracketMeans(c: byte, p: seq<byte>, q: int)
    requires 0 <= q && At(p, q) == 91
    ensures var k := Bracketed(p, q);
            if k.NotASet? then ClassEnd(p, q) == Malformed(k.e)
            else ClassEnd(p, q) == Ends(k.ep) && MatchSet(c, p, q, k.ep - 1) == In(c, k.set_)
  {
    var first := if At(p, q + 1) == 94 then q + 2 else q + 1;
    ClosingIsEnd(p, first);
    if Closing(p, first).Some? { MembersMean(c, p, first, Closing(p, first).value); }
  }

  /** `classend` and `singlematch` find the end and the characters of the set. */
  lemma SetMeans(c: byte, p: seq<byte>, q: int)
    requires 0 <= q && At(p, q) != 0
    ensures var k := SetOf(p, q);
            if k.NotASet? then ClassEnd(p, q) == Malformed(k.e)
            else ClassEnd(p, q) == Ends(k.ep) && SingleMatch(c, p, q, k.ep) == In(c, k.set_)
  {
    if At(p, q) == 91 {
      BracketMeans(c, p, q);
    } else if At(p, q) == 37 {
      ClassMeans(c, At(p, q + 1));
      InSomeFirst(c, [Class(At(p, q + 1))]);
    } else {
      InSomeFirst(c, [Char(At(p, q))]);
    }
  }
}
