/** The precedence of the language, from loosest to tightest: `or`; `and`; comparisons; `..`;
    `+ -`; `* / %`; unary operators; `^`. The parser follows it, whatever its tables are. */
module PrecedenceLevels {
  import opened Common
  import opened Precedence

  /** How an operator is spelled. */
  function Spelling(op: BinOpr): Token {
    match op
    case OPR_ADD => Plus case OPR_SUB => Minus case OPR_MUL => Times case OPR_DIV => Divide case OPR_MOD => Modulo
    case OPR_POW => Power case OPR_CONCAT => Concat
    case OPR_NE => NotEqual case OPR_EQ => Equal case OPR_LT => Less case OPR_LE => LessEqual
    case OPR_GT => Greater case OPR_GE => GreaterEqual
    case OPR_AND => And case OPR_OR => Or
  }

  function UnarySpelling(op: UnOpr): Token {
    match op
    case OPR_NOT => Not
    case OPR_MINUS => Minus
    case OPR_LEN => Length
  }

  function Written(p: Tree): seq<Token> {
    match p
    case Constant(n) => [Constant_(n)]
    case Paren(e) => [LeftParen] + Written(e) + [RightParen]
    case Unary(op, e) => [UnarySpelling(op)] + Written(e)
    case Binary(op, l, r) => Written(l) + [Spelling(op)] + Written(r)
  }

  function Rank(op: BinOpr): int {
    match op
    case OPR_OR => 1
    case OPR_AND => 2
    case OPR_LT => 3 case OPR_GT => 3 case OPR_LE => 3 case OPR_GE => 3 case OPR_NE => 3 case OPR_EQ => 3
    case OPR_CONCAT => 4
    case OPR_ADD => 5 case OPR_SUB => 5
    case OPR_MUL => 6 case OPR_DIV => 6 case OPR_MOD => 6
    case OPR_POW => 8
  }

  /** The rank of the operator at the top; a constant or parentheses stand anywhere. */
  function Level(p: Tree): int {
    match p
    case Constant(_) => 9
    case Paren(_) => 9
    case Unary(_, _) => 7
    case Binary(op, _, _) => Rank(op)
  }

  /** The grammar of the language: `..` and `^` associate to the right, the other operators
      to the left; the exponent of a power may be unary, its base may not. */
  predicate Grammatical(p: Tree) {
    match p
    case Constant(_) => true
    case Paren(e) => Grammatical(e)
    case Unary(_, e) => Level(e) >= 7 && Grammatical(e)
    case Binary(op, l, r) =>
      && Grammatical(l) && Grammatical(r)
      && (if op == OPR_POW then Level(l) == 9 && Level(r) >= 7
          else if op == OPR_CONCAT then Level(l) > 4 && Level(r) >= 4
          else Level(l) >= Rank(op) && Level(r) > Rank(op))
  }

  // ---------------------------------------------------------- the tables agree

  predicate IsFollow(follow: nat) {
    follow in {0, 1, 2, 3, 5, 6, 7, 10}
  }

  lemma LeftChild(op: BinOpr, l: Tree, limit: nat)
    requires LeftPriority(op) > limit
    ensures NeedsNone(l, limit, LeftPriority(op)) <==>
            if op == OPR_POW then Level(l) == 9
            else if op == OPR_CONCAT then Level(l) > 4 else Level(l) >= Rank(op)
  {
  }

  lemma RightChild(op: BinOpr, r: Tree, follow: nat)
    requires IsFollow(follow) && follow <= RightPriority(op)
    ensures NeedsNone(r, RightPriority(op), follow) <==>
            if op == OPR_POW then Level(r) >= 7 else if op == OPR_CONCAT then Level(r) >= 4 else Level(r) > Rank(op)
  {
  }

  lemma UnaryChild(e: Tree, follow: nat)
    requires IsFollow(follow) && follow <= UNARY_PRIORITY
    ensures NeedsNone(e, UNARY_PRIORITY, follow) <==> Level(e) >= 7
  {
  }

  lemma {:induction false} FitsIff(p: Tree, limit: nat, follow: nat)
    requires IsFollow(follow)
    ensures Fits(p, limit, follow) <==> Grammatical(p) && NeedsNone(p, limit, follow)
    decreases p
  {
    match p
    case Constant(_) =>
    case Paren(e) =>
      FitsIff(e, 0, 0);
      assert NeedsNone(e, 0, 0);
    case Unary(_, e) =>
      FitsIff(e, UNARY_PRIORITY, follow);
      if follow <= UNARY_PRIORITY { UnaryChild(e, follow); }
    case Binary(op, l, r) =>
      FitsIff(l, limit, LeftPriority(op));
      FitsIff(r, RightPriority(op), follow);
      if NeedsNone(p, limit, follow) {
        LeftChild(op, l, limit);
        RightChild(op, r, follow);
      }
  }

  lemma {:induction false} WrittenIs(p: Tree)
    ensures Written(p) == Tokens(p)
  {
    match p
    case Constant(_) =>
    case Paren(e) => WrittenIs(e);
    case Unary(_, e) => WrittenIs(e);
    case Binary(_, l, r) => WrittenIs(l); WrittenIs(r);
  }

  // ------------------------------------------------------------- the parser

  /** What an expression is parsed to: exactly the grammatical tree that is written that way,
      within the levels of the parser. */
  lemma ParsedByGrammar(ts: seq<Token>, p: Tree)
    ensures Subexpr(ts, 0, 200) == Ok(p, []) <==>
            ts == Written(p) && Grammatical(p) && Levels(p) <= 200
  {
    ParsedIff(ts, 0, 200, p, []);
    FitsIff(p, 0, 0);
    WrittenIs(p);
    assert NeedsNone(p, 0, 0) && Tokens(p) + [] == Tokens(p) && NoCall(p, []);
  }

  lemma Pair(op: BinOpr, l: Tree, r: Tree)
    ensures var p := Binary(op, l, r);
            && Written(p) == Written(l) + [Spelling(op)] + Written(r)
            && Levels(p) <= 1 + Levels(l) + Levels(r)
            && (Grammatical(p) <==> Grammatical(l) && Grammatical(r)
                                    && (if op == OPR_POW then Level(l) == 9 && Level(r) >= 7
                                        else if op == OPR_CONCAT then Level(l) > 4 && Level(r) >= 4
                                        else Level(l) >= Rank(op) && Level(r) > Rank(op)))
  {
  }

  lemma Single(u: UnOpr, e: Tree)
    ensures var p := Unary(u, e);
            && Written(p) == [UnarySpelling(u)] + Written(e) && Levels(p) <= 1 + Levels(e)
            && (Grammatical(p) <==> Grammatical(e) && Level(e) >= 7)
  {
  }

  /** Of two operators the first takes the middle operand exactly if it is tighter, or as
      tight and of a kind that associates to the left. */
  lemma ThreeOperands(a: nat, op1: BinOpr, b: nat, op2: BinOpr, c: nat)
    ensures var ts := [Constant_(a), Spelling(op1), Constant_(b), Spelling(op2), Constant_(c)];
            var x, y, z := Constant(a), Constant(b), Constant(c);
            Subexpr(ts, 0, 200) ==
            if Rank(op1) > Rank(op2) || (Rank(op1) == Rank(op2) && Rank(op1) != 4 && Rank(op1) != 8)
            then Ok(Binary(op2, Binary(op1, x, y), z), []) else Ok(Binary(op1, x, Binary(op2, y, z)), [])
  {
    var x, y, z := Constant(a), Constant(b), Constant(c);
    var left, right := Binary(op2, Binary(op1, x, y), z), Binary(op1, x, Binary(op2, y, z));
    var ts := [Constant_(a), Spelling(op1), Constant_(b), Spelling(op2), Constant_(c)];
    Pair(op1, x, y);
    Pair(op2, Binary(op1, x, y), z);
    Pair(op2, y, z);
    Pair(op1, x, Binary(op2, y, z));
    hide Written, Levels, Grammatical;
    Leaves(a, b, c);
    ParsedByGrammar(ts, left);
    ParsedByGrammar(ts, right);
  }

  lemma Leaves(a: nat, b: nat, c: nat)
    ensures Written(Constant(a)) == [Constant_(a)] && Written(Constant(b)) == [Constant_(b)]
    ensures Written(Constant(c)) == [Constant_(c)]
    ensures Levels(Constant(a)) == Levels(Constant(b)) == Levels(Constant(c)) == 1
    ensures Grammatical(Constant(a)) && Grammatical(Constant(b)) && Grammatical(Constant(c))
  {
  }

  /** A unary operator takes a following power, and no other operation. */
  lemma UnaryBefore(u: UnOpr, a: nat, op: BinOpr, b: nat)
    ensures var ts := [UnarySpelling(u), Constant_(a), Spelling(op), Constant_(b)];
            var x, y := Constant(a), Constant(b);
            Subexpr(ts, 0, 200) ==
            if op == OPR_POW then Ok(Unary(u, Binary(op, x, y)), []) else Ok(Binary(op, Unary(u, x), y), [])
  {
    var x, y := Constant(a), Constant(b);
    var inner, outer := Unary(u, Binary(op, x, y)), Binary(op, Unary(u, x), y);
    var ts := [UnarySpelling(u), Constant_(a), Spelling(op), Constant_(b)];
    Pair(op, x, y);
    Single(u, Binary(op, x, y));
    Single(u, x);
    Pair(op, Unary(u, x), y);
    hide Written, Levels, Grammatical;
    Leaves(a, b, b);
    ParsedByGrammar(ts, inner);
    ParsedByGrammar(ts, outer);
  }

  /** To the right of any operator, a unary one takes its operand and no more, but a power. */
  lemma UnaryAfter(a: nat, op1: BinOpr, u: UnOpr, b: nat, op2: BinOpr, c: nat)
    ensures var ts := [Constant_(a), Spelling(op1), UnarySpelling(u), Constant_(b), Spelling(op2), Constant_(c)];
            var x, y, z := Constant(a), Constant(b), Constant(c);
            Subexpr(ts, 0, 200) ==
            if op2 == OPR_POW then Ok(Binary(op1, x, Unary(u, Binary(op2, y, z))), [])
            else if Rank(op1) > Rank(op2) || (Rank(op1) == Rank(op2) && Rank(op1) != 4)
            then Ok(Binary(op2, Binary(op1, x, Unary(u, y)), z), [])
            else Ok(Binary(op1, x, Binary(op2, Unary(u, y), z)), [])
  {
    var x, y, z := Constant(a), Constant(b), Constant(c);
    var power := Binary(op1, x, Unary(u, Binary(op2, y, z)));
    var left, right := Binary(op2, Binary(op1, x, Unary(u, y)), z), Binary(op1, x, Binary(op2, Unary(u, y), z));
    var ts := [Constant_(a), Spelling(op1), UnarySpelling(u), Constant_(b), Spelling(op2), Constant_(c)];
    Pair(op2, y, z);
    Single(u, Binary(op2, y, z));
    Pair(op1, x, Unary(u, Binary(op2, y, z)));
    Single(u, y);
    Pair(op1, x, Unary(u, y));
    Pair(op2, Binary(op1, x, Unary(u, y)), z);
    Pair(op2, Unary(u, y), z);
    Pair(op1, x, Binary(op2, Unary(u, y), z));
    hide Written, Levels, Grammatical;
    Leaves(a, b, c);
    ParsedByGrammar(ts, power);
    ParsedByGrammar(ts, left);
    ParsedByGrammar(ts, right);
  }

  /** Directly under an operator, and not in parentheses, there is never a looser one. */
  predicate NoLooserInside(p: Tree) {
    match p
    case Constant(_) => true
    case Paren(e) => NoLooserInside(e)
    case Unary(_, e) => (e.Binary? ==> Rank(e.op) > 7) && NoLooserInside(e)
    case Binary(op, l, r) =>
      && (l.Binary? ==> Rank(l.op) >= Rank(op)) && (l.Unary? ==> Rank(op) < 7)
      && (r.Binary? ==> Rank(r.op) >= Rank(op))
      && NoLooserInside(l) && NoLooserInside(r)
  }

  lemma {:induction false} ParsedHasNoLooser(ts: seq<Token>, p: Tree)
    requires Subexpr(ts, 0, 200) == Ok(p, [])
    ensures NoLooserInside(p)
  {
    ParsedByGrammar(ts, p);
    GrammaticalHasNoLooser(p);
  }

  lemma {:induction false} GrammaticalHasNoLooser(p: Tree)
    requires Grammatical(p)
    ensures NoLooserInside(p)
  {
    match p
    case Constant(_) =>
    case Paren(e) => GrammaticalHasNoLooser(e);
    case Unary(_, e) => GrammaticalHasNoLooser(e);
    case Binary(_, l, r) => GrammaticalHasNoLooser(l); GrammaticalHasNoLooser(r);
  }

  /** An expression: it is parsed to the end exactly if it is written by the grammar, and then
      to the tree the grammar gives it. */
  method ParseExpr(ts: seq<Token>) returns (error: Option<Error>, v: Tree, rest: seq<Token>)
    ensures error.None? && rest == [] ==> ts == Written(v) && Grammatical(v) && NoLooserInside(v)
    ensures forall p :: ts == Written(p) && Grammatical(p) && Levels(p) <= 200 ==>
              error.None? && v == p && rest == []
  {
    hide *;
    var ls := new LexState(ts);
    var untreated;
    AtStart(ls);
    error, v, untreated := ls.ParseSubexpr(0);
    rest := ls.Ahead();
    Came(Subexpr(ts, 0, 200), error, v, rest, ls);
    if error.None? && rest == [] {
      ParsedByGrammar(ts, v);
      ParsedHasNoLooser(ts, v);
    }
    forall p | ts == Written(p) && Grammatical(p) && Levels(p) <= 200
      ensures error.None? && v == p && rest == []
    {
      ParsedByGrammar(ts, p);
    }
  }

  lemma AtStart(ls: LexState)
    requires ls.Valid() && ls.pos == 0 && ls.levels == LUAI_MAXCCALLS
    ensures ls.Ahead() == ls.tokens && ls.levels == 200
  {
  }

  lemma Came(r: Parsed, error: Option<Error>, v: Tree, rest: seq<Token>, ls: LexState)
    requires ls.Valid() && rest == ls.Ahead() && ls.Did(r, error, v)
    ensures r == if error.None? then Ok(v, rest) else Err(error.value)
  {
  }
}
