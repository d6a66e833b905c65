/** Operator-precedence parsing: which token strings are which expression trees. */
module Precedence {
  import opened Common

  datatype Token =
    | Constant_(n: nat) | LeftParen | RightParen
    | Not | Minus | Length
    | Plus | Times | Divide | Modulo | Power | Concat
    | NotEqual | Equal | Less | LessEqual | Greater | GreaterEqual | And | Or
    | OtherToken  // one that neither continues a simple expression nor is an operator

  datatype UnOpr = OPR_NOT | OPR_MINUS | OPR_LEN

  datatype BinOpr =
    | OPR_ADD | OPR_SUB | OPR_MUL | OPR_DIV | OPR_MOD | OPR_POW | OPR_CONCAT
    | OPR_NE | OPR_EQ | OPR_LT | OPR_LE | OPR_GT | OPR_GE | OPR_AND | OPR_OR

  function GetUnOpr(t: Token): Option<UnOpr> {
    match t
    case Not => Some(OPR_NOT)
    case Minus => Some(OPR_MINUS)
    case Length => Some(OPR_LEN)
    case _ => None
  }

  function GetBinOpr(t: Token): Option<BinOpr> {
    match t
    case Plus => Some(OPR_ADD)
    case Minus => Some(OPR_SUB)
    case Times => Some(OPR_MUL)
    case Divide => Some(OPR_DIV)
    case Modulo => Some(OPR_MOD)
    case Power => Some(OPR_POW)
    case Concat => Some(OPR_CONCAT)
    case NotEqual => Some(OPR_NE)
    case Equal => Some(OPR_EQ)
    case Less => Some(OPR_LT)
    case LessEqual => Some(OPR_LE)
    case Greater => Some(OPR_GT)
    case GreaterEqual => Some(OPR_GE)
    case And => Some(OPR_AND)
    case Or => Some(OPR_OR)
    case _ => None
  }

  function LeftPriority(op: BinOpr): nat {
    match op
    case OPR_ADD => 6 case OPR_SUB => 6
    case OPR_MUL => 7 case OPR_DIV => 7 case OPR_MOD => 7
    case OPR_POW => 10 case OPR_CONCAT => 5
    case OPR_NE => 3 case OPR_EQ => 3
    case OPR_LT => 3 case OPR_LE => 3 case OPR_GT => 3 case OPR_GE => 3
    case OPR_AND => 2 case OPR_OR => 1
  }

  function RightPriority(op: BinOpr): nat {
    match op
    case OPR_POW => 9
    case OPR_CONCAT => 4
    case _ => LeftPriority(op)
  }

  const UNARY_PRIORITY: nat := 8

  function UnToken(op: UnOpr): (t: Token)
    ensures GetUnOpr(t) == Some(op)
  {
    match op
    case OPR_NOT => Not
    case OPR_MINUS => Minus
    case OPR_LEN => Length
  }

  function BinToken(op: BinOpr): (t: Token)
    ensures GetBinOpr(t) == Some(op)
  {
    match op
    case OPR_ADD => Plus
    case OPR_SUB => Minus
    case OPR_MUL => Times
    case OPR_DIV => Divide
    case OPR_MOD => Modulo
    case OPR_POW => Power
    case OPR_CONCAT => Concat
    case OPR_NE => NotEqual
    case OPR_EQ => Equal
    case OPR_LT => Less
    case OPR_LE => LessEqual
    case OPR_GT => Greater
    case OPR_GE => GreaterEqual
    case OPR_AND => And
    case OPR_OR => Or
  }

  /** An expression tree, with the parentheses it was written with. */
  datatype Tree =
    | Constant(n: nat)
    | Paren(e: Tree)
    | Unary(uop: UnOpr, e: Tree)
    | Binary(op: BinOpr, l: Tree, r: Tree)

  function Tokens(p: Tree): (ts: seq<Token>)
    ensures |ts| > 0
  {
    match p
    case Constant(n) => [Constant_(n)]
    case Paren(e) => [LeftParen] + Tokens(e) + [RightParen]
    case Unary(op, e) => [UnToken(op)] + Tokens(e)
    case Binary(op, l, r) => Tokens(l) + [BinToken(op)] + Tokens(r)
  }

  /** The left priority of the operator that follows, or 0. */
  function Follow(ts: seq<Token>): nat {
    if ts == [] || GetBinOpr(ts[0]).None? then 0 else LeftPriority(GetBinOpr(ts[0]).value)
  }

  /** Whether the tree may stand as it is where the parser expands operators above `limit`
      and the operator that follows has left priority `follow`. */
  predicate Fits(p: Tree, limit: nat, follow: nat) {
    match p
    case Constant(_) => true
    case Paren(e) => Fits(e, 0, 0)
    case Unary(_, e) => follow <= UNARY_PRIORITY && Fits(e, UNARY_PRIORITY, follow)
    case Binary(op, l, r) =>
      && LeftPriority(op) > limit && follow <= RightPriority(op)
      && Fits(l, limit, LeftPriority(op)) && Fits(r, RightPriority(op), follow)
  }

  /** How many calls of the parser are open at once. */
  function Levels(p: Tree): (n: nat)
    ensures n > 0
  {
    match p
    case Constant(_) => 1
    case Paren(e) => 1 + Levels(e)
    case Unary(_, e) => 1 + Levels(e)
    case Binary(_, l, r) => if Levels(l) > 1 + Levels(r) then Levels(l) else 1 + Levels(r)
  }

  predicate EndsInParen(p: Tree) {
    match p
    case Constant(_) => false
    case Paren(_) => true
    case Unary(_, e) => EndsInParen(e)
    case Binary(_, _, r) => EndsInParen(r)
  }

  /** A parenthesised expression with arguments after it is a call, which is not modelled. */
  predicate NoCall(p: Tree, rest: seq<Token>) {
    EndsInParen(p) ==> rest == [] || rest[0] != LeftParen
  }

  datatype Error = TooManyLevels | UnexpectedSymbol | RightParenExpected | CallNotModelled

  datatype Parsed = Ok(e: Tree, rest: seq<Token>) | Err(error: Error)

  /** `subexpr`: what is parsed at a limit with some levels left. */
  function Subexpr(ts: seq<Token>, limit: nat, levels: nat): (r: Parsed)
    ensures r.Ok? ==> |r.rest| < |ts|
    decreases |ts|, 1
  {
    if levels == 0 then Err(TooManyLevels)
    else
      var first := Operand(ts, levels);
      if first.Err? then first else Climb(first.e, first.rest, limit, levels)
  }

  /** A unary expression or a simple one. */
  function Operand(ts: seq<Token>, levels: nat): (r: Parsed)
    requires levels > 0
    ensures r.Ok? ==> |r.rest| < |ts|
    decreases |ts|, 0
  {
    if ts == [] then Err(UnexpectedSymbol)
    else if GetUnOpr(ts[0]).Some? then
      var x := Subexpr(ts[1..], UNARY_PRIORITY, levels - 1);
      if x.Err? then x else Ok(Unary(GetUnOpr(ts[0]).value, x.e), x.rest)
    else if ts[0].Constant_? then Ok(Constant(ts[0].n), ts[1..])
    else if ts[0].LeftParen? then
      var x := Subexpr(ts[1..], 0, levels - 1);
      if x.Err? then x
      else if x.rest == [] || !x.rest[0].RightParen? then Err(RightParenExpected)
      else if |x.rest| > 1 && x.rest[1].LeftParen? then Err(CallNotModelled)
      else Ok(Paren(x.e), x.rest[1..])
    else Err(UnexpectedSymbol)
  }

  /** Operators above the limit expand the expression before them. */
  function Climb(v: Tree, ts: seq<Token>, limit: nat, levels: nat): (r: Parsed)
    requires levels > 0
    ensures r.Ok? ==> |r.rest| <= |ts|
    decreases |ts|, 1
  {
    if Follow(ts) <= limit then Ok(v, ts)
    else
      var op := GetBinOpr(ts[0]).value;
      var x := Subexpr(ts[1..], RightPriority(op), levels - 1);
      if x.Err? then x else Climb(Binary(op, v, x.e), x.rest, limit, levels)
  }

  /** The tokens of a fitting tree are parsed to that tree, from which the parser goes on;
      unless it has too few levels. */
  lemma {:induction false} ParsesTree(p: Tree, rest: seq<Token>, limit: nat, levels: nat)
    requires Fits(p, limit, Follow(rest)) && NoCall(p, rest)
    ensures Subexpr(Tokens(p) + rest, limit, levels) ==
            if Levels(p) <= levels then Climb(p, rest, limit, levels) else Err(TooManyLevels)
    decreases p
  {
    hide GetBinOpr, GetUnOpr, LeftPriority, RightPriority, BinToken, UnToken;
    if levels > 0 {
      match p
      case Constant(n) =>
        ConstantParses(n, rest, levels);
      case Paren(e) =>
        ParsesTree(e, [RightParen] + rest, 0, levels - 1) by { NotAnOperator(rest); }
        ParenParses(e, rest, levels);
      case Unary(op, e) =>
        ParsesTree(e, rest, UNARY_PRIORITY, levels - 1);
        UnaryParses(op, e, rest, levels);
      case Binary(op, l, r) =>
        var after := [BinToken(op)] + (Tokens(r) + rest);
        OperatorAhead(op, Tokens(r) + rest);
        ParsesTree(l, after, limit, levels);
        ParsesTree(r, rest, RightPriority(op), levels - 1);
        assert Tokens(p) + rest == Tokens(l) + after;
        if Levels(l) <= levels { ClimbsOver(op, l, r, rest, limit, levels); }
    }
  }

  lemma OperatorAhead(op: BinOpr, ts: seq<Token>)
    ensures var after := [BinToken(op)] + ts;
            after[0] == BinToken(op) && after[1..] == ts && !after[0].LeftParen? && Follow(after) == LeftPriority(op)
            && LeftPriority(op) > 0
  {
  }

  lemma NotAnOperator(rest: seq<Token>)
    ensures Follow([RightParen] + rest) == 0
  {
  }

  lemma ConstantParses(n: nat, rest: seq<Token>, levels: nat)
    requires levels > 0
    ensures Operand(Tokens(Constant(n)) + rest, levels) == Ok(Constant(n), rest)
  {
    assert (Tokens(Constant(n)) + rest)[1..] == rest;
  }

  lemma ParenParses(e: Tree, rest: seq<Token>, levels: nat)
    requires levels > 0 && NoCall(Paren(e), rest)
    requires Subexpr(Tokens(e) + ([RightParen] + rest), 0, levels - 1) ==
             if Levels(e) <= levels - 1 then Climb(e, [RightParen] + rest, 0, levels - 1) else Err(TooManyLevels)
    ensures Operand(Tokens(Paren(e)) + rest, levels) == if Levels(e) < levels then Ok(Paren(e), rest)
            else Err(TooManyLevels)
  {
    hide Subexpr;
    NotAnOperator(rest);
    var ts, after := Tokens(Paren(e)) + rest, [RightParen] + rest;
    assert ts[0] == LeftParen && ts[1..] == Tokens(e) + after && after[1..] == rest;
  }

  lemma UnaryParses(op: UnOpr, e: Tree, rest: seq<Token>, levels: nat)
    requires levels > 0 && Follow(rest) <= UNARY_PRIORITY
    requires Subexpr(Tokens(e) + rest, UNARY_PRIORITY, levels - 1) ==
             if Levels(e) <= levels - 1 then Climb(e, rest, UNARY_PRIORITY, levels - 1) else Err(TooManyLevels)
    ensures Operand(Tokens(Unary(op, e)) + rest, levels) == if Levels(e) < levels then Ok(Unary(op, e), rest)
            else Err(TooManyLevels)
  {
    hide Subexpr, Follow;
    var ts := Tokens(Unary(op, e)) + rest;
    assert ts[0] == UnToken(op) && ts[1..] == Tokens(e) + rest;
  }

  lemma ClimbsOver(op: BinOpr, l: Tree, r: Tree, rest: seq<Token>, limit: nat, levels: nat)
    requires levels > 0 && LeftPriority(op) > limit && Follow(rest) <= RightPriority(op)
    requires Subexpr(Tokens(r) + rest, RightPriority(op), levels - 1) ==
             if Levels(r) <= levels - 1 then Climb(r, rest, RightPriority(op), levels - 1) else Err(TooManyLevels)
    ensures Climb(l, [BinToken(op)] + (Tokens(r) + rest), limit, levels) ==
            if Levels(r) < levels then Climb(Binary(op, l, r), rest, limit, levels) else Err(TooManyLevels)
  {
    hide Subexpr, GetBinOpr, LeftPriority, RightPriority, BinToken;
    OperatorAhead(op, Tokens(r) + rest);
  }

  /** Whatever is parsed was written that way, and fits. */
  lemma {:induction false} SubexprIsTree(ts: seq<Token>, limit: nat, levels: nat)
    requires Subexpr(ts, limit, levels).Ok?
    ensures var r := Subexpr(ts, limit, levels);
            && ts == Tokens(r.e) + r.rest && Fits(r.e, limit, Follow(r.rest)) && NoCall(r.e, r.rest)
            && Follow(r.rest) <= limit && Levels(r.e) <= levels
    decreases |ts|, 1
  {
    OperandIsTree(ts, limit, levels);
    var first := Operand(ts, levels);
    ClimbIsTree(first.e, first.rest, limit, levels);
  }

  lemma {:induction false} OperandIsTree(ts: seq<Token>, limit: nat, levels: nat)
    requires levels > 0 && Operand(ts, levels).Ok?
    ensures var r := Operand(ts, levels);
            ts == Tokens(r.e) + r.rest && Fits(r.e, limit, Follow(r.rest)) && NoCall(r.e, r.rest)
            && Levels(r.e) <= levels
    decreases |ts|, 0
  {
    hide Subexpr, GetBinOpr, LeftPriority, UnToken;
    if GetUnOpr(ts[0]).Some? {
      SubexprIsTree(ts[1..], UNARY_PRIORITY, levels - 1);
      OneUnary(ts[0]);
      assert ts == [ts[0]] + ts[1..];
    } else if ts[0].LeftParen? {
      SubexprIsTree(ts[1..], 0, levels - 1);
      var x := Subexpr(ts[1..], 0, levels - 1);
      NotAnOperator(x.rest[1..]);
      assert x.rest == [RightParen] + x.rest[1..] && ts == [LeftParen] + ts[1..];
    } else {
      assert ts == [ts[0]] + ts[1..];
    }
  }

  lemma OneUnary(t: Token)
    requires GetUnOpr(t).Some?
    ensures UnToken(GetUnOpr(t).value) == t
  {
  }

  lemma {:induction false} ClimbIsTree(v: Tree, ts: seq<Token>, limit: nat, levels: nat)
    requires levels > 0 && Climb(v, ts, limit, levels).Ok?
    requires Fits(v, limit, Follow(ts)) && NoCall(v, ts) && Levels(v) <= levels
    ensures var r := Climb(v, ts, limit, levels);
            && Tokens(v) + ts == Tokens(r.e) + r.rest && Fits(r.e, limit, Follow(r.rest)) && NoCall(r.e, r.rest)
            && Follow(r.rest) <= limit && Levels(r.e) <= levels
    decreases |ts|, 1
  {
    hide GetUnOpr, GetBinOpr, LeftPriority, RightPriority, UnToken, BinToken, Tokens, Fits, NoCall, Levels, Subexpr;
    if Follow(ts) > limit {
      var op := GetBinOpr(ts[0]).value;
      SubexprIsTree(ts[1..], RightPriority(op), levels - 1);
      var x := Subexpr(ts[1..], RightPriority(op), levels - 1);
      OneToken(ts[0]);
      assert ts == [BinToken(op)] + (Tokens(x.e) + x.rest);
      Combined(op, v, x.e, x.rest, limit, levels);
      ClimbIsTree(Binary(op, v, x.e), x.rest, limit, levels);
    }
  }

  lemma Combined(op: BinOpr, v: Tree, e: Tree, rest: seq<Token>, limit: nat, levels: nat)
    requires LeftPriority(op) > limit && Fits(v, limit, LeftPriority(op)) && Levels(v) <= levels
    requires Fits(e, RightPriority(op), Follow(rest)) && NoCall(e, rest) && Follow(rest) <= RightPriority(op)
             && Levels(e) < levels
    ensures var b := Binary(op, v, e);
            && Tokens(v) + ([BinToken(op)] + (Tokens(e) + rest)) == Tokens(b) + rest
            && Fits(b, limit, Follow(rest)) && NoCall(b, rest) && Levels(b) <= levels
  {
    hide GetBinOpr, LeftPriority, RightPriority, BinToken;
  }

  lemma OneToken(t: Token)
    requires GetBinOpr(t).Some?
    ensures BinToken(GetBinOpr(t).value) == t
  {
  }

  /** Exactly what `subexpr` parses. */
  lemma ParsedIff(ts: seq<Token>, limit: nat, levels: nat, p: Tree, rest: seq<Token>)
    ensures Subexpr(ts, limit, levels) == Ok(p, rest) <==>
            && ts == Tokens(p) + rest && Fits(p, limit, Follow(rest)) && NoCall(p, rest)
            && Follow(rest) <= limit && Levels(p) <= levels
  {
    if Subexpr(ts, limit, levels) == Ok(p, rest) {
      SubexprIsTree(ts, limit, levels);
    }
    if ts == Tokens(p) + rest && Fits(p, limit, Follow(rest)) && NoCall(p, rest) && Follow(rest) <= limit {
      ParsesTree(p, rest, limit, levels);
    }
  }

  /** No two fitting trees are written the same. */
  lemma Unambiguous(p: Tree, q: Tree)
    requires Fits(p, 0, 0) && Fits(q, 0, 0) && Tokens(p) == Tokens(q)
    ensures p == q
  {
    var levels := Levels(p) + Levels(q);
    assert Tokens(p) + [] == Tokens(p) && Tokens(q) + [] == Tokens(q);
    ParsedIff(Tokens(p), 0, levels, p, []);
    ParsedIff(Tokens(q), 0, levels, q, []);
  }

  // -------------------------------------------------------------- printing

  predicate Plain(e: Tree) {
    match e
    case Constant(_) => true
    case Paren(_) => false
    case Unary(_, x) => Plain(x)
    case Binary(_, l, r) => Plain(l) && Plain(r)
  }

  function Strip(p: Tree): (e: Tree)
    ensures Plain(e)
  {
    match p
    case Constant(_) => p
    case Paren(e) => Strip(e)
    case Unary(op, e) => Unary(op, Strip(e))
    case Binary(op, l, r) => Binary(op, Strip(l), Strip(r))
  }

  /** Whether the priorities let the top of a tree stand without parentheses. */
  predicate NeedsNone(e: Tree, limit: nat, follow: nat) {
    match e
    case Unary(_, _) => follow <= UNARY_PRIORITY
    case Binary(op, _, _) => LeftPriority(op) > limit && follow <= RightPriority(op)
    case _ => true
  }

  /** The tree with parentheses only where the priorities need them. */
  function Bracket(e: Tree, limit: nat, follow: nat): Tree
    decreases e, 1
  {
    if NeedsNone(e, limit, follow) then Inside(e, limit, follow) else Paren(Inside(e, 0, 0))
  }

  function Inside(e: Tree, limit: nat, follow: nat): Tree
    decreases e, 0
  {
    match e
    case Constant(_) => e
    case Paren(x) => Paren(Bracket(x, 0, 0))
    case Unary(op, x) => Unary(op, Bracket(x, UNARY_PRIORITY, follow))
    case Binary(op, l, r) => Binary(op, Bracket(l, limit, LeftPriority(op)), Bracket(r, RightPriority(op), follow))
  }

  lemma {:induction false} BracketFits(e: Tree, limit: nat, follow: nat)
    ensures Fits(Bracket(e, limit, follow), limit, follow)
    ensures Plain(e) ==> Strip(Bracket(e, limit, follow)) == e
    decreases e, 1
  {
    if NeedsNone(e, limit, follow) { InsideFits(e, limit, follow); } else { InsideFits(e, 0, 0); }
  }

  lemma {:induction false} InsideFits(e: Tree, limit: nat, follow: nat)
    requires NeedsNone(e, limit, follow)
    ensures Fits(Inside(e, limit, follow), limit, follow)
    ensures Plain(e) ==> Strip(Inside(e, limit, follow)) == e
    decreases e, 0
  {
    match e
    case Constant(_) =>
    case Paren(x) => BracketFits(x, 0, 0);
    case Unary(op, x) => BracketFits(x, UNARY_PRIORITY, follow);
    case Binary(op, l, r) =>
      BracketFits(l, limit, LeftPriority(op));
      BracketFits(r, RightPriority(op), follow);
  }

  /** Printing and parsing back: every expression tree survives, up to the parser's levels. */
  lemma PrintParse(e: Tree)
    requires Plain(e)
    ensures var p := Bracket(e, 0, 0);
            && Strip(p) == e
            && Subexpr(Tokens(p), 0, LUAI_MAXCCALLS) == if Levels(p) <= LUAI_MAXCCALLS then Ok(p, [])
            else Err(TooManyLevels)
  {
    var p := Bracket(e, 0, 0);
    BracketFits(e, 0, 0);
    ParsesTree(p, [], 0, LUAI_MAXCCALLS);
    assert Tokens(p) + [] == Tokens(p);
  }

  function Parens(p: Tree): nat {
    match p
    case Constant(_) => 0
    case Paren(e) => 1 + Parens(e)
    case Unary(_, e) => Parens(e)
    case Binary(_, l, r) => Parens(l) + Parens(r)
  }

  /** A tree that needs no parentheses itself needs none more inside for standing there. */
  lemma {:induction false} SameInside(e: Tree, limit: nat, follow: nat)
    requires Plain(e) && NeedsNone(e, limit, follow) && Priority(follow)
    ensures Parens(Inside(e, limit, follow)) == Parens(Inside(e, 0, 0))
    decreases e, 0
  {
    match e
    case Constant(_) =>
    case Unary(op, x) =>
      SameRight(x, UNARY_PRIORITY, follow);
    case Binary(op, l, r) =>
      SameLeft(l, limit, LeftPriority(op));
      SameRight(r, RightPriority(op), follow);
  }

  predicate Priority(follow: nat) {
    follow == 0 || exists op: BinOpr :: LeftPriority(op) == follow
  }

  lemma {:induction false} SameLeft(e: Tree, limit: nat, follow: nat)
    requires Plain(e) && limit < follow && Priority(follow)
    ensures Parens(Bracket(e, limit, follow)) == Parens(Bracket(e, 0, follow))
    decreases e, 1
  {
    if NeedsNone(e, limit, follow) {
      SameInside(e, limit, follow);
      SameInside(e, 0, follow);
    }
  }

  lemma {:induction false} SameRight(e: Tree, limit: nat, follow: nat)
    requires Plain(e) && Priority(follow) && follow <= limit && (limit == UNARY_PRIORITY || exists op: BinOpr ::
                                                                   limit == RightPriority(op))
    ensures Parens(Bracket(e, limit, follow)) == Parens(Bracket(e, limit, 0))
    decreases e, 1
  {
    if NeedsNone(e, limit, 0) {
      assert NeedsNone(e, limit, follow);
      SameInside(e, limit, follow);
      SameInside(e, limit, 0);
    }
  }

  /** No fitting way of writing the tree has fewer parentheses. */
  lemma {:induction false} FewestParens(p: Tree, limit: nat, follow: nat)
    requires Fits(p, limit, follow) && Priority(follow)
    ensures Parens(Bracket(Strip(p), limit, follow)) <= Parens(p)
    decreases p
  {
    match p
    case Constant(_) =>
    case Paren(x) =>
      FewestParens(x, 0, 0);
      var e := Strip(x);
      assert NeedsNone(e, 0, 0) by { Positive(); }
      if NeedsNone(e, limit, follow) { SameInside(e, limit, follow); }
    case Unary(op, x) =>
      FewestParens(x, UNARY_PRIORITY, follow);
    case Binary(op, l, r) =>
      FewestParens(l, limit, LeftPriority(op));
      FewestParens(r, RightPriority(op), follow);
  }

  lemma Positive()
    ensures forall op: BinOpr :: LeftPriority(op) > 0
  {
  }

  // ------------------------------------------------------------- the parser

  class LexState {
    const tokens: seq<Token>
    var pos: nat
    var levels: nat

    ghost predicate Valid()
      reads this
    {
      pos <= |tokens|
    }

    constructor (ts: seq<Token>)
      ensures Valid() && tokens == ts && pos == 0 && levels == LUAI_MAXCCALLS
    {
      tokens, pos, levels := ts, 0, LUAI_MAXCCALLS;
    }

    function Ahead(): seq<Token>
      requires Valid()
      reads this
    {
      tokens[pos..]
    }

    /** What is ahead after a parse that succeeded. */
    ghost predicate Did(r: Parsed, error: Option<Error>, v: Tree)
      requires Valid()
      reads this
    {
      match error
      case None => r == Ok(v, Ahead())
      case Some(e) => r == Err(e)
    }

    /** The operator ahead that was not treated, if any, is returned with the tree. */
    method ParseSubexpr(limit: nat) returns (error: Option<Error>, v: Tree, op: Option<BinOpr>)
      requires Valid()
      modifies this
      ensures Valid() && Did(Subexpr(old(Ahead()), limit, old(levels)), error, v) && pos >= old(pos)
      ensures error.None? ==> levels == old(levels) && op == if Ahead() == [] then None else GetBinOpr(Ahead()[0])
      decreases |tokens| - pos, 1
    {
      op := None;
      if levels == 0 {
        return Some(TooManyLevels), Constant(0), op;
      }
      levels := levels - 1;
      error, v := ParseOperand();
      if error.Some? { return; }
      op := if pos < |tokens| then GetBinOpr(tokens[pos]) else None;
      while op.Some? && LeftPriority(op.value) > limit
        invariant Valid() && old(pos) < pos && levels == old(levels) - 1 && error.None?
        invariant op == if Ahead() == [] then None else GetBinOpr(Ahead()[0])
        invariant Subexpr(old(Ahead()), limit, old(levels)) == Climb(v, Ahead(), limit, levels + 1)
        decreases |tokens| - pos
      {
        ghost var ts := Ahead();
        pos := pos + 1;
        assert ts[1..] == Ahead();
        var v2, nextop;
        error, v2, nextop := ParseSubexpr(RightPriority(op.value));
        if error.Some? { return; }
        v := Binary(op.value, v, v2);
        op := nextop;
      }
      levels := levels + 1;
    }

    method ParseOperand() returns (error: Option<Error>, v: Tree)
      requires Valid()
      modifies this
      ensures Valid() && Did(Operand(old(Ahead()), old(levels) + 1), error, v) && pos >= old(pos)
      ensures error.None? ==> levels == old(levels) && pos > old(pos)
      decreases |tokens| - pos, 0
    {
      error, v := Some(UnexpectedSymbol), Constant(0);
      ghost var ts := Ahead();
      if pos == |tokens| { return; }
      var t := tokens[pos];
      var untreated;
      if GetUnOpr(t).Some? {
        pos := pos + 1;
        assert ts[1..] == Ahead();
        error, v, untreated := ParseSubexpr(UNARY_PRIORITY);
        v := Unary(GetUnOpr(t).value, v);
      } else if t.Constant_? {
        pos := pos + 1;
        error, v := None, Constant(t.n);
      } else if t.LeftParen? {
        pos := pos + 1;
        assert ts[1..] == Ahead();
        error, v, untreated := ParseSubexpr(0);
        if error.Some? { return; }
        if pos == |tokens| || !tokens[pos].RightParen? {
          return Some(RightParenExpected), v;
        }
        ghost var rest := Ahead();
        if pos + 1 < |tokens| && tokens[pos + 1].LeftParen? {
          return Some(CallNotModelled), v;
        }
        pos := pos + 1;
        assert rest[1..] == Ahead();
        v := Paren(v);
      }
    }
  }
}
