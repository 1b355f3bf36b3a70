/** The language of the precedence-climbing parser. */
module Grammar {
  // Trees, the tokens they are written with, and the recursive reading of the loop.
  import opened Runs

  datatype Punct =
    | OpenParen | CloseParen | OpenBracket | CloseBracket | OpenBrace | CloseBrace | Comma | Semicolon | Colon | Question
    | Dot | Arrow | Increment | Decrement | Star | Slash | Percent | Plus | Minus | LeftShift | RightShift
    | Less | Greater | Equal | GreaterEqual | LessEqual | NotEqual | Ampersand | Caret | Bar | AndAnd | OrOr | Tilde | Bang
    | Assign | AddAssign | AndAssign | DivAssign | LeftAssign | ModAssign | MulAssign | OrAssign | RightAssign | SubAssign | XorAssign

  /** A Keyword is `sizeof` or a type name, an Identifier any other name, a Constant a
      number or character. */
  datatype Token = Keyword(name: string) | Identifier(name: string) | Constant(text: string) | StringLiteral(text: string) | Punctuation(p: Punct)

  predicate IsConstant(token: Token) {
    token.Constant? || token.StringLiteral?
  }

  predicate IsOperand(token: Token) {
    token.Identifier? || IsConstant(token)
  }

  /** Binding strength, strongest first; -1 for what is not an operator. */
  function Priority(p: Punct): int {
    match p
    case OpenBracket => 1
    case Dot => 1
    case Arrow => 1
    case Increment => 2
    case Decrement => 2
    case Star => 3
    case Slash => 3
    case Percent => 3
    case Plus => 4
    case Minus => 4
    case LeftShift => 5
    case RightShift => 5
    case Less => 6
    case Greater => 6
    case Equal => 7
    case GreaterEqual => 7
    case LessEqual => 7
    case NotEqual => 7
    case Ampersand => 8
    case Caret => 9
    case Bar => 10
    case AndAnd => 11
    case OrOr => 12
    case Question => 13
    case _ => if IsAssignment(p) then 14 else -1
  }

  predicate IsAssignment(p: Punct) {
    p.Assign? || p.AddAssign? || p.AndAssign? || p.DivAssign? || p.LeftAssign? || p.ModAssign? || p.MulAssign? || p.OrAssign? ||
    p.RightAssign? || p.SubAssign? || p.XorAssign?
  }

  /** An operator that takes a second operand. */
  predicate IsBinary(p: Punct) {
    Priority(p) >= 3 && !p.Question?
  }

  predicate IsPrefix(p: Punct) {
    p.Ampersand? || p.Bang? || p.Minus? || p.Tilde? || p.Star? || p.Increment? || p.Decrement?
  }

  /** The bound the right operand is parsed with: only `=` lets its own priority in. */
  function OperandBound(p: Punct): int {
    Priority(p) + if p.Assign? then 1 else 0
  }

  /** Nothing stands for the null pointer the parser returns when it finds no operand. */
  datatype Tree =
    | Nothing
    | Atom(token: Token)
    | Paren(inner: Tree)
    | Prefix(op: Punct, operand: Tree)
    | Postfix(op: Punct, operand: Tree)
    | Member(operand: Tree, op: Punct, field: Token)
    | Index(operand: Tree, index: Tree)
    | Binary(op: Punct, left: Tree, right: Tree)
    | Conditional(cond: Tree, yes: Tree, no: Tree)
    | Call(name: Token, args: Arguments)

  /** What stands between the parentheses of a call. The last argument, too, may be followed
      by a comma. */
  datatype Arguments = NoMore | Argument(value: Tree, comma: bool, more: Arguments)

  /** The tokens of a tree, left to right. */
  function Yield(t: Tree): seq<Token> {
    match t
    case Nothing => []
    case Atom(token) => [token]
    case Paren(x) => [Punctuation(OpenParen)] + (Yield(x) + [Punctuation(CloseParen)])
    case Prefix(op, x) => [Punctuation(op)] + Yield(x)
    case Postfix(op, x) => Yield(x) + [Punctuation(op)]
    case Member(x, op, field) => Yield(x) + [Punctuation(op), field]
    case Index(x, i) => Yield(x) + ([Punctuation(OpenBracket)] + (Yield(i) + [Punctuation(CloseBracket)]))
    case Binary(op, l, r) => Yield(l) + ([Punctuation(op)] + Yield(r))
    case Conditional(c, y, n) => Yield(c) + ([Punctuation(Question)] + (Yield(y) + ([Punctuation(Colon)] + Yield(n))))
    case Call(name, args) => [name, Punctuation(OpenParen)] + (YieldArguments(args) + [Punctuation(CloseParen)])
  }

  function YieldArguments(args: Arguments): seq<Token> {
    match args
    case NoMore => []
    case Argument(e, comma, more) => Yield(e) + ((if comma then [Punctuation(Comma)] else []) + YieldArguments(more))
  }

  /** What the parser hands on as a null pointer. */
  predicate Null(t: Tree) {
    t.Nothing? || (t.Paren? && Null(t.inner))
  }

  /** What may be assigned to, once the parentheses are gone. */
  predicate IsLValue(t: Tree) {
    match t
    case Atom(token) => token.Identifier?
    case Paren(x) => IsLValue(x)
    case Prefix(op, _) => op.Star?
    case Member(_, _, _) => true
    case Index(_, _) => true
    case _ => false
  }

  // ------------------------------------------------------------ the parser

  datatype Parsed = Parsed(tree: Tree, rest: seq<Token>)

  /** A punctuation that cannot begin an operand: the parser leaves it where it is. */
  predicate NoOperand(token: Token) {
    token.Punctuation? && !token.p.OpenParen? && !IsPrefix(token.p)
  }

  /** The loop stops here: not an operator, or one that binds no tighter than the bound. */
  predicate Stops(token: Token, bound: int) {
    !token.Punctuation? || Priority(token.p) < 0 || bound <= Priority(token.p)
  }

  predicate IsName(token: Token) {
    token.Identifier? || token.Keyword?
  }

  predicate Begins(ts: seq<Token>, p: Punct) {
    |ts| > 0 && ts[0] == Punctuation(p)
  }

  /** What a prefix operator demands of its operand; a missing one crashes all but `!`. */
  predicate Takes(op: Punct, x: Tree) {
    (Null(x) ==> op.Bang?) && (op.Ampersand? || op.Increment? || op.Decrement? ==> IsLValue(x))
  }

  /** parse_expression_unary and parse_expression_primary. */
  function ParseUnary(ts: seq<Token>): (r: Option<Parsed>)
    ensures r.Some? ==> |r.value.rest| <= |ts| && (!Null(r.value.tree) ==> |r.value.rest| < |ts|)
    decreases |ts|, 0
  {
    if |ts| == 0 || ts[0].Keyword? then None
    else if IsConstant(ts[0]) then Some(Parsed(Atom(ts[0]), ts[1..]))
    else if ts[0].Identifier? then
      if !Begins(ts[1..], OpenParen) then Some(Parsed(Atom(ts[0]), ts[1..])) else
      match ParseArguments(ts[2..]) {
        case None => None
        case Some(a) => Some(Parsed(Call(ts[0], a.args), a.rest))
      }
    else if ts[0].p.OpenParen? then
      match Climb(ts[1..], 16) {
        case None => None
        case Some(x) => if Begins(x.rest, CloseParen) then Some(Parsed(Paren(x.tree), x.rest[1..])) else None
      }
    else if IsPrefix(ts[0].p) then
      match Climb(ts[1..], 3) {
        case None => None
        case Some(x) => if Takes(ts[0].p, x.tree) then Some(Parsed(Prefix(ts[0].p, x.tree), x.rest)) else None
      }
    else Some(Parsed(Nothing, ts))
  }

  datatype ParsedArguments = ParsedArguments(args: Arguments, rest: seq<Token>)

  /** The arguments of a call up to its closing parenthesis; a missing one crashes. */
  function ParseArguments(ts: seq<Token>): (r: Option<ParsedArguments>)
    ensures r.Some? ==> |r.value.rest| < |ts|
    decreases |ts|, 3
  {
    if Begins(ts, CloseParen) then Some(ParsedArguments(NoMore, ts[1..])) else
    match Climb(ts, 16)
    case None => None
    case Some(x) =>
      if Null(x.tree) then None
      else if Begins(x.rest, CloseParen) then Some(ParsedArguments(Argument(x.tree, false, NoMore), x.rest[1..]))
      else if !Begins(x.rest, Comma) then None
      else
        match ParseArguments(x.rest[1..])
        case None => None
        case Some(a) => Some(ParsedArguments(Argument(x.tree, true, a.args), a.rest))
  }

  /** parse_expression_intermediate. */
  function Climb(ts: seq<Token>, bound: int): (r: Option<Parsed>)
    ensures r.Some? ==> |r.value.rest| <= |ts| && (!Null(r.value.tree) ==> |r.value.rest| < |ts|)
    decreases |ts|, 2
  {
    match ParseUnary(ts)
    case None => None
    case Some(x) => if Null(x.tree) then Some(x) else ParseOperators(x.tree, x.rest, bound)
  }

  /** The loop over operators; the end of input crashes it. */
  function ParseOperators(t: Tree, ts: seq<Token>, bound: int): (r: Option<Parsed>)
    requires !Null(t)
    ensures r.Some? ==> |r.value.rest| <= |ts| && !Null(r.value.tree)
    decreases |ts|, 1
  {
    if |ts| == 0 then None
    else if Stops(ts[0], bound) then Some(Parsed(t, ts))
    else
      match ParseOperator(t, ts) {
        case None => None
        case Some(x) => ParseOperators(x.tree, x.rest, bound)
      }
  }

  /** One operator and what follows it. */
  function ParseOperator(t: Tree, ts: seq<Token>): (r: Option<Parsed>)
    requires !Null(t) && |ts| > 0 && ts[0].Punctuation? && Priority(ts[0].p) >= 0
    ensures r.Some? ==> |r.value.rest| < |ts| && !Null(r.value.tree)
    decreases |ts|, 0
  {
    var p := ts[0].p;
    if p.Question? then
      match Climb(ts[1..], 16) {
        case None => None
        case Some(y) =>
          if Null(y.tree) || !Begins(y.rest, Colon) then None else
          match Climb(y.rest[1..], 16) {
            case None => None
            case Some(n) => Some(Parsed(Conditional(t, y.tree, n.tree), n.rest))
          }
      }
    else if p.Dot? || p.Arrow? then
      if |ts| > 1 && IsName(ts[1]) then Some(Parsed(Member(t, p, ts[1]), ts[2..])) else None
    else if p.OpenBracket? then
      match Climb(ts[1..], 16) {
        case None => None
        case Some(i) =>
          if Null(i.tree) || !Begins(i.rest, CloseBracket) then None else Some(Parsed(Index(t, i.tree), i.rest[1..]))
      }
    else if p.Increment? || p.Decrement? then
      if IsLValue(t) then Some(Parsed(Postfix(p, t), ts[1..])) else None
    else if IsAssignment(p) && !IsLValue(t) then None
    else
      match Climb(ts[1..], OperandBound(p)) {
        case None => None
        case Some(x) => if Null(x.tree) then None else Some(Parsed(Binary(p, t, x.tree), x.rest))
      }
  }

  // --------------------------------------------------------- the language

  /** Followed by this token, every operand at the tree's right edge ends where it does:
      the token is no operator that operand's bound would let in. */
  predicate Closed(t: Tree, token: Token)
    decreases t, 0
  {
    match t
    case Nothing => NoOperand(token)
    case Atom(a) => a.Identifier? ==> token != Punctuation(OpenParen)
    case Prefix(_, x) => Halts(x, token, 3)
    case Binary(op, _, r) => Halts(r, token, OperandBound(op))
    case Conditional(_, _, n) => Halts(n, token, 16)
    case _ => true
  }

  predicate Halts(t: Tree, token: Token, bound: int)
    decreases t, 1
  {
    Closed(t, token) && (Null(t) || Stops(token, bound))
  }

  /** A tree as a left operand of an operator, inside an operand with this bound. */
  predicate Leads(t: Tree, op: Punct, bound: int)
    decreases t, 1
  {
    !Null(t) && WellFormed(t, bound) && 0 <= Priority(op) < bound && Closed(t, Punctuation(op))
  }

  /** The trees of an operand parsed with this bound. */
  predicate WellFormed(t: Tree, bound: int)
    decreases t, 0
  {
    match t
    case Nothing => true
    case Atom(a) => IsOperand(a)
    case Paren(x) => WellFormed(x, 16)
    case Prefix(op, x) => IsPrefix(op) && Takes(op, x) && WellFormed(x, 3)
    case Postfix(op, x) => (op.Increment? || op.Decrement?) && IsLValue(x) && Leads(x, op, bound)
    case Member(x, op, field) => (op.Dot? || op.Arrow?) && IsName(field) && Leads(x, op, bound)
    case Index(x, i) => Leads(x, OpenBracket, bound) && WellFormed(i, 16) && !Null(i)
    case Binary(op, l, r) =>
      IsBinary(op) && (IsAssignment(op) ==> IsLValue(l)) && Leads(l, op, bound) && WellFormed(r, OperandBound(op)) && !Null(r)
    case Conditional(c, y, n) => Leads(c, Question, bound) && WellFormed(y, 16) && !Null(y) && WellFormed(n, 16)
    case Call(name, args) => name.Identifier? && WellFormedArguments(args)
  }

  /** Full expressions with commas between them. */
  predicate WellFormedArguments(args: Arguments)
    decreases args, 0
  {
    match args
    case NoMore => true
    case Argument(e, comma, more) => WellFormed(e, 16) && !Null(e) && (!comma ==> more.NoMore?) && WellFormedArguments(more)
  }

  /** A bracket, colon or other separator closes every tree. */
  predicate Separates(token: Token) {
    token.Punctuation? && NoOperand(token) && Priority(token.p) < 0
  }

  lemma {:induction false} SeparatorCloses(t: Tree, token: Token, bound: int)
    requires Separates(token)
    ensures Halts(t, token, bound)
    decreases t
  {
    match t {
      case Prefix(_, x) => SeparatorCloses(x, token, 3);
      case Binary(op, _, r) => SeparatorCloses(r, token, OperandBound(op));
      case Conditional(_, _, n) => SeparatorCloses(n, token, 16);
      case _ =>
    }
  }

  // ----------------------------------------------------------- soundness

  /** The result of parsing an operand, with what may come after it. */
  ghost predicate Sound(ts: seq<Token>, x: Parsed, bound: int) {
    ts == Yield(x.tree) + x.rest && WellFormed(x.tree, bound) && (|x.rest| > 0 ==> Closed(x.tree, x.rest[0]))
  }

  lemma {:induction false} UnarySound(ts: seq<Token>, bound: int)
    requires ParseUnary(ts).Some?
    ensures Sound(ts, ParseUnary(ts).value, bound)
    ensures ParseUnary(ts).value.tree.Nothing? ==> |ParseUnary(ts).value.rest| > 0
    decreases |ts|, 1
  {
    hide Climb, Yield, WellFormed, Closed;
    if Begins(ts, OpenParen) {
      ParenSound(ts, bound);
    } else if ts[0].Identifier? && Begins(ts[1..], OpenParen) {
      CallSound(ts, bound);
    } else if ts[0].Punctuation? && IsPrefix(ts[0].p) {
      PrefixSound(ts, bound);
    } else {
      LeafSound(ts, bound);
    }
  }

  lemma LeafSound(ts: seq<Token>, bound: int)
    requires ParseUnary(ts).Some? && !Begins(ts, OpenParen) && !(ts[0].Punctuation? && IsPrefix(ts[0].p))
    requires !(ts[0].Identifier? && Begins(ts[1..], OpenParen))
    ensures Sound(ts, ParseUnary(ts).value, bound)
  {
    hide Climb;
    assert ts == [ts[0]] + ts[1..];
  }

  lemma {:induction false} CallSound(ts: seq<Token>, bound: int)
    requires ParseUnary(ts).Some? && ts[0].Identifier? && Begins(ts[1..], OpenParen)
    ensures Sound(ts, ParseUnary(ts).value, bound)
    decreases |ts|, 0
  {
    hide ParseArguments, YieldArguments, WellFormedArguments;
    ArgumentsSound(ts[2..]);
    var a := ParseArguments(ts[2..]).value;
    assert ts == [ts[0], Punctuation(OpenParen)] + ts[2..];
    assert ts == [ts[0], Punctuation(OpenParen)] + (YieldArguments(a.args) + [Punctuation(CloseParen)]) + a.rest;
  }

  lemma {:induction false} ArgumentsSound(ts: seq<Token>)
    requires ParseArguments(ts).Some?
    ensures var a := ParseArguments(ts).value;
      ts == YieldArguments(a.args) + ([Punctuation(CloseParen)] + a.rest) && WellFormedArguments(a.args)
    decreases |ts|, 3
  {
    hide Climb, Yield, WellFormed, Null;
    if Begins(ts, CloseParen) {
      assert ts == [] + ([Punctuation(CloseParen)] + ts[1..]);
    } else {
      ClimbSound(ts, 16);
      var x := Climb(ts, 16).value;
      var y := Yield(x.tree);
      assert x.rest == [x.rest[0]] + x.rest[1..];
      if Begins(x.rest, CloseParen) {
        assert YieldArguments(Argument(x.tree, false, NoMore)) == y + ([] + []);
        assert ts == y + ([Punctuation(CloseParen)] + x.rest[1..]);
      } else {
        ArgumentsSound(x.rest[1..]);
        var a := ParseArguments(x.rest[1..]).value;
        Four(y, [Punctuation(Comma)], YieldArguments(a.args), [], [Punctuation(CloseParen)] + a.rest);
        assert YieldArguments(a.args) + [] == YieldArguments(a.args);
        assert [] + ([Punctuation(CloseParen)] + a.rest) == [Punctuation(CloseParen)] + a.rest;
      }
    }
  }

  lemma {:induction false} ParenSound(ts: seq<Token>, bound: int)
    requires ParseUnary(ts).Some? && Begins(ts, OpenParen)
    ensures Sound(ts, ParseUnary(ts).value, bound)
    decreases |ts|, 0
  {
    hide Climb;
    ClimbSound(ts[1..], 16);
    var y := Climb(ts[1..], 16).value;
    assert ts == [ts[0]] + ts[1..];
    assert y.rest == [y.rest[0]] + y.rest[1..];
  }

  lemma {:induction false} PrefixSound(ts: seq<Token>, bound: int)
    requires ParseUnary(ts).Some? && ts[0].Punctuation? && IsPrefix(ts[0].p)
    ensures Sound(ts, ParseUnary(ts).value, bound)
    decreases |ts|, 0
  {
    hide Climb;
    ClimbSound(ts[1..], 3);
    assert ts == [ts[0]] + ts[1..];
  }

  /** What the parser accepts is a tree of the language whose tokens it consumed, and it
      stopped no sooner than it had to. */
  lemma {:induction false} ClimbSound(ts: seq<Token>, bound: int)
    requires Climb(ts, bound).Some?
    ensures var x := Climb(ts, bound).value;
      Sound(ts, x, bound) && (x.tree.Paren? || |x.rest| > 0) && (|x.rest| > 0 ==> Halts(x.tree, x.rest[0], bound))
    decreases |ts|, 2
  {
    hide Yield, WellFormed, Closed, ParseUnary, ParseOperators;
    UnarySound(ts, bound);
    var x := ParseUnary(ts).value;
    if !Null(x.tree) {
      OperatorsSound(x.tree, x.rest, bound);
    }
  }

  lemma {:induction false} OperatorsSound(t: Tree, ts: seq<Token>, bound: int)
    requires !Null(t) && ParseOperators(t, ts, bound).Some? && WellFormed(t, bound) && (|ts| > 0 ==> Closed(t, ts[0]))
    ensures var x := ParseOperators(t, ts, bound).value;
      Sound(Yield(t) + ts, x, bound) && |x.rest| > 0 && Halts(x.tree, x.rest[0], bound)
    decreases |ts|, 1
  {
    hide Yield, WellFormed, Closed, ParseOperator;
    if !Stops(ts[0], bound) {
      OperatorSound(t, ts, bound);
      var x := ParseOperator(t, ts).value;
      OperatorsSound(x.tree, x.rest, bound);
    }
  }

  lemma {:induction false} OperatorSound(t: Tree, ts: seq<Token>, bound: int)
    requires !Null(t) && |ts| > 0 && !Stops(ts[0], bound) && WellFormed(t, bound) && Closed(t, ts[0])
    requires ParseOperator(t, ts).Some?
    ensures Sound(Yield(t) + ts, ParseOperator(t, ts).value, bound)
    decreases |ts|, 0, 2
  {
    hide Yield, WellFormed, Closed, ParseOperator;
    var p := ts[0].p;
    if p.Question? {
      ConditionalSound(t, ts, bound);
    } else if IsBinary(p) {
      BinarySound(t, ts, bound);
    } else {
      PostfixSound(t, ts, bound);
    }
  }

  lemma {:induction false} ConditionalSound(t: Tree, ts: seq<Token>, bound: int)
    requires Begins(ts, Question) && Leads(t, Question, bound) && !Null(t) && ParseOperator(t, ts).Some?
    ensures Sound(Yield(t) + ts, ParseOperator(t, ts).value, bound)
    decreases |ts|, 0, 0
  {
    hide Climb, Leads, ParseOperator, Yield, WellFormed, Closed, Null, Halts;
    var y, n := ConditionalParts(t, ts);
    ClimbSound(ts[1..], 16);
    ClimbSound(y.rest[1..], 16);
    ConditionalTree(t, y.tree, n.tree, bound);
    if |n.rest| > 0 {
      ConditionalCloses(t, y.tree, n.tree, n.rest[0]);
    }
    ConditionalTokens(Yield(t), ts, Yield(y.tree), y.rest, Yield(n.tree), n.rest);
  }

  lemma ConditionalTokens(a: seq<Token>, ts: seq<Token>, y: seq<Token>, mid: seq<Token>, n: seq<Token>, rest: seq<Token>)
    requires Begins(ts, Question) && Begins(mid, Colon) && ts[1..] == y + mid && mid[1..] == n + rest
    ensures a + ts == a + ([Punctuation(Question)] + (y + ([Punctuation(Colon)] + n))) + rest
  {
    assert ts == [Punctuation(Question)] + ts[1..];
    assert mid == [Punctuation(Colon)] + mid[1..];
    Four(a, [Punctuation(Question)], y, [Punctuation(Colon)] + n, rest);
  }

  lemma ConditionalParts(t: Tree, ts: seq<Token>) returns (y: Parsed, n: Parsed)
    requires Begins(ts, Question) && !Null(t) && ParseOperator(t, ts).Some?
    ensures Climb(ts[1..], 16) == Some(y) && !Null(y.tree) && Begins(y.rest, Colon) && Climb(y.rest[1..], 16) == Some(n)
    ensures ParseOperator(t, ts) == Some(Parsed(Conditional(t, y.tree, n.tree), n.rest)) && |y.rest| < |ts|
  {
    hide Climb, Null;
    y := Climb(ts[1..], 16).value;
    n := Climb(y.rest[1..], 16).value;
  }

  lemma ConditionalTree(c: Tree, y: Tree, n: Tree, bound: int)
    requires Leads(c, Question, bound) && WellFormed(y, 16) && !Null(y) && WellFormed(n, 16)
    ensures WellFormed(Conditional(c, y, n), bound)
    ensures Yield(Conditional(c, y, n)) == Yield(c) + ([Punctuation(Question)] + (Yield(y) + ([Punctuation(Colon)] + Yield(n))))
  {
    hide Leads, Null;
  }

  lemma ConditionalCloses(c: Tree, y: Tree, n: Tree, token: Token)
    requires Halts(n, token, 16)
    ensures Closed(Conditional(c, y, n), token)
  {
    hide Halts;
  }

  lemma LeadsWhole(t: Tree, op: Punct, bound: int)
    requires Leads(t, op, bound)
    ensures !Null(t)
  {
  }

  lemma Four(a: seq<Token>, b: seq<Token>, c: seq<Token>, d: seq<Token>, rest: seq<Token>)
    ensures a + (b + (c + (d + rest))) == a + (b + (c + d)) + rest
  {
  }

  lemma {:induction false} BinarySound(t: Tree, ts: seq<Token>, bound: int)
    requires |ts| > 0 && ts[0].Punctuation? && IsBinary(ts[0].p) && Leads(t, ts[0].p, bound) && !Null(t) && ParseOperator(t, ts).Some?
    ensures Sound(Yield(t) + ts, ParseOperator(t, ts).value, bound)
    decreases |ts|, 0, 0
  {
    hide Climb, Leads, ParseOperator, Yield, WellFormed, Closed, Null, Halts;
    var p := ts[0].p;
    var x := BinaryParts(t, ts);
    ClimbSound(ts[1..], OperandBound(p));
    assert ts == [Punctuation(p)] + ts[1..];
    BinaryTree(t, p, x.tree, bound);
    if |x.rest| > 0 {
      BinaryCloses(t, p, x.tree, x.rest[0]);
    }
    Four(Yield(t), [Punctuation(p)], Yield(x.tree), [], x.rest);
  }

  lemma BinaryParts(t: Tree, ts: seq<Token>) returns (x: Parsed)
    requires |ts| > 0 && ts[0].Punctuation? && IsBinary(ts[0].p) && !Null(t) && ParseOperator(t, ts).Some?
    ensures Climb(ts[1..], OperandBound(ts[0].p)) == Some(x) && !Null(x.tree) && (IsAssignment(ts[0].p) ==> IsLValue(t))
    ensures ParseOperator(t, ts) == Some(Parsed(Binary(ts[0].p, t, x.tree), x.rest))
  {
    hide Climb, Null, IsLValue;
    x := Climb(ts[1..], OperandBound(ts[0].p)).value;
  }

  lemma BinaryTree(l: Tree, op: Punct, r: Tree, bound: int)
    requires IsBinary(op) && Leads(l, op, bound) && (IsAssignment(op) ==> IsLValue(l)) && WellFormed(r, OperandBound(op)) && !Null(r)
    ensures WellFormed(Binary(op, l, r), bound) && Yield(Binary(op, l, r)) == Yield(l) + ([Punctuation(op)] + (Yield(r) + []))
  {
    hide Leads, Null, IsBinary, IsAssignment, IsLValue;
    assert Yield(r) + [] == Yield(r);
  }

  lemma BinaryCloses(l: Tree, op: Punct, r: Tree, token: Token)
    requires Halts(r, token, OperandBound(op))
    ensures Closed(Binary(op, l, r), token)
  {
    hide Halts;
  }

  lemma {:induction false} PostfixSound(t: Tree, ts: seq<Token>, bound: int)
    requires |ts| > 0 && ts[0].Punctuation? && 0 <= Priority(ts[0].p) < 3 && Leads(t, ts[0].p, bound) && !Null(t)
    requires ParseOperator(t, ts).Some?
    ensures Sound(Yield(t) + ts, ParseOperator(t, ts).value, bound)
    decreases |ts|, 0, 1
  {
    hide Climb, Leads, Null, Priority, ParseOperator, Sound, Yield;
    PostfixOperators(ts[0].p);
    if ts[0].p.OpenBracket? {
      IndexSound(t, ts, bound);
    } else {
      SuffixSound(t, ts, bound);
    }
  }

  lemma SuffixSound(t: Tree, ts: seq<Token>, bound: int)
    requires |ts| > 0 && ts[0].Punctuation? && (ts[0].p.Dot? || ts[0].p.Arrow? || ts[0].p.Increment? || ts[0].p.Decrement?)
    requires Leads(t, ts[0].p, bound) && !Null(t) && ParseOperator(t, ts).Some?
    ensures Sound(Yield(t) + ts, ParseOperator(t, ts).value, bound)
  {
    hide Climb, Leads, Null;
    assert ts == [ts[0]] + ts[1..];
    if ts[0].p.Dot? || ts[0].p.Arrow? {
      assert ts[1..] == [ts[1]] + ts[2..];
    }
  }

  lemma PostfixOperators(p: Punct)
    requires 0 <= Priority(p) < 3
    ensures p.OpenBracket? || p.Dot? || p.Arrow? || p.Increment? || p.Decrement?
  {
  }

  lemma {:induction false} IndexSound(t: Tree, ts: seq<Token>, bound: int)
    requires Begins(ts, OpenBracket) && Leads(t, OpenBracket, bound) && !Null(t) && ParseOperator(t, ts).Some?
    ensures Sound(Yield(t) + ts, ParseOperator(t, ts).value, bound)
    decreases |ts|, 0, 0
  {
    hide Climb, Leads, Null;
    ClimbSound(ts[1..], 16);
    var i := Climb(ts[1..], 16).value;
    assert ts == [Punctuation(OpenBracket)] + ts[1..];
    assert i.rest == [Punctuation(CloseBracket)] + i.rest[1..];
    Four(Yield(t), [Punctuation(OpenBracket)], Yield(i.tree), [Punctuation(CloseBracket)], i.rest[1..]);
  }

  // -------------------------------------------------------- completeness

  /** A tree of the language, with tokens after it that close it, brings the parser to
      its loop with that tree. */
  lemma {:induction false} ClimbReaches(t: Tree, bound: int, ts: seq<Token>)
    requires !Null(t) && WellFormed(t, bound) && |ts| > 0 && Closed(t, ts[0])
    ensures Climb(Yield(t) + ts, bound) == ParseOperators(t, ts, bound)
    decreases t, 2
  {
    hide *;
    match t {
      case Nothing => NullNothing();
      case Atom(_) => UnaryReaches(t, bound, ts);
      case Paren(_) => UnaryReaches(t, bound, ts);
      case Prefix(_, _) => UnaryReaches(t, bound, ts);
      case Call(_, _) => UnaryReaches(t, bound, ts);
      case _ => ReachesOperator(t, bound, ts);
    }
  }

  lemma NullNothing()
    ensures Null(Nothing)
  {
  }

  lemma {:induction false} UnaryReaches(t: Tree, bound: int, ts: seq<Token>)
    requires t.Atom? || t.Paren? || t.Prefix? || t.Call?
    requires !Null(t) && WellFormed(t, bound) && |ts| > 0 && Closed(t, ts[0])
    ensures Climb(Yield(t) + ts, bound) == ParseOperators(t, ts, bound)
    decreases t, 1
  {
    hide ParseUnary, ParseOperators, WellFormed, Closed, Yield;
    UnaryComplete(t, bound, ts);
  }

  lemma {:induction false} UnaryComplete(t: Tree, bound: int, ts: seq<Token>)
    requires t.Atom? || t.Paren? || t.Prefix? || t.Call?
    requires WellFormed(t, bound) && |ts| > 0 && Closed(t, ts[0])
    ensures ParseUnary(Yield(t) + ts) == Some(Parsed(t, ts))
    decreases t, 0
  {
    hide Climb, ParseArguments, YieldArguments, WellFormedArguments;
    if t.Paren? {
      var tail := [Punctuation(CloseParen)] + ts;
      SeparatorCloses(t.inner, tail[0], 16);
      ClimbComplete(t.inner, 16, tail);
      assert (Yield(t) + ts)[1..] == Yield(t.inner) + tail;
      assert tail[1..] == ts;
    } else if t.Prefix? {
      ClimbComplete(t.operand, 3, ts);
      assert (Yield(t) + ts)[1..] == Yield(t.operand) + ts;
    } else if t.Call? {
      CallComplete(t, bound, ts);
    } else {
      assert (Yield(t) + ts)[1..] == ts;
    }
  }

  lemma {:induction false} CallComplete(t: Tree, bound: int, ts: seq<Token>)
    requires t.Call? && WellFormed(t, bound)
    ensures ParseUnary(Yield(t) + ts) == Some(Parsed(t, ts))
    decreases t, 0, 0
  {
    hide Climb, ParseArguments, YieldArguments, WellFormedArguments;
    var tail := YieldArguments(t.args) + ([Punctuation(CloseParen)] + ts);
    ArgumentsComplete(t.args, ts);
    assert Yield(t) + ts == [t.name, Punctuation(OpenParen)] + tail;
    assert (Yield(t) + ts)[2..] == tail;
  }

  lemma {:induction false} ArgumentsComplete(args: Arguments, rest: seq<Token>)
    requires WellFormedArguments(args)
    ensures ParseArguments(YieldArguments(args) + ([Punctuation(CloseParen)] + rest)) == Some(ParsedArguments(args, rest))
    decreases args, 4
  {
    hide Climb, Yield, WellFormed, Null;
    var end := [Punctuation(CloseParen)] + rest;
    assert end[1..] == rest;
    match args {
      case NoMore => assert YieldArguments(args) + end == end;
      case Argument(e, comma, more) =>
        FirstOf(e, 16);
        var tail := if comma then [Punctuation(Comma)] + (YieldArguments(more) + end) else end;
        assert YieldArguments(args) + end == Yield(e) + tail;
        assert tail[0] == Punctuation(if comma then Comma else CloseParen);
        SeparatorCloses(e, tail[0], 16);
        ClimbComplete(e, 16, tail);
        if comma {
          assert tail[1..] == YieldArguments(more) + end;
          ArgumentsComplete(more, rest);
        }
    }
  }

  /** No expression begins with a closing parenthesis, a brace, a comma or a dot. */
  lemma {:induction false} FirstOf(e: Tree, bound: int)
    requires WellFormed(e, bound) && !Null(e)
    ensures |Yield(e)| > 0 && (Yield(e)[0].Punctuation? ==> Yield(e)[0].p.OpenParen? || IsPrefix(Yield(e)[0].p))
    decreases e
  {
    match e {
      case Postfix(_, x) => FirstOf(x, bound);
      case Member(x, _, _) => FirstOf(x, bound);
      case Index(x, _) => FirstOf(x, bound);
      case Binary(_, l, _) => FirstOf(l, bound);
      case Conditional(c, _, _) => FirstOf(c, bound);
      case _ =>
    }
  }

  /** The left operand of a tree whose root is an operator after it; that operator; the
      tokens after that. */
  function LeftOf(t: Tree): Tree
    requires t.Postfix? || t.Member? || t.Index? || t.Binary? || t.Conditional?
  {
    match t
    case Postfix(_, x) => x
    case Member(x, _, _) => x
    case Index(x, _) => x
    case Binary(_, l, _) => l
    case Conditional(c, _, _) => c
  }

  function RootOf(t: Tree): Punct
    requires t.Postfix? || t.Member? || t.Index? || t.Binary? || t.Conditional?
  {
    match t
    case Postfix(op, _) => op
    case Member(_, op, _) => op
    case Index(_, _) => OpenBracket
    case Binary(op, _, _) => op
    case Conditional(_, _, _) => Question
  }

  function RightOf(t: Tree): seq<Token>
    requires t.Postfix? || t.Member? || t.Index? || t.Binary? || t.Conditional?
  {
    match t
    case Postfix(_, _) => []
    case Member(_, _, field) => [field]
    case Index(_, i) => Yield(i) + [Punctuation(CloseBracket)]
    case Binary(_, _, r) => Yield(r)
    case Conditional(_, y, n) => Yield(y) + ([Punctuation(Colon)] + Yield(n))
  }

  lemma RootParts(t: Tree, bound: int)
    requires t.Postfix? || t.Member? || t.Index? || t.Binary? || t.Conditional?
    requires WellFormed(t, bound)
    ensures LeftOf(t) < t && Leads(LeftOf(t), RootOf(t), bound) && Yield(t) == Yield(LeftOf(t)) + ([Punctuation(RootOf(t))] + RightOf(t))
  {
    hide Closed, Null;
  }

  /** The step from a tree's left operand to the whole of it. */
  lemma {:induction false} ReachesOperator(t: Tree, bound: int, ts: seq<Token>)
    requires t.Postfix? || t.Member? || t.Index? || t.Binary? || t.Conditional?
    requires WellFormed(t, bound) && |ts| > 0 && Closed(t, ts[0]) && !Null(t)
    ensures Climb(Yield(t) + ts, bound) == ParseOperators(t, ts, bound)
    decreases t, 1
  {
    hide Yield, WellFormed, Closed, Climb, LeftOf, RootOf, RightOf, ParseOperator;
    RootParts(t, bound);
    var x, op := LeftOf(t), RootOf(t);
    var tail := [Punctuation(op)] + RightOf(t) + ts;
    assert Yield(t) + ts == Yield(x) + tail;
    ClimbReaches(x, bound, tail);
    OperatorComplete(t, bound, ts);
  }

  lemma {:induction false} OperatorComplete(t: Tree, bound: int, ts: seq<Token>)
    requires t.Postfix? || t.Member? || t.Index? || t.Binary? || t.Conditional?
    requires WellFormed(t, bound) && |ts| > 0 && Closed(t, ts[0]) && !Null(LeftOf(t)) && Priority(RootOf(t)) >= 0
    ensures ParseOperator(LeftOf(t), [Punctuation(RootOf(t))] + RightOf(t) + ts) == Some(Parsed(t, ts))
    decreases t, 0
  {
    hide *;
    match t {
      case Postfix(_, _) => SuffixComplete(t, bound, ts);
      case Member(_, _, _) => SuffixComplete(t, bound, ts);
      case Index(_, _) => IndexComplete(t, bound, ts);
      case Binary(_, _, _) => BinaryComplete(t, bound, ts);
      case Conditional(_, _, _) => ConditionalComplete(t, bound, ts);
    }
  }

  lemma SuffixComplete(t: Tree, bound: int, ts: seq<Token>)
    requires t.Postfix? || t.Member?
    requires WellFormed(t, bound) && !Null(LeftOf(t)) && Priority(RootOf(t)) >= 0
    ensures ParseOperator(LeftOf(t), [Punctuation(RootOf(t))] + RightOf(t) + ts) == Some(Parsed(t, ts))
  {
    hide Climb, Null, Leads, Closed;
    var tail := [Punctuation(RootOf(t))] + RightOf(t) + ts;
    if t.Postfix? {
      assert tail[1..] == ts;
    } else {
      assert tail[2..] == ts;
    }
  }

  lemma {:induction false} IndexComplete(t: Tree, bound: int, ts: seq<Token>)
    requires t.Index? && WellFormed(t, bound) && |ts| > 0 && !Null(LeftOf(t)) && Priority(RootOf(t)) >= 0
    ensures ParseOperator(LeftOf(t), [Punctuation(RootOf(t))] + RightOf(t) + ts) == Some(Parsed(t, ts))
    decreases t, 0, 0
  {
    hide Climb, Null, Leads, Closed, Yield;
    var tail := [Punctuation(OpenBracket)] + RightOf(t) + ts;
    var after := [Punctuation(CloseBracket)] + ts;
    SeparatorCloses(t.index, after[0], 16);
    ClimbComplete(t.index, 16, after);
    assert tail[1..] == Yield(t.index) + after;
    assert after[1..] == ts;
  }

  lemma {:induction false} BinaryComplete(t: Tree, bound: int, ts: seq<Token>)
    requires t.Binary? && WellFormed(t, bound) && |ts| > 0 && Closed(t, ts[0]) && !Null(LeftOf(t)) && Priority(RootOf(t)) >= 0
    ensures ParseOperator(LeftOf(t), [Punctuation(RootOf(t))] + RightOf(t) + ts) == Some(Parsed(t, ts))
    decreases t, 0, 0
  {
    hide Climb, Null, Leads, Yield, Halts;
    var tail := [Punctuation(t.op)] + RightOf(t) + ts;
    ClimbComplete(t.right, OperandBound(t.op), ts);
    assert tail[1..] == Yield(t.right) + ts;
  }

  lemma {:induction false} ConditionalComplete(t: Tree, bound: int, ts: seq<Token>)
    requires t.Conditional? && WellFormed(t, bound) && |ts| > 0 && Closed(t, ts[0])
    ensures !Null(LeftOf(t)) && Priority(RootOf(t)) >= 0
    ensures ParseOperator(LeftOf(t), [Punctuation(RootOf(t))] + RightOf(t) + ts) == Some(Parsed(t, ts))
    decreases t, 0, 0
  {
    hide Climb, Yield, Null, Leads, Halts;
    var after := Yield(t.no) + ts;
    var mid := [Punctuation(Colon)] + after;
    var tail := [Punctuation(Question)] + RightOf(t) + ts;
    LeadsWhole(t.cond, Question, bound);
    SeparatorCloses(t.yes, mid[0], 16);
    ClimbComplete(t.yes, 16, mid);
    ClimbComplete(t.no, 16, ts);
    assert tail[1..] == Yield(t.yes) + mid;
    assert mid[1..] == after;
    ConditionalStep(t.cond, tail, Parsed(t.yes, mid), Parsed(t.no, ts));
  }

  lemma ConditionalStep(t: Tree, ts: seq<Token>, y: Parsed, n: Parsed)
    requires Begins(ts, Question) && !Null(t) && Climb(ts[1..], 16) == Some(y) && !Null(y.tree) && Begins(y.rest, Colon)
    requires Climb(y.rest[1..], 16) == Some(n)
    ensures ParseOperator(t, ts) == Some(Parsed(Conditional(t, y.tree, n.tree), n.rest))
  {
    hide Climb, Null;
  }

  /** Every tree of the language is parsed back from its tokens, whatever follows that
      makes the parser stop. */
  lemma {:induction false} ClimbComplete(t: Tree, bound: int, rest: seq<Token>)
    requires WellFormed(t, bound) && |rest| > 0 && Halts(t, rest[0], bound)
    ensures Climb(Yield(t) + rest, bound) == Some(Parsed(t, rest))
    decreases t, 3
  {
    hide WellFormed, Closed, ParseOperators;
    if t.Nothing? {
      NothingComplete(rest, bound);
    } else if Null(t) {
      hide Yield;
      UnaryComplete(t, bound, rest);
    } else {
      hide Yield;
      ClimbReaches(t, bound, rest);
      OperatorsStop(t, rest, bound);
    }
  }

  lemma NothingComplete(rest: seq<Token>, bound: int)
    requires |rest| > 0 && Closed(Nothing, rest[0])
    ensures Climb(Yield(Nothing) + rest, bound) == Some(Parsed(Nothing, rest))
  {
    assert Yield(Nothing) + rest == rest;
  }

  lemma OperatorsStop(t: Tree, rest: seq<Token>, bound: int)
    requires !Null(t) && |rest| > 0 && Stops(rest[0], bound)
    ensures ParseOperators(t, rest, bound) == Some(Parsed(t, rest))
  {
  }

  /** The parser and the language agree exactly: with a token to stop at, it accepts a
      tree and a rest if and only if they make up the input, the tree belongs to the
      bound's language and the token stops it. */
  lemma ClimbExact(ts: seq<Token>, bound: int, t: Tree, rest: seq<Token>)
    requires |rest| > 0
    ensures Climb(ts, bound) == Some(Parsed(t, rest)) <==>
      ts == Yield(t) + rest && WellFormed(t, bound) && Halts(t, rest[0], bound)
  {
    hide Climb, Yield, WellFormed, Halts;
    if Climb(ts, bound) == Some(Parsed(t, rest)) {
      ClimbSound(ts, bound);
    }
    if ts == Yield(t) + rest && WellFormed(t, bound) && Halts(t, rest[0], bound) {
      ClimbComplete(t, bound, rest);
    }
  }

  /** No two trees of the language are written with the same tokens. */
  lemma Unambiguous(t: Tree, u: Tree, bound: int)
    requires WellFormed(t, bound) && WellFormed(u, bound) && Yield(t) == Yield(u)
    ensures t == u
  {
    hide Climb, Yield, WellFormed;
    var rest := [Punctuation(Semicolon)];
    SeparatorCloses(t, rest[0], bound);
    SeparatorCloses(u, rest[0], bound);
    ClimbComplete(t, bound, rest);
    ClimbComplete(u, bound, rest);
  }
}
