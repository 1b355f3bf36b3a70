/** The expression parser as it runs: token by token over the push-back buffer, with a loop
    over operators. */
module ExpressionParser {
  import opened Runs
  import opened Grammar
  import opened TokenSource

  class Parser {
    const lexer: Lexer

    constructor (lexer: Lexer)
      ensures this.lexer == lexer
    {
      this.lexer := lexer;
    }

    /** What a parsing method leaves behind: the tree and the rest of the tokens. */
    ghost predicate Yields(p: Option<Parsed>, r: Option<Tree>)
      reads lexer, lexer.buffer
    {
      r.Some? == p.Some? && (r.Some? ==> r.value == p.value.tree && lexer.Remaining() == p.value.rest)
    }

    /** parse_expect. */
    method Expect(p: Punct) returns (ok: bool)
      requires lexer.Valid()
      modifies lexer.Repr
      ensures lexer.Valid() && fresh(lexer.Repr - old(lexer.Repr))
      ensures ok == Begins(old(lexer.Remaining()), p)
      ensures ok ==> lexer.Remaining() == old(lexer.Remaining())[1..]
    {
      var token := lexer.Next();
      ok := token == Some(Punctuation(p));
    }

    /** parse_expression. */
    method ParseExpression() returns (r: Option<Tree>)
      requires lexer.Valid()
      modifies lexer.Repr
      ensures lexer.Valid() && fresh(lexer.Repr - old(lexer.Repr))
      ensures Yields(Climb(old(lexer.Remaining()), 16), r)
      decreases |lexer.Remaining()|, 3
    {
      r := ParseIntermediate(16);
    }

    /** parse_expression_unary, with parse_expression_primary. */
    method ParseOperand() returns (r: Option<Tree>)
      requires lexer.Valid()
      modifies lexer.Repr
      ensures lexer.Valid() && fresh(lexer.Repr - old(lexer.Repr))
      ensures Yields(ParseUnary(old(lexer.Remaining())), r)
      decreases |lexer.Remaining()|, 1
    {
      hide Climb, lexer.Valid;
      var token := lexer.Next();
      if token.None? || token.value.Keyword? {
        return None;
      }
      if IsConstant(token.value) {
        return Some(Atom(token.value));
      }
      if token.value.Identifier? {
        assert old(lexer.Remaining()) == [token.value] + lexer.Remaining();
        r := ParseGeneric(token.value);
        return;
      }
      if token.value.p.OpenParen? {
        r := ParseExpression();
        if r.Some? {
          var closed := Expect(CloseParen);
          r := if closed then Some(Paren(r.value)) else None;
        }
        return;
      }
      if IsPrefix(token.value.p) {
        r := ParseIntermediate(3);
        if r.Some? {
          r := if Takes(token.value.p, r.value) then Some(Prefix(token.value.p, r.value)) else None;
        }
        return;
      }
      lexer.Unget(token);
      r := Some(Nothing);
    }

    /** parse_generic: a variable, or a call if a parenthesis follows. */
    method ParseGeneric(name: Token) returns (r: Option<Tree>)
      requires lexer.Valid() && name.Identifier?
      modifies lexer.Repr
      ensures lexer.Valid() && fresh(lexer.Repr - old(lexer.Repr))
      ensures Yields(ParseUnary([name] + old(lexer.Remaining())), r)
      decreases |lexer.Remaining()|, 6
    {
      hide Climb, ParseArguments, lexer.Valid;
      ghost var ts := [name] + lexer.Remaining();
      assert ts[1..] == lexer.Remaining();
      var token := lexer.Next();
      if token == Some(Punctuation(OpenParen)) {
        assert ts[2..] == lexer.Remaining();
        r := ParseCall(name);
        return;
      }
      lexer.Unget(token);
      r := Some(Atom(name));
    }

    /** parse_function_call: the loop over the arguments, which pushes each on a list. */
    method ParseCall(name: Token) returns (r: Option<Tree>)
      requires lexer.Valid() && name.Identifier?
      modifies lexer.Repr
      ensures lexer.Valid() && fresh(lexer.Repr - old(lexer.Repr))
      ensures Yields(Called(name, ParseArguments(old(lexer.Remaining()))), r)
      decreases |lexer.Remaining()|, 5
    {
      hide Climb, ParseArguments, Null, Pushed, WithCommas, lexer.Valid;
      ghost var start := lexer.Remaining();
      var list: seq<Tree> := [];
      PushedNone(ParseArguments(start));
      while true
        invariant lexer.Valid() && fresh(lexer.Repr - old(lexer.Repr)) && |lexer.Remaining()| <= |start|
        invariant ParseArguments(start) == Pushed(list, ParseArguments(lexer.Remaining()))
        decreases |lexer.Remaining()|
      {
        ghost var ts := lexer.Remaining();
        ArgumentsLevel(ts);
        var closed := CloseComes();
        if closed {
          PushedSome(list, NoMore, ts[1..]);
          return Some(Call(name, WithCommas(list, NoMore)));
        }
        var e, comma := ParseArgument();
        if e.None? {
          PushedMissing(list);
          return None;
        }
        if !comma {
          PushedSome(list, Argument(e.value, false, NoMore), lexer.Remaining());
          return Some(Call(name, WithCommas(list, Argument(e.value, false, NoMore))));
        }
        PushedTwice(list, e.value, ParseArguments(lexer.Remaining()));
        list := list + [e.value];
      }
    }

    /** Takes a closing parenthesis, if one is next. */
    method CloseComes() returns (closed: bool)
      requires lexer.Valid()
      modifies lexer.Repr
      ensures lexer.Valid() && fresh(lexer.Repr - old(lexer.Repr))
      ensures closed == Begins(old(lexer.Remaining()), CloseParen)
      ensures lexer.Remaining() == if closed then old(lexer.Remaining())[1..] else old(lexer.Remaining())
    {
      ghost var ts := lexer.Remaining();
      var token := lexer.Next();
      closed := token == Some(Punctuation(CloseParen));
      if !closed {
        lexer.Unget(token);
        assert lexer.Remaining() == ts;
      }
    }

    /** One round of the loop: an argument and the comma or parenthesis after it. */
    method ParseArgument() returns (e: Option<Tree>, comma: bool)
      requires lexer.Valid()
      modifies lexer.Repr
      ensures lexer.Valid() && fresh(lexer.Repr - old(lexer.Repr))
      ensures var p := Climb(old(lexer.Remaining()), 16);
        e.Some? == (p.Some? && !Null(p.value.tree) && (Begins(p.value.rest, Comma) || Begins(p.value.rest, CloseParen))) &&
        (e.Some? ==>
          e.value == p.value.tree && comma == Begins(p.value.rest, Comma) && lexer.Remaining() == p.value.rest[1..] &&
          |lexer.Remaining()| < |old(lexer.Remaining())|)
      decreases |lexer.Remaining()|, 4
    {
      hide Climb, Null, lexer.Valid;
      e := ParseExpression();
      if e.None? || Null(e.value) {
        return None, false;
      }
      var token := lexer.Next();
      comma := token == Some(Punctuation(Comma));
      if !comma && token != Some(Punctuation(CloseParen)) {
        e := None;
      }
    }

    /** parse_expression_intermediate: the loop with a bound. */
    method ParseIntermediate(precision: int) returns (r: Option<Tree>)
      requires lexer.Valid()
      modifies lexer.Repr
      ensures lexer.Valid() && fresh(lexer.Repr - old(lexer.Repr))
      ensures Yields(Climb(old(lexer.Remaining()), precision), r)
      decreases |lexer.Remaining()|, 2
    {
      hide ParseUnary, ParseOperators, ParseOperator, Null, lexer.Valid;
      ghost var start := lexer.Remaining();
      r := ParseOperand();
      if r.None? || Null(r.value) {
        return;
      }
      var ast := r.value;
      while true
        invariant lexer.Valid() && fresh(lexer.Repr - old(lexer.Repr)) && !Null(ast)
        invariant Climb(start, precision) == ParseOperators(ast, lexer.Remaining(), precision) && |lexer.Remaining()| < |start|
        decreases |lexer.Remaining()|
      {
        ghost var ts := lexer.Remaining();
        OperatorsLevel(ast, ts, precision);
        var token := lexer.Next();
        if token.None? {
          return None;
        }
        if Stops(token.value, precision) {
          lexer.Unget(token);
          return Some(ast);
        }
        r := ParseAfter(ast, token.value);
        if r.None? {
          return;
        }
        ast := r.value;
      }
    }

    /** One round of the loop, its operator already read. */
    method ParseAfter(ast: Tree, token: Token) returns (r: Option<Tree>)
      requires lexer.Valid() && !Null(ast) && token.Punctuation? && Priority(token.p) >= 0
      modifies lexer.Repr
      ensures lexer.Valid() && fresh(lexer.Repr - old(lexer.Repr))
      ensures Yields(ParseOperator(ast, [token] + old(lexer.Remaining())), r)
      decreases |lexer.Remaining()|, 5
    {
      hide Climb, lexer.Valid;
      ghost var ts := [token] + lexer.Remaining();
      assert ts[1..] == lexer.Remaining();
      var p := token.p;
      if p.Question? {
        r := ParseCondition(ast);
      } else if p.Dot? || p.Arrow? {
        r := ParseField(ast, p);
      } else if p.OpenBracket? {
        r := ParseSubscript(ast);
      } else if p.Increment? || p.Decrement? {
        r := if IsLValue(ast) then Some(Postfix(p, ast)) else None;
      } else if IsAssignment(p) && !IsLValue(ast) {
        r := None;
      } else {
        r := ParseIntermediate(OperandBound(p));
        if r.Some? {
          r := if Null(r.value) then None else Some(Binary(p, ast, r.value));
        }
      }
    }

    /** parse_expression_condition. */
    method ParseCondition(ast: Tree) returns (r: Option<Tree>)
      requires lexer.Valid() && !Null(ast)
      modifies lexer.Repr
      ensures lexer.Valid() && fresh(lexer.Repr - old(lexer.Repr))
      ensures Yields(ParseOperator(ast, [Punctuation(Question)] + old(lexer.Remaining())), r)
      decreases |lexer.Remaining()|, 4
    {
      hide Climb, lexer.Valid;
      assert ([Punctuation(Question)] + lexer.Remaining())[1..] == lexer.Remaining();
      r := ParseExpression();
      if r.None? || Null(r.value) {
        return None;
      }
      var yes := r.value;
      var colon := Expect(Colon);
      if !colon {
        return None;
      }
      r := ParseExpression();
      if r.Some? {
        r := Some(Conditional(ast, yes, r.value));
      }
    }

    /** parse_structure_field. */
    method ParseField(ast: Tree, p: Punct) returns (r: Option<Tree>)
      requires lexer.Valid() && !Null(ast) && (p.Dot? || p.Arrow?)
      modifies lexer.Repr
      ensures lexer.Valid() && fresh(lexer.Repr - old(lexer.Repr))
      ensures Yields(ParseOperator(ast, [Punctuation(p)] + old(lexer.Remaining())), r)
    {
      ghost var ts := [Punctuation(p)] + lexer.Remaining();
      assert ts[1..] == lexer.Remaining();
      var name := lexer.Next();
      if name.Some? {
        assert ts[2..] == lexer.Remaining();
      }
      r := if name.Some? && IsName(name.value) then Some(Member(ast, p, name.value)) else None;
    }

    /** parse_expression_subscript. */
    method ParseSubscript(ast: Tree) returns (r: Option<Tree>)
      requires lexer.Valid() && !Null(ast)
      modifies lexer.Repr
      ensures lexer.Valid() && fresh(lexer.Repr - old(lexer.Repr))
      ensures Yields(ParseOperator(ast, [Punctuation(OpenBracket)] + old(lexer.Remaining())), r)
      decreases |lexer.Remaining()|, 4
    {
      hide Climb, lexer.Valid;
      assert ([Punctuation(OpenBracket)] + lexer.Remaining())[1..] == lexer.Remaining();
      r := ParseExpression();
      if r.None? || Null(r.value) {
        return None;
      }
      var closed := Expect(CloseBracket);
      r := if closed then Some(Index(ast, r.value)) else None;
    }
  }

  /** The expressions of a list, each with a comma after it, and what follows them. */
  function WithCommas(list: seq<Tree>, more: Arguments): Arguments
    decreases |list|
  {
    if |list| == 0 then more else Argument(list[0], true, WithCommas(list[1..], more))
  }

  function Pushed(list: seq<Tree>, p: Option<ParsedArguments>): Option<ParsedArguments> {
    match p
    case None => None
    case Some(a) => Some(ParsedArguments(WithCommas(list, a.args), a.rest))
  }

  function Called(name: Token, p: Option<ParsedArguments>): Option<Parsed> {
    match p
    case None => None
    case Some(a) => Some(Parsed(Call(name, a.args), a.rest))
  }

  lemma PushedNone(p: Option<ParsedArguments>)
    ensures Pushed([], p) == p
  {
  }

  lemma PushedMissing(list: seq<Tree>)
    ensures Pushed(list, None) == None
  {
  }

  lemma PushedSome(list: seq<Tree>, args: Arguments, rest: seq<Token>)
    ensures Pushed(list, Some(ParsedArguments(args, rest))) == Some(ParsedArguments(WithCommas(list, args), rest))
  {
  }

  lemma {:induction false} WithCommasAppend(list: seq<Tree>, e: Tree, more: Arguments)
    ensures WithCommas(list + [e], more) == WithCommas(list, Argument(e, true, more))
    decreases |list|
  {
    if |list| == 0 {
      assert ([e])[1..] == [];
      assert list + [e] == [e];
    } else {
      assert (list + [e])[1..] == list[1..] + [e];
      WithCommasAppend(list[1..], e, more);
    }
  }

  lemma PushedTwice(list: seq<Tree>, e: Tree, p: Option<ParsedArguments>)
    ensures Pushed(list + [e], p) ==
      Pushed(list, if p.None? then None else Some(ParsedArguments(Argument(e, true, p.value.args), p.value.rest)))
  {
    if p.Some? {
      WithCommasAppend(list, e, p.value.args);
    }
  }

  /** One round of the loop over arguments. */
  lemma ArgumentsLevel(ts: seq<Token>)
    ensures Begins(ts, CloseParen) ==> ParseArguments(ts) == Some(ParsedArguments(NoMore, ts[1..]))
    ensures !Begins(ts, CloseParen) && (Climb(ts, 16).None? || Null(Climb(ts, 16).value.tree)) ==> ParseArguments(ts) == None
    ensures !Begins(ts, CloseParen) && Climb(ts, 16).Some? && !Null(Climb(ts, 16).value.tree) ==>
      var x := Climb(ts, 16).value;
      (Begins(x.rest, CloseParen) ==> ParseArguments(ts) == Some(ParsedArguments(Argument(x.tree, false, NoMore), x.rest[1..]))) &&
      (!Begins(x.rest, CloseParen) && !Begins(x.rest, Comma) ==> ParseArguments(ts) == None) &&
      (Begins(x.rest, Comma) ==>
        var p := ParseArguments(x.rest[1..]);
        ParseArguments(ts) == if p.None? then None else Some(ParsedArguments(Argument(x.tree, true, p.value.args), p.value.rest)))
  {
    hide Climb, Null;
  }

  lemma OperatorsLevel(t: Tree, ts: seq<Token>, bound: int)
    requires !Null(t)
    ensures |ts| == 0 ==> ParseOperators(t, ts, bound) == None
    ensures |ts| > 0 && Stops(ts[0], bound) ==> ParseOperators(t, ts, bound) == Some(Parsed(t, ts))
    ensures |ts| > 0 && !Stops(ts[0], bound) ==> ts == [ts[0]] + ts[1..]
    ensures |ts| > 0 && !Stops(ts[0], bound) && ParseOperator(t, ts).None? ==> ParseOperators(t, ts, bound) == None
    ensures |ts| > 0 && !Stops(ts[0], bound) && ParseOperator(t, ts).Some? ==>
      ParseOperators(t, ts, bound) == ParseOperators(ParseOperator(t, ts).value.tree, ParseOperator(t, ts).value.rest, bound)
  {
    hide ParseOperator;
  }
}
