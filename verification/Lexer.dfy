/** The token source with its push-back buffer, and the unbounded look ahead that tells a
    function definition from a declaration. */
module TokenSource {
  import opened Runs
  import opened Grammar
  import opened Lists

  class Lexer {
    /** The tokens that the characters still unread spell. */
    var input: seq<Token>
    const buffer: List<Token>
    ghost var Repr: set<object>

    ghost predicate Valid()
      reads this, Repr
      ensures Valid() ==> this in Repr && buffer in Repr && buffer.Repr <= Repr
    {
      this in Repr && buffer in Repr && buffer.Repr <= Repr && this !in buffer.Repr && buffer.Valid()
    }

    /** The tokens Next will hand out, first to last. */
    ghost function Remaining(): seq<Token>
      reads this, buffer
    {
      Reversed(buffer.contents) + input
    }

    constructor (input: seq<Token>)
      ensures Valid() && fresh(Repr) && Remaining() == input
    {
      this.input := input;
      buffer := new List();
      new;
      Repr := {this} + buffer.Repr;
    }

    method Next() returns (token: Option<Token>)
      requires Valid()
      modifies Repr
      ensures Valid() && fresh(Repr - old(Repr))
      ensures old(Remaining()) == [] ==> token == None && Remaining() == []
      ensures old(Remaining()) != [] ==> token == Some(old(Remaining())[0]) && Remaining() == old(Remaining())[1..]
    {
      if buffer.Length() > 0 {
        ghost var held := buffer.contents;
        ReversedLast(held);
        token := buffer.Pop();
        assert (Reversed(held) + input)[1..] == Reversed(buffer.contents) + input;
      } else {
        assert Reversed(buffer.contents) + input == input;
        if |input| == 0 {
          token := None;
        } else {
          token := Some(input[0]);
          input := input[1..];
        }
      }
    }

    method Unget(token: Option<Token>)
      requires Valid()
      modifies Repr
      ensures Valid() && fresh(Repr - old(Repr))
      ensures Remaining() == if token.None? then old(Remaining()) else [token.value] + old(Remaining())
    {
      if token.None? {
        return;
      }
      ReversedAppend(buffer.contents, [token.value]);
      assert Reversed([token.value]) == [token.value];
      buffer.Push(token.value);
      Repr := Repr + buffer.Repr;
    }

    method Peek() returns (token: Option<Token>)
      requires Valid()
      modifies Repr
      ensures Valid() && fresh(Repr - old(Repr)) && Remaining() == old(Remaining())
      ensures token == if Remaining() == [] then None else Some(Remaining()[0])
    {
      token := Next();
      Unget(token);
    }

    /** parse_function_definition_check: None in the result stands for a compile error. What
        it says depends on the tokens alone, and they are all still there afterwards. */
    method FunctionDefinitionCheck() returns (ready: Option<bool>)
      requires Valid()
      modifies Repr
      ensures Valid() && fresh(Repr - old(Repr))
      ensures ready == Lookahead(old(Remaining()), 0, false)
      ensures ready.Some? ==> Remaining() == old(Remaining())
    {
      hide Lookahead, Reversed, Valid, Remaining, List.Valid, List.Shape;
      var held := new List<Option<Token>>();
      ghost var ts := Remaining();
      var nests, paren := 0, false;
      while true
        invariant Valid() && held.Valid() && fresh(Repr - old(Repr)) && fresh(held.Repr) && Repr !! held.Repr
        invariant Copied(held, ts) && Lookahead(ts, 0, false) == Lookahead(Remaining(), nests, paren)
        decreases |Remaining()|
      {
        LookaheadStep(Remaining(), nests, paren);
        var token := Take(held, ts);
        if token.None? {
          return None;
        }
        if nests == 0 && paren && token.value == Punctuation(OpenBrace) {
          ready := Some(true);
          break;
        }
        if nests == 0 && Ends(token.value) {
          ready := Some(false);
          break;
        }
        if token.value == Punctuation(OpenParen) {
          nests := nests + 1;
        }
        if token.value == Punctuation(CloseParen) {
          if nests == 0 {
            return None;
          }
          paren := true;
          nests := nests - 1;
        }
      }
      GiveBack(held, ts);
    }

    /** Moves the next token to the list. */
    method Take(held: List<Option<Token>>, ghost ts: seq<Token>) returns (token: Option<Token>)
      requires Valid() && held.Valid() && Repr !! held.Repr && Copied(held, ts)
      modifies Repr, held.Repr
      ensures Valid() && held.Valid() && fresh(Repr - old(Repr)) && fresh(held.Repr - old(held.Repr)) && Repr !! held.Repr
      ensures token == if old(Remaining()) == [] then None else Some(old(Remaining())[0])
      ensures token.Some? ==> Remaining() == old(Remaining())[1..] && Copied(held, ts)
    {
      hide Reversed, Valid, List.Valid, List.Shape;
      token := Next();
      held.Push(token);
    }

    /** Pushes the tokens of the list back, last to first. */
    method GiveBack(held: List<Option<Token>>, ghost ts: seq<Token>)
      requires Valid() && held.Valid() && Repr !! held.Repr && Copied(held, ts)
      modifies Repr, held.Repr
      ensures Valid() && fresh(Repr - old(Repr)) && Remaining() == ts
    {
      hide Reversed, Valid, List.Valid, List.Shape;
      while held.Length() > 0
        invariant Valid() && held.Valid() && fresh(Repr - old(Repr)) && held.Repr == old(held.Repr) && Repr !! held.Repr && Copied(held, ts)
        decreases |held.contents|
      {
        var token := held.Pop();
        Unget(token.value);
      }
    }

    /** The list holds the first of these tokens and the lexer the others. */
    ghost predicate Copied(held: List<Option<Token>>, ts: seq<Token>)
      reads this, buffer, held
    {
      |held.contents| <= |ts| && Remaining() == ts[|held.contents|..] && forall k :: 0 <= k < |held.contents| ==> held.contents[k] == Some(ts[k])
    }
  }

  /** A token that settles, outside parentheses, that this is a declaration. */
  predicate Ends(token: Token) {
    token == Punctuation(Semicolon) || token == Punctuation(Comma) || token == Punctuation(Assign)
  }

  lemma ReversedLast<T>(s: seq<T>)
    requires |s| > 0
    ensures Reversed(s) == [s[|s| - 1]] + Reversed(s[..|s| - 1])
  {
    ReversedStep(s, |s| - 1);
    assert s[..|s|] == s;
  }

  /** What the check finds out. */
  function Lookahead(ts: seq<Token>, nests: nat, paren: bool): Option<bool>
    decreases |ts|
  {
    if |ts| == 0 then None
    else if nests == 0 && paren && ts[0] == Punctuation(OpenBrace) then Some(true)
    else if nests == 0 && Ends(ts[0]) then Some(false)
    else if ts[0] == Punctuation(OpenParen) then Lookahead(ts[1..], nests + 1, paren)
    else if ts[0] == Punctuation(CloseParen) then if nests == 0 then None else Lookahead(ts[1..], nests - 1, true)
    else Lookahead(ts[1..], nests, paren)
  }

  lemma LookaheadStep(ts: seq<Token>, nests: nat, paren: bool)
    ensures |ts| == 0 ==> Lookahead(ts, nests, paren) == None
    ensures |ts| > 0 && nests == 0 && paren && ts[0] == Punctuation(OpenBrace) ==> Lookahead(ts, nests, paren) == Some(true)
    ensures |ts| > 0 && nests == 0 && Ends(ts[0]) ==> Lookahead(ts, nests, paren) == Some(false)
    ensures |ts| > 0 && nests == 0 && ts[0] == Punctuation(CloseParen) ==> Lookahead(ts, nests, paren) == None
    ensures |ts| > 0 && ts[0] == Punctuation(OpenParen) ==> Lookahead(ts, nests, paren) == Lookahead(ts[1..], nests + 1, paren)
    ensures |ts| > 0 && nests > 0 && ts[0] == Punctuation(CloseParen) ==> Lookahead(ts, nests, paren) == Lookahead(ts[1..], nests - 1, true)
    ensures |ts| > 0 && Passes(ts[0], nests, paren) ==> Lookahead(ts, nests, paren) == Lookahead(ts[1..], nests, paren)
  {
  }

  /** A token that changes nothing. */
  predicate Passes(token: Token, nests: nat, paren: bool) {
    token != Punctuation(OpenParen) && token != Punctuation(CloseParen) &&
    (nests == 0 ==> !Ends(token) && !(paren && token == Punctuation(OpenBrace)))
  }

  /** How many parentheses are open after these tokens. */
  function Open(ts: seq<Token>): int
    decreases |ts|
  {
    if |ts| == 0 then 0 else Open(ts[..|ts| - 1]) + Step(ts[|ts| - 1])
  }

  function Step(token: Token): int {
    if token == Punctuation(OpenParen) then 1 else if token == Punctuation(CloseParen) then -1 else 0
  }

  /** Token k settles the question: outside parentheses it is the brace of a body, after
      some parenthesis was closed, or a separator, or a parenthesis too many. */
  predicate Settles(ts: seq<Token>, k: nat)
    requires k < |ts|
  {
    Open(ts[..k]) == 0 &&
    (Ends(ts[k]) || ts[k] == Punctuation(CloseParen) || (ts[k] == Punctuation(OpenBrace) && Punctuation(CloseParen) in ts[..k]))
  }

  predicate SettlesFirst(ts: seq<Token>, k: nat)
    requires k < |ts|
  {
    Settles(ts, k) && forall j :: 0 <= j < k ==> !Settles(ts, j)
  }

  /** The check calls it a function definition exactly when the first token that settles
      the question is an opening brace, and a declaration exactly when it is one of the
      separators. */
  lemma LookaheadMeans(ts: seq<Token>)
    ensures Lookahead(ts, 0, false) == Some(true) <==> exists k :: 0 <= k < |ts| && SettlesFirst(ts, k) && ts[k] == Punctuation(OpenBrace)
    ensures Lookahead(ts, 0, false) == Some(false) <==> exists k :: 0 <= k < |ts| && SettlesFirst(ts, k) && Ends(ts[k])
  {
    assert ts[0..] == ts;
    var k := LookaheadFrom(ts, 0);
    forall j | 0 <= j < |ts| && SettlesFirst(ts, j) ensures j == k {
      OneFirst(ts, j, k);
    }
  }

  lemma OneFirst(ts: seq<Token>, j: nat, k: nat)
    requires j < |ts| && SettlesFirst(ts, j) && k <= |ts|
    requires (forall i :: 0 <= i < k ==> !Settles(ts, i)) && (k < |ts| ==> Settles(ts, k))
    ensures j == k
  {
  }

  lemma {:induction false} LookaheadFrom(ts: seq<Token>, i: nat) returns (k: nat)
    requires i <= |ts| && Open(ts[..i]) >= 0 && forall j :: 0 <= j < i ==> !Settles(ts, j)
    ensures i <= k <= |ts| && (forall j :: 0 <= j < k ==> !Settles(ts, j)) && (k < |ts| ==> Settles(ts, k))
    ensures var r := if k == |ts| || ts[k] == Punctuation(CloseParen) then None else Some(ts[k] == Punctuation(OpenBrace));
      Lookahead(ts[i..], Open(ts[..i]), Punctuation(CloseParen) in ts[..i]) == r
    decreases |ts| - i
  {
    if i == |ts| || Settles(ts, i) {
      k := i;
    } else {
      assert ts[..i + 1][..i] == ts[..i] && ts[i..][1..] == ts[i + 1..];
      k := LookaheadFrom(ts, i + 1);
    }
  }
}
