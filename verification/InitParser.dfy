/** The initializer parser as it runs: a class that appends to the list as it reads, by the
    mutual recursion of elements, arrays and structures. */
module InitializerParser {
  import opened Runs
  import opened Grammar
  import opened TokenSource
  import opened ExpressionParser
  import opened Layout
  import opened Initializers

  class Flattener {
    const parser: Parser
    const lexer: Lexer
    var init: seq<Entry>

    constructor (parser: Parser)
      ensures this.parser == parser && lexer == parser.lexer && init == []
    {
      this.parser := parser;
      lexer := parser.lexer;
      init := [];
    }

    ghost predicate Ready()
      reads lexer, lexer.Repr
      ensures Ready() ==> this !in lexer.Repr && lexer in lexer.Repr && lexer.buffer in lexer.Repr
    {
      lexer == parser.lexer && lexer.Valid() && this !in lexer.Repr
    }

    /** What a successful method has appended and left to read. */
    ghost predicate Appended(ok: bool, before: seq<Entry>, r: Option<Filled>)
      reads this, lexer, lexer.buffer
    {
      ok == r.Some? && (ok ==> init == before + r.value.entries && lexer.Remaining() == r.value.rest)
    }

    /** parse_initializer_zero. */
    method ParseZero(t: Type, base: int)
      modifies this`init
      ensures init == old(init) + Zeros(t, base)
      decreases t, 1
    {
      match t {
        case Basic(s) => init := init + [Entry(base, s, Zero)];
        case ArrayOf(_, _) => ParseZeroElements(t, 0, base);
        case Structure(_, _, _) => ParseZeroFields(t, base, {}, true);
      }
    }

    method ParseZeroElements(t: Type, from: nat, base: int)
      requires t.ArrayOf?
      modifies this`init
      ensures init == old(init) + ZeroElements(t, from, base)
      decreases t, 0
    {
      hide Zeros, Size;
      var i := from;
      while i < t.length
        invariant init + ZeroElements(t, i, base) == old(init) + ZeroElements(t, from, base)
        decreases t.length - i
      {
        ghost var was := init;
        ParseZero(t.element, base + Size(t.element) * i);
        Regroup(was, Zeros(t.element, base + Size(t.element) * i), ZeroElements(t, i + 1, base));
        i := i + 1;
      }
    }

    method ParseZeroFields(t: Type, base: int, wrote: set<string>, whole: bool)
      requires t.Structure?
      modifies this`init
      ensures init == old(init) + ZeroFields(t, 0, base, wrote, whole)
      decreases t, 0
    {
      hide Zeros;
      var i := 0;
      while i < |t.fields|
        invariant i <= |t.fields|
        invariant init + ZeroFields(t, i, base, wrote, whole) == old(init) + ZeroFields(t, 0, base, wrote, whole)
        decreases |t.fields| - i
      {
        var f := t.fields[i];
        if f.name !in wrote {
          ghost var was := init;
          ParseZero(f.kind, base + f.offset);
          if whole && !t.isStruct {
            return;
          }
          Regroup(was, Zeros(f.kind, base + f.offset), ZeroFields(t, i + 1, base, wrote, whole));
        }
        i := i + 1;
      }
    }

    /** parse_assign_string. */
    method AssignString(s: string, base: int, length: nat)
      modifies this`init
      ensures init == old(init) + Characters(s, base, 0, length)
    {
      var i := 0;
      while i < length
        invariant i <= length && init + Characters(s, base, i, length) == old(init) + Characters(s, base, 0, length)
        decreases length - i
      {
        var c := if i < Length(s) then Character(s[i]) else Character('\0');
        Regroup(init, [Entry(base + i, Char, c)], Characters(s, base, i + 1, length));
        init := init + [Entry(base + i, Char, c)];
        i := i + 1;
      }
    }

    /** parse_commaskip_maybe. */
    method SkipCommaMaybe()
      requires Ready()
      modifies lexer.Repr
      ensures Ready() && fresh(lexer.Repr - old(lexer.Repr)) && lexer.Remaining() == SkipComma(old(lexer.Remaining()))
    {
      var token := lexer.Next();
      if token != Some(Punctuation(Comma)) {
        lexer.Unget(token);
      }
    }

    /** parse_brace_maybe. */
    method BraceMaybe() returns (brace: bool)
      requires Ready()
      modifies lexer.Repr
      ensures Ready() && fresh(lexer.Repr - old(lexer.Repr))
      ensures brace == Begins(old(lexer.Remaining()), OpenBrace)
      ensures lexer.Remaining() == if brace then old(lexer.Remaining())[1..] else old(lexer.Remaining())
    {
      var token := lexer.Next();
      brace := token == Some(Punctuation(OpenBrace));
      if !brace {
        lexer.Unget(token);
      }
    }

    /** parse_brace_skipto. */
    method BraceSkipTo() returns (ok: bool)
      requires Ready()
      modifies lexer.Repr
      ensures Ready() && fresh(lexer.Repr - old(lexer.Repr))
      ensures var p := SkipExcess(old(lexer.Remaining())); ok == p.Some? && (ok ==> lexer.Remaining() == p.value)
    {
      hide Climb, SkipExcess, PastDesignator;
      while true
        invariant Ready() && fresh(lexer.Repr - old(lexer.Repr))
        invariant SkipExcess(old(lexer.Remaining())) == SkipExcess(lexer.Remaining())
        decreases |lexer.Remaining()|
      {
        ExcessLevel(lexer.Remaining());
        var more;
        ok, more := PassDesignator();
        if !ok || !more {
          return;
        }
        var ignored := parser.ParseIntermediate(3);
        if ignored.None? {
          return false;
        }
        if Null(ignored.value) {
          return true;
        }
        SkipCommaMaybe();
      }
    }

    /** The closing brace, or a designator before an expression to be dropped. */
    method PassDesignator() returns (ok: bool, more: bool)
      requires Ready()
      modifies lexer.Repr
      ensures Ready() && fresh(lexer.Repr - old(lexer.Repr)) && more == !Begins(old(lexer.Remaining()), CloseBrace)
      ensures !more ==> ok && lexer.Remaining() == old(lexer.Remaining())[1..]
      ensures more ==> var p := PastDesignator(old(lexer.Remaining())); ok == p.Some? && (ok ==> lexer.Remaining() == p.value)
    {
      var token := lexer.Next();
      more := token != Some(Punctuation(CloseBrace));
      ok := true;
      if token == Some(Punctuation(Dot)) {
        var name := lexer.Next();
        ok := parser.Expect(Punct.Assign);
      } else if more {
        lexer.Unget(token);
      }
    }

    // The methods below follow each other as parse_initializer_element, _list, _array
    // and _structure do.

    method ParseElement(t: Type, base: int) returns (ok: bool)
      requires Ready()
      modifies this`init, lexer.Repr
      ensures Ready() && fresh(lexer.Repr - old(lexer.Repr))
      ensures Appended(ok, old(init), Element(old(lexer.Remaining()), t, base))
      decreases t, 2
    {
      hide Climb, List;
      match t {
        case Basic(s) =>
          var expression := parser.ParseIntermediate(3);
          ok := expression.Some? && !Null(expression.value);
          if ok {
            init := init + [Entry(base, s, Given(expression.value))];
          }
        case ArrayOf(_, _) => ok := ParseList(t, base);
        case Structure(_, _, _) => ok := ParseList(t, base);
      }
    }

    method ParseList(t: Type, base: int) returns (ok: bool)
      requires Ready() && !t.Basic?
      modifies this`init, lexer.Repr
      ensures Ready() && fresh(lexer.Repr - old(lexer.Repr))
      ensures Appended(ok, old(init), Initializers.List(old(lexer.Remaining()), t, base))
      decreases t, 1
    {
      hide Elements, Members, Characters, Ready, lexer.Remaining;
      if IsCharArray(t) {
        var text;
        ok, text := StringAhead();
        if !ok {
          return;
        }
        if text.Some? {
          AssignString(text.value, base, t.length);
          return;
        }
      }
      var brace := BraceMaybe();
      if t.ArrayOf? {
        ok := ParseArray(t, base, brace);
      } else {
        ok := ParseStructure(t, base, brace);
      }
    }

    /** Takes a string, if that comes next; it cannot be in braces. */
    method StringAhead() returns (ok: bool, text: Option<string>)
      requires Ready()
      modifies lexer.Repr
      ensures Ready() && fresh(lexer.Repr - old(lexer.Repr))
      ensures var ts := old(lexer.Remaining());
        ok == !(|ts| == 0 || (Begins(ts, OpenBrace) && (|ts| == 1 || ts[1].StringLiteral?))) &&
        (ok && ts[0].StringLiteral? ==> text == Some(ts[0].text) && lexer.Remaining() == ts[1..]) &&
        (ok && !ts[0].StringLiteral? ==> text == None && lexer.Remaining() == ts)
    {
      ghost var ts := lexer.Remaining();
      var token := lexer.Next();
      if token.None? {
        return false, None;
      }
      if token.value.StringLiteral? {
        return true, Some(token.value.text);
      }
      var next := lexer.Peek();
      if token.value == Punctuation(OpenBrace) && (next.None? || next.value.StringLiteral?) {
        return false, None;
      }
      lexer.Unget(token);
      assert lexer.Remaining() == ts;
      return true, None;
    }

    method ParseArray(t: Type, base: int, brace: bool) returns (ok: bool)
      requires Ready() && t.ArrayOf?
      modifies this`init, lexer.Repr
      ensures Ready() && fresh(lexer.Repr - old(lexer.Repr))
      ensures Appended(ok, old(init), Elements(old(lexer.Remaining()), t, 0, base, brace))
      decreases t, 0
    {
      hide Element, Elements, ZeroElements, SkipExcess, Size, SkipComma, Then, Ready, lexer.Remaining;
      ghost var start := lexer.Remaining();
      ghost var done: seq<Entry> := [];
      ThenNothing(Elements(start, t, 0, base, brace));
      var i := 0;
      while i < t.length
        invariant i <= t.length && Ready() && fresh(lexer.Repr - old(lexer.Repr)) && init == old(init) + done
        invariant Elements(start, t, 0, base, brace) == Then(done, Elements(lexer.Remaining(), t, i, base, brace))
        decreases t.length - i
      {
        ghost var ts := lexer.Remaining();
        ElementsRound(ts, t, i, base, brace, done);
        var close := CloseBraceMaybe(brace);
        if close {
          ParseZeroElements(t, i, base);
          Regroup(old(init), done, ZeroElements(t, i, base));
          return true;
        }
        ghost var was := init;
        ok := ParseElement(t.element, base + Size(t.element) * i);
        if !ok {
          return;
        }
        ghost var x := Element(ts, t.element, base + Size(t.element) * i).value;
        SkipCommaMaybe();
        Regroup(old(init), done, x.entries);
        done := done + x.entries;
        i := i + 1;
      }
      ElementsOver(lexer.Remaining(), t, i, base, brace, done);
      ok := true;
      if brace {
        ok := BraceSkipTo();
      }
    }

    /** Sees a closing brace, and takes it if there was an opening one. */
    method CloseBraceMaybe(brace: bool) returns (close: bool)
      requires Ready()
      modifies lexer.Repr
      ensures Ready() && fresh(lexer.Repr - old(lexer.Repr))
      ensures close == Begins(old(lexer.Remaining()), CloseBrace)
      ensures lexer.Remaining() == if close && brace then old(lexer.Remaining())[1..] else old(lexer.Remaining())
    {
      var token := lexer.Next();
      close := token == Some(Punctuation(CloseBrace));
      if !close || !brace {
        lexer.Unget(token);
      }
    }

    method ParseStructure(t: Type, base: int, brace: bool) returns (ok: bool)
      requires Ready() && t.Structure?
      modifies this`init, lexer.Repr
      ensures Ready() && fresh(lexer.Repr - old(lexer.Repr))
      ensures Appended(ok, old(init), Members(old(lexer.Remaining()), t, 0, {}, base, brace))
      decreases t, 0
    {
      hide Members, ZeroFields, SkipExcess, Then, ReadMember, Finish, Ready, lexer.Remaining;
      ghost var start := lexer.Remaining();
      ghost var done: seq<Entry> := [];
      ThenNothing(Members(start, t, 0, {}, base, brace));
      var i := 0;
      var wrote: set<string> := {};
      while true
        invariant i <= |t.fields| && Ready() && fresh(lexer.Repr - old(lexer.Repr)) && init == old(init) + done
        invariant Members(start, t, 0, {}, base, brace) == Then(done, Members(lexer.Remaining(), t, i, wrote, base, brace))
        decreases |lexer.Remaining()|, |t.fields| - i
      {
        ghost var ts := lexer.Remaining();
        MembersRound(ts, t, i, wrote, base, brace, done);
        var close := CloseBraceMaybe(brace);
        if close {
          ParseZeroFields(t, base, wrote, false);
          Regroup(old(init), done, ZeroFields(t, 0, base, wrote, false));
          return true;
        }
        var dot := DotAhead();
        if !dot && i == |t.fields| {
          ok := FinishStructure(t, base, wrote, brace, old(init), done);
          return;
        }
        ghost var was := init;
        var index;
        ok, index := ParseMember(t, i, wrote, base);
        if !ok {
          return;
        }
        ghost var m := ReadMember(ts, t, i, wrote, base).value;
        Regroup(old(init), done, m.entries);
        done := done + m.entries;
        wrote := wrote + {t.fields[index].name};
        i := index + 1;
        if !t.isStruct {
          ok := FinishStructure(t, base, wrote, brace, old(init), done);
          return;
        }
      }
    }

    method DotAhead() returns (dot: bool)
      requires Ready()
      modifies lexer.Repr
      ensures Ready() && fresh(lexer.Repr - old(lexer.Repr))
      ensures dot == Begins(lexer.Remaining(), Dot) && lexer.Remaining() == old(lexer.Remaining())
    {
      var token := lexer.Peek();
      dot := token == Some(Punctuation(Dot));
    }

    /** One field: its designator, its value and a comma. */
    method ParseMember(t: Type, i: nat, wrote: set<string>, base: int) returns (ok: bool, index: nat)
      requires Ready() && t.Structure? && (i < |t.fields| || Begins(lexer.Remaining(), Dot))
      modifies this`init, lexer.Repr
      ensures Ready() && fresh(lexer.Repr - old(lexer.Repr))
      ensures var p := ReadMember(old(lexer.Remaining()), t, i, wrote, base);
        ok == p.Some? && (ok ==> index == p.value.index && init == old(init) + p.value.entries && lexer.Remaining() == p.value.rest)
      decreases t, 0, 0
    {
      hide Element, SkipComma, NextField;
      ok, index := ParseDesignator(t, i);
      if !ok {
        return;
      }
      var f := t.fields[index];
      if f.name in wrote {
        return false, index;
      }
      ok := ParseElement(f.kind, base + f.offset);
      if ok {
        SkipCommaMaybe();
      }
    }

    /** What is left of a structure once its loop is over. */
    method FinishStructure(t: Type, base: int, wrote: set<string>, brace: bool, ghost before: seq<Entry>, ghost done: seq<Entry>) returns (ok: bool)
      requires Ready() && t.Structure? && init == before + done
      modifies this`init, lexer.Repr
      ensures Ready() && fresh(lexer.Repr - old(lexer.Repr))
      ensures Appended(ok, before, Then(done, Finish(old(lexer.Remaining()), ZeroFields(t, 0, base, wrote, false), brace)))
    {
      hide SkipExcess, ZeroFields;
      ok := true;
      if brace {
        ok := BraceSkipTo();
      }
      if ok {
        ParseZeroFields(t, base, wrote, false);
        Regroup(before, done, ZeroFields(t, 0, base, wrote, false));
      }
    }

    /** The field that comes next: the designated one, or field i. */
    method ParseDesignator(t: Type, i: nat) returns (ok: bool, index: nat)
      requires Ready() && t.Structure? && (i < |t.fields| || Begins(lexer.Remaining(), Dot))
      modifies lexer.Repr
      ensures Ready() && fresh(lexer.Repr - old(lexer.Repr))
      ensures var p := NextField(old(lexer.Remaining()), t, i);
        ok == p.Some? && (ok ==> index == p.value.index && lexer.Remaining() == p.value.rest)
    {
      index := i;
      var token := lexer.Next();
      if token != Some(Punctuation(Dot)) {
        lexer.Unget(token);
        return true, i;
      }
      var name := lexer.Next();
      if name.None? || !IsName(name.value) {
        return false, i;
      }
      index := IndexOf(t.fields, name.value.name);
      if index == |t.fields| {
        return false, i;
      }
      ok := parser.Expect(Punct.Assign);
    }
  }

  lemma Regroup(a: seq<Entry>, b: seq<Entry>, c: seq<Entry>)
    ensures a + b + c == a + (b + c)
  {
  }

  lemma ThenNothing(r: Option<Filled>)
    ensures Then([], r) == r
  {
    if r.Some? {
      assert [] + r.value.entries == r.value.entries;
    }
  }

  lemma ThenTwice(a: seq<Entry>, b: seq<Entry>, r: Option<Filled>)
    ensures Then(a, Then(b, r)) == Then(a + b, r)
  {
    if r.Some? {
      Regroup(a, b, r.value.entries);
    }
  }

  lemma ExcessLevel(ts: seq<Token>)
    ensures Begins(ts, CloseBrace) ==> SkipExcess(ts) == Some(ts[1..])
    ensures !Begins(ts, CloseBrace) && PastDesignator(ts).None? ==> SkipExcess(ts) == None
    ensures !Begins(ts, CloseBrace) && PastDesignator(ts).Some? ==>
      var x := Climb(PastDesignator(ts).value, 3);
      (x.None? ==> SkipExcess(ts) == None) && (x.Some? && Null(x.value.tree) ==> SkipExcess(ts) == Some(x.value.rest)) &&
      (x.Some? && !Null(x.value.tree) ==> SkipExcess(ts) == SkipExcess(SkipComma(x.value.rest)))
  {
    hide Climb, PastDesignator;
  }

  /** One round of the loop over an array. */
  lemma ElementsRound(ts: seq<Token>, t: Type, i: nat, base: int, brace: bool, done: seq<Entry>)
    requires t.ArrayOf? && i < t.length
    ensures Begins(ts, CloseBrace) ==>
      Then(done, Elements(ts, t, i, base, brace)) == Some(Filled(done + ZeroElements(t, i, base), if brace then ts[1..] else ts))
    ensures var x := Element(ts, t.element, base + Size(t.element) * i);
      !Begins(ts, CloseBrace) && x.None? ==> Then(done, Elements(ts, t, i, base, brace)) == None
    ensures var x := Element(ts, t.element, base + Size(t.element) * i);
      !Begins(ts, CloseBrace) && x.Some? ==>
        Then(done, Elements(ts, t, i, base, brace)) == Then(done + x.value.entries, Elements(SkipComma(x.value.rest), t, i + 1, base, brace))
  {
    hide Element, ZeroElements, Size, SkipComma, SkipExcess;
    var x := Element(ts, t.element, base + Size(t.element) * i);
    if !Begins(ts, CloseBrace) && x.Some? {
      ThenTwice(done, x.value.entries, Elements(SkipComma(x.value.rest), t, i + 1, base, brace));
    }
  }

  lemma ElementsOver(ts: seq<Token>, t: Type, i: nat, base: int, brace: bool, done: seq<Entry>)
    requires t.ArrayOf? && i >= t.length
    ensures Then(done, Elements(ts, t, i, base, brace)) == Finish(ts, done, brace)
  {
    assert done + [] == done;
  }

  datatype MemberRead = MemberRead(index: nat, entries: seq<Entry>, rest: seq<Token>)

  function ReadMember(ts: seq<Token>, t: Type, i: nat, wrote: set<string>, base: int): (r: Option<MemberRead>)
    requires t.Structure? && (i < |t.fields| || Begins(ts, Dot))
    ensures r.Some? ==> r.value.index < |t.fields| && (|r.value.rest| < |ts| || (|r.value.rest| <= |ts| && r.value.index == i))
  {
    match NextField(ts, t, i)
    case None => None
    case Some(turn) =>
      var f := t.fields[turn.index];
      if f.name in wrote then None else
      match Element(turn.rest, f.kind, base + f.offset)
      case None => None
      case Some(x) => Some(MemberRead(turn.index, x.entries, SkipComma(x.rest)))
  }

  /** One round of the loop over a structure. */
  lemma MembersRound(ts: seq<Token>, t: Type, i: nat, wrote: set<string>, base: int, brace: bool, done: seq<Entry>)
    requires t.Structure? && i <= |t.fields|
    ensures Begins(ts, CloseBrace) ==>
      Then(done, Members(ts, t, i, wrote, base, brace)) == Some(Filled(done + ZeroFields(t, 0, base, wrote, false), if brace then ts[1..] else ts))
    ensures !Begins(ts, CloseBrace) && !Begins(ts, Dot) && i == |t.fields| ==>
      Members(ts, t, i, wrote, base, brace) == Finish(ts, ZeroFields(t, 0, base, wrote, false), brace)
    ensures !Begins(ts, CloseBrace) && (i < |t.fields| || Begins(ts, Dot)) ==>
      var p := ReadMember(ts, t, i, wrote, base);
      (p.None? ==> Then(done, Members(ts, t, i, wrote, base, brace)) == None)
    ensures !Begins(ts, CloseBrace) && (i < |t.fields| || Begins(ts, Dot)) && ReadMember(ts, t, i, wrote, base).Some? ==>
      var m := ReadMember(ts, t, i, wrote, base).value;
      var names := wrote + {t.fields[m.index].name};
      var next := if t.isStruct then Members(m.rest, t, m.index + 1, names, base, brace) else Finish(m.rest, ZeroFields(t, 0, base, names, false), brace);
      Then(done, Members(ts, t, i, wrote, base, brace)) == Then(done + m.entries, next)
  {
    hide Element, ZeroFields, NextField, SkipComma, SkipExcess;
    if !Begins(ts, CloseBrace) && (i < |t.fields| || Begins(ts, Dot)) {
      var p := ReadMember(ts, t, i, wrote, base);
      if p.Some? {
        var m := p.value;
        var names := wrote + {t.fields[m.index].name};
        if t.isStruct {
          ThenTwice(done, m.entries, Members(m.rest, t, m.index + 1, names, base, brace));
        } else {
          ThenTwice(done, m.entries, Finish(m.rest, ZeroFields(t, 0, base, names, false), brace));
        }
      }
    }
  }
}
