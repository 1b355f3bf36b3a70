/** String literals: quoting them for the assembler, and reading them from source text. */
module Literals {
  import opened Runs
  import opened Strings

  // -------------------------------------------------------------- quoting

  function QuoteOne(c: bv8): Bytes {
    if c == QUOTE || c == BACKSLASH then [BACKSLASH, c] else if c == NEWLINE then [BACKSLASH, LETTER_N] else [c]
  }

  function Quote(s: Bytes): Bytes {
    if |s| == 0 then [] else QuoteOne(s[0]) + Quote(s[1..])
  }

  lemma {:induction false} QuoteStep(s: Bytes, i: nat)
    requires i < |s|
    ensures Quote(s[..i + 1]) == Quote(s[..i]) + QuoteOne(s[i])
    decreases i
  {
    if i == 0 {
      assert s[..1] == [s[0]];
      assert Quote([s[0]]) == QuoteOne(s[0]) + Quote([s[0]][1..]);
    } else {
      assert s[..i + 1][1..] == s[1..][..i] && s[..i][1..] == s[1..][..i - 1];
      QuoteStep(s[1..], i - 1);
      assert QuoteOne(s[0]) + (Quote(s[1..][..i - 1]) + QuoteOne(s[i])) == QuoteOne(s[0]) + Quote(s[1..][..i - 1]) + QuoteOne(s[i]);
    }
  }

  method QuoteChar(quoted: StringBuffer, c: bv8)
    requires quoted.Valid() && c != NUL
    modifies quoted, quoted.buffer
    ensures quoted.Valid() && quoted.appended == old(quoted.appended) + QuoteOne(c)
    ensures quoted.buffer == old(quoted.buffer) || fresh(quoted.buffer)
  {
    if c == QUOTE || c == BACKSLASH {
      quoted.CatText([BACKSLASH, c]);
    } else if c == NEWLINE {
      quoted.CatText([BACKSLASH, LETTER_N]);
    } else {
      quoted.Cat(c);
    }
  }

  /** string_quote: the argument is a C string, so it has no NUL. */
  method QuoteString(p: Bytes) returns (quoted: StringBuffer)
    requires NulFree(p)
    ensures fresh(quoted) && fresh(quoted.buffer) && quoted.Valid() && quoted.appended == Quote(p)
  {
    hide Quote, QuoteOne, quoted.Valid;
    quoted := new StringBuffer();
    var i := 0;
    QuoteStart(p);
    while i < |p|
      invariant i <= |p| && fresh(quoted) && fresh(quoted.buffer) && quoted.Valid()
      invariant quoted.appended == Quote(p[..i])
    {
      QuoteStep(p, i);
      QuoteChar(quoted, p[i]);
      i := i + 1;
    }
    assert p[..|p|] == p;
  }

  lemma QuoteStart(s: Bytes)
    ensures Quote(s[..0]) == []
  {
  }

  // -------------------------------------------------------------- reading

  /** The characters still to come from the input. */
  class Source {
    var input: Bytes

    constructor (input: Bytes)
      ensures this.input == input
    {
      this.input := input;
    }

    method Getc() returns (c: Option<bv8>)
      modifies this
      ensures |old(input)| == 0 ==> c == None && input == []
      ensures |old(input)| > 0 ==> c == Some(old(input)[0]) && input == old(input)[1..]
    {
      if |input| == 0 {
        return None;
      }
      c := Some(input[0]);
      input := input[1..];
    }

    method Ungetc(c: Option<bv8>)
      modifies this
      ensures input == if c.None? then old(input) else [c.value] + old(input)
    {
      if c.Some? {
        input := [c.value] + input;
      }
    }
  }

  datatype Read = Read(c: bv8, rest: Bytes)

  predicate IsOctal(c: bv8) { 48 <= c <= 55 }
  predicate IsLower(c: bv8) { 97 <= c <= 102 }
  predicate IsUpper(c: bv8) { 65 <= c <= 70 }
  predicate IsHex(c: bv8) { 48 <= c <= 57 || IsLower(c) || IsUpper(c) }

  /** A digit's contribution; the code subtracts 'f' from an upper-case digit. */
  function HexDigit(c: bv8): bv8 {
    if IsLower(c) then c - 97 + 10 else if IsUpper(c) then c - 102 + 10 else c - 48
  }

  /** One more digit; all characters are bytes, so only the low byte counts. */
  function HexStep(r: bv8, c: bv8): bv8 { (r << 4) | HexDigit(c) }

  function OctalStep(r: bv8, c: bv8): bv8 { (r << 3) | (c - 48) }

  function Hexadecimal(ts: Bytes, r: bv8): Read
    decreases |ts|
  {
    if |ts| > 0 && IsHex(ts[0]) then Hexadecimal(ts[1..], HexStep(r, ts[0])) else Read(r, ts)
  }

  function Octal(c: bv8, ts: Bytes): Read {
    var r := c - 48;
    if |ts| == 0 || !IsOctal(ts[0]) then Read(r, ts) else
    var r2 := OctalStep(r, ts[0]);
    if |ts| == 1 || !IsOctal(ts[1]) then Read(r2, ts[1..]) else Read(OctalStep(r2, ts[1]), ts[2..])
  }

  /** The characters that stand for themselves or for a control character. */
  function Simple(c: bv8): bv8 {
    match c
    case 97 => 7
    case 98 => 8
    case 102 => 12
    case 110 => 10
    case 114 => 13
    case 116 => 9
    case 118 => 11
    case 101 => 27
    case _ => c
  }

  /** lexer_read_character_escaped. */
  function Escaped(ts: Bytes): (r: Option<Read>)
    ensures r.Some? ==> |r.value.rest| < |ts|
  {
    if |ts| == 0 then None
    else if IsOctal(ts[0]) then OctalShorter(ts[0], ts[1..]); Some(Octal(ts[0], ts[1..]))
    else if ts[0] == LETTER_X then
      if |ts| == 1 || !IsHex(ts[1]) then None else HexShorter(ts[1..], 0); Some(Hexadecimal(ts[1..], 0))
    else Some(Read(Simple(ts[0]), ts[1..]))
  }

  lemma OctalShorter(c: bv8, ts: Bytes)
    ensures |Octal(c, ts).rest| <= |ts|
  {
  }

  lemma {:induction false} HexShorter(ts: Bytes, r: bv8)
    ensures |Hexadecimal(ts, r).rest| <= |ts|
    decreases |ts|
  {
    if |ts| > 0 && IsHex(ts[0]) {
      HexShorter(ts[1..], HexStep(r, ts[0]));
    }
  }

  datatype Literal = Literal(text: Bytes, rest: Bytes)

  /** The text of a string literal whose opening quote has been read. */
  function Unquote(ts: Bytes): Option<Literal>
    decreases |ts|
  {
    if |ts| == 0 then None
    else if ts[0] == QUOTE then Some(Literal([], ts[1..]))
    else if ts[0] == BACKSLASH then
      match Escaped(ts[1..]) {
        case None => None
        case Some(x) => Prepend(x.c, Unquote(x.rest))
      }
    else Prepend(ts[0], Unquote(ts[1..]))
  }

  function Prepend(c: bv8, r: Option<Literal>): Option<Literal> {
    if r.None? then None else Some(Literal([c] + r.value.text, r.value.rest))
  }

  class Reader {
    const source: Source

    constructor (source: Source)
      ensures this.source == source
    {
      this.source := source;
    }

    /** lexer_read_character_octal. */
    method ReadOctal(c: bv8) returns (r: bv8)
      modifies source
      ensures Read(r, source.input) == Octal(c, old(source.input))
    {
      hide OctalStep;
      r := c - 48;
      ghost var ts := source.input;
      var d := source.Getc();
      if d.Some? && IsOctal(d.value) {
        r := OctalStep(r, d.value);
        var e := source.Getc();
        if e.Some? && IsOctal(e.value) {
          r := OctalStep(r, e.value);
        } else {
          source.Ungetc(e);
        }
      } else {
        source.Ungetc(d);
      }
    }

    /** lexer_read_character_hexadecimal. */
    method ReadHexadecimal() returns (r: Option<bv8>)
      modifies source
      ensures r.Some? == (|old(source.input)| > 0 && IsHex(old(source.input)[0]))
      ensures r.Some? ==> Read(r.value, source.input) == Hexadecimal(old(source.input), 0)
    {
      var c := source.Getc();
      if c.None? || !IsHex(c.value) {
        return None;
      }
      var n: bv8 := 0;
      while c.Some? && IsHex(c.value)
        invariant Hexadecimal(old(source.input), 0) == Hexadecimal((if c.Some? then [c.value] else []) + source.input, n)
        invariant c.None? ==> source.input == []
        decreases |source.input| + if c.Some? then 1 else 0
      {
        assert ([c.value] + source.input)[1..] == source.input;
        n := HexStep(n, c.value);
        ghost var before := source.input;
        c := source.Getc();
        assert before == (if c.Some? then [c.value] else []) + source.input;
      }
      source.Ungetc(c);
      r := Some(n);
    }

    method ReadEscaped() returns (r: Option<bv8>)
      modifies source
      ensures var p := Escaped(old(source.input)); r.Some? == p.Some? && (r.Some? ==> Read(r.value, source.input) == p.value)
    {
      var c := source.Getc();
      if c.None? {
        return None;
      }
      if IsOctal(c.value) {
        var o := ReadOctal(c.value);
        return Some(o);
      }
      if c.value == LETTER_X {
        r := ReadHexadecimal();
        return;
      }
      r := Some(Simple(c.value));
    }

    /** lexer_read_string. What C sees of the result is what it would see of the literal's
        text: a NUL ends both. */
    method ReadString() returns (r: Option<StringBuffer>)
      modifies source
      ensures var p := Unquote(old(source.input));
        r.Some? == p.Some? &&
        (r.Some? ==> fresh(r.value) && r.value.Valid() && r.value.appended == p.value.text && source.input == p.value.rest)
    {
      var text := new StringBuffer();
      BehindNothing(Unquote(source.input));
      while true
        invariant fresh(text) && fresh(text.buffer) && text.Valid()
        invariant Unquote(old(source.input)) == Behind(text.appended, Unquote(source.input))
        decreases |source.input|
      {
        ghost var ts := source.input;
        ghost var done := text.appended;
        var c := source.Getc();
        if c.None? {
          return None;
        }
        if c.value == QUOTE {
          return Some(text);
        }
        if c.value == BACKSLASH {
          c := ReadEscaped();
          if c.None? {
            return None;
          }
        }
        text.Cat(c.value);
        BehindOne(done, c.value, Unquote(source.input));
      }
    }
  }

  function Behind(s: Bytes, r: Option<Literal>): Option<Literal> {
    if r.None? then None else Some(Literal(s + r.value.text, r.value.rest))
  }

  lemma BehindNothing(r: Option<Literal>)
    ensures Behind([], r) == r
  {
    if r.Some? {
      assert [] + r.value.text == r.value.text;
    }
  }

  lemma BehindOne(s: Bytes, c: bv8, r: Option<Literal>)
    ensures Behind(s, Prepend(c, r)) == Behind(s + [c], r)
  {
    if r.Some? {
      assert s + ([c] + r.value.text) == s + [c] + r.value.text;
    }
  }

  // -------------------------------------------------------------- results

  /** Reading back what was quoted, up to a closing quote, gives the string again. */
  lemma {:induction false} QuoteUnquote(s: Bytes, rest: Bytes)
    ensures Unquote(Quote(s) + ([QUOTE] + rest)) == Some(Literal(s, rest))
    decreases |s|
  {
    var tail := [QUOTE] + rest;
    if |s| == 0 {
      assert Quote(s) + tail == tail && tail[1..] == rest;
    } else {
      var more := Quote(s[1..]) + tail;
      QuoteUnquote(s[1..], rest);
      assert Quote(s) + tail == QuoteOne(s[0]) + more;
      UnquoteOne(s[0], more);
      assert [s[0]] + s[1..] == s;
    }
  }

  lemma UnquoteOne(c: bv8, more: Bytes)
    ensures Unquote(QuoteOne(c) + more) == Prepend(c, Unquote(more))
  {
    hide Octal, Hexadecimal;
    var ts := QuoteOne(c) + more;
    if c == QUOTE || c == BACKSLASH || c == NEWLINE {
      assert ts[1..][1..] == more;
      assert Escaped(ts[1..]) == Some(Read(c, more));
    } else {
      assert ts[1..] == more;
    }
  }

  // ------------------------------------------- hexadecimal escape sequences

  predicate AllHex(ds: Bytes) {
    forall i :: 0 <= i < |ds| ==> IsHex(ds[i])
  }

  /** The value of a digit (section 6.4.4.1 of ISO/IEC 9899:1999). */
  function DigitValue(c: bv8): bv8 {
    if IsLower(c) then c - 97 + 10 else if IsUpper(c) then c - 65 + 10 else c - 48
  }

  function NumberStep(r: bv8, c: bv8): bv8 { (r << 4) | DigitValue(c) }

  /** The low byte of the number the digits spell, and of what the code computes. */
  function Number(ds: Bytes): bv8 {
    if |ds| == 0 then 0 else NumberStep(Number(ds[..|ds| - 1]), ds[|ds| - 1])
  }

  function Computed(ds: Bytes): bv8 {
    if |ds| == 0 then 0 else HexStep(Computed(ds[..|ds| - 1]), ds[|ds| - 1])
  }

  /** The escape sequence's digits are read to the end, one after the other. */
  lemma {:induction false} HexReads(done: Bytes, ds: Bytes, rest: Bytes)
    requires AllHex(ds) && (|rest| > 0 ==> !IsHex(rest[0]))
    ensures Hexadecimal(ds + rest, Computed(done)) == Read(Computed(done + ds), rest)
    decreases |ds|
  {
    hide HexStep, IsHex;
    if |ds| == 0 {
      assert ds + rest == rest && done + ds == done;
    } else {
      assert (ds + rest)[1..] == ds[1..] + rest;
      assert (done + [ds[0]])[..|done|] == done;
      assert done + [ds[0]] + ds[1..] == done + ds;
      HexReads(done + [ds[0]], ds[1..], rest);
    }
  }

  /** A hexadecimal escape sequence gets its character right exactly when neither of its
      last two digits is upper-case. */
  lemma HexExactly(ds: Bytes, rest: Bytes)
    requires |ds| > 0 && AllHex(ds) && (|rest| > 0 ==> !IsHex(rest[0]))
    ensures Hexadecimal(ds + rest, 0) == Read(Computed(ds), rest)
    ensures Computed(ds) == Number(ds) <==> !IsUpper(ds[|ds| - 1]) && (|ds| > 1 ==> !IsUpper(ds[|ds| - 2]))
  {
    hide HexStep, NumberStep, IsHex, IsUpper;
    assert [] + ds == ds;
    HexReads([], ds, rest);
    var n := |ds| - 1;
    if n == 0 {
      OneDigit(ds[0]);
      assert ds[..0] == [];
    } else {
      var before := ds[..n];
      assert before[..n - 1] == ds[..n - 1];
      TwoDigits(Computed(ds[..n - 1]), Number(ds[..n - 1]), ds[n - 1], ds[n]);
    }
  }

  lemma OneDigit(d: bv8)
    requires IsHex(d)
    ensures HexStep(0, d) == NumberStep(0, d) <==> !IsUpper(d)
  {
  }

  lemma TwoDigits(p: bv8, q: bv8, c: bv8, d: bv8)
    requires IsHex(c) && IsHex(d)
    ensures HexStep(HexStep(p, c), d) == NumberStep(NumberStep(q, c), d) <==> !IsUpper(d) && !IsUpper(c)
  {
  }
}
