/** The growing string: a buffer that doubles, appended to character by character or by
    formatted text, whose contents survive every reallocation. */
module Strings {
  import opened Runs

  type Bytes = seq<bv8>

  const NUL: bv8 := 0
  const NEWLINE: bv8 := 10
  const QUOTE: bv8 := 34
  const BACKSLASH: bv8 := 92
  const LETTER_N: bv8 := 110
  const LETTER_X: bv8 := 120

  /** The index of the first NUL, or the length. */
  function FirstNul(s: Bytes): (n: nat)
    ensures n <= |s| && (n < |s| ==> s[n] == NUL) && forall i :: 0 <= i < n ==> s[i] != NUL
  {
    if |s| == 0 || s[0] == NUL then 0 else 1 + FirstNul(s[1..])
  }

  /** What C sees of a string. */
  function Visible(s: Bytes): Bytes { s[..FirstNul(s)] }

  predicate NulFree(s: Bytes) {
    forall i :: 0 <= i < |s| ==> s[i] != NUL
  }

  /** The buffer holds the string up to its first NUL, and that NUL. */
  predicate Agrees(buffer: Bytes, s: Bytes) {
    var n := FirstNul(s);
    n < |buffer| && buffer[..n] == s[..n] && buffer[n] == NUL
  }

  /** The buffer holds the string's beginning; what follows may be half a format. */
  predicate Begun(buffer: Bytes, s: Bytes) {
    var n := FirstNul(s);
    n < |buffer| && buffer[..n] == s[..n] && (n < |s| ==> buffer[n] == NUL)
  }

  lemma FirstNulIs(s: Bytes, n: nat)
    requires n <= |s| && (n < |s| ==> s[n] == NUL) && forall i :: 0 <= i < n ==> s[i] != NUL
    ensures FirstNul(s) == n
  {
  }

  lemma FirstNulAppend(s: Bytes, t: Bytes)
    ensures FirstNul(s + t) == if FirstNul(s) < |s| then FirstNul(s) else |s| + FirstNul(t)
  {
    FirstNulIs(s + t, if FirstNul(s) < |s| then FirstNul(s) else |s| + FirstNul(t));
  }

  class StringBuffer {
    var buffer: array<bv8>
    var capacity: nat
    var length: nat
    /** Everything appended so far. */
    ghost var appended: Bytes

    ghost predicate Valid()
      reads this, buffer
    {
      capacity == buffer.Length && |appended| == length < capacity && Agrees(buffer[..], appended)
    }

    /** string_create. */
    constructor ()
      ensures Valid() && appended == [] && fresh(buffer)
    {
      var b := new bv8[8];
      b[0] := NUL;
      buffer := b;
      capacity := 8;
      length := 0;
      appended := [];
    }

    /** string_reallocate: strcpy stops at the first NUL, and so do the contents that
        survive. */
    method Reallocate(ghost n: nat)
      requires capacity == buffer.Length && n < capacity && buffer[n] == NUL && forall k :: 0 <= k < n ==> buffer[k] != NUL
      modifies this
      ensures fresh(buffer) && capacity == buffer.Length == 2 * old(capacity)
      ensures buffer[..n + 1] == old(buffer[..n + 1])
      ensures length == old(length) && appended == old(appended)
    {
      var source := buffer;
      var copy := new bv8[2 * capacity];
      var i := 0;
      while source[i] != NUL
        invariant i <= n && forall k :: 0 <= k < i ==> copy[k] == source[k]
        decreases n - i
        modifies copy
      {
        copy[i] := source[i];
        i := i + 1;
      }
      copy[i] := NUL;
      buffer := copy;
      capacity := 2 * capacity;
    }

    /** string_cat. */
    method Cat(ch: bv8)
      requires Valid()
      modifies this, buffer
      ensures Valid() && appended == old(appended) + [ch] && (buffer == old(buffer) || fresh(buffer))
    {
      ghost var n := FirstNul(appended);
      if capacity == length + 1 {
        Reallocate(n);
      }
      assert buffer[..][..n] == old(buffer[..])[..n] && buffer[n] == NUL;
      FirstNulAppend(appended, [ch]);
      buffer[length] := ch;
      length := length + 1;
      buffer[length] := NUL;
      appended := appended + [ch];
      CatAgrees(old(buffer[..]), buffer[..], old(appended), ch);
    }

    /** string_catf of a text without NUL: formats into what is left, and starts over in a
        larger buffer when it did not fit. */
    method CatText(text: Bytes)
      requires Valid() && NulFree(text)
      modifies this, buffer
      ensures Valid() && appended == old(appended) + text && (buffer == old(buffer) || fresh(buffer))
    {
      ghost var was := appended;
      while true
        invariant capacity == buffer.Length && length == |was| < capacity && appended == was
        invariant Begun(buffer[..], was) && (buffer == old(buffer) || fresh(buffer))
        decreases length + |text| - capacity
      {
        var left := capacity - length;
        var write := |text|;
        ghost var before := buffer[..];
        Format(text, left);
        FormatAgrees(before, buffer[..], was, text, left);
        if left <= write {
          ghost var n := FirstNul(buffer[..]);
          ghost var partial := buffer[..];
          Reallocate(n);
          assert buffer[..][..n + 1] == partial[..n + 1];
          PartialAgrees(partial, buffer[..], was, text[..left - 1]);
        } else {
          length := length + write;
          appended := was + text;
          return;
        }
      }
    }

    /** vsnprintf into what is left of the buffer. */
    method Format(text: Bytes, left: nat)
      requires capacity == buffer.Length && length < capacity && left == capacity - length
      modifies buffer
      ensures buffer[..] == Formatted(old(buffer[..]), length, text, left)
    {
      var i := 0;
      while i < |text| && i + 1 < left
        invariant i <= |text| && i < left
        invariant forall k :: 0 <= k < i ==> buffer[length + k] == text[k]
        invariant forall k :: 0 <= k < capacity && !(length <= k < length + i) ==> buffer[k] == old(buffer[k])
      {
        buffer[length + i] := text[i];
        i := i + 1;
      }
      buffer[length + i] := NUL;
    }
  }

  function Formatted(b: Bytes, length: nat, text: Bytes, left: nat): Bytes
    requires length < |b| && left == |b| - length
  {
    var k := if |text| < left then |text| else left - 1;
    b[..length] + text[..k] + [NUL] + b[length + k + 1..]
  }

  lemma CatAgrees(old_: Bytes, new_: Bytes, s: Bytes, ch: bv8)
    requires Agrees(old_, s) && |new_| > |s| + 1 && new_[..FirstNul(s)] == old_[..FirstNul(s)]
    requires new_[|s|] == ch && new_[|s| + 1] == NUL && (FirstNul(s) < |s| ==> new_[FirstNul(s)] == NUL)
    ensures Agrees(new_, s + [ch])
  {
    FirstNulAppend(s, [ch]);
    assert (s + [ch])[..FirstNul(s)] == s[..FirstNul(s)];
    if FirstNul(s) == |s| && ch != NUL {
      assert new_[..|s| + 1] == new_[..|s|] + [ch];
    }
  }

  /** A text that fits extends the string; one that does not leaves its beginning. */
  lemma FormatAgrees(b: Bytes, c: Bytes, s: Bytes, text: Bytes, left: nat)
    requires Begun(b, s) && |s| < |b| && left == |b| - |s| && NulFree(text) && c == Formatted(b, |s|, text, left)
    ensures |text| < left ==> Agrees(c, s + text)
    ensures |text| >= left ==> Agrees(c, s + text[..left - 1])
  {
    hide FirstNul;
    var t := if |text| < left then text else text[..left - 1];
    FormattedAt(b, |s|, text, left);
    FirstNulAppend(s, t);
    FirstNulIs(t, |t|);
    forall i | 0 <= i < FirstNul(s + t) ensures c[i] == (s + t)[i] {
      if i < |s| {
        PrefixAt(b, s, FirstNul(s), i);
      }
    }
  }

  /** The formatted buffer, place by place. */
  lemma FormattedAt(b: Bytes, length: nat, text: Bytes, left: nat)
    requires length < |b| && left == |b| - length
    ensures var c := Formatted(b, length, text, left); var k := if |text| < left then |text| else left - 1;
      |c| == |b| && (forall i :: 0 <= i < length ==> c[i] == b[i]) &&
      (forall i :: length <= i < length + k ==> c[i] == text[i - length]) && c[length + k] == NUL
  {
  }

  /** What is left after a copy is enough to format the text again. */
  lemma PartialAgrees(b: Bytes, c: Bytes, s: Bytes, t: Bytes)
    requires Agrees(b, s + t) && FirstNul(b) < |b| && |c| > FirstNul(b) && c[..FirstNul(b) + 1] == b[..FirstNul(b) + 1]
    ensures Begun(c, s)
  {
    hide FirstNul;
    FirstNulAppend(s, t);
    var m, n := FirstNul(s + t), FirstNul(s);
    FirstOfPrefix(b, s + t);
    forall i | 0 <= i < n ensures c[i] == s[i] {
      PrefixAt(c, b, m + 1, i);
      PrefixAt(b, s + t, m, i);
    }
    PrefixAt(c, b, m + 1, m);
  }

  lemma FirstOfPrefix(b: Bytes, s: Bytes)
    requires Agrees(b, s)
    ensures FirstNul(b) == FirstNul(s)
  {
    forall i | 0 <= i < FirstNul(s) ensures b[i] != NUL {
      PrefixAt(b, s, FirstNul(s), i);
    }
    FirstNulIs(b, FirstNul(s));
  }

  /** So C sees the same of the buffer as of the string. */
  lemma SeenExactly(b: Bytes, s: Bytes)
    requires Agrees(b, s)
    ensures Visible(b) == Visible(s) && (NulFree(s) ==> Visible(b) == s)
  {
    FirstOfPrefix(b, s);
    if NulFree(s) {
      FirstNulIs(s, |s|);
    }
  }

  lemma PrefixAt(a: Bytes, b: Bytes, n: nat, i: nat)
    requires i < n <= |a| && n <= |b| && a[..n] == b[..n]
    ensures a[i] == b[i]
  {
    assert a[..n][i] == a[i] && b[..n][i] == b[i];
  }
}
