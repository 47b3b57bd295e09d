/** The cursor both parsers move over a NUL-terminated text. */
module Cursors {
  import opened Text

  /** What is ahead of a cursor, and the character just behind it, NUL at the start of the text. */
  datatype At = At(prev: char, rest: string)

  function Past(at: At, n: nat): At
    requires n <= |at.rest|
  {
    if n == 0 then at else At(at.rest[n - 1], at.rest[n..])
  }

  function PastSpace(at: At): (r: At)
    ensures r.rest == SkipSpace(at.rest)
  {
    Past(at, Span(at.rest, IsSpace))
  }

  lemma PastPast(at: At, n: nat, m: nat)
    requires n + m <= |at.rest|
    ensures Past(Past(at, n), m) == Past(at, n + m)
  {
  }

  lemma PastFacts(at: At, i: nat)
    requires i <= |at.rest|
    ensures |Past(at, i).rest| == |at.rest| - i && (i < |at.rest| ==> Past(at, i).rest[0] == at.rest[i])
    ensures i < |at.rest| ==> Past(Past(at, i), 1) == Past(at, i + 1)
    ensures i + 1 < |at.rest| ==> Past(Past(at, i), 2) == Past(at, i + 2)
  {
  }

  class Cursor {
    const input: string
    var pos: nat
    ghost var at: At

    /** `there` is what a cursor at `place` sees of the text. */
    ghost predicate Sees(place: nat, there: At) {
      && place + |there.rest| == |input|
      && there.prev == (if place == 0 then '\0' else input[place - 1])
      && forall i :: 0 <= i < |there.rest| ==> there.rest[i] == input[place + i]
    }

    ghost predicate Valid()
      reads this
    {
      Sees(pos, at)
    }

    constructor (input: string)
      ensures Valid() && this.input == input && at == At('\0', input)
    {
      this.input, pos, at := input, 0, At('\0', input);
    }

    /** The character `k` places ahead; the text is followed by its NUL. */
    function Peek(k: nat): (c: char)
      requires Valid() && k <= |at.rest|
      reads this
      ensures c == if k < |at.rest| then at.rest[k] else '\0'
    {
      if pos + k < |input| then input[pos + k] else '\0'
    }

    /** What is ahead of a place further on. */
    method Look(k: nat) returns (there: At)
      requires Valid() && k <= |at.rest|
      ensures there == Past(at, k)
    {
      there := At(if pos + k == 0 then '\0' else input[pos + k - 1], input[pos + k..]);
    }

    method Ahead() returns (s: string)
      requires Valid()
      ensures s == at.rest
    {
      s := input[pos..];
    }

    /** strncmp with a whole word */
    method Looking(word: string) returns (b: bool)
      requires Valid()
      ensures b <==> word <= at.rest
    {
      b := pos + |word| <= |input| && input[pos..pos + |word|] == word;
      if b {
        assert forall i :: 0 <= i < |word| ==> word[i] == input[pos..pos + |word|][i];
      }
    }

    method Advance(n: nat)
      requires Valid() && n <= |at.rest|
      modifies this
      ensures Valid() && at == Past(old(at), n) && pos == old(pos) + n
    {
      at := Past(at, n);
      pos := pos + n;
    }

    method Mark() returns (place: nat)
      requires Valid()
      ensures Sees(place, at)
    {
      place := pos;
    }

    /** Goes back to a place seen before. */
    method Rewind(place: nat, ghost there: At)
      requires Sees(place, there)
      modifies this
      ensures Valid() && pos == place && at == there
    {
      pos, at := place, there;
    }

    /** Takes characters as long as they satisfy `p`. */
    method TakeWhile(p: char -> bool) returns (taken: string)
      requires Valid()
      modifies this
      ensures Valid()
      ensures
        var n := Span(old(at).rest, p);
        taken == old(at).rest[..n] && at == Past(old(at), n) && at.rest == old(at).rest[n..]
    {
      ghost var start, n := at, 0;
      taken := "";
      while pos < |input| && p(input[pos])
        invariant Valid() && n <= |start.rest| && at == Past(start, n) && taken == start.rest[..n]
        invariant forall i :: 0 <= i < n ==> p(start.rest[i])
        decreases |at.rest|
      {
        PastPast(start, n, 1);
        taken := taken + [input[pos]];
        Advance(1);
        n := n + 1;
      }
      SpanIs(start.rest, p, n);
    }

    method SkipBlanks()
      requires Valid()
      modifies this
      ensures Valid() && at == PastSpace(old(at)) && at.rest == SkipSpace(old(at).rest)
    {
      var _ := TakeWhile(IsSpace);
    }
  }
}
