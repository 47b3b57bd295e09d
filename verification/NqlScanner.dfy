/** The scanner that cuts filter text out of a query stops where it should. */
module NqlScanner {
  import opened Cursors
  import opened NqlSyntax

  // ----- a reference: the lexical mode after a prefix, one character at a time

  datatype Mode = Mode(quote: Quote, escaped: bool, depth: nat)

  function Lex(m: Mode, c: char): Mode {
    if !m.quote.Plain? then
      if m.escaped then m.(escaped := false)
      else if c == '\\' then m.(escaped := true)
      else if c == QuoteChar(m.quote) then m.(quote := Plain)
      else m
    else if c == '\'' then m.(quote := Single)
    else if c == '"' then m.(quote := Double)
    else if c == '(' then m.(depth := m.depth + 1)
    else if c == ')' then m.(depth := if m.depth > 0 then m.depth - 1 else 0)
    else m
  }

  /** The mode after the first `n` characters. */
  function ModeAfter(s: string, n: nat): Mode
    requires n <= |s|
  {
    if n == 0 then Mode(Plain, false, 0) else Lex(ModeAfter(s, n - 1), s[n - 1])
  }

  predicate IsBracketing(c: char) {
    c == '\'' || c == '"' || c == '(' || c == ')'
  }

  /** Outside quotes and parentheses, a pipe or a stop word stands `n` characters ahead. */
  predicate StopsAt(at: At, words: seq<string>, n: nat)
    requires n < |at.rest|
  {
    && ModeAfter(at.rest, n) == Mode(Plain, false, 0) && !IsBracketing(at.rest[n])
    && (at.rest[n] == '|' || AnyKeywordHere(Past(at, n), words))
  }

  lemma ScanStep(at: At, words: seq<string>, i: nat, quote: Quote, depth: nat)
    requires i < |at.rest|
    ensures
      var c, rest := at.rest[i], Scan(Past(at, i), words, quote, depth);
      var m := Lex(Mode(quote, false, depth), c);
      if !quote.Plain? && c == '\\' && i + 1 < |at.rest| then rest == 2 + Scan(Past(at, i + 2), words, quote, depth)
      else if quote.Plain? && depth == 0 && !IsBracketing(c) && (c == '|' || AnyKeywordHere(Past(at, i), words))
      then rest == 0
      else rest == 1 + Scan(Past(at, i + 1), words, m.quote, m.depth)
  {
    hide Past, AnyKeywordHere;
    PastFacts(at, i);
  }

  lemma NothingAhead(at: At, words: seq<string>, quote: Quote, depth: nat)
    requires at.rest == []
    ensures Scan(at, words, quote, depth) == 0
  {
  }

  lemma {:induction false} ScanFrom(at: At, words: seq<string>, i: nat, quote: Quote, depth: nat)
    requires i <= |at.rest| && (i < |at.rest| ==> ModeAfter(at.rest, i) == Mode(quote, false, depth))
    ensures
      var n := i + Scan(Past(at, i), words, quote, depth);
      && n <= |at.rest| && (n < |at.rest| ==> StopsAt(at, words, n))
      && forall k :: i <= k < n ==> !StopsAt(at, words, k)
    decreases |at.rest| - i
  {
    hide Past, AnyKeywordHere, Scan;
    PastFacts(at, i);
    if i == |at.rest| {
      NothingAhead(Past(at, i), words, quote, depth);
    } else {
      ScanStep(at, words, i, quote, depth);
      var c := at.rest[i];
      var m := Lex(Mode(quote, false, depth), c);
      if !quote.Plain? && c == '\\' && i + 1 < |at.rest| {
        ScanFrom(at, words, i + 2, quote, depth);
      } else if !quote.Plain? || IsBracketing(c) || depth > 0 || !(c == '|' || AnyKeywordHere(Past(at, i), words)) {
        ScanFrom(at, words, i + 1, m.quote, m.depth);
      }
    }
  }

  /** The scanner stops exactly at the first pipe or stop word outside quotes and parentheses, or else
      at the end of the text. */
  lemma ScanStopsAtTheFirst(at: At, words: seq<string>)
    ensures
      var n := Scan(at, words, Plain, 0);
      && (n < |at.rest| ==> StopsAt(at, words, n))
      && forall k :: 0 <= k < n ==> !StopsAt(at, words, k)
  {
    ScanFrom(at, words, 0, Plain, 0);
    assert Past(at, 0) == at;
  }
}
