/** How queries are written, and what the scanner and the word readers make of that text. */
module NqlPrinting {
  import opened Values
  import opened Text
  import opened Cursors
  import opened FilterSyntax
  import opened NqlSyntax
  import opened NqlScanner

  // ----- what can be written

  predicate PrintableName(s: string) {
    s != [] && (IsAlpha(s[0]) || s[0] == '_') && forall i :: 0 <= i < |s| ==> IsFieldChar(s[i])
  }

  /** No leaf is named like a stop word or holds a bare pattern. */
  predicate QuietAtom(n: FilterNode, words: seq<string>)
    requires IsAtom(n)
  {
    match n
    case Leaf(field, op, value) => LowerAll(field) !in words && !value.VRegex?
    case Not(operand) => QuietAtom(operand, words)
  }

  predicate QuietFilter(n: FilterNode, words: seq<string>)
    requires Printable(n)
  {
    match n
    case And(l, r) => QuietFilter(l, words) && QuietAtom(r, words)
    case Or(l, r) => QuietFilter(l, words) && QuietAtom(r, words)
    case _ => QuietAtom(n, words)
  }

  /** A filter that reads back to itself and in which the scanner sees none of its stop words. */
  predicate PrintableFilter(n: FilterNode, words: seq<string>) {
    Printable(n) && NoDotAfterInt(n, false) && QuietFilter(n, words)
  }

  /** Words with no blanks, brackets, quotes or pipes, other than the pipe itself. */
  predicate StopWords(words: seq<string>) {
    forall i :: 0 <= i < |words|
        ==> words[i] == "|" || (words[i] != [] && forall j :: 0 <= j < |words[i]| ==> IsAlpha(words[i][j]))
  }

  predicate Unreserved(words: seq<string>) {
    "and" !in words && "or" !in words && "not" !in words && "in" !in words && "contains" !in words && "true" !in words
        && "false" !in words
  }

  // ----- the scanner passes over what is written

  /** A character inside a word: no blank, bracket, quote, comma, pipe or NUL. */
  predicate IsWordChar(c: char) {
    !IsBoundary(c) && !IsBracketing(c) && c != '|' && c != '\0'
  }

  predicate IsToken(s: string) {
    s != [] && forall i :: 0 <= i < |s| ==> IsWordChar(s[i])
  }

  /** How far the scanner goes into what follows a piece of text, which is nothing or a blank and more. */
  function Onward(tail: string, words: seq<string>): nat
    requires AtBlank(tail)
  {
    if tail == [] then 0 else 1 + Scan(At(' ', tail[1..]), words, Plain, 0)
  }

  lemma NoWordAtBlank(at: At, words: seq<string>)
    requires StopWords(words) && at.rest != [] && at.rest[0] == ' '
    ensures !AnyKeywordHere(at, words)
  {
    forall i | 0 <= i < |words| ensures !WordAt(at.rest, words[i]) {
    }
  }

  lemma ScanBlank(prev: char, tail: string, words: seq<string>)
    requires StopWords(words) && AtBlank(tail)
    ensures Scan(At(prev, tail), words, Plain, 0) == Onward(tail, words)
  {
    if tail != [] {
      NoWordAtBlank(At(prev, tail), words);
      assert Past(At(prev, tail), 1) == At(' ', tail[1..]);
    }
  }

  lemma NoWordHere(token: string, tail: string, word: string)
    requires IsToken(token) && AtBlank(tail) && LowerAll(token) != word && StopWords([word])
    ensures !WordAt(token + tail, word)
  {
    var s := token + tail;
    assert StopWords([word]) && [word][0] == word;
    if |word| < |token| {
      assert s[|word|] == token[|word|];
    } else if |word| == |token| {
      assert s[..|word|] == token;
    } else if |word| <= |s| {
      assert LowerAll(s[..|word|])[|token|] == Lower(s[|token|]) == ' ';
    }
  }

  lemma NoneHere(at: At, token: string, tail: string, words: seq<string>)
    requires StopWords(words) && IsToken(token) && AtBlank(tail) && LowerAll(token) !in words && at.rest == token + tail
    ensures !AnyKeywordHere(at, words)
  {
    forall i | 0 <= i < |words| ensures !WordAt(at.rest, words[i]) {
      NoWordHere(token, tail, words[i]);
    }
  }

  lemma {:induction false} InsideToken(prev: char, token: string, tail: string, words: seq<string>)
    requires StopWords(words) && IsWordChar(prev) && (forall i :: 0 <= i < |token| ==> IsWordChar(token[i]))
    requires AtBlank(tail)
    ensures Scan(At(prev, token + tail), words, Plain, 0) == |token| + Onward(tail, words)
    decreases |token|
  {
    if token == [] {
      assert token + tail == tail;
      ScanBlank(prev, tail, words);
    } else {
      InsideToken(token[0], token[1..], tail, words);
      OneOn(prev, token, tail);
    }
  }

  lemma OneOn(prev: char, a: string, b: string)
    requires a != []
    ensures (a + b)[0] == a[0] && Past(At(prev, a + b), 1) == At(a[0], a[1..] + b)
  {
    assert (a + b)[1..] == a[1..] + b;
  }

  lemma TokenPasses(prev: char, token: string, tail: string, words: seq<string>)
    requires StopWords(words) && IsToken(token) && AtBlank(tail) && LowerAll(token) !in words
    ensures Scan(At(prev, token + tail), words, Plain, 0) == |token| + Onward(tail, words)
  {
    hide AnyKeywordHere, Onward;
    NoneHere(At(prev, token + tail), token, tail, words);
    InsideToken(token[0], token[1..], tail, words);
    OneOn(prev, token, tail);
  }

  lemma {:induction false} QuotedPasses(prev: char, s: string, tail: string, words: seq<string>)
    requires StopWords(words) && WellEscaped(s) && AtBlank(tail)
    ensures Scan(At(prev, s + ("\"" + tail)), words, Double, 0) == |s| + 1 + Onward(tail, words)
    decreases |s|
  {
    hide Onward;
    var rest := "\"" + tail;
    if s == [] {
      assert s + rest == rest;
      OneOn(prev, "\"", tail);
      assert "\""[1..] + tail == tail;
      ScanBlank('"', tail, words);
    } else if s[0] == '\\' {
      QuotedPasses(s[1], s[2..], tail, words);
      TwoOn(prev, s, rest);
    } else {
      QuotedPasses(s[0], s[1..], tail, words);
      OneOn(prev, s, rest);
    }
  }

  lemma TwoOn(prev: char, a: string, b: string)
    requires |a| > 1
    ensures (a + b)[0] == a[0] && Past(At(prev, a + b), 2) == At(a[1], a[2..] + b)
  {
    assert (a + b)[2..] == a[2..] + b;
  }

  lemma OpeningQuote(prev: char, rest: string, words: seq<string>)
    ensures Scan(At(prev, "\"" + rest), words, Plain, 0) == 1 + Scan(At('"', rest), words, Double, 0)
  {
    hide AnyKeywordHere;
    assert ("\"" + rest)[1..] == rest;
  }

  lemma QuotedText(s: string, tail: string)
    ensures "\"" + s + "\"" + tail == "\"" + (s + ("\"" + tail))
  {
  }

  lemma StringPasses(prev: char, s: string, tail: string, words: seq<string>)
    requires StopWords(words) && WellEscaped(s) && AtBlank(tail)
    ensures Scan(At(prev, "\"" + s + "\"" + tail), words, Plain, 0) == |s| + 2 + Onward(tail, words)
  {
    hide Onward, Scan;
    QuotedPasses('"', s, tail, words);
    QuotedText(s, tail);
    OpeningQuote(prev, s + ("\"" + tail), words);
  }

  // ----- whole filters

  lemma IntIsToken(i: int)
    ensures IsToken(IntText(i)) && !IsAlpha(IntText(i)[0])
  {
  }

  lemma NotAWord(s: string, words: seq<string>)
    requires StopWords(words) && s != [] && !IsAlpha(s[0]) && s[0] != '|'
    ensures LowerAll(s) !in words
  {
  }

  lemma ValuePasses(prev: char, op: FilterOp, value: FilterValue, tail: string, words: seq<string>)
    requires StopWords(words) && Unreserved(words) && AtBlank(tail) && PrintableValue(op, value) && !value.VRegex?
    ensures Scan(At(prev, ValueText(value) + tail), words, Plain, 0) == |ValueText(value)| + Onward(tail, words)
  {
    hide Onward, Scan;
    match value
    case VString(s) => StringPasses(prev, s, tail, words);
    case VInt(i) =>
      IntIsToken(i);
      NotAWord(IntText(i), words);
      TokenPasses(prev, IntText(i), tail, words);
    case VBool(b) =>
      var word := if b then "true" else "false";
      assert LowerAll(word) == word;
      TokenPasses(prev, word, tail, words);
  }

  lemma OperatorIsToken(op: FilterOp, words: seq<string>)
    requires StopWords(words) && Unreserved(words)
    ensures IsToken(OpText(op)) && LowerAll(OpText(op)) !in words
  {
    if op == In || op == Contains {
      assert LowerAll(OpText(op)) == OpText(op);
    } else {
      NotAWord(OpText(op), words);
    }
  }

  lemma FieldIsToken(field: string)
    requires PrintableField(field)
    ensures IsToken(field)
  {
  }

  lemma Blank(text: string, tail: string, words: seq<string>)
    ensures AtBlank(" " + (text + tail))
    ensures Onward(" " + (text + tail), words) == 1 + Scan(At(' ', text + tail), words, Plain, 0)
  {
    assert (" " + (text + tail))[1..] == text + tail;
  }

  lemma LeafPasses(prev: char, field: string, op: FilterOp, value: FilterValue, tail: string, words: seq<string>)
    requires StopWords(words) && Unreserved(words) && AtBlank(tail)
    requires PrintableField(field) && PrintableValue(op, value) && !value.VRegex? && LowerAll(field) !in words
    ensures Scan(At(prev, LeafText(field, op, value) + tail), words, Plain, 0)
        == |LeafText(field, op, value)| + Onward(tail, words)
  {
    hide Onward, Scan;
    var afterOp := ValueText(value) + tail;
    var afterField := OpText(op) + (" " + afterOp);
    LeafTextThen(field, op, value, tail);
    FieldIsToken(field);
    Blank(OpText(op), " " + afterOp, words);
    TokenPasses(prev, field, " " + afterField, words);
    OperatorIsToken(op, words);
    Blank(ValueText(value), tail, words);
    TokenPasses(' ', OpText(op), " " + afterOp, words);
    ValuePasses(' ', op, value, tail, words);
  }

  lemma {:induction false} AtomPasses(prev: char, n: FilterNode, tail: string, words: seq<string>)
    requires StopWords(words) && Unreserved(words) && AtBlank(tail) && IsAtom(n) && QuietAtom(n, words)
    ensures Scan(At(prev, AtomText(n) + tail), words, Plain, 0) == |AtomText(n)| + Onward(tail, words)
    decreases n
  {
    hide Onward, Scan;
    match n
    case Leaf(field, op, value) => LeafPasses(prev, field, op, value, tail, words);
    case Not(operand) =>
      AtomPasses(' ', operand, tail, words);
      NegatedText(AtomText(operand), tail);
      Blank(AtomText(operand), tail, words);
      assert LowerAll("NOT") == "not";
      TokenPasses(prev, "NOT", " " + (AtomText(operand) + tail), words);
  }

  lemma LinkText(link: string, word: string, text: string, tail: string)
    requires link == " " + (word + " ")
    ensures link + (text + tail) == " " + (word + (" " + (text + tail)))
  {
  }

  lemma LinkPasses(link: string, word: string, n: FilterNode, tail: string, words: seq<string>)
    requires StopWords(words) && Unreserved(words) && AtBlank(tail) && IsAtom(n) && QuietAtom(n, words)
    requires link == " " + (word + " ") && (word == "AND" || word == "OR")
    ensures AtBlank(link + (AtomText(n) + tail))
    ensures Onward(link + (AtomText(n) + tail), words) == |link| + |AtomText(n)| + Onward(tail, words)
  {
    hide Scan, Onward;
    var rest := " " + (AtomText(n) + tail);
    AtomPasses(' ', n, tail, words);
    Blank(AtomText(n), tail, words);
    assert LowerAll("AND") == "and" && LowerAll("OR") == "or";
    TokenPasses(' ', word, rest, words);
    Blank(word, rest, words);
    LinkText(link, word, AtomText(n), tail);
  }

  /** The scanner goes over a printed filter and on into what follows it. */
  lemma {:induction false} FilterPasses(prev: char, n: FilterNode, tail: string, words: seq<string>)
    requires StopWords(words) && Unreserved(words) && AtBlank(tail) && Printable(n) && QuietFilter(n, words)
    ensures Scan(At(prev, FilterText(n) + tail), words, Plain, 0) == |FilterText(n)| + Onward(tail, words)
    decreases n
  {
    hide Onward, Scan;
    if n.And? || n.Or? {
      var link := if n.And? then " AND " else " OR ";
      LinkPasses(link, if n.And? then "AND" else "OR", n.right, tail, words);
      FilterPasses(prev, n.left, link + (AtomText(n.right) + tail), words);
      LinkedText(FilterText(n.left), link, AtomText(n.right), tail);
    } else {
      AtomPasses(prev, n, tail, words);
    }
  }
}
