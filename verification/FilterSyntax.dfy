/** The filter language: what the parser makes of a text, as functions of the text still ahead, and
    the texts that parse back to the tree they were printed from. */
module FilterSyntax {
  import opened Values
  import opened Text
  import opened Numerals

  // ----- parsing

  function ReadOperator(t: string): Option<FilterOp> {
    if "==" <= t then Some(Eq)
    else if "!=" <= t then Some(Ne)
    else if "<=" <= t then Some(Le)
    else if ">=" <= t then Some(Ge)
    else if "<" <= t then Some(Lt)
    else if ">" <= t then Some(Gt)
    else if "=~" <= t then Some(Match)
    else if "!~" <= t then Some(NoMatch)
    else if "in" <= t then Some(In)
    else if "contains" <= t then Some(Contains)
    else None
  }

  function OpText(op: FilterOp): (s: string)
    ensures s != []
  {
    match op
    case Eq => "=="
    case Ne => "!="
    case Lt => "<"
    case Le => "<="
    case Gt => ">"
    case Ge => ">="
    case Match => "=~"
    case NoMatch => "!~"
    case In => "in"
    case Contains => "contains"
  }

  lemma OperatorIsAhead(t: string)
    ensures ReadOperator(t).Some? ==> OpText(ReadOperator(t).value) <= t
  {
  }

  /** The length of a string body: up to the closing quote, a backslash taking the next character with it. */
  function QuotedSpan(s: string): (n: nat)
    ensures n <= |s| && (n < |s| ==> s[n] == '"')
  {
    if s == [] || s[0] == '"' then 0
    else if s[0] == '\\' && |s| > 1 then 2 + QuotedSpan(s[2..])
    else 1 + QuotedSpan(s[1..])
  }

  datatype ValueRead = ValueRead(value: FilterValue, length: nat)

  predicate StartsNumber(t: string) {
    && t != []
    && (IsDigit(t[0]) || (t[0] == '-' && |t| > 1 && IsDigit(t[1])))
  }

  predicate NotSpace(c: char) {
    !IsSpace(c)
  }

  /** The value of a leaf. A number is real as soon as a dot stands anywhere after it starts. A word that
      is none of these forms is left where it is. */
  function ReadValue(op: FilterOp, t: string): (r: ValueRead)
    ensures r.length <= |t|
  {
    if t != [] && t[0] == '"' then
      var n := QuotedSpan(t[1..]);
      if n + 1 < |t| then ValueRead(VString(t[1..n + 1]), n + 2) else ValueRead(VNone, |t|)
    else if StartsNumber(t) then
      if '.' in t then ValueRead(VReal(ReadDecimal(t).value), ReadDecimal(t).length)
      else ValueRead(VInt(ReadInt(t).value), ReadInt(t).length)
    else if "true" <= t then ValueRead(VBool(true), 4)
    else if "false" <= t then ValueRead(VBool(false), 5)
    else if op == Match || op == NoMatch then ValueRead(VRegex(t[..Span(t, NotSpace)]), Span(t, NotSpace))
    else ValueRead(VNone, 0)
  }

  datatype Atom = NoAtom | Atom(node: FilterNode, rest: string)

  function ParseLeaf(t: string): (r: Atom)
    ensures r.Atom? ==> |r.rest| < |t|
  {
    var n := Span(t, IsFieldChar);
    var afterField := SkipSpace(t[n..]);
    var op := ReadOperator(afterField);
    if n == 0 || op.None? then NoAtom
    else
      OperatorIsAhead(afterField);
      var afterOp := SkipSpace(afterField[|OpText(op.value)|..]);
      var v := ReadValue(op.value, afterOp);
      Atom(Leaf(t[..n], op.value, v.value), afterOp[v.length..])
  }

  /** parse_filter_expr: a parenthesis holds one atom, and its closing half may be missing. */
  function ParseAtom(s: string): (r: Atom)
    ensures r.Atom? ==> |r.rest| < |s|
    decreases |s|
  {
    var t := SkipSpace(s);
    if "(" <= t then Close(ParseAtom(t[1..]))
    else if "NOT" <= t || "not" <= t then Negate(ParseAtom(t[3..]))
    else ParseLeaf(t)
  }

  function Close(inner: Atom): (r: Atom)
    ensures r.Atom? ==> inner.Atom? && |r.rest| <= |inner.rest|
  {
    if inner.NoAtom? then NoAtom
    else
      var rest := SkipSpace(inner.rest);
      Atom(inner.node, if ")" <= rest then rest[1..] else rest)
  }

  function Negate(inner: Atom): Atom {
    if inner.NoAtom? then NoAtom else Atom(Not(inner.node), inner.rest)
  }

  /** The loop of parse_filter_full: AND and OR bind equally and to the left; whatever follows that is
      neither is ignored. */
  function ParseChain(left: FilterNode, rest: string): Option<FilterNode>
    decreases |rest|
  {
    var t := SkipSpace(rest);
    if "AND" <= t || "and" <= t then
      var right := ParseAtom(t[3..]);
      if right.NoAtom? then None else ParseChain(And(left, right.node), right.rest)
    else if "OR" <= t || "or" <= t then
      var right := ParseAtom(t[2..]);
      if right.NoAtom? then None else ParseChain(Or(left, right.node), right.rest)
    else Some(left)
  }

  /** parse_filter_full, and so nblex_filter_new */
  function ParseFilter(s: string): Option<FilterNode> {
    var first := ParseAtom(s);
    if first.NoAtom? then None else ParseChain(first.node, first.rest)
  }

  // ----- printing

  /** A string body that the closing quote ends: quotes inside it are escaped, and no backslash is left
      over at its end. */
  predicate WellEscaped(s: string) {
    if s == [] then true
    else if s[0] == '"' then false
    else if s[0] == '\\' then |s| > 1 && WellEscaped(s[2..])
    else WellEscaped(s[1..])
  }

  /** A pattern that is read as one: a word that does not look like another kind of value. */
  predicate BarePattern(s: string) {
    && s != [] && s[0] != '"' && !StartsNumber(s) && !("true" <= s) && !("false" <= s)
    && forall i :: 0 <= i < |s| ==> !IsSpace(s[i])
  }

  predicate PrintableValue(op: FilterOp, value: FilterValue) {
    match value
    case VString(s) => WellEscaped(s)
    case VInt(i) => -0x8000_0000 <= i < 0x8000_0000
    case VBool(b) => true
    case VRegex(p) => (op == Match || op == NoMatch) && BarePattern(p)
    case _ => false
  }

  predicate PrintableField(f: string) {
    f != [] && (forall i :: 0 <= i < |f| ==> IsFieldChar(f[i])) && !("NOT" <= f) && !("not" <= f)
  }

  predicate IsAtom(n: FilterNode) {
    match n
    case Leaf(field, op, value) => PrintableField(field) && PrintableValue(op, value)
    case Not(operand) => IsAtom(operand)
    case _ => false
  }

  /** A chain of possibly negated leaves, nested to the left. */
  predicate Printable(n: FilterNode) {
    match n
    case And(l, r) => Printable(l) && IsAtom(r)
    case Or(l, r) => Printable(l) && IsAtom(r)
    case _ => IsAtom(n)
  }

  function ValueText(value: FilterValue): string {
    match value
    case VString(s) => "\"" + s + "\""
    case VInt(i) => IntText(i)
    case VBool(b) => if b then "true" else "false"
    case VRegex(p) => p
    case _ => ""
  }

  function LeafText(field: string, op: FilterOp, value: FilterValue): string {
    field + (" " + (OpText(op) + (" " + ValueText(value))))
  }

  function AtomText(n: FilterNode): string
    requires IsAtom(n)
  {
    match n
    case Leaf(field, op, value) => LeafText(field, op, value)
    case Not(operand) => "NOT " + AtomText(operand)
  }

  function FilterText(n: FilterNode): string
    requires Printable(n)
  {
    match n
    case And(l, r) => FilterText(l) + (" AND " + AtomText(r))
    case Or(l, r) => FilterText(l) + (" OR " + AtomText(r))
    case _ => AtomText(n)
  }

  // ----- what a printed filter is read back as

  function RereadValue(value: FilterValue, dotAhead: bool): FilterValue {
    if value.VInt? && dotAhead then VReal(value.i as real) else value
  }

  function RereadAtom(n: FilterNode, dotAhead: bool): FilterNode
    requires IsAtom(n)
  {
    match n
    case Leaf(field, op, value) => Leaf(field, op, RereadValue(value, dotAhead))
    case Not(operand) => Not(RereadAtom(operand, dotAhead))
  }

  /** The tree the parser builds: the same, but every integer with a dot anywhere after it is a real. */
  function Reread(n: FilterNode, dotAhead: bool): FilterNode
    requires Printable(n)
  {
    match n
    case And(l, r) => And(Reread(l, dotAhead || '.' in AtomText(r)), RereadAtom(r, dotAhead))
    case Or(l, r) => Or(Reread(l, dotAhead || '.' in AtomText(r)), RereadAtom(r, dotAhead))
    case _ => RereadAtom(n, dotAhead)
  }

  // ----- the pieces are read back

  /** A text ends where a printed piece may end: at the end, or at a blank. */
  predicate AtBlank(tail: string) {
    tail == [] || tail[0] == ' '
  }

  lemma Appended(a: string, b: string)
    ensures (a + b)[|a|..] == b && (a + b)[..|a|] == a
  {
  }

  lemma NothingToSkip(s: string)
    requires s == [] || !IsSpace(s[0])
    ensures SkipSpace(s) == s
  {
    SpanIs(s, IsSpace, 0);
  }

  lemma OneBlank(s: string)
    requires s != [] && !IsSpace(s[0])
    ensures SkipSpace(" " + s) == s
  {
    SpanIs(" " + s, IsSpace, 1);
  }

  lemma OperatorReadsBack(op: FilterOp, tail: string)
    requires tail != [] && tail[0] == ' '
    ensures ReadOperator(OpText(op) + tail) == Some(op)
  {
    var s := OpText(op) + tail;
    assert s[0] == OpText(op)[0] && s[|OpText(op)|] == ' ';
    if |OpText(op)| > 1 {
      assert s[1] == OpText(op)[1];
    }
    TwoAhead("==", s);
    TwoAhead("!=", s);
    TwoAhead("<=", s);
    TwoAhead(">=", s);
    TwoAhead("=~", s);
    TwoAhead("!~", s);
    TwoAhead("in", s);
    assert "<" <= s ==> s[0] == "<"[0];
    assert ">" <= s ==> s[0] == ">"[0];
    assert OpText(op) <= s;
  }

  lemma TwoAhead(w: string, s: string)
    requires |w| == 2
    ensures w <= s <==> |s| >= 2 && s[0] == w[0] && s[1] == w[1]
  {
  }

  lemma {:induction false} QuoteCloses(s: string, tail: string)
    requires WellEscaped(s)
    ensures QuotedSpan(s + "\"" + tail) == |s|
  {
    var whole := s + "\"" + tail;
    if s == [] {
    } else if s[0] == '\\' {
      QuoteCloses(s[2..], tail);
      assert whole[2..] == s[2..] + "\"" + tail;
    } else {
      QuoteCloses(s[1..], tail);
      assert whole[1..] == s[1..] + "\"" + tail;
    }
  }

  lemma StringReadsBack(op: FilterOp, s: string, tail: string)
    requires WellEscaped(s)
    ensures ReadValue(op, "\"" + s + "\"" + tail) == ValueRead(VString(s), |s| + 2)
  {
    var body := s + "\"" + tail;
    QuoteCloses(s, tail);
    assert "\"" + s + "\"" + tail == "\"" + body;
    Unquoted(op, body, |s|);
    assert body[..|s|] == s;
  }

  lemma Unquoted(op: FilterOp, body: string, n: nat)
    requires n < |body| && QuotedSpan(body) == n
    ensures ReadValue(op, "\"" + body) == ValueRead(VString(body[..n]), n + 2)
  {
    hide StartsNumber, ReadDecimal, ReadInt, QuotedSpan;
    var t := "\"" + body;
    assert t[1..] == body;
    assert t[1..n + 1] == body[..n];
  }

  lemma IntStarts(i: int, tail: string)
    ensures StartsNumber(IntText(i) + tail) && (IntText(i) + tail)[0] != '"'
    ensures '.' in IntText(i) + tail <==> '.' in tail
  {
    var text := IntText(i);
    assert '.' !in text;
    assert (text + tail)[0] == text[0];
    if i < 0 {
      assert (text + tail)[1] == text[1] == NatText(-i)[0];
    }
  }

  lemma IntReadsBack(op: FilterOp, i: int, tail: string)
    requires -0x8000_0000 <= i < 0x8000_0000 && AtBlank(tail)
    ensures ReadValue(op, IntText(i) + tail) == ValueRead(RereadValue(VInt(i), '.' in tail), |IntText(i)|)
  {
    hide IntText, ReadDecimal, ReadWhole, StartsNumber, QuotedSpan, Wrap32, Clamp;
    IntStarts(i, tail);
    WholeOfInt(i, tail);
    DecimalOfInt(i, tail);
    WordFits(i);
  }

  lemma WordFits(i: int)
    requires -0x8000_0000 <= i < 0x8000_0000
    ensures Wrap32(Clamp(i)) == i
  {
  }

  lemma PatternReadsBack(op: FilterOp, p: string, tail: string)
    requires (op == Match || op == NoMatch) && BarePattern(p) && AtBlank(tail)
    ensures ReadValue(op, p + tail) == ValueRead(VRegex(p), |p|)
  {
    SpanIs(p + tail, NotSpace, |p|);
    assert (p + tail)[0] == p[0];
    assert !StartsNumber(p + tail);
    assert !("true" <= p + tail) && !("false" <= p + tail);
    assert (p + tail)[..|p|] == p;
  }

  lemma ValueReadsBack(op: FilterOp, value: FilterValue, tail: string)
    requires PrintableValue(op, value) && AtBlank(tail)
    ensures ReadValue(op, ValueText(value) + tail) == ValueRead(RereadValue(value, '.' in tail), |ValueText(value)|)
  {
    match value
    case VString(s) => StringReadsBack(op, s, tail);
    case VInt(i) => IntReadsBack(op, i, tail);
    case VRegex(p) => PatternReadsBack(op, p, tail);
    case VBool(b) =>
  }

  lemma ValueIsAhead(op: FilterOp, value: FilterValue)
    requires PrintableValue(op, value)
    ensures ValueText(value) != [] && !IsSpace(ValueText(value)[0])
  {
  }

  // ----- leaves, atoms and chains are read back

  /** A leaf is read piece by piece. */
  lemma LeafPieces(field: string, op: FilterOp, value: string, v: ValueRead, tail: string)
    requires PrintableField(field) && value != [] && !IsSpace(value[0])
    requires ReadValue(op, value + tail) == v && v.length == |value|
    ensures ParseLeaf(field + (" " + (OpText(op) + (" " + (value + tail))))) == Atom(Leaf(field, op, v.value), tail)
  {
    var afterOp := value + tail;
    var afterField := OpText(op) + (" " + afterOp);
    var whole := field + (" " + afterField);
    SpanIs(whole, IsFieldChar, |field|);
    Appended(field, " " + afterField);
    OperatorReadsBack(op, " " + afterOp);
    OneBlank(afterField);
    Appended(OpText(op), " " + afterOp);
    OneBlank(afterOp);
    Appended(value, tail);
  }

  lemma LeafTextThen(field: string, op: FilterOp, value: FilterValue, tail: string)
    ensures LeafText(field, op, value) + tail == field + (" " + (OpText(op) + (" " + (ValueText(value) + tail))))
  {
  }

  lemma LeafReadsBack(field: string, op: FilterOp, value: FilterValue, tail: string)
    requires PrintableField(field) && PrintableValue(op, value) && AtBlank(tail)
    ensures ParseLeaf(LeafText(field, op, value) + tail) == Atom(Leaf(field, op, RereadValue(value, '.' in tail)), tail)
  {
    LeafTextThen(field, op, value, tail);
    ValueIsAhead(op, value);
    ValueReadsBack(op, value, tail);
    LeafPieces(field, op, ValueText(value), ReadValue(op, ValueText(value) + tail), tail);
  }

  lemma NoKeywordAhead(field: string, rest: string)
    requires PrintableField(field) && rest != [] && rest[0] == ' '
    ensures
      var s := field + rest;
      SkipSpace(s) == s && !("(" <= s) && !("NOT" <= s) && !("not" <= s)
  {
    var s := field + rest;
    assert s[0] == field[0] && s[|field|] == ' ';
    NothingToSkip(s);
    NotAhead("NOT", field, rest);
    NotAhead("not", field, rest);
  }

  lemma NotAhead(word: string, field: string, rest: string)
    requires rest != [] && rest[0] == ' ' && ' ' !in word && !(word <= field)
    ensures !(word <= field + rest)
  {
    var s := field + rest;
    if |field| < |word| {
      assert s[|field|] == ' ';
      assert word[|field|] in word;
    } else {
      assert s[..|word|] == field[..|word|];
    }
  }

  lemma LeadingBlank(s: string)
    requires s != [] && !IsSpace(s[0])
    ensures ParseAtom(" " + s) == ParseAtom(s)
  {
    hide ParseLeaf;
    OneBlank(s);
    NothingToSkip(s);
  }

  lemma {:induction false} AtomIsAhead(n: FilterNode)
    requires IsAtom(n)
    ensures AtomText(n) != [] && !IsSpace(AtomText(n)[0])
  {
  }

  lemma {:induction false} AtomReadsBack(n: FilterNode, tail: string)
    requires IsAtom(n) && AtBlank(tail)
    ensures ParseAtom(AtomText(n) + tail) == Atom(RereadAtom(n, '.' in tail), tail)
  {
    hide ParseAtom;
    match n
    case Leaf(field, op, value) =>
      LeafAhead(field, op, value, tail);
    case Not(operand) =>
      var inner := AtomText(operand) + tail;
      AtomReadsBack(operand, tail);
      AtomIsAhead(operand);
      LeadingBlank(inner);
      NegationAhead(inner);
      NegatedText(AtomText(operand), tail);
  }

  lemma NegatedText(text: string, tail: string)
    ensures "NOT " + text + tail == "NOT" + (" " + (text + tail))
  {
  }

  lemma LeafAhead(field: string, op: FilterOp, value: FilterValue, tail: string)
    requires PrintableField(field) && PrintableValue(op, value) && AtBlank(tail)
    ensures ParseAtom(LeafText(field, op, value) + tail) == Atom(Leaf(field, op, RereadValue(value, '.' in tail)), tail)
  {
    hide ParseLeaf;
    LeafReadsBack(field, op, value, tail);
    LeafTextThen(field, op, value, tail);
    NoKeywordAhead(field, " " + (OpText(op) + (" " + (ValueText(value) + tail))));
  }

  lemma NegationAhead(inner: string)
    ensures ParseAtom("NOT" + (" " + inner)) == Negate(ParseAtom(" " + inner))
  {
    hide ParseLeaf;
    var s := "NOT" + (" " + inner);
    Appended("NOT", " " + inner);
    assert s[0] == 'N';
    NothingToSkip(s);
    Negated(s, " " + inner);
  }

  lemma Negated(s: string, rest: string)
    requires SkipSpace(s) == s && "NOT" <= s && s[3..] == rest
    ensures ParseAtom(s) == Negate(ParseAtom(rest))
  {
    hide ParseLeaf;
    hide SkipSpace;
    assert s[0] == 'N';
  }

  lemma LinkReadsBack(left: FilterNode, conj: bool, n: FilterNode, tail: string)
    requires IsAtom(n) && AtBlank(tail)
    ensures
      var right := RereadAtom(n, '.' in tail);
      ParseChain(left, (if conj then " AND " else " OR ") + (AtomText(n) + tail))
      == ParseChain(if conj then And(left, right) else Or(left, right), tail)
  {
    hide ParseAtom, ParseChain;
    var inner := AtomText(n) + tail;
    AtomIsAhead(n);
    AtomReadsBack(n, tail);
    LeadingBlank(inner);
    LinkAhead(left, if conj then "AND" else "OR", inner);
    assert (if conj then " AND " else " OR ") + inner == " " + ((if conj then "AND" else "OR") + (" " + inner));
  }

  lemma LinkAhead(left: FilterNode, word: string, inner: string)
    requires word == "AND" || word == "OR"
    requires ParseAtom(" " + inner).Atom?
    ensures
      var right := ParseAtom(" " + inner);
      ParseChain(left, " " + (word + (" " + inner)))
      == ParseChain(if word == "AND" then And(left, right.node) else Or(left, right.node), right.rest)
  {
    hide ParseAtom;
    var t := word + (" " + inner);
    assert t[0] == word[0];
    OneBlank(t);
    Appended(word, " " + inner);
  }

  /** Reading a printed chain and then whatever follows is continuing after the tree it was printed from. */
  lemma {:induction false} ChainReadsBack(n: FilterNode, tail: string)
    requires Printable(n) && AtBlank(tail)
    ensures ParseFilter(FilterText(n) + tail) == ParseChain(Reread(n, '.' in tail), tail)
    decreases n
  {
    hide ParseChain, ParseAtom;
    if n.And? || n.Or? {
      hide ParseFilter;
      var link := if n.And? then " AND " else " OR ";
      var rest := link + (AtomText(n.right) + tail);
      ChainReadsBack(n.left, rest);
      LinkReadsBack(Reread(n.left, '.' in rest), n.And?, n.right, tail);
      LinkedText(FilterText(n.left), link, AtomText(n.right), tail);
      DotIn(link, AtomText(n.right), tail);
    } else {
      AtomReadsBack(n, tail);
    }
  }

  lemma LinkedText(left: string, link: string, right: string, tail: string)
    ensures left + (link + right) + tail == left + (link + (right + tail))
  {
  }

  lemma DotIn(link: string, text: string, tail: string)
    requires '.' !in link
    ensures '.' in link + (text + tail) <==> '.' in tail || '.' in text
  {
  }

  lemma ChainEnds(left: FilterNode)
    ensures ParseChain(left, "") == Some(left)
  {
    hide ParseAtom;
  }

  /** Every printed filter is accepted, and what it becomes is known: AND and OR associate to the left
      with equal precedence, and integers before a dot turn real. */
  lemma PrintedFiltersParse(n: FilterNode)
    requires Printable(n)
    ensures ParseFilter(FilterText(n)) == Some(Reread(n, false))
  {
    hide FilterText, ParseFilter, ParseChain, Reread;
    ChainReadsBack(n, "");
    ChainEnds(Reread(n, false));
    assert FilterText(n) + "" == FilterText(n);
  }

  // ----- when the round trip is exact

  predicate NoDotAfterInt(n: FilterNode, dotAhead: bool)
    requires Printable(n)
  {
    match n
    case And(l, r) => NoDotAfterInt(l, dotAhead || '.' in AtomText(r)) && NoIntLeaf(r, dotAhead)
    case Or(l, r) => NoDotAfterInt(l, dotAhead || '.' in AtomText(r)) && NoIntLeaf(r, dotAhead)
    case _ => NoIntLeaf(n, dotAhead)
  }

  /** Not an integer leaf, or nothing ahead to turn it real. */
  predicate NoIntLeaf(n: FilterNode, dotAhead: bool)
    requires IsAtom(n)
  {
    match n
    case Leaf(field, op, value) => value.VInt? ==> !dotAhead
    case Not(operand) => NoIntLeaf(operand, dotAhead)
  }

  lemma {:induction false} AtomUnchangedIff(n: FilterNode, dotAhead: bool)
    requires IsAtom(n)
    ensures RereadAtom(n, dotAhead) == n <==> NoIntLeaf(n, dotAhead)
  {
    if n.Not? {
      AtomUnchangedIff(n.operand, dotAhead);
    }
  }

  lemma {:induction false} UnchangedIff(n: FilterNode, dotAhead: bool)
    requires Printable(n)
    ensures Reread(n, dotAhead) == n <==> NoDotAfterInt(n, dotAhead)
    decreases n
  {
    if n.And? || n.Or? {
      UnchangedIff(n.left, dotAhead || '.' in AtomText(n.right));
      AtomUnchangedIff(n.right, dotAhead);
    } else {
      AtomUnchangedIff(n, dotAhead);
    }
  }

  /** Parsing inverts printing exactly when no integer has a dot somewhere after it. */
  lemma RoundTripIff(n: FilterNode)
    requires Printable(n)
    ensures ParseFilter(FilterText(n)) == Some(n) <==> NoDotAfterInt(n, false)
  {
    PrintedFiltersParse(n);
    UnchangedIff(n, false);
  }
}
