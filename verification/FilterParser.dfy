/** parse_filter_expr and parse_filter_full: the filter parser moving its cursor in place. */
module FilterParser {
  import opened Values
  import opened Text
  import opened Numerals
  import opened Cursors
  import opened FilterSyntax

  /** Takes a word if it is the next thing in the text. */
  method Accept(cursor: Cursor, word: string) returns (b: bool)
    requires cursor.Valid()
    modifies cursor
    ensures cursor.Valid() && (b <==> word <= old(cursor.at).rest)
    ensures cursor.at == if b then Past(old(cursor.at), |word|) else old(cursor.at)
    ensures b ==> cursor.at.rest == old(cursor.at).rest[|word|..]
  {
    b := cursor.Looking(word);
    if b {
      cursor.Advance(|word|);
    }
  }

  method ParseOperator(cursor: Cursor) returns (op: Option<FilterOp>)
    requires cursor.Valid()
    modifies cursor
    ensures cursor.Valid() && op == ReadOperator(old(cursor.at).rest)
    ensures op.Some?
        ==> OpText(op.value) <= old(cursor.at).rest && cursor.at.rest == old(cursor.at).rest[|OpText(op.value)|..]
  {
    hide Past;
    var found := Accept(cursor, "==");
    if found { return Some(Eq); }
    found := Accept(cursor, "!=");
    if found { return Some(Ne); }
    found := Accept(cursor, "<=");
    if found { return Some(Le); }
    found := Accept(cursor, ">=");
    if found { return Some(Ge); }
    found := Accept(cursor, "<");
    if found { return Some(Lt); }
    found := Accept(cursor, ">");
    if found { return Some(Gt); }
    found := Accept(cursor, "=~");
    if found { return Some(Match); }
    found := Accept(cursor, "!~");
    if found { return Some(NoMatch); }
    found := Accept(cursor, "in");
    if found { return Some(In); }
    found := Accept(cursor, "contains");
    op := if found then Some(Contains) else None;
  }

  lemma QuotedStep(start: At, n: nat)
    requires n < |start.rest| && start.rest[n] != '"'
    requires n + QuotedSpan(Past(start, n).rest) == QuotedSpan(start.rest)
    ensures
      var m := if start.rest[n] == '\\' && n + 1 < |start.rest| then n + 2 else n + 1;
      m <= |start.rest| && m + QuotedSpan(Past(start, m).rest) == QuotedSpan(start.rest)
  {
    PastFacts(start, n);
  }

  /** The body of a quoted string, up to its closing quote or the end of the text. */
  method TakeQuoted(cursor: Cursor) returns (body: string)
    requires cursor.Valid()
    modifies cursor
    ensures cursor.Valid()
    ensures
      var n := QuotedSpan(old(cursor.at).rest);
      body == old(cursor.at).rest[..n] && cursor.at == Past(old(cursor.at), n)
  {
    hide QuotedSpan, Past;
    ghost var start := cursor.at;
    PastFacts(start, 0);
    NotMoved(start);
    var from := cursor.pos;
    var text := cursor.Ahead();
    while cursor.pos < |cursor.input| && cursor.Peek(0) != '"'
      invariant cursor.Valid() && from <= cursor.pos && cursor.at == Past(start, cursor.pos - from)
      invariant (cursor.pos - from) + QuotedSpan(cursor.at.rest) == QuotedSpan(start.rest)
      decreases |cursor.at.rest|
    {
      var n := cursor.pos - from;
      PastFacts(start, n);
      QuotedStep(start, n);
      if cursor.Peek(0) == '\\' && cursor.pos + 1 < |cursor.input| {
        cursor.Advance(2);
      } else {
        cursor.Advance(1);
      }
    }
    body := text[..cursor.pos - from];
    QuoteEnds(cursor.at.rest);
  }

  lemma NotMoved(at: At)
    ensures Past(at, 0) == at
  {
  }

  lemma QuoteEnds(s: string)
    requires s == [] || s[0] == '"'
    ensures QuotedSpan(s) == 0
  {
  }

  method ParseString(cursor: Cursor) returns (value: FilterValue)
    requires cursor.Valid() && cursor.at.rest != [] && cursor.at.rest[0] == '"'
    modifies cursor
    ensures cursor.Valid()
    ensures
      var body := old(cursor.at).rest[1..];
      var n := QuotedSpan(body);
      if n < |body| then value == VString(body[..n]) && cursor.at == Past(old(cursor.at), n + 2)
      else value == VNone && cursor.at == Past(old(cursor.at), n + 1)
  {
    hide QuotedSpan;
    ghost var start := cursor.at;
    cursor.Advance(1);
    var text := TakeQuoted(cursor);
    PastPast(start, 1, |text|);
    value := VNone;
    if cursor.pos < |cursor.input| {
      value := VString(text);
      PastPast(start, |text| + 1, 1);
      cursor.Advance(1);
    }
  }

  method ParseValue(cursor: Cursor, op: FilterOp) returns (value: FilterValue)
    requires cursor.Valid()
    modifies cursor
    ensures cursor.Valid()
    ensures
      var read := ReadValue(op, old(cursor.at).rest);
      value == read.value && cursor.at.rest == old(cursor.at).rest[read.length..]
  {
    hide QuotedSpan, ReadDecimal, ReadInt, Span;
    var ahead := cursor.Ahead();
    if cursor.pos < |cursor.input| && cursor.Peek(0) == '"' {
      assert ahead[1..|ahead|] == ahead[1..];
      value := ParseString(cursor);
      return;
    }
    if StartsNumber(ahead) {
      if '.' in ahead {
        var decimal := ReadDecimal(ahead);
        cursor.Advance(decimal.length);
        return VReal(decimal.value);
      }
      var whole := ReadInt(ahead);
      cursor.Advance(whole.length);
      return VInt(whole.value);
    }
    var found := Accept(cursor, "true");
    if found { return VBool(true); }
    found := Accept(cursor, "false");
    if found { return VBool(false); }
    value := VNone;
    if op == Match || op == NoMatch {
      var pattern := cursor.TakeWhile(NotSpace);
      value := VRegex(pattern);
    }
  }

  method ParseExpression(cursor: Cursor) returns (node: Option<FilterNode>)
    requires cursor.Valid()
    modifies cursor
    ensures cursor.Valid()
    ensures
      var leaf := ParseLeaf(old(cursor.at).rest);
      if leaf.NoAtom? then node == None else node == Some(leaf.node) && cursor.at.rest == leaf.rest
  {
    hide ReadOperator, ReadValue, SkipSpace, Span, Past;
    var field := cursor.TakeWhile(IsFieldChar);
    if field == "" {
      return None;
    }
    cursor.SkipBlanks();
    var op := ParseOperator(cursor);
    if op.None? {
      return None;
    }
    cursor.SkipBlanks();
    var value := ParseValue(cursor, op.value);
    node := Some(Leaf(field, op.value, value));
  }

  lemma AtomCases(s: string)
    ensures
      var t := SkipSpace(s);
      ParseAtom(s) == if "(" <= t then Close(ParseAtom(t[1..]))
                      else if "NOT" <= t || "not" <= t then Negate(ParseAtom(t[3..]))
                      else ParseLeaf(t)
  {
    hide ParseLeaf, SkipSpace;
  }

  /** parse_filter_expr */
  method ParseExpr(cursor: Cursor) returns (node: Option<FilterNode>)
    requires cursor.Valid()
    modifies cursor
    ensures cursor.Valid()
    ensures
      var atom := ParseAtom(old(cursor.at).rest);
      if atom.NoAtom? then node == None else node == Some(atom.node) && cursor.at.rest == atom.rest
    decreases |cursor.at.rest|
  {
    hide ParseAtom, ParseLeaf, SkipSpace, Past;
    AtomCases(cursor.at.rest);
    cursor.SkipBlanks();
    var found := Accept(cursor, "(");
    if found {
      node := ParseExpr(cursor);
      if node.Some? {
        cursor.SkipBlanks();
        found := Accept(cursor, ")");
      }
      return;
    }
    found := Accept(cursor, "NOT");
    if !found {
      found := Accept(cursor, "not");
    }
    if found {
      node := ParseExpr(cursor);
      if node.Some? {
        node := Some(Not(node.value));
      }
      return;
    }
    node := ParseExpression(cursor);
  }

  /** The word that links two atoms, if one is next: true for AND, false for OR. */
  method ParseLink(cursor: Cursor) returns (link: Option<bool>)
    requires cursor.Valid()
    modifies cursor
    ensures cursor.Valid()
    ensures
      var t := SkipSpace(old(cursor.at).rest);
      if "AND" <= t || "and" <= t then link == Some(true) && cursor.at.rest == t[3..]
      else if "OR" <= t || "or" <= t then link == Some(false) && cursor.at.rest == t[2..]
      else link == None
  {
    hide Past;
    cursor.SkipBlanks();
    var found := Accept(cursor, "AND");
    if found { return Some(true); }
    found := Accept(cursor, "and");
    if found { return Some(true); }
    found := Accept(cursor, "OR");
    if found { return Some(false); }
    found := Accept(cursor, "or");
    link := if found then Some(false) else None;
  }

  /** parse_filter_full, and so nblex_filter_new: the loop joins each further atom to everything on its left. */
  method ParseFull(text: string) returns (root: Option<FilterNode>)
    ensures root == ParseFilter(text)
  {
    hide ParseAtom, SkipSpace;
    var cursor := new Cursor(text);
    root := ParseExpr(cursor);
    if root.None? {
      return;
    }
    var more := true;
    while more && cursor.pos < |cursor.input|
      invariant cursor.Valid() && root.Some?
      invariant ParseFilter(text) == if more then ParseChain(root.value, cursor.at.rest) else root
      decreases more, |cursor.at.rest|
    {
      var link := ParseLink(cursor);
      if link.None? {
        more := false;
      } else {
        var right := ParseExpr(cursor);
        if right.None? {
          return None;
        }
        root := Some(if link.value then And(root.value, right.value) else Or(root.value, right.value));
      }
    }
  }
}
