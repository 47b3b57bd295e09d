/** Parsing a printed query gives the query back. */
module NqlRoundTrip {
  import opened Values
  import opened Text
  import opened Numerals
  import opened Cursors
  import opened FilterSyntax
  import opened Aggregation
  import opened NqlAst
  import opened NqlSyntax
  import opened NqlPrinting

  // ----- the written form of queries

  function Duration(ms: nat): string {
    NatText(ms) + "ms"
  }

  function KindName(kind: AggKind): string {
    match kind
    case Count => "count"
    case Sum => "sum"
    case Avg => "avg"
    case Min => "min"
    case Max => "max"
    case Percentile => "percentile"
    case Distinct => "distinct"
  }

  function Rank(f: AggFunc): nat {
    if f.percentile >= 0.0 then f.percentile.Floor else 0
  }

  predicate PrintableFunction(f: AggFunc) {
    match f.kind
    case Count => f.field == None && f.percentile == 0.0
    case Percentile => f.field.Some? && PrintableName(f.field.value) && f.percentile == Rank(f) as real
    case _ => f.field.Some? && PrintableName(f.field.value) && f.percentile == 0.0
  }

  function ArgumentText(f: AggFunc): string {
    match f.kind
    case Count => ")"
    case Percentile => if f.field.Some? then f.field.value + (", " + (NatText(Rank(f)) + ")")) else ""
    case _ => if f.field.Some? then f.field.value + ")" else ""
  }

  function FunctionText(f: AggFunc): string {
    KindName(f.kind) + ("(" + ArgumentText(f))
  }

  function FunctionsText(funcs: seq<AggFunc>): string {
    if funcs == [] then ""
    else if |funcs| == 1 then FunctionText(funcs[0])
    else FunctionText(funcs[0]) + (", " + FunctionsText(funcs[1..]))
  }

  function FieldsText(fields: seq<string>): string {
    if fields == [] then ""
    else if |fields| == 1 then fields[0]
    else fields[0] + (", " + FieldsText(fields[1..]))
  }

  function ByText(groupBy: seq<string>): string {
    if groupBy == [] then "" else " by " + FieldsText(groupBy)
  }

  function WhereText(filter: Option<FilterNode>): string
    requires filter.Some? ==> Printable(filter.value)
  {
    if filter.None? then "" else " where " + FilterText(filter.value)
  }

  function WindowBody(w: Window): string {
    match w
    case NoWindow => ""
    case Tumbling(size) => " tumbling(" + (Duration(size) + ")")
    case Sliding(size, slide) => " sliding(" + (Duration(size) + (", " + (Duration(slide) + ")")))
    case Session(timeout) => " session(" + (Duration(timeout) + ")")
  }

  function WindowText(w: Window): string {
    if w.NoWindow? then "" else " window" + WindowBody(w)
  }

  predicate PrintableWindow(w: Window) {
    match w
    case NoWindow => true
    case Tumbling(size) => size < U64
    case Sliding(size, slide) => size < U64 && slide < U64
    case Session(timeout) => timeout < U64
  }

  predicate PrintableNames(names: seq<string>) {
    forall i :: 0 <= i < |names| ==> PrintableName(names[i])
  }

  predicate PrintableFunctions(funcs: seq<AggFunc>) {
    forall i :: 0 <= i < |funcs| ==> PrintableFunction(funcs[i])
  }

  predicate PrintableWhere(filter: Option<FilterNode>, words: seq<string>) {
    filter.Some? ==> PrintableFilter(filter.value, words)
  }

  /** The first word of a filter's text. */
  function LeadWord(n: FilterNode): string {
    match n
    case And(l, r) => LeadWord(l)
    case Or(l, r) => LeadWord(l)
    case Not(operand) => "NOT"
    case Leaf(field, op, value) => field
  }

  predicate PrintableSingle(q: Query) {
    match q
    case FilterQuery(filter) =>
      PrintableFilter(filter, PipeWords()) && LowerAll(LeadWord(filter)) !in ["correlate", "aggregate", "show"]
    case CorrelateQuery(Correlate(left, right, withinMs)) =>
      PrintableFilter(left, LeftWords()) && PrintableFilter(right, RightWords()) && 0 < withinMs < U64
    case AggregateQuery(a) =>
      && a.funcs != [] && PrintableFunctions(a.funcs) && PrintableNames(a.groupBy)
      && PrintableWhere(a.filter, WhereWords()) && PrintableWindow(a.window)
    case ShowQuery(selectAll, fields, where) =>
      (selectAll <==> fields == []) && PrintableNames(fields) && PrintableWhere(where, PipeWords())
    case PipelineQuery(stages) => false
  }

  /** The fragment the language can write down: pipelines have at least two stages, none a pipeline. */
  predicate PrintableQuery(q: Query) {
    if q.PipelineQuery? then |q.stages| > 1 && PrintableStages(q.stages) else PrintableSingle(q)
  }

  predicate PrintableStages(stages: seq<Query>) {
    forall i :: 0 <= i < |stages| ==> PrintableSingle(stages[i])
  }

  function SingleText(q: Query): string
    requires PrintableSingle(q)
  {
    match q
    case FilterQuery(filter) => FilterText(filter)
    case CorrelateQuery(Correlate(left, right, withinMs)) =>
      "correlate " + (FilterText(left) + (" with " + (FilterText(right) + (" within " + Duration(withinMs)))))
    case AggregateQuery(a) =>
      "aggregate " + (FunctionsText(a.funcs) + (ByText(a.groupBy) + (WhereText(a.filter) + WindowText(a.window))))
    case ShowQuery(selectAll, fields, where) =>
      "show " + ((if selectAll then "*" else FieldsText(fields)) + WhereText(where))
  }

  function StagesText(stages: seq<Query>): string
    requires PrintableStages(stages)
  {
    if stages == [] then ""
    else if |stages| == 1 then SingleText(stages[0])
    else SingleText(stages[0]) + (" | " + StagesText(stages[1..]))
  }

  function QueryText(q: Query): string
    requires PrintableQuery(q)
  {
    if q.PipelineQuery? then StagesText(q.stages) else SingleText(q)
  }

  // ----- words, characters, durations and names read back

  lemma SkipOneBlank(s: string)
    ensures SkipSpace(" " + s) == SkipSpace(s)
  {
    var n := Span(s, IsSpace);
    assert forall i :: 0 < i < n + 1 ==> (" " + s)[i] == s[i - 1];
    SpanIs(" " + s, IsSpace, n + 1);
  }

  lemma KeywordReads(at: At, word: string, rest: string)
    requires SkipSpace(at.rest) == word + rest && LowerAll(word) == word && (rest == [] || IsBoundary(rest[0]))
    ensures KeywordAhead(at, word) && PastKeyword(at, word).rest == rest
  {
    Appended(word, rest);
  }

  /** Some character of the word differs from what is ahead. */
  lemma KeywordAbsent(at: At, word: string, i: nat)
    requires i < |word| && (|SkipSpace(at.rest)| <= i || Lower(SkipSpace(at.rest)[i]) != word[i])
    ensures !KeywordAhead(at, word) && PastKeyword(at, word) == PastSpace(at)
  {
    var s := SkipSpace(at.rest);
    if |word| <= |s| {
      assert LowerAll(s[..|word|])[i] == Lower(s[i]);
    }
  }

  lemma CharReads(at: At, c: char, rest: string)
    requires SkipSpace(at.rest) == [c] + rest
    ensures CharAhead(at, c) && PastChar(at, c).rest == rest
  {
    assert ([c] + rest)[1..] == rest;
  }

  lemma UnsignedReads(n: nat, tail: string)
    requires n < U64 && (tail == [] || !IsDigit(tail[0]))
    ensures ReadUnsigned(NatText(n) + tail) == Whole(n, |NatText(n)|) && |NatText(n)| > 0
  {
    hide ReadWhole;
    WholeOfNat(n, tail);
  }

  lemma DurationStep(at: At, n: nat, digits: string, unit: string, ms: nat, tail: string)
    requires n < U64 && SkipSpace(at.rest) == digits + (unit + tail) && unit != [] && !IsSpace(unit[0])
    requires ReadUnsigned(SkipSpace(at.rest)) == Whole(n, |digits|) && |digits| > 0
    requires UnitOf(unit + tail) == Unit(ms, |unit|)
    ensures ReadDuration(at).Good? && ReadDuration(at).value == MulU64(n, ms) && ReadDuration(at).at.rest == tail
  {
    hide ReadUnsigned, MulU64, UnitOf, Past, PastSpace, SkipSpace;
    assert (unit + tail)[0] == unit[0];
    AfterNumber(at, digits, unit + tail);
    UnitIsPast(PastSpace(Past(PastSpace(at), |digits|)), unit, tail);
  }

  lemma AfterNumber(at: At, digits: string, unit: string)
    requires SkipSpace(at.rest) == digits + unit && unit != [] && !IsSpace(unit[0])
    ensures PastSpace(Past(PastSpace(at), |digits|)).rest == unit
  {
    hide SkipSpace;
    Appended(digits, unit);
    NothingToSkip(unit);
    NotMoved(PastSpace(at));
  }

  lemma NotMoved(at: At)
    ensures Past(at, 0) == at && (at.rest == [] || at.rest[0..] == at.rest)
  {
  }

  lemma UnitIsPast(at: At, unit: string, tail: string)
    requires at.rest == unit + tail && unit != []
    ensures Past(at, |unit|).rest == tail
  {
    Appended(unit, tail);
  }

  function UnitMs(unit: string): nat {
    if unit == "h" then 60 * 60 * 1000 else if unit == "m" then 60 * 1000 else if unit == "s" then 1000 else 1
  }

  /** A duration in any unit is that many milliseconds, exactly when the product fits in 64 bits. */
  lemma DurationMeansIff(at: At, n: nat, unit: string, tail: string)
    requires unit in ["ms", "s", "m", "h"] && n < U64 && SkipSpace(at.rest) == NatText(n) + (unit + tail)
    requires tail == [] || tail[0] != 's'
    ensures ReadDuration(at).Good? && ReadDuration(at).at.rest == tail
    ensures ReadDuration(at).value == n * UnitMs(unit) <==> n * UnitMs(unit) < U64
  {
    hide ReadDuration, ReadUnsigned, SkipSpace, MulU64;
    assert (unit + tail)[0] == unit[0];
    UnsignedReads(n, unit + tail);
    UnitReads(unit, tail);
    DurationStep(at, n, NatText(n), unit, UnitMs(unit), tail);
    ProductFitsIff(n, UnitMs(unit));
  }

  lemma ProductFitsIff(a: nat, b: nat)
    ensures MulU64(a, b) == a * b <==> a * b < U64
  {
  }

  lemma UnitReads(unit: string, tail: string)
    requires unit in ["ms", "s", "m", "h"] && (tail == [] || tail[0] != 's')
    ensures UnitOf(unit + tail) == Unit(UnitMs(unit), |unit|)
  {
    var s := unit + tail;
    assert s[0] == unit[0];
    assert unit <= s;
    if |unit| == 2 {
      assert s[1] == unit[1];
    } else if |s| > 1 {
      assert s[1] == tail[0];
    }
  }

  lemma DurationReads(at: At, ms: nat, tail: string)
    requires SkipSpace(at.rest) == Duration(ms) + tail && ms < U64
    ensures ReadDuration(at).Good? && ReadDuration(at).value == ms && ReadDuration(at).at.rest == tail
  {
    hide ReadDuration, ReadUnsigned, SkipSpace, MulU64;
    UnsignedReads(ms, "ms" + tail);
    assert Duration(ms) + tail == NatText(ms) + ("ms" + tail);
    MillisecondsRead(tail);
    DurationStep(at, ms, NatText(ms), "ms", 1, tail);
    ProductFitsIff(ms, 1);
  }

  lemma MillisecondsRead(tail: string)
    ensures UnitOf("ms" + tail) == Unit(1, 2)
  {
  }

  lemma NameReads(at: At, name: string, tail: string, after: string)
    requires SkipSpace(at.rest) == name + tail && PrintableName(name) && (tail == [] || !IsFieldChar(tail[0]))
    ensures ReadIdentifier(at, after).Good? && ReadIdentifier(at, after).value == name
    ensures ReadIdentifier(at, after).at.rest == tail
  {
    SpanIs(name + tail, IsFieldChar, |name|);
    Appended(name, tail);
  }

  /** Nothing in `tail` continues a comma-separated list. */
  predicate EndsList(tail: string) {
    (tail == [] || !IsFieldChar(tail[0])) && (SkipSpace(tail) == [] || SkipSpace(tail)[0] != ',')
  }

  /** After a list element comes a comma and the rest of the list. */
  lemma CommaReads(at: At, others: string)
    requires at.rest == ", " + others && others != [] && !IsSpace(others[0])
    ensures CharAhead(at, ',') && SkipSpace(PastChar(at, ',').rest) == others
  {
    hide PastChar, CharAhead;
    NothingToSkip(", " + others);
    assert ", " + others == [','] + (" " + others);
    CharReads(at, ',', " " + others);
    OneBlank(others);
  }

  lemma FirstField(fields: seq<string>, tail: string)
    requires |fields| > 1 && PrintableNames(fields)
    ensures PrintableName(fields[0]) && PrintableNames(fields[1..]) && [fields[0]] + fields[1..] == fields
    ensures FieldsText(fields) + tail == fields[0] + (", " + (FieldsText(fields[1..]) + tail))
  {
    hide PrintableName;
    ListText(fields[0], FieldsText(fields[1..]), tail);
  }

  lemma FieldsStep(at: At, first: string, later: string)
    requires ReadIdentifier(at, first).Good? && CharAhead(ReadIdentifier(at, first).at, ',')
    ensures
      var field := ReadIdentifier(at, first);
      var others := ReadFields(PastChar(field.at, ','), later, later);
      ReadFields(at, first, later) == if others.Bad? then others else Good([field.value] + others.value, others.at)
  {
    hide ReadIdentifier, CharAhead, PastChar;
  }

  lemma {:induction false} FieldsRead(at: At, fields: seq<string>, tail: string, first: string, later: string)
    requires fields != [] && PrintableNames(fields) && SkipSpace(at.rest) == FieldsText(fields) + tail && EndsList(tail)
    ensures ReadFields(at, first, later).Good? && ReadFields(at, first, later).value == fields
    ensures ReadFields(at, first, later).at.rest == SkipSpace(tail)
    decreases |fields|
  {
    hide ReadIdentifier, SkipSpace, PastChar, PrintableName;
    var name := fields[0];
    if |fields| == 1 {
      NameReads(at, name, tail, first);
      assert fields == [name];
    } else {
      hide ReadFields, FieldsText, PrintableNames, CharAhead;
      var others := FieldsText(fields[1..]) + tail;
      FirstField(fields, tail);
      NameReads(at, name, ", " + others, first);
      FieldsStart(fields[1..]);
      CommaReads(ReadIdentifier(at, first).at, others);
      FieldsRead(PastChar(ReadIdentifier(at, first).at, ','), fields[1..], tail, later, later);
      FieldsStep(at, first, later);
    }
  }

  lemma ListText(head: string, others: string, tail: string)
    ensures head + (", " + others) + tail == head + (", " + (others + tail))
  {
  }

  lemma FieldsStart(fields: seq<string>)
    requires fields != [] && PrintableNames(fields)
    ensures FieldsText(fields) != [] && FieldsText(fields)[0] == fields[0][0] && IsFieldChar(fields[0][0])
  {
  }

  // ----- aggregation functions read back

  lemma NameThenOpen(at: At, name: string, inner: string)
    requires SkipSpace(at.rest) == name + ("(" + inner)
    requires 0 < |name| < NAME_LIMIT && (forall i :: 0 <= i < |name| ==> IsAlpha(name[i])) && LowerAll(name) == name
    ensures
      var open := Past(PastSpace(at), |name|);
      ReadFunction(at) == ReadArguments(name, PastChar(open, '(')) && PastChar(open, '(').rest == inner
  {
    hide ReadArguments, PastChar, CharAhead, PastSpace;
    var rest := "(" + inner;
    SpanIs(name + rest, IsAlpha, |name|);
    Appended(name, rest);
    NothingToSkip(rest);
    CharReads(Past(PastSpace(at), |name|), '(', inner);
  }

  lemma CloseReads<T>(value: T, at: At, after: string, tail: string)
    requires at.rest == ")" + tail
    ensures Closed(value, at, after).Good? && Closed(value, at, after).value == value
    ensures Closed(value, at, after).at.rest == tail
  {
    hide PastChar, CharAhead, SkipSpace;
    NothingToSkip(at.rest);
    CharReads(at, ')', tail);
  }

  lemma RankReads(at: At, rank: nat, tail: string)
    requires at.rest == " " + (NatText(rank) + (")" + tail))
    ensures
      var p := PastSpace(at);
      var read := ReadDecimal(p.rest);
      read.value == rank as real && 0 < read.length <= |p.rest| && Past(p, read.length).rest == ")" + tail
  {
    hide ReadDecimal, SkipSpace;
    var digits, rest := NatText(rank), ")" + tail;
    OneBlank(digits + rest);
    DecimalOfNat(rank, rest);
    Appended(digits, rest);
    NotMoved(at);
  }

  lemma PercentileReads(at: At, f: AggFunc, tail: string)
    requires PrintableFunction(f) && f.kind == Percentile && at.rest == ArgumentText(f) + tail
    ensures ReadPercentile(at).Good? && ReadPercentile(at).value == f && ReadPercentile(at).at.rest == tail
  {
    hide ReadIdentifier, ReadDecimal, SkipSpace, PastChar, CharAhead, PastSpace, Past, Closed;
    var field, number := f.field.value, NatText(Rank(f)) + (")" + tail);
    var rest := ", " + number;
    assert at.rest == field + rest;
    NothingToSkip(field + rest);
    NameReads(at, field, rest, "percentile");
    var comma := ReadIdentifier(at, "percentile").at;
    NothingToSkip(rest);
    assert rest == [','] + (" " + number);
    CharReads(comma, ',', " " + number);
    var after := PastChar(comma, ',');
    RankReads(after, Rank(f), tail);
    var p := PastSpace(after);
    CloseReads(f, Past(p, ReadDecimal(p.rest).length), "percentile", tail);
  }

  lemma KindReads(kind: AggKind)
    requires kind != Percentile && kind != Count
    ensures KindOf(KindName(kind)) == Some(kind) && KindName(kind) != "count" && KindName(kind) != "percentile"
  {
  }

  lemma FieldArgumentReads(at: At, f: AggFunc, tail: string)
    requires PrintableFunction(f) && f.kind != Percentile && f.kind != Count && at.rest == ArgumentText(f) + tail
    ensures
      var r := ReadArguments(KindName(f.kind), at);
      r.Good? && r.value == f && r.at.rest == tail
  {
    hide ReadIdentifier, ReadPercentile, Closed, KindOf, KindName, SkipSpace;
    KindReads(f.kind);
    var field := f.field.value;
    assert at.rest == field + (")" + tail);
    NothingToSkip(at.rest);
    NameReads(at, field, ")" + tail, "aggregation");
    CloseReads(f, ReadIdentifier(at, "aggregation").at, "aggregation", tail);
  }

  lemma ArgumentsRead(at: At, f: AggFunc, tail: string)
    requires PrintableFunction(f) && at.rest == ArgumentText(f) + tail
    ensures
      var r := ReadArguments(KindName(f.kind), at);
      r.Good? && r.value == f && r.at.rest == tail
  {
    hide ReadIdentifier, ReadPercentile, Closed;
    if f.kind == Count {
      CloseReads(f, at, "count", tail);
    } else if f.kind == Percentile {
      PercentileReads(at, f, tail);
    } else {
      FieldArgumentReads(at, f, tail);
    }
  }

  lemma KindIsAWord(kind: AggKind)
    ensures 0 < |KindName(kind)| < NAME_LIMIT && LowerAll(KindName(kind)) == KindName(kind)
    ensures forall i :: 0 <= i < |KindName(kind)| ==> IsAlpha(KindName(kind)[i])
  {
  }

  lemma FunctionReads(at: At, f: AggFunc, tail: string)
    requires PrintableFunction(f) && SkipSpace(at.rest) == FunctionText(f) + tail
    ensures ReadFunction(at).Good? && ReadFunction(at).value == f && ReadFunction(at).at.rest == tail
  {
    hide ReadFunction, ReadArguments, PastChar, ArgumentText, PrintableFunction;
    var inner := ArgumentText(f) + tail;
    assert FunctionText(f) + tail == KindName(f.kind) + ("(" + inner);
    KindIsAWord(f.kind);
    NameThenOpen(at, KindName(f.kind), inner);
    ArgumentsRead(PastChar(Past(PastSpace(at), |KindName(f.kind)|), '('), f, tail);
  }

  lemma FunctionsStart(funcs: seq<AggFunc>)
    requires funcs != []
    ensures FunctionsText(funcs) != [] && IsAlpha(FunctionsText(funcs)[0])
  {
    KindIsAWord(funcs[0].kind);
  }

  lemma FirstFunction(funcs: seq<AggFunc>, tail: string)
    requires |funcs| > 1 && PrintableFunctions(funcs)
    ensures PrintableFunction(funcs[0]) && PrintableFunctions(funcs[1..]) && [funcs[0]] + funcs[1..] == funcs
    ensures FunctionsText(funcs) + tail == FunctionText(funcs[0]) + (", " + (FunctionsText(funcs[1..]) + tail))
  {
    hide PrintableFunction, FunctionText;
    ListText(FunctionText(funcs[0]), FunctionsText(funcs[1..]), tail);
  }

  lemma {:induction false} FunctionsRead(at: At, funcs: seq<AggFunc>, tail: string)
    requires funcs != [] && PrintableFunctions(funcs) && SkipSpace(at.rest) == FunctionsText(funcs) + tail
    requires EndsList(tail)
    ensures ReadFunctions(at).Good? && ReadFunctions(at).value == funcs && ReadFunctions(at).at.rest == SkipSpace(tail)
    decreases |funcs|
  {
    hide ReadFunction, SkipSpace, PastChar, FunctionText, PrintableFunction;
    var f := funcs[0];
    if |funcs| == 1 {
      FunctionReads(at, f, tail);
      assert funcs == [f];
    } else {
      hide ReadFunctions, FunctionsText, PrintableFunctions, CharAhead;
      var others := FunctionsText(funcs[1..]) + tail;
      FirstFunction(funcs, tail);
      FunctionReads(at, f, ", " + others);
      FunctionsStart(funcs[1..]);
      CommaReads(ReadFunction(at).at, others);
      FunctionsRead(PastChar(ReadFunction(at).at, ','), funcs[1..], tail);
      FunctionsStep(at);
    }
  }

  lemma FunctionsStep(at: At)
    requires ReadFunction(at).Good? && CharAhead(ReadFunction(at).at, ',')
    ensures
      var f := ReadFunction(at);
      var others := ReadFunctions(PastChar(f.at, ','));
      ReadFunctions(at) == if others.Bad? then others else Good([f.value] + others.value, others.at)
  {
    hide ReadFunction, CharAhead, PastChar;
  }

  lemma FunctionListReads(at: At, funcs: seq<AggFunc>, tail: string)
    requires funcs != [] && PrintableFunctions(funcs) && SkipSpace(at.rest) == FunctionsText(funcs) + tail
    requires EndsList(tail)
    ensures ReadFunctionList(at).Good? && ReadFunctionList(at).value == funcs
    ensures ReadFunctionList(at).at.rest == SkipSpace(tail)
  {
    hide ReadFunctions, FunctionsText, SkipSpace;
    FunctionsStart(funcs);
    NothingToSkip(SkipSpace(at.rest));
    FunctionsRead(PastSpace(at), funcs, tail);
  }

  // ----- filters are cut out whole

  lemma {:induction false} AtomEndsSolid(n: FilterNode)
    requires IsAtom(n)
    ensures AtomText(n) != [] && !IsSpace(AtomText(n)[|AtomText(n)| - 1])
  {
    match n
    case Leaf(field, op, value) => LeafEndsSolid(field, op, value);
    case Not(operand) => AtomEndsSolid(operand);
  }

  lemma LeafEndsSolid(field: string, op: FilterOp, value: FilterValue)
    requires PrintableValue(op, value)
    ensures
      var text := LeafText(field, op, value);
      text != [] && !IsSpace(text[|text| - 1])
  {
    var v, text := ValueText(value), LeafText(field, op, value);
    assert v != [] && !IsSpace(v[|v| - 1]);
    assert text == (field + " " + OpText(op) + " ") + v;
  }

  lemma FilterEndsSolid(n: FilterNode)
    requires Printable(n)
    ensures FilterText(n) != [] && !IsSpace(FilterText(n)[|FilterText(n)| - 1])
  {
    AtomEndsSolid(if n.And? || n.Or? then n.right else n);
  }

  lemma {:induction false} FilterStartsSolid(n: FilterNode)
    requires Printable(n)
    ensures FilterText(n) != [] && !IsSpace(FilterText(n)[0])
    decreases n
  {
    if n.And? || n.Or? {
      FilterStartsSolid(n.left);
    } else {
      AtomIsAhead(n);
    }
  }

  /** What follows a filter: nothing, or a blank and something the scanner stops at. */
  predicate Halts(tail: string, words: seq<string>) {
    AtBlank(tail) && (tail != [] ==> Scan(At(' ', tail[1..]), words, Plain, 0) == 0)
  }

  lemma CutTrims(text: string, tail: string, n: nat)
    requires AtBlank(tail) && text != [] && !IsSpace(text[|text| - 1]) && n == |text| + (if tail == [] then 0 else 1)
    ensures n <= |text + tail| && TrimEnd((text + tail)[..n]) == text
    ensures (text + tail)[n..] == if tail == [] then [] else tail[1..]
  {
    var s := text + tail;
    assert s[..n] == if tail == [] then text else text + " ";
    TrimIs(s[..n], text);
  }

  lemma CutReads(at: At, text: string, node: FilterNode, tail: string, words: seq<string>)
    requires SkipSpace(at.rest) == text + tail && AtBlank(tail) && text != [] && !IsSpace(text[|text| - 1])
    requires Scan(PastSpace(at), words, Plain, 0) == |text| + (if tail == [] then 0 else 1)
    requires ParseFilter(text) == Some(node)
    ensures ReadFilter(at, words).Good? && ReadFilter(at, words).value == node
    ensures ReadFilter(at, words).at.rest == if tail == [] then [] else tail[1..]
  {
    hide Scan, ParseFilter, SkipSpace, TrimEnd;
    CutTrims(text, tail, Scan(PastSpace(at), words, Plain, 0));
  }

  lemma FilterReads(at: At, n: FilterNode, tail: string, words: seq<string>)
    requires StopWords(words) && Unreserved(words) && PrintableFilter(n, words) && Halts(tail, words)
    requires SkipSpace(at.rest) == FilterText(n) + tail
    ensures ReadFilter(at, words).Good? && ReadFilter(at, words).value == n
    ensures ReadFilter(at, words).at.rest == if tail == [] then [] else tail[1..]
  {
    hide Scan, ParseFilter, SkipSpace, ReadFilter;
    FilterPasses(PastSpace(at).prev, n, tail, words);
    FilterEndsSolid(n);
    RoundTripIff(n);
    CutReads(at, FilterText(n), n, tail, words);
  }

  /** The scanner stops at a pipe, and at a stop word between blanks. */
  lemma PipeHalts(tail: string, words: seq<string>)
    requires tail == [] || " | " <= tail
    ensures Halts(tail, words)
  {
    if tail != [] {
      assert tail[1..][0] == tail[1];
    }
  }

  lemma WordHalts(word: string, rest: string, words: seq<string>)
    requires word in words && word != [] && IsAlpha(word[0]) && LowerAll(word) == word
    ensures Halts(" " + (word + (" " + rest)), words)
  {
    var s := word + (" " + rest);
    assert (" " + s)[1..] == s;
    assert s[..|word|] == word && s[|word|] == ' ';
    var i :| 0 <= i < |words| && words[i] == word;
    assert KeywordHere(At(' ', s), words[i]);
  }

  // ----- windows read back

  lemma SpanReads(at: At, ms: nat, tail: string, after: string)
    requires at.rest == "(" + (Duration(ms) + (")" + tail)) && ms < U64
    ensures ReadSpan(at, after).Good? && ReadSpan(at, after).value == ms && ReadSpan(at, after).at.rest == tail
  {
    hide ReadDuration, PastChar, CharAhead, Closed, Duration, SkipSpace;
    var inner := Duration(ms) + (")" + tail);
    NothingToSkip(at.rest);
    CharReads(at, '(', inner);
    var open := PastChar(at, '(');
    DurationStarts(ms, ")" + tail);
    DurationReads(open, ms, ")" + tail);
    CloseReads(ms, ReadDuration(open).at, after, tail);
  }

  lemma DurationStarts(ms: nat, tail: string)
    ensures SkipSpace(Duration(ms) + tail) == Duration(ms) + tail && Duration(ms) != [] && IsDigit(Duration(ms)[0])
  {
    assert (Duration(ms) + tail)[0] == NatText(ms)[0];
    NothingToSkip(Duration(ms) + tail);
  }

  lemma SlidingReads(at: At, size: nat, slide: nat, tail: string)
    requires size < U64 && slide < U64
    requires at.rest == "(" + (Duration(size) + (", " + (Duration(slide) + (")" + tail))))
    ensures ReadSliding(at).Good? && ReadSliding(at).value == Sliding(size, slide) && ReadSliding(at).at.rest == tail
  {
    hide ReadDuration, PastChar, CharAhead, Closed, Duration, SkipSpace;
    var others := Duration(slide) + (")" + tail);
    NothingToSkip(at.rest);
    CharReads(at, '(', Duration(size) + (", " + others));
    DurationStarts(size, ", " + others);
    DurationReads(PastChar(at, '('), size, ", " + others);
    var comma := ReadDuration(PastChar(at, '(')).at;
    DurationStarts(slide, ")" + tail);
    CommaReads(comma, others);
    DurationReads(PastChar(comma, ','), slide, ")" + tail);
    CloseReads(Sliding(size, slide), ReadDuration(PastChar(comma, ',')).at, "sliding", tail);
  }

  // ----- clauses read back

  /** What may follow a stage: nothing, or the pipe before the next stage. */
  predicate StageEnd(tail: string) {
    tail == [] || " | " <= tail
  }

  lemma PipeAhead(tail: string)
    requires StageEnd(tail)
    ensures AtBlank(tail) && (tail == [] ==> SkipSpace(tail) == [])
    ensures tail != [] ==> SkipSpace(tail) == tail[1..] && tail[1..][0] == '|'
  {
    NothingToSkip("");
    if tail != [] {
      assert tail == " " + tail[1..];
      OneBlank(tail[1..]);
    }
  }

  /** A keyword after a blank, with something after it that ends the word. */
  lemma BlankKeywordReads(at: At, word: string, rest: string)
    requires word != [] && IsAlpha(word[0]) && LowerAll(word) == word && (rest == [] || IsBoundary(rest[0]))
    requires SkipSpace(at.rest) == SkipSpace(" " + (word + rest))
    ensures KeywordAhead(at, word) && PastKeyword(at, word).rest == rest
  {
    hide SkipSpace;
    OneBlank(word + rest);
    KeywordReads(at, word, rest);
  }

  lemma OpenedText(lead: string, word: string, rest: string, whole: string)
    requires lead == " " + (word + "(") && rest != [] && rest[0] == '(' && whole == lead + rest[1..]
    ensures whole == " " + (word + rest)
  {
    assert rest == "(" + rest[1..];
  }

  lemma TumblingReads(at: At, ms: nat, tail: string)
    requires at.rest == " tumbling(" + (Duration(ms) + (")" + tail)) && ms < U64
    ensures ReadWindowBody(at).Good? && ReadWindowBody(at).value == Tumbling(ms) && ReadWindowBody(at).at.rest == tail
  {
    hide ReadSpan, ReadSliding, ReadDuration, PastKeyword, KeywordAhead, SkipSpace, Duration;
    var rest := "(" + (Duration(ms) + (")" + tail));
    Appended("(", Duration(ms) + (")" + tail));
    OpenedText(" tumbling(", "tumbling", rest, at.rest);
    BlankKeywordReads(at, "tumbling", rest);
    SpanReads(PastKeyword(at, "tumbling"), ms, tail, "tumbling");
  }

  lemma SlidingWindowReads(at: At, size: nat, slide: nat, tail: string)
    requires at.rest == " sliding(" + (Duration(size) + (", " + (Duration(slide) + (")" + tail)))) && size < U64
    requires slide < U64
    ensures ReadWindowBody(at).Good? && ReadWindowBody(at).value == Sliding(size, slide)
    ensures ReadWindowBody(at).at.rest == tail
  {
    hide ReadSpan, ReadSliding, ReadDuration, PastKeyword, KeywordAhead, SkipSpace, Duration;
    var rest := "(" + (Duration(size) + (", " + (Duration(slide) + (")" + tail))));
    Appended("(", Duration(size) + (", " + (Duration(slide) + (")" + tail))));
    OpenedText(" sliding(", "sliding", rest, at.rest);
    BlankKeywordReads(at, "sliding", rest);
    OneBlank("sliding" + rest);
    KeywordAbsent(at, "tumbling", 0);
    SlidingReads(PastKeyword(at, "sliding"), size, slide, tail);
  }

  lemma SessionReads(at: At, ms: nat, tail: string)
    requires at.rest == " session(" + (Duration(ms) + (")" + tail)) && ms < U64
    ensures ReadWindowBody(at).Good? && ReadWindowBody(at).value == Session(ms) && ReadWindowBody(at).at.rest == tail
  {
    hide ReadSpan, ReadSliding, ReadDuration, PastKeyword, KeywordAhead, SkipSpace, Duration;
    var rest := "(" + (Duration(ms) + (")" + tail));
    Appended("(", Duration(ms) + (")" + tail));
    OpenedText(" session(", "session", rest, at.rest);
    BlankKeywordReads(at, "session", rest);
    OneBlank("session" + rest);
    KeywordAbsent(at, "tumbling", 0);
    KeywordAbsent(at, "sliding", 1);
    SpanReads(PastKeyword(at, "session"), ms, tail, "session");
  }

  lemma OneDuration(lead: string, ms: string, tail: string)
    ensures lead + (ms + ")") + tail == lead + (ms + (")" + tail))
  {
  }

  lemma TwoDurations(lead: string, size: string, slide: string, tail: string)
    ensures lead + (size + (", " + (slide + ")"))) + tail == lead + (size + (", " + (slide + (")" + tail))))
  {
  }

  lemma WindowBodyReads(at: At, w: Window, tail: string)
    requires !w.NoWindow? && PrintableWindow(w) && at.rest == WindowBody(w) + tail
    ensures ReadWindowBody(at).Good? && ReadWindowBody(at).value == w && ReadWindowBody(at).at.rest == tail
  {
    hide ReadWindowBody, Duration;
    match w
    case Tumbling(size) =>
      OneDuration(" tumbling(", Duration(size), tail);
      TumblingReads(at, size, tail);
    case Sliding(size, slide) =>
      TwoDurations(" sliding(", Duration(size), Duration(slide), tail);
      SlidingWindowReads(at, size, slide, tail);
    case Session(timeout) =>
      OneDuration(" session(", Duration(timeout), tail);
      SessionReads(at, timeout, tail);
  }

  lemma WindowTextIs(w: Window, tail: string)
    requires !w.NoWindow?
    ensures WindowText(w) + tail == " " + ("window" + (WindowBody(w) + tail))
    ensures WindowBody(w) != [] && WindowBody(w)[0] == ' '
  {
    hide Duration;
    var body := WindowBody(w);
    ClauseText(" window", "window", body, tail);
  }

  lemma ClauseText(lead: string, word: string, body: string, tail: string)
    requires lead == " " + word
    ensures lead + body + tail == " " + (word + (body + tail))
  {
  }

  lemma SpacedClauseText(lead: string, word: string, body: string, tail: string)
    requires lead == " " + (word + " ")
    ensures lead + body + tail == " " + (word + (" " + (body + tail)))
  {
  }

  lemma WindowReads(at: At, w: Window, tail: string)
    requires PrintableWindow(w) && StageEnd(tail) && SkipSpace(at.rest) == SkipSpace(WindowText(w) + tail)
    ensures ReadWindow(at).Good? && ReadWindow(at).value == w && SkipSpace(ReadWindow(at).at.rest) == SkipSpace(tail)
  {
    hide ReadWindowBody, PastKeyword, KeywordAhead, SkipSpace, WindowBody;
    if w.NoWindow? {
      assert WindowText(w) + tail == tail;
      PipeAhead(tail);
      NothingToSkip(SkipSpace(at.rest));
      KeywordAbsent(at, "window", 0);
    } else {
      hide WindowText;
      WindowTextIs(w, tail);
      BlankKeywordReads(at, "window", WindowBody(w) + tail);
      WindowBodyReads(PastKeyword(at, "window"), w, tail);
    }
  }

  /** What follows an absent or finished WHERE clause does not look like one. */
  predicate NoWhere(s: string) {
    s == [] || s[0] == '|' || (|s| > 1 && s[1] == 'i')
  }

  lemma WhereFilterReads(at: At, n: FilterNode, words: seq<string>, tail: string)
    requires StopWords(words) && Unreserved(words) && PrintableFilter(n, words) && Halts(tail, words)
    requires SkipSpace(at.rest) == SkipSpace(" where " + FilterText(n) + tail)
    ensures ReadWhere(at, words).Good? && ReadWhere(at, words).value == Some(n)
    ensures SkipSpace(ReadWhere(at, words).at.rest) == SkipSpace(tail)
  {
    hide ReadFilter, PastKeyword, KeywordAhead, SkipSpace, FilterText, Printable, NoDotAfterInt, QuietFilter, Halts;
    hide StopWords, Unreserved;
    var text := FilterText(n) + tail;
    SpacedClauseText(" where ", "where", FilterText(n), tail);
    BlankKeywordReads(at, "where", " " + text);
    PrintableFilterStarts(n, words);
    OneBlank(text);
    FilterReads(PastKeyword(at, "where"), n, tail, words);
    TailSkipped(tail, words);
  }

  lemma PrintableFilterStarts(n: FilterNode, words: seq<string>)
    requires PrintableFilter(n, words)
    ensures FilterText(n) != [] && !IsSpace(FilterText(n)[0])
  {
    FilterStartsSolid(n);
  }

  lemma WhereAbsent(at: At, words: seq<string>)
    requires NoWhere(SkipSpace(at.rest))
    ensures ReadWhere(at, words) == Good(None, PastSpace(at)) && SkipSpace(PastSpace(at).rest) == SkipSpace(at.rest)
  {
    hide ReadFilter, SkipSpace, KeywordAhead, PastKeyword;
    NothingToSkip(SkipSpace(at.rest));
    KeywordAbsent(at, "where", if SkipSpace(at.rest) == [] || SkipSpace(at.rest)[0] == '|' then 0 else 1);
  }

  lemma WhereReads(at: At, filter: Option<FilterNode>, words: seq<string>, tail: string)
    requires StopWords(words) && Unreserved(words) && PrintableWhere(filter, words)
    requires Halts(tail, words) && NoWhere(SkipSpace(tail)) && SkipSpace(at.rest) == SkipSpace(WhereText(filter) + tail)
    ensures ReadWhere(at, words).Good? && ReadWhere(at, words).value == filter
    ensures SkipSpace(ReadWhere(at, words).at.rest) == SkipSpace(tail)
  {
    hide ReadWhere, SkipSpace, Halts, FilterText;
    if filter.None? {
      assert WhereText(filter) + tail == tail;
      WhereAbsent(at, words);
    } else {
      WhereFilterReads(at, filter.value, words, tail);
    }
  }

  lemma TailSkipped(tail: string, words: seq<string>)
    requires Halts(tail, words)
    ensures SkipSpace(if tail == [] then [] else tail[1..]) == SkipSpace(tail)
  {
    if tail != [] {
      assert tail == " " + tail[1..];
      SkipOneBlank(tail[1..]);
    }
  }

  lemma GroupByReads(at: At, groupBy: seq<string>, tail: string)
    requires PrintableNames(groupBy) && EndsList(tail) && (SkipSpace(tail) == [] || Lower(SkipSpace(tail)[0]) != 'b')
    requires SkipSpace(at.rest) == SkipSpace(ByText(groupBy) + tail)
    ensures ReadGroupBy(at).Good? && ReadGroupBy(at).value == groupBy
    ensures SkipSpace(ReadGroupBy(at).at.rest) == SkipSpace(tail)
  {
    hide ReadFields, PastKeyword, KeywordAhead, SkipSpace;
    NothingToSkip(SkipSpace(tail));
    if groupBy == [] {
      assert ByText(groupBy) + tail == tail;
      KeywordAbsent(at, "by", 0);
    } else {
      var text := FieldsText(groupBy) + tail;
      SpacedClauseText(" by ", "by", FieldsText(groupBy), tail);
      BlankKeywordReads(at, "by", " " + text);
      FieldsStart(groupBy);
      OneBlank(text);
      FieldsRead(PastKeyword(at, "by"), groupBy, tail, "by", "by");
    }
  }

  // ----- stages read back

  lemma PipeList()
    ensures StopWords(PipeWords()) && Unreserved(PipeWords())
  {
  }

  lemma FilterReadsOn(at: At, n: FilterNode, tail: string, words: seq<string>)
    requires StopWords(words) && Unreserved(words) && PrintableFilter(n, words) && Halts(tail, words)
    requires SkipSpace(at.rest) == FilterText(n) + tail
    ensures ReadFilter(at, words).Good? && ReadFilter(at, words).value == n
    ensures SkipSpace(ReadFilter(at, words).at.rest) == SkipSpace(tail)
  {
    hide ReadFilter, SkipSpace, FilterText, NoDotAfterInt, QuietFilter, Scan;
    FilterReads(at, n, tail, words);
    TailSkipped(tail, words);
  }

  lemma StopLists()
    ensures StopWords(LeftWords()) && Unreserved(LeftWords()) && StopWords(RightWords()) && Unreserved(RightWords())
    ensures StopWords(WhereWords()) && Unreserved(WhereWords()) && StopWords(PipeWords()) && Unreserved(PipeWords())
  {
  }

  /** A filter up to the keyword that follows it, and that keyword. */
  lemma FilterThenKeyword(at: At, n: FilterNode, word: string, rest: string, words: seq<string>)
    requires StopWords(words) && Unreserved(words) && PrintableFilter(n, words)
    requires word in words && word != [] && IsAlpha(word[0]) && LowerAll(word) == word
    requires at.rest == " " + (FilterText(n) + (" " + (word + (" " + rest))))
    ensures ReadFilter(at, words).Good? && ReadFilter(at, words).value == n
    ensures KeywordAhead(ReadFilter(at, words).at, word)
    ensures PastKeyword(ReadFilter(at, words).at, word).rest == " " + rest
  {
    hide ReadFilter, KeywordAhead, PastKeyword, SkipSpace, FilterText, Printable, NoDotAfterInt, QuietFilter, StopWords;
    hide Unreserved, Halts;
    var tail := " " + (word + (" " + rest));
    PrintableFilterStarts(n, words);
    OneBlank(FilterText(n) + tail);
    WordHalts(word, rest, words);
    FilterReads(at, n, tail, words);
    Appended(" ", word + (" " + rest));
    NothingToSkip(word + (" " + rest));
    KeywordReads(ReadFilter(at, words).at, word, " " + rest);
  }

  lemma WithinReads(at: At, ms: nat, tail: string)
    requires KeywordAhead(at, "within") && PastKeyword(at, "within").rest == " " + (Duration(ms) + tail) && 0 < ms < U64
    ensures ReadWithin(at).Good? && ReadWithin(at).value == ms && ReadWithin(at).at.rest == tail
  {
    hide KeywordAhead, PastKeyword, ReadDuration, SkipSpace, Duration;
    DurationStarts(ms, tail);
    OneBlank(Duration(ms) + tail);
    DurationReads(PastKeyword(at, "within"), ms, tail);
  }

  lemma CorrelateReads(at: At, left: FilterNode, right: FilterNode, ms: nat, tail: string)
    requires PrintableFilter(left, LeftWords()) && PrintableFilter(right, RightWords()) && 0 < ms < U64
    requires
      var window := " " + ("within" + (" " + (Duration(ms) + tail)));
      at.rest == " " + (FilterText(left) + (" " + ("with" + (" " + (FilterText(right) + window)))))
    ensures ReadCorrelate(at).Good? && ReadCorrelate(at).value == CorrelateQuery(Correlate(left, right, ms))
    ensures ReadCorrelate(at).at.rest == tail
  {
    hide ReadFilter, KeywordAhead, PastKeyword, FilterText, Printable, NoDotAfterInt, QuietFilter, StopWords;
    hide Unreserved, ReadWithin, Duration;
    StopLists();
    var end := Duration(ms) + tail;
    FilterThenKeyword(at, left, "with", FilterText(right) + (" " + ("within" + (" " + end))), LeftWords());
    var afterLeft := ReadFilter(at, LeftWords()).at;
    FilterThenKeyword(PastKeyword(afterLeft, "with"), right, "within", end, RightWords());
    WithinReads(ReadFilter(PastKeyword(afterLeft, "with"), RightWords()).at, ms, tail);
  }

  /** What the clauses of an aggregate look like to the ones before them. */
  lemma WindowClause(w: Window, tail: string)
    requires StageEnd(tail)
    ensures
      var t := WindowText(w) + tail;
      && Halts(t, WhereWords()) && AtBlank(t) && NoWhere(SkipSpace(t))
      && (SkipSpace(t) == [] || SkipSpace(t)[0] == '|' || SkipSpace(t)[0] == 'w')
  {
    hide WindowBody, SkipSpace, Scan;
    if w.NoWindow? {
      assert WindowText(w) + tail == tail;
      PipeAhead(tail);
      PipeHalts(tail, WhereWords());
    } else {
      WindowTextIs(w, tail);
      var body := WindowBody(w) + tail;
      assert body == " " + body[1..];
      WordHalts("window", body[1..], WhereWords());
      OneBlank("window" + body);
    }
  }

  lemma WhereClause(filter: Option<FilterNode>, rest: string)
    requires filter.Some? ==> Printable(filter.value)
    requires AtBlank(rest) && (SkipSpace(rest) == [] || SkipSpace(rest)[0] == '|' || SkipSpace(rest)[0] == 'w')
    ensures
      var t := WhereText(filter) + rest;
      AtBlank(t) && (SkipSpace(t) == [] || SkipSpace(t)[0] == '|' || SkipSpace(t)[0] == 'w')
  {
    hide SkipSpace, FilterText, Printable;
    if filter.None? {
      assert WhereText(filter) + rest == rest;
    } else {
      SpacedClauseText(" where ", "where", FilterText(filter.value), rest);
      OneBlank("where" + (" " + (FilterText(filter.value) + rest)));
    }
  }

  lemma ByClause(groupBy: seq<string>, rest: string)
    requires AtBlank(rest) && (SkipSpace(rest) == [] || SkipSpace(rest)[0] == '|' || SkipSpace(rest)[0] == 'w')
    ensures EndsList(ByText(groupBy) + rest) && EndsList(rest)
  {
    hide SkipSpace, FieldsText;
    if groupBy == [] {
      assert ByText(groupBy) + rest == rest;
    } else {
      SpacedClauseText(" by ", "by", FieldsText(groupBy), rest);
      OneBlank("by" + (" " + (FieldsText(groupBy) + rest)));
    }
  }

  lemma AggregateReads(at: At, a: Aggregate, tail: string)
    requires PrintableSingle(AggregateQuery(a)) && StageEnd(tail)
    requires at.rest
        == " " + (FunctionsText(a.funcs) + (ByText(a.groupBy) + (WhereText(a.filter) + (WindowText(a.window) + tail))))
    ensures ReadAggregate(at).Good? && ReadAggregate(at).value == AggregateQuery(a)
    ensures SkipSpace(ReadAggregate(at).at.rest) == SkipSpace(tail)
  {
    hide ReadFunctionList, ReadGroupBy, ReadWhere, ReadWindow, SkipSpace, FunctionsText, ByText, WhereText, WindowText;
    hide EndsList, Halts, NoWhere, StopWords, Unreserved, Printable, NoDotAfterInt, QuietFilter;
    StopLists();
    var t3 := WindowText(a.window) + tail;
    var t2 := WhereText(a.filter) + t3;
    var t1 := ByText(a.groupBy) + t2;
    WindowClause(a.window, tail);
    WhereClause(a.filter, t3);
    ByClause(a.groupBy, t2);
    FunctionsStart(a.funcs);
    OneBlank(FunctionsText(a.funcs) + t1);
    FunctionListReads(at, a.funcs, t1);
    SkipTwice(t1);
    var afterList := ReadFunctionList(at).at;
    GroupByReads(afterList, a.groupBy, t2);
    var afterBy := ReadGroupBy(afterList).at;
    WhereReads(afterBy, a.filter, WhereWords(), t3);
    WindowReads(ReadWhere(afterBy, WhereWords()).at, a.window, tail);
  }

  lemma SkipTwice(s: string)
    ensures SkipSpace(SkipSpace(s)) == SkipSpace(s)
  {
    hide SkipSpace;
    NothingToSkip(SkipSpace(s));
  }

  lemma ShowClause(filter: Option<FilterNode>, tail: string)
    requires filter.Some? ==> Printable(filter.value)
    requires StageEnd(tail)
    ensures Halts(tail, PipeWords()) && NoWhere(SkipSpace(tail)) && EndsList(WhereText(filter) + tail)
  {
    hide SkipSpace, FilterText, Printable, Scan, FieldsText;
    PipeAhead(tail);
    PipeHalts(tail, PipeWords());
    WhereClause(filter, tail);
    ByClause([], WhereText(filter) + tail);
  }

  lemma FieldListReads(at: At, selectAll: bool, fields: seq<string>, tail: string)
    requires (selectAll <==> fields == []) && PrintableNames(fields) && EndsList(tail)
    requires SkipSpace(at.rest) == (if selectAll then "*" else FieldsText(fields)) + tail
    ensures ReadShowFields(at).Good? && ReadShowFields(at).value == fields && CharAhead(at, '*') == selectAll
    ensures SkipSpace(ReadShowFields(at).at.rest) == SkipSpace(tail)
  {
    hide ReadFields, FieldsText, PastChar, SkipSpace;
    if selectAll {
      CharReads(at, '*', tail);
    } else {
      FieldsStart(fields);
      FieldsRead(at, fields, tail, "show", "show list");
      SkipTwice(tail);
    }
  }

  lemma ShowReads(at: At, selectAll: bool, fields: seq<string>, filter: Option<FilterNode>, tail: string)
    requires PrintableSingle(ShowQuery(selectAll, fields, filter)) && StageEnd(tail)
    requires at.rest == " " + ((if selectAll then "*" else FieldsText(fields)) + (WhereText(filter) + tail))
    ensures ReadShow(at).Good? && ReadShow(at).value == ShowQuery(selectAll, fields, filter)
    ensures SkipSpace(ReadShow(at).at.rest) == SkipSpace(tail)
  {
    hide ReadShowFields, ReadWhere, SkipSpace, FieldsText, WhereText, CharAhead;
    hide EndsList, Halts, NoWhere, StopWords, Unreserved, Printable, NoDotAfterInt, QuietFilter;
    StopLists();
    ShowClause(filter, tail);
    var list := if selectAll then "*" else FieldsText(fields);
    if !selectAll {
      FieldsStart(fields);
    }
    OneBlank(list + (WhereText(filter) + tail));
    FieldListReads(at, selectAll, fields, WhereText(filter) + tail);
    WhereReads(ReadShowFields(at).at, filter, PipeWords(), tail);
  }

  lemma LeadToken(n: FilterNode)
    requires IsAtom(n)
    ensures IsToken(LeadWord(n)) && IsFieldChar(LeadWord(n)[0])
  {
    if n.Leaf? {
      FieldIsToken(n.field);
    }
  }

  lemma AtomLead(n: FilterNode) returns (rest: string)
    requires IsAtom(n)
    ensures AtomText(n) == LeadWord(n) + (" " + rest)
  {
    match n
    case Leaf(field, op, value) =>
      rest := OpText(op) + (" " + ValueText(value));
    case Not(operand) =>
      rest := AtomText(operand);
      NegatedText(rest, "");
      assert rest + "" == rest && "NOT " + rest + "" == "NOT " + rest;
  }

  lemma Longer(lead: string, more: string, link: string)
    ensures lead + (" " + more) + link == lead + (" " + (more + link))
  {
  }

  lemma {:induction false} LeadText(n: FilterNode) returns (rest: string)
    requires Printable(n)
    ensures FilterText(n) == LeadWord(n) + (" " + rest) && IsToken(LeadWord(n)) && IsFieldChar(LeadWord(n)[0])
    decreases n
  {
    hide IsToken, AtomText, IsAtom;
    if n.And? || n.Or? {
      var more := LeadText(n.left);
      var link := (if n.And? then " AND " else " OR ") + AtomText(n.right);
      rest := more + link;
      Longer(LeadWord(n.left), more, link);
    } else {
      LeadToken(n);
      rest := AtomLead(n);
    }
  }

  /** A filter that does not begin with a query keyword is not mistaken for such a query. */
  lemma FilterIsNoQuery(at: At, n: FilterNode, tail: string)
    requires Printable(n) && LowerAll(LeadWord(n)) !in ["correlate", "aggregate", "show"]
    requires SkipSpace(at.rest) == FilterText(n) + tail
    ensures !KeywordAhead(at, "correlate") && !KeywordAhead(at, "aggregate") && !KeywordAhead(at, "show")
    ensures !CharAhead(at, '*')
  {
    hide SkipSpace, FilterText;
    var rest := LeadText(n);
    var lead, others := LeadWord(n), " " + (rest + tail);
    assert FilterText(n) + tail == lead + others;
    NoWordHere(lead, others, "correlate");
    NoWordHere(lead, others, "aggregate");
    NoWordHere(lead, others, "show");
  }

  lemma FilterQueryReads(at: At, n: FilterNode, tail: string)
    requires PrintableFilter(n, PipeWords()) && StageEnd(tail) && SkipSpace(at.rest) == FilterText(n) + tail
    ensures ReadFilterQuery(at).Good? && ReadFilterQuery(at).value == FilterQuery(n)
    ensures SkipSpace(ReadFilterQuery(at).at.rest) == SkipSpace(tail)
  {
    hide ReadFilter, SkipSpace, FilterText, NoDotAfterInt, QuietFilter, StopWords, Unreserved, Halts, PipeWords;
    PipeList();
    PipeHalts(tail, PipeWords());
    FilterReadsOn(at, n, tail, PipeWords());
  }

  // ----- each kind of stage, as its text is laid out

  lemma CorrelateText(left: string, right: string, ms: string, tail: string)
    ensures "correlate " + (left + (" with " + (right + (" within " + ms)))) + tail
         == "correlate" + (" " + (left + (" " + ("with" + (" " + (right + (" " + ("within" + (" " + (ms + tail))))))))))
  {
    var inner := right + (" within " + ms);
    assert " within " + ms + tail == " " + ("within" + (" " + (ms + tail)));
    assert inner + tail == right + (" within " + ms + tail);
    assert " with " + inner + tail == " " + ("with" + (" " + (inner + tail)));
    assert left + (" with " + inner) + tail == left + (" with " + inner + tail);
    assert "correlate " + (left + (" with " + inner)) + tail
        == "correlate" + (" " + (left + (" with " + inner) + tail));
  }

  lemma AggregateText(funcs: string, groups: string, filter: string, window: string, tail: string)
    ensures "aggregate " + (funcs + (groups + (filter + window))) + tail
         == "aggregate" + (" " + (funcs + (groups + (filter + (window + tail)))))
  {
    assert filter + window + tail == filter + (window + tail);
    assert groups + (filter + window) + tail == groups + (filter + window + tail);
    assert funcs + (groups + (filter + window)) + tail == funcs + (groups + (filter + window) + tail);
  }

  lemma ShowText(list: string, filter: string, tail: string)
    ensures "show " + (list + filter) + tail == "show" + (" " + (list + (filter + tail)))
  {
    assert list + filter + tail == list + (filter + tail);
  }

  lemma SingleCorrelateReads(at: At, left: FilterNode, right: FilterNode, ms: nat, tail: string)
    requires PrintableSingle(CorrelateQuery(Correlate(left, right, ms)))
    requires SkipSpace(at.rest) == SingleText(CorrelateQuery(Correlate(left, right, ms))) + tail
    ensures ReadSingle(at).Good? && ReadSingle(at).value == CorrelateQuery(Correlate(left, right, ms))
    ensures ReadSingle(at).at.rest == tail
  {
    hide ReadCorrelate, ReadAggregate, ReadShow, ReadFilterQuery, SkipSpace, KeywordAhead, PastKeyword, CharAhead;
    hide FilterText, Printable, NoDotAfterInt, QuietFilter, Duration;
    var end := Duration(ms) + tail;
    var rest := " "
        + (FilterText(left) + (" " + ("with" + (" " + (FilterText(right) + (" " + ("within" + (" " + end))))))));
    CorrelateText(FilterText(left), FilterText(right), Duration(ms), tail);
    KeywordReads(at, "correlate", rest);
    CorrelateReads(PastKeyword(at, "correlate"), left, right, ms, tail);
  }

  lemma SingleAggregateReads(at: At, a: Aggregate, tail: string)
    requires PrintableSingle(AggregateQuery(a)) && StageEnd(tail)
    requires SkipSpace(at.rest) == SingleText(AggregateQuery(a)) + tail
    ensures ReadSingle(at).Good? && ReadSingle(at).value == AggregateQuery(a)
    ensures SkipSpace(ReadSingle(at).at.rest) == SkipSpace(tail)
  {
    hide ReadCorrelate, ReadAggregate, ReadShow, ReadFilterQuery, SkipSpace, KeywordAhead, PastKeyword, CharAhead;
    hide StageEnd;
    hide FunctionsText, ByText, WhereText, WindowText, Printable, NoDotAfterInt, QuietFilter;
    var rest := " "
        + (FunctionsText(a.funcs) + (ByText(a.groupBy) + (WhereText(a.filter) + (WindowText(a.window) + tail))));
    AggregateText(FunctionsText(a.funcs), ByText(a.groupBy), WhereText(a.filter), WindowText(a.window), tail);
    KeywordReads(at, "aggregate", rest);
    KeywordAbsent(at, "correlate", 0);
    AggregateReads(PastKeyword(at, "aggregate"), a, tail);
  }

  lemma SingleShowReads(at: At, selectAll: bool, fields: seq<string>, filter: Option<FilterNode>, tail: string)
    requires PrintableSingle(ShowQuery(selectAll, fields, filter)) && StageEnd(tail)
    requires SkipSpace(at.rest) == SingleText(ShowQuery(selectAll, fields, filter)) + tail
    ensures ReadSingle(at).Good? && ReadSingle(at).value == ShowQuery(selectAll, fields, filter)
    ensures SkipSpace(ReadSingle(at).at.rest) == SkipSpace(tail)
  {
    hide ReadCorrelate, ReadAggregate, ReadShow, ReadFilterQuery, SkipSpace, KeywordAhead, PastKeyword, CharAhead;
    hide StageEnd;
    hide FieldsText, WhereText, Printable, NoDotAfterInt, QuietFilter;
    var list := if selectAll then "*" else FieldsText(fields);
    ShowText(list, WhereText(filter), tail);
    KeywordReads(at, "show", " " + (list + (WhereText(filter) + tail)));
    KeywordAbsent(at, "correlate", 0);
    KeywordAbsent(at, "aggregate", 0);
    ShowReads(PastKeyword(at, "show"), selectAll, fields, filter, tail);
  }

  lemma SingleFilterReads(at: At, n: FilterNode, tail: string)
    requires PrintableSingle(FilterQuery(n)) && StageEnd(tail)
    requires SkipSpace(at.rest) == SingleText(FilterQuery(n)) + tail
    ensures ReadSingle(at).Good? && ReadSingle(at).value == FilterQuery(n)
    ensures SkipSpace(ReadSingle(at).at.rest) == SkipSpace(tail)
  {
    hide ReadFilterQuery, SkipSpace, KeywordAhead, CharAhead, FilterText, NoDotAfterInt, QuietFilter, LeadWord;
    hide StageEnd;
    FilterIsNoQuery(at, n, tail);
    FilterQueryReads(at, n, tail);
  }

  /** Every printable stage reads back, up to the pipe or the end. */
  lemma SingleReads(at: At, q: Query, tail: string)
    requires PrintableSingle(q) && StageEnd(tail) && SkipSpace(at.rest) == SingleText(q) + tail
    ensures ReadSingle(at).Good? && ReadSingle(at).value == q && SkipSpace(ReadSingle(at).at.rest) == SkipSpace(tail)
  {
    hide ReadSingle, SkipSpace, StageEnd, SingleText;
    match q
    case FilterQuery(filter) => SingleFilterReads(at, filter, tail);
    case CorrelateQuery(Correlate(left, right, ms)) => SingleCorrelateReads(at, left, right, ms, tail);
    case AggregateQuery(a) => SingleAggregateReads(at, a, tail);
    case ShowQuery(selectAll, fields, where) => SingleShowReads(at, selectAll, fields, where, tail);
  }

  // ----- pipelines and whole queries

  lemma {:induction false} StagesRead(at: At, stages: seq<Query>)
    requires stages != [] && PrintableStages(stages) && SkipSpace(at.rest) == StagesText(stages)
    ensures ReadStages(at).Good? && ReadStages(at).value == stages && SkipSpace(ReadStages(at).at.rest) == []
    decreases |stages|
  {
    hide ReadSingle, SingleText, PrintableSingle, SkipSpace, PastChar;
    var q := stages[0];
    NothingToSkip("");
    if |stages| == 1 {
      assert SingleText(q) + "" == SingleText(q);
      SingleReads(at, q, "");
      SkipTwice(ReadSingle(at).at.rest);
      assert stages == [q];
    } else {
      hide ReadStages, CharAhead;
      var others := stages[1..];
      FirstStage(stages);
      var rest := " | " + StagesText(others);
      assert rest == " " + ("|" + (" " + StagesText(others)));
      SingleReads(at, q, rest);
      OneBlank("|" + (" " + StagesText(others)));
      CharReads(ReadSingle(at).at, '|', " " + StagesText(others));
      StagesStart(others);
      OneBlank(StagesText(others));
      StagesRead(PastChar(ReadSingle(at).at, '|'), others);
      StagesStep(at);
    }
  }

  lemma FirstStage(stages: seq<Query>)
    requires |stages| > 1 && PrintableStages(stages)
    ensures PrintableSingle(stages[0]) && PrintableStages(stages[1..]) && [stages[0]] + stages[1..] == stages
    ensures StagesText(stages) == SingleText(stages[0]) + (" | " + StagesText(stages[1..]))
  {
    hide PrintableSingle, SingleText;
  }

  lemma StagesStep(at: At)
    requires ReadSingle(at).Good? && CharAhead(ReadSingle(at).at, '|')
    ensures
      var q := ReadSingle(at);
      var others := ReadStages(PastChar(q.at, '|'));
      ReadStages(at) == if others.Bad? then others else Good([q.value] + others.value, others.at)
  {
    hide ReadSingle, CharAhead, PastChar;
  }

  lemma SingleStarts(q: Query)
    requires PrintableSingle(q)
    ensures SingleText(q) != [] && !IsSpace(SingleText(q)[0])
  {
    hide FilterText, FunctionsText, FieldsText, ByText, WhereText, WindowText, Duration, NoDotAfterInt, QuietFilter;
    if q.FilterQuery? {
      FilterStartsSolid(q.filter);
    }
  }

  lemma StagesStart(stages: seq<Query>)
    requires stages != [] && PrintableStages(stages)
    ensures StagesText(stages) != [] && !IsSpace(StagesText(stages)[0])
  {
    hide SingleText, PrintableSingle;
    SingleStarts(stages[0]);
  }

  lemma StagesOf(q: Query) returns (stages: seq<Query>)
    requires PrintableQuery(q)
    ensures stages != [] && PrintableStages(stages) && StagesText(stages) == QueryText(q)
    ensures q == if |stages| == 1 then stages[0] else PipelineQuery(stages)
  {
    hide SingleText, PrintableSingle;
    stages := if q.PipelineQuery? then q.stages else [q];
  }

  /** Parsing the written form of any query of the printable fragment gives back that query, with all
      of the text used up and no error. */
  lemma QueryRoundTrip(q: Query)
    requires PrintableQuery(q)
    ensures ParseQuery(QueryText(q)) == Accepted(q)
  {
    hide ReadStages, SkipSpace, PrintableStages, StagesText, PrintableQuery, QueryText, PastSpace;
    var stages := StagesOf(q);
    StagesStart(stages);
    NothingToSkip(QueryText(q));
    var start := PastSpace(At('\0', QueryText(q)));
    SkipTwice(start.rest);
    StagesRead(start, stages);
  }

  // ----- other spellings of the same query

  /** A window given by a bare duration is a tumbling one. */
  lemma BareWindowIsTumbling(at: At, ms: nat, tail: string)
    requires at.rest == " " + (Duration(ms) + tail) && ms < U64
    ensures ReadWindowBody(at).Good? && ReadWindowBody(at).value == Tumbling(ms) && ReadWindowBody(at).at.rest == tail
  {
    hide ReadSpan, ReadSliding, ReadDuration, KeywordAhead, SkipSpace, Duration;
    DurationStarts(ms, tail);
    OneBlank(Duration(ms) + tail);
    KeywordAbsent(at, "tumbling", 0);
    KeywordAbsent(at, "sliding", 0);
    KeywordAbsent(at, "session", 0);
    DurationReads(at, ms, tail);
  }

  /** The list of functions may stand in parentheses. */
  lemma WrappedListReads(at: At, funcs: seq<AggFunc>, tail: string)
    requires funcs != [] && PrintableFunctions(funcs) && at.rest == "(" + (FunctionsText(funcs) + (")" + tail))
    ensures ReadFunctionList(at).Good? && ReadFunctionList(at).value == funcs && ReadFunctionList(at).at.rest == tail
  {
    hide ReadFunctions, FunctionsText, SkipSpace, PastChar, CharAhead, Closed, PrintableFunctions;
    var inner := FunctionsText(funcs) + (")" + tail);
    NothingToSkip(at.rest);
    CharReads(at, '(', inner);
    FunctionsStart(funcs);
    NothingToSkip(inner);
    NothingToSkip(")" + tail);
    FunctionsRead(PastChar(at, '('), funcs, ")" + tail);
    CloseReads(funcs, ReadFunctions(PastChar(at, '(')).at, "functions", tail);
  }

  /** A star alone is a show query of every field. */
  lemma StarIsShow(at: At, filter: Option<FilterNode>, tail: string)
    requires PrintableWhere(filter, PipeWords()) && StageEnd(tail)
    requires SkipSpace(at.rest) == "*" + (WhereText(filter) + tail)
    ensures ReadSingle(at).Good? && ReadSingle(at).value == ShowQuery(true, [], filter)
    ensures SkipSpace(ReadSingle(at).at.rest) == SkipSpace(tail)
  {
    hide ReadCorrelate, ReadAggregate, ReadFilterQuery, ReadShowFields, ReadWhere, SkipSpace, KeywordAhead, CharAhead;
    hide WhereText;
    hide PipeWords, EndsList, Halts, NoWhere, StopWords, Unreserved, Printable, NoDotAfterInt, QuietFilter;
    PipeList();
    ShowClause(filter, tail);
    KeywordAbsent(at, "correlate", 0);
    KeywordAbsent(at, "aggregate", 0);
    KeywordAbsent(at, "show", 0);
    FieldListReads(at, true, [], WhereText(filter) + tail);
    WhereReads(ReadShowFields(at).at, filter, PipeWords(), tail);
  }
}
