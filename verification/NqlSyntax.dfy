/** The nQL grammar as the parser reads it: functions from the place a rule starts at to the tree it
    builds and the place it stops at, or to the first error. */
module NqlSyntax {
  import opened Values
  import opened Text
  import opened Numerals
  import opened Cursors
  import opened FilterSyntax
  import opened Aggregation
  import opened NqlAst

  const DEFAULT_WITHIN_MS: nat := 100
  const NAME_LIMIT: nat := 32

  datatype ParseError =
    | EmptyQuery | TrailingInput
    | ExpectedFilter | InvalidFilter
    | ExpectedDuration | ExpectedUnit
    | ExpectedFunction | NameTooLong | UnknownFunction(name: string)
    | ExpectedOpen(after: string) | ExpectedComma(after: string) | ExpectedClose(after: string)
    | ExpectedField(after: string) | ExpectedPercentile
    | ExpectedWith

  datatype Read<+T> = Bad(error: ParseError) | Good(value: T, at: At)

  // ----- words and characters

  predicate CharAhead(at: At, c: char) {
    var s := SkipSpace(at.rest);
    s != [] && s[0] == c
  }

  /** consume_char: blanks are skipped whether or not the character follows. */
  function PastChar(at: At, c: char): (r: At)
    ensures |r.rest| <= |at.rest| && (CharAhead(at, c) ==> |r.rest| < |at.rest|)
  {
    if CharAhead(at, c) then Past(PastSpace(at), 1) else PastSpace(at)
  }

  predicate IsBoundary(c: char) {
    IsSpace(c) || c == '(' || c == ')' || c == ','
  }

  /** `s` starts with the word, in any case, and the word ends there. */
  predicate WordAt(s: string, word: string) {
    && |word| <= |s| && LowerAll(s[..|word|]) == word
    && (|word| < |s| ==> IsBoundary(s[|word|]))
  }

  predicate KeywordAhead(at: At, word: string) {
    WordAt(SkipSpace(at.rest), word)
  }

  /** match_keyword */
  function PastKeyword(at: At, word: string): (r: At)
    ensures |r.rest| <= |at.rest|
  {
    if KeywordAhead(at, word) then Past(PastSpace(at), |word|) else PastSpace(at)
  }

  /** keyword_at_position: inside a text the word must also begin there. */
  predicate KeywordHere(at: At, word: string) {
    WordAt(at.rest, word) && (at.prev == '\0' || IsSpace(at.prev) || at.prev == '(' || at.prev == ',')
  }

  predicate AnyKeywordHere(at: At, words: seq<string>) {
    exists i :: 0 <= i < |words| && KeywordHere(at, words[i])
  }

  // ----- the scanner that cuts a filter out of a query

  datatype Quote = Plain | Single | Double

  function QuoteChar(q: Quote): char
    requires !q.Plain?
  {
    if q.Single? then '\'' else '"'
  }

  /** How far the scanner goes: to the first pipe or stop word outside quotes and parentheses. */
  function Scan(at: At, words: seq<string>, quote: Quote, depth: nat): (n: nat)
    ensures n <= |at.rest|
    decreases |at.rest|
  {
    if at.rest == [] then 0
    else
      var c := at.rest[0];
      if !quote.Plain? then
        if c == '\\' && |at.rest| > 1 then 2 + Scan(Past(at, 2), words, quote, depth)
        else 1 + Scan(Past(at, 1), words, if c == QuoteChar(quote) then Plain else quote, depth)
      else if c == '\'' then 1 + Scan(Past(at, 1), words, Single, depth)
      else if c == '"' then 1 + Scan(Past(at, 1), words, Double, depth)
      else if c == '(' then 1 + Scan(Past(at, 1), words, Plain, depth + 1)
      else if c == ')' then 1 + Scan(Past(at, 1), words, Plain, if depth > 0 then depth - 1 else 0)
      else if depth == 0 && (c == '|' || AnyKeywordHere(at, words)) then 0
      else 1 + Scan(Past(at, 1), words, Plain, depth)
  }

  function TrimEnd(s: string): (r: string)
    ensures r <= s && (r != [] ==> !IsSpace(r[|r| - 1]))
    ensures forall i :: |r| <= i < |s| ==> IsSpace(s[i])
  {
    if s != [] && IsSpace(s[|s| - 1]) then TrimEnd(s[..|s| - 1]) else s
  }

  lemma {:induction false} TrimIs(s: string, r: string)
    requires r <= s && (r != [] ==> !IsSpace(r[|r| - 1])) && forall i :: |r| <= i < |s| ==> IsSpace(s[i])
    ensures TrimEnd(s) == r
    decreases |s|
  {
    if |r| == |s| {
      assert r == s;
    } else {
      assert r <= s[..|s| - 1];
      TrimIs(s[..|s| - 1], r);
    }
  }

  /** parse_filter_expr */
  function ReadFilter(start: At, words: seq<string>): (r: Read<FilterNode>)
    ensures r.Good? ==> |r.at.rest| < |start.rest|
  {
    var at := PastSpace(start);
    var n := Scan(at, words, Plain, 0);
    var text := TrimEnd(at.rest[..n]);
    if text == [] then Bad(ExpectedFilter)
    else
      var filter := ParseFilter(text);
      if filter.None? then Bad(InvalidFilter) else Good(filter.value, Past(at, n))
  }

  // ----- durations and identifiers

  datatype Unit = NoUnit | Unit(ms: nat, length: nat)

  function UnitOf(s: string): (u: Unit)
    ensures u.Unit? ==> 0 < u.length <= |s|
  {
    if "ms" <= s then Unit(1, 2)
    else if "s" <= s then Unit(1000, 1)
    else if "m" <= s then Unit(60 * 1000, 1)
    else if "h" <= s then Unit(60 * 60 * 1000, 1)
    else NoUnit
  }

  function MulU64(a: nat, b: nat): nat {
    a * b % U64
  }

  /** parse_duration, in milliseconds modulo 2^64 */
  function ReadDuration(start: At): (r: Read<nat>)
    ensures r.Good? ==> |r.at.rest| < |start.rest|
  {
    var at := PastSpace(start);
    var number := ReadUnsigned(at.rest);
    if number.length == 0 then Bad(ExpectedDuration)
    else
      var after := PastSpace(Past(at, number.length));
      var unit := UnitOf(after.rest);
      if unit.NoUnit? then Bad(ExpectedUnit) else Good(MulU64(number.value, unit.ms), Past(after, unit.length))
  }

  /** parse_identifier */
  function ReadIdentifier(start: At, after: string): (r: Read<string>)
    ensures r.Good? ==> |r.at.rest| < |start.rest|
  {
    var at := PastSpace(start);
    if at.rest == [] || !(IsAlpha(at.rest[0]) || at.rest[0] == '_') then Bad(ExpectedField(after))
    else
      var n := Span(at.rest, IsFieldChar);
      Good(at.rest[..n], Past(at, n))
  }

  /** Identifiers separated by commas; a missing one is reported as `first` or, after a comma, as `later`. */
  function ReadFields(start: At, first: string, later: string): (r: Read<seq<string>>)
    ensures r.Good? ==> |r.at.rest| < |start.rest|
    decreases |start.rest|
  {
    var field := ReadIdentifier(start, first);
    if field.Bad? then Bad(field.error)
    else if !CharAhead(field.at, ',') then Good([field.value], PastSpace(field.at))
    else
      var others := ReadFields(PastChar(field.at, ','), later, later);
      if others.Bad? then others else Good([field.value] + others.value, others.at)
  }

  // ----- aggregation

  function KindOf(name: string): Option<AggKind> {
    if name == "sum" then Some(Sum)
    else if name == "avg" then Some(Avg)
    else if name == "min" then Some(Min)
    else if name == "max" then Some(Max)
    else if name == "distinct" then Some(AggKind.Distinct)
    else None
  }

  function Closed<T>(value: T, at: At, after: string): (r: Read<T>)
    ensures r.Good? ==> |r.at.rest| < |at.rest|
  {
    if CharAhead(at, ')') then Good(value, PastChar(at, ')')) else Bad(ExpectedClose(after))
  }

  function ReadPercentile(start: At): (r: Read<AggFunc>)
    ensures r.Good? ==> |r.at.rest| < |start.rest|
  {
    var field := ReadIdentifier(start, "percentile");
    if field.Bad? then Bad(field.error)
    else if !CharAhead(field.at, ',') then Bad(ExpectedComma("percentile"))
    else
      var at := PastSpace(PastChar(field.at, ','));
      var p := ReadDecimal(at.rest);
      if p.length == 0 then Bad(ExpectedPercentile)
      else Closed(AggFunc(Percentile, Some(field.value), p.value), Past(at, p.length), "percentile")
  }

  /** What follows the opening parenthesis of an aggregation function. */
  function ReadArguments(name: string, at: At): (r: Read<AggFunc>)
    ensures r.Good? ==> |r.at.rest| < |at.rest|
  {
    if name == "count" then Closed(AggFunc(Count, None, 0.0), at, "count")
    else if name == "percentile" then ReadPercentile(at)
    else
      var kind := KindOf(name);
      if kind.None? then Bad(UnknownFunction(name))
      else
        var field := ReadIdentifier(at, "aggregation");
        if field.Bad? then Bad(field.error)
        else Closed(AggFunc(kind.value, Some(field.value), 0.0), field.at, "aggregation")
  }

  /** parse_agg_function */
  function ReadFunction(start: At): (r: Read<AggFunc>)
    ensures r.Good? ==> |r.at.rest| < |start.rest|
  {
    var at := PastSpace(start);
    var n := Span(at.rest, IsAlpha);
    if n == 0 then Bad(ExpectedFunction)
    else if n >= NAME_LIMIT then Bad(NameTooLong)
    else if !CharAhead(Past(at, n), '(') then Bad(ExpectedOpen("aggregation"))
    else ReadArguments(LowerAll(at.rest[..n]), PastChar(Past(at, n), '('))
  }

  function ReadFunctions(start: At): (r: Read<seq<AggFunc>>)
    ensures r.Good? ==> |r.at.rest| < |start.rest|
    decreases |start.rest|
  {
    var first := ReadFunction(start);
    if first.Bad? then Bad(first.error)
    else if !CharAhead(first.at, ',') then Good([first.value], PastSpace(first.at))
    else
      var others := ReadFunctions(PastChar(first.at, ','));
      if others.Bad? then others else Good([first.value] + others.value, others.at)
  }

  /** The function list may stand in parentheses as a whole. */
  function ReadFunctionList(start: At): (r: Read<seq<AggFunc>>)
    ensures r.Good? ==> |r.at.rest| < |start.rest|
  {
    var list := ReadFunctions(PastChar(start, '('));
    if list.Bad? || !CharAhead(start, '(') then list else Closed(list.value, list.at, "functions")
  }

  function ReadGroupBy(start: At): (r: Read<seq<string>>)
    ensures r.Good? ==> |r.at.rest| <= |start.rest|
  {
    if KeywordAhead(start, "by") then ReadFields(PastKeyword(start, "by"), "by", "by") else Good([], PastSpace(start))
  }

  function ReadWhere(start: At, words: seq<string>): (r: Read<Option<FilterNode>>)
    ensures r.Good? ==> |r.at.rest| <= |start.rest|
  {
    if !KeywordAhead(start, "where") then Good(None, PastSpace(start))
    else
      var filter := ReadFilter(PastKeyword(start, "where"), words);
      if filter.Bad? then Bad(filter.error) else Good(Some(filter.value), filter.at)
  }

  /** One duration in parentheses. */
  function ReadSpan(start: At, after: string): (r: Read<nat>)
    ensures r.Good? ==> |r.at.rest| <= |start.rest|
  {
    if !CharAhead(start, '(') then Bad(ExpectedOpen(after))
    else
      var size := ReadDuration(PastChar(start, '('));
      if size.Bad? then size else Closed(size.value, size.at, after)
  }

  function ReadSliding(start: At): (r: Read<Window>)
    ensures r.Good? ==> |r.at.rest| <= |start.rest|
  {
    if !CharAhead(start, '(') then Bad(ExpectedOpen("sliding"))
    else
      var size := ReadDuration(PastChar(start, '('));
      if size.Bad? then Bad(size.error)
      else if !CharAhead(size.at, ',') then Bad(ExpectedComma("sliding"))
      else
        var slide := ReadDuration(PastChar(size.at, ','));
        if slide.Bad? then Bad(slide.error) else Closed(Sliding(size.value, slide.value), slide.at, "sliding")
  }

  /** What follows the word `window`; a bare duration is a tumbling window. */
  function ReadWindowBody(start: At): (r: Read<Window>)
    ensures r.Good? ==> |r.at.rest| <= |start.rest|
  {
    if KeywordAhead(start, "tumbling") then
      var size := ReadSpan(PastKeyword(start, "tumbling"), "tumbling");
      if size.Bad? then Bad(size.error) else Good(Tumbling(size.value), size.at)
    else if KeywordAhead(start, "sliding") then ReadSliding(PastKeyword(start, "sliding"))
    else if KeywordAhead(start, "session") then
      var timeout := ReadSpan(PastKeyword(start, "session"), "session");
      if timeout.Bad? then Bad(timeout.error) else Good(Session(timeout.value), timeout.at)
    else
      var size := ReadDuration(start);
      if size.Bad? then Bad(size.error) else Good(Tumbling(size.value), size.at)
  }

  function ReadWindow(start: At): (r: Read<Window>)
    ensures r.Good? ==> |r.at.rest| <= |start.rest|
  {
    if KeywordAhead(start, "window") then ReadWindowBody(PastKeyword(start, "window"))
        else Good(NoWindow, PastSpace(start))
  }

  // ----- queries

  function LeftWords(): seq<string> {
    ["with", "within", "|"]
  }

  function RightWords(): seq<string> {
    ["within", "|"]
  }

  function WhereWords(): seq<string> {
    ["window", "|"]
  }

  function PipeWords(): seq<string> {
    ["|"]
  }

  function ReadWithin(start: At): (r: Read<nat>)
    ensures r.Good? ==> |r.at.rest| <= |start.rest|
  {
    if !KeywordAhead(start, "within") then Good(DEFAULT_WITHIN_MS, PastSpace(start))
    else
      var ms := ReadDuration(PastKeyword(start, "within"));
      if ms.Bad? then ms else Good(if ms.value == 0 then DEFAULT_WITHIN_MS else ms.value, ms.at)
  }

  /** parse_correlate, once its keyword was seen */
  function ReadCorrelate(start: At): (r: Read<Query>)
    ensures r.Good? ==> |r.at.rest| < |start.rest|
  {
    var left := ReadFilter(start, LeftWords());
    if left.Bad? then Bad(left.error)
    else if !KeywordAhead(left.at, "with") then Bad(ExpectedWith)
    else
      var right := ReadFilter(PastKeyword(left.at, "with"), RightWords());
      if right.Bad? then Bad(right.error)
      else
        var within := ReadWithin(right.at);
        if within.Bad? then Bad(within.error)
            else Good(CorrelateQuery(Correlate(left.value, right.value, within.value)), within.at)
  }

  /** parse_aggregate, once its keyword was seen */
  function ReadAggregate(start: At): (r: Read<Query>)
    ensures r.Good? ==> |r.at.rest| < |start.rest|
  {
    var funcs := ReadFunctionList(start);
    if funcs.Bad? then Bad(funcs.error)
    else
      var groupBy := ReadGroupBy(funcs.at);
      if groupBy.Bad? then Bad(groupBy.error)
      else
        var filter := ReadWhere(groupBy.at, WhereWords());
        if filter.Bad? then Bad(filter.error)
        else
          var window := ReadWindow(filter.at);
          if window.Bad? then Bad(window.error)
          else Good(AggregateQuery(Aggregate(funcs.value, groupBy.value, filter.value, window.value)), window.at)
  }

  function ReadShowFields(start: At): (r: Read<seq<string>>)
    ensures r.Good? ==> |r.at.rest| < |start.rest|
  {
    if CharAhead(start, '*') then Good([], PastChar(start, '*')) else ReadFields(start, "show", "show list")
  }

  /** parse_show, once its keyword was seen, and parse_select_all: every field is selected exactly when
      the list is a star. */
  function ReadShow(start: At): (r: Read<Query>)
    ensures r.Good? ==> |r.at.rest| < |start.rest|
  {
    var fields := ReadShowFields(start);
    if fields.Bad? then Bad(fields.error)
    else
      var filter := ReadWhere(fields.at, PipeWords());
      if filter.Bad? then Bad(filter.error)
          else Good(ShowQuery(CharAhead(start, '*'), fields.value, filter.value), filter.at)
  }

  function ReadFilterQuery(start: At): (r: Read<Query>)
    ensures r.Good? ==> |r.at.rest| < |start.rest|
  {
    var filter := ReadFilter(start, PipeWords());
    if filter.Bad? then Bad(filter.error) else Good(FilterQuery(filter.value), filter.at)
  }

  /** parse_single_query: each alternative starts again at the same place. */
  function ReadSingle(start: At): (r: Read<Query>)
    ensures r.Good? ==> |r.at.rest| < |start.rest|
  {
    if KeywordAhead(start, "correlate") then ReadCorrelate(PastKeyword(start, "correlate"))
    else if KeywordAhead(start, "aggregate") then ReadAggregate(PastKeyword(start, "aggregate"))
    else if KeywordAhead(start, "show") then ReadShow(PastKeyword(start, "show"))
    else if CharAhead(start, '*') then ReadShow(start)
    else ReadFilterQuery(start)
  }

  /** The stages of a pipeline, from the first on. */
  function ReadStages(start: At): (r: Read<seq<Query>>)
    ensures r.Good? ==> |r.at.rest| < |start.rest| && r.value != []
    decreases |start.rest|
  {
    var first := ReadSingle(start);
    if first.Bad? then Bad(first.error)
    else if !CharAhead(first.at, '|') then Good([first.value], PastSpace(first.at))
    else
      var others := ReadStages(PastChar(first.at, '|'));
      if others.Bad? then others else Good([first.value] + others.value, others.at)
  }

  /** parse_pipeline: a single stage stands for itself. */
  function ReadPipeline(start: At): (r: Read<Query>)
    ensures r.Good? ==> |r.at.rest| < |start.rest|
  {
    var stages := ReadStages(start);
    if stages.Bad? then Bad(stages.error)
    else Good(if |stages.value| == 1 then stages.value[0] else PipelineQuery(stages.value), stages.at)
  }

  datatype Parsed = Rejected(error: ParseError) | Accepted(query: Query)

  /** nql_parse_ex */
  function ParseQuery(input: string): Parsed {
    var start := PastSpace(At('\0', input));
    if start.rest == [] then Rejected(EmptyQuery)
    else
      var query := ReadPipeline(start);
      if query.Bad? then Rejected(query.error)
      else if SkipSpace(query.at.rest) != [] then Rejected(TrailingInput)
      else Accepted(query.value)
  }
}
