/** nql_parse_ex: recursive descent with one cursor and an error slot in which the first error wins. */
module NqlParser {
  import opened Values
  import opened Text
  import opened Numerals
  import opened Cursors
  import opened FilterSyntax
  import opened FilterParser
  import opened Aggregation
  import opened NqlAst
  import opened NqlSyntax
  import opened NqlScanner

  class Parser {
    const cursor: Cursor
    var error: Option<ParseError>

    /** No error so far. */
    ghost predicate Clear()
      reads this, cursor
    {
      cursor.Valid() && error == None
    }

    /** The parser did what the grammar says: the value and the place, or the first error and no value. */
    ghost predicate Did<T>(read: Read<T>, result: Option<T>)
      reads this, cursor
    {
      && cursor.Valid()
      && (read.Good? ==> result == Some(read.value) && error == None && cursor.at == read.at)
      && (read.Bad? ==> result == None && error == Some(read.error))
    }

    constructor (input: string)
      ensures Clear() && fresh(cursor) && cursor.at == At('\0', input)
    {
      cursor := new Cursor(input);
      error := None;
    }

    /** parser_set_error */
    method SetError(e: ParseError)
      modifies this
      ensures error == if old(error).Some? then old(error) else Some(e)
    {
      if error.None? {
        error := Some(e);
      }
    }

    method ConsumeChar(expected: char) returns (b: bool)
      requires cursor.Valid() && expected != '\0'
      modifies cursor
      ensures cursor.Valid() && b == CharAhead(old(cursor.at), expected)
      ensures cursor.at == PastChar(old(cursor.at), expected)
    {
      hide Span;
      cursor.SkipBlanks();
      b := cursor.Peek(0) == expected;
      if b {
        cursor.Advance(1);
      }
    }

    method MatchKeyword(word: string) returns (b: bool)
      requires cursor.Valid()
      modifies cursor
      ensures cursor.Valid() && b == KeywordAhead(old(cursor.at), word)
      ensures cursor.at == PastKeyword(old(cursor.at), word)
    {
      hide Span, LowerAll;
      cursor.SkipBlanks();
      var ahead := cursor.Ahead();
      b := |word| <= |ahead| && LowerAll(ahead[..|word|]) == word && (|word| < |ahead| ==> IsBoundary(ahead[|word|]));
      if b {
        cursor.Advance(|word|);
      }
    }

    // ----- the filter scanner

    /** Whether one of the stop words stands `k` characters ahead. */
    method KeywordAtPosition(k: nat, words: seq<string>) returns (b: bool)
      requires cursor.Valid() && k <= |cursor.at.rest|
      ensures b == AnyKeywordHere(Past(cursor.at, k), words)
    {
      hide KeywordHere;
      var there := cursor.Look(k);
      var i := 0;
      b := false;
      while i < |words| && !b
        invariant i <= |words| && (b ==> i < |words| && KeywordHere(there, words[i]))
        invariant !b ==> forall j :: 0 <= j < i ==> !KeywordHere(there, words[j])
        decreases !b, |words| - i
      {
        if KeywordHere(there, words[i]) {
          b := true;
        } else {
          i := i + 1;
        }
      }
    }

    /** The scanning loop of parse_filter_expr. */
    method FindStop(words: seq<string>) returns (n: nat)
      requires cursor.Valid()
      ensures n == Scan(cursor.at, words, Plain, 0)
    {
      hide Scan, Past, AnyKeywordHere;
      n := 0;
      var quote, depth: nat, stopped := Plain, 0, false;
      Unmoved(cursor.at);
      while !stopped && cursor.pos + n < |cursor.input|
        invariant n <= |cursor.at.rest|
        invariant n + (if stopped then 0 else Scan(Past(cursor.at, n), words, quote, depth))
            == Scan(cursor.at, words, Plain, 0)
        decreases !stopped, |cursor.at.rest| - n
      {
        var c := cursor.Peek(n);
        ScanStep(cursor.at, words, n, quote, depth);
        if !quote.Plain? {
          if c == '\\' && cursor.pos + n + 1 < |cursor.input| {
            n := n + 2;
          } else {
            quote := if c == QuoteChar(quote) then Plain else quote;
            n := n + 1;
          }
        } else if c == '\'' {
          quote := Single;
          n := n + 1;
        } else if c == '"' {
          quote := Double;
          n := n + 1;
        } else if c == '(' {
          depth := depth + 1;
          n := n + 1;
        } else if c == ')' {
          depth := if depth > 0 then depth - 1 else 0;
          n := n + 1;
        } else {
          if depth == 0 {
            stopped := c == '|';
            if !stopped {
              stopped := KeywordAtPosition(n, words);
            }
          }
          n := if stopped then n else n + 1;
        }
      }
      if !stopped {
        PastFacts(cursor.at, n);
        NothingAhead(Past(cursor.at, n), words, quote, depth);
      }
    }

    /** parse_filter_expr: the text up to the stop, without the blanks before it, goes to the filter parser. */
    method ParseFilterText(words: seq<string>) returns (filter: Option<FilterNode>)
      requires Clear()
      modifies this, cursor
      ensures Did(ReadFilter(old(cursor.at), words), filter)
    {
      hide Scan, ParseFilter, TrimEnd, Span, Past, PastSpace, SkipSpace, Cursor.Valid;
      cursor.SkipBlanks();
      var ahead := cursor.Ahead();
      var n := FindStop(words);
      var text := TrimRight(ahead[..n]);
      if text == "" {
        SetError(ExpectedFilter);
        return None;
      }
      filter := ParseFull(text);
      if filter.None? {
        SetError(InvalidFilter);
      } else {
        cursor.Advance(n);
      }
    }

    // ----- durations, identifiers and lists

    /** The digits of a duration; the cursor is left behind the blanks that follow them. */
    method ParseNumber() returns (n: Option<nat>)
      requires Clear()
      modifies this, cursor
      ensures cursor.Valid()
      ensures
        var at := PastSpace(old(cursor.at));
        var number := ReadUnsigned(at.rest);
        if number.length == 0 then n == None && error == Some(ExpectedDuration)
        else n == Some(number.value) && error == None && cursor.at == PastSpace(Past(at, number.length))
    {
      hide ReadUnsigned, Past, PastSpace, SkipSpace, Cursor.Valid;
      cursor.SkipBlanks();
      var ahead := cursor.Ahead();
      var number := ReadUnsigned(ahead);
      if number.length == 0 {
        SetError(ExpectedDuration);
        return None;
      }
      cursor.Advance(number.length);
      cursor.SkipBlanks();
      n := Some(number.value);
    }

    /** parse_duration */
    method ParseDuration() returns (ms: Option<nat>)
      requires Clear()
      modifies this, cursor
      ensures Did(ReadDuration(old(cursor.at)), ms)
    {
      hide ReadUnsigned, MulU64, UnitOf, Past, PastSpace, SkipSpace, Cursor.Valid;
      var number := ParseNumber();
      if number.None? {
        return None;
      }
      var ahead := cursor.Ahead();
      var unit := UnitOf(ahead);
      if unit.NoUnit? {
        SetError(ExpectedUnit);
        return None;
      }
      cursor.Advance(unit.length);
      ms := Some(MulU64(number.value, unit.ms));
    }

    /** parse_identifier, with the error its caller reports when there is none */
    method ParseIdentifier(after: string) returns (name: Option<string>)
      requires Clear()
      modifies this, cursor
      ensures Did(ReadIdentifier(old(cursor.at), after), name)
    {
      hide Span;
      cursor.SkipBlanks();
      if !(IsAlpha(cursor.Peek(0)) || cursor.Peek(0) == '_') {
        SetError(ExpectedField(after));
        return None;
      }
      var taken := cursor.TakeWhile(IsFieldChar);
      name := Some(taken);
    }

    /** The loops that collect field names: each turn adds one name to the end of the array. */
    method ParseFields(first: string, later: string) returns (fields: Option<seq<string>>)
      requires Clear()
      modifies this, cursor
      ensures Did(ReadFields(old(cursor.at), first, later), fields)
    {
      hide ReadIdentifier, PastChar, CharAhead, Past;
      ghost var whole := ReadFields(cursor.at, first, later);
      var names: seq<string>, expected, more := [], first, true;
      NothingBefore(whole);
      while more
        invariant Clear()
        invariant more ==> whole == After(names, ReadFields(cursor.at, expected, later))
        invariant !more ==> whole == Good(names, cursor.at)
        decreases more, |cursor.at.rest|
      {
        ghost var start := cursor.at;
        FieldsCases(start, expected, later);
        var name := ParseIdentifier(expected);
        if name.None? {
          return None;
        }
        more := ConsumeChar(',');
        OneMore(names, name.value, ReadFields(cursor.at, later, later));
        names := names + [name.value];
        expected := later;
      }
      fields := Some(names);
    }

    // ----- aggregation

    method Close<T>(value: T, after: string) returns (result: Option<T>)
      requires Clear()
      modifies this, cursor
      ensures Did(Closed(value, old(cursor.at), after), result)
    {
      hide Cursor.Valid, CharAhead, PastChar;
      var closed := ConsumeChar(')');
      if !closed {
        SetError(ExpectedClose(after));
        return None;
      }
      result := Some(value);
    }

    method ParsePercentile() returns (f: Option<AggFunc>)
      requires Clear()
      modifies this, cursor
      ensures Did(ReadPercentile(old(cursor.at)), f)
    {
      hide Cursor.Valid, CharAhead, PastChar, ReadIdentifier, ReadDecimal, Past, PastSpace, Closed, SkipSpace;
      var field := ParseIdentifier("percentile");
      if field.None? {
        return None;
      }
      var comma := ConsumeChar(',');
      if !comma {
        SetError(ExpectedComma("percentile"));
        return None;
      }
      cursor.SkipBlanks();
      var ahead := cursor.Ahead();
      var p := ReadDecimal(ahead);
      if p.length == 0 {
        SetError(ExpectedPercentile);
        return None;
      }
      cursor.Advance(p.length);
      f := Close(AggFunc(Percentile, Some(field.value), p.value), "percentile");
    }

    method ParseArguments(name: string) returns (f: Option<AggFunc>)
      requires Clear()
      modifies this, cursor
      ensures Did(ReadArguments(name, old(cursor.at)), f)
    {
      hide Cursor.Valid, ReadPercentile, ReadIdentifier, Closed, KindOf;
      if name == "count" {
        f := Close(AggFunc(Count, None, 0.0), "count");
      } else if name == "percentile" {
        f := ParsePercentile();
      } else {
        var kind := KindOf(name);
        if kind.None? {
          SetError(UnknownFunction(name));
          return None;
        }
        var field := ParseIdentifier("aggregation");
        if field.None? {
          return None;
        }
        f := Close(AggFunc(kind.value, Some(field.value), 0.0), "aggregation");
      }
    }

    /** parse_agg_function */
    method ParseFunction() returns (f: Option<AggFunc>)
      requires Clear()
      modifies this, cursor
      ensures Did(ReadFunction(old(cursor.at)), f)
    {
      hide Cursor.Valid, ReadArguments, CharAhead, PastChar, Past, PastSpace, LowerAll, Span, SkipSpace;
      cursor.SkipBlanks();
      var name := cursor.TakeWhile(IsAlpha);
      if name == "" {
        SetError(ExpectedFunction);
        return None;
      }
      if |name| >= NAME_LIMIT {
        SetError(NameTooLong);
        return None;
      }
      var open := ConsumeChar('(');
      if !open {
        SetError(ExpectedOpen("aggregation"));
        return None;
      }
      f := ParseArguments(LowerAll(name));
    }

    method ParseFunctions() returns (funcs: Option<seq<AggFunc>>)
      requires Clear()
      modifies this, cursor
      ensures Did(ReadFunctions(old(cursor.at)), funcs)
    {
      hide Cursor.Valid, ReadFunction, PastChar, CharAhead, Past;
      ghost var whole := ReadFunctions(cursor.at);
      var list: seq<AggFunc>, more := [], true;
      NothingBefore(whole);
      while more
        invariant Clear()
        invariant more ==> whole == After(list, ReadFunctions(cursor.at))
        invariant !more ==> whole == Good(list, cursor.at)
        decreases more, |cursor.at.rest|
      {
        FunctionsCases(cursor.at);
        var f := ParseFunction();
        if f.None? {
          return None;
        }
        more := ConsumeChar(',');
        OneMore(list, f.value, ReadFunctions(cursor.at));
        list := list + [f.value];
      }
      funcs := Some(list);
    }

    method ParseFunctionList() returns (funcs: Option<seq<AggFunc>>)
      requires Clear()
      modifies this, cursor
      ensures Did(ReadFunctionList(old(cursor.at)), funcs)
    {
      hide Cursor.Valid, ReadFunctions, PastChar, CharAhead, Closed;
      var wrapped := ConsumeChar('(');
      funcs := ParseFunctions();
      if funcs.Some? && wrapped {
        funcs := Close(funcs.value, "functions");
      }
    }

    method ParseGroupBy() returns (groupBy: Option<seq<string>>)
      requires Clear()
      modifies this, cursor
      ensures Did(ReadGroupBy(old(cursor.at)), groupBy)
    {
      hide Cursor.Valid, ReadFields, KeywordAhead, PastSpace;
      var found := MatchKeyword("by");
      if !found {
        return Some([]);
      }
      groupBy := ParseFields("by", "by");
    }

    method ParseWhere(words: seq<string>) returns (filter: Option<Option<FilterNode>>)
      requires Clear()
      modifies this, cursor
      ensures Did(ReadWhere(old(cursor.at), words), filter)
    {
      hide Cursor.Valid, ReadFilter, KeywordAhead, PastSpace;
      var found := MatchKeyword("where");
      if !found {
        return Some(None);
      }
      var node := ParseFilterText(words);
      filter := if node.None? then None else Some(node);
    }

    // ----- windows

    method ParseSpan(after: string) returns (ms: Option<nat>)
      requires Clear()
      modifies this, cursor
      ensures Did(ReadSpan(old(cursor.at), after), ms)
    {
      hide Cursor.Valid, ReadDuration, CharAhead, PastChar, Closed;
      var open := ConsumeChar('(');
      if !open {
        SetError(ExpectedOpen(after));
        return None;
      }
      var size := ParseDuration();
      if size.None? {
        return None;
      }
      ms := Close(size.value, after);
    }

    method ParseSliding() returns (window: Option<Window>)
      requires Clear()
      modifies this, cursor
      ensures Did(ReadSliding(old(cursor.at)), window)
    {
      hide Cursor.Valid, ReadDuration, CharAhead, PastChar, Closed;
      var open := ConsumeChar('(');
      if !open {
        SetError(ExpectedOpen("sliding"));
        return None;
      }
      var size := ParseDuration();
      if size.None? {
        return None;
      }
      var comma := ConsumeChar(',');
      if !comma {
        SetError(ExpectedComma("sliding"));
        return None;
      }
      var slide := ParseDuration();
      if slide.None? {
        return None;
      }
      window := Close(Sliding(size.value, slide.value), "sliding");
    }

    method ParseTumbling() returns (window: Option<Window>)
      requires Clear()
      modifies this, cursor
      ensures
        var size := ReadSpan(old(cursor.at), "tumbling");
        Did(if size.Bad? then Bad(size.error) else Good(Tumbling(size.value), size.at), window)
    {
      hide Cursor.Valid, ReadSpan;
      var size := ParseSpan("tumbling");
      window := if size.None? then None else Some(Tumbling(size.value));
    }

    method ParseSession() returns (window: Option<Window>)
      requires Clear()
      modifies this, cursor
      ensures
        var timeout := ReadSpan(old(cursor.at), "session");
        Did(if timeout.Bad? then Bad(timeout.error) else Good(Session(timeout.value), timeout.at), window)
    {
      hide Cursor.Valid, ReadSpan;
      var timeout := ParseSpan("session");
      window := if timeout.None? then None else Some(Session(timeout.value));
    }

    method ParseWindowBody() returns (window: Option<Window>)
      requires Clear()
      modifies this, cursor
      ensures Did(ReadWindowBody(old(cursor.at)), window)
    {
      hide Cursor.Valid, ReadSpan, ReadDuration, ReadSliding, KeywordAhead, PastSpace, SkipSpace;
      ghost var start := cursor.at;
      BlanksOnce(start);
      var found := MatchKeyword("tumbling");
      if found {
        window := ParseTumbling();
        return;
      }
      found := MatchKeyword("sliding");
      if found {
        window := ParseSliding();
        return;
      }
      found := MatchKeyword("session");
      if found {
        window := ParseSession();
        return;
      }
      var size := ParseDuration();
      window := if size.None? then None else Some(Tumbling(size.value));
    }

    method ParseWindow() returns (window: Option<Window>)
      requires Clear()
      modifies this, cursor
      ensures Did(ReadWindow(old(cursor.at)), window)
    {
      hide Cursor.Valid, ReadWindowBody, KeywordAhead, PastSpace;
      var found := MatchKeyword("window");
      if !found {
        return Some(NoWindow);
      }
      window := ParseWindowBody();
    }

    // ----- queries

    method ParseWithin() returns (ms: Option<nat>)
      requires Clear()
      modifies this, cursor
      ensures Did(ReadWithin(old(cursor.at)), ms)
    {
      hide Cursor.Valid, ReadDuration, KeywordAhead, PastSpace;
      var found := MatchKeyword("within");
      if !found {
        return Some(DEFAULT_WITHIN_MS);
      }
      ms := ParseDuration();
      if ms == Some(0) {
        ms := Some(DEFAULT_WITHIN_MS);
      }
    }

    method ParseCorrelate() returns (query: Option<Query>)
      requires Clear()
      modifies this, cursor
      ensures Did(ReadCorrelate(old(cursor.at)), query)
    {
      hide Cursor.Valid, ReadFilter, ReadWithin, KeywordAhead, PastKeyword, LeftWords, RightWords;
      var left := ParseFilterText(LeftWords());
      if left.None? {
        return None;
      }
      var found := MatchKeyword("with");
      if !found {
        SetError(ExpectedWith);
        return None;
      }
      var right := ParseFilterText(RightWords());
      if right.None? {
        return None;
      }
      var within := ParseWithin();
      query := if within.None? then None else Some(CorrelateQuery(Correlate(left.value, right.value, within.value)));
    }

    method ParseAggregate() returns (query: Option<Query>)
      requires Clear()
      modifies this, cursor
      ensures Did(ReadAggregate(old(cursor.at)), query)
    {
      hide Cursor.Valid, ReadFunctionList, ReadGroupBy, ReadWhere, ReadWindow, WhereWords;
      var funcs := ParseFunctionList();
      if funcs.None? {
        return None;
      }
      var groupBy := ParseGroupBy();
      if groupBy.None? {
        return None;
      }
      var filter := ParseWhere(WhereWords());
      if filter.None? {
        return None;
      }
      var window := ParseWindow();
      query := if window.None? then None
               else Some(AggregateQuery(Aggregate(funcs.value, groupBy.value, filter.value, window.value)));
    }

    method ParseShow() returns (query: Option<Query>)
      requires Clear()
      modifies this, cursor
      ensures Did(ReadShow(old(cursor.at)), query)
    {
      hide Cursor.Valid, ReadFields, ReadWhere, CharAhead, PipeWords, SkipSpace;
      ghost var start := cursor.at;
      var star := ConsumeChar('*');
      var fields: Option<seq<string>> := Some([]);
      if !star {
        BlanksBeforeName(start, "show", "show list");
        fields := ParseFields("show", "show list");
        if fields.None? {
          return None;
        }
      }
      var filter := ParseWhere(PipeWords());
      query := if filter.None? then None else Some(ShowQuery(star, fields.value, filter.value));
    }

    /** parse_select_all: a show query without its keyword; nothing when there is no star. */
    method ParseSelectAll() returns (query: Option<Query>)
      requires Clear()
      modifies this, cursor
      ensures
        if CharAhead(old(cursor.at), '*') then Did(ReadShow(old(cursor.at)), query)
        else query == None && Clear()
    {
      hide Cursor.Valid, ReadFields, ReadWhere, CharAhead, PastChar, PipeWords;
      var star := ConsumeChar('*');
      if !star {
        return None;
      }
      var filter := ParseWhere(PipeWords());
      query := if filter.None? then None else Some(ShowQuery(true, [], filter.value));
    }

    method ParseFilterQuery() returns (query: Option<Query>)
      requires Clear()
      modifies this, cursor
      ensures Did(ReadFilterQuery(old(cursor.at)), query)
    {
      hide Cursor.Valid, ReadFilter, PipeWords;
      var filter := ParseFilterText(PipeWords());
      query := if filter.None? then None else Some(FilterQuery(filter.value));
    }

    /** The queries that begin with a keyword: correlate, aggregate or show. */
    method ParseKeywordQuery() returns (found: bool, query: Option<Query>)
      requires Clear()
      modifies this, cursor
      ensures found
          == (KeywordAhead(old(cursor.at), "correlate") || KeywordAhead(old(cursor.at), "aggregate")
              || KeywordAhead(old(cursor.at), "show"))
      ensures if found then Did(ReadSingle(old(cursor.at)), query) else Clear()
    {
      hide Cursor.Valid, Cursor.Sees, ReadCorrelate, ReadAggregate, ReadShow, ReadFilterQuery, KeywordAhead;
      hide PastKeyword, CharAhead;
      ghost var start := cursor.at;
      var saved := cursor.Mark();
      query := None;
      found := MatchKeyword("correlate");
      if found {
        query := ParseCorrelate();
        return;
      }
      cursor.Rewind(saved, start);
      found := MatchKeyword("aggregate");
      if found {
        query := ParseAggregate();
        return;
      }
      cursor.Rewind(saved, start);
      found := MatchKeyword("show");
      if found {
        query := ParseShow();
      }
    }

    /** parse_single_query: each alternative is tried at the same place, the bare filter last. */
    method ParseSingle() returns (query: Option<Query>)
      requires Clear()
      modifies this, cursor
      ensures Did(ReadSingle(old(cursor.at)), query)
    {
      hide Cursor.Valid, Cursor.Sees, ReadCorrelate, ReadAggregate, ReadShow, ReadFilterQuery, KeywordAhead;
      hide PastKeyword, CharAhead;
      ghost var start := cursor.at;
      var saved := cursor.Mark();
      var found;
      found, query := ParseKeywordQuery();
      if found {
        return;
      }
      cursor.Rewind(saved, start);
      query := ParseSelectAll();
      if query.Some? || error.Some? {
        return;
      }
      cursor.Rewind(saved, start);
      query := ParseFilterQuery();
    }

    /** The loop of parse_pipeline: each turn adds one stage to the end of the array. */
    method ParseStages() returns (stages: Option<seq<Query>>)
      requires Clear()
      modifies this, cursor
      ensures Did(ReadStages(old(cursor.at)), stages)
    {
      hide Cursor.Valid, ReadSingle, PastChar, CharAhead, Past;
      ghost var whole := ReadStages(cursor.at);
      var list: seq<Query>, more := [], true;
      NothingBefore(whole);
      while more
        invariant Clear()
        invariant more ==> whole == After(list, ReadStages(cursor.at))
        invariant !more ==> whole == Good(list, cursor.at)
        decreases more, |cursor.at.rest|
      {
        StagesCases(cursor.at);
        var stage := ParseSingle();
        if stage.None? {
          return None;
        }
        more := ConsumeChar('|');
        OneMore(list, stage.value, ReadStages(cursor.at));
        list := list + [stage.value];
      }
      stages := Some(list);
    }

    /** parse_pipeline */
    method ParsePipeline() returns (query: Option<Query>)
      requires Clear()
      modifies this, cursor
      ensures Did(ReadPipeline(old(cursor.at)), query)
    {
      hide Cursor.Valid, ReadStages;
      var stages := ParseStages();
      if stages.None? {
        return None;
      }
      query := Some(if |stages.value| == 1 then stages.value[0] else PipelineQuery(stages.value));
    }

    /** parse_entry */
    method ParseEntry() returns (query: Option<Query>)
      requires Clear()
      modifies this, cursor
      ensures
        var start := PastSpace(old(cursor.at));
        Did(if start.rest == [] then Bad(EmptyQuery) else ReadPipeline(start), query)
    {
      hide Cursor.Valid, ReadPipeline, PastSpace, SkipSpace;
      cursor.SkipBlanks();
      var ahead := cursor.Ahead();
      if ahead == "" {
        SetError(EmptyQuery);
        return None;
      }
      query := ParsePipeline();
    }
  }

  /** nql_parse_ex: exactly one of a query and an error, for every input. */
  method Parse(input: string) returns (query: Option<Query>, error: Option<ParseError>)
    ensures query.Some? <==> error.None?
    ensures
      var parsed := ParseQuery(input);
      if parsed.Accepted? then query == Some(parsed.query) else error == Some(parsed.error)
  {
    hide Cursor.Valid, ReadPipeline, PastSpace, SkipSpace;
    var parser := new Parser(input);
    query := parser.ParseEntry();
    if query.Some? {
      parser.cursor.SkipBlanks();
      var ahead := parser.cursor.Ahead();
      if ahead != "" {
        parser.SetError(TrailingInput);
        query := None;
      }
    }
    error := parser.error;
  }

  function After<T>(done: seq<T>, rest: Read<seq<T>>): Read<seq<T>> {
    if rest.Bad? then rest else Good(done + rest.value, rest.at)
  }

  lemma NothingBefore<T>(rest: Read<seq<T>>)
    ensures After([], rest) == rest
  {
    if rest.Good? {
      assert [] + rest.value == rest.value;
    }
  }

  lemma OneMore<T>(done: seq<T>, item: T, rest: Read<seq<T>>)
    ensures After(done, After([item], rest)) == After(done + [item], rest)
  {
    if rest.Good? {
      assert done + ([item] + rest.value) == done + [item] + rest.value;
    }
  }

  lemma FieldsCases(at: At, first: string, later: string)
    ensures
      var field := ReadIdentifier(at, first);
      ReadFields(at, first, later)
      == if field.Bad? then Bad(field.error)
         else if CharAhead(field.at, ',') then After([field.value], ReadFields(PastChar(field.at, ','), later, later))
         else Good([field.value], PastChar(field.at, ','))
  {
    hide ReadIdentifier;
  }

  lemma FunctionsCases(at: At)
    ensures
      var f := ReadFunction(at);
      ReadFunctions(at)
      == if f.Bad? then Bad(f.error)
         else if CharAhead(f.at, ',') then After([f.value], ReadFunctions(PastChar(f.at, ',')))
         else Good([f.value], PastChar(f.at, ','))
  {
    hide ReadFunction;
  }

  lemma StagesCases(at: At)
    ensures
      var q := ReadSingle(at);
      ReadStages(at)
      == if q.Bad? then Bad(q.error)
         else if CharAhead(q.at, '|') then After([q.value], ReadStages(PastChar(q.at, '|')))
         else Good([q.value], PastChar(q.at, '|'))
  {
    hide ReadSingle;
  }

  lemma SpaceOnce(at: At)
    ensures PastSpace(PastSpace(at)) == PastSpace(at) && SkipSpace(SkipSpace(at.rest)) == SkipSpace(at.rest)
  {
    hide Past, Span;
    SpanIs(SkipSpace(at.rest), IsSpace, 0);
    Unmoved(PastSpace(at));
  }

  lemma KeywordOnce(at: At, word: string)
    ensures KeywordAhead(PastSpace(at), word) == KeywordAhead(at, word)
    ensures PastKeyword(PastSpace(at), word) == PastKeyword(at, word)
  {
    hide PastSpace, SkipSpace, WordAt, Past;
    SpaceOnce(at);
  }

  lemma DurationOnce(at: At)
    ensures ReadDuration(PastSpace(at)) == ReadDuration(at)
  {
    hide SkipSpace, Past, ReadUnsigned, UnitOf, MulU64, PastSpace;
    SpaceOnce(at);
  }

  lemma NameOnce(at: At, after: string)
    ensures ReadIdentifier(PastSpace(at), after) == ReadIdentifier(at, after)
  {
    hide SkipSpace, Past, Span, PastSpace;
    SpaceOnce(at);
  }

  lemma BlanksBeforeName(at: At, first: string, later: string)
    ensures ReadFields(PastSpace(at), first, later) == ReadFields(at, first, later)
  {
    hide ReadIdentifier, ReadFields, PastSpace, PastChar, CharAhead;
    FieldsCases(at, first, later);
    FieldsCases(PastSpace(at), first, later);
    NameOnce(at, first);
  }

  /** Looking for a word that is not there only skips blanks, which makes no difference to what is read next. */
  lemma BlanksOnce(at: At)
    ensures PastSpace(PastSpace(at)) == PastSpace(at)
    ensures forall word {:trigger KeywordAhead(PastSpace(at), word)} ::
        KeywordAhead(PastSpace(at), word) == KeywordAhead(at, word)
    ensures forall word {:trigger PastKeyword(PastSpace(at), word)} ::
        PastKeyword(PastSpace(at), word) == PastKeyword(at, word)
    ensures ReadDuration(PastSpace(at)) == ReadDuration(at)
  {
    hide *;
    SpaceOnce(at);
    DurationOnce(at);
    forall word: string
      ensures KeywordAhead(PastSpace(at), word) == KeywordAhead(at, word)
      ensures PastKeyword(PastSpace(at), word) == PastKeyword(at, word)
    {
      KeywordOnce(at, word);
    }
  }

  lemma Unmoved(at: At)
    ensures Past(at, 0) == at
  {
  }

  method TrimRight(s: string) returns (r: string)
    ensures r == TrimEnd(s)
  {
    var end: nat := |s|;
    while end > 0 && IsSpace(s[end - 1])
      invariant end <= |s| && forall i :: end <= i < |s| ==> IsSpace(s[i])
    {
      end := end - 1;
    }
    r := s[..end];
    TrimIs(s, r);
  }
}
