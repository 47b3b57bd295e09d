/** What the parser's reading of numbers does to the meaning of a filter: writing a filter down and
    reading it back keeps every decision it makes, unless an integer is compared for equality and a
    dot stands somewhere after it. */
module FilterMeaning {
  import opened Values
  import opened FilterEngine
  import opened FilterSyntax

  predicate TestsEquality(op: FilterOp) {
    op == Eq || op == Ne
  }

  /** No integer that is tested with == or != has a dot ahead of it. */
  predicate SafeAtom(n: FilterNode, dotAhead: bool)
    requires IsAtom(n)
  {
    match n
    case Leaf(field, op, value) => value.VInt? && TestsEquality(op) ==> !dotAhead
    case Not(operand) => SafeAtom(operand, dotAhead)
  }

  predicate SafeFilter(n: FilterNode, dotAhead: bool)
    requires Printable(n)
  {
    match n
    case And(l, r) => SafeFilter(l, dotAhead || '.' in AtomText(r)) && SafeAtom(r, dotAhead)
    case Or(l, r) => SafeFilter(l, dotAhead || '.' in AtomText(r)) && SafeAtom(r, dotAhead)
    case _ => SafeAtom(n, dotAhead)
  }

  lemma {:induction false} AtomKeepsMeaning(re: RegexEngine, n: FilterNode, dotAhead: bool, data: Json)
    requires IsAtom(n) && SafeAtom(n, dotAhead)
    ensures Evaluate(re, RereadAtom(n, dotAhead), data) == Evaluate(re, n, data)
  {
    if n.Not? {
      AtomKeepsMeaning(re, n.operand, dotAhead, data);
    }
  }

  lemma {:induction false} RereadKeepsMeaning(re: RegexEngine, n: FilterNode, dotAhead: bool, data: Json)
    requires Printable(n) && SafeFilter(n, dotAhead)
    ensures Evaluate(re, Reread(n, dotAhead), data) == Evaluate(re, n, data)
    decreases n
  {
    if n.And? || n.Or? {
      RereadKeepsMeaning(re, n.left, dotAhead || '.' in AtomText(n.right), data);
      AtomKeepsMeaning(re, n.right, dotAhead, data);
    } else {
      AtomKeepsMeaning(re, n, dotAhead, data);
    }
  }

  /** A printed filter decides every event as the filter it was printed from. */
  lemma PrintingKeepsMeaning(re: RegexEngine, n: FilterNode, data: Json)
    requires Printable(n) && SafeFilter(n, false)
    ensures ParseFilter(FilterText(n)).Some?
    ensures Evaluate(re, ParseFilter(FilterText(n)).value, data) == Evaluate(re, n, data)
  {
    hide ParseFilter, FilterText;
    PrintedFiltersParse(n);
    RereadKeepsMeaning(re, n, false, data);
  }

  /** The condition is exact leaf by leaf: reading an integer as a real keeps the meaning of a
      comparison on every event exactly when it is not a test for equality. */
  lemma RealForIntIff(re: RegexEngine, field: string, op: FilterOp, i: int)
    ensures (forall data: Json ::
        EvaluateLeaf(re, field, op, VReal(i as real), data) == EvaluateLeaf(re, field, op, VInt(i), data))
       <==> !TestsEquality(op)
  {
    var data := JObject(map[field := JInt(i)]);
    assert TestsEquality(op)
        ==> EvaluateLeaf(re, field, op, VReal(i as real), data) != EvaluateLeaf(re, field, op, VInt(i), data);
  }

  /** The filter accepts only events in which the field equals an integer, by a leaf reached through ANDs
      only, and a dot stands after that leaf. */
  predicate AsksForAnInteger(n: FilterNode, field: string, dotAhead: bool)
    requires Printable(n)
  {
    match n
    case And(l, r) => AsksForAnInteger(l, field, dotAhead || '.' in AtomText(r)) || IsIntegerTest(r, field, dotAhead)
    case Or(l, r) => false
    case _ => IsIntegerTest(n, field, dotAhead)
  }

  predicate IsIntegerTest(n: FilterNode, field: string, dotAhead: bool) {
    n.Leaf? && n.field == field && n.op == Eq && n.value.VInt? && dotAhead
  }

  lemma {:induction false} RereadRejectsIntegers(re: RegexEngine, n: FilterNode, field: string, dotAhead: bool,
      data: Json)
    requires Printable(n) && AsksForAnInteger(n, field, dotAhead)
    requires data.JObject? && field in data.fields && data.fields[field].JInt?
    ensures !Evaluate(re, Reread(n, dotAhead), data)
    decreases n
  {
    if n.And? && AsksForAnInteger(n.left, field, dotAhead || '.' in AtomText(n.right)) {
      RereadRejectsIntegers(re, n.left, field, dotAhead || '.' in AtomText(n.right), data);
    }
  }

  /** So a filter that asks for an integer anywhere in a conjunction and has a dot further on accepts no
      event in which that field is an integer. */
  lemma IntegerBeforeDotNeverMatches(re: RegexEngine, n: FilterNode, field: string, data: Json)
    requires Printable(n) && AsksForAnInteger(n, field, false)
    requires data.JObject? && field in data.fields && data.fields[field].JInt?
    ensures ParseFilter(FilterText(n)).Some? && !Evaluate(re, ParseFilter(FilterText(n)).value, data)
  {
    hide ParseFilter, FilterText;
    PrintedFiltersParse(n);
    RereadRejectsIntegers(re, n, field, false, data);
  }

  lemma {:induction false} AcceptedMeansInteger(re: RegexEngine, n: FilterNode, field: string, dotAhead: bool,
      data: Json)
    requires Printable(n) && AsksForAnInteger(n, field, dotAhead) && Evaluate(re, n, data)
    ensures data.JObject? && field in data.fields && data.fields[field].JInt?
    decreases n
  {
    if n.And? && AsksForAnInteger(n.left, field, dotAhead || '.' in AtomText(n.right)) {
      AcceptedMeansInteger(re, n.left, field, dotAhead || '.' in AtomText(n.right), data);
    }
  }

  /** Reading such a filter back loses every event it accepts. */
  lemma EveryAcceptedEventIsLost(re: RegexEngine, n: FilterNode, field: string, data: Json)
    requires Printable(n) && AsksForAnInteger(n, field, false) && Evaluate(re, n, data)
    ensures ParseFilter(FilterText(n)).Some? && !Evaluate(re, ParseFilter(FilterText(n)).value, data)
  {
    hide ParseFilter, FilterText;
    AcceptedMeansInteger(re, n, field, false, data);
    IntegerBeforeDotNeverMatches(re, n, field, data);
  }
}
