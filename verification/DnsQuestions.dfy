/** The question section of a DNS message: the loop over it, and when it finds each question in its
    place and reports it whole. */
module DnsQuestions {
  import opened Values
  import opened DnsNames

  datatype Question = Question(name: seq<Octet>, qtype: nat, qclass: nat)

  datatype Parsed = Wild | Failed(at: nat) | Questions(items: seq<Question>, end: nat)

  function BigEndian(p: seq<Octet>, off: nat): nat
    requires off + 1 < |p|
  {
    256 * p[off] as int + p[off + 1] as int
  }

  function QuestionAt(p: seq<Octet>, name: seq<Octet>, off: nat): Question
    requires off + 4 <= |p|
  {
    Question(CString(name), BigEndian(p, off), BigEndian(p, off + 2))
  }

  ghost function ParseFrom(p: seq<Octet>, off: nat, count: nat): Parsed
    requires |p| >= HEADER
    decreases count
  {
    if count == 0 || off >= |p| - 4 then Questions([], off)
    else
      match Walk(p, off)
      case Lost => Wild
      case Endless => Wild
      case Found(name, cursor) =>
        if name == [] then Failed(cursor)
        else if cursor + 4 > |p| then Wild
        else Before(QuestionAt(p, name, cursor), ParseFrom(p, cursor + 4, count - 1))
  }

  function Before(q: Question, rest: Parsed): Parsed {
    if rest.Questions? then Questions([q] + rest.items, rest.end) else rest
  }

  function After(done: seq<Question>, rest: Parsed): Parsed {
    if rest.Questions? then Questions(done + rest.items, rest.end) else rest
  }

  lemma OneMore(done: seq<Question>, q: Question, rest: Parsed)
    ensures After(done, Before(q, rest)) == After(done + [q], rest)
  {
    if rest.Questions? {
      assert done + ([q] + rest.items) == done + [q] + rest.items;
    }
  }

  lemma ParseStep(p: seq<Octet>, off: nat, count: nat)
    requires |p| >= HEADER && count > 0 && off < |p| - 4 && !ParseFrom(p, off, count).Wild?
    ensures
      var w := Walk(p, off);
      && w.Found?
      && (w.name == [] ==> ParseFrom(p, off, count) == Failed(w.cursor))
      && (w.name != [] ==> w.cursor + 4 <= |p|)
      && (w.name != [] ==> !ParseFrom(p, w.cursor + 4, count - 1).Wild?)
      && (w.name != [] ==>
            ParseFrom(p, off, count) == Before(QuestionAt(p, w.name, w.cursor), ParseFrom(p, w.cursor + 4, count - 1)))
  {
  }

  lemma NoneMore(done: seq<Question>, rest: Parsed)
    ensures After([], rest) == rest
    ensures rest.Questions? && rest.items == [] ==> After(done, rest) == Questions(done, rest.end)
  {
    if rest.Questions? {
      assert [] + rest.items == rest.items;
    }
  }

  method ParseQuestion(reader: Reader, ghost count: nat) returns (question: Option<Question>)
    requires |reader.packet| >= HEADER && count > 0 && reader.offset < |reader.packet| - 4
    requires !ParseFrom(reader.packet, reader.offset, count).Wild?
    modifies reader
    ensures
      var before, rest :=
          ParseFrom(reader.packet, old(reader.offset), count), ParseFrom(reader.packet, reader.offset, count - 1);
      if question.None? then before == Failed(reader.offset)
      else !rest.Wild? && before == Before(question.value, rest)
  {
    var p := reader.packet;
    ParseStep(p, reader.offset, count);
    var name := reader.ExtractName();
    if name.None? {
      return None;
    }
    question := Some(Question(name.value, BigEndian(p, reader.offset), BigEndian(p, reader.offset + 2)));
    reader.offset := reader.offset + 4;
  }

  lemma NothingLeft(p: seq<Octet>, off: nat, count: nat)
    requires |p| >= HEADER && (count == 0 || off >= |p| - 4)
    ensures ParseFrom(p, off, count) == Questions([], off)
  {
  }

  lemma FailureStays(done: seq<Question>, at: nat)
    ensures After(done, Failed(at)) == Failed(at)
  {
  }

  /** parse_dns_questions: an unnamed question discards the whole section. */
  method ParseQuestions(reader: Reader, qdcount: nat) returns (questions: Option<seq<Question>>)
    requires |reader.packet| >= HEADER && !ParseFrom(reader.packet, reader.offset, qdcount).Wild?
    modifies reader
    ensures
      var parsed := ParseFrom(reader.packet, old(reader.offset), qdcount);
      && (parsed.Questions? ==> questions == Some(parsed.items) && reader.offset == parsed.end)
      && (parsed.Failed? ==> questions == None && reader.offset == parsed.at)
  {
    hide ParseFrom, After, Before;
    var p, items: seq<Question>, i := reader.packet, [], 0;
    ghost var goal := ParseFrom(p, reader.offset, qdcount);
    NoneMore([], goal);
    while i < qdcount && reader.offset < |p| - 4
      invariant i <= qdcount && !ParseFrom(p, reader.offset, qdcount - i).Wild?
      invariant After(items, ParseFrom(p, reader.offset, qdcount - i)) == goal
    {
      var q := ParseQuestion(reader, qdcount - i);
      if q.None? {
        FailureStays(items, reader.offset);
        return None;
      }
      OneMore(items, q.value, ParseFrom(p, reader.offset, qdcount - i - 1));
      items := items + [q.value];
      i := i + 1;
    }
    NothingLeft(p, reader.offset, qdcount - i);
    NoneMore(items, ParseFrom(p, reader.offset, qdcount - i));
    questions := Some(items);
  }

  datatype Entry = Entry(labels: seq<Label>, qtype: nat, qclass: nat)

  /** At `off` the message holds these questions one after another. */
  predicate QuestionsAt(p: seq<Octet>, off: nat, entries: seq<Entry>, end: nat)
    decreases |entries|
  {
    if entries == [] then end == off
    else
      && NameAt(p, off, entries[0].labels)
      && var e := NameEnd(p, off, entries[0].labels);
      && e + 4 <= |p| && BigEndian(p, e) == entries[0].qtype && BigEndian(p, e + 2) == entries[0].qclass
      && QuestionsAt(p, e + 4, entries[1..], end)
  }

  function Reported(entries: seq<Entry>): (r: seq<Question>)
    ensures |r| == |entries|
  {
    if entries == [] then []
    else [Question(CString(Dotted(entries[0].labels)), entries[0].qtype, entries[0].qclass)] + Reported(entries[1..])
  }

  lemma NameFound(p: seq<Octet>, off: nat, labels: seq<Label>, name: seq<Octet>)
    requires NameAt(p, off, labels) && name == Dotted(labels) && |name| < MAX_LEN
    ensures Walk(p, off) == Found(name, NameEnd(p, off, labels)) && NameEnd(p, off, labels) > off
    ensures name == [] <==> labels == []
  {
    NameTakesRoom(p, off, labels);
    DecodesExactlyIff(p, off, labels);
    OnlyTheRootIsEmpty(p, off, labels);
  }

  lemma ParseFound(p: seq<Octet>, off: nat, count: nat, name: seq<Octet>, cursor: nat)
    requires |p| >= HEADER && count > 0 && off < |p| - 4 && cursor + 4 <= |p| && Walk(p, off) == Found(name, cursor)
    ensures ParseFrom(p, off, count)
         == if name == [] then Failed(cursor)
             else Before(QuestionAt(p, name, cursor), ParseFrom(p, cursor + 4, count - 1))
  {
  }

  lemma QuestionStep(p: seq<Octet>, off: nat, labels: seq<Label>, e: nat, count: nat)
    requires |p| >= HEADER && count > 0 && NameAt(p, off, labels) && |Dotted(labels)| < MAX_LEN
    requires e == NameEnd(p, off, labels) && e + 4 <= |p|
    ensures ParseFrom(p, off, count)
         == if labels == [] then Failed(e) else Before(QuestionAt(p, Dotted(labels), e), ParseFrom(p, e + 4, count - 1))
  {
    NameFound(p, off, labels, Dotted(labels));
    ParseFound(p, off, count, Dotted(labels), e);
  }

  predicate AllNamed(entries: seq<Entry>) {
    forall i :: 0 <= i < |entries| ==> entries[i].labels != []
  }

  predicate AllFit(entries: seq<Entry>) {
    forall i :: 0 <= i < |entries| ==> |Dotted(entries[i].labels)| < MAX_LEN
  }

  lemma FirstAndRest(entries: seq<Entry>)
    requires entries != []
    ensures AllNamed(entries) <==> entries[0].labels != [] && AllNamed(entries[1..])
    ensures AllFit(entries) <==> |Dotted(entries[0].labels)| < MAX_LEN && AllFit(entries[1..])
  {
    assert entries == [entries[0]] + entries[1..];
  }

  lemma FirstQuestion(p: seq<Octet>, off: nat, entries: seq<Entry>, end: nat) returns (next: nat, q: Question)
    requires |p| >= HEADER && QuestionsAt(p, off, entries, end)
    requires entries != [] && |Dotted(entries[0].labels)| < MAX_LEN
    ensures QuestionsAt(p, next, entries[1..], end) && Reported(entries) == [q] + Reported(entries[1..])
    ensures AllFit(entries) <==> AllFit(entries[1..])
    ensures AllNamed(entries) <==> entries[0].labels != [] && AllNamed(entries[1..])
    ensures
      var first := ParseFrom(p, off, |entries|);
      if entries[0].labels == [] then first.Failed? else first == Before(q, ParseFrom(p, next, |entries| - 1))
  {
    hide AllNamed, AllFit, ParseFrom, NameAt, NameEnd, Dotted, CString;
    var labels := entries[0].labels;
    var e := NameEnd(p, off, labels);
    FirstAndRest(entries);
    QuestionStep(p, off, labels, e, |entries|);
    next := e + 4;
    q := Question(CString(Dotted(labels)), entries[0].qtype, entries[0].qclass);
  }

  /** Every question of a section whose names fit is reported, with its name, type and class, exactly
      when none of them asks about the root; otherwise none is. */
  lemma {:induction false} QuestionsDecode(p: seq<Octet>, off: nat, entries: seq<Entry>, end: nat)
    requires |p| >= HEADER && QuestionsAt(p, off, entries, end) && AllFit(entries)
    ensures
      var parsed := ParseFrom(p, off, |entries|);
      if AllNamed(entries) then parsed == Questions(Reported(entries), end) else parsed.Failed?
    decreases |entries|
  {
    if entries != [] {
      hide ParseFrom, QuestionsAt, Reported, AllNamed, AllFit;
      var next, q := FirstQuestion(p, off, entries, end);
      QuestionsDecode(p, next, entries[1..], end);
    }
  }

  /** No label contains a zero octet, at which the C string would end. */
  predicate AllPlain(entries: seq<Entry>) {
    forall i :: 0 <= i < |entries| ==> 0 !in Dotted(entries[i].labels)
  }

  lemma CutNameDiffers(p: seq<Octet>, off: nat, entries: seq<Entry>, end: nat)
    requires |p| >= HEADER && QuestionsAt(p, off, entries, end) && entries != []
    requires AllPlain(entries) && |Dotted(entries[0].labels)| >= MAX_LEN
    ensures ParseFrom(p, off, |entries|) != Questions(Reported(entries), end)
  {
    var labels := entries[0].labels;
    CStringIs(Dotted(labels), Dotted(labels));
    assert |Reported(entries)[0].name| >= MAX_LEN;
  }

  lemma QuestionStaysLost(p: seq<Octet>, off: nat, entries: seq<Entry>, end: nat, next: nat, q: Question)
    requires |p| >= HEADER && entries != [] && Reported(entries) == [q] + Reported(entries[1..])
    requires
      var first := ParseFrom(p, off, |entries|);
      first.Failed? || first == Before(q, ParseFrom(p, next, |entries| - 1))
    requires ParseFrom(p, next, |entries| - 1) != Questions(Reported(entries[1..]), end)
    ensures ParseFrom(p, off, |entries|) != Questions(Reported(entries), end)
  {
    hide ParseFrom, Reported;
    var rest := ParseFrom(p, next, |entries| - 1);
    if rest.Questions? {
      assert ([q] + rest.items)[1..] == rest.items && ([q] + Reported(entries[1..]))[1..] == Reported(entries[1..]);
    }
  }

  /** A section is reported whole, every question with its name, type and class, exactly when none of
      them asks about the root and every name has at most 254 characters. */
  lemma {:induction false} QuestionsDecodeIff(p: seq<Octet>, off: nat, entries: seq<Entry>, end: nat)
    requires |p| >= HEADER && QuestionsAt(p, off, entries, end) && AllPlain(entries)
    ensures ParseFrom(p, off, |entries|) == Questions(Reported(entries), end) <==> AllNamed(entries) && AllFit(entries)
    decreases |entries|
  {
    if entries == [] {
    } else if |Dotted(entries[0].labels)| >= MAX_LEN {
      CutNameDiffers(p, off, entries, end);
    } else {
      hide ParseFrom, QuestionsAt, Reported, AllNamed, AllFit, Dotted;
      var next, q := FirstQuestion(p, off, entries, end);
      assert AllPlain(entries[1..]);
      QuestionsDecodeIff(p, next, entries[1..], end);
      if AllFit(entries) {
        QuestionsDecode(p, off, entries, end);
      } else {
        QuestionStaysLost(p, off, entries, end, next, q);
      }
    }
  }

  // ----- names that are too long

  /** The places behind the names that the decoder reads. */
  ghost function Cursors(p: seq<Octet>, off: nat, count: nat): seq<nat>
    requires |p| >= HEADER
    decreases count
  {
    if count == 0 || off >= |p| - 4 || !Walk(p, off).Found? then []
    else
      var w := Walk(p, off);
      [w.cursor] + if w.name == [] || w.cursor + 4 > |p| then [] else Cursors(p, w.cursor + 4, count - 1)
  }

  /** The places behind the names that stand there. */
  function NameEnds(p: seq<Octet>, off: nat, entries: seq<Entry>, end: nat): seq<nat>
    requires QuestionsAt(p, off, entries, end)
    decreases |entries|
  {
    if entries == [] then []
    else var e := NameEnd(p, off, entries[0].labels); [e] + NameEnds(p, e + 4, entries[1..], end)
  }

  predicate AllKeepPlace(p: seq<Octet>, off: nat, entries: seq<Entry>, end: nat)
    requires QuestionsAt(p, off, entries, end)
    decreases |entries|
  {
    entries == [] ||
    (KeepsPlace(p, off, entries[0].labels)
     && AllKeepPlace(p, NameEnd(p, off, entries[0].labels) + 4, entries[1..], end))
  }

  /** The questions with their names as far as they fit. */
  function ReportedCut(entries: seq<Entry>): (r: seq<Question>)
    ensures |r| == |entries|
  {
    if entries == [] then []
    else
      var q := Question(CString(CutName(entries[0].labels)), entries[0].qtype, entries[0].qclass);
      [q] + ReportedCut(entries[1..])
  }

  /** One question, whatever the length of its name: it takes its type and class from behind the cursor,
      and the next one is read from there. */
  lemma AnyQuestion(p: seq<Octet>, off: nat, entries: seq<Entry>, end: nat) returns (e: nat, cursor: nat)
    requires |p| >= HEADER && QuestionsAt(p, off, entries, end) && entries != []
    ensures NameAt(p, off, entries[0].labels) && e == NameEnd(p, off, entries[0].labels) && cursor <= e && e + 4 <= |p|
    ensures QuestionsAt(p, e + 4, entries[1..], end)
    ensures BigEndian(p, e) == entries[0].qtype && BigEndian(p, e + 2) == entries[0].qclass
    ensures cursor == e <==> KeepsPlace(p, off, entries[0].labels)
    ensures
      var labels, n := entries[0].labels, |entries|;
      if labels == [] then ParseFrom(p, off, n).Failed?
      else
        && ParseFrom(p, off, n) == Before(QuestionAt(p, CutName(labels), cursor), ParseFrom(p, cursor + 4, n - 1))
        && Cursors(p, off, n) == [cursor] + Cursors(p, cursor + 4, n - 1)
  {
    hide NameAt, NameEnd, WalkOn, CutName, KeepsPlace;
    var labels := entries[0].labels;
    e := NameEnd(p, off, labels);
    NameTakesRoom(p, off, labels);
    CursorIsExactIff(p, off, labels);
    WritesWhatFits(p, off, labels);
    OnlyTheRootIsEmpty(p, off, labels);
    cursor := Walk(p, off).cursor;
  }

  lemma NoQuestions(p: seq<Octet>, off: nat, end: nat)
    requires |p| >= HEADER && QuestionsAt(p, off, [], end)
    ensures end == off && ParseFrom(p, off, 0) == Questions([], off) && Cursors(p, off, 0) == []
    ensures NameEnds(p, off, [], end) == [] && AllKeepPlace(p, off, [], end)
    ensures ReportedCut([]) == [] && Reported([]) == []
  {
  }

  /** What stands there, question by question. */
  lemma SectionStep(p: seq<Octet>, off: nat, entries: seq<Entry>, end: nat)
    requires QuestionsAt(p, off, entries, end) && entries != []
    ensures NameAt(p, off, entries[0].labels)
    ensures
      var labels, rest := entries[0].labels, entries[1..];
      var e := NameEnd(p, off, labels);
      && e + 4 <= |p| && QuestionsAt(p, e + 4, rest, end)
      && NameEnds(p, off, entries, end) == [e] + NameEnds(p, e + 4, rest, end)
      && (AllKeepPlace(p, off, entries, end) <==> KeepsPlace(p, off, labels) && AllKeepPlace(p, e + 4, rest, end))
      && (AllNamed(entries) <==> labels != [] && AllNamed(rest))
      && Reported(entries)
         == [Question(CString(Dotted(labels)), entries[0].qtype, entries[0].qclass)] + Reported(rest)
      && ReportedCut(entries)
         == [Question(CString(CutName(labels)), entries[0].qtype, entries[0].qclass)] + ReportedCut(rest)
  {
    hide NameAt, NameEnd, KeepsPlace, CString, CutName, Dotted;
    FirstAndRest(entries);
  }

  lemma Headed<T>(x: T, xs: seq<T>, y: T, ys: seq<T>)
    ensures [x] + xs == [y] + ys <==> x == y && xs == ys
  {
    if [x] + xs == [y] + ys {
      assert ([x] + xs)[0] == ([y] + ys)[0] && ([x] + xs)[1..] == xs && ([y] + ys)[1..] == ys;
    }
  }

  /** The decoder finds every question of a section in its place exactly when every name fits, or has a
      pointer and fits up to there. */
  lemma {:induction false} SectionKeepsPlaceIff(p: seq<Octet>, off: nat, entries: seq<Entry>, end: nat)
    requires |p| >= HEADER && QuestionsAt(p, off, entries, end) && AllNamed(entries)
    ensures Cursors(p, off, |entries|) == NameEnds(p, off, entries, end) <==> AllKeepPlace(p, off, entries, end)
    decreases |entries|
  {
    hide ParseFrom, Cursors, NameEnds, AllKeepPlace, NameAt, NameEnd, KeepsPlace, QuestionsAt, AllNamed, CString;
    hide CutName;
    if entries == [] {
      NoQuestions(p, off, end);
    } else {
      var e, cursor := AnyQuestion(p, off, entries, end);
      SectionStep(p, off, entries, end);
      SectionKeepsPlaceIff(p, e + 4, entries[1..], end);
      Headed(cursor, Cursors(p, cursor + 4, |entries| - 1), e, NameEnds(p, e + 4, entries[1..], end));
    }
  }

  /** Then every question is reported, in its place and with its name as far as it fits, or none is
      because one asks about the root. */
  lemma {:induction false} SectionInPlaceDecodes(p: seq<Octet>, off: nat, entries: seq<Entry>, end: nat)
    requires |p| >= HEADER && QuestionsAt(p, off, entries, end) && AllKeepPlace(p, off, entries, end)
    ensures
      var parsed := ParseFrom(p, off, |entries|);
      if AllNamed(entries) then parsed == Questions(ReportedCut(entries), end) else parsed.Failed?
    decreases |entries|
  {
    hide ParseFrom, Cursors, NameEnds, AllKeepPlace, NameAt, NameEnd, KeepsPlace, QuestionsAt, AllNamed, CString;
    hide CutName;
    hide ReportedCut;
    if entries == [] {
      NoQuestions(p, off, end);
      NoneUnnamed();
    } else {
      var e, cursor := AnyQuestion(p, off, entries, end);
      SectionStep(p, off, entries, end);
      SectionInPlaceDecodes(p, e + 4, entries[1..], end);
    }
  }

  lemma NoneUnnamed()
    ensures AllNamed([]) && AllShown([])
  {
  }

  /** A name comes out whole when it fits, or when what fits already holds the zero octet at which the C
      string ends. */
  predicate Shown(labels: seq<Label>) {
    |Dotted(labels)| < MAX_LEN || 0 in CutName(labels)
  }

  predicate AllShown(entries: seq<Entry>) {
    forall i :: 0 <= i < |entries| ==> Shown(entries[i].labels)
  }

  lemma FirstShown(entries: seq<Entry>)
    requires entries != []
    ensures AllShown(entries) <==> Shown(entries[0].labels) && AllShown(entries[1..])
  {
    hide Shown;
    assert entries == [entries[0]] + entries[1..];
  }

  lemma CStringOfPrefix(a: seq<Octet>, b: seq<Octet>)
    requires a <= b && (|a| < |b| ==> b[|a|] != 0)
    ensures CString(a) == CString(b) <==> a == b || 0 in a
  {
    if 0 in a {
      CStringIs(b, CString(a));
    } else {
      CStringIs(a, a);
    }
  }

  lemma ShownIff(p: seq<Octet>, off: nat, labels: seq<Label>)
    requires NameAt(p, off, labels)
    ensures CString(CutName(labels)) == CString(Dotted(labels)) <==> Shown(labels)
  {
    hide NameAt, CutName, Dotted, CString, WalkOn;
    NamesHaveLabels(p, off, labels);
    WritesWhatFits(p, off, labels);
    CutAtADot(labels);
    CStringOfPrefix(CutName(labels), Dotted(labels));
  }

  /** Over every section: it is reported whole, and every question read in its place, exactly when none asks
      about the root, and every name keeps its place and is shown whole. */
  lemma {:induction false} SectionDecodesIff(p: seq<Octet>, off: nat, entries: seq<Entry>, end: nat)
    requires |p| >= HEADER && QuestionsAt(p, off, entries, end)
    ensures
      && ParseFrom(p, off, |entries|) == Questions(Reported(entries), end)
      && Cursors(p, off, |entries|) == NameEnds(p, off, entries, end)
      <==> AllNamed(entries) && AllKeepPlace(p, off, entries, end) && AllShown(entries)
    decreases |entries|
  {
    hide ParseFrom, Cursors, NameEnds, AllKeepPlace, NameAt, NameEnd, KeepsPlace, QuestionsAt, AllNamed, CString;
    hide CutName;
    hide Reported, ReportedCut, AllShown, Shown, Dotted;
    NoneUnnamed();
    if entries == [] {
      NoQuestions(p, off, end);
    } else {
      var labels, rest := entries[0].labels, entries[1..];
      var e, cursor := AnyQuestion(p, off, entries, end);
      SectionStep(p, off, entries, end);
      FirstShown(entries);
      ShownIff(p, off, labels);
      SectionDecodesIff(p, e + 4, rest, end);
      Headed(cursor, Cursors(p, cursor + 4, |rest|), e, NameEnds(p, e + 4, rest, end));
      var parsed := ParseFrom(p, cursor + 4, |rest|);
      if labels != [] && parsed.Questions? {
        Headed(QuestionAt(p, CutName(labels), cursor), parsed.items,
               Question(CString(Dotted(labels)), entries[0].qtype, entries[0].qclass), Reported(rest));
      }
    }
  }

  /** One question about the root discards the whole section, read so far or not. */
  lemma RootQuestionDiscards(p: seq<Octet>, off: nat, count: nat)
    requires |p| >= HEADER && count > 0 && off < |p| - 4 && p[off] == 0
    ensures ParseFrom(p, off, count) == Failed(off + 1)
  {
    assert WalkOn(p, off, [], {}) == Found([], off + 1);
  }
}
