/** The part of a filter that is handed to the packet capture, and why that never changes which
    packets pass the full filter. */
module BpfPushdown {
  import opened Values
  import opened Text
  import opened FilterEngine

  /** One capture predicate. */
  datatype Atom =
    | DstPort(port: int) | SrcPort(port: int) | Protocol(name: string) | SrcHost(host: string) | DstHost(host: string)

  /** Conversion of a double to int drops the fraction. */
  function Truncated(r: real): int {
    if r >= 0.0 then r.Floor else -((-r).Floor)
  }

  function PortOf(value: FilterValue): Option<int> {
    match value
    case VInt(i) => Some(i)
    case VReal(r) => Some(Truncated(r))
    case _ => None
  }

  /** extract_bpf_from_expr: the predicate of a leaf, if it can be pushed down. */
  function AtomOf(field: string, op: FilterOp, value: FilterValue): Option<Atom> {
    if op != Eq then None
    else if field == "network.dst_port" then if PortOf(value).Some? then Some(DstPort(PortOf(value).value)) else None
    else if field == "network.src_port" then if PortOf(value).Some? then Some(SrcPort(PortOf(value).value)) else None
    else if !value.VString? then None
    else if field == "network.protocol" then if value.s in {"tcp", "udp", "icmp"} then Some(Protocol(value.s)) else None
    else if field == "network.src_ip" then Some(SrcHost(value.s))
    else if field == "network.dst_ip" then Some(DstHost(value.s))
    else None
  }

  function AtomText(a: Atom): string {
    match a
    case DstPort(n) => "dst port " + IntText(n)
    case SrcPort(n) => "src port " + IntText(n)
    case Protocol(s) => s
    case SrcHost(s) => "src host " + s
    case DstHost(s) => "dst host " + s
  }

  /** The predicates reachable through ANDs only, left to right. */
  function Atoms(node: FilterNode): seq<Atom> {
    match node
    case And(l, r) => Atoms(l) + Atoms(r)
    case Leaf(field, op, value) => LeafAtoms(AtomOf(field, op, value))
    case _ => []
  }

  function LeafAtoms(atom: Option<Atom>): seq<Atom> {
    if atom.Some? then [atom.value] else []
  }

  // ----- meaning

  /** What the capture filter can see of a packet. */
  datatype Packet = Packet(protocol: string, srcIp: string, dstIp: string, srcPort: Option<int>, dstPort: Option<int>)

  predicate AtomAccepts(a: Atom, p: Packet) {
    match a
    case DstPort(n) => p.dstPort == Some(n)
    case SrcPort(n) => p.srcPort == Some(n)
    case Protocol(s) => p.protocol == s
    case SrcHost(s) => p.srcIp == s
    case DstHost(s) => p.dstIp == s
  }

  predicate Captures(atoms: seq<Atom>, p: Packet) {
    forall i :: 0 <= i < |atoms| ==> AtomAccepts(atoms[i], p)
  }

  predicate PortField(data: Json, field: string, port: Option<int>)
    requires data.JObject?
  {
    field in data.fields ==> port.Some? && data.fields[field] == JInt(port.value)
  }

  predicate TextField(data: Json, field: string, text: string)
    requires data.JObject?
  {
    field in data.fields ==> data.fields[field] == JString(text)
  }

  /** The network fields an event has, if any, are those of its packet. */
  predicate Mirrors(data: Json, p: Packet) {
    && data.JObject?
    && PortField(data, "network.dst_port", p.dstPort) && PortField(data, "network.src_port", p.srcPort)
    && TextField(data, "network.protocol", p.protocol)
    && TextField(data, "network.src_ip", p.srcIp) && TextField(data, "network.dst_ip", p.dstIp)
  }

  lemma LeafImpliesAtom(re: RegexEngine, field: string, op: FilterOp, value: FilterValue, data: Json, p: Packet)
    requires Mirrors(data, p) && AtomOf(field, op, value).Some? && EvaluateLeaf(re, field, op, value, data)
    ensures AtomAccepts(AtomOf(field, op, value).value, p)
  {
  }

  /** A packet whose event passes the filter passes the capture filter. */
  lemma {:induction false} FilterImpliesCapture(re: RegexEngine, node: FilterNode, data: Json, p: Packet)
    requires Mirrors(data, p) && Evaluate(re, node, data)
    ensures Captures(Atoms(node), p)
  {
    match node
    case And(l, r) =>
      FilterImpliesCapture(re, l, data, p);
      FilterImpliesCapture(re, r, data, p);
    case Leaf(field, op, value) =>
      if AtomOf(field, op, value).Some? {
        LeafImpliesAtom(re, field, op, value, data, p);
      }
    case _ =>
  }

  type Captured = (Packet, Event)

  function Capture(atoms: seq<Atom>, stream: seq<Captured>): seq<Captured> {
    if stream == [] then []
    else (if Captures(atoms, stream[0].0) then [stream[0]] else []) + Capture(atoms, stream[1..])
  }

  function FilterEvents(re: RegexEngine, node: FilterNode, stream: seq<Captured>): seq<Captured> {
    if stream == [] then []
    else (if Matches(re, node, stream[0].1) then [stream[0]] else []) + FilterEvents(re, node, stream[1..])
  }

  /** Capturing with the pushed-down conjunction and then applying the whole filter gives the same
      events as applying the whole filter to everything. */
  lemma {:induction false} PushdownPreservesMeaning(re: RegexEngine, node: FilterNode, stream: seq<Captured>)
    requires forall i :: 0 <= i < |stream| && stream[i].1.data.Some? ==> Mirrors(stream[i].1.data.value, stream[i].0)
    ensures FilterEvents(re, node, Capture(Atoms(node), stream)) == FilterEvents(re, node, stream)
  {
    hide Mirrors, Atoms, Captures;
    if stream != [] {
      PushdownPreservesMeaning(re, node, stream[1..]);
      var rest := Capture(Atoms(node), stream[1..]);
      assert ([stream[0]] + rest)[1..] == rest;
      if Matches(re, node, stream[0].1) {
        FilterImpliesCapture(re, node, stream[0].1.data.value, stream[0].0);
      }
      assert [] + rest == rest;
    }
  }

  // ----- the text

  const TEMP_ROOM: nat := 511
  const BUFFER_ROOM: nat := 1023

  function AndJoin(pieces: seq<string>): string {
    if pieces == [] then ""
    else if |pieces| == 1 then pieces[0]
    else AndJoin(pieces[..|pieces| - 1]) + " and " + pieces[|pieces| - 1]
  }

  function Texts(atoms: seq<Atom>): (r: seq<string>)
    ensures |r| == |atoms|
  {
    seq(|atoms|, i requires 0 <= i < |atoms| => AtomText(atoms[i]))
  }

  function ClipEach(pieces: seq<string>, room: nat): (r: seq<string>)
    ensures |r| == |pieces|
  {
    seq(|pieces|, i requires 0 <= i < |pieces| => Clip(pieces[i], room))
  }

  /** The buffer after the given predicates were appended. */
  function Buffered(atoms: seq<Atom>): string {
    Clip(AndJoin(ClipEach(Texts(atoms), TEMP_ROOM)), BUFFER_ROOM)
  }

  lemma BufferedAppend(atoms: seq<Atom>, a: Atom)
    ensures Buffered(atoms + [a])
         == if atoms == [] then Clip(Clip(AtomText(a), TEMP_ROOM), BUFFER_ROOM)
            else Buffered(atoms) + Clip(" and " + Clip(AtomText(a), TEMP_ROOM), BUFFER_ROOM - |Buffered(atoms)|)
  {
    var all := ClipEach(Texts(atoms + [a]), TEMP_ROOM);
    var before := ClipEach(Texts(atoms), TEMP_ROOM);
    assert all[..|all| - 1] == before;
    if atoms != [] {
      AppendClipped(AndJoin(before), " and " + Clip(AtomText(a), TEMP_ROOM), BUFFER_ROOM);
      assert AndJoin(before) + " and " + Clip(AtomText(a), TEMP_ROOM)
          == AndJoin(before) + (" and " + Clip(AtomText(a), TEMP_ROOM));
    }
  }

  /** Appending into the room that is left is the same as clipping the whole. */
  lemma AppendClipped(a: string, b: string, room: nat)
    ensures Clip(a, room) + Clip(b, room - |Clip(a, room)|) == Clip(a + b, room)
  {
  }

  lemma Regrouped(a: seq<Atom>, b: seq<Atom>, c: seq<Atom>)
    ensures a + b + c == a + (b + c) && a + [] == a
  {
  }

  class BpfBuffer {
    var text: string
    var hasContent: bool
    ghost var pushed: seq<Atom>

    ghost predicate Valid()
      reads this
    {
      text == Buffered(pushed) && hasContent == (pushed != [])
    }

    constructor ()
      ensures Valid() && pushed == []
    {
      text, hasContent, pushed := "", false, [];
    }

    /** One predicate is appended in place, with a separator once there is content. */
    method Append(atom: Atom)
      requires Valid()
      modifies this
      ensures Valid() && pushed == old(pushed) + [atom]
    {
      BufferedAppend(pushed, atom);
      var temp := Clip(AtomText(atom), TEMP_ROOM);
      if hasContent {
        text := text + Clip(" and " + temp, BUFFER_ROOM - |text|);
      } else {
        text := Clip(temp, BUFFER_ROOM);
        hasContent := true;
      }
      pushed := pushed + [atom];
    }

    method ExtractLeaf(atom: Option<Atom>)
      requires Valid()
      modifies this
      ensures Valid() && pushed == old(pushed) + LeafAtoms(atom)
    {
      if atom.Some? {
        Append(atom.value);
      }
    }

    /** extract_bpf_recursive */
    method Extract(node: FilterNode)
      requires Valid()
      modifies this
      ensures Valid() && pushed == old(pushed) + Atoms(node)
    {
      match node {
        case And(l, r) =>
          Regrouped(pushed, Atoms(l), Atoms(r));
          Extract(l);
          Extract(r);
        case Leaf(field, op, value) =>
          ExtractLeaf(AtomOf(field, op, value));
        case _ =>
          Regrouped(pushed, [], []);
      }
    }
  }

  /** What nblex_filter_to_bpf returns. */
  function BpfText(node: FilterNode): Option<string> {
    if Atoms(node) == [] then None else Some(Buffered(Atoms(node)))
  }

  /** nblex_filter_to_bpf */
  method FilterToBpf(root: FilterNode) returns (bpf: Option<string>)
    ensures bpf == BpfText(root)
  {
    var buffer := new BpfBuffer();
    buffer.Extract(root);
    assert [] + Atoms(root) == Atoms(root);
    bpf := if buffer.hasContent then Some(buffer.text) else None;
  }

  predicate EachFits(atoms: seq<Atom>) {
    forall i :: 0 <= i < |atoms| ==> |AtomText(atoms[i])| <= TEMP_ROOM
  }

  lemma JoinLosesTextUnlessEachFits(atoms: seq<Atom>)
    ensures EachFits(atoms) ==> ClipEach(Texts(atoms), TEMP_ROOM) == Texts(atoms)
    ensures !EachFits(atoms) ==> |AndJoin(ClipEach(Texts(atoms), TEMP_ROOM))| < |AndJoin(Texts(atoms))|
  {
    ClippingShortens(Texts(atoms), TEMP_ROOM);
    if !EachFits(atoms) {
      var i :| 0 <= i < |atoms| && |AtomText(atoms[i])| > TEMP_ROOM;
      assert |Texts(atoms)[i]| > TEMP_ROOM;
    }
  }

  /** The buffer holds the " and "-join of the reachable predicates exactly when everything fits. */
  lemma TextIsTheJoinIff(atoms: seq<Atom>)
    ensures Buffered(atoms) == AndJoin(Texts(atoms)) <==> |AndJoin(Texts(atoms))| <= BUFFER_ROOM && EachFits(atoms)
  {
    JoinLosesTextUnlessEachFits(atoms);
    var whole := AndJoin(Texts(atoms));
    var joined := AndJoin(ClipEach(Texts(atoms), TEMP_ROOM));
    assert |Clip(joined, BUFFER_ROOM)| <= |joined|;
  }

  lemma {:induction false} ClippingShortens(pieces: seq<string>, room: nat)
    ensures |AndJoin(ClipEach(pieces, room))| <= |AndJoin(pieces)|
    ensures (exists i :: 0 <= i < |pieces| && |pieces[i]| > room)
        ==> |AndJoin(ClipEach(pieces, room))| < |AndJoin(pieces)|
  {
    if |pieces| > 1 {
      var init := pieces[..|pieces| - 1];
      ClippingShortens(init, room);
      assert ClipEach(pieces, room)[..|init|] == ClipEach(init, room);
      if exists i :: 0 <= i < |pieces| && |pieces[i]| > room {
        var i :| 0 <= i < |pieces| && |pieces[i]| > room;
        assert i < |init| ==> init[i] == pieces[i];
      }
    }
  }

  // ----- capturing with the text itself

  /** The packet capture library: which packets a capture text lets through. */
  type CaptureEngine = (string, Packet) -> bool

  /** The library reads an " and "-join of predicates as their conjunction. */
  ghost predicate Understands(engine: CaptureEngine, atoms: seq<Atom>) {
    forall p: Packet :: engine(AndJoin(Texts(atoms)), p) == Captures(atoms, p)
  }

  /** Without a text everything is captured. */
  function CaptureWith(engine: CaptureEngine, bpf: Option<string>, stream: seq<Captured>): seq<Captured> {
    if stream == [] then []
    else
      var rest := CaptureWith(engine, bpf, stream[1..]);
      if bpf == None || engine(bpf.value, stream[0].0) then [stream[0]] + rest else rest
  }

  lemma {:induction false} TextCaptures(engine: CaptureEngine, node: FilterNode, stream: seq<Captured>)
    requires Understands(engine, Atoms(node)) && Buffered(Atoms(node)) == AndJoin(Texts(Atoms(node)))
    ensures CaptureWith(engine, BpfText(node), stream) == Capture(Atoms(node), stream)
  {
    hide Buffered, AndJoin, Texts;
    if stream != [] {
      TextCaptures(engine, node, stream[1..]);
    }
  }

  /** Pushdown with the text that is handed over: as long as the text fits the buffers, capturing with it
      and then filtering gives the same events as filtering everything. */
  lemma TextPushdownPreservesMeaning(re: RegexEngine, engine: CaptureEngine, node: FilterNode, stream: seq<Captured>)
    requires forall i :: 0 <= i < |stream| && stream[i].1.data.Some? ==> Mirrors(stream[i].1.data.value, stream[i].0)
    requires Understands(engine, Atoms(node))
    requires |AndJoin(Texts(Atoms(node)))| <= BUFFER_ROOM && EachFits(Atoms(node))
    ensures FilterEvents(re, node, CaptureWith(engine, BpfText(node), stream)) == FilterEvents(re, node, stream)
  {
    hide Mirrors, Understands, FilterEvents, Capture, CaptureWith, Buffered, AndJoin, Texts;
    TextIsTheJoinIff(Atoms(node));
    TextCaptures(engine, node, stream);
    PushdownPreservesMeaning(re, node, stream);
  }
}
