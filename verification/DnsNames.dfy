/** Compressed domain names in DNS messages: the decoder's walk over the packet, the wire format of
    section 4.1.4 of RFC 1035. */
module DnsNames {
  import opened Values

  newtype Octet = x: int | 0 <= x < 256
  type Label = seq<Octet>

  const HEADER: nat := 12
  const NAME_SIZE: nat := 256
  const MAX_LEN: nat := 255

  // ----- the wire format

  /** The fourteen bits after the two that mark a pointer. */
  function Target(p: seq<Octet>, off: nat): nat
    requires off + 1 < |p| && p[off] >= 192
  {
    256 * (p[off] as int - 192) + p[off + 1] as int
  }

  /** `len` octets of the message. */
  function Octets(p: seq<Octet>, off: nat, len: nat): (r: seq<Octet>)
    requires off + len <= |p|
    ensures |r| == len && forall i :: 0 <= i < len ==> r[i] == p[off + i]
  {
    seq(len, i requires 0 <= i < len => p[off + i])
  }

  /** At `off` the message holds the name with these labels: labels of at most 63 octets, closed by
      a zero octet or continued at a pointer to an earlier place. */
  predicate NameAt(p: seq<Octet>, off: nat, labels: seq<Label>)
    decreases |labels|, off
  {
    off < |p| &&
    if p[off] == 0 then labels == []
    else if p[off] >= 192 then off + 1 < |p| && Target(p, off) < off && NameAt(p, Target(p, off), labels)
    else
      && p[off] <= 63 && off + 1 + p[off] as nat <= |p|
      && labels != [] && labels[0] == Octets(p, off + 1, p[off] as nat)
          && NameAt(p, off + 1 + p[off] as nat, labels[1..])
  }

  /** Where the name at `off` ends: just past its zero octet or its first pointer. */
  function NameEnd(p: seq<Octet>, off: nat, labels: seq<Label>): nat
    requires NameAt(p, off, labels)
    decreases |labels|
  {
    if p[off] == 0 then off + 1
    else if p[off] >= 192 then off + 2
    else NameEnd(p, off + 1 + p[off] as nat, labels[1..])
  }

  function Dotted(labels: seq<Label>): seq<Octet> {
    if labels == [] then []
    else if |labels| == 1 then labels[0]
    else Dotted(labels[..|labels| - 1]) + ['.' as Octet] + labels[|labels| - 1]
  }

  /** The octets of a name that is not compressed. */
  function Wire(labels: seq<Label>): seq<Octet>
    requires Encodable(labels)
  {
    Prefix(labels) + [0]
  }

  function Prefix(labels: seq<Label>): seq<Octet>
    requires Encodable(labels)
  {
    if labels == [] then [] else [|labels[0]| as Octet] + labels[0] + Prefix(labels[1..])
  }

  predicate Encodable(labels: seq<Label>) {
    forall i :: 0 <= i < |labels| ==> 1 <= |labels[i]| <= 63
  }

  // ----- the decoder's walk

  /** What the decoder does at `off` once `n` octets of the name are written. It goes astray when it
      would read past the packet. */
  datatype Move = Stop(at: nat) | Jump(to: nat, after: nat) | Copy(piece: Label, after: nat) | Astray

  function Next(p: seq<Octet>, off: nat, n: nat): (m: Move)
    ensures m.Jump? ==> off < |p| && p[off] >= 192
    ensures m.Copy? ==> m.piece != [] && n + |m.piece| + 1 < MAX_LEN && m.after <= |p|
  {
    if off >= |p| then Stop(off)
    else if p[off] == 0 then Stop(off + 1)
    else if p[off] >= 192 then
      if off + 1 < |p| then Jump(Target(p, off), off + 2) else Astray
    else if n + p[off] as nat + 1 >= MAX_LEN then Stop(off + 1)
    else if off + 1 + p[off] as nat <= |p| then Copy(Octets(p, off + 1, p[off] as nat), off + 1 + p[off] as nat)
    else Astray
  }

  function Extended(name: seq<Octet>, piece: Label): (r: seq<Octet>)
    ensures |r| == Grown(|name|, |piece|)
  {
    if name == [] then piece else name + ['.' as Octet] + piece
  }

  function Grown(n: nat, len: nat): nat {
    if n == 0 then len else n + 1 + len
  }

  ghost function Pointers(p: seq<Octet>): set<nat> {
    set at: nat | at < |p| && p[at] >= 192
  }

  /** How a walk ends: outside the packet, never, or with the octets written and the place the cursor
      is left at. */
  datatype Outcome = Lost | Endless | Found(name: seq<Octet>, cursor: nat)

  /** The whole walk: the cursor is put back behind the first pointer. `seen` holds the pointers met
      since the last label was copied; at one of them again the walk goes round for ever. */
  ghost function WalkOn(p: seq<Octet>, off: nat, name: seq<Octet>, seen: set<nat>): (r: Outcome)
    requires |name| < MAX_LEN
    ensures r.Found? ==> |r.name| < MAX_LEN
    decreases MAX_LEN - |name|, Pointers(p) - seen
  {
    match Next(p, off, |name|)
    case Astray => Lost
    case Stop(at) => Found(name, at)
    case Jump(to, after) =>
      if off in seen then Endless
      else var w := WalkOn(p, to, name, seen + {off}); if w.Found? then Found(w.name, after) else w
    case Copy(piece, after) => WalkOn(p, after, Extended(name, piece), {})
  }

  ghost function Walk(p: seq<Octet>, off: nat): (r: Outcome)
    ensures r.Found? ==> |r.name| < MAX_LEN
  {
    WalkOn(p, off, [], {})
  }

  lemma WalkStep(p: seq<Octet>, off: nat, name: seq<Octet>, seen: set<nat>)
    requires |name| < MAX_LEN && WalkOn(p, off, name, seen).Found?
    ensures
      var m, w := Next(p, off, |name|), WalkOn(p, off, name, seen);
      && !m.Astray?
      && (m.Stop? ==> w == Found(name, m.at))
      && (m.Jump? ==>
            var v := WalkOn(p, m.to, name, seen + {off});
            off !in seen && v.Found? && v.name == w.name && w.cursor == m.after)
      && (m.Copy? ==> WalkOn(p, m.after, Extended(name, m.piece), {}) == w)
  {
  }

  /** The loop takes at least `turns` more turns. */
  predicate Runs(p: seq<Octet>, off: nat, n: nat, turns: nat)
    decreases turns
  {
    if turns == 0 then true
    else
      match Next(p, off, n)
      case Astray => false
      case Stop(_) => false
      case Jump(to, _) => Runs(p, to, n, turns - 1)
      case Copy(piece, after) => Runs(p, after, Grown(n, |piece|), turns - 1)
  }

  /** Whoever stands at a place of `seen` has longer to go than whoever stands at `off`. */
  ghost predicate Behind(p: seq<Octet>, off: nat, n: nat, seen: set<nat>) {
    forall s, turns: nat :: s in seen && Runs(p, off, n, turns) ==> Runs(p, s, n, turns + 1)
  }

  lemma {:induction false} FewerTurns(p: seq<Octet>, off: nat, n: nat, turns: nat)
    requires Runs(p, off, n, turns + 1)
    ensures Runs(p, off, n, turns)
    decreases turns
  {
    if turns > 0 {
      match Next(p, off, n)
      case Jump(to, _) => FewerTurns(p, to, n, turns - 1);
      case Copy(piece, after) => FewerTurns(p, after, Grown(n, |piece|), turns - 1);
    }
  }

  lemma {:induction false} BehindItself(p: seq<Octet>, off: nat, n: nat, seen: set<nat>, turns: nat)
    requires Behind(p, off, n, seen) && off in seen
    ensures Runs(p, off, n, turns)
    decreases turns
  {
    if turns > 0 {
      BehindItself(p, off, n, seen, turns - 1);
    }
  }

  lemma JumpStaysBehind(p: seq<Octet>, off: nat, n: nat, seen: set<nat>)
    requires Behind(p, off, n, seen) && Next(p, off, n).Jump?
    ensures Behind(p, Next(p, off, n).to, n, seen + {off})
  {
    var to := Next(p, off, n).to;
    forall s, turns: nat | s in seen + {off} && Runs(p, to, n, turns) ensures Runs(p, s, n, turns + 1) {
      assert Runs(p, off, n, turns + 1);
      if s in seen {
        assert Runs(p, s, n, turns + 1 + 1);
        FewerTurns(p, s, n, turns + 1);
      }
    }
  }

  lemma {:induction false} EndlessRuns(p: seq<Octet>, off: nat, name: seq<Octet>, seen: set<nat>, turns: nat)
    requires |name| < MAX_LEN && WalkOn(p, off, name, seen).Endless? && Behind(p, off, |name|, seen)
    ensures Runs(p, off, |name|, turns)
    decreases turns
  {
    if turns > 0 {
      match Next(p, off, |name|)
      case Jump(to, _) =>
        if off in seen {
          BehindItself(p, off, |name|, seen, turns);
        } else {
          JumpStaysBehind(p, off, |name|, seen);
          EndlessRuns(p, to, name, seen + {off}, turns - 1);
        }
      case Copy(piece, after) => EndlessRuns(p, after, Extended(name, piece), {}, turns - 1);
    }
  }

  lemma {:induction false} OthersEnd(p: seq<Octet>, off: nat, name: seq<Octet>, seen: set<nat>) returns (turns: nat)
    requires |name| < MAX_LEN && !WalkOn(p, off, name, seen).Endless?
    ensures !Runs(p, off, |name|, turns)
    decreases MAX_LEN - |name|, Pointers(p) - seen
  {
    var rest := 0;
    match Next(p, off, |name|) {
      case Jump(to, _) => rest := OthersEnd(p, to, name, seen + {off});
      case Copy(piece, after) => rest := OthersEnd(p, after, Extended(name, piece), {});
      case _ =>
    }
    turns := rest + 1;
  }

  /** The decoder runs for ever exactly when it comes to the same pointer twice with no label copied
      in between. */
  lemma LoopsForeverIff(p: seq<Octet>, off: nat)
    ensures Walk(p, off).Endless? <==> forall turns: nat :: Runs(p, off, 0, turns)
  {
    if Walk(p, off).Endless? {
      forall turns: nat ensures Runs(p, off, 0, turns) {
        EndlessRuns(p, off, [], {}, turns);
      }
    } else {
      var turns := OthersEnd(p, off, [], {});
    }
  }

  /** Pointers that all lead strictly back cannot do that, whatever octets they stand among. */
  lemma {:induction false} BackwardPointersEnd(p: seq<Octet>, off: nat, name: seq<Octet>, seen: set<nat>)
    requires |name| < MAX_LEN && forall s :: s in seen ==> s > off
    requires forall at: nat :: at + 1 < |p| && p[at] >= 192 ==> Target(p, at) < at
    ensures !WalkOn(p, off, name, seen).Endless?
    decreases MAX_LEN - |name|, off
  {
    match Next(p, off, |name|)
    case Jump(to, _) => BackwardPointersEnd(p, to, name, seen + {off});
    case Copy(piece, after) => BackwardPointersEnd(p, after, Extended(name, piece), {});
    case _ =>
  }

  /** A C string ends at its first zero. */
  function CString(s: seq<Octet>): (r: seq<Octet>)
    ensures r <= s && 0 !in r && (|r| < |s| ==> s[|r|] == 0)
  {
    if s == [] || s[0] == 0 then [] else [s[0]] + CString(s[1..])
  }

  lemma CStringIs(s: seq<Octet>, r: seq<Octet>)
    requires r <= s && 0 !in r && (|r| < |s| ==> s[|r|] == 0)
    ensures CString(s) == r
  {
  }

  /** The name buffer and the write pointer into it. */
  ghost predicate Holds(buffer: array<Octet>, n: nat, name: seq<Octet>)
    reads buffer
  {
    && buffer.Length == NAME_SIZE && n == |name| < MAX_LEN && buffer[..n] == name
    && forall i :: n <= i < NAME_SIZE ==> buffer[i] == 0
  }

  method AppendLabel(buffer: array<Octet>, n: nat, piece: Label, ghost name: seq<Octet>) returns (m: nat)
    requires Holds(buffer, n, name) && piece != [] && n + |piece| + 1 < MAX_LEN
    modifies buffer
    ensures Holds(buffer, m, Extended(name, piece))
  {
    m := n;
    if m != 0 {
      buffer[m] := '.' as Octet;
      m := m + 1;
    }
    forall i | 0 <= i < |piece| {
      buffer[m + i] := piece[i];
    }
    m := m + |piece|;
  }

  method CopyString(buffer: array<Octet>, n: nat) returns (text: seq<Octet>)
    requires n < buffer.Length && forall i :: n <= i < buffer.Length ==> buffer[i] == 0
    ensures text == CString(buffer[..n])
  {
    var k := 0;
    while buffer[k] != 0
      invariant k <= n && forall i :: 0 <= i < k ==> buffer[i] != 0
      decreases n - k
    {
      k := k + 1;
    }
    text := buffer[..k];
    CStringIs(buffer[..n], text);
  }

  class Reader {
    const packet: seq<Octet>
    var offset: nat

    constructor (packet: seq<Octet>, offset: nat)
      ensures this.packet == packet && this.offset == offset
    {
      this.packet, this.offset := packet, offset;
    }

    /** One turn of the loop in extract_dns_name. */
    method Step(buffer: array<Octet>, n: nat, jumped: bool, jumpOffset: nat, ghost name: seq<Octet>)
      returns (more: bool, m: nat, jumpedNow: bool, jumpOffsetNow: nat, ghost nameNow: seq<Octet>)
      requires offset < |packet| && Holds(buffer, n, name) && !Next(packet, offset, n).Astray?
      modifies this, buffer
      ensures
        var move := Next(packet, old(offset), n);
        && Holds(buffer, m, nameNow)
        && more == !move.Stop?
        && (move.Stop? ==> offset == move.at && nameNow == name && jumpedNow == jumped && jumpOffsetNow == jumpOffset)
        && (move.Jump? ==>
              && offset == move.to && nameNow == name
              && jumpedNow && jumpOffsetNow == if jumped then jumpOffset else move.after)
        && (move.Copy? ==>
              && offset == move.after && nameNow == Extended(name, move.piece)
              && jumpedNow == jumped && jumpOffsetNow == jumpOffset)
    {
      more, m, jumpedNow, jumpOffsetNow, nameNow := true, n, jumped, jumpOffset, name;
      var len := packet[offset] as nat;
      offset := offset + 1;
      if len == 0 {
        more := false;
      } else if len >= 192 {
        if !jumped {
          jumpOffsetNow := offset + 1;
          jumpedNow := true;
        }
        offset := Target(packet, offset - 1);
      } else if n + len + 1 >= MAX_LEN {
        more := false;
      } else {
        nameNow := Extended(name, Octets(packet, offset, len));
        m := AppendLabel(buffer, n, Octets(packet, offset, len), name);
        offset := offset + len;
      }
    }

    /** extract_dns_name: the labels go into a fixed buffer, the cursor follows pointers and is put
        back behind the first one. There is no name when nothing was written. */
    method ExtractName() returns (name: Option<seq<Octet>>)
      requires Walk(packet, offset).Found?
      modifies this
      ensures
        var walk := Walk(packet, old(offset));
        && offset == walk.cursor
        && name == if walk.name == [] then None else Some(CString(walk.name))
    {
      var buffer := new Octet[NAME_SIZE](i => 0);
      var n: nat, jumped, jumpOffset: nat, more := 0, false, 0, true;
      ghost var text: seq<Octet>, seen: set<nat>, goal := [], {}, Walk(packet, offset);
      while more && offset < |packet|
        invariant Holds(buffer, n, text)
        invariant more ==> var w := WalkOn(packet, offset, text, seen);
                           w.Found? && w.name == goal.name && (if jumped then jumpOffset else w.cursor) == goal.cursor
        invariant !more ==> text == goal.name && (if jumped then jumpOffset else offset) == goal.cursor
        decreases more, MAX_LEN - n, Pointers(packet) - seen
      {
        WalkStep(packet, offset, text, seen);
        seen := if Next(packet, offset, n).Jump? then seen + {offset} else {};
        more, n, jumped, jumpOffset, text := Step(buffer, n, jumped, jumpOffset, text);
      }
      if jumped {
        offset := jumpOffset;
      }
      if n > 0 {
        var copy := CopyString(buffer, n);
        name := Some(copy);
      } else {
        name := None;
      }
    }
  }

  // ----- decoding a well-formed name

  predicate Nonempty(labels: seq<Label>) {
    forall i :: 0 <= i < |labels| ==> labels[i] != []
  }

  lemma DottedExtends(labels: seq<Label>, piece: Label)
    requires Nonempty(labels) && piece != []
    ensures Dotted(labels + [piece]) == Extended(Dotted(labels), piece)
    ensures labels != [] ==> Dotted(labels) != []
  {
    assert (labels + [piece])[..|labels|] == labels;
  }

  lemma {:induction false} DottedIsMonotone(labels: seq<Label>, k: nat)
    requires Nonempty(labels) && k <= |labels|
    ensures |Dotted(labels[..k])| <= |Dotted(labels)|
  {
    if k == |labels| {
      assert labels[..k] == labels;
    } else {
      var init := labels[..|labels| - 1];
      DottedIsMonotone(init, k);
      assert init[..k] == labels[..k];
      DottedExtends(init, labels[|labels| - 1]);
      assert init + [labels[|labels| - 1]] == labels;
    }
  }

  lemma {:induction false} NamesHaveLabels(p: seq<Octet>, off: nat, labels: seq<Label>)
    requires NameAt(p, off, labels)
    ensures Encodable(labels)
    decreases |labels|, off
  {
    if p[off] >= 192 {
      NamesHaveLabels(p, Target(p, off), labels);
    } else if p[off] != 0 {
      NamesHaveLabels(p, off + 1 + p[off] as nat, labels[1..]);
      assert labels == [labels[0]] + labels[1..];
    }
  }

  /** A message holds at most one name at a place. */
  lemma {:induction false} NameIsUnique(p: seq<Octet>, off: nat, a: seq<Label>, b: seq<Label>)
    requires NameAt(p, off, a) && NameAt(p, off, b)
    ensures a == b
    decreases |a|, off
  {
    if p[off] >= 192 {
      NameIsUnique(p, Target(p, off), a, b);
    } else if p[off] != 0 {
      NameIsUnique(p, off + 1 + p[off] as nat, a[1..], b[1..]);
      assert a == [a[0]] + a[1..] && b == [b[0]] + b[1..];
    }
  }

  lemma LabelHere(p: seq<Octet>, off: nat, labels: seq<Label>)
    requires NameAt(p, off, labels) && 0 < p[off] < 192
    ensures labels != [] && 0 < |labels[0]| == p[off] as nat <= 63 && off + 1 + p[off] as nat <= |p|
    ensures labels[0] == Octets(p, off + 1, p[off] as nat)
    ensures NameAt(p, off + 1 + p[off] as nat, labels[1..])
    ensures NameEnd(p, off, labels) == NameEnd(p, off + 1 + p[off] as nat, labels[1..])
  {
  }

  lemma Splice(done: seq<Label>, labels: seq<Label>, k: nat)
    requires k < |labels|
    ensures done + [labels[0]] + labels[1..][..k] == done + labels[..k + 1]
  {
  }

  lemma WalkCopies(p: seq<Octet>, off: nat, name: seq<Octet>, seen: set<nat>, piece: Label)
    requires off < |p| && 0 < p[off] < 192 && off + 1 + p[off] as nat <= |p| && |name| < MAX_LEN
    requires piece == Octets(p, off + 1, p[off] as nat)
    ensures
      if |name| + |piece| + 1 >= MAX_LEN then WalkOn(p, off, name, seen) == Found(name, off + 1)
      else WalkOn(p, off, name, seen) == WalkOn(p, off + 1 + |piece|, Extended(name, piece), {})
  {
  }

  lemma CopyStep(p: seq<Octet>, off: nat, done: seq<Label>, seen: set<nat>, labels: seq<Label>)
    requires NameAt(p, off, labels) && 0 < p[off] < 192 && Nonempty(done) && |Dotted(done)| < MAX_LEN
    ensures labels != [] && labels[0] != []
    ensures Nonempty(done + [labels[0]]) && |Dotted(done + [labels[0]])| == Grown(|Dotted(done)|, |labels[0]|)
    ensures
      var longer := Dotted(done + [labels[0]]);
      if |longer| >= MAX_LEN then WalkOn(p, off, Dotted(done), seen) == Found(Dotted(done), off + 1)
      else WalkOn(p, off, Dotted(done), seen) == WalkOn(p, off + 1 + p[off] as nat, longer, {})
  {
    LabelHere(p, off, labels);
    WalkCopies(p, off, Dotted(done), seen, labels[0]);
    DottedExtends(done, labels[0]);
  }

  lemma NameBegins(p: seq<Octet>, off: nat, labels: seq<Label>)
    requires NameAt(p, off, labels)
    ensures off < |p|
  {
  }

  lemma RootStep(p: seq<Octet>, off: nat, name: seq<Octet>, seen: set<nat>, labels: seq<Label>)
    requires NameAt(p, off, labels) && p[off] == 0 && |name| < MAX_LEN
    ensures labels == [] && WalkOn(p, off, name, seen) == Found(name, NameEnd(p, off, labels))
  {
  }

  lemma PointerStep(p: seq<Octet>, off: nat, name: seq<Octet>, seen: set<nat>, labels: seq<Label>)
    requires NameAt(p, off, labels) && p[off] >= 192 && |name| < MAX_LEN && off !in seen
    ensures off + 1 < |p| && Target(p, off) < off && NameAt(p, Target(p, off), labels)
    ensures
      var w := WalkOn(p, Target(p, off), name, seen + {off});
      w.Found? ==> WalkOn(p, off, name, seen) == Found(w.name, NameEnd(p, off, labels))
  {
  }

  /** The walk over a well-formed name, once the labels `done` are written, never goes astray; it
      writes the next labels up to the first that would make the name longer than 254 octets. */
  lemma {:induction false} WalkFrom(p: seq<Octet>, off: nat, done: seq<Label>, seen: set<nat>, labels: seq<Label>)
    returns (k: nat)
    requires NameAt(p, off, labels) && Nonempty(done) && |Dotted(done)| < MAX_LEN
    requires forall s :: s in seen ==> s > off
    ensures k <= |labels| && WalkOn(p, off, Dotted(done), seen).Found?
    ensures WalkOn(p, off, Dotted(done), seen).name == Dotted(done + labels[..k])
    ensures k < |labels| ==> |Dotted(done + labels[..k + 1])| >= MAX_LEN
    ensures k == |labels| ==> WalkOn(p, off, Dotted(done), seen).cursor == NameEnd(p, off, labels)
    decreases |labels|, off
  {
    hide WalkOn, NameAt, NameEnd, Next, Dotted;
    NameBegins(p, off, labels);
    assert done + [] == done;
    if p[off] == 0 {
      RootStep(p, off, Dotted(done), seen, labels);
      k := 0;
    } else if p[off] >= 192 {
      PointerStep(p, off, Dotted(done), seen, labels);
      k := WalkFrom(p, Target(p, off), done, seen + {off}, labels);
    } else {
      LabelHere(p, off, labels);
      CopyStep(p, off, done, seen, labels);
      if |Dotted(done + [labels[0]])| >= MAX_LEN {
        assert labels[..1] == [labels[0]];
        k := 0;
      } else {
        var rest := WalkFrom(p, off + 1 + p[off] as nat, done + [labels[0]], {}, labels[1..]);
        k := rest + 1;
        Splice(done, labels, rest);
        if k < |labels| {
          Splice(done, labels, k);
        }
      }
    }
  }

  lemma NoLabels()
    ensures Dotted([]) == []
  {
  }

  /** The decoder returns the dotted labels exactly when they fit in 254 octets, and then leaves the
      cursor just past the zero octet or the first pointer; a longer name is cut after the last label
      that fits. */
  lemma DecodesExactlyIff(p: seq<Octet>, off: nat, labels: seq<Label>)
    requires NameAt(p, off, labels)
    ensures Walk(p, off).Found?
    ensures Walk(p, off).name == Dotted(labels) <==> |Dotted(labels)| < MAX_LEN
    ensures |Dotted(labels)| < MAX_LEN ==> Walk(p, off).cursor == NameEnd(p, off, labels)
    ensures |Dotted(labels)| >= MAX_LEN ==>
      exists k: nat :: k < |labels| && Walk(p, off).name == Dotted(labels[..k]) && |Dotted(labels[..k + 1])| >= MAX_LEN
  {
    hide NameAt, NameEnd, WalkOn, Dotted;
    NoLabels();
    NamesHaveLabels(p, off, labels);
    var k := WalkFrom(p, off, [], {}, labels);
    assert [] + labels[..k] == labels[..k];
    if k < |labels| {
      assert [] + labels[..k + 1] == labels[..k + 1];
      DottedIsMonotone(labels, k + 1);
    } else {
      assert labels[..k] == labels;
    }
  }

  /** A name is empty, and so reported as no name at all, exactly at the root. */
  lemma OnlyTheRootIsEmpty(p: seq<Octet>, off: nat, labels: seq<Label>)
    requires NameAt(p, off, labels)
    ensures Walk(p, off).Found? && (Walk(p, off).name == [] <==> labels == [])
  {
    NamesHaveLabels(p, off, labels);
    var k := WalkFrom(p, off, [], {}, labels);
    assert [] + labels[..k] == labels[..k];
    if labels != [] {
      assert [] + labels[..1] == labels[..1] == [labels[0]];
      DottedExtends(labels[..k], labels[0]);
    }
  }

  // ----- names that are too long

  /** How many of the labels from the `k`-th on still fit after the first `k`. */
  function FitsFrom(labels: seq<Label>, k: nat): (n: nat)
    requires k <= |labels|
    ensures k <= n <= |labels|
    decreases |labels| - k
  {
    if k < |labels| && |Dotted(labels[..k + 1])| < MAX_LEN then FitsFrom(labels, k + 1) else k
  }

  /** The name as far as it fits in 254 characters, whole labels only. */
  function CutName(labels: seq<Label>): seq<Octet> {
    Dotted(labels[..FitsFrom(labels, 0)])
  }

  lemma {:induction false} FitsUpTo(labels: seq<Label>, j: nat, k: nat)
    requires Nonempty(labels) && j <= k <= |labels| && |Dotted(labels[..k])| < MAX_LEN
    requires k < |labels| ==> |Dotted(labels[..k + 1])| >= MAX_LEN
    ensures FitsFrom(labels, j) == k
    decreases k - j
  {
    if j < k {
      assert labels[..k][..j + 1] == labels[..j + 1];
      DottedIsMonotone(labels[..k], j + 1);
      FitsUpTo(labels, j + 1, k);
    }
  }

  /** The decoder writes the name as far as it fits. */
  lemma WritesWhatFits(p: seq<Octet>, off: nat, labels: seq<Label>)
    requires NameAt(p, off, labels)
    ensures Walk(p, off).Found? && Walk(p, off).name == CutName(labels)
    ensures CutName(labels) == Dotted(labels) <==> |Dotted(labels)| < MAX_LEN
  {
    hide NameAt, WalkOn, Dotted;
    NamesHaveLabels(p, off, labels);
    NoLabels();
    var k := WalkFrom(p, off, [], {}, labels);
    assert [] + labels[..k] == labels[..k];
    if k < |labels| {
      assert [] + labels[..k + 1] == labels[..k + 1];
    }
    FitsUpTo(labels, 0, k);
    DecodesExactlyIff(p, off, labels);
  }

  /** Where a name is cut, a dot would follow. */
  lemma CutAtADot(labels: seq<Label>)
    requires Nonempty(labels) && forall i :: 0 <= i < |labels| ==> |labels[i]| < MAX_LEN
    ensures CutName(labels) <= Dotted(labels)
    ensures |CutName(labels)| < |Dotted(labels)| ==> Dotted(labels)[|CutName(labels)|] == '.' as Octet
  {
    hide Dotted;
    var k := FitsFrom(labels, 0);
    if k < |labels| {
      OneLabelFits(labels);
      DottedPrefix(labels, k);
    } else {
      assert labels[..k] == labels;
    }
  }

  lemma OneLabelFits(labels: seq<Label>)
    requires labels != [] && |labels[0]| < MAX_LEN
    ensures FitsFrom(labels, 0) > 0
  {
    assert labels[..1] == [labels[0]];
  }

  lemma {:induction false} DottedPrefix(labels: seq<Label>, k: nat)
    requires Nonempty(labels) && 0 < k < |labels|
    ensures Dotted(labels[..k]) + ['.' as Octet] <= Dotted(labels)
  {
    var init, last := labels[..|labels| - 1], labels[|labels| - 1];
    assert init[..k] == labels[..k];
    if k < |init| {
      DottedPrefix(init, k);
    }
  }

  /** The labels in front of the name's first pointer, all of them when there is none. */
  function Ahead(p: seq<Octet>, off: nat, labels: seq<Label>): (n: nat)
    requires NameAt(p, off, labels)
    ensures n <= |labels|
    decreases |labels|
  {
    if p[off] == 0 || p[off] >= 192 then 0 else 1 + Ahead(p, off + 1 + p[off] as nat, labels[1..])
  }

  predicate HasPointer(p: seq<Octet>, off: nat, labels: seq<Label>)
    requires NameAt(p, off, labels)
    decreases |labels|
  {
    p[off] != 0 && (p[off] >= 192 || HasPointer(p, off + 1 + p[off] as nat, labels[1..]))
  }

  /** The name fits, or it has a pointer and fits up to there. */
  predicate KeepsPlace(p: seq<Octet>, off: nat, labels: seq<Label>)
    requires NameAt(p, off, labels)
  {
    |Dotted(labels)| < MAX_LEN || (HasPointer(p, off, labels) && |Dotted(labels[..Ahead(p, off, labels)])| < MAX_LEN)
  }

  /** The same for what is still to be read of a name whose labels `done` are written. */
  predicate KeepsPlaceAfter(p: seq<Octet>, off: nat, done: seq<Label>, labels: seq<Label>)
    requires NameAt(p, off, labels)
  {
    || |Dotted(done + labels)| < MAX_LEN
    || (HasPointer(p, off, labels) && |Dotted(done + labels[..Ahead(p, off, labels)])| < MAX_LEN)
  }

  lemma {:induction false} NameTakesRoom(p: seq<Octet>, off: nat, labels: seq<Label>)
    requires NameAt(p, off, labels)
    ensures NameEnd(p, off, labels) > off
    decreases |labels|
  {
    if 0 < p[off] < 192 {
      NameTakesRoom(p, off + 1 + p[off] as nat, labels[1..]);
    }
  }

  lemma EndKeepsPlace(p: seq<Octet>, off: nat, done: seq<Label>, labels: seq<Label>)
    requires NameAt(p, off, labels) && (p[off] == 0 || p[off] >= 192) && |Dotted(done)| < MAX_LEN
    ensures KeepsPlaceAfter(p, off, done, labels)
  {
    assert done + [] == done && labels[..0] == [];
  }

  lemma LabelKeepsPlace(p: seq<Octet>, off: nat, done: seq<Label>, labels: seq<Label>)
    requires NameAt(p, off, labels) && 0 < p[off] < 192
    ensures labels != [] && off + 1 + p[off] as nat <= |p| && NameAt(p, off + 1 + p[off] as nat, labels[1..])
    ensures KeepsPlaceAfter(p, off, done, labels)
       <==> KeepsPlaceAfter(p, off + 1 + p[off] as nat, done + [labels[0]], labels[1..])
  {
    hide NameEnd, Dotted;
    LabelHere(p, off, labels);
    var n := Ahead(p, off + 1 + p[off] as nat, labels[1..]);
    assert done + [labels[0]] + labels[1..] == done + labels;
    Splice(done, labels, n);
  }

  lemma TooLongAlready(p: seq<Octet>, off: nat, done: seq<Label>, labels: seq<Label>)
    requires NameAt(p, off, labels) && Nonempty(done) && |Dotted(done)| >= MAX_LEN
    ensures !KeepsPlaceAfter(p, off, done, labels)
  {
    hide NameAt, Dotted;
    NamesHaveLabels(p, off, labels);
    var n := Ahead(p, off, labels);
    assert (done + labels)[..|done|] == done && (done + labels[..n])[..|done|] == done;
    DottedIsMonotone(done + labels, |done|);
    DottedIsMonotone(done + labels[..n], |done|);
  }

  lemma {:induction false} CursorAfter(p: seq<Octet>, off: nat, done: seq<Label>, seen: set<nat>, labels: seq<Label>)
    requires NameAt(p, off, labels) && Nonempty(done) && |Dotted(done)| < MAX_LEN
    requires forall s :: s in seen ==> s > off
    ensures WalkOn(p, off, Dotted(done), seen).Found?
    ensures WalkOn(p, off, Dotted(done), seen).cursor <= NameEnd(p, off, labels)
    ensures WalkOn(p, off, Dotted(done), seen).cursor == NameEnd(p, off, labels)
       <==> KeepsPlaceAfter(p, off, done, labels)
    decreases |labels|
  {
    hide WalkOn, NameAt, NameEnd, Next, Dotted, KeepsPlaceAfter;
    NameBegins(p, off, labels);
    if p[off] == 0 {
      RootStep(p, off, Dotted(done), seen, labels);
      EndKeepsPlace(p, off, done, labels);
    } else if p[off] >= 192 {
      PointerStep(p, off, Dotted(done), seen, labels);
      var k := WalkFrom(p, Target(p, off), done, seen + {off}, labels);
      EndKeepsPlace(p, off, done, labels);
    } else {
      LabelHere(p, off, labels);
      CopyStep(p, off, done, seen, labels);
      LabelKeepsPlace(p, off, done, labels);
      var longer, at := done + [labels[0]], off + 1 + p[off] as nat;
      if |Dotted(longer)| >= MAX_LEN {
        TooLongAlready(p, at, longer, labels[1..]);
        NameTakesRoom(p, at, labels[1..]);
      } else {
        CursorAfter(p, at, longer, {}, labels[1..]);
      }
    }
  }

  /** The decoder leaves the cursor where the name ends exactly when the name fits, or has a pointer and
      fits up to there; otherwise the cursor is left inside the name. */
  lemma CursorIsExactIff(p: seq<Octet>, off: nat, labels: seq<Label>)
    requires NameAt(p, off, labels)
    ensures Walk(p, off).Found? && Walk(p, off).cursor <= NameEnd(p, off, labels)
    ensures Walk(p, off).cursor == NameEnd(p, off, labels) <==> KeepsPlace(p, off, labels)
  {
    CursorAfter(p, off, [], {}, labels);
    assert [] + labels == labels && forall n :: 0 <= n <= |labels| ==> [] + labels[..n] == labels[..n];
  }

  // ----- encoding

  lemma {:induction false} DottedAndWire(labels: seq<Label>)
    requires Encodable(labels) && labels != []
    ensures |Dotted(labels)| + 2 == |Wire(labels)|
  {
    PrefixAppends(labels[..|labels| - 1], labels[|labels| - 1]);
    assert labels[..|labels| - 1] + [labels[|labels| - 1]] == labels;
    if |labels| > 1 {
      DottedAndWire(labels[..|labels| - 1]);
    }
  }

  lemma {:induction false} PrefixAppends(labels: seq<Label>, piece: Label)
    requires Encodable(labels) && 1 <= |piece| <= 63
    ensures Encodable(labels + [piece]) && |Prefix(labels + [piece])| == |Prefix(labels)| + 1 + |piece|
  {
    if labels == [] {
      assert [] + [piece] == [piece];
      assert [piece][1..] == [];
    } else {
      PrefixAppends(labels[1..], piece);
      assert (labels + [piece])[1..] == labels[1..] + [piece];
    }
  }

  /** No name within the 255-octet limit of section 2.3.4 of RFC 1035 is cut. */
  lemma WireLimitIsEnough(p: seq<Octet>, off: nat, labels: seq<Label>)
    requires NameAt(p, off, labels) && Encodable(labels) && |Wire(labels)| <= 255
    ensures Walk(p, off) == Found(Dotted(labels), NameEnd(p, off, labels))
  {
    if labels != [] {
      DottedAndWire(labels);
    }
    DecodesExactlyIff(p, off, labels);
  }

  /** How an encoder closes a name: with the root, or with a pointer to where the rest stands. */
  datatype Tail = Root | To(at: nat)

  predicate ValidTail(tail: Tail) {
    tail.To? ==> tail.at < 0x4000
  }

  function TailOctets(tail: Tail): seq<Octet>
    requires ValidTail(tail)
  {
    match tail
    case Root => [0]
    case To(at) => [(192 + at / 256) as Octet, (at % 256) as Octet]
  }

  /** `s` stands in the message at `off`. */
  predicate Stands(p: seq<Octet>, off: nat, s: seq<Octet>) {
    off + |s| <= |p| && forall i :: 0 <= i < |s| ==> p[off + i] == s[i]
  }

  lemma StandsApart(p: seq<Octet>, off: nat, a: seq<Octet>, b: seq<Octet>)
    requires Stands(p, off, a + b)
    ensures Stands(p, off, a) && Stands(p, off + |a|, b)
  {
    forall i | 0 <= i < |a| ensures p[off + i] == a[i] {
      assert (a + b)[i] == a[i];
    }
    forall i | 0 <= i < |b| ensures p[off + |a| + i] == b[i] {
      assert (a + b)[|a| + i] == b[i];
    }
  }

  lemma LabelThenName(p: seq<Octet>, off: nat, piece: Label, labels: seq<Label>)
    requires 1 <= |piece| <= 63 && off < |p| && p[off] as nat == |piece|
    requires Stands(p, off + 1, piece) && NameAt(p, off + 1 + |piece|, labels)
    ensures NameAt(p, off, [piece] + labels)
    ensures NameEnd(p, off, [piece] + labels) == NameEnd(p, off + 1 + |piece|, labels)
  {
    assert Octets(p, off + 1, |piece|) == piece;
    assert ([piece] + labels)[1..] == labels;
  }

  lemma {:induction false} PrefixThenName(p: seq<Octet>, off: nat, labels: seq<Label>, rest: seq<Label>)
    requires Encodable(labels) && Stands(p, off, Prefix(labels)) && NameAt(p, off + |Prefix(labels)|, rest)
    ensures NameAt(p, off, labels + rest)
    ensures NameEnd(p, off, labels + rest) == NameEnd(p, off + |Prefix(labels)|, rest)
    decreases |labels|
  {
    if labels == [] {
      assert labels + rest == rest;
    } else {
      var piece, others := labels[0], labels[1..];
      PrefixHead(p, off, labels, piece, others);
      PrefixThenName(p, off + 1 + |piece|, others, rest);
      LabelThenName(p, off, piece, others + rest);
      assert labels + rest == [piece] + (others + rest);
    }
  }

  lemma PrefixHead(p: seq<Octet>, off: nat, labels: seq<Label>, piece: Label, others: seq<Label>)
    requires Encodable(labels) && labels != [] && piece == labels[0] && others == labels[1..]
    requires Stands(p, off, Prefix(labels))
    ensures 1 <= |piece| <= 63 && Encodable(others) && |Prefix(labels)| == 1 + |piece| + |Prefix(others)|
    ensures off < |p| && p[off] as nat == |piece|
    ensures Stands(p, off + 1, piece) && Stands(p, off + 1 + |piece|, Prefix(others))
  {
    var head := [|piece| as Octet];
    assert Prefix(labels) == head + piece + Prefix(others);
    StandsApart(p, off, head + piece, Prefix(others));
    StandsApart(p, off, head, piece);
    assert p[off + 0] == head[0];
  }

  lemma TailStands(p: seq<Octet>, at: nat, tail: Tail, rest: seq<Label>)
    requires ValidTail(tail) && Stands(p, at, TailOctets(tail))
    requires tail.Root? ==> rest == []
    requires tail.To? ==> tail.at < at && NameAt(p, tail.at, rest)
    ensures NameAt(p, at, rest) && NameEnd(p, at, rest) == at + |TailOctets(tail)|
  {
    assert p[at + 0] == TailOctets(tail)[0];
    if tail.To? {
      assert p[at + 1] == TailOctets(tail)[1];
      assert Target(p, at) == tail.at;
    }
  }

  /** Decoding inverts encoding, with and without compression: labels followed by a closing zero, or
      by a pointer to an earlier place of the message where the rest of the name stands. */
  lemma EncodedNameStands(p: seq<Octet>, off: nat, labels: seq<Label>, tail: Tail, rest: seq<Label>)
    requires Encodable(labels) && ValidTail(tail) && Stands(p, off, Prefix(labels) + TailOctets(tail))
    requires tail.Root? ==> rest == []
    requires tail.To? ==> tail.at < off + |Prefix(labels)| && NameAt(p, tail.at, rest)
    ensures NameAt(p, off, labels + rest)
    ensures NameEnd(p, off, labels + rest) == off + |Prefix(labels) + TailOctets(tail)|
  {
    StandsApart(p, off, Prefix(labels), TailOctets(tail));
    TailStands(p, off + |Prefix(labels)|, tail, rest);
    PrefixThenName(p, off, labels, rest);
  }

  lemma {:induction false} DottedHasNoZero(labels: seq<Label>)
    requires forall i :: 0 <= i < |labels| ==> 0 !in labels[i]
    ensures 0 !in Dotted(labels)
  {
    if |labels| > 1 {
      DottedHasNoZero(labels[..|labels| - 1]);
    }
  }

  /** What a resolver within the limits of RFC 1035 encodes, the decoder gives back, whole, with the
      cursor behind the encoding. */
  lemma DecodingInvertsEncoding(p: seq<Octet>, off: nat, labels: seq<Label>, tail: Tail, rest: seq<Label>)
    requires Encodable(labels) && ValidTail(tail) && Stands(p, off, Prefix(labels) + TailOctets(tail))
    requires tail.Root? ==> rest == []
    requires tail.To? ==> tail.at < off + |Prefix(labels)| && NameAt(p, tail.at, rest)
    requires forall i :: 0 <= i < |labels + rest| ==> 0 !in (labels + rest)[i]
    ensures Encodable(labels + rest)
    ensures |Wire(labels + rest)| <= 255 ==>
      && Walk(p, off) == Found(Dotted(labels + rest), off + |Prefix(labels) + TailOctets(tail)|)
      && CString(Dotted(labels + rest)) == Dotted(labels + rest)
  {
    var all := labels + rest;
    EncodedNameStands(p, off, labels, tail, rest);
    NamesHaveLabels(p, off, all);
    if |Wire(all)| <= 255 {
      WireLimitIsEnough(p, off, all);
      DottedHasNoZero(all);
      CStringIs(Dotted(all), Dotted(all));
    }
  }

  lemma {:induction false} NothingButLabels(p: seq<Octet>, off: nat, labels: seq<Label>)
    requires Encodable(labels) && Stands(p, off, Wire(labels)) && NameAt(p, off, labels)
    ensures Ahead(p, off, labels) == |labels|
    decreases |labels|
  {
    hide Stands, NameAt;
    StandsApart(p, off, Prefix(labels), [0]);
    if labels == [] {
      EndStands(p, off, labels);
    } else {
      PrefixHead(p, off, labels, labels[0], labels[1..]);
      StandsTogether(p, off + 1 + |labels[0]|, Prefix(labels[1..]), [0]);
      LabelHere(p, off, labels);
      NothingButLabels(p, off + 1 + |labels[0]|, labels[1..]);
    }
  }

  lemma EndStands(p: seq<Octet>, off: nat, labels: seq<Label>)
    requires labels == [] && Stands(p, off, [0])
    ensures off < |p| && p[off] == 0
  {
    assert p[off + 0] == [0 as Octet][0];
  }

  lemma StandsTogether(p: seq<Octet>, off: nat, a: seq<Octet>, b: seq<Octet>)
    requires Stands(p, off, a) && Stands(p, off + |a|, b)
    ensures Stands(p, off, a + b)
  {
    forall i | 0 <= i < |a + b| ensures p[off + i] == (a + b)[i] {
      if i >= |a| {
        assert p[off + |a| + (i - |a|)] == b[i - |a|];
      }
    }
  }

  /** After a name written out in full the decoder finds its place again exactly when the name fits. */
  lemma FullNameKeepsPlaceIff(p: seq<Octet>, off: nat, labels: seq<Label>)
    requires Encodable(labels) && Stands(p, off, Wire(labels))
    ensures NameAt(p, off, labels) && NameEnd(p, off, labels) == off + |Wire(labels)|
    ensures Walk(p, off).Found?
    ensures Walk(p, off).cursor == off + |Wire(labels)| <==> |Dotted(labels)| < MAX_LEN
  {
    hide Stands, NameAt, NameEnd, WalkOn, Dotted, Prefix;
    assert labels + [] == labels;
    EncodedNameStands(p, off, labels, Root, []);
    NothingButLabels(p, off, labels);
    CursorIsExactIff(p, off, labels);
    assert labels[..|labels|] == labels;
  }

  lemma PrefixOfFour(piece: Label)
    requires |piece| == 63
    ensures |Prefix([piece, piece, piece, piece])| == 256
  {
    hide Prefix;
    assert Encodable([]) && |Prefix([])| == 0 by { NothingBefore(); }
    PrefixAppends([], piece);
    assert [] + [piece] == [piece];
    PrefixAppends([piece], piece);
    assert [piece] + [piece] == [piece, piece];
    PrefixAppends([piece, piece], piece);
    assert [piece, piece] + [piece] == [piece, piece, piece];
    PrefixAppends([piece, piece, piece], piece);
    assert [piece, piece, piece] + [piece] == [piece, piece, piece, piece];
  }

  lemma NothingBefore()
    ensures Prefix([]) == []
  {
  }

  /** A packet with a name of 255 characters, in 257 octets. */
  lemma LongNameDerails(p: seq<Octet>, piece: Label)
    requires |piece| == 63 && p == Wire([piece, piece, piece, piece])
    ensures
      var labels := [piece, piece, piece, piece];
      && NameAt(p, 0, labels) && |Dotted(labels)| == 255 && NameEnd(p, 0, labels) == |p| == 257
      && Walk(p, 0).Found? && Walk(p, 0).cursor < 257
  {
    hide NameAt, NameEnd, WalkOn, Dotted;
    var labels := [piece, piece, piece, piece];
    PrefixOfFour(piece);
    DottedAndWire(labels);
    FullNameKeepsPlaceIff(p, 0, labels);
    CursorIsExactIff(p, 0, labels);
  }

  /** A pointer to itself. */
  lemma SelfPointerLoops()
    ensures Walk([192, 0], 0).Endless?
  {
    assert Target([192, 0], 0) == 0;
  }
}
