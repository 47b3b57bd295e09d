/** Which sliding windows an event is put into, against the windows that contain it. */
module SlidingWindows {
  import opened Arithmetic
  import opened AggregateSpec

  /** The starts of all windows [start, start + size) that contain `t`. */
  ghost function Containing(t: nat, size: nat, slide: nat): set<nat>
    requires slide > 0
  {
    set s: nat | s <= t && s % slide == 0 && s + size > t
  }

  ghost function Elements(starts: seq<nat>): set<nat> {
    set i | 0 <= i < |starts| :: starts[i]
  }

  /** The walk yields consecutive candidates, all containing `t`, and stops only at the limit, past
      `t`, or at a first candidate that ends too early. */
  lemma {:induction false} WalkShape(current: nat, t: nat, size: nat, slide: nat, room: nat)
    requires slide > 0
    ensures var w := Walk(current, t, size, slide, room);
            && |w| <= room
            && (forall i :: 0 <= i < |w| ==> w[i] == current + i * slide && w[i] <= t < w[i] + size)
            && (|w| == room || current + |w| * slide > t || (|w| == 0 && current + size <= t))
    decreases room
  {
    var w := Walk(current, t, size, slide, room);
    if w != [] {
      WalkShape(current + slide, t, size, slide, room - 1);
      var tail := w[1..];
      assert current + slide + |tail| * slide == current + |w| * slide;
      forall i | 0 <= i < |w|
        ensures w[i] == current + i * slide && w[i] <= t < w[i] + size
      {
        if i > 0 {
          assert w[i] == tail[i - 1] == current + slide + (i - 1) * slide == current + i * slide;
        }
      }
    }
  }

  /** Every window an event is put into is aligned to the slide and contains the event; no window
      is chosen twice, and at most a thousand are chosen. */
  lemma AssignmentIsSound(t: nat, size: nat, slide: nat)
    requires slide > 0
    ensures var w := SlidingStarts(t, size, slide);
            && |w| <= MAX_SLIDING_WINDOWS
            && (forall i :: 0 <= i < |w| ==> w[i] in Containing(t, size, slide))
            && (forall i, j :: 0 <= i < j < |w| ==> w[i] < w[j])
  {
    var w, first := SlidingStarts(t, size, slide), EarliestStart(t, size, slide);
    WalkShape(first, t, size, slide, MaxWindows(t, size, slide));
    FlooredIs(if t >= size then t - size else 0, slide);
    forall i | 0 <= i < |w| ensures w[i] in Containing(t, size, slide) {
      AddMultiple(first, i, slide);
    }
    forall i, j | 0 <= i < j < |w| ensures w[i] < w[j] {
      MultiplesApart(i, j, slide);
    }
  }

  lemma WalkFinds(first: nat, t: nat, size: nat, slide: nat, room: nat, s: nat)
    requires slide > 0 && first % slide == 0 && first + size > t
    requires first < slide || first - slide + size <= t
    requires first + room * slide > t
    requires s in Containing(t, size, slide)
    ensures s in Elements(Walk(first, t, size, slide, room))
  {
    var w := Walk(first, t, size, slide, room);
    WalkShape(first, t, size, slide, room);
    var k := StepsBetween(first, s, slide, t, size);
    assert first + |w| * slide > t;
    if |w| < k {
      MultiplesApart(|w|, k, slide);
    }
    assert k < |w| && w[k] == s;
  }

  lemma StepsBetween(first: nat, s: nat, slide: nat, t: nat, size: nat) returns (k: nat)
    requires slide > 0 && first % slide == 0 && s % slide == 0
    requires first < slide || first - slide + size <= t < s + size
    ensures s == first + k * slide
  {
    var f, m := first / slide, s / slide;
    assert first == f * slide && s == m * slide;
    if m < f {
      MultiplesApart(m, f, slide);
    }
    k := m - f;
    assert k * slide == m * slide - f * slide;
  }

  /** Enough room, and a first candidate at the edge of the window: the walk finds everything. */
  lemma WalkFindsAll(first: nat, t: nat, size: nat, slide: nat, room: nat)
    requires slide > 0 && first % slide == 0 && first + size > t
    requires first < slide || first - slide + size <= t
    requires first + room * slide > t
    ensures Elements(Walk(first, t, size, slide, room)) == Containing(t, size, slide)
  {
    var w := Walk(first, t, size, slide, room);
    WalkShape(first, t, size, slide, room);
    forall s | s in Containing(t, size, slide) ensures s in Elements(w) {
      WalkFinds(first, t, size, slide, room, s);
    }
    forall i | 0 <= i < |w| ensures w[i] in Containing(t, size, slide) {
      AddMultiple(first, i, slide);
    }
  }

  lemma {:induction false} ElementsBound(w: seq<nat>)
    ensures |Elements(w)| <= |w|
  {
    if w != [] {
      var init := w[..|w| - 1];
      ElementsBound(init);
      assert Elements(w) == Elements(init) + {w[|w| - 1]};
    }
  }

  /** The first `n` multiples of the slide, all of them windows that contain `t`. */
  lemma {:induction false} MultiplesBelow(n: nat, t: nat, size: nat, slide: nat) returns (s: set<nat>)
    requires slide > 0 && t < size && n <= t / slide + 1
    ensures |s| == n && s <= Containing(t, size, slide) && forall x :: x in s ==> x < n * slide
    ensures |Containing(t, size, slide)| >= n
  {
    if n == 0 {
      s := {};
    } else {
      var before := MultiplesBelow(n - 1, t, size, slide);
      var x := (n - 1) * slide;
      MultipleMod(n - 1, slide);
      RoundDown(t, slide);
      if n - 1 < t / slide { MultiplesApart(n - 1, t / slide, slide); }
      assert n * slide == x + slide;
      assert x !in before;
      s := before + {x};
      SubsetSize(s, Containing(t, size, slide));
    }
  }

  /** Events dated at or after the window size are put into no window at all: the walk starts at a
      candidate that has already ended and stops there. */
  lemma NothingFromSizeOn(t: nat, size: nat, slide: nat)
    requires slide > 0 && t >= size
    ensures SlidingStarts(t, size, slide) == []
  {
    RoundDown(t - size, slide);
    FlooredIs(t - size, slide);
  }

  /** Exactly when an event reaches the windows that contain it: it is dated before the window size
      and lies in at most a thousand windows, or no window contains it. */
  lemma AssignmentIsExactIff(t: nat, size: nat, slide: nat)
    requires slide > 0 && size > 0
    ensures Elements(SlidingStarts(t, size, slide)) == Containing(t, size, slide)
       <==> (t < size && t / slide + 1 <= MAX_SLIDING_WINDOWS) || t / slide * slide + size <= t
  {
    RoundDown(t, slide);
    FlooredIs(t, slide);
    var last := t / slide * slide;
    if t >= size {
      NothingFromSizeOn(t, size, slide);
      if last + size > t {
        assert last in Containing(t, size, slide);
      } else {
        forall s | s in Containing(t, size, slide) ensures false {
          if last < s { CloseMultiples(last, s, slide); }
        }
      }
    } else {
      MultipleMod(0, slide);
      MultipleMod(t / slide, slide);
      assert EarliestStart(t, size, slide) == 0;
      if t / slide + 1 <= MAX_SLIDING_WINDOWS {
        WalkFindsAll(0, t, size, slide, t / slide + 1);
      } else {
        var w := SlidingStarts(t, size, slide);
        WalkShape(0, t, size, slide, MAX_SLIDING_WINDOWS);
        ElementsBound(w);
        var _ := MultiplesBelow(MAX_SLIDING_WINDOWS + 1, t, size, slide);
      }
    }
  }

  /** The same walk without its first candidate is the intended one. */
  lemma SkippingTheFirstCandidateIsExact(t: nat, size: nat, slide: nat, room: nat)
    requires slide > 0 && t >= size > 0
    requires room > (t / slide) - (t - size) / slide
    ensures Elements(Walk(EarliestStart(t, size, slide) + slide, t, size, slide, room)) == Containing(t, size, slide)
  {
    var first := EarliestStart(t, size, slide) + slide;
    RoundDown(t - size, slide);
    FlooredIs(t - size, slide);
    RoundDown(t, slide);
    AddMultiple(EarliestStart(t, size, slide), 1, slide);
    if first + room * slide <= t {
      assert first + room * slide == ((t - size) / slide + 1 + room) * slide;
      MultiplesApart(t / slide, (t - size) / slide + 1 + room, slide);
    }
    WalkFindsAll(first, t, size, slide, room);
  }
}
