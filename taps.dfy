/** The trackpad tap debouncer of a device: a ring of 17 touch samples, a
    new sample shifted in at the end whenever more than 0.03 s have passed,
    rising edges counted over the ring, and a double tap reported (and the
    ring cleared) as soon as the ring holds more than one rising edge. */
module Taps {

  /** `tapArrSize`. */
  const TapArrSize := 17

  /** `tapTimeThreshold`, in seconds. */
  const TapTimeThreshold: real := 0.03

  /** A freshly allocated ring: `new bool[tapArrSize]`. */
  function Cleared(): (r: seq<bool>)
    ensures |r| == TapArrSize
    ensures forall i :: 0 <= i < |r| ==> !r[i]
  {
    seq(TapArrSize, _ => false)
  }

  /** The ring after dropping its oldest sample and appending `v`. */
  function Shifted(a: seq<bool>, v: bool): seq<bool>
    requires |a| > 0
  {
    a[1..] + [v]
  }

  /** A touch begins between samples `i` and `i + 1`. */
  predicate RisingAt(a: seq<bool>, i: int)
  {
    0 <= i < |a| - 1 && !a[i] && a[i + 1]
  }

  /** The number of rising edges of `a`, counting the pairs left to right
      (the last pair last). No ring of length `n` has more than `n / 2`
      rising edges, and one ending in `false` has at most `(n - 1) / 2`;
      for the 17-slot ring that is at most 8. */
  function CountRising(a: seq<bool>): (r: nat)
    ensures r <= |a| / 2
    ensures |a| > 0 && !a[|a| - 1] ==> r <= (|a| - 1) / 2
  {
    if |a| < 2 then 0
    else CountRising(a[..|a| - 1]) + (if RisingAt(a, |a| - 2) then 1 else 0)
  }

  /** The positions where a touch begins. */
  function RisingEdges(a: seq<bool>): set<int>
  {
    set i | 0 <= i < |a| - 1 && RisingAt(a, i)
  }

  /** `CountRising` counts exactly the rising edges. */
  lemma {:induction false} CountRisingIsEdgeCount(a: seq<bool>)
    ensures CountRising(a) == |RisingEdges(a)|
  {
    if |a| < 2 {
      assert RisingEdges(a) == {};
    } else {
      var p := a[..|a| - 1];
      CountRisingIsEdgeCount(p);
      assert forall i :: 0 <= i < |p| - 1 ==> (RisingAt(p, i) <==> RisingAt(a, i));
      if RisingAt(a, |a| - 2) {
        assert RisingEdges(a) == RisingEdges(p) + {|a| - 2};
        assert |a| - 2 !in RisingEdges(p);
      } else {
        assert RisingEdges(a) == RisingEdges(p);
      }
    }
  }

  /** A ring with no touch has no rising edge. */
  lemma {:induction false} NoTouchNoTaps(a: seq<bool>)
    requires forall i :: 0 <= i < |a| ==> !a[i]
    ensures CountRising(a) == 0
  {
    if |a| >= 2 {
      NoTouchNoTaps(a[..|a| - 1]);
    }
  }

  /** Dropping the oldest sample loses the first pair's edge, if any. */
  lemma {:induction false} CountDropFront(a: seq<bool>)
    requires |a| > 0
    ensures CountRising(a[1..]) + (if RisingAt(a, 0) then 1 else 0) == CountRising(a)
  {
    if |a| > 2 {
      var p := a[..|a| - 1];
      CountDropFront(p);
      assert p[1..] == a[1..][..|a[1..]| - 1];
      assert RisingAt(a[1..], |a[1..]| - 2) == RisingAt(a, |a| - 2);
      assert RisingAt(p, 0) == RisingAt(a, 0);
    } else if |a| == 2 {
      assert |a[1..]| == 1;
    }
  }

  /** Shifting in a sample changes the edge count by the edge it drops at
      the front and the edge it adds at the back. */
  lemma {:induction false} CountShifted(a: seq<bool>, v: bool)
    requires |a| >= 2
    ensures CountRising(Shifted(a, v)) + (if RisingAt(a, 0) then 1 else 0)
         == CountRising(a) + (if !a[|a| - 1] && v then 1 else 0)
  {
    var s := Shifted(a, v);
    CountDropFront(a);
    assert s[..|s| - 1] == a[1..];
    assert RisingAt(s, |s| - 2) == (!a[|a| - 1] && v);
  }

  /** The per-hand part of the tap state: the last touch seen
      (`prevLeftTap` / `prevRightTap`), the ring, and the time of the last
      shift. */
  datatype HandTaps = HandTaps(prev: bool, ring: seq<bool>, past: real)

  /** What `UpdateTapValues` leaves behind: `tap`, `doubleTap` and the
      hand's tap state. */
  datatype TapOutcome = TapOutcome(tap: bool, doubleTap: bool, hand: HandTaps)

  /** `tap` after a call: it follows the touch when the touch changed. */
  function LatchedTap(tap: bool, h: HandTaps, touched: bool): bool
  {
    if touched != h.prev then touched else tap
  }

  /** More than `tapTimeThreshold` has passed since the last shift. */
  predicate Elapsed(h: HandTaps, now: real)
  {
    now - h.past > TapTimeThreshold
  }

  /** The ring a call examines for double taps: once the threshold has
      elapsed it shifts in `tap` on the left device and the raw touch on the
      right device. */
  function ExaminedRing(tap: bool, h: HandTaps, touched: bool, isLeft: bool, now: real): (r: seq<bool>)
    requires |h.ring| == TapArrSize
    ensures |r| == TapArrSize
  {
    if Elapsed(h, now) then Shifted(h.ring, if isLeft then LatchedTap(tap, h, touched) else touched) else h.ring
  }

  /** One call of `UpdateTapValues` for one hand, at time `now`, given the
      trackpad touch just decoded. A change of touch sets `tap` and the
      previous touch to it (so the previous touch always ends equal to the
      touch). When the threshold has elapsed the ring is shifted. More than
      one rising edge in the examined ring reports a double tap and clears
      the ring. */
  function TapUpdate(tap: bool, h: HandTaps, touched: bool, isLeft: bool, now: real): TapOutcome
    requires |h.ring| == TapArrSize
  {
    var ring1 := ExaminedRing(tap, h, touched, isLeft, now);
    var dbl := CountRising(ring1) > 1;
    TapOutcome(LatchedTap(tap, h, touched), dbl,
               HandTaps(touched, if dbl then Cleared() else ring1, if Elapsed(h, now) then now else h.past))
  }

  /** What one update promises: the previous touch becomes the current
      touch; `tap` follows the touch exactly when it changed; the ring keeps
      its 17 slots and shifts only after the threshold; a double tap is
      reported iff the examined ring has more than one rising edge, and
      then the ring is all false; otherwise the ring is the examined one. */
  lemma TapUpdateSpec(tap: bool, h: HandTaps, touched: bool, isLeft: bool, now: real)
    requires |h.ring| == TapArrSize
    ensures var o := TapUpdate(tap, h, touched, isLeft, now);
      && o.hand.prev == touched
      && o.tap == (if touched != h.prev then touched else tap)
      && |o.hand.ring| == TapArrSize
      && (o.doubleTap <==> CountRising(ExaminedRing(tap, h, touched, isLeft, now)) > 1)
      && (o.doubleTap ==> o.hand.ring == Cleared())
      && (!o.doubleTap ==> o.hand.ring == ExaminedRing(tap, h, touched, isLeft, now))
      && (now - h.past > TapTimeThreshold ==> o.hand.past == now)
      && (!(now - h.past > TapTimeThreshold) ==>
            o.hand.past == h.past && ExaminedRing(tap, h, touched, isLeft, now) == h.ring)
  {
  }

  /** Between calls the ring never holds more than one rising edge. */
  predicate QuietRing(h: HandTaps)
  {
    |h.ring| == TapArrSize && CountRising(h.ring) <= 1
  }

  /** Every update leaves a quiet ring behind. */
  lemma {:induction false} TapUpdateKeepsQuiet(tap: bool, h: HandTaps, touched: bool, isLeft: bool, now: real)
    requires |h.ring| == TapArrSize
    ensures QuietRing(TapUpdate(tap, h, touched, isLeft, now).hand)
  {
    NoTouchNoTaps(Cleared());
  }

  /** A freshly cleared ring cannot report a double tap: one shifted
      sample adds at most one rising edge. */
  lemma {:induction false} NoDoubleTapFromCleared(tap: bool, h: HandTaps, touched: bool, isLeft: bool, now: real)
    requires h.ring == Cleared()
    ensures !TapUpdate(tap, h, touched, isLeft, now).doubleTap
  {
    NoTouchNoTaps(Cleared());
    if Elapsed(h, now) {
      CountShifted(Cleared(), if isLeft then LatchedTap(tap, h, touched) else touched);
    }
  }

  /** A double tap needs a new touch: starting from a quiet ring, a double
      tap is reported only when the threshold has elapsed, the sample
      shifted in is a touch, the newest sample before it was not, and the
      ring's one rising edge is not the oldest pair, which the shift drops;
      so the shift created the second rising edge. */
  lemma {:induction false} DoubleTapNeedsNewEdge(tap: bool, h: HandTaps, touched: bool, isLeft: bool, now: real)
    requires QuietRing(h)
    ensures var o := TapUpdate(tap, h, touched, isLeft, now);
      o.doubleTap ==>
        && now - h.past > TapTimeThreshold
        && (if isLeft then o.tap else touched)
        && !h.ring[TapArrSize - 1]
        && CountRising(h.ring) == 1
        && !RisingAt(h.ring, 0)
  {
    var o := TapUpdate(tap, h, touched, isLeft, now);
    if o.doubleTap && now - h.past > TapTimeThreshold {
      var v := if isLeft then o.tap else touched;
      CountShifted(h.ring, v);
    }
  }

  /** The converse: from a quiet ring whose one rising edge survives the
      shift, an elapsed threshold and a touch shifted in after an untouched
      newest slot report a double tap and clear the ring. */
  lemma {:induction false} NewEdgeGivesDoubleTap(tap: bool, h: HandTaps, touched: bool, isLeft: bool, now: real)
    requires QuietRing(h) && now - h.past > TapTimeThreshold
    requires if isLeft then LatchedTap(tap, h, touched) else touched
    requires !h.ring[TapArrSize - 1] && CountRising(h.ring) == 1 && !RisingAt(h.ring, 0)
    ensures var o := TapUpdate(tap, h, touched, isLeft, now);
      o.doubleTap && o.hand.ring == Cleared() && o.hand.prev == touched && o.hand.past == now
  {
    CountShifted(h.ring, if isLeft then LatchedTap(tap, h, touched) else touched);
  }

  /** A double tap does happen: a quiet ring holding one earlier touch
      (slot 8), and a left touch arriving after the threshold, report a
      double tap and leave a cleared ring. */
  lemma DoubleTapExample()
    ensures TapUpdate(false, HandTaps(false, Cleared()[8 := true], 0.0), true, true, 1.0)
            == TapOutcome(true, true, HandTaps(true, Cleared(), 1.0))
  {
    var r := Cleared()[8 := true];
    assert RisingEdges(r) == {7} by {
      assert RisingAt(r, 7);
      forall i | i in RisingEdges(r) ensures i == 7 {
      }
    }
    CountRisingIsEdgeCount(r);
    NewEdgeGivesDoubleTap(false, HandTaps(false, r, 0.0), true, true, 1.0);
  }
}
