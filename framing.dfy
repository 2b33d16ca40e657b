/** Functional specification of the reader thread's packet framer
    (`CSharpSerial.ThreadLoop`, inner `while` loop): bytes are stored one
    at a time; two 0xFF bytes in a row end a packet, which is kept only when
    the second 0xFF sits at index `bufferSize`, and is then routed by bit 3
    of byte 11. The accumulation lives in a fresh 9999-byte array, so an
    emitted frame is the accumulated bytes followed by zeros. */
module Framing {
  import opened Wire
  import opened Packet

  /** Length of the `serialData` array. */
  const Capacity := 9999

  /** The end-of-packet marker, `bufferLimit`. */
  const BufferLimit := 0xFF

  type Frame = seq<Byte>

  function Zeros(n: nat): (z: seq<Byte>)
    ensures |z| == n
    ensures forall i :: 0 <= i < n ==> z[i] == 0
  {
    seq(n, _ => 0)
  }

  /** The current and the previously stored byte are both 0xFF. */
  predicate AtBoundary(acc: seq<Byte>, b: Byte)
  {
    |acc| > 0 && b == BufferLimit && acc[|acc| - 1] == BufferLimit
  }

  datatype Step =
    | Overflow                 // the store at index 9999 throws
    | Stored(acc: seq<Byte>)   // `count++`
    | Dropped                  // boundary at the wrong length: silently discarded
    | Accepted(frame: Frame)   // boundary at `count == bufferSize`

  /** One byte against the bytes accumulated since the last boundary. */
  function FrameStep(acc: seq<Byte>, b: Byte, bufferSize: int): Step
  {
    if |acc| >= Capacity then Overflow
    else if AtBoundary(acc, b) then
      if |acc| == bufferSize then Accepted(acc + [b] + Zeros(Capacity - |acc| - 1)) else Dropped
    else Stored(acc + [b])
  }

  /** The framer's state: the accumulated bytes (`serialData[..count]`), the
      two inbound queues, the `streamingData` latch, and whether the reader
      thread has died of an out-of-range store. */
  datatype Framer = Framer(acc: seq<Byte>, left: seq<Frame>, right: seq<Frame>, streaming: bool, faulted: bool)

  /** One iteration of the inner loop. */
  function Feed(s: Framer, b: Byte, bufferSize: int): Framer
  {
    if s.faulted then s
    else
      match FrameStep(s.acc, b, bufferSize)
      case Overflow => s.(faulted := true)
      case Stored(acc') => s.(acc := acc')
      case Dropped => s.(acc := [])
      case Accepted(f) =>
        if IsBitSet(f[HandByte], HandBit) then s.(acc := [], right := s.right + [f], streaming := true)
        else s.(acc := [], left := s.left + [f], streaming := true)
  }

  /** The inner loop over a sequence of available bytes. */
  function Run(s: Framer, bytes: seq<Byte>, bufferSize: int): Framer
  {
    if bytes == [] then s
    else Feed(Run(s, bytes[..|bytes| - 1], bufferSize), bytes[|bytes| - 1], bufferSize)
  }

  /** A frame is emitted exactly on a boundary seen at `count == bufferSize`;
      a boundary at any other count, and every frame, leave `count` at 0;
      every other byte adds one to `count`. */
  lemma FeedEmitsIff(s: Framer, b: Byte, bufferSize: int)
    requires !s.faulted && |s.acc| < Capacity
    ensures var t := Feed(s, b, bufferSize);
      |t.left| + |t.right| == |s.left| + |s.right| + (if AtBoundary(s.acc, b) && |s.acc| == bufferSize then 1 else 0)
    ensures var t := Feed(s, b, bufferSize);
      if AtBoundary(s.acc, b) then t.acc == [] else t.acc == s.acc + [b]
    ensures !Feed(s, b, bufferSize).faulted
  {
  }

  /** Running over a concatenation is running over each part in turn. */
  lemma {:induction false} RunConcat(s: Framer, a: seq<Byte>, b: seq<Byte>, bufferSize: int)
    ensures Run(s, a + b, bufferSize) == Run(Run(s, a, bufferSize), b, bufferSize)
  {
    if b == [] {
      assert a + b == a;
    } else {
      var b' := b[..|b| - 1];
      assert (a + b)[..|a + b| - 1] == a + b';
      RunConcat(s, a, b', bufferSize);
    }
  }

  /** The framer only appends to its queues: nothing queued before is lost
      or reordered, so each queue keeps arrival order. */
  lemma {:induction false} RunOnlyAppends(s: Framer, bytes: seq<Byte>, bufferSize: int)
    ensures s.left <= Run(s, bytes, bufferSize).left
    ensures s.right <= Run(s, bytes, bufferSize).right
    ensures s.streaming ==> Run(s, bytes, bufferSize).streaming
  {
    if bytes != [] {
      RunOnlyAppends(s, bytes[..|bytes| - 1], bufferSize);
    }
  }

  predicate NoSentinelPair(q: seq<Byte>)
  {
    forall i :: 0 <= i < |q| - 1 ==> !(q[i] == BufferLimit && q[i + 1] == BufferLimit)
  }

  /** What every queued frame looks like: the full array, ending its payload
      with two 0xFF at indices `bufferSize - 1` and `bufferSize`, no earlier
      pair of 0xFF, and zeros after. */
  predicate WellFormedFrame(f: Frame, bufferSize: int)
  {
    && |f| == Capacity
    && 0 < bufferSize < Capacity
    && f[bufferSize - 1] == BufferLimit && f[bufferSize] == BufferLimit
    && NoSentinelPair(f[..bufferSize])
    && forall i :: bufferSize < i < Capacity ==> f[i] == 0
  }

  /** The framer invariant: the accumulation fits the array and holds no
      boundary, every queued frame is well formed, and each queue holds
      only frames of its hand. */
  predicate Inv(s: Framer, bufferSize: int)
  {
    QueuesInv(s.acc, s.left, s.right, bufferSize)
  }

  /** `Inv` on the parts of the framer it constrains: the latch and the
      reader's fate play no part. */
  predicate QueuesInv(acc: seq<Byte>, left: seq<Frame>, right: seq<Frame>, bufferSize: int)
  {
    && |acc| <= Capacity
    && NoSentinelPair(acc)
    && (forall f :: f in left ==> WellFormedFrame(f, bufferSize) && IsLeftFrame(f))
    && (forall f :: f in right ==> WellFormedFrame(f, bufferSize) && !IsLeftFrame(f))
  }

  /** Taking frames off the front of the queues keeps the invariant,
      whatever happens to the latch meanwhile. */
  lemma DequeuePreservesInv(s: Framer, t: Framer, kl: nat, kr: nat, bufferSize: int)
    requires Inv(s, bufferSize) && kl <= |s.left| && kr <= |s.right|
    requires t.acc == s.acc && t.left == s.left[kl..] && t.right == s.right[kr..]
    ensures Inv(t, bufferSize)
  {
    assert forall f :: f in s.left[kl..] ==> f in s.left;
    assert forall f :: f in s.right[kr..] ==> f in s.right;
  }

  lemma {:induction false} FeedPreservesInv(s: Framer, b: Byte, bufferSize: int)
    requires Inv(s, bufferSize)
    ensures Inv(Feed(s, b, bufferSize), bufferSize)
  {
    if !s.faulted && |s.acc| < Capacity {
      if AtBoundary(s.acc, b) && |s.acc| == bufferSize {
        var f := s.acc + [b] + Zeros(Capacity - |s.acc| - 1);
        assert f[..bufferSize] == s.acc;
        assert WellFormedFrame(f, bufferSize);
      } else if !AtBoundary(s.acc, b) {
        var q := s.acc + [b];
        forall i | 0 <= i < |q| - 1
          ensures !(q[i] == BufferLimit && q[i + 1] == BufferLimit)
        {
          if i + 1 < |s.acc| {
            assert q[i] == s.acc[i] && q[i + 1] == s.acc[i + 1];
          }
        }
      }
    }
  }

  /** The invariant holds after any run, so the hand tag the framer routes
      by agrees with the handedness the decoder reads from the same bit:
      right-queue frames decode as not-left, and left-queue frames as left. */
  lemma {:induction false} RunPreservesInv(s: Framer, bytes: seq<Byte>, bufferSize: int)
    requires Inv(s, bufferSize)
    ensures Inv(Run(s, bytes, bufferSize), bufferSize)
  {
    if bytes != [] {
      RunPreservesInv(s, bytes[..|bytes| - 1], bufferSize);
      FeedPreservesInv(Run(s, bytes[..|bytes| - 1], bufferSize), bytes[|bytes| - 1], bufferSize);
    }
  }

  /** Bytes that form no boundary are only accumulated. */
  lemma {:induction false} RunAccumulates(s: Framer, q: seq<Byte>, bufferSize: int)
    requires !s.faulted
    requires |s.acc| + |q| <= Capacity
    requires NoSentinelPair(s.acc + q)
    ensures Run(s, q, bufferSize) == s.(acc := s.acc + q)
  {
    if q != [] {
      var q' := q[..|q| - 1];
      var last := q[|q| - 1];
      assert (s.acc + q')  == (s.acc + q)[..|s.acc + q| - 1];
      assert NoSentinelPair(s.acc + q') by {
        var p := s.acc + q;
        forall i | 0 <= i < |s.acc + q'| - 1
          ensures !((s.acc + q')[i] == BufferLimit && (s.acc + q')[i + 1] == BufferLimit)
        {
          assert (s.acc + q')[i] == p[i] && (s.acc + q')[i + 1] == p[i + 1];
        }
      }
      RunAccumulates(s, q', bufferSize);
      var acc' := s.acc + q';
      if |acc'| > 0 {
        var p := s.acc + q;
        assert p[|acc'| - 1] == acc'[|acc'| - 1] && p[|acc'|] == last;
      }
      assert !AtBoundary(acc', last);
      assert acc' + [last] == s.acc + q;
    }
  }

  lemma AppendPair(p: seq<Byte>, x: Byte)
    ensures p + [x] + [x] == p + [x, x]
  {
    assert (p + [x] + [x])[|p|..] == [x, x];
  }

  /** The second 0xFF of a boundary arriving at `count == bufferSize`
      emits the accumulated bytes, the 0xFF and zeros, onto the queue bit 3
      of byte 11 selects. */
  lemma FeedAccepts(t: Framer, bufferSize: int)
    requires !t.faulted && 0 < bufferSize < Capacity
    requires |t.acc| == bufferSize && AtBoundary(t.acc, BufferLimit)
    ensures var f := t.acc + [BufferLimit] + Zeros(Capacity - bufferSize - 1);
      Feed(t, BufferLimit, bufferSize)
      == if IsLeftFrame(f) then t.(acc := [], left := t.left + [f], streaming := true)
         else t.(acc := [], right := t.right + [f], streaming := true)
  {
  }

  /** The framing round trip: from an empty accumulation, a payload of
      `bufferSize - 1` bytes without a 0xFF pair (and not ending in 0xFF)
      followed by two 0xFF yields exactly that frame, padded with zeros, on
      the queue its bit 3 of byte 11 selects, and `count` back at 0. */
  lemma {:induction false} FrameRoundTrip(s: Framer, payload: seq<Byte>, bufferSize: int)
    requires !s.faulted && s.acc == []
    requires 0 < bufferSize < Capacity
    requires |payload| == bufferSize - 1
    requires NoSentinelPair(payload + [BufferLimit])
    ensures var f := payload + [BufferLimit, BufferLimit] + Zeros(Capacity - bufferSize - 1);
      Run(s, payload + [BufferLimit, BufferLimit], bufferSize)
      == if IsLeftFrame(f) then s.(left := s.left + [f], streaming := true)
         else s.(right := s.right + [f], streaming := true)
  {
    var q := payload + [BufferLimit];
    assert s.acc + q == q;
    RunAccumulates(s, q, bufferSize);
    var bytes := q + [BufferLimit];
    AppendPair(payload, BufferLimit);
    assert bytes[..|bytes| - 1] == q;
    FeedAccepts(s.(acc := q), bufferSize);
  }
}
