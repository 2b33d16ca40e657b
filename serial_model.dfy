/** Functional specification of the serial object around the framer: the
    outbound link and its streaming latch, the per-hand inbound pipelines,
    the connection debounce, the vibration queues and the gyroscope offset
    bring-up. `Serial.CSharpSerial` is proved against these functions. */
module SerialModel {
  import opened Vectors
  import opened Commands
  import opened Text
  import opened Framing
  import opened Packet
  import opened DeviceModel

  datatype Option<T> = None | Some(value: T)

  // ------------------------------------------------------------ outbound

  /** The stream as the sender sees it: whether it exists and is open, the
      lines written so far, and the `streamingData` latch. */
  datatype Link = Link(open: bool, written: seq<Command>, streaming: bool)

  /** `SendCommandToDevice`: a missing or closed stream takes nothing;
      otherwise the command is written, and the enable-streaming command
      sets the latch. */
  function Send(l: Link, c: Command): (r: Link)
    ensures !l.open ==> r == l
    ensures l.open ==> r.written == l.written + [c]
    ensures r.open == l.open
    ensures r.streaming <==> l.streaming || (l.open && IsStartStreaming(c))
  {
    if !l.open then l
    else l.(written := l.written + [c], streaming := l.streaming || IsStartStreaming(c))
  }

  /** The commands `cs` sent one after another. */
  function SendAll(l: Link, cs: seq<Command>): Link
    decreases |cs|
  {
    if cs == [] then l else SendAll(Send(l, cs[0]), cs[1..])
  }

  /** An open stream receives every command in order, a closed one none;
      the latch ends up set exactly when it was set or an enable-streaming
      command went out. */
  lemma {:induction false} SendAllSpec(l: Link, cs: seq<Command>)
    ensures SendAll(l, cs).open == l.open
    ensures SendAll(l, cs).written == l.written + (if l.open then cs else [])
    ensures SendAll(l, cs).streaming <==> l.streaming || (l.open && exists c :: c in cs && IsStartStreaming(c))
    decreases |cs|
  {
    if cs != [] {
      SendAllSpec(Send(l, cs[0]), cs[1..]);
      assert l.written + [cs[0]] + cs[1..] == l.written + cs;
      assert forall c :: c in cs <==> c == cs[0] || c in cs[1..];
    }
  }

  /** Sending two batches is sending their concatenation. */
  lemma {:induction false} SendAllConcat(l: Link, a: seq<Command>, b: seq<Command>)
    ensures SendAll(SendAll(l, a), b) == SendAll(l, a + b)
    decreases |a|
  {
    if a == [] {
      assert a + b == b;
    } else {
      SendAllConcat(Send(l, a[0]), a[1..], b);
      assert (a + b)[0] == a[0] && (a + b)[1..] == a[1..] + b;
    }
  }

  // ------------------------------------------------------------- inbound

  /** How many of `n` queued frames one pass of `ReadingQueues` handles:
      the loop `for (i = 0; i < queue.Count; i++)` dequeues as it counts,
      so it stops once `i` reaches the shrinking count. */
  function Drained(n: nat): nat
  {
    (n + 1) / 2
  }

  /** One pass handles at least one frame of a non-empty queue and leaves
      exactly `n / 2` of them, so a frame is never handled twice and only
      the newest half can wait for the next pass. */
  lemma DrainedSpec(n: nat)
    ensures Drained(n) <= n
    ensures n > 0 ==> Drained(n) >= 1
    ensures n - Drained(n) == n / 2
    ensures n >= 2 ==> Drained(n) < n
  {
  }

  /** Every frame is long enough for the device's decoder. */
  predicate Decodable(frames: seq<Frame>)
  {
    forall i :: 0 <= i < |frames| ==> |frames[i]| >= MinLength
  }

  /** Frames the framer queued are all decodable. */
  lemma QueuedDecodable(q: seq<Frame>, bufferSize: int)
    requires forall f :: f in q ==> WellFormedFrame(f, bufferSize)
    ensures Decodable(q)
  {
    assert forall i :: 0 <= i < |q| ==> q[i] in q;
  }

  /** The loop's exit: with `i` frames handled and `n - i` still queued,
      the loop stops at the first `i` with `i >= n - i`, which is
      `Drained(n)`. */
  lemma DrainedExit(n: nat, i: nat)
    requires n <= 2 * i <= n + 1
    ensures i == Drained(n)
  {
  }
  /** Moving the head of the pending frames onto the handled ones keeps
      their concatenation. */
  lemma ShiftHead(done: seq<Frame>, pending: seq<Frame>)
    requires pending != []
    ensures done + pending == (done + [pending[0]]) + pending[1..]
    ensures (done + pending)[|done|] == pending[0]
  {
    assert pending == [pending[0]] + pending[1..];
  }

  /** The handled frames are the prefix of the queue as it was. */
  lemma HandledPrefix(done: seq<Frame>, pending: seq<Frame>)
    ensures (done + pending)[..|done|] == done
  {
  }


  /** The frames decoded one after another on the device, the last one
      last: its final state and every command the decoding sent, in
      order. Like `Consume`, it is three layers of one recursion, with
      `Decode` reached only in the innermost one. */
  function DecodeAll(s: DeviceState, frames: seq<Frame>, now: real): (r: (DeviceState, seq<Command>))
    requires WellFormed(s)
    requires Decodable(frames)
    ensures WellFormed(r.0)
    decreases |frames|, 2
  {
    if frames == [] then (s, []) else DecodeLast(s, frames, now)
  }

  function DecodeLast(s: DeviceState, frames: seq<Frame>, now: real): (r: (DeviceState, seq<Command>))
    requires WellFormed(s) && Decodable(frames) && frames != []
    ensures WellFormed(r.0)
    decreases |frames|, 1
  {
    var n := |frames|;
    DecodeStep(s, frames[..n - 1], frames[n - 1], now)
  }

  function DecodeStep(s: DeviceState, prefix: seq<Frame>, f: Frame, now: real): (r: (DeviceState, seq<Command>))
    requires WellFormed(s) && Decodable(prefix) && |f| >= MinLength
    ensures WellFormed(r.0)
    decreases |prefix| + 1, 0
  {
    var init := DecodeAll(s, prefix, now);
    DecodeKeepsWellFormed(init.0, f, now);
    var step := Decode(init.0, f, now);
    (step.0, init.1 + step.1)
  }

  /** Decoding one more frame continues from where the others left the
      device, and appends that frame's commands. */
  lemma DecodeAllSnoc(s: DeviceState, frames: seq<Frame>, f: Frame, now: real)
    requires WellFormed(s) && Decodable(frames) && |f| >= MinLength
    ensures Decodable(frames + [f])
    ensures var init := DecodeAll(s, frames, now);
      WellFormed(init.0)
      && DecodeAll(s, frames + [f], now) == (Decode(init.0, f, now).0, init.1 + Decode(init.0, f, now).1)
  {
    var g := frames + [f];
    assert g[..|frames|] == frames;
    assert DecodeAll(s, g, now) == DecodeLast(s, g, now) == DecodeStep(s, frames, f, now);
  }

  /** One queued frame handed to the device: it is decoded, and the
      commands the decoding asks for go out on the link in order. */
  function Handled(s: DeviceState, l: Link, frame: Frame, now: real): (r: (DeviceState, Link))
    requires WellFormed(s) && |frame| >= MinLength
    ensures WellFormed(r.0)
  {
    DecodeKeepsWellFormed(s, frame, now);
    var (s', cmds) := Decode(s, frame, now);
    (s', SendAll(l, cmds))
  }

  /** The frames handed to the device one after another. `Consume`,
      `HandLast` and `Step` are three layers of one recursion on the
      number of frames; `Decode` is reached only in the innermost one. */
  function Consume(s: DeviceState, l: Link, frames: seq<Frame>, now: real): (r: (DeviceState, Link))
    requires WellFormed(s) && Decodable(frames)
    ensures WellFormed(r.0)
    decreases |frames|, 2
  {
    if frames == [] then (s, l) else HandLast(s, l, frames, now)
  }

  /** All but the last of `frames` handed over, then the last one. */
  function HandLast(s: DeviceState, l: Link, frames: seq<Frame>, now: real): (r: (DeviceState, Link))
    requires WellFormed(s) && Decodable(frames) && frames != []
    ensures WellFormed(r.0)
    decreases |frames|, 1
  {
    var n := |frames|;
    Step(s, l, frames[..n - 1], frames[n - 1], now)
  }

  /** `prefix` handed over, then `f`. */
  function Step(s: DeviceState, l: Link, prefix: seq<Frame>, f: Frame, now: real): (r: (DeviceState, Link))
    requires WellFormed(s) && Decodable(prefix) && |f| >= MinLength
    ensures WellFormed(r.0)
    decreases |prefix| + 1, 0
  {
    var init := Consume(s, l, prefix, now);
    Handled(init.0, init.1, f, now)
  }

  /** Handing over one more frame is one more `Handled` step. */
  lemma ConsumeSnoc(s: DeviceState, l: Link, frames: seq<Frame>, f: Frame, now: real)
    requires WellFormed(s) && Decodable(frames) && |f| >= MinLength
    ensures Decodable(frames + [f])
    ensures var init := Consume(s, l, frames, now);
      Consume(s, l, frames + [f], now) == Handled(init.0, init.1, f, now)
  {
    var g := frames + [f];
    assert g[..|frames|] == frames;
    assert Consume(s, l, g, now) == HandLast(s, l, g, now) == Step(s, l, frames, f, now);
  }

  /** `ConsumeSnoc`, stated from a state and link already known to be
      where `frames` leave them. */
  lemma ConsumeExtend(s: DeviceState, l: Link, frames: seq<Frame>, f: Frame, now: real, st: DeviceState, lk: Link)
    requires WellFormed(s) && Decodable(frames) && |f| >= MinLength
    requires (st, lk) == Consume(s, l, frames, now)
    ensures Decodable(frames + [f]) && WellFormed(st)
    ensures Consume(s, l, frames + [f], now)
      == (Decode(st, f, now).0, SendAll(lk, Decode(st, f, now).1))
  {
    ConsumeSnoc(s, l, frames, f, now);
  }

  /** Handing frames over one at a time leaves the device where decoding
      them all leaves it, and sends every command that decoding produced,
      in order and nothing else. */
  lemma {:induction false} ConsumeSpec(s: DeviceState, l: Link, frames: seq<Frame>, now: real)
    requires WellFormed(s)
    requires Decodable(frames)
    ensures Consume(s, l, frames, now) == (DecodeAll(s, frames, now).0, SendAll(l, DecodeAll(s, frames, now).1))
    decreases |frames|
  {
    if frames != [] {
      var n := |frames|;
      ConsumeSpec(s, l, frames[..n - 1], now);
      assert frames[..n - 1] + [frames[n - 1]] == frames;
      ConsumeSnoc(s, l, frames[..n - 1], frames[n - 1], now);
      DecodeAllSnoc(s, frames[..n - 1], frames[n - 1], now);
      var init := DecodeAll(s, frames[..n - 1], now);
      SendAllConcat(l, init.1, Decode(init.0, frames[n - 1], now).1);
    }
  }

  // ------------------------------------------------------- connection

  /** One hand's connection flag and silence counter. */
  datatype Presence = Presence(connected: bool, counter: int)

  /** `UpdateDisconnectedCounters`, for one hand. */
  function Tick(p: Presence): Presence
  {
    p.(counter := p.counter + 1)
  }

  /** `Tick` applied `k` times. */
  function Ticks(p: Presence, k: nat): Presence
  {
    if k == 0 then p else Tick(Ticks(p, k - 1))
  }

  /** `CheckIfConnected`, for one hand. */
  function Check(p: Presence, threshold: int): (r: Presence)
    ensures r.counter == p.counter
    ensures r.connected <==> p.connected && p.counter <= threshold
  {
    if p.counter > threshold then p.(connected := false) else p
  }

  /** A hand after `ReadingQueues` found frames on its queue. */
  const Heard := Presence(true, 0)

  lemma {:induction false} TicksCount(p: Presence, k: nat)
    ensures Ticks(p, k) == p.(counter := p.counter + k)
  {
    if k > 0 {
      TicksCount(p, k - 1);
    }
  }

  /** The debounce: after a frame, `k` fixed ticks with no frame and a check
      leave the hand connected exactly when `k` is at most the threshold,
      so a counter equal to the threshold still counts as connected; and a
      check never connects a hand. */
  lemma DebounceSpec(p: Presence, k: nat, threshold: int)
    ensures Check(Ticks(Heard, k), threshold).connected <==> k <= threshold
    ensures Check(p, threshold).connected ==> p.connected
  {
    TicksCount(Heard, k);
  }

  // -------------------------------------------------- vibration queues

  /** `CheckVibrationQueues`, for one hand: a disconnected hand's queue is
      emptied, a connected hand's queue is kept. */
  function Released(connected: bool, q: seq<string>): (r: seq<string>)
    ensures connected ==> r == q
    ensures !connected ==> r == []
  {
    if !connected && |q| > 0 then [] else q
  }

  // -------------------------------------------------- offset bring-up

  const RightGyroTag := "R:gf="
  const LeftGyroTag := "L:gf="

  /** `new Vector3(float.Parse(split[2]), float.Parse(split[4]),
      float.Parse(split[6]))` with `split = line.Split(':', ' ')`; `None`
      where the source throws (too few pieces, or a piece `parse`
      rejects). */
  function OffsetOf(line: string, parse: string -> Option<real>): (r: Option<Vec3>)
    ensures r.Some? ==>
      var split := Split(line);
      |split| >= 7 && parse(split[2]) == Some(r.value.x)
      && parse(split[4]) == Some(r.value.y) && parse(split[6]) == Some(r.value.z)
  {
    var split := Split(line);
    if |split| < 7 then None
    else
      match (parse(split[2]), parse(split[4]), parse(split[6]))
      case (Some(x), Some(y), Some(z)) => Some(Vec3(x, y, z))
      case _ => None
  }

  /** What one reply line means to the bring-up loop. */
  datatype Reply =
    | RightGyro(offset: Vec3)
    | LeftGyro(offset: Vec3)
    | Unrelated
    | Unreadable

  /** The right tag is tested first; a line with neither tag is ignored. */
  function Classify(line: string, parse: string -> Option<real>): Reply
  {
    if Contains(line, RightGyroTag) then
      match OffsetOf(line, parse)
      case Some(v) => RightGyro(v)
      case None => Unreadable
    else if Contains(line, LeftGyroTag) then
      match OffsetOf(line, parse)
      case Some(v) => LeftGyro(v)
      case None => Unreadable
    else Unrelated
  }

  /** What the bring-up loop reads and writes on a device: `gyroCalibrated`
      and `gyroscopeOffsetValues`. */
  datatype GyroState = GyroState(calibrated: bool, offset: Vec3)

  function GyroOf(s: DeviceState): GyroState
  {
    GyroState(s.gyroCalibrated, s.gyroscopeOffsetValues)
  }

  /** The device `s` with its gyroscope flag and offset taken from `g`. */
  function WithGyro(s: DeviceState, g: GyroState): (r: DeviceState)
    ensures GyroOf(r) == g
  {
    s.(gyroCalibrated := g.calibrated, gyroscopeOffsetValues := g.offset)
  }

  lemma WithGyroOwn(s: DeviceState)
    ensures WithGyro(s, GyroOf(s)) == s
  {
  }

  lemma WithGyroTwice(s: DeviceState, g: GyroState, h: GyroState)
    ensures WithGyro(WithGyro(s, g), h) == WithGyro(s, h)
  {
  }

  /** How the bring-up loop ends: both devices calibrated, blocked on a
      `ReadLine` that gets no line, or the reader thread killed by an
      exception while reading a reply. */
  datatype Outcome = Calibrated | Starved | Faulted

  datatype BringUp = BringUp(left: GyroState, right: GyroState, link: Link, consumed: nat, outcome: Outcome)

  /** A device's gyroscope state after one reply. */
  function AfterReply(g: GyroState, reply: Reply, isLeft: bool): GyroState
  {
    if isLeft && reply.LeftGyro? then GyroState(true, reply.offset)
    else if !isLeft && reply.RightGyro? then GyroState(true, reply.offset)
    else g
  }

  /** The `while (requestGyr)` loop from reply `lines[from]` on: each pass
      requests the offsets, reads one line and applies it, and the loop
      ends once both devices are calibrated. */
  function GyroBringUp(left: GyroState, right: GyroState, link: Link, lines: seq<string>, from: nat,
                       parse: string -> Option<real>): (b: BringUp)
    requires from <= |lines|
    ensures from <= b.consumed <= |lines|
    decreases |lines| - from
  {
    var link' := Send(link, Text(RequestOffsetGyro));
    if from == |lines| then BringUp(left, right, link', from, Starved)
    else
      var reply := Classify(lines[from], parse);
      if reply == Unreadable then BringUp(left, right, link', from + 1, Faulted)
      else
        var left', right' := AfterReply(left, reply, true), AfterReply(right, reply, false);
        if left'.calibrated && right'.calibrated then BringUp(left', right', link', from + 1, Calibrated)
        else GyroBringUp(left', right', link', lines, from + 1, parse)
  }

  /** `n` copies of the gyroscope offset request. */
  function Requests(n: nat): (r: seq<Command>)
    ensures |r| == n && forall c :: c in r ==> c == Text(RequestOffsetGyro)
  {
    if n == 0 then [] else Requests(n - 1) + [Text(RequestOffsetGyro)]
  }

  lemma {:induction false} RequestsPrepend(n: nat)
    ensures Requests(n + 1) == [Text(RequestOffsetGyro)] + Requests(n)
  {
    if n > 0 {
      RequestsPrepend(n - 1);
    }
  }

  /** The loop sends one offset request per pass: one per line read, and
      one more when it blocks for a line that never comes; it never
      touches the streaming latch. */
  lemma {:induction false} BringUpRequests(left: GyroState, right: GyroState, link: Link, lines: seq<string>,
                                          from: nat, parse: string -> Option<real>)
    requires from <= |lines|
    ensures var b := GyroBringUp(left, right, link, lines, from, parse);
      var passes := b.consumed - from + (if b.outcome == Starved then 1 else 0);
      && passes >= 1
      && (b.outcome == Starved ==> b.consumed == |lines|)
      && b.link.open == link.open && b.link.streaming == link.streaming
      && b.link.written == link.written + (if link.open then Requests(passes) else [])
    decreases |lines| - from
  {
    var link' := Send(link, Text(RequestOffsetGyro));
    if from < |lines| {
      var reply := Classify(lines[from], parse);
      var left', right' := AfterReply(left, reply, true), AfterReply(right, reply, false);
      if reply != Unreadable && !(left'.calibrated && right'.calibrated) {
        var b := GyroBringUp(left', right', link', lines, from + 1, parse);
        BringUpRequests(left', right', link', lines, from + 1, parse);
        var n := b.consumed - (from + 1) + (if b.outcome == Starved then 1 else 0);
        RequestsPrepend(n);
        assert link.written + [Text(RequestOffsetGyro)] + Requests(n) == link.written + Requests(n + 1);
      }
    }
  }

  /** The loop ends calibrated only with both devices calibrated; it never
      uncalibrates a device; and a device whose state it changed holds the
      offset of one of the reply lines it read for that device (tokens 2, 4
      and 6 of the line). */
  lemma {:induction false} BringUpResult(left: GyroState, right: GyroState, link: Link, lines: seq<string>,
                                        from: nat, parse: string -> Option<real>)
    requires from <= |lines|
    ensures var b := GyroBringUp(left, right, link, lines, from, parse);
      && (b.outcome == Calibrated ==> b.left.calibrated && b.right.calibrated)
      && (left.calibrated ==> b.left.calibrated) && (right.calibrated ==> b.right.calibrated)
      && (b.left != left ==>
            b.left.calibrated && exists k :: from <= k < b.consumed && Classify(lines[k], parse) == LeftGyro(b.left.offset))
      && (b.right != right ==>
            b.right.calibrated && exists k :: from <= k < b.consumed && Classify(lines[k], parse) == RightGyro(b.right.offset))
    decreases |lines| - from
  {
    var link' := Send(link, Text(RequestOffsetGyro));
    var b := GyroBringUp(left, right, link, lines, from, parse);
    if from < |lines| {
      var reply := Classify(lines[from], parse);
      var left', right' := AfterReply(left, reply, true), AfterReply(right, reply, false);
      if reply != Unreadable {
        if left'.calibrated && right'.calibrated {
          assert b.left != left ==> Classify(lines[from], parse) == LeftGyro(b.left.offset);
          assert b.right != right ==> Classify(lines[from], parse) == RightGyro(b.right.offset);
        } else {
          BringUpResult(left', right', link', lines, from + 1, parse);
          if b.left != left && b.left == left' {
            assert Classify(lines[from], parse) == LeftGyro(b.left.offset);
          }
          if b.right != right && b.right == right' {
            assert Classify(lines[from], parse) == RightGyro(b.right.offset);
          }
        }
      }
    }
  }

  /** A line carrying both tags is taken as the right device's reply, and a
      line with neither is ignored. */
  lemma ClassifySpec(line: string, parse: string -> Option<real>)
    ensures Contains(line, RightGyroTag) ==> !Classify(line, parse).LeftGyro?
    ensures !Contains(line, RightGyroTag) && !Contains(line, LeftGyroTag) ==> Classify(line, parse) == Unrelated
    ensures Classify(line, parse).RightGyro? ==> Contains(line, RightGyroTag)
    ensures Classify(line, parse).LeftGyro? ==> Contains(line, LeftGyroTag) && !Contains(line, RightGyroTag)
  {
  }

  /** With the left device already calibrated, one readable right reply
      ends the loop after one request, with the right offset stored. */
  lemma OneReplyCompletes(left: GyroState, right: GyroState, link: Link, lines: seq<string>,
                          parse: string -> Option<real>, v: Vec3)
    requires left.calibrated && |lines| > 0 && Classify(lines[0], parse) == RightGyro(v)
    ensures GyroBringUp(left, right, link, lines, 0, parse)
      == BringUp(left, GyroState(true, v), Send(link, Text(RequestOffsetGyro)), 1, Calibrated)
  {
  }
}
