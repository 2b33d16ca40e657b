/** The serial reader (`CSharpSerial`): it frames the dongle's byte stream
    into per-hand packet queues, hands the queued packets to the two
    devices, keeps a per-hand connection debounce and the outbound vibration
    queues, writes commands to the stream, and at start-up reads the
    gyroscope offsets back from the devices. The stream is a flag saying it
    exists and is open plus the log of lines written to it; the bytes and
    reply lines it delivers are parameters. */
module Serial {
  import opened Wire
  import opened Vectors
  import opened Commands
  import opened Text
  import opened Framing
  import opened Packet
  import opened DeviceModel
  import opened SerialModel
  import opened Device

  class CSharpSerial {
    const leftDevice: EteeDevice
    const rightDevice: EteeDevice
    /** The packet length the framer accepts (set in the inspector). */
    const bufferSize: int
    const disconnectedThreshold: int

    /** `stream != null && stream.IsOpen`. */
    var streamOpen: bool
    /** The lines written to the stream, in order. */
    var written: seq<Command>
    var streamingData: bool

    /** The reader thread's `serialData` array and `count`. */
    var serialData: array<Byte>
    var count: int
    var leftQueue: seq<Frame>
    var rightQueue: seq<Frame>
    /** The reader thread has ended with an exception. */
    var readerFaulted: bool

    var sendCommandQueueLeft: seq<string>
    var sendCommandQueueRight: seq<string>
    var sendVibrationToLeft: bool
    var sendVibrationToRight: bool

    var leftConnected: bool
    var rightConnected: bool
    var leftCounter: int
    var rightCounter: int

    var requestingOffsetLeft: bool
    var requestingOffsetRight: bool

    ghost function LinkState(): Link
      reads this
    {
      Link(streamOpen, written, streamingData)
    }

    /** The bytes accumulated since the last boundary, `serialData[..count]`. */
    ghost function Accumulated(): seq<Byte>
      reads this`serialData, this`count, serialData
      requires 0 <= count <= serialData.Length
    {
      serialData[..count]
    }

    /** The framer's state: the accumulated bytes, both inbound queues, the
        latch and whether the reader thread is still alive. */
    ghost function FramerState(): Framer
      reads this, serialData
      requires 0 <= count <= serialData.Length
    {
      Framer(Accumulated(), leftQueue, rightQueue, streamingData, readerFaulted)
    }

    ghost function LeftPresence(): Presence
      reads this
    {
      Presence(leftConnected, leftCounter)
    }

    ghost function RightPresence(): Presence
      reads this
    {
      Presence(rightConnected, rightCounter)
    }

    /** The array has its 9999 bytes, zero past `count`. */
    ghost predicate BufferValid()
      reads this`serialData, this`count, serialData
    {
      && serialData.Length == Capacity && 0 <= count <= Capacity
      && forall i :: count <= i < Capacity ==> serialData[i] == 0
    }

    ghost predicate FramerValid()
      reads this, serialData
    {
      BufferValid() && QueuesInv(Accumulated(), leftQueue, rightQueue, bufferSize)
    }

    ghost predicate Valid()
      reads this, serialData, leftDevice, leftDevice.Repr, rightDevice, rightDevice.Repr
    {
      && FramerValid()
      && leftDevice.Valid() && rightDevice.Valid()
      && leftDevice.Repr !! rightDevice.Repr
      && this !in leftDevice.Repr && this !in rightDevice.Repr
      && serialData !in leftDevice.Repr && serialData !in rightDevice.Repr
    }

    /** `Init`, `StartThread` and the start of `ThreadLoop`: empty queues,
        both hands disconnected, an empty array at `count` 0, streaming off,
        and both offsets still to be requested. */
    constructor (left: EteeDevice, right: EteeDevice, bufferSize: int, disconnectedThreshold: int, streamOpen: bool)
      requires left.Valid() && right.Valid() && left.Repr !! right.Repr
      ensures Valid()
      ensures leftDevice == left && rightDevice == right
      ensures this.bufferSize == bufferSize && this.disconnectedThreshold == disconnectedThreshold
      ensures FramerState() == Framer([], [], [], false, false)
      ensures LinkState() == Link(streamOpen, [], false)
      ensures LeftPresence() == Presence(false, 0) && RightPresence() == Presence(false, 0)
      ensures sendCommandQueueLeft == [] && sendCommandQueueRight == []
      ensures !sendVibrationToLeft && !sendVibrationToRight
      ensures requestingOffsetLeft && requestingOffsetRight
    {
      leftDevice, rightDevice := left, right;
      this.bufferSize := bufferSize;
      this.disconnectedThreshold := disconnectedThreshold;
      this.streamOpen := streamOpen;
      written := [];
      streamingData := false;
      serialData := new Byte[Capacity](_ => 0);
      count := 0;
      leftQueue, rightQueue := [], [];
      readerFaulted := false;
      sendCommandQueueLeft, sendCommandQueueRight := [], [];
      sendVibrationToLeft, sendVibrationToRight := false, false;
      leftConnected, rightConnected := false, false;
      leftCounter, rightCounter := 0, 0;
      requestingOffsetLeft, requestingOffsetRight := true, true;
    }

    // ------------------------------------------------------------ framing

    /** One pass of the inner read loop on the byte `b`. Storing at index
        9999 throws and ends the reader thread. */
    method ReadByte(b: Byte)
      requires FramerValid()
      modifies this`serialData, this`count, this`leftQueue, this`rightQueue, this`streamingData,
               this`readerFaulted, serialData
      ensures FramerValid()
      ensures FramerState() == Feed(old(FramerState()), b, bufferSize)
      ensures serialData == old(serialData) || fresh(serialData)
    {
      ghost var s := FramerState();
      FeedPreservesInv(s, b, bufferSize);
      if readerFaulted {
        return;
      }
      if count == Capacity {
        readerFaulted := true;
        return;
      }
      serialData[count] := b;
      if count > 0 && serialData[count] == BufferLimit && serialData[count - 1] == BufferLimit {
        assert AtBoundary(s.acc, b);
        if count == bufferSize {
          streamingData := true;
          assert serialData[..] == s.acc + [b] + Zeros(Capacity - |s.acc| - 1);
          var isRight := IsBitSet(serialData[11], 3);
          if isRight {
            rightQueue := rightQueue + [serialData[..]];
          } else {
            leftQueue := leftQueue + [serialData[..]];
          }
          serialData := new Byte[Capacity](_ => 0);
          count := 0;
        } else {
          serialData := new Byte[Capacity](_ => 0);
          count := 0;
        }
      } else {
        assert !AtBoundary(s.acc, b);
        count := count + 1;
        assert serialData[..count] == s.acc + [b];
      }
    }

    /** The inner read loop over the bytes available, which runs only while
        no offset request is pending. */
    method ReadAvailable(bytes: seq<Byte>)
      requires FramerValid()
      modifies this`serialData, this`count, this`leftQueue, this`rightQueue, this`streamingData,
               this`readerFaulted, serialData
      ensures FramerValid()
      ensures FramerState()
        == if requestingOffsetLeft || requestingOffsetRight then old(FramerState())
           else Run(old(FramerState()), bytes, bufferSize)
      ensures serialData == old(serialData) || fresh(serialData)
    {
      var i := 0;
      while i < |bytes| && !requestingOffsetLeft && !requestingOffsetRight
        invariant 0 <= i <= |bytes|
        invariant FramerValid()
        invariant FramerState() == Run(old(FramerState()), bytes[..i], bufferSize)
        invariant requestingOffsetLeft || requestingOffsetRight ==> i == 0
        invariant serialData == old(serialData) || fresh(serialData)
      {
        ReadByte(bytes[i]);
        assert bytes[..i + 1][..i] == bytes[..i];
        i := i + 1;
      }
      assert bytes[..0] == [] && bytes[..|bytes|] == bytes;
    }

    // ---------------------------------------------------------- outbound

    /** `SendCommandToDevice`. */
    method SendCommandToDevice(command: Command)
      modifies this`written, this`streamingData
      ensures LinkState() == Send(old(LinkState()), command)
    {
      if !streamOpen {
        return;
      }
      if command == Text(StartStreamingData) {
        streamingData := true;
      }
      written := written + [command];
    }

    /** The device's calls into the serial object, in the order it makes
        them. */
    method SendCommands(cmds: seq<Command>)
      modifies this`written, this`streamingData
      ensures LinkState() == SendAll(old(LinkState()), cmds)
    {
      var i := 0;
      while i < |cmds|
        invariant 0 <= i <= |cmds|
        invariant SendAll(old(LinkState()), cmds) == SendAll(LinkState(), cmds[i..])
      {
        SendCommandToDevice(cmds[i]);
        assert cmds[i..][1..] == cmds[i + 1..];
        i := i + 1;
      }
    }

    method EnableDataStreaming()
      modifies this`written, this`streamingData
      ensures LinkState() == Send(old(LinkState()), Text(StartStreamingData))
    {
      SendCommandToDevice(Text(StartStreamingData));
    }

    method DisableDataStreaming()
      modifies this`written, this`streamingData
      ensures LinkState() == Send(old(LinkState()), Text(StopStreamingData))
    {
      SendCommandToDevice(Text(StopStreamingData));
    }

    /** The first test of the reader loop: with no offset request pending
        and streaming off, streaming is enabled. */
    method StartStreamingWhenReady()
      modifies this`written, this`streamingData
      ensures LinkState()
        == if !old(streamingData) && !requestingOffsetLeft && !requestingOffsetRight
           then Send(old(LinkState()), Text(StartStreamingData)) else old(LinkState())
      ensures streamOpen && !requestingOffsetLeft && !requestingOffsetRight ==> streamingData
    {
      if !streamingData && !requestingOffsetLeft && !requestingOffsetRight {
        EnableDataStreaming();
      }
    }

    /** `SendCalibratedGyroOffsetLeftCoroutine`, its waits dropped. */
    method SendCalibratedGyroOffsetLeft(offset: Vec3)
      modifies this`written, this`streamingData
      ensures LinkState() == SendAll(old(LinkState()), GyroOffsetUpload(Left, offset))
    {
      ghost var cs, l0 := GyroOffsetUpload(Left, offset), LinkState();
      SendCommandToDevice(SetGyroOffset(Left, offset));
      assert SendAll(l0, cs) == SendAll(LinkState(), cs[1..]);
      EnableDataStreaming();
      assert SendAll(l0, cs) == SendAll(LinkState(), cs[2..]);
    }

    /** `SendCalibratedGyroOffsetRightCoroutine`, its waits dropped. */
    method SendCalibratedGyroOffsetRight(offset: Vec3)
      modifies this`written, this`streamingData
      ensures LinkState() == SendAll(old(LinkState()), GyroOffsetUpload(Right, offset))
    {
      SendCommandToDevice(SetGyroOffset(Right, offset));
    }

    /** `SendCalibratedMagOffset{Left,Right}Coroutine`, their waits dropped:
        each axis twice, X, then Y, then Z. */
    method SendCalibratedMagOffset(hand: Hand, offset: Vec3)
      modifies this`written, this`streamingData
      ensures LinkState() == SendAll(old(LinkState()), MagOffsetUpload(hand, offset))
    {
      ghost var cs, l0 := MagOffsetUpload(hand, offset), LinkState();
      var message := SetMagOffset(hand, X, offset.x);
      SendCommandToDevice(message);
      assert SendAll(l0, cs) == SendAll(LinkState(), cs[1..]);
      SendCommandToDevice(message);
      assert SendAll(l0, cs) == SendAll(LinkState(), cs[2..]);
      message := SetMagOffset(hand, Y, offset.y);
      SendCommandToDevice(message);
      assert SendAll(l0, cs) == SendAll(LinkState(), cs[3..]);
      SendCommandToDevice(message);
      assert SendAll(l0, cs) == SendAll(LinkState(), cs[4..]);
      message := SetMagOffset(hand, Z, offset.z);
      SendCommandToDevice(message);
      assert SendAll(l0, cs) == SendAll(LinkState(), cs[5..]);
      SendCommandToDevice(message);
      assert SendAll(l0, cs) == SendAll(LinkState(), cs[6..]);
    }

    // --------------------------------------------------------- inbound

    /** `ReadingQueues`: the right queue, then the left one. Each non-empty
        queue marks its hand connected and resets its counter, and the first
        `Drained(n)` of its `n` frames are handed to the device in arrival
        order, the commands their decoding asks for going out on the
        stream; the rest stay queued. */
    method ReadingQueues(now: real)
      requires Valid()
      modifies this`rightQueue, this`rightConnected, this`rightCounter, this`leftQueue, this`leftConnected,
               this`leftCounter, this`written, this`streamingData, rightDevice.Repr, leftDevice.Repr
      ensures Valid()
      ensures var qr, kr := old(rightQueue), Drained(|old(rightQueue)|);
        var ql, kl := old(leftQueue), Drained(|old(leftQueue)|);
        && rightQueue == qr[kr..] && leftQueue == ql[kl..]
        && RightPresence() == (if |qr| > 0 then Heard else old(RightPresence()))
        && LeftPresence() == (if |ql| > 0 then Heard else old(LeftPresence()))
        && Decodable(qr[..kr]) && Decodable(ql[..kl])
        && var (r, l1) := Consume(old(rightDevice.State()), old(LinkState()), qr[..kr], now);
           var (l, l2) := Consume(old(leftDevice.State()), l1, ql[..kl], now);
           rightDevice.State() == r && leftDevice.State() == l && LinkState() == l2
    {
      DrainRight(now);
      DrainLeft(now);
    }

    /** One dequeued frame: `UpdateValuesFromController` on the device,
        then the commands its decoding asks for sent in order. */
    method HandleFrame(device: EteeDevice, data: Frame, now: real)
      requires device.Valid() && this !in device.Repr && |data| >= MinLength
      modifies this`written, this`streamingData, device.Repr
      ensures device.Valid()
      ensures device.State() == Decode(old(device.State()), data, now).0
      ensures LinkState() == SendAll(old(LinkState()), Decode(old(device.State()), data, now).1)
    {
      var cmds := device.UpdateValuesFromController(data, now);
      SendFrom(device, cmds);
    }

    /** `SendCommands` on behalf of `device`: the stream takes the commands
        and the device, which the stream does not share, is left as it was. */
    method SendFrom(device: EteeDevice, cmds: seq<Command>)
      requires device.Valid() && this !in device.Repr
      modifies this`written, this`streamingData
      ensures device.Valid() && device.State() == old(device.State())
      ensures LinkState() == SendAll(old(LinkState()), cmds)
    {
      SendCommands(cmds);
    }

    /** The right half of `ReadingQueues`. */
    method DrainRight(now: real)
      requires Valid()
      modifies this`rightQueue, this`rightConnected, this`rightCounter, this`written, this`streamingData,
               rightDevice.Repr
      ensures Valid()
      ensures var q, k := old(rightQueue), Drained(|old(rightQueue)|);
        && rightQueue == q[k..]
        && RightPresence() == (if |q| > 0 then Heard else old(RightPresence()))
        && Decodable(q[..k])
        && (rightDevice.State(), LinkState()) == Consume(old(rightDevice.State()), old(LinkState()), q[..k], now)
    {
      ghost var q, fs := rightQueue, FramerState();
      QueuedDecodable(q, bufferSize);
      if |rightQueue| > 0 {
        rightConnected := true;
        DequeueRight(now);
        rightCounter := 0;
      } else {
        assert q[..0] == [];
      }
      DequeuePreservesInv(fs, FramerState(), 0, Drained(|q|), bufferSize);
    }

    /** The `for` loop of `ReadingQueues` on the right queue: `i` counts up
        while the queue shrinks, so the loop stops after `Drained(n)` of
        its `n` frames. */
    method DequeueRight(now: real)
      requires rightDevice.Valid() && this !in rightDevice.Repr && Decodable(rightQueue)
      modifies this`rightQueue, this`written, this`streamingData, rightDevice.Repr
      ensures rightDevice.Valid()
      ensures var q, k := old(rightQueue), Drained(|old(rightQueue)|);
        && rightQueue == q[k..] && Decodable(q[..k])
        && (rightDevice.State(), LinkState()) == Consume(old(rightDevice.State()), old(LinkState()), q[..k], now)
    {
      ghost var q, s0, l0 := rightQueue, rightDevice.State(), LinkState();
      var i := 0;
      ghost var done: seq<Frame> := [];
      while i < |rightQueue|
        invariant 0 <= i && 2 * i <= |q| + 1
        invariant |done| == i && q == done + rightQueue && Decodable(done)
        invariant rightDevice.Valid()
        invariant (rightDevice.State(), LinkState()) == Consume(s0, l0, done, now)
        decreases |rightQueue|
      {
        var data := rightQueue[0];
        ShiftHead(done, rightQueue);
        rightQueue := rightQueue[1..];
        ConsumeExtend(s0, l0, done, data, now, rightDevice.State(), LinkState());
        HandleFrame(rightDevice, data, now);
        done := done + [data];
        i := i + 1;
      }
      DrainedExit(|q|, i);
      HandledPrefix(done, rightQueue);
    }

    /** The left half of `ReadingQueues`, the same on the left queue. */
    method DrainLeft(now: real)
      requires Valid()
      modifies this`leftQueue, this`leftConnected, this`leftCounter, this`written, this`streamingData,
               leftDevice.Repr
      ensures Valid()
      ensures var q, k := old(leftQueue), Drained(|old(leftQueue)|);
        && leftQueue == q[k..]
        && LeftPresence() == (if |q| > 0 then Heard else old(LeftPresence()))
        && Decodable(q[..k])
        && (leftDevice.State(), LinkState()) == Consume(old(leftDevice.State()), old(LinkState()), q[..k], now)
    {
      ghost var q, fs := leftQueue, FramerState();
      QueuedDecodable(q, bufferSize);
      if |leftQueue| > 0 {
        leftConnected := true;
        DequeueLeft(now);
        leftCounter := 0;
      } else {
        assert q[..0] == [];
      }
      DequeuePreservesInv(fs, FramerState(), Drained(|q|), 0, bufferSize);
    }

    /** The `for` loop of `ReadingQueues` on the left queue: `i` counts up
        while the queue shrinks, so the loop stops after `Drained(n)` of
        its `n` frames. */
    method DequeueLeft(now: real)
      requires leftDevice.Valid() && this !in leftDevice.Repr && Decodable(leftQueue)
      modifies this`leftQueue, this`written, this`streamingData, leftDevice.Repr
      ensures leftDevice.Valid()
      ensures var q, k := old(leftQueue), Drained(|old(leftQueue)|);
        && leftQueue == q[k..] && Decodable(q[..k])
        && (leftDevice.State(), LinkState()) == Consume(old(leftDevice.State()), old(LinkState()), q[..k], now)
    {
      ghost var q, s0, l0 := leftQueue, leftDevice.State(), LinkState();
      var i := 0;
      ghost var done: seq<Frame> := [];
      while i < |leftQueue|
        invariant 0 <= i && 2 * i <= |q| + 1
        invariant |done| == i && q == done + leftQueue && Decodable(done)
        invariant leftDevice.Valid()
        invariant (leftDevice.State(), LinkState()) == Consume(s0, l0, done, now)
        decreases |leftQueue|
      {
        var data := leftQueue[0];
        ShiftHead(done, leftQueue);
        leftQueue := leftQueue[1..];
        ConsumeExtend(s0, l0, done, data, now, leftDevice.State(), LinkState());
        HandleFrame(leftDevice, data, now);
        done := done + [data];
        i := i + 1;
      }
      DrainedExit(|q|, i);
      HandledPrefix(done, leftQueue);
    }

    // ------------------------------------------------------- connection

    /** `UpdateDisconnectedCounters`, called on every fixed tick. */
    method UpdateDisconnectedCounters()
      modifies this`rightCounter, this`leftCounter
      ensures RightPresence() == Tick(old(RightPresence()))
      ensures LeftPresence() == Tick(old(LeftPresence()))
    {
      rightCounter := rightCounter + 1;
      leftCounter := leftCounter + 1;
    }

    /** `CheckIfConnected`. */
    method CheckIfConnected()
      modifies this`rightConnected, this`leftConnected
      ensures RightPresence() == Check(old(RightPresence()), disconnectedThreshold)
      ensures LeftPresence() == Check(old(LeftPresence()), disconnectedThreshold)
    {
      if rightCounter > disconnectedThreshold {
        rightConnected := false;
      }
      if leftCounter > disconnectedThreshold {
        leftConnected := false;
      }
    }

    // ------------------------------------------------- vibration queues

    /** `CheckVibrationQueues`. */
    method CheckVibrationQueues()
      modifies this`sendCommandQueueLeft, this`sendCommandQueueRight
      ensures sendCommandQueueLeft == Released(leftConnected, old(sendCommandQueueLeft))
      ensures sendCommandQueueRight == Released(rightConnected, old(sendCommandQueueRight))
    {
      if !leftConnected && |sendCommandQueueLeft| > 0 {
        sendCommandQueueLeft := [];
      }
      if !rightConnected && |sendCommandQueueRight| > 0 {
        sendCommandQueueRight := [];
      }
    }

    /** `DequeueVibrationCommand` for `"left"` or `"right"`: the head command
        is taken, the hand's flag cleared and its queue emptied, and the
        command is written straight to the stream, bypassing the latch.
        `ok` is false where the source throws: on an empty queue, before
        anything changes, and on a missing or closed stream, after the queue
        is emptied. Any other hand name does nothing. */
    method DequeueVibrationCommand(hand: string) returns (ok: bool)
      modifies this`sendCommandQueueLeft, this`sendVibrationToLeft, this`sendCommandQueueRight,
               this`sendVibrationToRight, this`written
      ensures hand != "left" && hand != "right" ==> ok && unchanged(this)
      ensures hand == "left" ==>
        && sendCommandQueueRight == old(sendCommandQueueRight) && sendVibrationToRight == old(sendVibrationToRight)
        && if old(sendCommandQueueLeft) == [] then !ok && unchanged(this)
           else && sendCommandQueueLeft == [] && !sendVibrationToLeft && ok == streamOpen
                && written == old(written) + (if streamOpen then [Text(old(sendCommandQueueLeft)[0])] else [])
      ensures hand == "right" ==>
        && sendCommandQueueLeft == old(sendCommandQueueLeft) && sendVibrationToLeft == old(sendVibrationToLeft)
        && if old(sendCommandQueueRight) == [] then !ok && unchanged(this)
           else && sendCommandQueueRight == [] && !sendVibrationToRight && ok == streamOpen
                && written == old(written) + (if streamOpen then [Text(old(sendCommandQueueRight)[0])] else [])
    {
      ok := true;
      if hand == "left" {
        if sendCommandQueueLeft == [] {
          return false;
        }
        var command1 := sendCommandQueueLeft[0];
        sendVibrationToLeft := false;
        sendCommandQueueLeft := [];
        if !streamOpen {
          return false;
        }
        written := written + [Text(command1)];
      }
      if hand == "right" {
        if sendCommandQueueRight == [] {
          return false;
        }
        var command2 := sendCommandQueueRight[0];
        sendVibrationToRight := false;
        sendCommandQueueRight := [];
        if !streamOpen {
          return false;
        }
        written := written + [Text(command2)];
      }
    }

    // -------------------------------------------------- offset bring-up

    /** The requesting branch of the reader loop. The gyroscope loop runs;
        once both devices are calibrated, both requests are done. A reply
        the loop cannot read ends the reader thread; running out of lines
        leaves the thread blocked with both requests pending. */
    method RequestOffsets(lines: seq<string>, parse: string -> Option<real>)
      returns (consumed: nat, outcome: Outcome)
      requires Valid()
      requires requestingOffsetLeft || requestingOffsetRight
      modifies this`written, this`streamingData, this`readerFaulted, this`requestingOffsetLeft,
               this`requestingOffsetRight, leftDevice, rightDevice
      ensures Valid()
      ensures var b := GyroBringUp(GyroOf(old(leftDevice.State())), GyroOf(old(rightDevice.State())),
                                   old(LinkState()), lines, 0, parse);
        && (consumed, outcome) == (b.consumed, b.outcome)
        && leftDevice.State() == WithGyro(old(leftDevice.State()), b.left)
        && rightDevice.State() == WithGyro(old(rightDevice.State()), b.right)
        && LinkState() == b.link
      ensures readerFaulted == (old(readerFaulted) || outcome == Faulted)
      ensures !requestingOffsetLeft && !requestingOffsetRight <==> outcome == Calibrated
    {
      consumed, outcome := RequestGyroOffsets(lines, parse);
      EndBringUp(outcome);
    }

    /** After the loops: both requests are done once both devices are
        calibrated, and an exception while reading a reply ends the reader
        thread. */
    method EndBringUp(outcome: Outcome)
      requires FramerValid() && (requestingOffsetLeft || requestingOffsetRight)
      modifies this`readerFaulted, this`requestingOffsetLeft, this`requestingOffsetRight
      ensures FramerValid() && LinkState() == old(LinkState())
      ensures readerFaulted == (old(readerFaulted) || outcome == Faulted)
      ensures !requestingOffsetLeft && !requestingOffsetRight <==> outcome == Calibrated
    {
      if outcome == Calibrated {
        requestingOffsetLeft := false;
        requestingOffsetRight := false;
      } else if outcome == Faulted {
        readerFaulted := true;
      }
    }

    /** The `while (requestGyr)` loop on the reply lines `lines`: each pass
        requests the offsets and reads one line, until both devices are
        calibrated, a reply cannot be read or no line is left. */
    method RequestGyroOffsets(lines: seq<string>, parse: string -> Option<real>)
      returns (consumed: nat, outcome: Outcome)
      requires leftDevice.Valid() && rightDevice.Valid() && leftDevice.Repr !! rightDevice.Repr
      modifies this`written, this`streamingData, leftDevice, rightDevice
      ensures leftDevice.Valid() && rightDevice.Valid()
      ensures var b := GyroBringUp(GyroOf(old(leftDevice.State())), GyroOf(old(rightDevice.State())),
                                   old(LinkState()), lines, 0, parse);
        && (consumed, outcome) == (b.consumed, b.outcome)
        && leftDevice.State() == WithGyro(old(leftDevice.State()), b.left)
        && rightDevice.State() == WithGyro(old(rightDevice.State()), b.right)
        && LinkState() == b.link
    {
      ghost var l0, r0 := leftDevice.State(), rightDevice.State();
      ghost var spec := GyroBringUp(GyroOf(l0), GyroOf(r0), LinkState(), lines, 0, parse);
      WithGyroOwn(l0);
      WithGyroOwn(r0);
      consumed, outcome := 0, Starved;
      var requestGyr := true;
      while requestGyr
        invariant consumed <= |lines|
        invariant leftDevice.Valid() && rightDevice.Valid()
        invariant leftDevice.State() == WithGyro(l0, GyroOf(leftDevice.State()))
        invariant rightDevice.State() == WithGyro(r0, GyroOf(rightDevice.State()))
        invariant requestGyr ==>
          spec == GyroBringUp(GyroOf(leftDevice.State()), GyroOf(rightDevice.State()), LinkState(), lines, consumed, parse)
        invariant !requestGyr ==>
          spec == BringUp(GyroOf(leftDevice.State()), GyroOf(rightDevice.State()), LinkState(), consumed, outcome)
        decreases |lines| - consumed + (if requestGyr then 1 else 0)
      {
        ghost var l1, r1 := leftDevice.State(), rightDevice.State();
        consumed, outcome, requestGyr := GyroPass(lines, consumed, parse);
        WithGyroTwice(l0, GyroOf(l1), GyroOf(leftDevice.State()));
        WithGyroTwice(r0, GyroOf(r1), GyroOf(rightDevice.State()));
      }
    }

    /** One pass of the `while (requestGyr)` loop: the request goes out and
        line `lines[from]` is read, if there is one; a line tagged for the
        right device (tested first) or the left one stores tokens 2, 4 and 6
        as that device's offset and marks it calibrated. `more` is whether
        the loop goes on. */
    method GyroPass(lines: seq<string>, from: nat, parse: string -> Option<real>)
      returns (consumed: nat, outcome: Outcome, more: bool)
      requires from <= |lines|
      requires leftDevice.Valid() && rightDevice.Valid() && leftDevice.Repr !! rightDevice.Repr
      modifies this`written, this`streamingData, leftDevice, rightDevice
      ensures leftDevice.Valid() && rightDevice.Valid()
      ensures leftDevice.State() == WithGyro(old(leftDevice.State()), GyroOf(leftDevice.State()))
      ensures rightDevice.State() == WithGyro(old(rightDevice.State()), GyroOf(rightDevice.State()))
      ensures more ==> consumed == from + 1 <= |lines|
      ensures var b := GyroBringUp(GyroOf(old(leftDevice.State())), GyroOf(old(rightDevice.State())),
                                   old(LinkState()), lines, from, parse);
        if more then b == GyroBringUp(GyroOf(leftDevice.State()), GyroOf(rightDevice.State()), LinkState(), lines, consumed, parse)
        else b == BringUp(GyroOf(leftDevice.State()), GyroOf(rightDevice.State()), LinkState(), consumed, outcome)
    {
      ghost var l0, r0 := leftDevice.State(), rightDevice.State();
      WithGyroOwn(l0);
      WithGyroOwn(r0);
      SendCommandToDevice(Text(RequestOffsetGyro));
      consumed, outcome, more := from, Starved, false;
      if from == |lines| {
        return;
      }
      var incData := lines[from];
      consumed := from + 1;
      ghost var reply := Classify(incData, parse);
      if Contains(incData, RightGyroTag) {
        var offset := OffsetOf(incData, parse);
        if offset.None? {
          outcome := Faulted;
          return;
        }
        rightDevice.StoreGyroOffset(offset.value);
      } else if Contains(incData, LeftGyroTag) {
        var offset := OffsetOf(incData, parse);
        if offset.None? {
          outcome := Faulted;
          return;
        }
        leftDevice.StoreGyroOffset(offset.value);
      }
      assert GyroOf(leftDevice.State()) == AfterReply(GyroOf(l0), reply, true);
      assert GyroOf(rightDevice.State()) == AfterReply(GyroOf(r0), reply, false);
      if leftDevice.gyroCalibrated && rightDevice.gyroCalibrated {
        outcome := Calibrated;
      } else {
        more := true;
      }
    }
  }
}
