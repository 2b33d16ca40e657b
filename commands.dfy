/** The outbound command vocabulary of the dongle, and the command sequences
    the offset-upload coroutines emit (their waits are not modelled, only the
    order of the commands). */
module Commands {
  import opened Vectors

  datatype Hand = Left | Right

  datatype Axis = X | Y | Z

  const StartCalibrationCommand := "BP+RB"
  const CancelCalibrationCommand := "BP+CC"
  const ResetOrientationCommand := "BP+RB"
  const StartStreamingData := "BP+AG"
  const StopStreamingData := "BP+AS"
  const RequestOffsetGyro := "BP+gf"
  const RequestOffsetMag := "BP+mf"
  const EnableHaptic := "BP+h1"
  const DisableHaptic := "BP+h0"
  const SendHaptic := "BL+MR=100"

  /** A line written to the serial stream. The offset-setting commands keep
      their numbers as values; the source renders them with
      `float.ToString`, which `WireText` takes as a parameter. */
  datatype Command =
    | Text(line: string)
    | SetGyroOffset(hand: Hand, offset: Vec3)
    | SetMagOffset(hand: Hand, axis: Axis, value: real)

  function HandPrefix(h: Hand): string
  {
    match h
    case Left => "BL"
    case Right => "BR"
  }

  function AxisName(a: Axis): string
  {
    match a
    case X => "X"
    case Y => "Y"
    case Z => "Z"
  }

  /** The text the source writes for a command, given a rendering of floats. */
  function WireText(c: Command, render: real -> string): string
  {
    match c
    case Text(line) => line
    case SetGyroOffset(h, v) =>
      HandPrefix(h) + "+gf=a" + render(v.x) + "," + render(v.y) + "," + render(v.z)
    case SetMagOffset(h, a, value) =>
      HandPrefix(h) + "+mf=" + AxisName(a) + render(value)
  }

  /** The test `command == startStreamingData` of `SendCommandToDevice`. */
  predicate IsStartStreaming(c: Command)
  {
    c == Text(StartStreamingData)
  }

  /** Whatever the float rendering, the source's string comparison with the
      enable-streaming command holds exactly for `IsStartStreaming` commands:
      every offset command is at least seven characters long. */
  lemma {:induction false} LatchTestAgrees(c: Command, render: real -> string)
    ensures WireText(c, render) == StartStreamingData <==> IsStartStreaming(c)
  {
    match c
    case Text(line) =>
    case SetGyroOffset(h, v) =>
      assert |WireText(c, render)| >= 7;
    case SetMagOffset(h, a, value) =>
      assert |WireText(c, render)| >= 7;
  }

  /** The commands `SendCalibratedGyroOffset{Left,Right}Coroutine` sends:
      the left one re-enables streaming after the offset, the right one
      does not. */
  function GyroOffsetUpload(hand: Hand, offset: Vec3): seq<Command>
  {
    match hand
    case Left => [SetGyroOffset(Left, offset), Text(StartStreamingData)]
    case Right => [SetGyroOffset(Right, offset)]
  }

  function AxisAt(i: nat): Axis
  {
    if i == 0 then X else if i == 1 then Y else Z
  }

  function Component(v: Vec3, a: Axis): real
  {
    match a
    case X => v.x
    case Y => v.y
    case Z => v.z
  }

  /** The commands `SendCalibratedMagOffset{Left,Right}Coroutine` sends. */
  function MagOffsetUpload(hand: Hand, offset: Vec3): seq<Command>
  {
    var cx := SetMagOffset(hand, X, offset.x);
    var cy := SetMagOffset(hand, Y, offset.y);
    var cz := SetMagOffset(hand, Z, offset.z);
    [cx, cx, cy, cy, cz, cz]
  }

  /** The gyroscope upload sets the hand's offset first; it ends by enabling
      streaming exactly for the left hand. */
  lemma GyroUploadShape(hand: Hand, offset: Vec3)
    ensures GyroOffsetUpload(hand, offset)[0] == SetGyroOffset(hand, offset)
    ensures var r := GyroOffsetUpload(hand, offset);
      IsStartStreaming(r[|r| - 1]) <==> hand == Left
    ensures forall c :: c in GyroOffsetUpload(hand, offset) ==> IsStartStreaming(c) ==> hand == Left
  {
  }

  /** The magnetometer upload sends every axis twice, X before Y before Z,
      never touches streaming, and carries the offset component of its axis. */
  lemma MagUploadShape(hand: Hand, offset: Vec3)
    ensures |MagOffsetUpload(hand, offset)| == 6
    ensures forall i :: 0 <= i < 6 ==>
      MagOffsetUpload(hand, offset)[i] == SetMagOffset(hand, AxisAt(i / 2), Component(offset, AxisAt(i / 2)))
    ensures forall c :: c in MagOffsetUpload(hand, offset) ==> !IsStartStreaming(c)
  {
  }
}
