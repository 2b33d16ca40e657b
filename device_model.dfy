/** The state of one etee controller as a value (`DeviceState`, one field per
    field of `eteeDevice` that the decoder reads or writes), the decoding of
    a packet into it step by step in the order `UpdateValuesFromController`
    calls its decoders, and what that decoding promises. The class
    `Device.EteeDevice` is proved to change its fields exactly as these
    functions say. */
module DeviceModel {
  import opened Wire
  import opened Vectors
  import opened Packet
  import opened Taps
  import opened Calibration
  import opened Commands

  /** `Tuple<float, float>`. */
  datatype FloatPair = FloatPair(item1: real, item2: real)

  /* The inputs decoded from a packet, one record per group of fields of the
     source (its "Battery Status", "Finger Data", "Slider", "Trackpad",
     "Tracker" and "Gestures" sections); each record keeps the source's field
     names. */

  datatype BatteryStatus = BatteryStatus(battery: real, chargingInProgress: bool, chargingComplete: bool)

  datatype FingerData = FingerData(
    fingerPullData: seq<real>, fingerForceData: seq<real>,
    fingerTouchedData: seq<bool>, fingerClickedData: seq<bool>,
    thumb: FloatPair, index: FloatPair, middle: FloatPair, ring: FloatPair, pinky: FloatPair)

  datatype SliderData = SliderData(sliderValue: real, sliderButton: bool, sliderUpButton: bool, sliderDownButton: bool)

  datatype TrackpadData = TrackpadData(
    trackpadCoordinates: Vec2, trackpadPressures: FloatPair, trackpadTouched: bool, trackpadClicked: bool)

  datatype TrackerData = TrackerData(trackerConnected: bool, proxTouched: bool, proxClicked: bool, proxValue: real)

  datatype GestureData = GestureData(
    squeeze: bool, gripTouch: bool, gripClick: bool, gripPressures: FloatPair,
    pointIndependent: bool, pointIndependentAnalog: real,
    pointExcludeTrackpad: bool, pointExcludeTrackpadAnalog: real,
    pinchTrackpad: bool, pinchTrackpadAnalog: real,
    pinchThumbFinger: bool, pinchThumbFingerAnalog: real)

  /** Every field of a device that the decoder, the tap debouncer, the
      calibration and `ResetValues` touch; the five float arrays appear as
      their contents. */
  datatype DeviceState = DeviceState(
    enable: bool, isLeft: bool,
    batteryStatus: BatteryStatus, fingers: FingerData, systemButtonPressed: bool,
    slider: SliderData, trackpad: TrackpadData,
    trackpadTapped: bool, tap: bool, doubleTap: bool, taps: (bool, bool),
    leftTaps: HandTaps, rightTaps: HandTaps,
    tracker: TrackerData,
    accelerometer: Vec3,
    gyroscope: Vec3, gyroCalibrated: bool, gyroCalibrationDone: bool, gyroscopeOffsetValues: Vec3,
    magnetometer: Vec3, magCalibrated: bool, magCalibration: seq<real>, magOffsetValues: Vec3,
    magMinimum: seq<real>, magMaximum: seq<real>, magOffset: seq<real>, magScale: seq<real>,
    samplesTaken: nat,
    gestures: GestureData)

  const NoPair := FloatPair(0.0, 0.0)

  /** The finger data `ResetValues` writes. */
  const RestingFingers := FingerData([0.0, 0.0, 0.0, 0.0, 0.0], [0.0, 0.0, 0.0, 0.0, 0.0],
    [false, false, false, false, false], [false, false, false, false, false],
    NoPair, NoPair, NoPair, NoPair, NoPair)

  const RestingGestures := GestureData(false, false, false, NoPair, false, 0.0, false, 0.0, false, 0.0, false, 0.0)

  const RestingTrackpad := TrackpadData(Vec2(0.0, 0.0), NoPair, false, false)

  /** The sizes the arrays of a device always have, and no stored magnetometer
      minimum above the stored maximum. */
  predicate WellFormed(s: DeviceState)
  {
    && |s.fingers.fingerPullData| == 5 && |s.fingers.fingerForceData| == 5
    && |s.fingers.fingerTouchedData| == 5 && |s.fingers.fingerClickedData| == 5
    && |s.leftTaps.ring| == TapArrSize && |s.rightTaps.ring| == TapArrSize
    && |s.magCalibration| == 3 && |s.magMinimum| == 3 && |s.magMaximum| == 3
    && |s.magOffset| == 3 && |s.magScale| == 3
    && forall k :: 0 <= k < 3 ==> s.magMinimum[k] <= s.magMaximum[k]
  }

  /** The field initialisers of `eteeDevice`. References the source leaves
      null until `Start` (the finger tuples, `taps`, the tap rings) start out
      as the values `Start` and `ResetValues` give them. */
  const Initial := DeviceState(
    false, false,
    BatteryStatus(0.0, false, false), RestingFingers, false,
    SliderData(0.0, false, false, false), RestingTrackpad,
    false, false, false, (false, false),
    HandTaps(false, Cleared(), 0.0), HandTaps(false, Cleared(), 0.0),
    TrackerData(false, false, false, 0.0),
    Zero,
    Zero, false, false, Zero,
    Zero, true, [0.0, 0.0, 0.0], Zero,
    [0.0, 0.0, 0.0], [0.0, 0.0, 0.0], [0.0, 0.0, 0.0], [1.0, 1.0, 1.0],
    0,
    RestingGestures)

  // ---------------------------------------------------------- byte layout

  /** The 7-bit analog value above a touch bit, as the float the source
      stores; `AnalogIsSelectBits` shows it is `SelectBits(b, 7, 1)`. */
  function Analog(b: Byte): real
  {
    (b / 2) as real
  }

  /** The analog value is the bit field the source selects: seven bits
      starting at bit 1, so between 0 and 127. */
  lemma AnalogIsSelectBits(b: Byte)
    ensures Analog(b) == SelectBits(b, 7, 1) as real
    ensures 0.0 <= Analog(b) <= 127.0
  {
    SelectSevenIsShift(b);
  }

  /** The touch bit and the analog value stored from one byte lose nothing:
      together they give the byte back. */
  lemma TouchAndAnalogRecoverByte(b: Byte)
    ensures b as real == 2.0 * Analog(b) + (if IsBitSet(b, 0) then 1.0 else 0.0)
  {
    FlagAndValuePartition(b);
    SelectSevenIsShift(b);
  }

  /** `UpdateFingers`: bytes 1-5 carry each finger's pull value over its
      touch bit, bytes 18-22 its force value, and bits 3-7 of byte 0 the
      clicks; the five tuples repeat the pull and force values. */
  function Fingers(buf: seq<Byte>): FingerData
    requires |buf| >= MinLength
  {
    FingerData(
      [Analog(buf[1]), Analog(buf[2]), Analog(buf[3]), Analog(buf[4]), Analog(buf[5])],
      [Analog(buf[18]), Analog(buf[19]), Analog(buf[20]), Analog(buf[21]), Analog(buf[22])],
      [IsBitSet(buf[1], 0), IsBitSet(buf[2], 0), IsBitSet(buf[3], 0), IsBitSet(buf[4], 0), IsBitSet(buf[5], 0)],
      [IsBitSet(buf[0], 3), IsBitSet(buf[0], 4), IsBitSet(buf[0], 5), IsBitSet(buf[0], 6), IsBitSet(buf[0], 7)],
      FloatPair(Analog(buf[1]), Analog(buf[18])), FloatPair(Analog(buf[2]), Analog(buf[19])),
      FloatPair(Analog(buf[3]), Analog(buf[20])), FloatPair(Analog(buf[4]), Analog(buf[21])),
      FloatPair(Analog(buf[5]), Analog(buf[22])))
  }

  /** Finger `i` (thumb 0 to pinky 4) is read from byte `1 + i` (pull and
      touch), byte `18 + i` (force) and bit `3 + i` of byte 0 (click), and
      its tuple repeats its pull and force values. */
  lemma FingerLayout(buf: seq<Byte>, i: nat)
    requires |buf| >= MinLength && i < 5
    ensures var f := Fingers(buf);
      && |f.fingerPullData| == 5 && |f.fingerForceData| == 5
      && |f.fingerTouchedData| == 5 && |f.fingerClickedData| == 5
      && f.fingerPullData[i] == Analog(buf[1 + i])
      && f.fingerForceData[i] == Analog(buf[18 + i])
      && f.fingerTouchedData[i] == IsBitSet(buf[1 + i], 0)
      && f.fingerClickedData[i] == IsBitSet(buf[0], 3 + i)
      && [f.thumb, f.index, f.middle, f.ring, f.pinky][i] == FloatPair(f.fingerPullData[i], f.fingerForceData[i])
  {
    if i == 0 {
    } else if i == 1 {
    } else if i == 2 {
    } else if i == 3 {
    } else {
    }
  }

  /** A finger's pull value and touch bit lose nothing: together they give
      back the byte they were decoded from. */
  lemma FingerBytesRecovered(buf: seq<Byte>, i: nat)
    requires |buf| >= MinLength && i < 5
    ensures var f := Fingers(buf);
      buf[1 + i] as real == 2.0 * f.fingerPullData[i] + (if f.fingerTouchedData[i] then 1.0 else 0.0)
  {
    TouchAndAnalogRecoverByte(buf[1 + i]);
    FingerLayout(buf, i);
  }

  /** `UpdateBatteryValue`. */
  function BatteryValue(b: BatteryStatus, buf: seq<Byte>): BatteryStatus
    requires |buf| >= MinLength
  {
    b.(battery := Analog(buf[12]))
  }

  /** `UpdateCharging`: the completion bit is read only while charging is
      in progress; otherwise the previous value stays. */
  function Charging(b: BatteryStatus, buf: seq<Byte>): BatteryStatus
    requires |buf| >= MinLength
  {
    var inProgress := IsBitSet(buf[11], 4);
    b.(chargingInProgress := inProgress,
       chargingComplete := if inProgress then IsBitSet(buf[12], 0) else b.chargingComplete)
  }

  /** `UpdateSliderButtonValue`. */
  function Slider(buf: seq<Byte>): SliderData
    requires |buf| >= MinLength
  {
    SliderData(Analog(buf[9]), IsBitSet(buf[9], 0), IsBitSet(buf[11], 5), IsBitSet(buf[11], 6))
  }

  /** `UpdateTrackerConnection`. */
  function TrackerConnection(t: TrackerData, buf: seq<Byte>): TrackerData
    requires |buf| >= MinLength
  {
    t.(trackerConnected := IsBitSet(buf[11], 2))
  }

  /** `UpdateTrackerValues`. */
  function TrackerValues(t: TrackerData, buf: seq<Byte>): TrackerData
    requires |buf| >= MinLength
  {
    t.(proxClicked := IsBitSet(buf[11], 1), proxTouched := IsBitSet(buf[8], 0), proxValue := Analog(buf[8]))
  }

  /** `UpdateTrackPadValues`: the coordinates are the raw bytes 6 and 7. */
  function Trackpad(buf: seq<Byte>): TrackpadData
    requires |buf| >= MinLength
  {
    TrackpadData(Vec2(buf[6] as real, buf[7] as real), FloatPair(Analog(buf[13]), Analog(buf[17])),
                 IsBitSet(buf[0], 2), IsBitSet(buf[0], 1))
  }

  /** `UpdateSqueezeGesture`. */
  function Squeeze(g: GestureData, buf: seq<Byte>): GestureData
    requires |buf| >= MinLength
  {
    g.(gripTouch := IsBitSet(buf[10], 0), gripClick := IsBitSet(buf[11], 0),
       gripPressures := FloatPair(Analog(buf[10]), Analog(buf[14])), squeeze := IsBitSet(buf[41], 0))
  }

  /** `UpdatePointIndependentGesture`: only the flag; the analog value is
      never written. */
  function PointIndependent(g: GestureData, buf: seq<Byte>): GestureData
    requires |buf| >= MinLength
  {
    g.(pointIndependent := IsBitSet(buf[13], 0))
  }

  /** `UpdatePointExcludeTrackpadGesture`: only the flag, as above. */
  function PointExcludeTrackpad(g: GestureData, buf: seq<Byte>): GestureData
    requires |buf| >= MinLength
  {
    g.(pointExcludeTrackpad := IsBitSet(buf[14], 0))
  }

  /** `UpdatePinchTrackpadGesture`. */
  function PinchTrackpad(g: GestureData, buf: seq<Byte>): GestureData
    requires |buf| >= MinLength
  {
    g.(pinchTrackpad := IsBitSet(buf[15], 0), pinchTrackpadAnalog := Analog(buf[15]))
  }

  /** `UpdatePinchThumbFingerGesture`. */
  function PinchThumbFinger(g: GestureData, buf: seq<Byte>): GestureData
    requires |buf| >= MinLength
  {
    g.(pinchThumbFinger := IsBitSet(buf[16], 0), pinchThumbFingerAnalog := Analog(buf[16]))
  }

  // --------------------------------------------------------------- taps

  function HandTapsOf(s: DeviceState, left: bool): HandTaps
  {
    if left then s.leftTaps else s.rightTaps
  }

  /** `UpdateTapValues` at time `now`: the touch just decoded is latched
      into `trackpadTapped`, and one `TapUpdate` of the device's own hand
      gives `tap`, `doubleTap`, `taps` and that hand's tap state. */
  function TapsUpdated(s: DeviceState, now: real): DeviceState
    requires |s.leftTaps.ring| == TapArrSize && |s.rightTaps.ring| == TapArrSize
  {
    var touched := s.trackpad.trackpadTouched;
    var o := TapUpdate(s.tap, HandTapsOf(s, s.isLeft), touched, s.isLeft, now);
    s.(trackpadTapped := touched, tap := o.tap, doubleTap := o.doubleTap, taps := (o.tap, o.doubleTap),
       leftTaps := if s.isLeft then o.hand else s.leftTaps,
       rightTaps := if s.isLeft then s.rightTaps else o.hand)
  }

  // ---------------------------------------------------------------- IMU

  /** `UpdateGyroscopeValues`: the stored offset is subtracted only once the
      gyroscope is calibrated. */
  function GyroReading(gyroCalibrated: bool, offset: Vec3, buf: seq<Byte>): Vec3
    requires |buf| >= MinLength
  {
    if gyroCalibrated then Sub(GyroVector(buf), offset) else GyroVector(buf)
  }

  /** `ReplaceWithMax` as a function of the stored maxima: each component
      becomes the larger of the stored one and the new reading. */
  function MaxWith(s: seq<real>, v: Vec3): (r: seq<real>)
    requires |s| == 3
    ensures |r| == 3
    ensures forall k :: 0 <= k < 3 ==>
      r[k] >= s[k] && r[k] >= Comp(v, k) && (r[k] == s[k] || r[k] == Comp(v, k))
  {
    [if v.x > s[0] then v.x else s[0],
     if v.y > s[1] then v.y else s[1],
     if v.z > s[2] then v.z else s[2]]
  }

  /** `ReplaceWithMin` as a function of the stored minima. */
  function MinWith(s: seq<real>, v: Vec3): (r: seq<real>)
    requires |s| == 3
    ensures |r| == 3
    ensures forall k :: 0 <= k < 3 ==>
      r[k] <= s[k] && r[k] <= Comp(v, k) && (r[k] == s[k] || r[k] == Comp(v, k))
  {
    [if v.x < s[0] then v.x else s[0],
     if v.y < s[1] then v.y else s[1],
     if v.z < s[2] then v.z else s[2]]
  }

  /** The offsets after a range update: midpoints of the extremes, except
      that the third one pairs the x minimum with the z maximum. */
  function MidOffsets(min: seq<real>, max: seq<real>): seq<real>
    requires |min| == 3 && |max| == 3
  {
    [(min[0] + max[0]) / 2.0, (min[1] + max[1]) / 2.0, (min[0] + max[2]) / 2.0]
  }

  /** The scales after a range update: the half-ranges. */
  function HalfRanges(min: seq<real>, max: seq<real>): seq<real>
    requires |min| == 3 && |max| == 3
  {
    [(max[0] - min[0]) / 2.0, (max[1] - min[1]) / 2.0, (max[2] - min[2]) / 2.0]
  }

  /** The calibrated magnetometer reading: the reading less the offsets. */
  function LessOffsets(m: Vec3, offset: seq<real>): seq<real>
    requires |offset| == 3
  {
    [m.x - offset[0], m.y - offset[1], m.z - offset[2]]
  }

  /** `UpdateMagnetometerValues`: the reading is stored, then the arrays
      are updated from it. */
  function MagnetometerUpdated(s: DeviceState, buf: seq<Byte>): DeviceState
    requires |buf| >= MinLength
    requires |s.magMinimum| == 3 && |s.magMaximum| == 3 && |s.magOffset| == 3
  {
    MagArraysUpdated(s.(magnetometer := MagVector(buf)))
  }

  /** The array half of `UpdateMagnetometerValues` on the stored reading:
      while the magnetometer is uncalibrated the extremes widen to it and
      the offsets and scales are recomputed from them; the calibrated
      reading is the reading less the offsets. */
  function MagArraysUpdated(s: DeviceState): DeviceState
    requires |s.magMinimum| == 3 && |s.magMaximum| == 3 && |s.magOffset| == 3
  {
    var m := s.magnetometer;
    var max := if s.magCalibrated then s.magMaximum else MaxWith(s.magMaximum, m);
    var min := if s.magCalibrated then s.magMinimum else MinWith(s.magMinimum, m);
    var offset := if s.magCalibrated then s.magOffset else MidOffsets(min, max);
    s.(magMaximum := max, magMinimum := min, magOffset := offset,
       magScale := if s.magCalibrated then s.magScale else HalfRanges(min, max),
       magCalibration := LessOffsets(m, offset))
  }

  // -------------------------------------------------------- calibration

  /** The gyroscope's accumulator: the trigger, its calibrated flag, the
      running sum kept in `gyroscopeOffsetValues`, and `samplesTaken`. */
  function GyroAccumulatorOf(s: DeviceState): Accumulator
  {
    Accumulator(s.gyroCalibrationDone, s.gyroCalibrated, s.gyroscopeOffsetValues, s.samplesTaken)
  }

  /** The magnetometer's accumulator; it shares the trigger and the count. */
  function MagAccumulatorOf(s: DeviceState): Accumulator
  {
    Accumulator(s.gyroCalibrationDone, s.magCalibrated, s.magOffsetValues, s.samplesTaken)
  }

  function HandOf(isLeft: bool): Hand
  {
    if isLeft then Left else Right
  }

  /** The commands a finished calibration sends: `DisableDataStreaming`
      first, then the hand's offset upload. */
  function GyroCalibrationCommands(isLeft: bool, offset: Vec3): seq<Command>
  {
    [Text(StopStreamingData)] + GyroOffsetUpload(HandOf(isLeft), offset)
  }

  function MagCalibrationCommands(isLeft: bool, offset: Vec3): seq<Command>
  {
    [Text(StopStreamingData)] + MagOffsetUpload(HandOf(isLeft), offset)
  }

  /** `CalibrateGyro`: one `Calibrate` step on the current gyroscope
      reading, and the commands it sends. */
  function GyroCalibrationStep(s: DeviceState): (DeviceState, seq<Command>)
  {
    var c := Calibrate(GyroAccumulatorOf(s), s.enable, s.gyroscope);
    var t := s.(gyroCalibrationDone := c.acc.done, gyroCalibrated := c.acc.calibrated,
                gyroscopeOffsetValues := c.acc.sum, samplesTaken := c.acc.samples);
    (t, if c.finished then GyroCalibrationCommands(s.isLeft, t.gyroscopeOffsetValues) else [])
  }

  /** `CalibrateMag`: the same step on the magnetometer reading. */
  function MagCalibrationStep(s: DeviceState): (DeviceState, seq<Command>)
  {
    var c := Calibrate(MagAccumulatorOf(s), s.enable, s.magnetometer);
    var t := s.(gyroCalibrationDone := c.acc.done, magCalibrated := c.acc.calibrated,
                magOffsetValues := c.acc.sum, samplesTaken := c.acc.samples);
    (t, if c.finished then MagCalibrationCommands(s.isLeft, t.magOffsetValues) else [])
  }

  // --------------------------------------------------------------- decoding

  /** The hand and the first seven decoders of `UpdateValuesFromController`:
      fingers, battery, charging, slider, tracker connection, tracker values
      and trackpad. Each writes its own fields, so the seven steps amount to
      one update; the battery and tracker decoders are composed in their
      order. */
  function DecodeInputs(s: DeviceState, buf: seq<Byte>): DeviceState
    requires |buf| >= MinLength
  {
    s.(enable := true, isLeft := !IsBitSet(buf[11], 3),
       fingers := Fingers(buf),
       batteryStatus := Charging(BatteryValue(s.batteryStatus, buf), buf),
       slider := Slider(buf),
       tracker := TrackerValues(TrackerConnection(s.tracker, buf), buf),
       trackpad := Trackpad(buf))
  }

  /** The system button, accelerometer and gyroscope decoders; none of them
      writes what the gyroscope decoder reads. */
  function DecodeMotion(s: DeviceState, buf: seq<Byte>): DeviceState
    requires |buf| >= MinLength
  {
    s.(systemButtonPressed := IsBitSet(buf[0], 0),
       accelerometer := AccelVector(buf),
       gyroscope := GyroReading(s.gyroCalibrated, s.gyroscopeOffsetValues, buf))
  }

  /** The five gesture decoders, composed in their order. */
  function DecodeGestures(s: DeviceState, buf: seq<Byte>): DeviceState
    requires |buf| >= MinLength
  {
    s.(gestures := PinchThumbFinger(PinchTrackpad(PointExcludeTrackpad(PointIndependent(
                     Squeeze(s.gestures, buf), buf), buf), buf), buf))
  }

  /** `UpdateValuesFromController` on a packet at time `now`: the new state
      and the commands the gyroscope calibration sends, each decoder applied
      in the source's order: the inputs, the taps, the system button and
      motion sensors, the magnetometer, the gestures, then one calibration
      step. */
  function Decode(s: DeviceState, buf: seq<Byte>, now: real): (DeviceState, seq<Command>)
    requires WellFormed(s) && |buf| >= MinLength
  {
    var b := TapsUpdated(DecodeInputs(s, buf), now);
    GyroCalibrationStep(DecodeGestures(MagnetometerUpdated(DecodeMotion(b, buf), buf), buf))
  }

  // ------------------------------------------------------------ lifecycle

  /** The first half of `ResetValues`: fingers, slider, `tap`, trackpad
      and gestures back to zero and false. The slider's up and down buttons
      keep their values. */
  function ControlsReset(s: DeviceState): DeviceState
  {
    s.(fingers := RestingFingers,
       slider := s.slider.(sliderButton := false, sliderValue := 0.0),
       tap := false,
       trackpad := RestingTrackpad,
       gestures := RestingGestures)
  }

  /** The second half of `ResetValues`: the tracker's proximity values, the
      three IMU vectors and the battery level back to zero and false. The
      tracker connection and the charging flags keep their values. */
  function SensorsReset(s: DeviceState): DeviceState
  {
    s.(tracker := s.tracker.(proxClicked := false, proxValue := 0.0, proxTouched := false),
       accelerometer := Zero, gyroscope := Zero, magnetometer := Zero,
       batteryStatus := s.batteryStatus.(battery := 0.0))
  }

  /** `ResetValues`: the inputs back to zero and false. The tap state other
      than `tap`, the hand, `enable` and everything about calibration keep
      their values. */
  function Reset(s: DeviceState): DeviceState
  {
    SensorsReset(ControlsReset(s))
  }

  /** `Start` at time `now`: `ResetValues`, then both hands' tap state
      cleared with the shift time set to `now`. */
  function Started(s: DeviceState, now: real): DeviceState
  {
    Reset(s).(leftTaps := HandTaps(false, Cleared(), now), rightTaps := HandTaps(false, Cleared(), now))
  }

  // ------------------------------------------------ properties of the stages

  /** The tap step: the hand the state names takes one `TapUpdate` on the
      decoded touch, which is latched; the other hand is untouched. */
  lemma TapsSpec(s: DeviceState, now: real)
    requires |s.leftTaps.ring| == TapArrSize && |s.rightTaps.ring| == TapArrSize
    ensures var d, h, touched := TapsUpdated(s, now), s.isLeft, s.trackpad.trackpadTouched;
      && d.trackpadTapped == touched
      && TapOutcome(d.tap, d.doubleTap, HandTapsOf(d, h)) == TapUpdate(s.tap, HandTapsOf(s, h), touched, h, now)
      && d.taps == (d.tap, d.doubleTap)
      && HandTapsOf(d, !h) == HandTapsOf(s, !h)
  {
  }

  /** After the tap step the stepped ring is quiet, and a step from a
      cleared ring reports no double tap. */
  lemma TapsStayQuiet(s: DeviceState, now: real)
    requires |s.leftTaps.ring| == TapArrSize && |s.rightTaps.ring| == TapArrSize
    ensures var d, h := TapsUpdated(s, now), s.isLeft;
      && QuietRing(HandTapsOf(d, h))
      && (HandTapsOf(s, h).ring == Cleared() ==> !d.doubleTap)
  {
    var h, touched := s.isLeft, s.trackpad.trackpadTouched;
    var hs := HandTapsOf(s, h);
    TapsSpec(s, now);
    TapUpdateKeepsQuiet(s.tap, hs, touched, h, now);
    if hs.ring == Cleared() {
      NoDoubleTapFromCleared(s.tap, hs, touched, h, now);
    }
  }

  /** The magnetometer step stores the reading, keeps the state well
      formed, and stores as calibrated reading the reading less the offsets. */
  lemma MagnetometerSpec(s: DeviceState, buf: seq<Byte>)
    requires WellFormed(s) && |buf| >= MinLength
    ensures var d, m := MagnetometerUpdated(s, buf), MagVector(buf);
      && WellFormed(d)
      && d.magnetometer == m && d.magCalibrated == s.magCalibrated
      && d.magCalibration == LessOffsets(m, d.magOffset)
  {
    if !s.magCalibrated {
      var m := MagVector(buf);
      var max := MaxWith(s.magMaximum, m);
      var min := MinWith(s.magMinimum, m);
      forall k | 0 <= k < 3
        ensures min[k] <= max[k]
      {
      }
    }
  }

  /** While the magnetometer is uncalibrated its stored range widens to
      contain the reading, the offsets are the midpoints as computed, and
      the scales are non-negative. */
  lemma MagRangeTracksReadings(s: DeviceState, buf: seq<Byte>)
    requires WellFormed(s) && |buf| >= MinLength && !s.magCalibrated
    ensures var d, m := MagnetometerUpdated(s, buf), MagVector(buf);
      && d.magMaximum == MaxWith(s.magMaximum, m) && d.magMinimum == MinWith(s.magMinimum, m)
      && (forall k :: 0 <= k < 3 ==> d.magMinimum[k] <= Comp(m, k) <= d.magMaximum[k])
      && d.magOffset == MidOffsets(d.magMinimum, d.magMaximum)
      && (forall k :: 0 <= k < 3 ==> d.magScale[k] >= 0.0)
  {
    var m := MagVector(buf);
    var max := MaxWith(s.magMaximum, m);
    var min := MinWith(s.magMinimum, m);
    forall k | 0 <= k < 3
      ensures HalfRanges(min, max)[k] >= 0.0
    {
    }
  }

  /** Once the magnetometer is calibrated its range, offsets and scales no
      longer move. */
  lemma MagRangeFrozenOnceCalibrated(s: DeviceState, buf: seq<Byte>)
    requires WellFormed(s) && |buf| >= MinLength && s.magCalibrated
    ensures var d := MagnetometerUpdated(s, buf);
      d.magMinimum == s.magMinimum && d.magMaximum == s.magMaximum
      && d.magOffset == s.magOffset && d.magScale == s.magScale
  {
  }

  /** The gyroscope calibration step: the accumulator takes one `Calibrate`
      step on the current reading; a finished step sends streaming off and
      then the offset upload of the device's hand. */
  lemma GyroCalibrationSpec(s: DeviceState)
    ensures var (t, cmds) := GyroCalibrationStep(s);
      var c := Calibrate(GyroAccumulatorOf(s), s.enable, s.gyroscope);
      && GyroAccumulatorOf(t) == c.acc
      && cmds == (if c.finished then GyroCalibrationCommands(s.isLeft, c.acc.sum) else [])
      && (c.finished ==> |cmds| >= 2 && cmds[0] == Text(StopStreamingData)
                         && cmds[1] == SetGyroOffset(HandOf(s.isLeft), c.acc.sum))
  {
  }

  // ------------------------------------------------ properties of a decode

  /** Every decode keeps the array sizes and keeps the magnetometer minimum
      at or below the maximum. */
  lemma DecodeKeepsWellFormed(s: DeviceState, buf: seq<Byte>, now: real)
    requires WellFormed(s) && |buf| >= MinLength
    ensures WellFormed(Decode(s, buf, now).0)
  {
    var b := TapsUpdated(DecodeInputs(s, buf), now);
    MagnetometerSpec(DecodeMotion(b, buf), buf);
  }

  /** What a decoded packet sets: `enable`, the hand from bit 3 of byte 11,
      and every input group from its bytes. Most groups depend on the packet
      alone; the charge-complete flag keeps its value while no charge is in
      progress. */
  lemma DecodedInputs(s: DeviceState, buf: seq<Byte>, now: real)
    requires WellFormed(s) && |buf| >= MinLength
    ensures var d := Decode(s, buf, now).0;
      && d.enable && d.isLeft == IsLeftFrame(buf)
      && d.fingers == Fingers(buf)
      && d.batteryStatus == BatteryStatus(Analog(buf[12]), IsBitSet(buf[11], 4),
                                          if IsBitSet(buf[11], 4) then IsBitSet(buf[12], 0)
                                          else s.batteryStatus.chargingComplete)
      && d.slider == Slider(buf)
      && d.tracker == TrackerData(IsBitSet(buf[11], 2), IsBitSet(buf[8], 0), IsBitSet(buf[11], 1), Analog(buf[8]))
      && d.trackpad == Trackpad(buf)
  {
  }

  /** The system button and the accelerometer and magnetometer readings
      come from the packet too. */
  lemma DecodedMotion(s: DeviceState, buf: seq<Byte>, now: real)
    requires WellFormed(s) && |buf| >= MinLength
    ensures var d := Decode(s, buf, now).0;
      && d.systemButtonPressed == IsBitSet(buf[0], 0)
      && d.accelerometer == AccelVector(buf)
      && d.magnetometer == MagVector(buf)
  {
  }

  /** So do the gestures, except that the analog values of the two point
      gestures are never decoded and keep theirs. */
  lemma DecodedGestures(s: DeviceState, buf: seq<Byte>, now: real)
    requires WellFormed(s) && |buf| >= MinLength
    ensures Decode(s, buf, now).0.gestures == GestureData(
           IsBitSet(buf[41], 0), IsBitSet(buf[10], 0), IsBitSet(buf[11], 0),
           FloatPair(Analog(buf[10]), Analog(buf[14])),
           IsBitSet(buf[13], 0), s.gestures.pointIndependentAnalog,
           IsBitSet(buf[14], 0), s.gestures.pointExcludeTrackpadAnalog,
           IsBitSet(buf[15], 0), Analog(buf[15]),
           IsBitSet(buf[16], 0), Analog(buf[16]))
  {
  }

  /** Two devices handed the same packet report the same inputs, whatever
      they held before, except for the charge-complete flag when no charge
      is in progress. */
  lemma InputsDependOnlyOnPacket(s: DeviceState, t: DeviceState, buf: seq<Byte>, now: real, later: real)
    requires WellFormed(s) && WellFormed(t) && |buf| >= MinLength
    ensures var a, b := Decode(s, buf, now).0, Decode(t, buf, later).0;
      && a.isLeft == b.isLeft && a.fingers == b.fingers && a.slider == b.slider
      && a.tracker == b.tracker && a.trackpad == b.trackpad
      && a.batteryStatus.battery == b.batteryStatus.battery
      && a.batteryStatus.chargingInProgress == b.batteryStatus.chargingInProgress
      && (IsBitSet(buf[11], 4) ==> a.batteryStatus.chargingComplete == b.batteryStatus.chargingComplete)
  {
    DecodedInputs(s, buf, now);
    DecodedInputs(t, buf, later);
  }

  /** The same holds for the system button and the motion readings. */
  lemma MotionDependsOnlyOnPacket(s: DeviceState, t: DeviceState, buf: seq<Byte>, now: real, later: real)
    requires WellFormed(s) && WellFormed(t) && |buf| >= MinLength
    ensures var a, b := Decode(s, buf, now).0, Decode(t, buf, later).0;
      && a.systemButtonPressed == b.systemButtonPressed
      && a.accelerometer == b.accelerometer && a.magnetometer == b.magnetometer
  {
    DecodedMotion(s, buf, now);
    DecodedMotion(t, buf, later);
  }

  /** And for the gestures, except for the never-decoded point gesture
      analogs. */
  lemma GesturesDependOnlyOnPacket(s: DeviceState, t: DeviceState, buf: seq<Byte>, now: real, later: real)
    requires WellFormed(s) && WellFormed(t) && |buf| >= MinLength
    ensures var a, b := Decode(s, buf, now).0.gestures, Decode(t, buf, later).0.gestures;
      a.(pointIndependentAnalog := 0.0, pointExcludeTrackpadAnalog := 0.0)
      == b.(pointIndependentAnalog := 0.0, pointExcludeTrackpadAnalog := 0.0)
  {
    DecodedGestures(s, buf, now);
    DecodedGestures(t, buf, later);
  }

  /** The tap debouncer sees the touch this very packet carries: the hand
      named by the packet takes one `TapUpdate` step on that touch, the other
      hand's tap state is untouched, and the stepped ring is quiet again. */
  lemma DecodedTaps(s: DeviceState, buf: seq<Byte>, now: real)
    requires WellFormed(s) && |buf| >= MinLength
    ensures var d, h := Decode(s, buf, now).0, IsLeftFrame(buf);
      && d.trackpadTapped == Trackpad(buf).trackpadTouched
      && TapOutcome(d.tap, d.doubleTap, HandTapsOf(d, h))
         == TapUpdate(s.tap, HandTapsOf(s, h), Trackpad(buf).trackpadTouched, h, now)
      && d.taps == (d.tap, d.doubleTap)
      && HandTapsOf(d, !h) == HandTapsOf(s, !h)
      && QuietRing(HandTapsOf(d, h))
  {
    TapsSpec(DecodeInputs(s, buf), now);
    TapsStayQuiet(DecodeInputs(s, buf), now);
  }

  /** Right after `Start` no packet reports a double tap: the cleared ring
      gains at most one sample, and so at most one rising edge. */
  lemma NoDoubleTapAfterStart(s: DeviceState, started: real, buf: seq<Byte>, now: real)
    requires WellFormed(s) && |buf| >= MinLength
    ensures WellFormed(Started(s, started))
    ensures !Decode(Started(s, started), buf, now).0.doubleTap
  {
    TapsStayQuiet(DecodeInputs(Started(s, started), buf), now);
  }

  /** The gyroscope reading is the packet's, less the stored offset once
      the gyroscope is calibrated. */
  lemma DecodedGyro(s: DeviceState, buf: seq<Byte>, now: real)
    requires WellFormed(s) && |buf| >= MinLength
    ensures Decode(s, buf, now).0.gyroscope
         == if s.gyroCalibrated then Sub(GyroVector(buf), s.gyroscopeOffsetValues) else GyroVector(buf)
  {
  }

  /** The magnetometer's calibrated reading is its reading less the
      offsets. */
  lemma DecodedMagReading(s: DeviceState, buf: seq<Byte>, now: real)
    requires WellFormed(s) && |buf| >= MinLength
    ensures var d, m := Decode(s, buf, now).0, MagVector(buf);
      |d.magOffset| == 3 && d.magCalibration == LessOffsets(m, d.magOffset)
  {
    var b := TapsUpdated(DecodeInputs(s, buf), now);
    MagnetometerSpec(DecodeMotion(b, buf), buf);
  }

  /** The decoder leaves the magnetometer's calibration state to
      `CalibrateMag`, which it never calls. */
  lemma DecodeKeepsMagCalibration(s: DeviceState, buf: seq<Byte>, now: real)
    requires WellFormed(s) && |buf| >= MinLength
    ensures MagAccumulatorOf(Decode(s, buf, now).0).calibrated == s.magCalibrated
    ensures MagAccumulatorOf(Decode(s, buf, now).0).sum == s.magOffsetValues
  {
  }

  /** While uncalibrated, each decoded packet widens the stored range to
      contain its magnetometer reading. */
  lemma DecodedMagRange(s: DeviceState, buf: seq<Byte>, now: real)
    requires WellFormed(s) && |buf| >= MinLength && !s.magCalibrated
    ensures var d, m := Decode(s, buf, now).0, MagVector(buf);
      && d.magMaximum == MaxWith(s.magMaximum, m) && d.magMinimum == MinWith(s.magMinimum, m)
      && (forall k :: 0 <= k < 3 ==> d.magMinimum[k] <= Comp(m, k) <= d.magMaximum[k])
      && d.magOffset == MidOffsets(d.magMinimum, d.magMaximum)
      && (forall k :: 0 <= k < 3 ==> d.magScale[k] >= 0.0)
  {
    var b := TapsUpdated(DecodeInputs(s, buf), now);
    MagRangeTracksReadings(DecodeMotion(b, buf), buf);
  }

  /** Every packet drives one calibration step, with `enable` set and on
      the gyroscope reading just decoded; a finished step sends streaming
      off and the offset upload of the packet's hand. The magnetometer's
      calibration is not driven by the decoder. */
  lemma DecodedCalibration(s: DeviceState, buf: seq<Byte>, now: real)
    requires WellFormed(s) && |buf| >= MinLength
    ensures var (d, cmds) := Decode(s, buf, now);
      var c := Calibrate(GyroAccumulatorOf(s), true, d.gyroscope);
      && GyroAccumulatorOf(d) == c.acc
      && cmds == (if c.finished then GyroCalibrationCommands(IsLeftFrame(buf), c.acc.sum) else [])
      && (c.finished ==> |cmds| >= 2 && cmds[0] == Text(StopStreamingData)
                         && cmds[1] == SetGyroOffset(HandOf(IsLeftFrame(buf)), d.gyroscopeOffsetValues))
  {
    var b := TapsUpdated(DecodeInputs(s, buf), now);
    GyroCalibrationSpec(DecodeGestures(MagnetometerUpdated(DecodeMotion(b, buf), buf), buf));
  }

  /** A recalibration triggered on a calibrated gyroscope starts its sum
      with a reading that still has the old offset subtracted, since the
      offset is cleared only after the reading was taken; later samples are
      raw. */
  lemma RecalibrationFirstSampleCorrected(s: DeviceState, buf: seq<Byte>, now: real)
    requires WellFormed(s) && |buf| >= MinLength
    requires s.gyroCalibrated && s.gyroCalibrationDone
    ensures var d := Decode(s, buf, now).0;
      && d.samplesTaken == 1 && !d.gyroCalibrated
      && d.gyroscopeOffsetValues == Sub(GyroVector(buf), s.gyroscopeOffsetValues)
  {
    var b := TapsUpdated(DecodeInputs(s, buf), now);
    GyroCalibrationSpec(DecodeGestures(MagnetometerUpdated(DecodeMotion(b, buf), buf), buf));
    assert Add(Zero, Sub(GyroVector(buf), s.gyroscopeOffsetValues)) == Sub(GyroVector(buf), s.gyroscopeOffsetValues);
  }

  /** `CalibrateMag` is the calibration step on the magnetometer reading,
      sharing the trigger and the count with the gyroscope, so a finished
      magnetometer round also ends a pending gyroscope round. */
  lemma MagCalibrationSharesTrigger(s: DeviceState)
    ensures var (t, cmds) := MagCalibrationStep(s);
      var c := Calibrate(MagAccumulatorOf(s), s.enable, s.magnetometer);
      && MagAccumulatorOf(t) == c.acc
      && t.gyroCalibrated == s.gyroCalibrated && t.gyroscopeOffsetValues == s.gyroscopeOffsetValues
      && (c.finished ==> !t.gyroCalibrationDone && cmds == MagCalibrationCommands(s.isLeft, c.acc.sum))
      && (!c.finished ==> cmds == [])
  {
  }

  /** `ResetValues` clears every input: fingers, trackpad, gestures, `tap`,
      the slider's button and value, the tracker's proximity values, the
      three IMU vectors and the battery level. */
  lemma ResetSpec(s: DeviceState)
    ensures var r := Reset(s);
      && r.fingers == RestingFingers && r.trackpad == RestingTrackpad && r.gestures == RestingGestures
      && !r.tap && !r.slider.sliderButton && r.slider.sliderValue == 0.0
      && !r.tracker.proxClicked && !r.tracker.proxTouched && r.tracker.proxValue == 0.0
      && r.accelerometer == Zero && r.gyroscope == Zero && r.magnetometer == Zero
      && r.batteryStatus.battery == 0.0
  {
  }

  /** `ResetValues` keeps the hand, both calibration accumulators, the
      magnetometer range and the tap history, and a well-formed state stays
      well-formed. */
  lemma ResetKeeps(s: DeviceState)
    ensures var r := Reset(s);
      && r.isLeft == s.isLeft && r.enable == s.enable
      && GyroAccumulatorOf(r) == GyroAccumulatorOf(s) && MagAccumulatorOf(r) == MagAccumulatorOf(s)
      && r.magMinimum == s.magMinimum && r.magMaximum == s.magMaximum
      && r.magOffset == s.magOffset && r.magScale == s.magScale
      && r.leftTaps == s.leftTaps && r.rightTaps == s.rightTaps
      && (WellFormed(s) ==> WellFormed(r))
  {
  }

  /** Resetting twice is resetting once. */
  lemma ResetIdempotent(s: DeviceState)
    ensures Reset(Reset(s)) == Reset(s)
  {
  }
}
