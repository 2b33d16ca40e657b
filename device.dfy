/** One etee controller as the host sees it (`eteeDevice`). Its fields are
    updated in place by the decoder methods the serial reader calls, one
    packet at a time; `State()` reads them all as a `DeviceState`, and every
    method is proved to leave `State()` equal to the `DeviceModel` function
    it implements. Calls the source makes into the serial object are
    returned as the commands they would send. */
module Device {
  import opened Wire
  import opened Vectors
  import opened Packet
  import opened Taps
  import opened Calibration
  import opened Commands
  import opened DeviceModel

  class EteeDevice {
    var enable: bool
    var isLeft: bool

    var batteryStatus: BatteryStatus
    var fingers: FingerData
    var systemButtonPressed: bool
    var slider: SliderData
    var trackpad: TrackpadData

    var trackpadTapped: bool
    var tap: bool
    var doubleTap: bool
    var taps: (bool, bool)
    /** `prevLeftTap`, `leftTapArr` and `pastLeftTapTime`. */
    var leftTaps: HandTaps
    /** `prevRightTap`, `rightTapArr` and `pastRightTapTime`. */
    var rightTaps: HandTaps

    var tracker: TrackerData

    var accelerometer: Vec3
    var gyroscope: Vec3
    var gyroCalibrated: bool
    var gyroCalibrationDone: bool
    var gyroscopeOffsetValues: Vec3

    var magnetometer: Vec3
    var magCalibrated: bool
    const magCalibration: array<real>
    var magOffsetValues: Vec3
    const magMinimum: array<real>
    const magMaximum: array<real>
    const magOffset: array<real>
    const magScale: array<real>

    var samplesTaken: nat

    var gestures: GestureData

    /** The device object and its five float arrays. */
    ghost const Repr: set<object>

    /** The contents of the five float arrays, as `MagArrays()` reads them;
        `Valid()` keeps the two equal, and only the magnetometer decoder
        writes either. */
    ghost var magContents: (seq<real>, seq<real>, seq<real>, seq<real>, seq<real>)

    /** The contents of the five float arrays: calibrated reading, minimum,
        maximum, offsets and scales. */
    function MagArrays(): (seq<real>, seq<real>, seq<real>, seq<real>, seq<real>)
      reads magCalibration, magMinimum, magMaximum, magOffset, magScale
    {
      (magCalibration[..], magMinimum[..], magMaximum[..], magOffset[..], magScale[..])
    }

    /** The fields of the device as one value, the arrays through their
        mirror. */
    ghost function State(): DeviceState
      reads this
    {
      var a := magContents;
      DeviceState(
        enable, isLeft, batteryStatus, fingers, systemButtonPressed, slider, trackpad,
        trackpadTapped, tap, doubleTap, taps, leftTaps, rightTaps, tracker, accelerometer,
        gyroscope, gyroCalibrated, gyroCalibrationDone, gyroscopeOffsetValues,
        magnetometer, magCalibrated, a.0, magOffsetValues,
        a.1, a.2, a.3, a.4,
        samplesTaken, gestures)
    }

    /** The five float arrays are distinct and have three slots each. */
    ghost predicate ArraysValid()
    {
      && Repr == {this, magCalibration, magMinimum, magMaximum, magOffset, magScale}
      && magCalibration.Length == 3 && magMinimum.Length == 3 && magMaximum.Length == 3
      && magOffset.Length == 3 && magScale.Length == 3
      && magCalibration != magMinimum && magCalibration != magMaximum && magCalibration != magOffset
      && magCalibration != magScale && magMinimum != magMaximum && magMinimum != magOffset
      && magMinimum != magScale && magMaximum != magOffset && magMaximum != magScale && magOffset != magScale
    }

    ghost predicate Valid()
      reads this, Repr
    {
      ArraysValid() && magContents == MagArrays() && WellFormed(State())
    }

    // ------------------------------------------------------------ lifecycle

    /** The field initialisers. */
    constructor ()
      ensures Valid() && fresh(Repr - {this})
      ensures State() == Initial
    {
      enable := false;
      isLeft := false;
      batteryStatus := BatteryStatus(0.0, false, false);
      fingers := RestingFingers;
      systemButtonPressed := false;
      slider := SliderData(0.0, false, false, false);
      trackpad := RestingTrackpad;
      trackpadTapped, tap, doubleTap, taps := false, false, false, (false, false);
      leftTaps, rightTaps := HandTaps(false, Cleared(), 0.0), HandTaps(false, Cleared(), 0.0);
      tracker := TrackerData(false, false, false, 0.0);
      accelerometer, gyroscope := Zero, Zero;
      gyroCalibrated, gyroCalibrationDone := false, false;
      gyroscopeOffsetValues := Zero;
      magnetometer := Zero;
      magCalibrated := true;
      var calibration := NewAxes(0.0);
      var minimum := NewAxes(0.0);
      var maximum := NewAxes(0.0);
      var offset := NewAxes(0.0);
      var scale := NewAxes(1.0);
      magCalibration, magMinimum, magMaximum, magOffset, magScale := calibration, minimum, maximum, offset, scale;
      magOffsetValues := Zero;
      samplesTaken := 0;
      gestures := RestingGestures;
      Repr := {this, calibration, minimum, maximum, offset, scale};
      magContents := ([0.0, 0.0, 0.0], [0.0, 0.0, 0.0], [0.0, 0.0, 0.0], [0.0, 0.0, 0.0], [1.0, 1.0, 1.0]);
    }

    /** A fresh three-slot float array with every slot `v`. */
    static method NewAxes(v: real) returns (a: array<real>)
      ensures fresh(a) && a[..] == [v, v, v]
    {
      a := new real[3];
      a[0], a[1], a[2] := v, v, v;
    }

    /** `Start` at time `now`: `ResetValues`, both previous touches false,
        both rings new, and both shift times `now`. */
    method Start(now: real)
      requires Valid()
      modifies this
      ensures Valid()
      ensures State() == Started(old(State()), now)
    {
      ResetValues();
      ClearTapHistory(now);
    }

    /** The tap lines of `Start`: for each hand the previous touch, the ring
        and the shift time. */
    method ClearTapHistory(now: real)
      modifies this
      ensures State() == old(State()).(leftTaps := HandTaps(false, Cleared(), now),
                                       rightTaps := HandTaps(false, Cleared(), now))
    {
      leftTaps := HandTaps(false, Cleared(), now);
      rightTaps := HandTaps(false, Cleared(), now);
    }

    /** `ResetValues`, section by section. */
    method ResetValues()
      modifies this
      ensures State() == Reset(old(State()))
    {
      ResetFingersAndSlider();
      ResetTrackpad();
      ResetGesturesAndTracker();
      ResetMotion();
      ResetMagnetometerAndBattery();
    }

    /** The finger and slider sections of `ResetValues`; the slider's up and
        down buttons are left alone. */
    method ResetFingersAndSlider()
      modifies this
      ensures State() == old(State()).(fingers := RestingFingers,
                                       slider := old(slider).(sliderButton := false, sliderValue := 0.0))
    {
      fingers := RestingFingers;
      slider := slider.(sliderButton := false, sliderValue := 0.0);
    }

    /** The trackpad section of `ResetValues`, which also clears `tap`. */
    method ResetTrackpad()
      modifies this
      ensures State() == old(State()).(tap := false, trackpad := RestingTrackpad)
    {
      tap := false;
      trackpad := RestingTrackpad;
    }

    /** The gesture and tracker sections of `ResetValues`; the tracker's
        connection flag is left alone. */
    method ResetGesturesAndTracker()
      modifies this
      ensures State() == old(State()).(gestures := RestingGestures,
                                       tracker := old(tracker).(proxClicked := false, proxValue := 0.0, proxTouched := false))
    {
      gestures := RestingGestures;
      tracker := tracker.(proxClicked := false, proxValue := 0.0, proxTouched := false);
    }

    /** The accelerometer and gyroscope lines of the IMU section. */
    method ResetMotion()
      modifies this
      ensures State() == old(State()).(accelerometer := Zero, gyroscope := Zero)
    {
      accelerometer := Zero;
      gyroscope := Zero;
    }

    /** The magnetometer line of the IMU section and the battery line; the
        charging flags are left alone. */
    method ResetMagnetometerAndBattery()
      modifies this
      ensures State() == old(State()).(magnetometer := Zero, batteryStatus := old(batteryStatus).(battery := 0.0))
    {
      magnetometer := Zero;
      batteryStatus := batteryStatus.(battery := 0.0);
    }

    // ------------------------------------------------------------- decoding

    /** `UpdateValuesFromController`: decodes one packet at time `now` and
        returns the commands the gyroscope calibration sends through the
        serial object. The seventeen decoders are called in the source's
        order, grouped as the stages of `Decode`. */
    method UpdateValuesFromController(serialBuffer: seq<Byte>, now: real) returns (cmds: seq<Command>)
      requires Valid() && |serialBuffer| >= MinLength
      modifies Repr
      ensures Valid()
      ensures (State(), cmds) == Decode(old(State()), serialBuffer, now)
    {
      ghost var s0 := State();
      UpdateInputs(serialBuffer);
      UpdateTapValues(now);
      UpdateMotion(serialBuffer);
      UpdateMagnetometerValues(serialBuffer);
      UpdateGestures(serialBuffer);
      cmds := CalibrateGyro();
      DecodeKeepsWellFormed(s0, serialBuffer, now);
    }

    /** The statements of `UpdateValuesFromController` up to
        `UpdateTrackPadValues`: the device is enabled, the hand is read from
        bit 3 of byte 11, and the first seven decoders run in order. */
    method UpdateInputs(serialBuffer: seq<Byte>)
      requires |serialBuffer| >= MinLength
      modifies this
      ensures State() == DecodeInputs(old(State()), serialBuffer)
    {
      IdentifyHand(serialBuffer);
      UpdateFingers(serialBuffer);
      UpdateBatteryValue(serialBuffer);
      UpdateCharging(serialBuffer);
      UpdateSliderButtonValue(serialBuffer);
      UpdateTrackerConnection(serialBuffer);
      UpdateTrackerValues(serialBuffer);
      UpdateTrackPadValues(serialBuffer);
    }

    /** The first two lines of `UpdateValuesFromController`: the device is
        enabled and learns its hand from bit 3 of byte 11. */
    method IdentifyHand(serialBuffer: seq<Byte>)
      requires |serialBuffer| >= MinLength
      modifies this
      ensures State() == old(State()).(enable := true, isLeft := IsLeftFrame(serialBuffer))
    {
      enable := true;
      isLeft := !IsBitSet(serialBuffer[11], 3);
    }

    /** `UpdateSystemButton`, `UpdateAccelerometerValues` and
        `UpdateGyroscopeValues`, in the source's order. */
    method UpdateMotion(serialBuffer: seq<Byte>)
      requires |serialBuffer| >= MinLength
      modifies this
      ensures State() == DecodeMotion(old(State()), serialBuffer)
    {
      UpdateSystemButton(serialBuffer);
      UpdateAccelerometerValues(serialBuffer);
      UpdateGyroscopeValues(serialBuffer);
    }

    /** The five gesture decoders, in the source's order. */
    method UpdateGestures(serialBuffer: seq<Byte>)
      requires |serialBuffer| >= MinLength
      modifies this
      ensures State() == DecodeGestures(old(State()), serialBuffer)
    {
      UpdateSqueezeGesture(serialBuffer);
      UpdatePointIndependentGesture(serialBuffer);
      UpdatePointExcludeTrackpadGesture(serialBuffer);
      UpdatePinchTrackpadGesture(serialBuffer);
      UpdatePinchThumbFingerGesture(serialBuffer);
    }

    /** Thumb to pinky: pull value and touch bit from bytes 1-5, force value
        from bytes 18-22, click from bits 3-7 of byte 0. */
    method UpdateFingers(serialBuffer: seq<Byte>)
      requires |serialBuffer| >= MinLength
      modifies this
      ensures State() == old(State()).(fingers := Fingers(serialBuffer))
    {
      var thumbPullValue := Analog(serialBuffer[1]);
      var thumbForceValue := Analog(serialBuffer[18]);
      var thumbClicked := IsBitSet(serialBuffer[0], 3);
      var thumbTouched := IsBitSet(serialBuffer[1], 0);
      var thumb := FloatPair(thumbPullValue, thumbForceValue);

      var indexPullValue := Analog(serialBuffer[2]);
      var indexForceValue := Analog(serialBuffer[19]);
      var indexClicked := IsBitSet(serialBuffer[0], 4);
      var indexTouched := IsBitSet(serialBuffer[2], 0);
      var index := FloatPair(indexPullValue, indexForceValue);

      var middlePullValue := Analog(serialBuffer[3]);
      var middleForceValue := Analog(serialBuffer[20]);
      var middleClicked := IsBitSet(serialBuffer[0], 5);
      var middleTouched := IsBitSet(serialBuffer[3], 0);
      var middle := FloatPair(middlePullValue, middleForceValue);

      var ringPullValue := Analog(serialBuffer[4]);
      var ringForceValue := Analog(serialBuffer[21]);
      var ringClicked := IsBitSet(serialBuffer[0], 6);
      var ringTouched := IsBitSet(serialBuffer[4], 0);
      var ring := FloatPair(ringPullValue, ringForceValue);

      var pinkyPullValue := Analog(serialBuffer[5]);
      var pinkyForceValue := Analog(serialBuffer[22]);
      var pinkyClicked := IsBitSet(serialBuffer[0], 7);
      var pinkyTouched := IsBitSet(serialBuffer[5], 0);
      var pinky := FloatPair(pinkyPullValue, pinkyForceValue);

      fingers := FingerData(
        [thumbPullValue, indexPullValue, middlePullValue, ringPullValue, pinkyPullValue],
        [thumbForceValue, indexForceValue, middleForceValue, ringForceValue, pinkyForceValue],
        [thumbTouched, indexTouched, middleTouched, ringTouched, pinkyTouched],
        [thumbClicked, indexClicked, middleClicked, ringClicked, pinkyClicked],
        thumb, index, middle, ring, pinky);
    }

    method UpdateBatteryValue(serialBuffer: seq<Byte>)
      requires |serialBuffer| >= MinLength
      modifies this
      ensures State() == old(State()).(batteryStatus := BatteryValue(old(batteryStatus), serialBuffer))
    {
      batteryStatus := batteryStatus.(battery := Analog(serialBuffer[12]));
    }

    method UpdateCharging(serialBuffer: seq<Byte>)
      requires |serialBuffer| >= MinLength
      modifies this
      ensures State() == old(State()).(batteryStatus := Charging(old(batteryStatus), serialBuffer))
    {
      batteryStatus := batteryStatus.(chargingInProgress := IsBitSet(serialBuffer[11], 4));
      if batteryStatus.chargingInProgress {
        batteryStatus := batteryStatus.(chargingComplete := IsBitSet(serialBuffer[12], 0));
      }
    }

    /** Writes all four slider fields. */
    method UpdateSliderButtonValue(serialBuffer: seq<Byte>)
      requires |serialBuffer| >= MinLength
      modifies this
      ensures State() == old(State()).(slider := Slider(serialBuffer))
    {
      slider := slider.(sliderValue := Analog(serialBuffer[9]), sliderButton := IsBitSet(serialBuffer[9], 0),
                        sliderUpButton := IsBitSet(serialBuffer[11], 5), sliderDownButton := IsBitSet(serialBuffer[11], 6));
    }

    method UpdateTrackerConnection(serialBuffer: seq<Byte>)
      requires |serialBuffer| >= MinLength
      modifies this
      ensures State() == old(State()).(tracker := TrackerConnection(old(tracker), serialBuffer))
    {
      tracker := tracker.(trackerConnected := IsBitSet(serialBuffer[11], 2));
    }

    method UpdateTrackerValues(serialBuffer: seq<Byte>)
      requires |serialBuffer| >= MinLength
      modifies this
      ensures State() == old(State()).(tracker := TrackerValues(old(tracker), serialBuffer))
    {
      tracker := tracker.(proxClicked := IsBitSet(serialBuffer[11], 1), proxTouched := IsBitSet(serialBuffer[8], 0),
                          proxValue := Analog(serialBuffer[8]));
    }

    /** Writes all four trackpad fields; the coordinates are the raw bytes. */
    method UpdateTrackPadValues(serialBuffer: seq<Byte>)
      requires |serialBuffer| >= MinLength
      modifies this
      ensures State() == old(State()).(trackpad := Trackpad(serialBuffer))
    {
      var xValue := serialBuffer[6];
      var yValue := serialBuffer[7];
      var pullValue := Analog(serialBuffer[13]);
      var forceValue := Analog(serialBuffer[17]);
      trackpad := trackpad.(trackpadCoordinates := Vec2(xValue as real, yValue as real),
                            trackpadPressures := FloatPair(pullValue, forceValue),
                            trackpadClicked := IsBitSet(serialBuffer[0], 1),
                            trackpadTouched := IsBitSet(serialBuffer[0], 2));
    }

    method UpdateSystemButton(serialBuffer: seq<Byte>)
      requires |serialBuffer| >= MinLength
      modifies this
      ensures State() == old(State()).(systemButtonPressed := IsBitSet(serialBuffer[0], 0))
    {
      systemButtonPressed := IsBitSet(serialBuffer[0], 0);
    }

    method UpdateSqueezeGesture(serialBuffer: seq<Byte>)
      requires |serialBuffer| >= MinLength
      modifies this
      ensures State() == old(State()).(gestures := Squeeze(old(gestures), serialBuffer))
    {
      var pullValue := Analog(serialBuffer[10]);
      var forceValue := Analog(serialBuffer[14]);
      gestures := gestures.(gripTouch := IsBitSet(serialBuffer[10], 0), gripClick := IsBitSet(serialBuffer[11], 0),
                            gripPressures := FloatPair(pullValue, forceValue), squeeze := IsBitSet(serialBuffer[41], 0));
    }

    method UpdatePointIndependentGesture(serialBuffer: seq<Byte>)
      requires |serialBuffer| >= MinLength
      modifies this
      ensures State() == old(State()).(gestures := PointIndependent(old(gestures), serialBuffer))
    {
      gestures := gestures.(pointIndependent := IsBitSet(serialBuffer[13], 0));
    }

    method UpdatePointExcludeTrackpadGesture(serialBuffer: seq<Byte>)
      requires |serialBuffer| >= MinLength
      modifies this
      ensures State() == old(State()).(gestures := PointExcludeTrackpad(old(gestures), serialBuffer))
    {
      gestures := gestures.(pointExcludeTrackpad := IsBitSet(serialBuffer[14], 0));
    }

    method UpdatePinchTrackpadGesture(serialBuffer: seq<Byte>)
      requires |serialBuffer| >= MinLength
      modifies this
      ensures State() == old(State()).(gestures := PinchTrackpad(old(gestures), serialBuffer))
    {
      gestures := gestures.(pinchTrackpad := IsBitSet(serialBuffer[15], 0), pinchTrackpadAnalog := Analog(serialBuffer[15]));
    }

    method UpdatePinchThumbFingerGesture(serialBuffer: seq<Byte>)
      requires |serialBuffer| >= MinLength
      modifies this
      ensures State() == old(State()).(gestures := PinchThumbFinger(old(gestures), serialBuffer))
    {
      gestures := gestures.(pinchThumbFinger := IsBitSet(serialBuffer[16], 0), pinchThumbFingerAnalog := Analog(serialBuffer[16]));
    }

    // ------------------------------------------------------------------ IMU

    /** The copy loop each IMU decoder starts with: the six bytes from
        `first` on, into a fresh six-slot array. */
    static method CopyAxisBytes(serialBuffer: seq<Byte>, first: nat) returns (data: array<int>)
      requires first + 6 <= |serialBuffer|
      ensures fresh(data) && data.Length == 6
      ensures data[..] == serialBuffer[first..first + 6]
      ensures forall k :: 0 <= k < 6 ==> data[k] == serialBuffer[first + k]
    {
      var gap := 0;
      data := new int[6];
      var i := first;
      while i <= first + 5
        invariant first <= i <= first + 6 && gap == i - first
        invariant forall k :: 0 <= k < gap ==> data[k] == serialBuffer[first + k]
      {
        data[gap] := serialBuffer[i];
        gap := gap + 1;
        i := i + 1;
      }
    }

    /** `(short)((data[hi] << 8) + data[lo])` on two bytes copied out of the packet. */
    static method AxisOf(data: array<int>, hi: nat, lo: nat, ghost serialBuffer: seq<Byte>, ghost first: nat) returns (v: int)
      requires hi < data.Length && lo < data.Length && first + data.Length <= |serialBuffer|
      requires data[hi] == serialBuffer[first + hi] && data[lo] == serialBuffer[first + lo]
      ensures v == Int16Of(serialBuffer[first + hi], serialBuffer[first + lo])
    {
      v := ToInt16(data[hi] * 256 + data[lo]);
    }

    /** Copies bytes 23-28, assembles three low-byte-first int16 axes and
        scales them to the 4 g range. */
    method UpdateAccelerometerValues(serialBuffer: seq<Byte>)
      requires |serialBuffer| >= MinLength
      modifies this
      ensures State() == old(State()).(accelerometer := AccelVector(serialBuffer))
    {
      accelerometer := ReadAccelerometer(serialBuffer);
    }

    /** The body of `UpdateAccelerometerValues` up to its store. */
    static method ReadAccelerometer(serialBuffer: seq<Byte>) returns (a: Vec3)
      requires |serialBuffer| >= MinLength
      ensures a == AccelVector(serialBuffer)
    {
      var accelerometerData := CopyAxisBytes(serialBuffer, 23);
      var x := AxisOf(accelerometerData, 1, 0, serialBuffer, 23);
      var y := AxisOf(accelerometerData, 3, 2, serialBuffer, 23);
      var z := AxisOf(accelerometerData, 5, 4, serialBuffer, 23);
      assert x == AccelRaw(serialBuffer, 0);
      assert y == AccelRaw(serialBuffer, 1);
      assert z == AccelRaw(serialBuffer, 2);
      a := Vec3(x as real * 4.0 / 32768.0, y as real * 4.0 / 32768.0, z as real * 4.0 / 32768.0);
    }

    /** Copies bytes 35-40, assembles the axes low byte first, and subtracts
        the stored offset only once the gyroscope is calibrated. */
    method UpdateGyroscopeValues(serialBuffer: seq<Byte>)
      requires |serialBuffer| >= MinLength
      modifies this
      ensures State() == old(State()).(gyroscope := GyroReading(gyroCalibrated, gyroscopeOffsetValues, serialBuffer))
    {
      var reading := ReadGyroscope(serialBuffer);
      if gyroCalibrated {
        gyroscope := Sub(reading, gyroscopeOffsetValues);
      } else {
        gyroscope := reading;
      }
    }

    /** The first half of `UpdateGyroscopeValues`: copies bytes 35-40,
        assembles the axes low byte first, and scales them to radians per
        second. */
    static method ReadGyroscope(serialBuffer: seq<Byte>) returns (g: Vec3)
      requires |serialBuffer| >= MinLength
      ensures g == GyroVector(serialBuffer)
    {
      var gyroscopeData := CopyAxisBytes(serialBuffer, 35);
      var x := AxisOf(gyroscopeData, 1, 0, serialBuffer, 35);
      var y := AxisOf(gyroscopeData, 3, 2, serialBuffer, 35);
      var z := AxisOf(gyroscopeData, 5, 4, serialBuffer, 35);
      assert x == GyroRaw(serialBuffer, 0);
      assert y == GyroRaw(serialBuffer, 1);
      assert z == GyroRaw(serialBuffer, 2);
      g := Vec3(GyroUnits(x), GyroUnits(y), GyroUnits(z));
    }

    /** Copies bytes 29-34, assembles the axes high byte first, and scales
        them; the array updates follow. */
    method UpdateMagnetometerValues(serialBuffer: seq<Byte>)
      requires ArraysValid() && magContents == MagArrays() && |serialBuffer| >= MinLength
      modifies this, magMaximum, magMinimum, magOffset, magScale, magCalibration
      ensures magContents == MagArrays()
      ensures State() == MagnetometerUpdated(old(State()), serialBuffer)
    {
      var m := ReadMagnetometer(serialBuffer);
      StoreMagnetometer(m);
      UpdateMagArrays();
    }

    method StoreMagnetometer(m: Vec3)
      modifies this
      ensures State() == old(State()).(magnetometer := m)
    {
      magnetometer := m;
    }

    /** The first half of `UpdateMagnetometerValues`: copies bytes 29-34,
        assembles the axes high byte first, and scales them. */
    static method ReadMagnetometer(serialBuffer: seq<Byte>) returns (m: Vec3)
      requires |serialBuffer| >= MinLength
      ensures m == MagVector(serialBuffer)
    {
      var magnetometerData := CopyAxisBytes(serialBuffer, 29);
      var x := AxisOf(magnetometerData, 0, 1, serialBuffer, 29);
      var y := AxisOf(magnetometerData, 2, 3, serialBuffer, 29);
      var z := AxisOf(magnetometerData, 4, 5, serialBuffer, 29);
      assert x == MagRaw(serialBuffer, 0);
      assert y == MagRaw(serialBuffer, 1);
      assert z == MagRaw(serialBuffer, 2);
      m := Vec3(x as real * 0.38, y as real * 0.38, z as real * 0.61);
    }

    /** The rest of `UpdateMagnetometerValues`: while uncalibrated, widen the
        extremes to the reading and recompute offsets and scales; then store
        the reading less the offsets. */
    method UpdateMagArrays()
      requires ArraysValid() && magContents == MagArrays()
      modifies this, magMaximum, magMinimum, magOffset, magScale, magCalibration
      ensures magContents == MagArrays()
      ensures State() == MagArraysUpdated(old(State()))
    {
      if !magCalibrated {
        TrackMagRange(magnetometer);
      }
      ApplyMagOffsets();
      magContents := MagArrays();
    }

    /** The last step of `UpdateMagnetometerValues`. */
    method ApplyMagOffsets()
      requires ArraysValid()
      modifies magCalibration
      ensures magCalibration[..] == LessOffsets(magnetometer, magOffset[..])
    {
      magCalibration[0] := magnetometer.x - magOffset[0];
      magCalibration[1] := magnetometer.y - magOffset[1];
      magCalibration[2] := magnetometer.z - magOffset[2];
    }

    /** The uncalibrated branch of `UpdateMagnetometerValues`: widen the
        extremes to the reading `m`, then recompute the offsets and scales
        from them. */
    method TrackMagRange(m: Vec3)
      requires ArraysValid()
      modifies magMaximum, magMinimum, magOffset, magScale
      ensures magMaximum[..] == MaxWith(old(magMaximum[..]), m)
      ensures magMinimum[..] == MinWith(old(magMinimum[..]), m)
      ensures magOffset[..] == MidOffsets(magMinimum[..], magMaximum[..])
      ensures magScale[..] == HalfRanges(magMinimum[..], magMaximum[..])
    {
      ReplaceWithMax(magMaximum, m);
      ReplaceWithMin(magMinimum, m);
      magOffset[0] := (magMinimum[0] + magMaximum[0]) / 2.0;
      magOffset[1] := (magMinimum[1] + magMaximum[1]) / 2.0;
      magOffset[2] := (magMinimum[0] + magMaximum[2]) / 2.0;

      magScale[0] := (magMaximum[0] - magMinimum[0]) / 2.0;
      magScale[1] := (magMaximum[1] - magMinimum[1]) / 2.0;
      magScale[2] := (magMaximum[2] - magMinimum[2]) / 2.0;
    }

    /** Raises each stored maximum to the reading where the reading is larger. */
    static method ReplaceWithMax(max: array<real>, values: Vec3)
      requires max.Length == 3
      modifies max
      ensures max[..] == MaxWith(old(max[..]), values)
    {
      if values.x > max[0] {
        max[0] := values.x;
      }
      if values.y > max[1] {
        max[1] := values.y;
      }
      if values.z > max[2] {
        max[2] := values.z;
      }
    }

    /** Lowers each stored minimum to the reading where the reading is smaller. */
    static method ReplaceWithMin(min: array<real>, values: Vec3)
      requires min.Length == 3
      modifies min
      ensures min[..] == MinWith(old(min[..]), values)
    {
      if values.x < min[0] {
        min[0] := values.x;
      }
      if values.y < min[1] {
        min[1] := values.y;
      }
      if values.z < min[2] {
        min[2] := values.z;
      }
    }

    // ----------------------------------------------------------------- taps

    /** `UpdateTapValues` at time `now`: the touch is latched, the device's
        own hand takes one tap update on it, and the two flags are recorded
        as a pair. */
    method UpdateTapValues(now: real)
      requires |leftTaps.ring| == TapArrSize && |rightTaps.ring| == TapArrSize
      modifies this
      ensures State() == TapsUpdated(old(State()), now)
    {
      var touched := trackpad.trackpadTouched;
      var o;
      if isLeft {
        o := UpdateHandTaps(tap, leftTaps, touched, true, now);
      } else {
        o := UpdateHandTaps(tap, rightTaps, touched, false, now);
      }
      SetTapFlags(o.tap, o.doubleTap);
      SetHandTaps(isLeft, o.hand);
      RecordTaps(touched);
    }

    method SetTapFlags(newTap: bool, newDoubleTap: bool)
      modifies this
      ensures State() == old(State()).(tap := newTap, doubleTap := newDoubleTap)
    {
      tap := newTap;
      doubleTap := newDoubleTap;
    }

    /** The tap state of the hand `left` names. */
    method SetHandTaps(left: bool, h: HandTaps)
      modifies this
      ensures State() == if left then old(State()).(leftTaps := h) else old(State()).(rightTaps := h)
    {
      if left {
        leftTaps := h;
      } else {
        rightTaps := h;
      }
    }

    /** The first and last lines of `UpdateTapValues`: the latched touch
        and the pair of flags. */
    method RecordTaps(touched: bool)
      modifies this
      ensures State() == old(State()).(trackpadTapped := touched, taps := (old(tap), old(doubleTap)))
    {
      trackpadTapped := touched;
      taps := (tap, doubleTap);
    }

    /** One branch of `UpdateTapValues` on the hand's previous touch, ring
        and shift time `h`: latch the touch, shift the ring once the
        threshold has elapsed (in `tap` on the left device, the raw touch on
        the right one), then look for a double tap and clear the ring on
        one. */
    static method UpdateHandTaps(tap: bool, h: HandTaps, touched: bool, isLeft: bool, now: real)
      returns (o: TapOutcome)
      requires |h.ring| == TapArrSize
      ensures o == TapUpdate(tap, h, touched, isLeft, now)
    {
      var tap', h' := tap, h;
      if touched != h'.prev {
        if touched {
          tap' := true;
          h' := h'.(prev := true);
        } else {
          tap' := false;
          h' := h'.(prev := false);
        }
      }
      assert tap' == LatchedTap(tap, h, touched) && h' == h.(prev := touched);
      if now - h'.past > TapTimeThreshold {
        h' := h'.(past := now);
        var shifted := NewTapArray(h'.ring, if isLeft then tap' else touched);
        h' := h'.(ring := shifted);
      }
      assert h' == HandTaps(touched, ExaminedRing(tap, h, touched, isLeft, now), if Elapsed(h, now) then now else h.past);
      var numTaps := CheckNumberTaps(h'.ring);
      var doubleTap := false;
      if numTaps > 1 {
        doubleTap := true;
      }
      if doubleTap {
        h' := h'.(ring := Cleared());
      }
      o := TapOutcome(tap', doubleTap, h');
    }

    /** The ring with its oldest sample dropped and `newValue` appended. */
    static method NewTapArray(oldArray: seq<bool>, newValue: bool) returns (r: seq<bool>)
      requires |oldArray| > 0
      ensures r == Shifted(oldArray, newValue)
    {
      var newArray := new bool[|oldArray|];
      var i := 0;
      while i < |oldArray| - 1
        invariant 0 <= i <= |oldArray| - 1
        invariant forall k :: 0 <= k < i ==> newArray[k] == oldArray[k + 1]
      {
        newArray[i] := oldArray[i + 1];
        i := i + 1;
      }
      newArray[|oldArray| - 1] := newValue;
      r := newArray[..];
      assert r == Shifted(oldArray, newValue);
    }

    /** The number of rising edges in the ring. */
    static method CheckNumberTaps(arrToCheck: seq<bool>) returns (numTaps: int)
      requires |arrToCheck| > 0
      ensures numTaps == CountRising(arrToCheck)
    {
      numTaps := 0;
      var i := 0;
      while i < |arrToCheck| - 1
        invariant 0 <= i <= |arrToCheck| - 1
        invariant numTaps == CountRising(arrToCheck[..i + 1])
      {
        if arrToCheck[i] != arrToCheck[i + 1] {
          if arrToCheck[i + 1] {
            numTaps := numTaps + 1;
          }
        }
        assert arrToCheck[..i + 2][..i + 1] == arrToCheck[..i + 1];
        i := i + 1;
      }
      assert arrToCheck[..i + 1] == arrToCheck;
    }

    // ---------------------------------------------------------- calibration

    /** `CalibrateGyro`: one calibration step on the current gyroscope
        reading; a finished step returns the stop-streaming command and the
        hand's offset upload. */
    method CalibrateGyro() returns (cmds: seq<Command>)
      modifies this
      ensures (State(), cmds) == GyroCalibrationStep(old(State()))
    {
      var a := Accumulator(gyroCalibrationDone, gyroCalibrated, gyroscopeOffsetValues, samplesTaken);
      var next, finished := CalibrationStep(a, enable, gyroscope);
      SetGyroFlags(next.done, next.calibrated);
      SetGyroSum(next.sum, next.samples);
      cmds := [];
      if finished {
        cmds := [Text(StopStreamingData)];
        if isLeft {
          cmds := cmds + GyroOffsetUpload(Left, gyroscopeOffsetValues);
        } else {
          cmds := cmds + GyroOffsetUpload(Right, gyroscopeOffsetValues);
        }
      }
    }

    /** `CalibrateMag`: the same step on the magnetometer reading; it shares
        `samplesTaken` and the trigger with the gyroscope. */
    method CalibrateMag() returns (cmds: seq<Command>)
      modifies this
      ensures (State(), cmds) == MagCalibrationStep(old(State()))
    {
      var a := Accumulator(gyroCalibrationDone, magCalibrated, magOffsetValues, samplesTaken);
      var next, finished := CalibrationStep(a, enable, magnetometer);
      SetMagFlags(next.done, next.calibrated);
      SetMagSum(next.sum, next.samples);
      cmds := [];
      if finished {
        cmds := [Text(StopStreamingData)];
        if isLeft {
          cmds := cmds + MagOffsetUpload(Left, magOffsetValues);
        } else {
          cmds := cmds + MagOffsetUpload(Right, magOffsetValues);
        }
      }
    }

    /** The branches both calibration methods share, on the trigger, the
        calibrated flag, the running sum and the sample count: nothing
        happens unless a calibration was requested on an enabled device; a
        finished calibration starts over; after `CalibratingSamples` samples
        the sum becomes the mean and the step reports that it finished;
        before that the sample is added. */
    static method CalibrationStep(a: Accumulator, enable: bool, sample: Vec3)
      returns (next: Accumulator, finished: bool)
      ensures CalStep(next, finished) == Calibrate(a, enable, sample)
    {
      next, finished := a, false;
      if !next.done || !enable {
        return;
      } else if next.calibrated {
        next := next.(sum := Zero, samples := 0, calibrated := false);
      }
      if next.samples >= CalibratingSamples {
        next := next.(sum := Div(next.sum, next.samples));
        next := next.(done := false, calibrated := true);
        finished := true;
        return;
      }
      next := next.(sum := Add(next.sum, sample), samples := next.samples + 1);
    }

    method SetGyroFlags(done: bool, calibrated: bool)
      modifies this
      ensures State() == old(State()).(gyroCalibrationDone := done, gyroCalibrated := calibrated)
    {
      gyroCalibrationDone := done;
      gyroCalibrated := calibrated;
    }

    /** The offset sum and the sample count, which the magnetometer shares. */
    method SetGyroSum(offset: Vec3, samples: nat)
      modifies this
      ensures State() == old(State()).(gyroscopeOffsetValues := offset, samplesTaken := samples)
    {
      gyroscopeOffsetValues := offset;
      samplesTaken := samples;
    }

    method SetMagFlags(done: bool, calibrated: bool)
      modifies this
      ensures State() == old(State()).(gyroCalibrationDone := done, magCalibrated := calibrated)
    {
      gyroCalibrationDone := done;
      magCalibrated := calibrated;
    }

    method SetMagSum(offset: Vec3, samples: nat)
      modifies this
      ensures State() == old(State()).(magOffsetValues := offset, samplesTaken := samples)
    {
      magOffsetValues := offset;
      samplesTaken := samples;
    }

    /** What the serial reader's offset bring-up writes into a device: the
        offset it read back and the calibrated flag. */
    method StoreGyroOffset(offset: Vec3)
      requires Valid()
      modifies this
      ensures Valid()
      ensures State() == old(State()).(gyroscopeOffsetValues := offset, gyroCalibrated := true)
    {
      gyroscopeOffsetValues := offset;
      gyroCalibrated := true;
    }
  }
}
