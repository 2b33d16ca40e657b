# etee serial core, modelled in Dafny

The etee controllers send their state to the host through a USB dongle.
The dongle delivers a byte stream over a serial port. This project models
the two sequential cores that turn that stream into controller state, and
proves properties of the model:

- **The serial reader (`CSharpSerial`).** It has four parts:
  - **The framer.** The inner loop of `ThreadLoop` stores bytes one at a time in a 9999-byte array, cuts packets at a pair of 0xFF bytes, keeps only packets of exactly `bufferSize + 1` bytes, and routes each one by bit 3 of byte 11 to a left or a right queue.
  - **The consumer `ReadingQueues`.** It hands queued packets to the two devices. Because its loop bound shrinks while it dequeues, it handles only the older half of each queue per call.
  - **The connection debounce counters, the vibration command queues and `SendCommandToDevice`.** The last one sets the `streamingData` latch when it writes `BP+AG`.
  - **The start-up loop and the uploads.** The start-up loop requests the gyroscope offsets and reads them back from reply lines. The calibration uploads are sequences of commands.
- **The device (`eteeDevice`).** It has three parts:
  - **The bit-level packet decoder.** It covers the fingers, battery, charging, slider, tracker, trackpad, system button and gestures. The three IMU sensors are assembled as signed 16-bit values, low byte first for the accelerometer and gyroscope and high byte first for the magnetometer.
  - **The tap debouncer.** A 17-slot ring with a shift-in operation, rising-edge counting and a double-tap reset.
  - **The gyroscope and magnetometer calibration accumulators, and `ResetValues`.**

Layout:

- `wire.dfy`: bytes, `IsBitSet`, `SelectBits` (with C#'s shift-count masking) and the `short` conversion.
- `packet.dfy`: packet offsets, IMU axes and unit scales.
- `vectors.dfy`: `Vector3` over reals.
- `commands.dfy`: the commands written to the stream and the upload sequences.
- `text.dfy`: `Contains` and `Split(':', ' ')` for reply lines.
- `framing.dfy`: the framer as a function of the byte sequence.
- `taps.dfy`: the tap ring.
- `calibration.dfy`: the 700-sample accumulator.
- `device_model.dfy`: the device state as a value and the decoding of one packet.
- `device.dfy`: the class `EteeDevice`, whose methods update fields in place. Each method is proved to leave `State()` equal to the `DeviceModel` function it implements.
- `serial_model.dfy`: the link, the debounce, the per-hand pipelines and the offset start-up loop as functions.
- `serial.dfy`: the class `CSharpSerial`, holding the framer's array and `count`, the queues, the counters and the flags. It is proved against `Framing` and `SerialModel`.

Outside effects become plain values:

- The serial port is a flag for whether it is open, plus the log of commands written.
- Bytes and reply lines read from the port are parameters.
- `Time.time` is a parameter `now`.
- `float.Parse` is a parameter `parse`.
- Floats are reals.
- A call the device makes into the serial object (stop streaming, offset uploads) is returned as commands. The serial object sends them right after the packet is decoded. An upload coroutine is therefore treated as running to completion at the call, with its waits dropped.

Quirks of the code are modelled as written:

- `ReadingQueues` handles `n - n / 2` of `n` queued frames.
- A packet boundary seen at the wrong length drops the accumulation silently.
- Storing at index 9999 kills the reader thread. The model records this as `readerFaulted`.
- `magOffset[2]` pairs `magMinimum[0]` with `magMaximum[2]`.
- The analog values of the two point gestures are never decoded.
- `CalibrateMag` is gated on `gyroCalibrationDone` and shares `samplesTaken` with the gyroscope.
- A line carrying both `R:gf=` and `L:gf=` counts as the right device's reply.
- Only the left gyroscope upload re-enables streaming.

## Model

Source paths are relative to the repository root.

| member | source | states |
|---|---|---|
| Wire.ShiftCount | Assets/eteeAPI/Scripts/01_SerialCommunication/eteeDevice.cs:845-861 | the shift count C# applies to an `int` is below 32 |
| Wire.SelectBits | Assets/eteeAPI/Scripts/01_SerialCommunication/eteeDevice.cs:857-861 | the selected field is below `2^bitQuant` (count masked to 5 bits) and no larger than the byte |
| Wire.ShrIsDivision | Assets/eteeAPI/Scripts/01_SerialCommunication/eteeDevice.cs:857-861 | `b >> k` is `b / 2^k` |
| Wire.BitIsParity | Assets/eteeAPI/Scripts/01_SerialCommunication/eteeDevice.cs:845-848 | the bit test `(b & (1 << k)) != 0` is the parity of `b / 2^k` |
| Wire.SelectSevenIsShift | Assets/eteeAPI/Scripts/01_SerialCommunication/eteeDevice.cs:857-861 | `SelectBits(b, 7, 1)` is `b >> 1` and lies in 0..127 |
| Wire.FlagAndValuePartition | Assets/eteeAPI/Scripts/01_SerialCommunication/eteeDevice.cs:217-220 | `b == 2 * SelectBits(b, 7, 1) + bit 0`: the touch bit and the 7-bit value partition the byte |
| Wire.FlagAndValueDetermineByte | Assets/eteeAPI/Scripts/01_SerialCommunication/eteeDevice.cs:217-220 | two bytes with the same touch bit and 7-bit value are equal |
| Wire.ToInt16 | Assets/eteeAPI/Scripts/01_SerialCommunication/eteeDevice.cs:531-533 | the unchecked `(short)` cast lands in [-32768, 32767] |
| Wire.ToInt16Wraps | Assets/eteeAPI/Scripts/01_SerialCommunication/eteeDevice.cs:531-533 | the cast keeps the value modulo 2^16 and leaves in-range values unchanged |
| Wire.Int16Of | Assets/eteeAPI/Scripts/01_SerialCommunication/eteeDevice.cs:531-533 | `(short)((hi << 8) + lo)` lies in [-32768, 32767] |
| Wire.Int16RoundTrip | Assets/eteeAPI/Scripts/01_SerialCommunication/eteeDevice.cs:531-533 | splitting a 16-bit value into its bytes and assembling them gives it back |
| Wire.Int16Bytes | Assets/eteeAPI/Scripts/01_SerialCommunication/eteeDevice.cs:531-533 | the two bytes are recovered from the value: the assembly is a bijection |
| Packet.RawAxesInInt16Range | Assets/eteeAPI/Scripts/01_SerialCommunication/eteeDevice.cs:519-598 | every raw accelerometer, gyroscope and magnetometer axis is a signed 16-bit value |
| Packet.AxisEncodingRoundTrip | Assets/eteeAPI/Scripts/01_SerialCommunication/eteeDevice.cs:531-593 | a value written low byte first at an accelerometer or gyroscope axis, or high byte first at a magnetometer axis, decodes to itself |
| Packet.ByteOrderAsymmetry | Assets/eteeAPI/Scripts/01_SerialCommunication/eteeDevice.cs:531-593 | the bytes 0x01, 0x00 read as 1 for the accelerometer and 256 for the magnetometer |
| Packet.ByteOrderMatters | Assets/eteeAPI/Scripts/01_SerialCommunication/eteeDevice.cs:531-593 | swapping the byte order leaves the value unchanged iff the two bytes are equal |
| Commands.LatchTestAgrees | Assets/eteeAPI/Scripts/01_SerialCommunication/CSharpSerial.cs:647-663 | the text of a command equals `BP+AG` iff it is the enable-streaming command, whatever the float rendering |
| Commands.GyroUploadShape | Assets/eteeAPI/Scripts/01_SerialCommunication/CSharpSerial.cs:517-561 | the gyroscope upload sends the hand's offset first; it enables streaming, as its last command, exactly for the left hand |
| Commands.MagUploadShape | Assets/eteeAPI/Scripts/01_SerialCommunication/CSharpSerial.cs:569-639 | the magnetometer upload is six commands: X, X, Y, Y, Z, Z with the matching offset component, and never enables streaming |
| Text.ContainsIff | Assets/eteeAPI/Scripts/01_SerialCommunication/CSharpSerial.cs:814-822 | `Contains` holds iff the tag occurs at some position of the line |
| Text.Split | Assets/eteeAPI/Scripts/01_SerialCommunication/CSharpSerial.cs:816-824 | `Split(':', ' ')` yields at least one piece |
| Text.SplitJoin | Assets/eteeAPI/Scripts/01_SerialCommunication/CSharpSerial.cs:816-824 | there is one more piece than separators, and joining the pieces with the separators gives the line back, so empty pieces are kept |
| Text.SplitPiecesHaveNoSeparator | Assets/eteeAPI/Scripts/01_SerialCommunication/CSharpSerial.cs:816-824 | no piece contains `':'` or `' '` |
| Framing.Zeros | Assets/eteeAPI/Scripts/01_SerialCommunication/CSharpSerial.cs:915 | a fresh array is all zeros |
| Framing.FeedEmitsIff | Assets/eteeAPI/Scripts/01_SerialCommunication/CSharpSerial.cs:890-932 | a frame is emitted iff the byte and the previous one are 0xFF and `count == bufferSize`; any boundary resets `count` to 0; any other byte adds one to `count` |
| Framing.RunConcat | Assets/eteeAPI/Scripts/01_SerialCommunication/CSharpSerial.cs:880-933 | reading a concatenation is reading each part in turn |
| Framing.RunOnlyAppends | Assets/eteeAPI/Scripts/01_SerialCommunication/CSharpSerial.cs:902-912 | the framer only appends to its queues, so frames keep arrival order; the latch never goes back to false |
| Framing.FeedPreservesInv | Assets/eteeAPI/Scripts/01_SerialCommunication/CSharpSerial.cs:882-932 | one byte keeps the invariant: the accumulation fits and holds no 0xFF pair, queued frames are well formed, and each queue holds only its hand's frames |
| Framing.RunPreservesInv | Assets/eteeAPI/Scripts/01_SerialCommunication/CSharpSerial.cs:902-912 | after any input, right-queue frames have bit 3 of byte 11 set and left-queue frames have it clear, agreeing with the decoder's handedness |
| Framing.DequeuePreservesInv | Assets/eteeAPI/Scripts/01_SerialCommunication/CSharpSerial.cs:722-745 | taking frames off the front of the queues keeps the invariant |
| Framing.RunAccumulates | Assets/eteeAPI/Scripts/01_SerialCommunication/CSharpSerial.cs:929-932 | bytes that form no boundary are only accumulated |
| Framing.FeedAccepts | Assets/eteeAPI/Scripts/01_SerialCommunication/CSharpSerial.cs:892-919 | the second 0xFF at `count == bufferSize` emits the accumulation, the 0xFF and zeros onto the queue bit 3 of byte 11 selects, and sets the latch |
| Framing.FrameRoundTrip | Assets/eteeAPI/Scripts/01_SerialCommunication/CSharpSerial.cs:880-933 | a payload of `bufferSize - 1` bytes with no 0xFF pair, followed by two 0xFF, yields exactly that frame padded with zeros on its hand's queue, with `count` back at 0 |
| Taps.Cleared | Assets/eteeAPI/Scripts/01_SerialCommunication/eteeDevice.cs:345-348 | `new bool[tapArrSize]` has 17 slots, all false |
| Taps.CountRising | Assets/eteeAPI/Scripts/01_SerialCommunication/eteeDevice.cs:433-448 | the rising-edge count is at most half the ring length, and at most 8 for a 17-slot ring |
| Taps.CountRisingIsEdgeCount | Assets/eteeAPI/Scripts/01_SerialCommunication/eteeDevice.cs:433-448 | the count is exactly the number of positions `i` with `!a[i] && a[i+1]` |
| Taps.NoTouchNoTaps | Assets/eteeAPI/Scripts/01_SerialCommunication/eteeDevice.cs:433-448 | an all-false ring counts 0 |
| Taps.CountDropFront | Assets/eteeAPI/Scripts/01_SerialCommunication/eteeDevice.cs:413-426 | dropping the oldest sample loses exactly the first pair's edge |
| Taps.CountShifted | Assets/eteeAPI/Scripts/01_SerialCommunication/eteeDevice.cs:413-426 | shifting in a sample changes the count by the edge dropped at the front and the edge added at the back |
| Taps.ExaminedRing | Assets/eteeAPI/Scripts/01_SerialCommunication/eteeDevice.cs:326-332 | the ring examined for double taps keeps 17 slots |
| Taps.TapUpdateSpec | Assets/eteeAPI/Scripts/01_SerialCommunication/eteeDevice.cs:303-395 | the previous touch becomes the touch; `tap` follows a changed touch; the ring shifts only after the threshold; `doubleTap` iff more than one edge, and then the ring is cleared; documents the definition case by case, its substance is in `Taps.TapUpdateKeepsQuiet`, `Taps.DoubleTapNeedsNewEdge` and `Taps.NewEdgeGivesDoubleTap` |
| Taps.TapUpdateKeepsQuiet | Assets/eteeAPI/Scripts/01_SerialCommunication/eteeDevice.cs:334-348 | after every update the ring holds at most one rising edge |
| Taps.NoDoubleTapFromCleared | Assets/eteeAPI/Scripts/01_SerialCommunication/eteeDevice.cs:326-348 | a cleared ring cannot report a double tap on the next update |
| Taps.DoubleTapNeedsNewEdge | Assets/eteeAPI/Scripts/01_SerialCommunication/eteeDevice.cs:326-348 | from a quiet ring, a double tap needs an elapsed threshold, a true sample shifted in, a false newest slot, exactly one edge already there, and that edge not in the oldest pair |
| Taps.NewEdgeGivesDoubleTap | Assets/eteeAPI/Scripts/01_SerialCommunication/eteeDevice.cs:326-348 | conversely, those conditions report a double tap and clear the ring, so with `Taps.DoubleTapNeedsNewEdge` they are exactly when a double tap occurs |
| Taps.DoubleTapExample | Assets/eteeAPI/Scripts/01_SerialCommunication/eteeDevice.cs:309-348 | a concrete left-hand update, one earlier touch in the ring and a new touch after the threshold, reports a double tap and clears the ring |
| Calibration.CalibrateSpec | Assets/eteeAPI/Scripts/01_SerialCommunication/eteeDevice.cs:639-672 | a no-op unless triggered and enabled; finishes iff at least 700 samples and not yet calibrated, storing sum/samples; otherwise adds the sample, starting over from it when it was calibrated; documents the definition case by case, its substance is in `Calibration.CalibrationYieldsMean`, `Calibration.NoEarlyFinish` and `Calibration.FeedFromReset` |
| Calibration.AccumulateBelowLimit | Assets/eteeAPI/Scripts/01_SerialCommunication/eteeDevice.cs:669-670 | below 700 samples every call adds its sample and counts it |
| Calibration.FeedFromReset | Assets/eteeAPI/Scripts/01_SerialCommunication/eteeDevice.cs:645-650 | triggering a calibrated sensor resets the sum and the count to 0 |
| Calibration.CalibrationYieldsMean | Assets/eteeAPI/Scripts/01_SerialCommunication/eteeDevice.cs:651-666 | 700 samples and one more call give offset = mean of the samples, calibrated, trigger cleared |
| Calibration.NoEarlyFinish | Assets/eteeAPI/Scripts/01_SerialCommunication/eteeDevice.cs:651 | none of the first 700 calls finishes |
| Calibration.IdleAfterFinish | Assets/eteeAPI/Scripts/01_SerialCommunication/eteeDevice.cs:641-644 | once finished, further calls change nothing |
| Calibration.IdleStays | Assets/eteeAPI/Scripts/01_SerialCommunication/eteeDevice.cs:641-644 | with the trigger clear, calls change nothing |
| DeviceModel.AnalogIsSelectBits | Assets/eteeAPI/Scripts/01_SerialCommunication/eteeDevice.cs:217 | the stored analog value is `SelectBits(b, 7, 1)`, between 0 and 127 |
| DeviceModel.TouchAndAnalogRecoverByte | Assets/eteeAPI/Scripts/01_SerialCommunication/eteeDevice.cs:217-220 | touch bit and analog value together give the byte back |
| DeviceModel.FingerLayout | Assets/eteeAPI/Scripts/01_SerialCommunication/eteeDevice.cs:214-252 | finger `i` reads byte `1+i` (pull, touch), byte `18+i` (force) and bit `3+i` of byte 0 (click); its tuple repeats pull and force; the arrays have 5 slots |
| DeviceModel.FingerBytesRecovered | Assets/eteeAPI/Scripts/01_SerialCommunication/eteeDevice.cs:214-252 | a finger's pull value and touch flag give back its byte |
| DeviceModel.MaxWith | Assets/eteeAPI/Scripts/01_SerialCommunication/eteeDevice.cs:719-733 | each stored maximum becomes the larger of itself and the reading |
| DeviceModel.MinWith | Assets/eteeAPI/Scripts/01_SerialCommunication/eteeDevice.cs:741-756 | each stored minimum becomes the smaller of itself and the reading |
| DeviceModel.TapsSpec | Assets/eteeAPI/Scripts/01_SerialCommunication/eteeDevice.cs:303-395 | the device's own hand takes one tap update on the decoded touch, the other hand is untouched, `taps == (tap, doubleTap)` |
| DeviceModel.TapsStayQuiet | Assets/eteeAPI/Scripts/01_SerialCommunication/eteeDevice.cs:303-395 | after the tap step the ring is quiet; from a cleared ring no double tap |
| DeviceModel.MagnetometerSpec | Assets/eteeAPI/Scripts/01_SerialCommunication/eteeDevice.cs:580-615 | the reading is stored, the calibrated reading is the reading less the offsets, array sizes and min <= max are kept |
| DeviceModel.MagRangeTracksReadings | Assets/eteeAPI/Scripts/01_SerialCommunication/eteeDevice.cs:601-612 | while uncalibrated the range widens to contain the reading, offsets are the midpoints as written (with `magMinimum[0]` in the third), scales are non-negative |
| DeviceModel.MagRangeFrozenOnceCalibrated | Assets/eteeAPI/Scripts/01_SerialCommunication/eteeDevice.cs:601 | once calibrated the range, offsets and scales do not move |
| DeviceModel.GyroCalibrationSpec | Assets/eteeAPI/Scripts/01_SerialCommunication/eteeDevice.cs:639-672 | `CalibrateGyro` is one accumulator step; a finished step sends stop-streaming, then the hand's offset upload; documents the definition, its substance is in the `Calibration` lemmas |
| DeviceModel.DecodeKeepsWellFormed | Assets/eteeAPI/Scripts/01_SerialCommunication/eteeDevice.cs:148-210 | decoding keeps the array sizes and min <= max |
| DeviceModel.DecodedInputs | Assets/eteeAPI/Scripts/01_SerialCommunication/eteeDevice.cs:148-298 | `enable` is set, `isLeft == !bit3(byte 11)`, fingers, battery, slider, tracker and trackpad come from their bytes; `chargingComplete` is rewritten only while charging |
| DeviceModel.DecodedMotion | Assets/eteeAPI/Scripts/01_SerialCommunication/eteeDevice.cs:176-186 | the system button and the accelerometer and magnetometer readings come from the packet |
| DeviceModel.DecodedGestures | Assets/eteeAPI/Scripts/01_SerialCommunication/eteeDevice.cs:765-821 | the gestures come from bytes 10, 11, 13-16 and 41; the point-gesture analogs keep their values |
| DeviceModel.InputsDependOnlyOnPacket | Assets/eteeAPI/Scripts/01_SerialCommunication/eteeDevice.cs:148-298 | two devices given the same packet agree on every input, except `chargingComplete` when no charge is in progress |
| DeviceModel.MotionDependsOnlyOnPacket | Assets/eteeAPI/Scripts/01_SerialCommunication/eteeDevice.cs:519-598 | they agree on the system button, accelerometer and magnetometer |
| DeviceModel.GesturesDependOnlyOnPacket | Assets/eteeAPI/Scripts/01_SerialCommunication/eteeDevice.cs:765-821 | they agree on the gestures except the never-decoded point analogs |
| DeviceModel.DecodedTaps | Assets/eteeAPI/Scripts/01_SerialCommunication/eteeDevice.cs:173-174 | the tap step sees the touch this packet carries, on the hand the packet names, and leaves a quiet ring |
| DeviceModel.NoDoubleTapAfterStart | Assets/eteeAPI/Scripts/01_SerialCommunication/eteeDevice.cs:128-139 | the first packet after `Start` never reports a double tap |
| DeviceModel.DecodedGyro | Assets/eteeAPI/Scripts/01_SerialCommunication/eteeDevice.cs:561-572 | the gyroscope reading has the stored offset subtracted iff calibrated |
| DeviceModel.DecodedMagReading | Assets/eteeAPI/Scripts/01_SerialCommunication/eteeDevice.cs:613-615 | the calibrated magnetometer reading is the reading less the offsets |
| DeviceModel.DecodeKeepsMagCalibration | Assets/eteeAPI/Scripts/01_SerialCommunication/eteeDevice.cs:148-210 | decoding never calls `CalibrateMag`, so its state is unchanged |
| DeviceModel.DecodedMagRange | Assets/eteeAPI/Scripts/01_SerialCommunication/eteeDevice.cs:601-612 | each decoded packet widens the range to its reading while uncalibrated |
| DeviceModel.DecodedCalibration | Assets/eteeAPI/Scripts/01_SerialCommunication/eteeDevice.cs:205 | every packet drives one gyroscope calibration step with `enable` set; a finished one sends stop-streaming and the packet hand's upload |
| DeviceModel.RecalibrationFirstSampleCorrected | Assets/eteeAPI/Scripts/01_SerialCommunication/eteeDevice.cs:561-566 | a recalibration's first sample still has the old offset subtracted |
| DeviceModel.MagCalibrationSharesTrigger | Assets/eteeAPI/Scripts/01_SerialCommunication/eteeDevice.cs:678-711 | `CalibrateMag` is the same step on the magnetometer with the shared trigger and count; when it finishes it clears the gyroscope's trigger and leaves the gyroscope's offset and flag unchanged |
| DeviceModel.ResetSpec | Assets/eteeAPI/Scripts/01_SerialCommunication/eteeDevice.cs:868-924 | `ResetValues` zeroes the fingers, trackpad, gestures, `tap`, slider, proximity values, IMU vectors and battery |
| DeviceModel.ResetKeeps | Assets/eteeAPI/Scripts/01_SerialCommunication/eteeDevice.cs:868-924 | it keeps the hand, calibration, magnetometer range and tap history |
| DeviceModel.ResetIdempotent | Assets/eteeAPI/Scripts/01_SerialCommunication/eteeDevice.cs:868-924 | resetting twice is resetting once |
| Device.EteeDevice.constructor | Assets/eteeAPI/Scripts/01_SerialCommunication/eteeDevice.cs:13-98 | the field initialisers |
| Device.EteeDevice.Start | Assets/eteeAPI/Scripts/01_SerialCommunication/eteeDevice.cs:128-139 | `ResetValues`, then both tap histories cleared at time `now` |
| Device.EteeDevice.ResetValues | Assets/eteeAPI/Scripts/01_SerialCommunication/eteeDevice.cs:868-924 | the new state is `Reset` of the old |
| Device.EteeDevice.UpdateValuesFromController | Assets/eteeAPI/Scripts/01_SerialCommunication/eteeDevice.cs:148-210 | the new state and the commands sent are `Decode` of the old state and the packet |
| Device.EteeDevice.ClearTapHistory | Assets/eteeAPI/Scripts/01_SerialCommunication/eteeDevice.cs:133-138 | both hands' tap history becomes a cleared ring, no previous touch, last shift at `now` |
| Device.EteeDevice.IdentifyHand | Assets/eteeAPI/Scripts/01_SerialCommunication/eteeDevice.cs:150-151 | `enable` is set and the hand is read from bit 3 of byte 11 |
| Device.EteeDevice.UpdateInputs | Assets/eteeAPI/Scripts/01_SerialCommunication/eteeDevice.cs:150-171 | the new state is `DecodeInputs` of the old |
| Device.EteeDevice.UpdateMotion | Assets/eteeAPI/Scripts/01_SerialCommunication/eteeDevice.cs:176-186 | the new state is `DecodeMotion` of the old |
| Device.EteeDevice.UpdateGestures | Assets/eteeAPI/Scripts/01_SerialCommunication/eteeDevice.cs:188-201 | the new state is `DecodeGestures` of the old |
| Device.EteeDevice.UpdateFingers | Assets/eteeAPI/Scripts/01_SerialCommunication/eteeDevice.cs:214-252 | only the finger data changes, to `Fingers(buf)` |
| Device.EteeDevice.UpdateBatteryValue | Assets/eteeAPI/Scripts/01_SerialCommunication/eteeDevice.cs:260-264 | only the battery level changes, to byte 12's analog value |
| Device.EteeDevice.UpdateCharging | Assets/eteeAPI/Scripts/01_SerialCommunication/eteeDevice.cs:827-834 | charging in progress from byte 11 bit 4; completion from byte 12 bit 0 only while charging |
| Device.EteeDevice.UpdateSliderButtonValue | Assets/eteeAPI/Scripts/01_SerialCommunication/eteeDevice.cs:271-277 | only the slider changes |
| Device.EteeDevice.UpdateTrackerConnection | Assets/eteeAPI/Scripts/01_SerialCommunication/eteeDevice.cs:283-286 | only `trackerConnected` changes |
| Device.EteeDevice.UpdateTrackerValues | Assets/eteeAPI/Scripts/01_SerialCommunication/eteeDevice.cs:292-297 | only the proximity values change |
| Device.EteeDevice.UpdateTrackPadValues | Assets/eteeAPI/Scripts/01_SerialCommunication/eteeDevice.cs:455-467 | only the trackpad changes |
| Device.EteeDevice.UpdateSystemButton | Assets/eteeAPI/Scripts/01_SerialCommunication/eteeDevice.cs:402-405 | only `systemButtonPressed` changes, to byte 0 bit 0 |
| Device.EteeDevice.UpdateSqueezeGesture | Assets/eteeAPI/Scripts/01_SerialCommunication/eteeDevice.cs:765-775 | only the grip and squeeze fields change |
| Device.EteeDevice.UpdatePointIndependentGesture | Assets/eteeAPI/Scripts/01_SerialCommunication/eteeDevice.cs:783-786 | only the flag changes |
| Device.EteeDevice.UpdatePointExcludeTrackpadGesture | Assets/eteeAPI/Scripts/01_SerialCommunication/eteeDevice.cs:794-797 | only the flag changes |
| Device.EteeDevice.UpdatePinchTrackpadGesture | Assets/eteeAPI/Scripts/01_SerialCommunication/eteeDevice.cs:805-809 | only the pinch-trackpad flag and analog change |
| Device.EteeDevice.UpdatePinchThumbFingerGesture | Assets/eteeAPI/Scripts/01_SerialCommunication/eteeDevice.cs:817-821 | only the pinch-thumb-finger flag and analog change |
| Device.EteeDevice.CopyAxisBytes | Assets/eteeAPI/Scripts/01_SerialCommunication/eteeDevice.cs:521-529 | the copy loop fills a fresh 6-slot array with the six bytes from `first` |
| Device.EteeDevice.ReadAccelerometer | Assets/eteeAPI/Scripts/01_SerialCommunication/eteeDevice.cs:519-538 | the reading is the low-byte-first axes at bytes 23-28, scaled by 4/32768 |
| Device.EteeDevice.UpdateAccelerometerValues | Assets/eteeAPI/Scripts/01_SerialCommunication/eteeDevice.cs:519-538 | only the accelerometer changes |
| Device.EteeDevice.ReadGyroscope | Assets/eteeAPI/Scripts/01_SerialCommunication/eteeDevice.cs:545-558 | the reading is the low-byte-first axes at bytes 35-40, scaled to radians per second |
| Device.EteeDevice.UpdateGyroscopeValues | Assets/eteeAPI/Scripts/01_SerialCommunication/eteeDevice.cs:545-573 | only the gyroscope changes, with the offset subtracted iff calibrated |
| Device.EteeDevice.ReadMagnetometer | Assets/eteeAPI/Scripts/01_SerialCommunication/eteeDevice.cs:580-598 | the reading is the high-byte-first axes at bytes 29-34, scaled by 0.38, 0.38, 0.61 |
| Device.EteeDevice.UpdateMagnetometerValues | Assets/eteeAPI/Scripts/01_SerialCommunication/eteeDevice.cs:580-615 | the new state is `MagnetometerUpdated` of the old, with the arrays and their contents kept in step |
| Device.EteeDevice.UpdateMagArrays | Assets/eteeAPI/Scripts/01_SerialCommunication/eteeDevice.cs:601-615 | the array part of the update, as `MagArraysUpdated` |
| Device.EteeDevice.TrackMagRange | Assets/eteeAPI/Scripts/01_SerialCommunication/eteeDevice.cs:603-611 | maxima and minima widened, offsets and scales recomputed from them |
| Device.EteeDevice.ApplyMagOffsets | Assets/eteeAPI/Scripts/01_SerialCommunication/eteeDevice.cs:613-615 | the calibrated reading is the reading less the offsets |
| Device.EteeDevice.ReplaceWithMax | Assets/eteeAPI/Scripts/01_SerialCommunication/eteeDevice.cs:719-733 | the array becomes `MaxWith` of its old contents, in place |
| Device.EteeDevice.ReplaceWithMin | Assets/eteeAPI/Scripts/01_SerialCommunication/eteeDevice.cs:741-756 | the array becomes `MinWith` of its old contents, in place |
| Device.EteeDevice.UpdateTapValues | Assets/eteeAPI/Scripts/01_SerialCommunication/eteeDevice.cs:303-395 | the new state is `TapsUpdated` of the old |
| Device.EteeDevice.UpdateHandTaps | Assets/eteeAPI/Scripts/01_SerialCommunication/eteeDevice.cs:309-348 | one hand's branch computes exactly `TapUpdate` |
| Device.EteeDevice.NewTapArray | Assets/eteeAPI/Scripts/01_SerialCommunication/eteeDevice.cs:413-426 | the result is the ring with `r[i] = old[i+1]` for `i < n-1` and the new value last |
| Device.EteeDevice.CheckNumberTaps | Assets/eteeAPI/Scripts/01_SerialCommunication/eteeDevice.cs:433-448 | the loop returns the rising-edge count |
| Device.EteeDevice.CalibrateGyro | Assets/eteeAPI/Scripts/01_SerialCommunication/eteeDevice.cs:639-672 | the new state and commands are `GyroCalibrationStep` of the old state |
| Device.EteeDevice.CalibrateMag | Assets/eteeAPI/Scripts/01_SerialCommunication/eteeDevice.cs:678-711 | the new state and commands are `MagCalibrationStep` of the old state |
| Device.EteeDevice.CalibrationStep | Assets/eteeAPI/Scripts/01_SerialCommunication/eteeDevice.cs:641-671 | the branches compute exactly `Calibrate` |
| Device.EteeDevice.StoreGyroOffset | Assets/eteeAPI/Scripts/01_SerialCommunication/CSharpSerial.cs:819-827 | the start-up loop stores the offset and sets `gyroCalibrated` |
| SerialModel.Send | Assets/eteeAPI/Scripts/01_SerialCommunication/CSharpSerial.cs:647-663 | a null or closed stream takes nothing; otherwise the command is written; the latch is set iff it was or the command is `BP+AG` on an open stream |
| SerialModel.SendAllSpec | Assets/eteeAPI/Scripts/01_SerialCommunication/CSharpSerial.cs:647-663 | an open stream receives every command in order, a closed one none; the latch is set iff it was or an enable-streaming command went out |
| SerialModel.SendAllConcat | Assets/eteeAPI/Scripts/01_SerialCommunication/CSharpSerial.cs:647-663 | sending two batches is sending their concatenation |
| SerialModel.DrainedSpec | Assets/eteeAPI/Scripts/01_SerialCommunication/CSharpSerial.cs:722-727 | one pass handles at least one frame of a non-empty queue, leaves exactly `n / 2`, and leaves some behind whenever `n >= 2` |
| SerialModel.DrainedExit | Assets/eteeAPI/Scripts/01_SerialCommunication/CSharpSerial.cs:722 | the loop `i < Count` stops at the first `i >= n - i` |
| SerialModel.QueuedDecodable | Assets/eteeAPI/Scripts/01_SerialCommunication/CSharpSerial.cs:722-727 | every framed packet is long enough for the decoder |
| SerialModel.DecodeAll | Assets/eteeAPI/Scripts/01_SerialCommunication/CSharpSerial.cs:722-727 | decoding frames one after another keeps the device well formed |
| SerialModel.DecodeAllSnoc | Assets/eteeAPI/Scripts/01_SerialCommunication/CSharpSerial.cs:722-727 | one more frame continues from where the others left the device and appends its commands |
| SerialModel.Handled | Assets/eteeAPI/Scripts/01_SerialCommunication/CSharpSerial.cs:726 | handing one frame to a device keeps it well formed |
| SerialModel.Consume | Assets/eteeAPI/Scripts/01_SerialCommunication/CSharpSerial.cs:722-727 | handing frames over keeps the device well formed |
| SerialModel.ConsumeSpec | Assets/eteeAPI/Scripts/01_SerialCommunication/CSharpSerial.cs:722-727 | handing frames over one at a time ends where decoding them all ends, and sends every command the decoding produced, in order and nothing else |
| SerialModel.Check | Assets/eteeAPI/Scripts/01_SerialCommunication/CSharpSerial.cs:165-176 | the counter is unchanged; the hand stays connected iff it was and its counter is at most the threshold |
| SerialModel.DebounceSpec | Assets/eteeAPI/Scripts/01_SerialCommunication/CSharpSerial.cs:165-176 | after a frame and `k` ticks the hand is connected iff `k <= threshold`, so a counter equal to the threshold stays connected; a check never connects |
| SerialModel.Released | Assets/eteeAPI/Scripts/01_SerialCommunication/CSharpSerial.cs:466-478 | a disconnected hand's queue is emptied, a connected hand's is kept |
| SerialModel.OffsetOf | Assets/eteeAPI/Scripts/01_SerialCommunication/CSharpSerial.cs:816-825 | an offset is read only from a split of at least 7 pieces, its components parsed from pieces 2, 4 and 6 |
| SerialModel.WithGyro | Assets/eteeAPI/Scripts/01_SerialCommunication/CSharpSerial.cs:819-827 | the device's gyroscope flag and offset become the given ones |
| SerialModel.GyroBringUp | Assets/eteeAPI/Scripts/01_SerialCommunication/CSharpSerial.cs:809-834 | the loop consumes between `from` and all of the reply lines |
| SerialModel.Requests | Assets/eteeAPI/Scripts/01_SerialCommunication/CSharpSerial.cs:811 | `n` copies of `BP+gf` |
| SerialModel.BringUpRequests | Assets/eteeAPI/Scripts/01_SerialCommunication/CSharpSerial.cs:809-834 | one `BP+gf` per pass, one per line read plus one when starved; the latch is untouched |
| SerialModel.BringUpResult | Assets/eteeAPI/Scripts/01_SerialCommunication/CSharpSerial.cs:809-834 | it ends calibrated only with both devices calibrated, never uncalibrates, and a changed device holds the offset of a reply line it read for that device |
| SerialModel.ClassifySpec | Assets/eteeAPI/Scripts/01_SerialCommunication/CSharpSerial.cs:814-828 | `R:gf=` is tested before `L:gf=`; a line with neither is ignored |
| SerialModel.OneReplyCompletes | Assets/eteeAPI/Scripts/01_SerialCommunication/CSharpSerial.cs:809-834 | with the left device calibrated, one readable right reply ends the loop after one request |
| Serial.CSharpSerial.constructor | Assets/eteeAPI/Scripts/01_SerialCommunication/CSharpSerial.cs:770-793 | empty queues and array at `count` 0, both hands disconnected, streaming off, both offsets to be requested |
| Serial.CSharpSerial.ReadByte | Assets/eteeAPI/Scripts/01_SerialCommunication/CSharpSerial.cs:884-932 | one pass of the inner loop on the array is `Feed` on the framer state, and keeps the invariant |
| Serial.CSharpSerial.ReadAvailable | Assets/eteeAPI/Scripts/01_SerialCommunication/CSharpSerial.cs:880-933 | the inner loop over the available bytes is `Run`, and does nothing while offsets are being requested |
| Serial.CSharpSerial.SendCommandToDevice | Assets/eteeAPI/Scripts/01_SerialCommunication/CSharpSerial.cs:647-663 | the link becomes `Send` of the old link |
| Serial.CSharpSerial.SendCommands | Assets/eteeAPI/Scripts/01_SerialCommunication/CSharpSerial.cs:647-663 | the link becomes `SendAll` of the old link |
| Serial.CSharpSerial.EnableDataStreaming | Assets/eteeAPI/Scripts/01_SerialCommunication/CSharpSerial.cs:692-695 | sends `BP+AG` |
| Serial.CSharpSerial.DisableDataStreaming | Assets/eteeAPI/Scripts/01_SerialCommunication/CSharpSerial.cs:701-704 | sends `BP+AS`, which leaves the latch as it was |
| Serial.CSharpSerial.StartStreamingWhenReady | Assets/eteeAPI/Scripts/01_SerialCommunication/CSharpSerial.cs:802-805 | enables streaming iff it is off and no offset is pending; afterwards, on an open stream, the latch is set |
| Serial.CSharpSerial.SendCalibratedGyroOffsetLeft | Assets/eteeAPI/Scripts/01_SerialCommunication/CSharpSerial.cs:517-536 | sends the left gyroscope upload |
| Serial.CSharpSerial.SendCalibratedGyroOffsetRight | Assets/eteeAPI/Scripts/01_SerialCommunication/CSharpSerial.cs:544-561 | sends the right gyroscope upload |
| Serial.CSharpSerial.SendCalibratedMagOffset | Assets/eteeAPI/Scripts/01_SerialCommunication/CSharpSerial.cs:569-639 | sends the hand's magnetometer upload |
| Serial.CSharpSerial.ReadingQueues | Assets/eteeAPI/Scripts/01_SerialCommunication/CSharpSerial.cs:713-750 | each non-empty queue loses its oldest `Drained(n)` frames, which are handed to the device in order (right first), the hand marked heard; the link receives their commands |
| Serial.CSharpSerial.DrainRight | Assets/eteeAPI/Scripts/01_SerialCommunication/CSharpSerial.cs:717-731 | the right half of `ReadingQueues`, keeping the invariant |
| Serial.CSharpSerial.DequeueRight | Assets/eteeAPI/Scripts/01_SerialCommunication/CSharpSerial.cs:722-727 | the `for` loop handles the first `Drained(n)` frames in order |
| Serial.CSharpSerial.DrainLeft | Assets/eteeAPI/Scripts/01_SerialCommunication/CSharpSerial.cs:734-749 | the left half of `ReadingQueues`, keeping the invariant |
| Serial.CSharpSerial.DequeueLeft | Assets/eteeAPI/Scripts/01_SerialCommunication/CSharpSerial.cs:740-745 | the `for` loop handles the first `Drained(n)` frames in order |
| Serial.CSharpSerial.HandleFrame | Assets/eteeAPI/Scripts/01_SerialCommunication/CSharpSerial.cs:724-726 | the device decodes the frame and the link receives the commands the decoding asks for |
| Serial.CSharpSerial.UpdateDisconnectedCounters | Assets/eteeAPI/Scripts/01_SerialCommunication/CSharpSerial.cs:214-218 | both counters go up by one |
| Serial.CSharpSerial.CheckIfConnected | Assets/eteeAPI/Scripts/01_SerialCommunication/CSharpSerial.cs:165-176 | each hand becomes `Check` of its presence |
| Serial.CSharpSerial.CheckVibrationQueues | Assets/eteeAPI/Scripts/01_SerialCommunication/CSharpSerial.cs:466-478 | each queue becomes `Released` of itself |
| Serial.CSharpSerial.DequeueVibrationCommand | Assets/eteeAPI/Scripts/01_SerialCommunication/CSharpSerial.cs:438-461 | for `left` or `right`: an empty queue throws and changes nothing; otherwise the queue is emptied and its send flag cleared, then the head command is written, or the write throws on a closed stream; the other hand is untouched; any other name does nothing |
| Serial.CSharpSerial.RequestOffsets | Assets/eteeAPI/Scripts/01_SerialCommunication/CSharpSerial.cs:807-879 | the start-up loop as `GyroBringUp`; both requests end iff both devices are calibrated; a read exception ends the reader |
| Serial.CSharpSerial.EndBringUp | Assets/eteeAPI/Scripts/01_SerialCommunication/CSharpSerial.cs:872-877 | the request flags are cleared iff the loop ended calibrated |
| Serial.CSharpSerial.RequestGyroOffsets | Assets/eteeAPI/Scripts/01_SerialCommunication/CSharpSerial.cs:809-834 | the `while (requestGyr)` loop leaves both devices and the link as `GyroBringUp` says |
| Serial.CSharpSerial.GyroPass | Assets/eteeAPI/Scripts/01_SerialCommunication/CSharpSerial.cs:811-833 | one pass is one step of `GyroBringUp` |

## Left out

- Port discovery (`SetPort`, `CheckPorts`, the registry walk and the `/dev` listing), opening and closing the port, and `Flush`: operating-system I/O. The stream is an `open` flag and a log of written commands.
- `StartThread`, `StopThread`, `thread.Abort` and `Queue.Synchronized`: concurrency. The framer, the consumer and the start-up loop are modelled as sequential operations on one object; the interleaving of the reader thread with `ReadingQueues` is not.
- The outer `ThreadLoop` `while (looping)` loop, Unity's `Update`/`FixedUpdate` scheduling and `Init`: the model provides each step (`StartStreamingWhenReady`, `RequestOffsets`, `ReadAvailable`, `ReadingQueues`, the debounce) but not their interleaving.
- Coroutine waits (`WaitForSeconds`) and `Thread.Sleep`: timing. Within one upload the order of its commands is the program's. Across uploads and other sends it is not; see the `HandleFrame` and `ReadingQueues` lines below.
- `float.ToString` in the upload commands: offset commands carry their real values, and `Commands.WireText` takes the rendering as a parameter.
- `float.Parse` of reply tokens: a parameter `parse` that may reject a token, which models the exception.
- Floating point: scale factors, sums and means are reals, with no rounding.
- `EstimateIMUOrientation` and the `quaternions`, `roll`, `pitch`, `yaw` fields: they depend on the Madgwick filter library, which is not part of this model. `ResetValues` therefore does not reset `quaternions` here.
- The magnetometer `while (requestMag)` start-up loop: dead code, since `requestMag` is a local constant `false`.
- The serial-side copies `gyroLeftOffset`, `gyroRightOffset`, `magLeftOffset` and `magRightOffset`: written, never read by the core.
- `EnableHaptics`, `DisableHaptics`, `SendVibrationsCommands` and the start, cancel and reset-orientation calibration commands: each is a single `SendCommandToDevice` of a constant, covered by `Serial.CSharpSerial.SendCommandToDevice`.
- `UploadMagValues`: one `SendCalibratedMagOffset` call, covered by `Serial.CSharpSerial.SendCalibratedMagOffset`.
- `IsDongleConnected`, `IsDeviceConnected` and the getters of eteeAPI.cs: field reads.
- `CSharpSerial.IsBitSet` (CSharpSerial.cs:391-394) is the same function as the device's; both are `Wire.IsBitSet`.
- HandController.cs and GestureUI.cs are not part of this model.
- Serial.CSharpSerial.HandleFrame: the upload coroutines started by a finished gyroscope calibration are modelled as sending all their commands at the call, right after its `BP+AS`. In the program each upload waits 0.3 s (left) or 0.5 s (right) before its offset, and the left one 0.9 s more before `BP+AG`. So when both hands finish in the same `ReadingQueues` call, the program writes both `BP+AS` first and then interleaves the uploads by time, while the model writes one hand's whole upload before the other's.
- Serial.CSharpSerial.ReadingQueues: for the same reason, a command written after it returns (`StartStreamingWhenReady`, a vibration command, a start-up `BP+gf`) follows the uploads in the model, but may precede them in the program. Only the order within one upload after its `BP+AS` is the program's.
- Serial.CSharpSerial.UpdateDisconnectedCounters: counters are unbounded integers, so the 32-bit wrap after 2^31 ticks without a frame is not modelled.
- Device.EteeDevice.CalibrateGyro: `samplesTaken` is unbounded and never overflows, unlike the source's `int`.
- Serial.CSharpSerial.DequeueVibrationCommand: the exceptions of `Queue.Dequeue` on an empty queue and of `WriteLine` on a closed stream are modelled as a `false` result; their propagation to the caller is not.
- Serial.CSharpSerial.ReadAvailable: the source re-tests `BytesToRead` and the request flags before every byte; the flags cannot change inside the loop, so the model tests them once, and the bytes available are given as a sequence.
- Serial.CSharpSerial.RequestOffsets: `ReadLine` blocking forever when no line comes is the outcome `Starved` after the given lines run out.
