/** The offset calibration of `CalibrateGyro` and `CalibrateMag`: once
    triggered (`gyroCalibrationDone` set from outside), each call adds one
    sample to a running sum until 700 samples are in; the next call divides
    the sum by the sample count, marks the sensor calibrated, clears the
    trigger and reports that the offset is to be uploaded. Starting while
    already calibrated first resets the sum and the count. */
module Calibration {
  import opened Vectors

  /** `gyroCalibratingSamples` and `magCalibratingSamples`. */
  const CalibratingSamples := 700

  /** The accumulator fields: the trigger `gyroCalibrationDone`, the
      sensor's calibrated flag, the running sum (kept in the offset field
      itself) and `samplesTaken`. */
  datatype Accumulator = Accumulator(done: bool, calibrated: bool, sum: Vec3, samples: nat)

  /** The accumulator after a call, and whether the call finished the
      calibration (and so sends the upload). */
  datatype CalStep = CalStep(acc: Accumulator, finished: bool)

  /** The accumulator just after a reset. */
  const Fresh := Accumulator(true, false, Zero, 0)

  /** One call, given the `enable` flag and the current sensor reading. */
  function Calibrate(a: Accumulator, enable: bool, sample: Vec3): CalStep
  {
    if !a.done || !enable then CalStep(a, false)
    else
      var r := if a.calibrated then Accumulator(a.done, false, Zero, 0) else a;
      if r.samples >= CalibratingSamples then
        CalStep(Accumulator(false, true, Div(r.sum, r.samples), r.samples), true)
      else
        CalStep(r.(sum := Add(r.sum, sample), samples := r.samples + 1), false)
  }

  /** The calibration fed one sample per call with `enable` set, the last
      sample last. */
  function Feed(a: Accumulator, xs: seq<Vec3>): Accumulator
  {
    if xs == [] then a
    else Calibrate(Feed(a, xs[..|xs| - 1]), true, xs[|xs| - 1]).acc
  }

  /** One call: nothing changes unless the trigger and `enable` are both
      set; a call finishes exactly when the (possibly reset) count has
      reached 700, and then the offset is the sum over the count, the
      sensor is calibrated and the trigger is cleared; any other triggered
      call adds the sample and counts it. */
  lemma CalibrateSpec(a: Accumulator, enable: bool, sample: Vec3)
    ensures !a.done || !enable ==> Calibrate(a, enable, sample) == CalStep(a, false)
    ensures Calibrate(a, enable, sample).finished
        <==> a.done && enable && !a.calibrated && a.samples >= CalibratingSamples
    ensures var s := Calibrate(a, enable, sample);
      s.finished ==> s.acc == Accumulator(false, true, Div(a.sum, a.samples), a.samples)
    ensures var s := Calibrate(a, enable, sample);
      a.done && enable && !s.finished ==>
        && s.acc.done && !s.acc.calibrated
        && s.acc.samples == (if a.calibrated then 1 else a.samples + 1)
        && s.acc.sum == (if a.calibrated then sample else Add(a.sum, sample))
  {
  }

  /** Below the limit, every sample is added to the sum and counted. */
  lemma {:induction false} AccumulateBelowLimit(a: Accumulator, xs: seq<Vec3>)
    requires a.done && !a.calibrated
    requires a.samples + |xs| <= CalibratingSamples
    ensures Feed(a, xs) == a.(sum := Add(a.sum, SumOf(xs)), samples := a.samples + |xs|)
  {
    if xs != [] {
      AccumulateBelowLimit(a, xs[..|xs| - 1]);
    }
  }

  /** Triggering a calibrated sensor starts from an empty sum: after the
      first sample it is as if the accumulator had been fresh. */
  lemma {:induction false} FeedFromReset(a: Accumulator, xs: seq<Vec3>)
    requires a.done && a.calibrated
    requires |xs| > 0
    ensures Feed(a, xs) == Feed(Fresh, xs)
  {
    if |xs| > 1 {
      FeedFromReset(a, xs[..|xs| - 1]);
    } else {
      assert xs[..0] == [];
    }
  }

  /** The calibration round: from a trigger on a calibrated sensor, or on
      one that has never sampled, 700 samples followed by one more call
      produce exactly their mean as the offset, mark the sensor calibrated
      and clear the trigger; that last call's own reading is not used. */
  lemma {:induction false} CalibrationYieldsMean(a: Accumulator, xs: seq<Vec3>, y: Vec3)
    requires a.done
    requires a.calibrated || (a.samples == 0 && a.sum == Zero)
    requires |xs| == CalibratingSamples
    ensures Calibrate(Feed(a, xs), true, y) == CalStep(Accumulator(false, true, Mean(xs), CalibratingSamples), true)
  {
    if a.calibrated {
      FeedFromReset(a, xs);
      AccumulateBelowLimit(Fresh, xs);
    } else {
      AccumulateBelowLimit(a, xs);
    }
    assert Add(Zero, SumOf(xs)) == SumOf(xs);
  }

  /** No call of the round finishes early: every one of the first 700
      calls only accumulates. */
  lemma {:induction false} NoEarlyFinish(a: Accumulator, xs: seq<Vec3>, k: nat)
    requires a.done
    requires a.calibrated || a.samples == 0
    requires k < |xs| <= CalibratingSamples
    ensures !Calibrate(Feed(a, xs[..k]), true, xs[k]).finished
  {
    if k == 0 {
      assert xs[..0] == [];
    } else if a.calibrated {
      FeedFromReset(a, xs[..k]);
      AccumulateBelowLimit(Fresh, xs[..k]);
    } else {
      AccumulateBelowLimit(a, xs[..k]);
    }
  }

  /** After the round the trigger is clear, so further calls change
      nothing until the trigger is set again. */
  lemma {:induction false} IdleAfterFinish(a: Accumulator, xs: seq<Vec3>, y: Vec3, later: seq<Vec3>)
    requires a.done
    requires a.calibrated || (a.samples == 0 && a.sum == Zero)
    requires |xs| == CalibratingSamples
    ensures var b := Calibrate(Feed(a, xs), true, y).acc;
      Feed(b, later) == b
  {
    CalibrationYieldsMean(a, xs, y);
    var b := Calibrate(Feed(a, xs), true, y).acc;
    IdleStays(b, later);
  }

  lemma {:induction false} IdleStays(b: Accumulator, later: seq<Vec3>)
    requires !b.done
    ensures Feed(b, later) == b
  {
    if later != [] {
      IdleStays(b, later[..|later| - 1]);
    }
  }
}
