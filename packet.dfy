/** The fixed byte layout of a telemetry packet: where the hand bit and the
    IMU axes are, and how an axis is assembled from its two bytes. The
    accelerometer and the gyroscope send the low byte first; the
    magnetometer sends the high byte first. */
module Packet {
  import opened Wire
  import opened Vectors

  /** The decoder reads offsets 0 to 41. */
  const MinLength := 42

  const HandByte := 11
  const HandBit := 3

  const AccelOffset := 23
  const MagOffset := 29
  const GyroOffset := 35

  /** `!IsBitSet(serialBuffer[11], 3)`: bit 3 of byte 11 clear means left. */
  predicate IsLeftFrame(buf: seq<Byte>)
    requires |buf| > HandByte
  {
    !IsBitSet(buf[HandByte], HandBit)
  }

  /** Raw accelerometer axis `axis`: `(short)((d[2a+1] << 8) + d[2a])`. */
  function AccelRaw(buf: seq<Byte>, axis: nat): int
    requires |buf| >= MinLength && axis < 3
  {
    Int16Of(buf[AccelOffset + 2 * axis + 1], buf[AccelOffset + 2 * axis])
  }

  /** Raw gyroscope axis, low byte first like the accelerometer. */
  function GyroRaw(buf: seq<Byte>, axis: nat): int
    requires |buf| >= MinLength && axis < 3
  {
    Int16Of(buf[GyroOffset + 2 * axis + 1], buf[GyroOffset + 2 * axis])
  }

  /** Raw magnetometer axis: `(short)((d[2a] << 8) + d[2a+1])`, high byte first. */
  function MagRaw(buf: seq<Byte>, axis: nat): int
    requires |buf| >= MinLength && axis < 3
  {
    Int16Of(buf[MagOffset + 2 * axis], buf[MagOffset + 2 * axis + 1])
  }

  /** The unit conversions of the source, with its literals as reals: 4 g
      over 32768 counts; 2000 degrees per second over 32768 counts, converted
      with Unity's single-precision `Deg2Rad` (0.0174532924); 0.38, 0.38 and
      0.61 microtesla per count. */
  function AccelUnits(raw: int): real
  {
    raw as real * 4.0 / 32768.0
  }

  function GyroUnits(raw: int): real
  {
    raw as real * 0.0174532924 * 2000.0 / 32768.0
  }

  function MagUnitsXY(raw: int): real
  {
    raw as real * 0.38
  }

  function MagUnitsZ(raw: int): real
  {
    raw as real * 0.61
  }

  function AccelVector(buf: seq<Byte>): Vec3
    requires |buf| >= MinLength
  {
    Vec3(AccelUnits(AccelRaw(buf, 0)), AccelUnits(AccelRaw(buf, 1)), AccelUnits(AccelRaw(buf, 2)))
  }

  /** The gyroscope reading before any offset is subtracted. */
  function GyroVector(buf: seq<Byte>): Vec3
    requires |buf| >= MinLength
  {
    Vec3(GyroUnits(GyroRaw(buf, 0)), GyroUnits(GyroRaw(buf, 1)), GyroUnits(GyroRaw(buf, 2)))
  }

  function MagVector(buf: seq<Byte>): Vec3
    requires |buf| >= MinLength
  {
    Vec3(MagUnitsXY(MagRaw(buf, 0)), MagUnitsXY(MagRaw(buf, 1)), MagUnitsZ(MagRaw(buf, 2)))
  }

  /** Every raw IMU axis is a signed 16-bit value. */
  lemma RawAxesInInt16Range(buf: seq<Byte>, axis: nat)
    requires |buf| >= MinLength && axis < 3
    ensures -32768 <= AccelRaw(buf, axis) <= 32767
    ensures -32768 <= GyroRaw(buf, axis) <= 32767
    ensures -32768 <= MagRaw(buf, axis) <= 32767
  {
  }

  /** A 16-bit value written low byte first at an accelerometer or gyroscope
      axis, and high byte first at a magnetometer axis, decodes to itself. */
  lemma {:induction false} AxisEncodingRoundTrip(buf: seq<Byte>, axis: nat, v: int)
    requires |buf| >= MinLength && axis < 3
    requires -32768 <= v <= 32767
    ensures buf[AccelOffset + 2 * axis] == LowByte(v) && buf[AccelOffset + 2 * axis + 1] == HighByte(v)
      ==> AccelRaw(buf, axis) == v
    ensures buf[GyroOffset + 2 * axis] == LowByte(v) && buf[GyroOffset + 2 * axis + 1] == HighByte(v)
      ==> GyroRaw(buf, axis) == v
    ensures buf[MagOffset + 2 * axis] == HighByte(v) && buf[MagOffset + 2 * axis + 1] == LowByte(v)
      ==> MagRaw(buf, axis) == v
  {
    Int16RoundTrip(v);
  }

  /** The byte-order asymmetry: the bytes 0x01, 0x00 read as 1 at an
      accelerometer axis and as 256 at a magnetometer axis. */
  lemma ByteOrderAsymmetry(buf: seq<Byte>)
    requires |buf| >= MinLength
    requires buf[AccelOffset] == 0x01 && buf[AccelOffset + 1] == 0x00
    requires buf[MagOffset] == 0x01 && buf[MagOffset + 1] == 0x00
    ensures AccelRaw(buf, 0) == 1
    ensures MagRaw(buf, 0) == 256
  {
  }

  /** Swapping the two bytes of an axis turns one byte order into the other:
      the same pair of bytes decodes to the same value only when both bytes
      are equal. */
  lemma {:induction false} ByteOrderMatters(hi: Byte, lo: Byte)
    ensures Int16Of(hi, lo) == Int16Of(lo, hi) <==> hi == lo
  {
    Int16Bytes(hi, lo);
    Int16Bytes(lo, hi);
  }
}
