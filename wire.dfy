/** Bit- and byte-level primitives of the telemetry wire format: the bit test
    and bit-field extraction every packet field is decoded with, and the
    signed 16-bit assembly of IMU axes. Integers follow C# semantics: a shift
    count on an `int` is masked to its low five bits, and a cast to `short`
    keeps the low 16 bits in two's complement. */
module Wire {

  /** An unsigned 8-bit value, as read from the serial stream. */
  type Byte = b: int | 0 <= b < 256

  function Pow2(k: nat): (r: nat)
    ensures r >= 1
  {
    if k == 0 then 1 else 2 * Pow2(k - 1)
  }

  /** C# uses only the low five bits of a shift count applied to an `int`;
      for negative counts that is the Euclidean remainder. */
  function ShiftCount(n: int): (r: nat)
    ensures r < 32
  {
    n % 32
  }

  /** Bit `k` of `n`, bit 0 being the least significant. */
  function Bit(n: nat, k: nat): bool
  {
    if k == 0 then n % 2 == 1 else Bit(n / 2, k - 1)
  }

  /** `n >> k` for a non-negative `n`. */
  function Shr(n: nat, k: nat): nat
  {
    if k == 0 then n else Shr(n / 2, k - 1)
  }

  /** The low `k` bits of `n`, `n & ((1 << k) - 1)`. */
  function LowBits(n: nat, k: nat): nat
  {
    if k == 0 then 0 else n % 2 + 2 * LowBits(n / 2, k - 1)
  }

  /** `(b & (1 << pos)) != 0`. For a count of 31, `1 << 31` is the sign bit,
      which no byte has, and neither has it bit 31. */
  function IsBitSet(b: Byte, pos: int): bool
  {
    Bit(b, ShiftCount(pos))
  }

  /** `((1 << bitQuant) - 1) & (b >> startBit)`: `bitQuant` bits of `b`
      starting at bit `startBit`, least significant bit first. The mask is
      `2^k - 1` for `k = bitQuant & 31`, also for `k = 31` where the C# `int`
      arithmetic wraps. */
  function SelectBits(b: Byte, bitQuant: int, startBit: int): (r: nat)
    ensures r < Pow2(ShiftCount(bitQuant))
    ensures r <= b
  {
    var shifted := Shr(b, ShiftCount(startBit));
    LowBitsBound(shifted, ShiftCount(bitQuant));
    ShrNoLarger(b, ShiftCount(startBit));
    LowBits(shifted, ShiftCount(bitQuant))
  }

  lemma {:induction false} ShrNoLarger(n: nat, k: nat)
    ensures Shr(n, k) <= n
  {
    if k > 0 {
      ShrNoLarger(n / 2, k - 1);
    }
  }

  /** The low `k` bits are below `2^k` and no larger than the number. */
  lemma {:induction false} LowBitsBound(n: nat, k: nat)
    ensures LowBits(n, k) < Pow2(k)
    ensures LowBits(n, k) <= n
  {
    if k > 0 {
      LowBitsBound(n / 2, k - 1);
    }
  }

  /** A number below `2^k` is its own low `k` bits. */
  lemma {:induction false} LowBitsOfSmall(n: nat, k: nat)
    requires n < Pow2(k)
    ensures LowBits(n, k) == n
  {
    if k > 0 {
      LowBitsOfSmall(n / 2, k - 1);
    }
  }

  /** The quotient is unique: `a * q + t` with `0 <= t < a` divides to `q`. */
  lemma DivUnique(x: int, a: int, q: int, t: int)
    requires a >= 1 && 0 <= t < a && x == a * q + t
    ensures x / a == q
  {
    var d := x / a - q;
    assert a * d == t - x % a;
    if d >= 1 {
      assert false;
    } else if d <= -1 {
      assert false;
    }
  }

  lemma HalveTwice(n: nat, a: nat)
    requires a >= 1
    ensures (n / 2) / a == n / (2 * a)
  {
    var q, r := n / (2 * a), n % (2 * a);
    var m := a * q;
    assert n == 2 * m + r && 0 <= r < 2 * a;
    assert n / 2 == m + r / 2;
    DivUnique(n / 2, a, q, r / 2);
  }

  /** The shift is division by a power of two: `b >> k == b / 2^k`. */
  lemma {:induction false} ShrIsDivision(n: nat, k: nat)
    ensures Shr(n, k) == n / Pow2(k)
  {
    if k > 0 {
      ShrIsDivision(n / 2, k - 1);
      HalveTwice(n, Pow2(k - 1));
    }
  }

  /** The bit test is the arithmetic one: bit `k` of `n` is the parity of
      `n / 2^k`. */
  lemma {:induction false} BitIsParity(n: nat, k: nat)
    ensures Bit(n, k) == ((n / Pow2(k)) % 2 == 1)
  {
    if k > 0 {
      BitIsParity(n / 2, k - 1);
      HalveTwice(n, Pow2(k - 1));
    }
  }

  /** The seven-bit analog value stored above the flag bit of a byte. */
  lemma {:induction false} SelectSevenIsShift(b: Byte)
    ensures SelectBits(b, 7, 1) == b / 2
    ensures 0 <= SelectBits(b, 7, 1) <= 127
  {
    assert ShiftCount(1) == 1 && ShiftCount(7) == 7;
    assert Shr(b, 1) == b / 2;
    assert Pow2(7) == 128;
    LowBitsOfSmall(b / 2, 7);
    assert SelectBits(b, 7, 1) == LowBits(b / 2, 7);
  }

  /** The touch (or button) bit and the seven-bit value partition a byte:
      together they give back the byte. */
  lemma {:induction false} FlagAndValuePartition(b: Byte)
    ensures b == 2 * SelectBits(b, 7, 1) + (if IsBitSet(b, 0) then 1 else 0)
  {
    SelectSevenIsShift(b);
  }

  /** Two bytes with the same flag bit and seven-bit value are equal. */
  lemma {:induction false} FlagAndValueDetermineByte(a: Byte, b: Byte)
    requires IsBitSet(a, 0) == IsBitSet(b, 0)
    requires SelectBits(a, 7, 1) == SelectBits(b, 7, 1)
    ensures a == b
  {
    FlagAndValuePartition(a);
    FlagAndValuePartition(b);
  }

  /** The unchecked C# conversion of an integer to `short`. */
  function ToInt16(v: int): (r: int)
    ensures -32768 <= r <= 32767
  {
    (v + 32768) % 65536 - 32768
  }

  /** The conversion keeps the value modulo 2^16, and so leaves every value
      already in the `short` range as it is. */
  lemma ToInt16Wraps(v: int)
    ensures (v - ToInt16(v)) % 65536 == 0
    ensures -32768 <= v <= 32767 ==> ToInt16(v) == v
  {
  }

  /** `(short)((hi << 8) + lo)` with both bytes promoted to unsigned. */
  function Int16Of(hi: Byte, lo: Byte): (r: int)
    ensures -32768 <= r <= 32767
  {
    ToInt16(hi * 256 + lo)
  }

  /** The low byte of a 16-bit two's-complement value. */
  function LowByte(v: int): Byte
  {
    v % 256
  }

  /** The high byte of a 16-bit two's-complement value. */
  function HighByte(v: int): Byte
  {
    (v % 65536) / 256
  }

  /** Assembling the two bytes of a 16-bit value gives the value back. */
  lemma {:induction false} Int16RoundTrip(v: int)
    requires -32768 <= v <= 32767
    ensures Int16Of(HighByte(v), LowByte(v)) == v
  {
    var u := v % 65536;
    assert HighByte(v) * 256 + LowByte(v) == u by {
      assert u % 256 == v % 256;
    }
    if v >= 0 {
      assert u == v;
    } else {
      assert u == v + 65536;
    }
  }

  /** The `short` conversion of an unsigned 16-bit value is congruent to it. */
  lemma ToInt16Residue(u: int)
    requires 0 <= u < 65536
    ensures ToInt16(u) % 65536 == u
  {
    var r := ToInt16(u);
    if u < 32768 {
      DivUnique(u + 32768, 65536, 0, u + 32768);
      assert r == u;
    } else {
      DivUnique(u + 32768, 65536, 1, u - 32768);
      assert r == u - 65536;
      DivUnique(r, 65536, -1, u);
    }
  }

  /** The bytes of a value are those of anything congruent to it mod 2^16. */
  lemma BytesOfResidue(r: int, u: int)
    requires 0 <= u < 65536 && r % 65536 == u
    ensures HighByte(r) == u / 256 && LowByte(r) == u % 256
  {
    var k := r / 65536;
    assert r == 65536 * k + u;
    DivUnique(r, 256, 256 * k + u / 256, u % 256);
  }

  /** The two bytes are determined by the value they assemble to: the
      assembly is a bijection between byte pairs and 16-bit values. */
  lemma {:induction false} Int16Bytes(hi: Byte, lo: Byte)
    ensures HighByte(Int16Of(hi, lo)) == hi
    ensures LowByte(Int16Of(hi, lo)) == lo
  {
    var u := hi * 256 + lo;
    DivUnique(u, 256, hi, lo);
    ToInt16Residue(u);
    BytesOfResidue(Int16Of(hi, lo), u);
  }
}
