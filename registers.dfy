/** Raw register layout of the sensor tag: bytes, little-endian 16- and 24-bit
    words, signed 16-bit words as `struct.unpack('h', ...)` reads them on a
    little-endian host, and the mantissa/exponent bit fields of the optical
    register. */
module Registers {

  /** One character of a characteristic value, through `ord`. */
  newtype byte = x: int | 0 <= x < 0x100

  /** `(hi << 8) + lo` on non-negative Python integers. */
  function Word16(lo: byte, hi: byte): (w: nat)
    ensures w < 0x1_0000
    ensures w % 0x100 == lo as int && w / 0x100 == hi as int
  {
    hi as int * 0x100 + lo as int
  }

  /** `(b2 << 16) + (b1 << 8) + b0` on non-negative Python integers. */
  function Word24(b0: byte, b1: byte, b2: byte): (w: nat)
    ensures w < 0x100_0000
    ensures w % 0x100 == b0 as int
    ensures (w / 0x100) % 0x100 == b1 as int
    ensures w / 0x1_0000 == b2 as int
  {
    var w := b2 as int * 0x1_0000 + b1 as int * 0x100 + b0 as int;
    assert w / 0x100 == b2 as int * 0x100 + b1 as int;
    w
  }

  /** `struct.unpack('h', lo + hi)[0]` on a little-endian host: the two
      characters are the low and the high byte of a two's-complement word,
      whose sign is the top bit of the high byte. */
  function Int16(lo: byte, hi: byte): (v: int)
    ensures -0x8000 <= v < 0x8000
    ensures (v < 0) == (hi >= 0x80)
    ensures (Word16(lo, hi) - v) % 0x1_0000 == 0
  {
    Word16(lo, hi) - (if hi >= 0x80 then 0x1_0000 else 0)
  }

  /** The two bytes (low first) that hold the signed word `v`: the inverse of
      Int16, as a sensor would write a sample it measured. */
  function Int16Bytes(v: int): (b: (byte, byte))
    requires -0x8000 <= v < 0x8000
  {
    var u := if v < 0 then v + 0x1_0000 else v;
    ((u % 0x100) as byte, (u / 0x100) as byte)
  }

  /** `a & b` on non-negative Python integers, bit by bit from the lowest. */
  function BitAnd(a: nat, b: nat): (r: nat)
    ensures r <= a && r <= b
  {
    if a == 0 || b == 0 then 0
    else 2 * BitAnd(a / 2, b / 2) + (if a % 2 == 1 && b % 2 == 1 then 1 else 0)
  }

  /** `pow(2, e)` for a non-negative integer exponent. */
  function Pow2(e: nat): (p: nat)
    ensures p >= 1
  {
    if e == 0 then 1 else 2 * Pow2(e - 1)
  }

  /** Powers of two grow with the exponent. */
  lemma {:induction false} Pow2Monotone(k: nat, n: nat)
    requires k <= n
    ensures Pow2(k) <= Pow2(n)
  {
    if k < n {
      Pow2Monotone(k, n - 1);
    }
  }

  /** `a >> n` on a non-negative Python integer: n times the lowest bit dropped
      (LowBitsSplit below shows it is the quotient by 2^n). */
  function ShiftRight(a: nat, n: nat): (r: nat)
    ensures r <= a
  {
    if n == 0 then a else ShiftRight(a / 2, n - 1)
  }

  /** The 12-bit mantissa of the optical register: `raw & 0b0000111111111111`. */
  function LuxMantissa(raw: nat): (m: nat)
    ensures m < 0x1000
  {
    BitAnd(raw, 0x0FFF)
  }

  /** The 4-bit exponent of the optical register: `(raw & 0b1111000000000000) >> 12`. */
  function LuxExponent(raw: nat): (e: nat)
    ensures e < 0x10
  {
    var field := BitAnd(raw, 0xF000);
    LowBitsSplit(field, 12);
    assert Pow2(12) == 0x1000;
    ShiftRight(field, 12)
  }

  /** Every 16-bit signed word read as Int16 is the unsigned word when that is
      below 0x8000 and the unsigned word less 0x10000 otherwise. */
  lemma Int16Cases(lo: byte, hi: byte)
    ensures Int16(lo, hi) == if Word16(lo, hi) < 0x8000 then Word16(lo, hi) else Word16(lo, hi) - 0x1_0000
  {
  }

  /** Reading back the bytes of a signed value gives the value. */
  lemma Int16OfBytes(v: int)
    requires -0x8000 <= v < 0x8000
    ensures Int16(Int16Bytes(v).0, Int16Bytes(v).1) == v
  {
    var u := if v < 0 then v + 0x1_0000 else v;
    var (lo, hi) := Int16Bytes(v);
    assert u == hi as int * 0x100 + lo as int;
    assert (hi >= 0x80) == (u >= 0x8000);
  }

  /** Writing the value read from two bytes gives back those bytes. */
  lemma BytesOfInt16(lo: byte, hi: byte)
    ensures Int16Bytes(Int16(lo, hi)) == (lo, hi)
  {
    var v := Int16(lo, hi);
    var u := if v < 0 then v + 0x1_0000 else v;
    assert u == Word16(lo, hi);
  }

  /** Int16 is injective: two byte pairs give the same signed value exactly
      when they are the same pair. */
  lemma Int16Injective(lo: byte, hi: byte, lo': byte, hi': byte)
    ensures Int16(lo, hi) == Int16(lo', hi') <==> lo == lo' && hi == hi'
  {
    BytesOfInt16(lo, hi);
    BytesOfInt16(lo', hi');
  }

  /** The k lowest bits of a, as a number: `a & (2^k - 1)` by its meaning. */
  function LowBits(a: nat, k: nat): nat
  {
    if k == 0 then 0 else 2 * LowBits(a / 2, k - 1) + a % 2
  }

  /** The mask with bits 0 .. n-1 set. */
  function Ones(n: nat): nat
  {
    if n == 0 then 0 else 2 * Ones(n - 1) + 1
  }

  /** The mask with bits k .. n-1 set. */
  function RangeOnes(n: nat, k: nat): nat
    requires k <= n
  {
    if k == 0 then Ones(n) else 2 * RangeOnes(n - 1, k - 1)
  }

  /** Every number is its k low bits plus 2^k times itself shifted right by k,
      and the k low bits are below 2^k. */
  lemma {:induction false} LowBitsSplit(a: nat, k: nat)
    ensures a == LowBits(a, k) + Pow2(k) * ShiftRight(a, k)
    ensures LowBits(a, k) < Pow2(k)
  {
    if k > 0 {
      LowBitsSplit(a / 2, k - 1);
      var l, p, s := LowBits(a / 2, k - 1), Pow2(k - 1), ShiftRight(a / 2, k - 1);
      assert LowBits(a, k) == 2 * l + a % 2;
      assert Pow2(k) == 2 * p;
      assert ShiftRight(a, k) == s;
      DoubleStep(a, l, p, s);
    }
  }

  /** One step of LowBitsSplit, with the powers of two named. */
  lemma DoubleStep(a: nat, l: nat, p: nat, s: nat)
    requires a / 2 == l + p * s && l < p
    ensures a == (2 * l + a % 2) + (2 * p) * s && 2 * l + a % 2 < 2 * p
  {
    assert (2 * p) * s == 2 * (p * s);
  }

  /** Masking with the n low bits keeps the n low bits. */
  lemma {:induction false} BitAndOnes(a: nat, n: nat)
    ensures BitAnd(a, Ones(n)) == LowBits(a, n)
  {
    if n > 0 {
      BitAndOnes(a / 2, n - 1);
      if a == 0 {
        assert LowBits(0, n) == 2 * LowBits(0, n - 1);
      }
    }
  }

  /** Masking with bits k .. n-1 keeps the n low bits less the k low bits. */
  lemma {:induction false} BitAndRangeOnes(a: nat, n: nat, k: nat)
    requires k <= n
    ensures BitAnd(a, RangeOnes(n, k)) == LowBits(a, n) - LowBits(a, k)
  {
    if k == 0 {
      BitAndOnes(a, n);
    } else {
      BitAndRangeOnes(a / 2, n - 1, k - 1);
      if a == 0 {
        assert LowBits(0, n) == 2 * LowBits(0, n - 1);
        assert LowBits(0, k) == 2 * LowBits(0, k - 1);
      } else if RangeOnes(n, k) == 0 {
        assert RangeOnes(n - 1, k - 1) == 0;
        assert BitAnd(a / 2, 0) == 0;
      }
    }
  }

  /** Shifting right by n undoes multiplying by 2^n. */
  lemma {:induction false} ShiftRightMul(q: nat, n: nat)
    ensures ShiftRight(Pow2(n) * q, n) == q
  {
    if n > 0 {
      var p := Pow2(n - 1);
      assert Pow2(n) * q == 2 * (p * q);
      assert (Pow2(n) * q) / 2 == p * q;
      ShiftRightMul(q, n - 1);
    }
  }

  /** The two optical masks as bit ranges, and the powers of two beside them. */
  lemma LuxMasks()
    ensures Pow2(12) == 0x1000 && Pow2(16) == 0x1_0000
    ensures Ones(12) == 0x0FFF && RangeOnes(16, 12) == 0xF000
  {
  }

  /** The optical register splits into a 12-bit mantissa and a 4-bit exponent
      and is recovered from the two: mantissa + 4096 * exponent. */
  lemma LuxFields(raw: nat)
    requires raw < 0x1_0000
    ensures LuxMantissa(raw) < 0x1000 && LuxExponent(raw) < 0x10
    ensures raw == LuxMantissa(raw) + 0x1000 * LuxExponent(raw)
  {
    LuxMasks();
    BitAndOnes(raw, 12);
    BitAndRangeOnes(raw, 16, 12);
    LowBitsSplit(raw, 12);
    LowBitsSplit(raw, 16);
    assert LowBits(raw, 16) == raw;
    var q := ShiftRight(raw, 12);
    assert BitAnd(raw, 0xF000) == Pow2(12) * q;
    ShiftRightMul(q, 12);
  }
}
