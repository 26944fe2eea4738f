/**
 * The C and Qt integer conversions that the device adapters apply to the
 * bytes of a `QByteArray`.
 *
 * A frame is a sequence of octets. `QByteArray::at` hands each octet back as
 * a `char`, which is signed on the platforms the adapters are built for, so
 * every read has to say whether it masks the octet (`(uint8_t)`) or lets the
 * sign extend into the wider type. The bit patterns are built with
 * bit-vectors, exactly as the C expressions build them, and the lemmas here
 * tie those patterns to plain integer values.
 */
module CTypes {

  /** One octet of a frame, as transmitted. */
  type byte = bv8

  type Bytes = seq<byte>

  /** The range of C's `int8_t`. */
  type int8 = x: int | -128 <= x < 128

  /** The value of a `char` holding octet `b`: two's complement, -128..127. */
  function CharValue(b: byte): (c: int)
    ensures -128 <= c < 128
    ensures c % 256 == b as int % 256
    ensures c >= 0 <==> b < 0x80
  {
    if b < 0x80 then b as int else b as int - 256
  }

  /** `(uint16_t)c` for a `char c`: the sign fills the high octet. */
  function CharToU16(b: byte): bv16
  {
    if b < 0x80 then b as bv16 else (b as bv16) | 0xFF00
  }

  /** The value of `(uint16_t)c` for a `char c`, for arithmetic on it. */
  function CharAsU16(b: byte): nat
  {
    Widen16(b as int)
  }

  /** `CharAsU16` on an octet's value: values from 0x80 up are negative `char`s. */
  function Widen16(v: nat): nat
  {
    if v < 0x80 then v else v + 0xFF00
  }

  lemma CharToU16Value(b: byte)
    ensures CharToU16(b) as int == CharAsU16(b)
  {
  }

  /**
   * `(uint32_t)c` for a `char c`; also the bit pattern of `(int)c`, the
   * integer promotion that `c << 8` and `c | x` apply first.
   */
  function CharToU32(b: byte): bv32
  {
    if b < 0x80 then b as bv32 else (b as bv32) | 0xFFFF_FF00
  }

  /** Assignment of an integer to a `uint8_t`: reduction modulo 256. */
  function ByteOf(n: int): byte
  {
    (n % 256) as bv8
  }

  lemma ByteOfValue(n: int)
    ensures ByteOf(n) as int == n % 256
  {
    OctetRoundTrip(n % 256);
  }

  /** An octet's value, and its sign bit read as a comparison. */
  lemma OctetValue(b: byte)
    ensures 0 <= b as int < 0x100
    ensures b < 0x80 <==> b as int < 0x80
  {
  }

  /** A value below 256 is its own octet. */
  lemma ByteOfSmall(n: int)
    requires 0 <= n < 256
    ensures ByteOf(n) as int == n
  {
    ModSmall(n);
    OctetRoundTrip(n);
  }

  lemma ModSmall(x: int)
    requires 0 <= x < 256
    ensures x % 256 == x
  {
  }

  /** A value below 256 survives the conversion to an octet and back. */
  lemma OctetRoundTrip(m: int)
    requires 0 <= m < 256
    ensures (m as bv8) as int == m
  {
    var b := OctetOf(m);
    assert m as bv8 == b;
  }

  /** The octet whose value is `m`, built by counting up from zero. */
  lemma {:induction false} OctetOf(m: int) returns (b: bv8)
    requires 0 <= m < 256
    ensures b as int == m
  {
    if m == 0 {
      b := 0;
    } else {
      var c := OctetOf(m - 1);
      b := c + 1;
    }
  }

  /** Unsigned little-endian value of two octets. */
  function LE16(lo: byte, hi: byte): nat
  {
    lo as int + 256 * hi as int
  }

  /** Unsigned little-endian value of three octets. */
  function LE24(b0: byte, b1: byte, b2: byte): nat
  {
    b0 as int + 256 * b1 as int + 65536 * b2 as int
  }

  /** Unsigned big-endian value of two octets. */
  function BE16(hi: byte, lo: byte): nat
  {
    256 * hi as int + lo as int
  }

  /** A little-endian `sint16` field: two's complement over 16 bits. */
  function SignedLE16(lo: byte, hi: byte): int
  {
    var u := LE16(lo, hi);
    if u >= 0x8000 then u - 0x1_0000 else u
  }

  /**
   * Storing `x & 0xFF` and `x >> 8` into two `uint8_t` octets keeps the low
   * 16 bits of a non-negative `x`, little-endian.
   */
  lemma SplitLE16(x: int)
    requires 0 <= x
    ensures LE16(ByteOf(x % 0x100), ByteOf(x / 0x100)) == x % 0x1_0000
  {
    var r := x % 0x1_0000;
    LowOctets(x);
    ByteOfValue(x % 0x100);
    ByteOfValue(x / 0x100);
    assert ByteOf(x % 0x100) as int == r % 0x100;
    assert ByteOf(x / 0x100) as int == r / 0x100;
    assert r % 0x100 + 0x100 * (r / 0x100) == r;
  }

  /** The two low octets of `x` are those of `x % 0x1_0000`. */
  lemma LowOctets(x: int)
    requires 0 <= x
    ensures (x / 0x100) % 0x100 == (x % 0x1_0000) / 0x100
    ensures x % 0x100 == (x % 0x1_0000) % 0x100
  {
    var q := x / 0x1_0000;
    var rest := x % 0x1_0000;
    assert x == 0x1_0000 * q + rest;
    assert x / 0x100 == 0x100 * q + rest / 0x100;
  }

  /** The 32-bit pattern whose octets are `b0` (lowest) to `b3`. */
  function Compose32(b0: byte, b1: byte, b2: byte, b3: byte): bv32
  {
    (b0 as bv32) | ((b1 as bv32) << 8) | ((b2 as bv32) << 16) | ((b3 as bv32) << 24)
  }

  lemma Compose16Value(b0: byte, b1: byte)
    ensures ((b0 as bv32) | ((b1 as bv32) << 8)) as int == LE16(b0, b1)
  {
  }

  lemma Compose24Step(x: bv32, b2: byte)
    requires x < 0x1_0000
    ensures (x | ((b2 as bv32) << 16)) as int == x as int + 65536 * b2 as int
  {
  }

  lemma Compose32Step(x: bv32, b3: byte)
    requires x < 0x100_0000
    ensures (x | ((b3 as bv32) << 24)) as int == x as int + 0x100_0000 * b3 as int
  {
  }

  /** The integer value of a composed pattern is the octets' little-endian value. */
  lemma {:induction false} Compose32Value(b0: byte, b1: byte, b2: byte, b3: byte)
    ensures Compose32(b0, b1, b2, b3) as int == LE24(b0, b1, b2) + 0x100_0000 * b3 as int
  {
    var x16 := (b0 as bv32) | ((b1 as bv32) << 8);
    Compose16Value(b0, b1);
    var x24 := x16 | ((b2 as bv32) << 16);
    Compose24Step(x16, b2);
    assert x24 < 0x100_0000;
    Compose32Step(x24, b3);
  }
}
