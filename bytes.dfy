/** Integer helpers shared by the protocol modules: the C conversions to
    `uint8_t` and `int32_t`, `uint32_t` time differences, reading or
    writing one bit of a byte or word, and decimal digit characters. */
module Bytes {
  /** An integer held in a C `uint8_t`. */
  type u8 = x: int | 0 <= x < 256

  /** Conversion of an `int` to `uint8_t`: the value modulo 256. */
  function U8(x: int): (r: u8)
    ensures 0 <= x < 256 ==> r == x
    ensures (x - r) % 256 == 0
  {
    x % 256
  }

  /** An integer held in a C `uint16_t`. */
  type u16 = x: int | 0 <= x < 0x1_0000

  /** A `uint32_t`, such as a `millis()` reading. */
  type u32 = x: int | 0 <= x < 0x1_0000_0000

  predicate IsI32(x: int)
  {
    -0x8000_0000 <= x < 0x8000_0000
  }

  /** An integer held in a C `int32_t`. */
  type i32 = x: int | IsI32(x)

  /** Conversion to `int32_t`: two's-complement wrap-around. */
  function I32(x: int): (r: int)
    ensures IsI32(r)
    ensures IsI32(x) ==> r == x
    ensures (x - r) % 0x1_0000_0000 == 0
  {
    var m := x % 0x1_0000_0000;
    if m >= 0x8000_0000 then m - 0x1_0000_0000 else m
  }

  /** `now - prev` on two `uint32_t` readings, wrapping modulo 2^32. */
  function Elapsed(now: u32, prev: u32): (e: u32)
    ensures now >= prev ==> e == now - prev
    ensures now < prev ==> e == now - prev + 0x1_0000_0000
  {
    (now - prev) % 0x1_0000_0000
  }

  /** Conversion to `uint32_t`: the value modulo 2^32. */
  function U32(x: int): (r: u32)
    ensures 0 <= x < 0x1_0000_0000 ==> r == x
  {
    x % 0x1_0000_0000
  }

  /** `(b & mask) > 0`, the C truth value of a masked byte, as 0 or 1. */
  function Masked(b: u8, mask: bv8): (r: u8)
    ensures r <= 1
    ensures r == 1 <==> (b as bv8) & mask != 0
  {
    if (b as bv8) & mask != 0 then 1 else 0
  }

  /** Bits stored in a byte read back unchanged. */
  lemma BitsRoundTrip(x: bv8)
    ensures (x as int) as bv8 == x
  {
  }

  /** The byte holding the bits `x`. */
  function FromBits(x: bv8): (r: u8)
    ensures r as bv8 == x
  {
    BitsRoundTrip(x);
    x as int
  }

  /** The 16-bit word holding the bits `x`. */
  function FromBits16(x: bv16): (r: u16)
    ensures r as bv16 == x
  {
    x as int
  }

  /** `1 << k` as a byte. */
  function BitMask(k: nat): bv8
    requires k < 8
  {
    match k
    case 0 => 0x01
    case 1 => 0x02
    case 2 => 0x04
    case 3 => 0x08
    case 4 => 0x10
    case 5 => 0x20
    case 6 => 0x40
    case _ => 0x80
  }

  /** Bit `k` of `b` is set. */
  predicate Bit(b: bv8, k: nat)
    requires k < 8
  {
    b & BitMask(k) != 0
  }

  /** `(b & ~(1 << k)) | (v << k)`: bit `k` of `b` replaced by `v`, every
      other bit kept. */
  function SetBit(b: bv8, k: nat, v: bool): (r: bv8)
    requires k < 8
    ensures Bit(r, k) == v
    ensures r & !BitMask(k) == b & !BitMask(k)
  {
    (b & !BitMask(k)) | (if v then BitMask(k) else 0)
  }

  /** Replacing bit `k` leaves every other bit as it was. */
  lemma SetBitKeepsOthers(b: bv8, k: nat, v: bool, j: nat)
    requires k < 8 && j < 8 && j != k
    ensures Bit(SetBit(b, k, v), j) == Bit(b, j)
  {
  }

  /** `(r >> 1) | (bit << 7)`: a serial data bit shifted in at the top of a byte. */
  function ShiftIn(r: bv8, bit: bool): (n: bv8)
    ensures Bit(n, 7) == bit
  {
    (r >> 1) | (if bit then 0x80 else 0)
  }

  /** Bit `k` set exactly when `b` holds. */
  function BitOf(b: bool, k: nat): bv8
    requires k < 8
  {
    if b then BitMask(k) else 0
  }

  /** Eight bits shifted in make up the byte with the first bit received as
      its least significant bit, whatever the byte held before. */
  lemma ShiftInLsbFirst(r: bv8, b0: bool, b1: bool, b2: bool, b3: bool,
                        b4: bool, b5: bool, b6: bool, b7: bool)
    ensures ShiftIn(ShiftIn(ShiftIn(ShiftIn(ShiftIn(ShiftIn(ShiftIn(ShiftIn(
              r, b0), b1), b2), b3), b4), b5), b6), b7)
         == BitOf(b0, 0) | BitOf(b1, 1) | BitOf(b2, 2) | BitOf(b3, 3) |
            BitOf(b4, 4) | BitOf(b5, 5) | BitOf(b6, 6) | BitOf(b7, 7)
  {
  }

  /** `1 << k` as a 16-bit word. */
  function BitMask16(k: nat): bv16
    requires k < 16
  {
    match k
    case 0 => 0x0001
    case 1 => 0x0002
    case 2 => 0x0004
    case 3 => 0x0008
    case 4 => 0x0010
    case 5 => 0x0020
    case 6 => 0x0040
    case 7 => 0x0080
    case 8 => 0x0100
    case 9 => 0x0200
    case 10 => 0x0400
    case 11 => 0x0800
    case 12 => 0x1000
    case 13 => 0x2000
    case 14 => 0x4000
    case _ => 0x8000
  }

  /** Bit `k` of the 16-bit word `w` is set. */
  predicate Bit16(w: bv16, k: nat)
    requires k < 16
  {
    w & BitMask16(k) != 0
  }

  /** `c >= '0' && c <= '9'`. */
  predicate IsDigit(c: char)
  {
    '0' <= c <= '9'
  }

  /** `c - '0'`. */
  function DigitValue(c: char): (d: int)
    ensures IsDigit(c) ==> 0 <= d <= 9
  {
    c as int - '0' as int
  }

  /** The character of the decimal digit `d`. */
  function DigitChar(d: int): (c: char)
    requires 0 <= d <= 9
    ensures IsDigit(c) && DigitValue(c) == d
  {
    ('0' as int + d) as char
  }
}

/** Optional values, for results that may be absent and outputs that may not be
    connected. */
module Wrappers {
  datatype Option<T> = None | Some(value: T)
}
