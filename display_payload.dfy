/** Operations shared by the display-side drivers: replacing one LED bit of
    a payload byte, the byte-swapped 16-bit button word read back from a
    TYPE1 display, and the dimming byte sent after each TYPE1 payload. */
module DisplayPayload {
  import opened Bytes

  /** `p[idx] &= ~(1 << bit); p[idx] |= v << bit` for a `bool` flag `v`. */
  function SetLed(p: seq<bv8>, idx: nat, bit: nat, v: bool): (r: seq<bv8>)
    requires idx < |p| && bit < 8
  {
    p[idx := SetBit(p[idx], bit, v)]
  }

  /** A second LED write to a byte just replaced acts on the new byte. */
  lemma SetLedAt(p: seq<bv8>, i: nat, x: bv8, bit: nat, v: bool)
    requires i < |p| && bit < 8
    ensures SetLed(p[i := x], i, bit, v) == p[i := SetBit(x, bit, v)]
  {
  }

  /** An LED write to byte `i` passes over a replaced byte `j`. */
  lemma SetLedPast(p: seq<bv8>, i: nat, x: bv8, j: nat, y: bv8, bit: nat, v: bool)
    requires i < |p| && j < |p| && i != j && bit < 8
    ensures SetLed(p[i := x][j := y], i, bit, v) == p[i := SetBit(x, bit, v)][j := y]
  {
  }

  /** `b & ~(1 << k) | flag << k` for a `uint8_t` flag, truncated back to a
      byte: a flag of 0 or 1 sets bit `k` to itself; a larger flag would
      spill into the bits above `k`. */
  function OrFlag(b: bv8, k: nat, flag: u8): (r: bv8)
    requires k < 8
  {
    (b & !BitMask(k)) | ((flag as bv8) << k)
  }

  /** For a flag of 0 or 1 that is exactly `SetBit`. */
  lemma OrFlagIsSetBit(b: bv8, k: nat, flag: u8)
    requires k < 8 && flag <= 1
    ensures OrFlag(b, k, flag) == SetBit(b, k, flag == 1)
  {
    if flag == 0 {
      assert (flag as bv8) == 0;
    } else {
      assert (flag as bv8) == 1;
    }
    assert (1 as bv8) << k == BitMask(k);
  }

  /** `p[idx] &= ~(1 << bit); p[idx] |= flag << bit` for a `uint8_t` flag. */
  function SetFlagLed(p: seq<bv8>, idx: nat, bit: nat, flag: u8): (r: seq<bv8>)
    requires idx < |p| && bit < 8
  {
    p[idx := OrFlag(p[idx], bit, flag)]
  }

  /** A second flag write to a byte just replaced acts on the new byte. */
  lemma SetFlagLedAt(p: seq<bv8>, i: nat, x: bv8, bit: nat, flag: u8)
    requires i < |p| && bit < 8
    ensures SetFlagLed(p[i := x], i, bit, flag) == p[i := OrFlag(x, bit, flag)]
  {
  }

  /** The clear-payload loop of a TYPE1 display: every byte but the
      command byte 0 zeroed. */
  function Cleared(p: seq<bv8>): (r: seq<bv8>)
    requires |p| >= 1
  {
    [p[0]] + seq(|p| - 1, _ => 0)
  }

  /** The two halves of a button word read back, as the TYPE1 display
      drivers store them: high byte first. */
  function RawButtonBytes(w: bv16): (r: seq<bv8>)
    ensures |r| == 2
  {
    [(w >> 8) as bv8, (w & 0xFF) as bv8]
  }

  /** The halves stored are the high and the low byte of the word. */
  lemma RawButtonBytesJoin(w: bv16)
    ensures ((RawButtonBytes(w)[0] as bv16) << 8) | (RawButtonBytes(w)[1] as bv16) == w
  {
  }

  /** Bit `k` of a 16-bit word set exactly when `b` holds. */
  function BitOf16(b: bool, k: nat): bv16
    requires k < 16
  {
    if b then BitMask16(k) else 0
  }

  /** A bit of an OR is a bit of either side. */
  lemma Bit16Or(x: bv16, y: bv16, k: nat)
    requires k < 16
    ensures Bit16(x | y, k) == (Bit16(x, k) || Bit16(y, k))
  {
    var m := BitMask16(k);
    assert (x | y) & m == (x & m) | (y & m);
  }

  /** `BitOf16(b, p)` has bit `p` exactly when `b` holds, and no other bit. */
  lemma BitOf16Only(b: bool, p: nat, q: nat)
    requires p < 16 && q < 16
    ensures Bit16(BitOf16(b, p), q) == (b && p == q)
  {
  }

  /** `(i + 8) % 16`: where the `i`-th clocked bit of the word goes. */
  function Position(i: nat): (j: nat)
    requires i < 16
    ensures j < 16 && j == (i + 8) % 16
  {
    if i < 8 then i + 8 else i - 8
  }

  /** The button word after the first `|bits|` clocked data bits,
      `result |= bit << ((i + 8) % 16)`: the first byte clocked in lands in
      the high half, the second in the low half. */
  function ReceivedWord(bits: seq<bool>): bv16
    requires |bits| <= 16
  {
    if bits == [] then 0
    else ReceivedWord(bits[..|bits| - 1]) | BitOf16(bits[|bits| - 1], Position(|bits| - 1))
  }

  /** Bit `(i + 8) % 16` of the word is the `i`-th clocked bit, and a
      position no bit has reached yet is clear. */
  lemma {:induction false} ReceivedWordBits(bits: seq<bool>, i: nat)
    requires |bits| <= 16 && i < 16
    ensures Bit16(ReceivedWord(bits), Position(i)) == (i < |bits| && bits[i])
  {
    if bits != [] {
      var n := |bits| - 1;
      var p, q := Position(n), Position(i);
      var w, x := ReceivedWord(bits[..n]), BitOf16(bits[n], p);
      assert ReceivedWord(bits) == w | x;
      Bit16Or(w, x, q);
      BitOf16Only(bits[n], p, q);
      ReceivedWordBits(bits[..n], i);
      if i < n {
        assert p != q && bits[..n][i] == bits[i];
      } else if i == n {
        assert p == q;
      } else {
        assert p != q;
      }
    }
  }

  /** Sixteen clocked bits fill every position of the word: position `j`
      holds bit `(j + 8) % 16`, so `i -> (i + 8) % 16` is a permutation of
      the sixteen positions and the read loses nothing. */
  lemma ReceivedWordPositions(bits: seq<bool>)
    requires |bits| == 16
    ensures forall j :: 0 <= j < 16 ==> Bit16(ReceivedWord(bits), j) == bits[(j + 8) % 16]
  {
    forall j | 0 <= j < 16
      ensures Bit16(ReceivedWord(bits), j) == bits[(j + 8) % 16]
    {
      ReceivedWordBits(bits, Position(j));
      assert Position(Position(j)) == j;
    }
  }

  /** The receive loop over the sixteen sampled data levels. */
  method ReceiveBits(bits: seq<bool>) returns (result: bv16)
    requires |bits| == 16
    ensures result == ReceivedWord(bits)
  {
    result := 0;
    for i := 0 to 16
      invariant result == ReceivedWord(bits[..i])
    {
      assert bits[..i + 1][..i] == bits[..i];
      result := result | BitOf16(bits[i], (i + 8) % 16);
    }
    assert bits[..16] == bits;
  }

  /** `DSP_DIM_BASE | enable | brightness`: 0x80, and for a nonzero
      brightness `b` also the enable bit 0x08 and `b - 1`, cut to the eight
      bits that are sent. */
  function DimByte(b: u8): bv8
  {
    if b > 0 then 0x80 | 0x08 | ((b - 1) as bv8) else 0x80
  }

  /** Brightness 0 switches the display off; levels 1 to 8 keep the base
      and enable bits and put `b - 1` in the low three bits. */
  lemma DimByteLevels(b: u8)
    ensures b == 0 ==> DimByte(b) == 0x80
    ensures 1 <= b <= 8 ==> DimByte(b) & 0xF8 == 0x88 && DimByte(b) & 0x07 == (b - 1) as bv8
  {
  }
}
