/** The controller side of the TYPE1 bus as `CIO_TYPE1.cpp` (adapted from
    the VisualApproach firmware) reads it: a 38-entry 7-segment table, the
    PRE2021 button codes, and an updateStates() that counts packets and
    takes the first digit's character as the temperature. */
module VaCioType1 {
  import opened Bytes
  import opened SpaStates

  /** The payload is eleven bytes, as on every TYPE1 bus. */
  const PAYLOAD_LEN: nat := 11

  /** `CHARCODES[i]`: the segment pattern of `CHARS[i]`. */
  function CharCode(i: nat): u8
    requires i < 38
  {
    match i
    case 0 => 0x7E case 1 => 0x30 case 2 => 0x6D case 3 => 0x79 case 4 => 0x33
    case 5 => 0x5B case 6 => 0x5F case 7 => 0x70 case 8 => 0x7F case 9 => 0x7B
    case 10 => 0x77 case 11 => 0x1F case 12 => 0x4E case 13 => 0x3D case 14 => 0x4F
    case 15 => 0x47 case 16 => 0x5E case 17 => 0x37 case 18 => 0x06 case 19 => 0x3C
    case 20 => 0x57 case 21 => 0x0E case 22 => 0x54 case 23 => 0x15 case 24 => 0x1D
    case 25 => 0x67 case 26 => 0x73 case 27 => 0x05 case 28 => 0x5B case 29 => 0x0F
    case 30 => 0x3E case 31 => 0x1C case 32 => 0x5C case 33 => 0x49 case 34 => 0x3B
    case 35 => 0x25 case 36 => 0x00 case _ => 0x40
  }

  /** `CHARS`: the digits, the letters, space and dash. */
  const CHARS: string := "0123456789ABCDEFGHIJKLMNOPQRSTUVWXYZ -"

  /** The first index from `i` on whose code is `v`, or 38. */
  function FindCode(v: int, i: nat): nat
    requires i <= 38
    decreases 38 - i
  {
    if i == 38 then 38 else if CharCode(i) == v then i else FindCode(v, i + 1)
  }

  /** The scan stops at the first match from `i` on, and at 38 only when
      there is none. */
  lemma {:induction false} FindCodeFirst(v: int, i: nat)
    requires i <= 38
    ensures i <= FindCode(v, i) <= 38
    ensures FindCode(v, i) < 38 ==> CharCode(FindCode(v, i)) == v
    ensures forall j :: i <= j < FindCode(v, i) ==> CharCode(j) != v
    decreases 38 - i
  {
    if i < 38 && CharCode(i) != v {
      FindCodeFirst(v, i + 1);
    }
  }

  /** A code occurring at `k` and nowhere between `i` and `k` is found at `k`. */
  lemma {:induction false} FindCodeAt(i: nat, k: nat)
    requires i <= k < 38
    requires forall j :: i <= j < k ==> CharCode(j) != CharCode(k)
    ensures FindCode(CharCode(k), i) == k
    decreases k - i
  {
    if i < k {
      FindCodeAt(i + 1, k);
    }
  }

  /** The index _getChar() stops at: the first exact match, or 38. */
  function CharIndex(value: bv8): nat
  {
    FindCode(FromBits(value), 0)
  }

  /** _getChar(value): `CHARS` at the first exact match, '?' when the
      pattern is not in the table. */
  function GetChar(value: bv8): char
  {
    var i := CharIndex(value);
    if i < 38 then CHARS[i] else '?'
  }

  /** No character of `CHARS` is '?'. */
  lemma NoQuestionMarkInChars()
    ensures forall k :: 0 <= k < 38 ==> CHARS[k] != '?'
  {
  }

  /** _getChar() returns '?' exactly when the byte is no character's code,
      and a character of `CHARS` otherwise. */
  lemma GetCharRange(value: bv8)
    ensures GetChar(value) == '?' || GetChar(value) in CHARS
    ensures GetChar(value) == '?' <==> forall k :: 0 <= k < 38 ==> CharCode(k) != value as int
  {
    FindCodeFirst(FromBits(value), 0);
    NoQuestionMarkInChars();
  }

  /** _getChar() as its scanning loop runs. */
  method CharOf(value: bv8) returns (c: char)
    ensures c == GetChar(value)
  {
    var v := FromBits(value);
    var i := 0;
    while i < 38 && CharCode(i) != v
      invariant i <= 38 && FindCode(v, i) == FindCode(v, 0)
    {
      i := i + 1;
    }
    c := if i < 38 then CHARS[i] else '?';
  }

  /** 0x5B is the code of both '5' and 'S', so _getChar() never returns 'S'. */
  lemma {:induction false} GetCharNeverS(value: bv8)
    ensures GetChar(value) != 'S'
  {
    FindCodeFirst(FromBits(value), 0);
    assert CharCode(5) == CharCode(28);
    var i := CharIndex(value);
    if i < 38 {
      assert i != 28;
      assert forall k :: 0 <= k < 38 && k != 28 ==> CHARS[k] != 'S';
    }
  }

  /** The codes other than that of 'S' occur nowhere earlier in the table
      (the first half of the table, then the second). */
  lemma {:induction false} CodeFirstInLowHalf(k: nat)
    requires k < 19
    ensures forall j :: 0 <= j < k ==> CharCode(j) != CharCode(k)
  {
  }

  lemma {:induction false} CodeFirstInHighHalf(k: nat)
    requires 19 <= k < 38 && k != 28
    ensures forall j :: 0 <= j < k ==> CharCode(j) != CharCode(k)
  {
  }

  /** Every character but 'S' is read back from a byte holding its code. */
  lemma {:induction false} GetCharOfCode(k: nat, value: bv8)
    requires k < 38 && k != 28
    requires value as int == CharCode(k)
    ensures GetChar(value) == CHARS[k]
  {
    if k < 19 {
      CodeFirstInLowHalf(k);
    } else {
      CodeFirstInHighHalf(k);
    }
    FindCodeAt(0, k);
  }

  /** `CIO_PRE2021::_button_codes`, indexed by `Buttons`. */
  const BUTTON_CODES: seq<u16> :=
    [0x1B1B, 0x1B11, 0x1B0B, 0x1B17, 0x1B1D, 0x1B1E, 0x1B1D, 0x0B1B, 0x1B1B, 0x1B1B, 0x1B1B]

  /** CIO_PRE2021::getButtonCode(): the table entry, the NOBTN entry past
      the table. */
  function ButtonCode(b: Button): (c: u16)
    ensures c in BUTTON_CODES
  {
    if b >= BTN_COUNT then BUTTON_CODES[0] else BUTTON_CODES[b]
  }

  /** The group of buttons sharing a code: NOBTN with UP, POWER, HYDROJETS
      and every out-of-range index; UNIT with PUMP; every other button alone. */
  function CodeGroup(b: Button): nat
  {
    if b >= BTN_COUNT || b == NOBTN || b == UP || b == POWER || b == HYDROJETS then 0
    else if b == PUMP then UNIT as nat
    else b as nat
  }

  /** Two buttons send the same code exactly when they are in the same
      group, so those buttons cannot be told apart on the bus. */
  lemma {:induction false} ButtonCodesCoincide(a: Button, b: Button)
    ensures ButtonCode(a) == ButtonCode(b) <==> CodeGroup(a) == CodeGroup(b)
  {
    var t := BUTTON_CODES;
    assert t[0] == 0x1B1B && t[1] == 0x1B11 && t[2] == 0x1B0B && t[3] == 0x1B17;
    assert t[4] == 0x1B1D && t[5] == 0x1B1E && t[6] == 0x1B1D && t[7] == 0x0B1B;
    assert t[8] == 0x1B1B && t[9] == 0x1B1B && t[10] == 0x1B1B;
  }

  /** The temperature byte updateStates() stores: the character code of
      _getChar(payload[1]), cast to `uint8_t`. */
  function TemperatureOf(digit: bv8): (t: u8)
  {
    U8(GetChar(digit) as int)
  }

  /** The cast keeps the character code, so a byte showing digit `d` gives
      the ASCII code of `d` (48 + d), not the value `d`. */
  lemma {:induction false} TemperatureIsCharacterCode(digit: bv8, d: nat)
    requires d <= 9 && digit as int == CharCode(d)
    ensures TemperatureOf(digit) == GetChar(digit) as int
    ensures TemperatureOf(digit) == 48 + d
  {
    GetCharOfCode(d, digit);
    assert CHARS[d] as int == 48 + d;
  }

  class CioType1 {
    const payload: array<bv8>
    var byteCount: nat
    var bitCount: nat
    var receivedByte: bv8
    var sendBit: nat
    var cmdMatches: nat
    var packetError: u8
    var packetTransmActive: bool
    var dataIsOutput: bool
    var newPacketAvailable: bool
    var brightness: u8
    var states: States
    var goodPacketsCount: nat
    var badPacketsCount: nat

    /** An 11-byte payload buffer. */
    ghost predicate Valid()
      reads this
    {
      payload.Length == PAYLOAD_LEN
    }

    /** The constructor: counters and match state cleared, first button bit
        8, brightness 7, no packet pending. */
    constructor()
      ensures Valid() && fresh(payload)
      ensures byteCount == 0 && bitCount == 0 && receivedByte == 0 && sendBit == 8
      ensures cmdMatches == 0 && packetError == 0 && !packetTransmActive && !dataIsOutput
      ensures !newPacketAvailable && brightness == 7
      ensures states == DefaultStates && goodPacketsCount == 0 && badPacketsCount == 0
    {
      payload := new bv8[PAYLOAD_LEN];
      byteCount := 0;
      bitCount := 0;
      receivedByte := 0;
      sendBit := 8;
      cmdMatches := 0;
      packetError := 0;
      packetTransmActive := false;
      dataIsOutput := false;
      newPacketAvailable := false;
      brightness := 7;
      states := DefaultStates;
      goodPacketsCount := 0;
      badPacketsCount := 0;
    }

    /** updateStates(): a packet in error is counted as bad and the error
        cleared, nothing else; otherwise the temperature is the character
        code of the first digit and the packet is counted as good. */
    method UpdateStates()
      requires Valid()
      modifies this`packetError, this`badPacketsCount, this`goodPacketsCount, this`states
      ensures old(packetError) != 0 ==>
                packetError == 0 && badPacketsCount == old(badPacketsCount) + 1 &&
                goodPacketsCount == old(goodPacketsCount) && states == old(states)
      ensures old(packetError) == 0 ==>
                packetError == 0 && badPacketsCount == old(badPacketsCount) &&
                goodPacketsCount == old(goodPacketsCount) + 1 &&
                states == old(states).(temperature := TemperatureOf(payload[1]))
    {
      if packetError != 0 {
        badPacketsCount := badPacketsCount + 1;
        packetError := 0;
        return;
      }
      states := states.(temperature := TemperatureOf(payload[1]));
      goodPacketsCount := goodPacketsCount + 1;
    }
  }
}
