/** The display side of the TYPE1 bus as `va/DSP_TYPE1.cpp/.h` (adapted
    from the VisualApproach firmware) drives it: its own 7-segment table
    with space and dash after the digits, the PRE2021 display button codes,
    an LED layout that gives every LED a bit of its own, and a unit flag
    that means Celsius when 0. The clock is an explicit `now` parameter and
    the sampled data levels of a button read are an input sequence. */
module VaDspType1 {
  import opened Bytes
  import opened SpaStates
  import opened DisplayPayload
  import CioType1

  /** `_payload[11]`. */
  const PAYLOAD_LEN: nat := 11

  /** The member initialiser of `_payload`, which the constructor writes
      again byte for byte. */
  const DEFAULT_PAYLOAD: seq<bv8> := [0xC0, 0x01, 0x00, 0x01, 0x00, 0x01, 0x00, 0x01, 0x00, 0x01, 0x00]

  /** The dimming byte's base and enable bits, and the command bytes. */
  const DSP_DIM_BASE: bv8 := 0x80
  const DSP_DIM_ON: bv8 := 0x08
  const DSP_CMD1_MODE6_11_7: bv8 := 0x01
  const DSP_CMD1_MODE6_11_7_P05504: bv8 := 0x05
  const DSP_CMD2_DATAREAD: bv8 := 0x42
  const DSP_CMD2_DATAWRITE: bv8 := 0x40

  /** The payload layout: digits in bytes 1, 3 and 5; lock, timers, heater
      and bubbles LEDs in byte 7; pump, unit, power and jets in byte 9. */
  const DGT1_IDX: nat := 1
  const DGT2_IDX: nat := 3
  const DGT3_IDX: nat := 5
  const TMR2_IDX: nat := 7
  const TMR2_BIT: nat := 1
  const TMR1_IDX: nat := 7
  const TMR1_BIT: nat := 2
  const LCK_IDX: nat := 7
  const LCK_BIT: nat := 3
  const TMRBTNLED_IDX: nat := 7
  const TMRBTNLED_BIT: nat := 4
  const REDHTR_IDX: nat := 7
  const REDHTR_BIT: nat := 5
  const GRNHTR_IDX: nat := 7
  const GRNHTR_BIT: nat := 6
  const AIR_IDX: nat := 7
  const AIR_BIT: nat := 7
  const FLT_IDX: nat := 9
  const FLT_BIT: nat := 1
  const C_IDX: nat := 9
  const C_BIT: nat := 2
  const F_IDX: nat := 9
  const F_BIT: nat := 3
  const PWR_IDX: nat := 9
  const PWR_BIT: nat := 4
  const HJT_IDX: nat := 9
  const HJT_BIT: nat := 5

  /** The (byte, bit) place of every LED, in the order handleStates writes
      them. */
  const LED_PLACES: seq<(nat, nat)> :=
    [(LCK_IDX, LCK_BIT), (TMRBTNLED_IDX, TMRBTNLED_BIT), (TMR1_IDX, TMR1_BIT), (TMR2_IDX, TMR2_BIT),
     (REDHTR_IDX, REDHTR_BIT), (GRNHTR_IDX, GRNHTR_BIT), (AIR_IDX, AIR_BIT), (FLT_IDX, FLT_BIT),
     (C_IDX, C_BIT), (F_IDX, F_BIT), (PWR_IDX, PWR_BIT), (HJT_IDX, HJT_BIT)]

  /** No two LEDs share a bit: byte 7 bits 1 to 7 and byte 9 bits 1 to 5
      each belong to one LED. */
  lemma LedPlacesDistinct()
    ensures |LED_PLACES| == 12
    ensures forall i, j :: 0 <= i < j < |LED_PLACES| ==> LED_PLACES[i] != LED_PLACES[j]
    ensures forall i :: 0 <= i < |LED_PLACES| ==>
              (LED_PLACES[i].0 == 7 && 1 <= LED_PLACES[i].1 <= 7) ||
              (LED_PLACES[i].0 == 9 && 1 <= LED_PLACES[i].1 <= 5)
  {
  }

  /** The least time between two uploads and between two button polls, in ms. */
  const REFRESH_INTERVAL: int := 90
  const BUTTON_POLL_INTERVAL: int := 90

  /** `DSP_PRE2021::_button_codes`, indexed by `Buttons`: 0xFFFF for NOBTN,
      0x0000 for LOCK and again for HYDROJETS, one bit for each other button. */
  const BUTTON_CODES: seq<u16> :=
    [0xFFFF, 0x0000, 0x0001, 0x0002, 0x0004, 0x0008, 0x0010, 0x0020, 0x0080, 0x8000, 0x0000]

  /** The table entries, one by one. */
  lemma ButtonCodesAre()
    ensures |BUTTON_CODES| == BTN_COUNT
    ensures BUTTON_CODES[0] == 0xFFFF && BUTTON_CODES[1] == 0 && BUTTON_CODES[2] == 1
    ensures BUTTON_CODES[3] == 2 && BUTTON_CODES[4] == 4 && BUTTON_CODES[5] == 8
    ensures BUTTON_CODES[6] == 0x10 && BUTTON_CODES[7] == 0x20 && BUTTON_CODES[8] == 0x80
    ensures BUTTON_CODES[9] == 0x8000 && BUTTON_CODES[10] == 0
  {
  }

  /** DSP_PRE2021::buttonCodeToIndex() answers NOBTN exactly for 0xFFFF
      (nothing pressed) and for a word that is no button's code. */
  lemma {:induction false} ButtonCodeToIndexNone(code: u16)
    ensures CioType1.ButtonOfCode(BUTTON_CODES, code) == NOBTN <==>
              code == 0xFFFF || code !in BUTTON_CODES
  {
    ButtonCodesAre();
  }

  /** Code 0 reads as LOCK, so HYDROJETS, which shares it, is never read. */
  lemma {:induction false} ButtonCodeToIndexLock()
    ensures CioType1.ButtonOfCode(BUTTON_CODES, 0) == LOCK
    ensures CioType1.ButtonOfCode(BUTTON_CODES, BUTTON_CODES[HYDROJETS]) == LOCK
  {
    ButtonCodesAre();
    CioType1.ButtonCodeRoundTrip(BUTTON_CODES, LOCK);
  }

  /** Every button but HYDROJETS is read back from its own code. */
  lemma {:induction false} ButtonCodeToIndexRoundTrip(b: Button)
    requires b < HYDROJETS
    ensures CioType1.ButtonOfCode(BUTTON_CODES, CioType1.ButtonCodeOf(BUTTON_CODES, b)) == b
  {
    ButtonCodesAre();
    CioType1.ButtonCodeRoundTrip(BUTTON_CODES, b);
  }

  /** `CHARCODES[i]`: the segment pattern of `CHARS[i]`. */
  function CodeByte(i: nat): bv8
    requires i < 38
  {
    match i
    case 0 => 0x7F case 1 => 0x0D case 2 => 0xB7 case 3 => 0x9F case 4 => 0xCD
    case 5 => 0xDB case 6 => 0xFB case 7 => 0x0F case 8 => 0xFF case 9 => 0xDF
    case 10 => 0x01 case 11 => 0x81 case 12 => 0xEF case 13 => 0xF9 case 14 => 0x73
    case 15 => 0xBD case 16 => 0xF3 case 17 => 0xE3 case 18 => 0xFB case 19 => 0xE9
    case 20 => 0xED case 21 => 0x61 case 22 => 0x1D case 23 => 0xE1 case 24 => 0x71
    case 25 => 0x01 case 26 => 0xA9 case 27 => 0xB9 case 28 => 0xE7 case 29 => 0xCF
    case 30 => 0xA1 case 31 => 0xDB case 32 => 0xF1 case 33 => 0x39 case 34 => 0x7D
    case 35 => 0x01 case 36 => 0xDD case _ => 0xB7
  }

  /** `CHARS[38]`: the digits, space, dash, then the letters; an array of
      38 characters with no terminator. */
  const CHARS: string := "0123456789 -ABCDEFGHIJKLMNOPQRSTUVWXYZ"

  /** `CHARS[i]` by arithmetic on the position. */
  function CharAt(i: nat): char
    requires i < 38
  {
    if i < 10 then ('0' as int + i) as char
    else if i == 10 then ' '
    else if i == 11 then '-'
    else ('A' as int + i - 12) as char
  }

  /** The array holds exactly those characters. */
  lemma CharsAt()
    ensures |CHARS| == 38
    ensures forall i :: 0 <= i < 38 ==> CHARS[i] == CharAt(i)
  {
  }

  /** The first position from `i` on whose character is `c`, or 38. */
  function Scan(c: char, i: nat): nat
    requires i <= 38
    decreases 38 - i
  {
    if i == 38 then 38 else if CharAt(i) == c then i else Scan(c, i + 1)
  }

  /** The scan stops at the first match from `i` on, and at 38 only when
      there is none. */
  lemma {:induction false} ScanFirst(c: char, i: nat)
    requires i <= 38
    ensures i <= Scan(c, i) <= 38
    ensures Scan(c, i) < 38 ==> CharAt(Scan(c, i)) == c
    ensures forall j :: i <= j < Scan(c, i) ==> CharAt(j) != c
    decreases 38 - i
  {
    if i < 38 && CharAt(i) != c {
      ScanFirst(c, i + 1);
    }
  }

  /** The position of `c` in `CHARS`, or 38, by arithmetic on the character. */
  function CharPos(c: char): (i: nat)
    ensures i <= 38
  {
    if '0' <= c <= '9' then c as int - '0' as int
    else if c == ' ' then 10
    else if c == '-' then 11
    else if 'A' <= c <= 'Z' then c as int - 'A' as int + 12
    else 38
  }

  /** `CharPos` inverts `CharAt` and finds nothing for any other character. */
  lemma CharPosOfCharAt(c: char)
    ensures CharPos(c) < 38 ==> CharAt(CharPos(c)) == c
    ensures forall j :: 0 <= j < 38 ==> CharPos(CharAt(j)) == j
  {
  }

  /** The scan stops where `CharPos` points: the characters are distinct,
      so the one match is the first, and an unknown character runs the
      scan to the end of the 38 entries. */
  lemma {:induction false} ScanIsCharPos(c: char)
    ensures Scan(c, 0) == CharPos(c)
  {
    ScanFirst(c, 0);
    CharPosOfCharAt(c);
    var r := Scan(c, 0);
    if r < 38 {
      assert CharPos(CharAt(r)) == r;
    }
  }

  /** charTo7SegmCode(c): the code at the first match, 0x00 for a
      character not in the table. */
  function CharTo7Seg(c: char): bv8
  {
    var i := Scan(c, 0);
    if i < 38 then CodeByte(i) else 0
  }

  /** Each character of `CHARS` is encoded with its own code, any other as
      0x00; space is 0x01 and dash 0x81, not blank. */
  lemma {:induction false} CharTo7SegCodes(k: nat, c: char)
    requires k < 38
    ensures CharTo7Seg(CHARS[k]) == CodeByte(k)
    ensures c !in CHARS ==> CharTo7Seg(c) == 0
    ensures CharTo7Seg(' ') == 0x01 && CharTo7Seg('-') == 0x81
  {
    CharsAt();
    CharPosOfCharAt(CharAt(k));
    ScanIsCharPos(CharAt(k));
    ScanIsCharPos(c);
    CharPosOfCharAt(c);
    ScanIsCharPos(' ');
    ScanIsCharPos('-');
  }

  /** charTo7SegmCode() as its loop runs. */
  method CharTo7SegCode(c: char) returns (code: bv8)
    ensures code == CharTo7Seg(c)
  {
    var i := 0;
    while i < 38 && CharAt(i) != c
      invariant i <= 38 && Scan(c, i) == Scan(c, 0)
    {
      i := i + 1;
    }
    code := if i < 38 then CodeByte(i) else 0;
  }

  /** The three digit bytes handleStates writes: from the text while one is
      set, 0x01 for a missing second or third character, else from the state
      characters (`uint8_t`, passed on as `char`). */
  function DigitCodes(text: string, s: States): (d: seq<bv8>)
    ensures |d| == 3
  {
    if |text| > 0 then
      [CharTo7Seg(text[0]),
       if |text| > 1 then CharTo7Seg(text[1]) else 0x01,
       if |text| > 2 then CharTo7Seg(text[2]) else 0x01]
    else [CharTo7Seg(s.char1 as char), CharTo7Seg(s.char2 as char), CharTo7Seg(s.char3 as char)]
  }

  /** A text of three or more characters hides the state characters, and
      without a text the digits follow the state characters alone. */
  lemma DigitSources(text: string, s: States, t: States)
    ensures |text| >= 3 ==> DigitCodes(text, s) == DigitCodes(text, t)
    ensures |text| == 0 && (s.char1, s.char2, s.char3) == (t.char1, t.char2, t.char3) ==>
              DigitCodes(text, s) == DigitCodes(text, t)
    ensures |text| == 1 ==> DigitCodes(text, s)[1] == 0x01 && DigitCodes(text, s)[2] == 0x01
  {
  }

  /** The payload with the three digit bytes written. */
  function WithDigits(p: seq<bv8>, d: seq<bv8>): (r: seq<bv8>)
    requires |p| == PAYLOAD_LEN && |d| == 3
  {
    p[DGT1_IDX := d[0]][DGT2_IDX := d[1]][DGT3_IDX := d[2]]
  }

  /** The LED writes to byte 7 in source order; each `uint8_t` flag is
      shifted into place and or-ed in. */
  function Byte7Leds(p: seq<bv8>, s: States): (r: seq<bv8>)
    requires |p| == PAYLOAD_LEN
  {
    var p1 := SetFlagLed(p, LCK_IDX, LCK_BIT, s.locked);
    var p2 := SetFlagLed(p1, TMRBTNLED_IDX, TMRBTNLED_BIT, s.timerbuttonled);
    var p3 := SetFlagLed(p2, TMR1_IDX, TMR1_BIT, s.timerled1);
    var p4 := SetFlagLed(p3, TMR2_IDX, TMR2_BIT, s.timerled2);
    var p5 := SetFlagLed(p4, REDHTR_IDX, REDHTR_BIT, s.heatred);
    var p6 := SetFlagLed(p5, GRNHTR_IDX, GRNHTR_BIT, s.heatgrn);
    SetFlagLed(p6, AIR_IDX, AIR_BIT, s.bubbles)
  }

  /** The LED writes to byte 9 in source order: C lit for unit 0, F lit for
      unit 1. */
  function Byte9Leds(p: seq<bv8>, s: States): (r: seq<bv8>)
    requires |p| == PAYLOAD_LEN
  {
    var p1 := SetFlagLed(p, FLT_IDX, FLT_BIT, s.pump);
    var p2 := SetLed(p1, C_IDX, C_BIT, s.unit == 0);
    var p3 := SetLed(p2, F_IDX, F_BIT, s.unit == 1);
    var p4 := SetFlagLed(p3, PWR_IDX, PWR_BIT, s.power);
    SetFlagLed(p4, HJT_IDX, HJT_BIT, s.jets)
  }

  /** The LED writes of handleStates with the power on. */
  function WithLeds(p: seq<bv8>, s: States): (r: seq<bv8>)
    requires |p| == PAYLOAD_LEN
  {
    Byte9Leds(Byte7Leds(p, s), s)
  }

  /** The payload after handleStates: the digits, then the LEDs with the
      power on, or everything but the command byte cleared with it off. */
  function HandledPayload(p: seq<bv8>, s: States, text: string): (r: seq<bv8>)
    requires |p| == PAYLOAD_LEN
  {
    var d := WithDigits(p, DigitCodes(text, s));
    if s.power != 0 then WithLeds(d, s) else Cleared(d)
  }

  /** Byte 7 with the power on: bit 0 kept, then the second and first timer
      LEDs, lock, timer button, red heater, green heater and bubbles in bits
      1 to 7. */
  function StatusByte7(b: bv8, s: States): bv8
  {
    (b & 0x01) | BitOf(s.timerled2 == 1, 1) | BitOf(s.timerled1 == 1, 2) | BitOf(s.locked == 1, 3) |
    BitOf(s.timerbuttonled == 1, 4) | BitOf(s.heatred == 1, 5) | BitOf(s.heatgrn == 1, 6) |
    BitOf(s.bubbles == 1, 7)
  }

  /** Byte 9 with the power on: bits 0, 6 and 7 kept, then pump, C (unit 0,
      Celsius), F (unit 1), power and jets in bits 1 to 5. */
  function StatusByte9(b: bv8, s: States): bv8
  {
    (b & 0xC1) | BitOf(s.pump == 1, 1) | BitOf(s.unit == 0, 2) | BitOf(s.unit == 1, 3) |
    BitOf(s.power == 1, 4) | BitOf(s.jets == 1, 5)
  }

  /** The byte-7 writes replace byte 7 alone. */
  lemma {:induction false} Byte7LedsByte(p: seq<bv8>, s: States)
    requires |p| == PAYLOAD_LEN
    ensures Byte7Leds(p, s) ==
              p[7 := OrFlag(OrFlag(OrFlag(OrFlag(OrFlag(OrFlag(OrFlag(p[7], 3, s.locked),
                        4, s.timerbuttonled), 2, s.timerled1), 1, s.timerled2), 5, s.heatred),
                        6, s.heatgrn), 7, s.bubbles)]
  {
    var x1 := OrFlag(p[7], 3, s.locked);
    var x2 := OrFlag(x1, 4, s.timerbuttonled);
    var x3 := OrFlag(x2, 2, s.timerled1);
    var x4 := OrFlag(x3, 1, s.timerled2);
    var x5 := OrFlag(x4, 5, s.heatred);
    var x6 := OrFlag(x5, 6, s.heatgrn);
    SetFlagLedAt(p, 7, x1, 4, s.timerbuttonled);
    SetFlagLedAt(p, 7, x2, 2, s.timerled1);
    SetFlagLedAt(p, 7, x3, 1, s.timerled2);
    SetFlagLedAt(p, 7, x4, 5, s.heatred);
    SetFlagLedAt(p, 7, x5, 6, s.heatgrn);
    SetFlagLedAt(p, 7, x6, 7, s.bubbles);
  }

  /** The byte-9 writes replace byte 9 alone. */
  lemma {:induction false} Byte9LedsByte(p: seq<bv8>, s: States)
    requires |p| == PAYLOAD_LEN
    ensures Byte9Leds(p, s) ==
              p[9 := OrFlag(OrFlag(SetBit(SetBit(OrFlag(p[9], 1, s.pump), 2, s.unit == 0),
                        3, s.unit == 1), 4, s.power), 5, s.jets)]
  {
    var y1 := OrFlag(p[9], 1, s.pump);
    var y2 := SetBit(y1, 2, s.unit == 0);
    var y3 := SetBit(y2, 3, s.unit == 1);
    var y4 := OrFlag(y3, 4, s.power);
    SetLedAt(p, 9, y1, 2, s.unit == 0);
    SetLedAt(p, 9, y2, 3, s.unit == 1);
    SetFlagLedAt(p, 9, y3, 4, s.power);
    SetFlagLedAt(p, 9, y4, 5, s.jets);
  }

  /** With 0/1 flags the seven writes to byte 7 give `StatusByte7`. */
  lemma Byte7Bits(b: bv8, s: States)
    requires FlagsAreBits(s)
    ensures OrFlag(OrFlag(OrFlag(OrFlag(OrFlag(OrFlag(OrFlag(b, 3, s.locked),
              4, s.timerbuttonled), 2, s.timerled1), 1, s.timerled2), 5, s.heatred),
              6, s.heatgrn), 7, s.bubbles) == StatusByte7(b, s)
  {
    Byte7FlagsAsBits(b, s);
    SetBitChain7(b, s);
  }

  /** With 0/1 flags each write to byte 7 is a `SetBit`. */
  lemma Byte7FlagsAsBits(b: bv8, s: States)
    requires FlagsAreBits(s)
    ensures OrFlag(OrFlag(OrFlag(OrFlag(OrFlag(OrFlag(OrFlag(b, 3, s.locked),
              4, s.timerbuttonled), 2, s.timerled1), 1, s.timerled2), 5, s.heatred),
              6, s.heatgrn), 7, s.bubbles) ==
            SetBit(SetBit(SetBit(SetBit(SetBit(SetBit(SetBit(b, 3, s.locked == 1),
              4, s.timerbuttonled == 1), 2, s.timerled1 == 1), 1, s.timerled2 == 1),
              5, s.heatred == 1), 6, s.heatgrn == 1), 7, s.bubbles == 1)
  {
    var x1 := OrFlag(b, 3, s.locked);
    var x2 := OrFlag(x1, 4, s.timerbuttonled);
    var x3 := OrFlag(x2, 2, s.timerled1);
    var x4 := OrFlag(x3, 1, s.timerled2);
    var x5 := OrFlag(x4, 5, s.heatred);
    var x6 := OrFlag(x5, 6, s.heatgrn);
    OrFlagIsSetBit(b, 3, s.locked);
    OrFlagIsSetBit(x1, 4, s.timerbuttonled);
    OrFlagIsSetBit(x2, 2, s.timerled1);
    OrFlagIsSetBit(x3, 1, s.timerled2);
    OrFlagIsSetBit(x4, 5, s.heatred);
    OrFlagIsSetBit(x5, 6, s.heatgrn);
    OrFlagIsSetBit(x6, 7, s.bubbles);
  }

  /** The seven `SetBit`s of byte 7 in source order give `StatusByte7`. */
  lemma SetBitChain7(b: bv8, s: States)
    ensures SetBit(SetBit(SetBit(SetBit(SetBit(SetBit(SetBit(b, 3, s.locked == 1),
              4, s.timerbuttonled == 1), 2, s.timerled1 == 1), 1, s.timerled2 == 1),
              5, s.heatred == 1), 6, s.heatgrn == 1), 7, s.bubbles == 1) == StatusByte7(b, s)
  {
  }

  /** With 0/1 flags the five writes to byte 9 give `StatusByte9`. */
  lemma Byte9Bits(b: bv8, s: States)
    requires FlagsAreBits(s)
    ensures OrFlag(OrFlag(SetBit(SetBit(OrFlag(b, 1, s.pump), 2, s.unit == 0),
              3, s.unit == 1), 4, s.power), 5, s.jets) == StatusByte9(b, s)
  {
    var y1 := OrFlag(b, 1, s.pump);
    var y3 := SetBit(SetBit(y1, 2, s.unit == 0), 3, s.unit == 1);
    var y4 := OrFlag(y3, 4, s.power);
    OrFlagIsSetBit(b, 1, s.pump);
    OrFlagIsSetBit(y3, 4, s.power);
    OrFlagIsSetBit(y4, 5, s.jets);
    SetBitChain9(b, s);
  }

  /** The five `SetBit`s of byte 9 in source order give `StatusByte9`. */
  lemma SetBitChain9(b: bv8, s: States)
    ensures SetBit(SetBit(SetBit(SetBit(SetBit(b, 1, s.pump == 1), 2, s.unit == 0), 3, s.unit == 1),
              4, s.power == 1), 5, s.jets == 1) == StatusByte9(b, s)
  {
  }

  /** With the power on and 0/1 flags every LED bit equals its flag (C for
      unit 0, F for unit 1), the other bits of bytes 7 and 9 and every other
      byte but the digits are kept, and the digits are `DigitCodes`. */
  lemma {:induction false} HandledPayloadPowerOn(p: seq<bv8>, s: States, text: string)
    requires |p| == PAYLOAD_LEN && s.power != 0 && FlagsAreBits(s)
    ensures var r := HandledPayload(p, s, text);
      |r| == 11 && r[1] == DigitCodes(text, s)[0] && r[3] == DigitCodes(text, s)[1] &&
      r[5] == DigitCodes(text, s)[2] && r[7] == StatusByte7(p[7], s) && r[9] == StatusByte9(p[9], s) &&
      r[0] == p[0] && r[2] == p[2] && r[4] == p[4] && r[6] == p[6] && r[8] == p[8] && r[10] == p[10]
  {
    var d := WithDigits(p, DigitCodes(text, s));
    Byte7LedsByte(d, s);
    var q := Byte7Leds(d, s);
    Byte9LedsByte(q, s);
    Byte7Bits(d[7], s);
    Byte9Bits(q[9], s);
  }

  /** With the power off bytes 1 to 10 are zero, the digits just written
      included, and the command byte is kept. */
  lemma HandledPayloadPowerOff(p: seq<bv8>, s: States, text: string)
    requires |p| == PAYLOAD_LEN && s.power == 0
    ensures var r := HandledPayload(p, s, text);
      |r| == 11 && r[0] == p[0] && forall i :: 1 <= i < 11 ==> r[i] == 0
  {
  }

  /** The frames uploadPayload sends: the mode command, the write command,
      the payload and the dimming byte. */
  function UploadFrames(payload: seq<bv8>, brightness: u8): (f: seq<seq<bv8>>)
  {
    [[DSP_CMD1_MODE6_11_7_P05504], [DSP_CMD2_DATAWRITE], payload, [DimByte(brightness)]]
  }

  /** The dimming byte is the base, plus the enable bit and `b - 1` for a
      nonzero brightness. */
  lemma DimByteFromConstants(b: u8)
    ensures b == 0 ==> DimByte(b) == DSP_DIM_BASE
    ensures 1 <= b <= 8 ==>
              DimByte(b) & 0xF8 == DSP_DIM_BASE | DSP_DIM_ON && DimByte(b) & 0x07 == (b - 1) as bv8
  {
    DimByteLevels(b);
  }

  class VaDspType1 {
    const payload: array<bv8>
    const rawPayloadFromDsp: array<bv8>
    var states: States
    var text: string
    var audioFrequency: u16
    var goodPacketsCount: nat
    var lastRefreshTime: u32
    var getButtonLastTime: u32
    var oldButton: Button

    /** An 11-byte payload and a distinct 2-byte button buffer. */
    ghost predicate Valid()
      reads this
    {
      payload.Length == PAYLOAD_LEN && rawPayloadFromDsp.Length == 2 && payload != rawPayloadFromDsp
    }

    /** The member initialisers, then the constructor's own writes of the
        same eleven bytes; the button buffer is left uninitialised. */
    constructor()
      ensures Valid() && fresh(payload) && fresh(rawPayloadFromDsp)
      ensures payload[..] == DEFAULT_PAYLOAD
      ensures states == DefaultStates && text == "" && audioFrequency == 0
      ensures goodPacketsCount == 0 && lastRefreshTime == 0 && getButtonLastTime == 0
      ensures oldButton == NOBTN
    {
      payload := new bv8[PAYLOAD_LEN](i requires 0 <= i < PAYLOAD_LEN => DEFAULT_PAYLOAD[i]);
      rawPayloadFromDsp := new bv8[2];
      states := DefaultStates;
      text := "";
      audioFrequency := 0;
      goodPacketsCount := 0;
      lastRefreshTime := 0;
      getButtonLastTime := 0;
      oldButton := NOBTN;
      new;
      payload[0], payload[1], payload[2], payload[3] := 0xC0, 0x01, 0x00, 0x01;
      payload[4], payload[5], payload[6], payload[7] := 0x00, 0x01, 0x00, 0x01;
      payload[8], payload[9], payload[10] := 0x00, 0x01, 0x00;
    }

    /** clearpayload(). */
    method ClearPayload()
      requires Valid()
      modifies payload
      ensures payload[..] == Cleared(old(payload[..]))
    {
      for i := 1 to PAYLOAD_LEN
        invariant payload[0] == old(payload[0])
        invariant forall j :: 1 <= j < i ==> payload[j] == 0
      {
        payload[i] := 0;
      }
      assert payload[..] == Cleared(old(payload[..]));
    }

    /** The digit writes of handleStates. */
    method WriteDigits()
      requires Valid()
      modifies payload
      ensures payload[..] == WithDigits(old(payload[..]), DigitCodes(text, states))
    {
      var d1, d2, d3: bv8 := 0x01, 0x01, 0x01;
      if |text| > 0 {
        d1 := CharTo7SegCode(text[0]);
        if |text| > 1 {
          d2 := CharTo7SegCode(text[1]);
        }
        if |text| > 2 {
          d3 := CharTo7SegCode(text[2]);
        }
      } else {
        d1 := CharTo7SegCode(states.char1 as char);
        d2 := CharTo7SegCode(states.char2 as char);
        d3 := CharTo7SegCode(states.char3 as char);
      }
      payload[DGT1_IDX] := d1;
      payload[DGT2_IDX] := d2;
      payload[DGT3_IDX] := d3;
    }

    /** The LED writes of handleStates with the power on. */
    method WriteLeds()
      requires Valid()
      modifies payload
      ensures payload[..] == WithLeds(old(payload[..]), states)
    {
      var s := states;
      payload[LCK_IDX] := OrFlag(payload[LCK_IDX], LCK_BIT, s.locked);
      payload[TMRBTNLED_IDX] := OrFlag(payload[TMRBTNLED_IDX], TMRBTNLED_BIT, s.timerbuttonled);
      payload[TMR1_IDX] := OrFlag(payload[TMR1_IDX], TMR1_BIT, s.timerled1);
      payload[TMR2_IDX] := OrFlag(payload[TMR2_IDX], TMR2_BIT, s.timerled2);
      payload[REDHTR_IDX] := OrFlag(payload[REDHTR_IDX], REDHTR_BIT, s.heatred);
      payload[GRNHTR_IDX] := OrFlag(payload[GRNHTR_IDX], GRNHTR_BIT, s.heatgrn);
      payload[AIR_IDX] := OrFlag(payload[AIR_IDX], AIR_BIT, s.bubbles);
      payload[FLT_IDX] := OrFlag(payload[FLT_IDX], FLT_BIT, s.pump);
      payload[C_IDX] := SetBit(payload[C_IDX], C_BIT, s.unit == 0);
      payload[F_IDX] := SetBit(payload[F_IDX], F_BIT, s.unit == 1);
      payload[PWR_IDX] := OrFlag(payload[PWR_IDX], PWR_BIT, s.power);
      payload[HJT_IDX] := OrFlag(payload[HJT_IDX], HJT_BIT, s.jets);
    }

    /** uploadPayload(brightness) at time `now`: nothing within 90 ms of the
        last upload; otherwise the time is recorded and the four frames are
        sent. */
    method UploadPayload(brightness: u8, now: u32) returns (sent: seq<seq<bv8>>)
      requires Valid()
      modifies this`lastRefreshTime
      ensures Elapsed(now, old(lastRefreshTime)) < REFRESH_INTERVAL ==>
                sent == [] && lastRefreshTime == old(lastRefreshTime)
      ensures Elapsed(now, old(lastRefreshTime)) >= REFRESH_INTERVAL ==>
                sent == UploadFrames(payload[..], brightness) && lastRefreshTime == now
    {
      if Elapsed(now, lastRefreshTime) < REFRESH_INTERVAL {
        return [];
      }
      lastRefreshTime := now;
      sent := UploadFrames(payload[..], brightness);
    }

    /** handleStates() at time `now`: the payload follows `HandledPayload`
        and is uploaded unless the last upload is under 90 ms old. */
    method HandleStates(now: u32) returns (sent: seq<seq<bv8>>)
      requires Valid()
      modifies payload, this`lastRefreshTime
      ensures payload[..] == HandledPayload(old(payload[..]), states, text)
      ensures Elapsed(now, old(lastRefreshTime)) < REFRESH_INTERVAL ==>
                sent == [] && lastRefreshTime == old(lastRefreshTime)
      ensures Elapsed(now, old(lastRefreshTime)) >= REFRESH_INTERVAL ==>
                sent == UploadFrames(payload[..], states.brightness) && lastRefreshTime == now
    {
      WriteDigits();
      if states.power != 0 {
        WriteLeds();
      } else {
        ClearPayload();
      }
      sent := UploadPayload(states.brightness, now);
    }

    /** The two halves of the word read, high byte first. */
    method StoreRaw(code: bv16)
      requires Valid()
      modifies rawPayloadFromDsp
      ensures rawPayloadFromDsp[..] == RawButtonBytes(code)
    {
      rawPayloadFromDsp[0] := (code >> 8) as bv8;
      rawPayloadFromDsp[1] := (code & 0xFF) as bv8;
      assert rawPayloadFromDsp[..] == [rawPayloadFromDsp[0], rawPayloadFromDsp[1]];
    }

    /** The read half of getPressedButton(), with `bits` the sixteen data
        levels clocked in: the word is counted as a good packet unless it is
        0xFFFF (nothing pressed), looked up, cached and stored in halves. */
    method ReadButton(bits: seq<bool>) returns (b: Button)
      requires Valid() && |bits| == 16
      modifies this`oldButton, this`goodPacketsCount, rawPayloadFromDsp
      ensures goodPacketsCount ==
                old(goodPacketsCount) + (if ReceivedWord(bits) != 0xFFFF then 1 else 0)
      ensures rawPayloadFromDsp[..] == RawButtonBytes(ReceivedWord(bits))
      ensures b == oldButton
      ensures b == CioType1.ButtonOfCode(BUTTON_CODES, FromBits16(ReceivedWord(bits)))
    {
      var code := ReceiveBits(bits);
      var good := goodPacketsCount;
      if code != 0xFFFF {
        good := good + 1;
      }
      goodPacketsCount := good;
      var w := FromBits16(code);
      b := CioType1.ButtonFromCode(BUTTON_CODES, w);
      oldButton := b;
      StoreRaw(code);
    }

    /** getPressedButton() at time `now`: within 90 ms of the last poll the
        cached button and nothing else changed; otherwise the poll time is
        recorded and the button is read. */
    method GetPressedButton(now: u32, bits: seq<bool>) returns (b: Button)
      requires Valid() && |bits| == 16
      modifies this`getButtonLastTime, this`oldButton, this`goodPacketsCount, rawPayloadFromDsp
      ensures Elapsed(now, old(getButtonLastTime)) < BUTTON_POLL_INTERVAL ==>
                b == old(oldButton) && oldButton == old(oldButton) &&
                getButtonLastTime == old(getButtonLastTime) &&
                goodPacketsCount == old(goodPacketsCount) &&
                rawPayloadFromDsp[..] == old(rawPayloadFromDsp[..])
      ensures Elapsed(now, old(getButtonLastTime)) >= BUTTON_POLL_INTERVAL ==>
                getButtonLastTime == now &&
                goodPacketsCount ==
                  old(goodPacketsCount) + (if ReceivedWord(bits) != 0xFFFF then 1 else 0) &&
                rawPayloadFromDsp[..] == RawButtonBytes(ReceivedWord(bits)) &&
                b == oldButton &&
                b == CioType1.ButtonOfCode(BUTTON_CODES, FromBits16(ReceivedWord(bits)))
    {
      if Elapsed(now, getButtonLastTime) < BUTTON_POLL_INTERVAL {
        return oldButton;
      }
      getButtonLastTime := now;
      b := ReadButton(bits);
    }
  }
}
