/** The display side of the TYPE2 bus as `DSP_TYPE2.cpp/.h` drives it for
    the 54149E: a 5-byte payload with the digits in bytes 0 to 2 and the
    LEDs in bytes 3 and 4, a button code clocked in as eight bits and
    debounced over two reads, and three frames per upload. The character
    set `CHARS` is not defined in those files and is a parameter here. The
    clock is an explicit `now` parameter and the sampled TD levels of a
    button read are an input sequence. */
module DspType2 {
  import opened Bytes
  import opened Lookup
  import opened SpaStates
  import opened DisplayPayload
  import CioType1
  import VaCioType2

  /** `_payload[5]`. */
  const PAYLOAD_LEN: nat := 5

  /** The payload after the constructor and after clearpayload(). */
  const ZERO_PAYLOAD: seq<bv8> := [0, 0, 0, 0, 0]

  /** The dimming base and enable bits and the three command bytes; CMD3 is
      the dimming byte at full brightness. */
  const DSP_DIM_BASE: bv8 := 0x80
  const DSP_DIM_ON: bv8 := 0x08
  const CMD1: bv8 := 0x40
  const CMD2: bv8 := 0xC0
  const CMD3: bv8 := DSP_DIM_BASE | DSP_DIM_ON | 7

  /** The payload layout: digits in bytes 0 to 2, timer, lock, heater and
      bubbles LEDs in byte 3, unit, pump, power and jets in byte 4. */
  const DGT1_IDX: nat := 0
  const DGT2_IDX: nat := 1
  const DGT3_IDX: nat := 2
  const TMR2_IDX: nat := 3
  const TMR2_BIT: nat := 7
  const TMR1_IDX: nat := 3
  const TMR1_BIT: nat := 6
  const LCK_IDX: nat := 3
  const LCK_BIT: nat := 5
  const TMRBTNLED_IDX: nat := 3
  const TMRBTNLED_BIT: nat := 4
  const REDHTR_IDX: nat := 3
  const REDHTR_BIT: nat := 2
  const GRNHTR_IDX: nat := 3
  const GRNHTR_BIT: nat := 3
  const AIR_IDX: nat := 3
  const AIR_BIT: nat := 1
  const FLT_IDX: nat := 4
  const FLT_BIT: nat := 2
  const C_IDX: nat := 4
  const C_BIT: nat := 0
  const F_IDX: nat := 4
  const F_BIT: nat := 1
  const PWR_IDX: nat := 4
  const PWR_BIT: nat := 3
  const HJT_IDX: nat := 4
  const HJT_BIT: nat := 4

  /** The (byte, bit) place of every LED, in the order handleStates writes
      them. */
  const LED_PLACES: seq<(nat, nat)> :=
    [(LCK_IDX, LCK_BIT), (TMRBTNLED_IDX, TMRBTNLED_BIT), (TMR1_IDX, TMR1_BIT), (TMR2_IDX, TMR2_BIT),
     (REDHTR_IDX, REDHTR_BIT), (GRNHTR_IDX, GRNHTR_BIT), (AIR_IDX, AIR_BIT), (FLT_IDX, FLT_BIT),
     (C_IDX, C_BIT), (F_IDX, F_BIT), (PWR_IDX, PWR_BIT), (HJT_IDX, HJT_BIT)]

  /** No two LEDs share a bit, and no LED lies in a digit byte: byte 3 bits
      1 to 7 and byte 4 bits 0 to 4 each belong to one LED. */
  lemma LedPlacesDistinct()
    ensures |LED_PLACES| == 12
    ensures forall i, j :: 0 <= i < j < |LED_PLACES| ==> LED_PLACES[i] != LED_PLACES[j]
    ensures forall i :: 0 <= i < |LED_PLACES| ==>
              (LED_PLACES[i].0 == 3 && 1 <= LED_PLACES[i].1 <= 7) ||
              (LED_PLACES[i].0 == 4 && LED_PLACES[i].1 <= 4)
  {
  }

  /** The least time between two uploads and between two button reads, in ms. */
  const REFRESH_INTERVAL: int := 100
  const BUTTON_POLL_INTERVAL: int := 20

  /** DSP_54149E::getHasjets(): the 54149E display has no jets button. */
  const HAS_JETS: bool := false

  /** `CHARCODES[i]` of the TYPE2 display. */
  function CodeByte(i: nat): (r: bv8)
    requires i < 38
    ensures r as int == VaCioType2.CharCode(i)
  {
    match i
    case 0 => 0x3F case 1 => 0x06 case 2 => 0x5B case 3 => 0x4F case 4 => 0x66
    case 5 => 0x6D case 6 => 0x7D case 7 => 0x07 case 8 => 0x7F case 9 => 0x6F
    case 10 => 0x00 case 11 => 0x40 case 12 => 0x77 case 13 => 0x7C case 14 => 0x39
    case 15 => 0x5E case 16 => 0x79 case 17 => 0x71 case 18 => 0x7D case 19 => 0x74
    case 20 => 0x76 case 21 => 0x30 case 22 => 0x0E case 23 => 0x70 case 24 => 0x38
    case 25 => 0x00 case 26 => 0x54 case 27 => 0x5C case 28 => 0x73 case 29 => 0x67
    case 30 => 0x50 case 31 => 0x6D case 32 => 0x78 case 33 => 0x1C case 34 => 0x3E
    case 35 => 0x00 case 36 => 0x6E case _ => 0x5B
  }

  /** A character set no longer than the code table: `CHARS[i]` is shown
      with `CHARCODES[i]`. */
  type CharSet = chars: seq<char> | |chars| <= 38

  /** charTo7SegmCode(c): the code at the first match in `CHARS`, 0x00 for
      a character not in it. */
  function CharTo7Seg(chars: CharSet, c: char): bv8
  {
    var i := FirstIndex(chars, c);
    if i < |chars| then CodeByte(i) else 0
  }

  /** charTo7SegmCode() as its loop runs. */
  method CharTo7SegCode(chars: CharSet, c: char) returns (code: bv8)
    ensures code == CharTo7Seg(chars, c)
  {
    var i := Scan(chars, c);
    code := if i < |chars| then CodeByte(i) else 0;
  }

  /** What the display shows, the controller reads back: with the
      controller's character set, a character that occurs first at `k` and
      does not share its code with an earlier entry is encoded and decoded
      to itself, and a character not in the set is sent as 0x00, which
      decodes as the blank entry 10. */
  lemma {:induction false} CharTo7SegRoundTrip(l: VaCioType2.PayloadLayout, k: nat, c: char)
    requires k < 38 && k != 18 && k != 25 && k != 31 && k != 35 && k != 37
    requires forall j :: 0 <= j < k ==> l.chars[j] != l.chars[k]
    ensures VaCioType2.GetChar(l, CharTo7Seg(l.chars, l.chars[k])) == l.chars[k]
    ensures c !in l.chars ==> VaCioType2.GetChar(l, CharTo7Seg(l.chars, c)) == l.chars[10]
  {
    FirstIndexOfDistinct(l.chars, k);
    VaCioType2.GetCharOfCode(l, k, CodeByte(k));
    if c !in l.chars {
      VaCioType2.GetCharOfCode(l, 10, 0);
    }
  }

  /** The three digit bytes handleStates writes: from the text while one is
      set, 1 for a missing second or third character, else from the state
      characters (`uint8_t`, passed on as `char`). */
  function DigitCodes(chars: CharSet, text: string, s: States): (d: seq<bv8>)
    ensures |d| == 3
  {
    if |text| > 0 then
      [CharTo7Seg(chars, text[0]),
       if |text| > 1 then CharTo7Seg(chars, text[1]) else 0x01,
       if |text| > 2 then CharTo7Seg(chars, text[2]) else 0x01]
    else [CharTo7Seg(chars, s.char1 as char), CharTo7Seg(chars, s.char2 as char),
          CharTo7Seg(chars, s.char3 as char)]
  }

  /** A text of three or more characters hides the state characters, and
      without a text the digits follow the state characters alone. */
  lemma DigitSources(chars: CharSet, text: string, s: States, t: States)
    ensures |text| >= 3 ==> DigitCodes(chars, text, s) == DigitCodes(chars, text, t)
    ensures |text| == 0 && (s.char1, s.char2, s.char3) == (t.char1, t.char2, t.char3) ==>
              DigitCodes(chars, text, s) == DigitCodes(chars, text, t)
    ensures |text| == 1 ==> DigitCodes(chars, text, s)[1] == 0x01 && DigitCodes(chars, text, s)[2] == 0x01
  {
  }

  /** The payload with the three digit bytes written. */
  function WithDigits(p: seq<bv8>, d: seq<bv8>): (r: seq<bv8>)
    requires |p| == PAYLOAD_LEN && |d| == 3
  {
    p[DGT1_IDX := d[0]][DGT2_IDX := d[1]][DGT3_IDX := d[2]]
  }

  /** The LED writes to byte 3 in source order; each `uint8_t` flag is
      shifted into place and or-ed in. */
  function Byte3Leds(p: seq<bv8>, s: States): (r: seq<bv8>)
    requires |p| == PAYLOAD_LEN
  {
    var p1 := SetFlagLed(p, LCK_IDX, LCK_BIT, s.locked);
    var p2 := SetFlagLed(p1, TMRBTNLED_IDX, TMRBTNLED_BIT, s.timerbuttonled);
    var p3 := SetFlagLed(p2, TMR1_IDX, TMR1_BIT, s.timerled1);
    var p4 := SetFlagLed(p3, TMR2_IDX, TMR2_BIT, s.timerled2);
    var p5 := SetFlagLed(p4, REDHTR_IDX, REDHTR_BIT, s.heatred);
    var p6 := SetFlagLed(p5, GRNHTR_IDX, GRNHTR_BIT, s.heatgrn);
    SetFlagLed(p6, AIR_IDX, AIR_BIT, s.bubbles)
  }

  /** The LED writes to byte 4 in source order: C is the unit flag shifted
      in, F its negation. */
  function Byte4Leds(p: seq<bv8>, s: States): (r: seq<bv8>)
    requires |p| == PAYLOAD_LEN
  {
    var p1 := SetFlagLed(p, FLT_IDX, FLT_BIT, s.pump);
    var p2 := SetFlagLed(p1, C_IDX, C_BIT, s.unit);
    var p3 := SetLed(p2, F_IDX, F_BIT, s.unit == 0);
    var p4 := SetFlagLed(p3, PWR_IDX, PWR_BIT, s.power);
    SetFlagLed(p4, HJT_IDX, HJT_BIT, s.jets)
  }

  /** The LED writes of handleStates with the power on. */
  function WithLeds(p: seq<bv8>, s: States): (r: seq<bv8>)
    requires |p| == PAYLOAD_LEN
  {
    Byte4Leds(Byte3Leds(p, s), s)
  }

  /** The payload after handleStates: the digits, then the LEDs with the
      power on, or every byte cleared, the digits included, with it off. */
  function HandledPayload(chars: CharSet, p: seq<bv8>, s: States, text: string): (r: seq<bv8>)
    requires |p| == PAYLOAD_LEN
  {
    var d := WithDigits(p, DigitCodes(chars, text, s));
    if s.power != 0 then WithLeds(d, s) else ZERO_PAYLOAD
  }

  /** Byte 3 with the power on: bit 0 kept, then bubbles, red heater, green
      heater, timer button, lock and the first and second timer LEDs in bits
      1 to 7. */
  function StatusByte3(b: bv8, s: States): bv8
  {
    (b & 0x01) | BitOf(s.bubbles == 1, 1) | BitOf(s.heatred == 1, 2) | BitOf(s.heatgrn == 1, 3) |
    BitOf(s.timerbuttonled == 1, 4) | BitOf(s.locked == 1, 5) | BitOf(s.timerled1 == 1, 6) |
    BitOf(s.timerled2 == 1, 7)
  }

  /** Byte 4 with the power on: bits 5 to 7 kept, then C (unit 1, Celsius),
      F (unit 0), pump, power and jets in bits 0 to 4. */
  function StatusByte4(b: bv8, s: States): bv8
  {
    (b & 0xE0) | BitOf(s.unit == 1, 0) | BitOf(s.unit == 0, 1) | BitOf(s.pump == 1, 2) |
    BitOf(s.power == 1, 3) | BitOf(s.jets == 1, 4)
  }

  /** The byte-3 writes replace byte 3 alone. */
  lemma {:induction false} Byte3LedsByte(p: seq<bv8>, s: States)
    requires |p| == PAYLOAD_LEN
    ensures Byte3Leds(p, s) ==
              p[3 := OrFlag(OrFlag(OrFlag(OrFlag(OrFlag(OrFlag(OrFlag(p[3], 5, s.locked),
                        4, s.timerbuttonled), 6, s.timerled1), 7, s.timerled2), 2, s.heatred),
                        3, s.heatgrn), 1, s.bubbles)]
  {
    var x1 := OrFlag(p[3], 5, s.locked);
    var x2 := OrFlag(x1, 4, s.timerbuttonled);
    var x3 := OrFlag(x2, 6, s.timerled1);
    var x4 := OrFlag(x3, 7, s.timerled2);
    var x5 := OrFlag(x4, 2, s.heatred);
    var x6 := OrFlag(x5, 3, s.heatgrn);
    SetFlagLedAt(p, 3, x1, 4, s.timerbuttonled);
    SetFlagLedAt(p, 3, x2, 6, s.timerled1);
    SetFlagLedAt(p, 3, x3, 7, s.timerled2);
    SetFlagLedAt(p, 3, x4, 2, s.heatred);
    SetFlagLedAt(p, 3, x5, 3, s.heatgrn);
    SetFlagLedAt(p, 3, x6, 1, s.bubbles);
  }

  /** The byte-4 writes replace byte 4 alone. */
  lemma {:induction false} Byte4LedsByte(p: seq<bv8>, s: States)
    requires |p| == PAYLOAD_LEN
    ensures Byte4Leds(p, s) ==
              p[4 := OrFlag(OrFlag(SetBit(OrFlag(OrFlag(p[4], 2, s.pump), 0, s.unit),
                        1, s.unit == 0), 3, s.power), 4, s.jets)]
  {
    var y1 := OrFlag(p[4], 2, s.pump);
    var y2 := OrFlag(y1, 0, s.unit);
    var y3 := SetBit(y2, 1, s.unit == 0);
    var y4 := OrFlag(y3, 3, s.power);
    SetFlagLedAt(p, 4, y1, 0, s.unit);
    SetLedAt(p, 4, y2, 1, s.unit == 0);
    SetFlagLedAt(p, 4, y3, 3, s.power);
    SetFlagLedAt(p, 4, y4, 4, s.jets);
  }

  /** With 0/1 flags the seven writes to byte 3 give `StatusByte3`. */
  lemma Byte3Bits(b: bv8, s: States)
    requires FlagsAreBits(s)
    ensures OrFlag(OrFlag(OrFlag(OrFlag(OrFlag(OrFlag(OrFlag(b, 5, s.locked),
              4, s.timerbuttonled), 6, s.timerled1), 7, s.timerled2), 2, s.heatred),
              3, s.heatgrn), 1, s.bubbles) == StatusByte3(b, s)
  {
    Byte3FlagsAsBits(b, s);
    SetBitChain3(b, s);
  }

  /** With 0/1 flags each write to byte 3 is a `SetBit`. */
  lemma Byte3FlagsAsBits(b: bv8, s: States)
    requires FlagsAreBits(s)
    ensures OrFlag(OrFlag(OrFlag(OrFlag(OrFlag(OrFlag(OrFlag(b, 5, s.locked),
              4, s.timerbuttonled), 6, s.timerled1), 7, s.timerled2), 2, s.heatred),
              3, s.heatgrn), 1, s.bubbles) ==
            SetBit(SetBit(SetBit(SetBit(SetBit(SetBit(SetBit(b, 5, s.locked == 1),
              4, s.timerbuttonled == 1), 6, s.timerled1 == 1), 7, s.timerled2 == 1),
              2, s.heatred == 1), 3, s.heatgrn == 1), 1, s.bubbles == 1)
  {
    var x1 := OrFlag(b, 5, s.locked);
    var x2 := OrFlag(x1, 4, s.timerbuttonled);
    var x3 := OrFlag(x2, 6, s.timerled1);
    var x4 := OrFlag(x3, 7, s.timerled2);
    var x5 := OrFlag(x4, 2, s.heatred);
    var x6 := OrFlag(x5, 3, s.heatgrn);
    OrFlagIsSetBit(b, 5, s.locked);
    OrFlagIsSetBit(x1, 4, s.timerbuttonled);
    OrFlagIsSetBit(x2, 6, s.timerled1);
    OrFlagIsSetBit(x3, 7, s.timerled2);
    OrFlagIsSetBit(x4, 2, s.heatred);
    OrFlagIsSetBit(x5, 3, s.heatgrn);
    OrFlagIsSetBit(x6, 1, s.bubbles);
  }

  /** The seven `SetBit`s of byte 3 in source order give `StatusByte3`. */
  lemma SetBitChain3(b: bv8, s: States)
    ensures SetBit(SetBit(SetBit(SetBit(SetBit(SetBit(SetBit(b, 5, s.locked == 1),
              4, s.timerbuttonled == 1), 6, s.timerled1 == 1), 7, s.timerled2 == 1),
              2, s.heatred == 1), 3, s.heatgrn == 1), 1, s.bubbles == 1) == StatusByte3(b, s)
  {
  }

  /** With 0/1 flags and a 0/1 unit the five writes to byte 4 give
      `StatusByte4`. */
  lemma Byte4Bits(b: bv8, s: States)
    requires FlagsAreBits(s) && s.unit <= 1
    ensures OrFlag(OrFlag(SetBit(OrFlag(OrFlag(b, 2, s.pump), 0, s.unit),
              1, s.unit == 0), 3, s.power), 4, s.jets) == StatusByte4(b, s)
  {
    var y1 := OrFlag(b, 2, s.pump);
    var y2 := OrFlag(y1, 0, s.unit);
    var y3 := SetBit(y2, 1, s.unit == 0);
    var y4 := OrFlag(y3, 3, s.power);
    OrFlagIsSetBit(b, 2, s.pump);
    OrFlagIsSetBit(y1, 0, s.unit);
    OrFlagIsSetBit(y3, 3, s.power);
    OrFlagIsSetBit(y4, 4, s.jets);
    SetBitChain4(b, s);
  }

  /** The five `SetBit`s of byte 4 in source order give `StatusByte4`. */
  lemma SetBitChain4(b: bv8, s: States)
    ensures SetBit(SetBit(SetBit(SetBit(SetBit(b, 2, s.pump == 1), 0, s.unit == 1), 1, s.unit == 0),
              3, s.power == 1), 4, s.jets == 1) == StatusByte4(b, s)
  {
  }

  /** With the power on, 0/1 flags and a 0/1 unit every LED bit equals its
      flag (C for unit 1, F for unit 0), the other bits of bytes 3 and 4
      are kept, and the digits are `DigitCodes`. */
  lemma {:induction false} HandledPayloadPowerOn(chars: CharSet, p: seq<bv8>, s: States, text: string)
    requires |p| == PAYLOAD_LEN && s.power != 0 && FlagsAreBits(s) && s.unit <= 1
    ensures var r := HandledPayload(chars, p, s, text);
      |r| == 5 && r[..3] == DigitCodes(chars, text, s) &&
      r[3] == StatusByte3(p[3], s) && r[4] == StatusByte4(p[4], s)
  {
    var d := WithDigits(p, DigitCodes(chars, text, s));
    Byte3LedsByte(d, s);
    var q := Byte3Leds(d, s);
    Byte4LedsByte(q, s);
    Byte3Bits(d[3], s);
    Byte4Bits(q[4], s);
    var r := HandledPayload(chars, p, s, text);
    assert r[..3] == [r[0], r[1], r[2]];
  }

  /** With the power off the whole payload is zero, the digits just written
      included, so the display goes dark. */
  lemma HandledPayloadPowerOff(chars: CharSet, p: seq<bv8>, s: States, text: string)
    requires |p| == PAYLOAD_LEN && s.power == 0
    ensures forall i :: 0 <= i < 5 ==> HandledPayload(chars, p, s, text)[i] == 0
  {
  }

  /** The dimming byte as uploadPayload() computes it,
      `(CMD3 & 0xF8) | enableLED | brightness`, with `brightness` lowered
      by one when it is nonzero. */
  function DimByteAsWritten(b: u8): bv8
  {
    (CMD3 & 0xF8) | (if b > 0 then DSP_DIM_ON else 0) | (if b > 0 then (b - 1) as bv8 else 0)
  }

  /** CMD3 keeps its enable bit through the mask 0xF8, so brightness 0 sends
      0x88 with the display on, the same byte as brightness 1, where the
      TYPE1 displays send 0x80 and go dark; for every nonzero brightness the
      byte is the intended one. */
  lemma DimByteAsWrittenKeepsDisplayOn(b: u8)
    ensures DimByteAsWritten(0) == DimByteAsWritten(1) == 0x88
    ensures DimByteAsWritten(0) & DSP_DIM_ON != 0 && DimByte(0) & DSP_DIM_ON == 0
    ensures b > 0 ==> DimByteAsWritten(b) == DimByte(b)
  {
  }

  /** The frames uploadPayload sends: CMD1, then CMD2 with the payload,
      then the dimming byte as the program computes it (`DimByteAsWritten`). */
  function UploadFrames(payload: seq<bv8>, brightness: u8): (f: seq<seq<bv8>>)
  {
    [[CMD1], [CMD2] + payload, [DimByteAsWritten(brightness)]]
  }

  /** The frames carry the commands and the payload unchanged; the last
      frame always has the dimming base and enable bit set, brightness 0
      sending 0x88 like brightness 1, and levels 1 to 8 put `b - 1` in its
      low three bits, the intended byte for every nonzero brightness. */
  lemma UploadFramesContent(payload: seq<bv8>, b: u8)
    ensures var f := UploadFrames(payload, b);
      |f| == 3 && f[0] == [CMD1] && f[1][0] == CMD2 && f[1][1..] == payload && |f[2]| == 1 &&
      f[2][0] & 0x88 == 0x88 && (b == 0 ==> f[2][0] == 0x88) &&
      (b <= 8 ==> f[2][0] & 0xF8 == 0x88) &&
      (1 <= b <= 8 ==> f[2][0] & 0x07 == (b - 1) as bv8) &&
      (b > 0 ==> f[2][0] == DimByte(b))
  {
    DimByteAsWrittenKeepsDisplayOn(b);
    DimByteLevels(b);
  }

  /** `_button_codes` of the 54149E: one bit per button, none for NOBTN;
      POWER and HYDROJETS lie above the eight bits a read returns. */
  const BUTTON_CODES: seq<u16> := [0, 0x80, 0x40, 0x20, 0x10, 0x08, 0x04, 0x02, 0x01, 0x100, 0x200]

  /** The table entries, one by one, and the controller uses the same. */
  lemma ButtonCodesAre()
    ensures |BUTTON_CODES| == BTN_COUNT && BUTTON_CODES == VaCioType2.BUTTON_CODES
    ensures BUTTON_CODES[0] == 0 && BUTTON_CODES[1] == 0x80 && BUTTON_CODES[2] == 0x40
    ensures BUTTON_CODES[3] == 0x20 && BUTTON_CODES[4] == 0x10 && BUTTON_CODES[5] == 0x08
    ensures BUTTON_CODES[6] == 0x04 && BUTTON_CODES[7] == 0x02 && BUTTON_CODES[8] == 0x01
    ensures BUTTON_CODES[9] == 0x100 && BUTTON_CODES[10] == 0x200
  {
  }

  /** buttonCodeToIndex() of an eight-bit read is never POWER or HYDROJETS:
      their codes lie above the low byte. */
  lemma {:induction false} EightBitButtons(code: bv8)
    ensures CioType1.ButtonOfCode(BUTTON_CODES, FromBits(code)) < POWER
  {
    var v: u16 := FromBits(code);
    var i := FirstIndex(BUTTON_CODES, v);
    ButtonCodesAre();
    if i < BTN_COUNT {
      assert BUTTON_CODES[i] == v < 256;
      assert i != POWER && i != HYDROJETS;
    }
    assert CioType1.ButtonOfCode(BUTTON_CODES, v) == if i < BTN_COUNT then i else NOBTN;
  }

  /** Every other button is read back from its own code, which fits in
      eight bits. */
  lemma {:induction false} ButtonCodeToIndexRoundTrip(b: Button)
    requires b < POWER
    ensures BUTTON_CODES[b] < 256
    ensures CioType1.ButtonOfCode(BUTTON_CODES, CioType1.ButtonCodeOf(BUTTON_CODES, b)) == b
  {
    ButtonCodesAre();
    CioType1.ButtonCodeRoundTrip(BUTTON_CODES, b);
  }

  /** The button an eight-bit read `bits` stands for: buttonCodeToIndex()
      of the code the bits make up. */
  function ButtonRead(bits: seq<bool>): (b: Button)
    requires |bits| == 8
    ensures b < POWER
  {
    EightBitButtons(VaCioType2.CommandOf(bits));
    CioType1.ButtonOfCode(BUTTON_CODES, FromBits(VaCioType2.CommandOf(bits)))
  }

  /** The eight TD bits of a button read, least significant first:
      `newButtonCode |= bit << i`. */
  method ReceiveCode(bits: seq<bool>) returns (code: bv8)
    requires |bits| == 8
    ensures code == VaCioType2.CommandOf(bits)
  {
    code := 0;
    for i := 0 to 8
      invariant code == VaCioType2.CommandOf(bits[..i])
    {
      assert bits[..i + 1][..i] == bits[..i];
      code := code | BitOf(bits[i], i);
    }
    assert bits[..8] == bits;
  }

  /** The debounce step on a button read: the pair (previous read, reported
      button) after reading `read`. */
  function Debounce(prev: Button, reported: Button, read: Button): (r: (Button, Button))
  {
    if read == prev then (prev, read) else (read, reported)
  }

  /** The read always becomes the previous read; the reported button
      changes only when the read repeats the previous one; and two equal
      reads in a row make it the reported button. */
  lemma DebounceTwoReads(prev: Button, reported: Button, read: Button)
    ensures Debounce(prev, reported, read).0 == read
    ensures Debounce(prev, reported, read).1 != reported ==> read == prev
    ensures var r := Debounce(prev, reported, read); Debounce(r.0, r.1, read).1 == read
  {
  }

  class DspType2 {
    const chars: CharSet
    const payload: array<bv8>
    const rawPayloadFromDsp: array<bv8>
    var states: States
    var text: string
    var audioFrequency: int
    var goodPacketsCount: nat
    var enabledButtons: seq<bool>
    var lastRefreshTime: u32
    var getButtonLastTime: u32
    var oldButton: Button
    var prevButton: Button

    /** A 5-byte payload and a distinct 2-byte button buffer, and only
        buttons an eight-bit read can produce remembered. */
    ghost predicate Valid()
      reads this
    {
      payload.Length == PAYLOAD_LEN && rawPayloadFromDsp.Length == 2 &&
      payload != rawPayloadFromDsp && oldButton < POWER && prevButton < POWER
    }

    /** The member initialisers, then a zeroed payload; the button buffer
        is left uninitialised. */
    constructor(chars: CharSet)
      ensures Valid() && fresh(payload) && fresh(rawPayloadFromDsp) && this.chars == chars
      ensures payload[..] == ZERO_PAYLOAD
      ensures states == DefaultStates && text == "" && audioFrequency == 0
      ensures goodPacketsCount == 0 && enabledButtons == seq(BTN_COUNT, _ => true)
      ensures lastRefreshTime == 0 && getButtonLastTime == 0
      ensures oldButton == NOBTN && prevButton == NOBTN
    {
      var zeroed := new bv8[PAYLOAD_LEN];
      for i := 0 to PAYLOAD_LEN
        invariant forall j :: 0 <= j < i ==> zeroed[j] == 0
      {
        zeroed[i] := 0;
      }
      assert zeroed[..] == ZERO_PAYLOAD;
      this.chars := chars;
      payload := zeroed;
      rawPayloadFromDsp := new bv8[2];
      states := DefaultStates;
      text := "";
      audioFrequency := 0;
      goodPacketsCount := 0;
      enabledButtons := seq(BTN_COUNT, _ => true);
      lastRefreshTime := 0;
      getButtonLastTime := 0;
      oldButton := NOBTN;
      prevButton := NOBTN;
    }

    /** clearpayload(): every byte zeroed. */
    method ClearPayload()
      requires Valid()
      modifies payload
      ensures payload[..] == ZERO_PAYLOAD
    {
      for i := 0 to PAYLOAD_LEN
        invariant forall j :: 0 <= j < i ==> payload[j] == 0
      {
        payload[i] := 0;
      }
      assert payload[..] == ZERO_PAYLOAD;
    }

    /** The digit writes of handleStates. */
    method WriteDigits()
      requires Valid()
      modifies payload
      ensures payload[..] == WithDigits(old(payload[..]), DigitCodes(chars, text, states))
    {
      var d1, d2, d3: bv8 := 0x01, 0x01, 0x01;
      if |text| > 0 {
        d1 := CharTo7SegCode(chars, text[0]);
        if |text| > 1 {
          d2 := CharTo7SegCode(chars, text[1]);
        }
        if |text| > 2 {
          d3 := CharTo7SegCode(chars, text[2]);
        }
      } else {
        d1 := CharTo7SegCode(chars, states.char1 as char);
        d2 := CharTo7SegCode(chars, states.char2 as char);
        d3 := CharTo7SegCode(chars, states.char3 as char);
      }
      payload[DGT1_IDX] := d1;
      payload[DGT2_IDX] := d2;
      payload[DGT3_IDX] := d3;
    }

    /** The LED writes of handleStates with the power on. */
    method WriteLeds()
      requires Valid()
      modifies payload
      ensures payload[..] == WithLeds(old(payload[..]), states)
    {
      var s := states;
      payload[LCK_IDX] := OrFlag(payload[LCK_IDX], LCK_BIT, s.locked);
      payload[TMRBTNLED_IDX] := OrFlag(payload[TMRBTNLED_IDX], TMRBTNLED_BIT, s.timerbuttonled);
      payload[TMR1_IDX] := OrFlag(payload[TMR1_IDX], TMR1_BIT, s.timerled1);
      payload[TMR2_IDX] := OrFlag(payload[TMR2_IDX], TMR2_BIT, s.timerled2);
      payload[REDHTR_IDX] := OrFlag(payload[REDHTR_IDX], REDHTR_BIT, s.heatred);
      payload[GRNHTR_IDX] := OrFlag(payload[GRNHTR_IDX], GRNHTR_BIT, s.heatgrn);
      payload[AIR_IDX] := OrFlag(payload[AIR_IDX], AIR_BIT, s.bubbles);
      payload[FLT_IDX] := OrFlag(payload[FLT_IDX], FLT_BIT, s.pump);
      payload[C_IDX] := OrFlag(payload[C_IDX], C_BIT, s.unit);
      payload[F_IDX] := SetBit(payload[F_IDX], F_BIT, s.unit == 0);
      payload[PWR_IDX] := OrFlag(payload[PWR_IDX], PWR_BIT, s.power);
      payload[HJT_IDX] := OrFlag(payload[HJT_IDX], HJT_BIT, s.jets);
    }

    /** uploadPayload(brightness) at time `now`: nothing within 100 ms of the
        last upload; otherwise the time is recorded and the three frames are
        sent. */
    method UploadPayload(brightness: u8, now: u32) returns (sent: seq<seq<bv8>>)
      requires Valid()
      modifies this`lastRefreshTime
      ensures Elapsed(now, old(lastRefreshTime)) < REFRESH_INTERVAL ==>
                sent == [] && lastRefreshTime == old(lastRefreshTime)
      ensures Elapsed(now, old(lastRefreshTime)) >= REFRESH_INTERVAL ==>
                sent == UploadFrames(payload[..], brightness) && lastRefreshTime == now
    {
      if Elapsed(now, lastRefreshTime) < REFRESH_INTERVAL {
        return [];
      }
      lastRefreshTime := now;
      sent := UploadFrames(payload[..], brightness);
    }

    /** handleStates() at time `now`: the payload follows `HandledPayload`
        and is uploaded unless the last upload is under 100 ms old. */
    method HandleStates(now: u32) returns (sent: seq<seq<bv8>>)
      requires Valid()
      modifies payload, this`lastRefreshTime
      ensures payload[..] == HandledPayload(chars, old(payload[..]), states, text)
      ensures Elapsed(now, old(lastRefreshTime)) < REFRESH_INTERVAL ==>
                sent == [] && lastRefreshTime == old(lastRefreshTime)
      ensures Elapsed(now, old(lastRefreshTime)) >= REFRESH_INTERVAL ==>
                sent == UploadFrames(payload[..], states.brightness) && lastRefreshTime == now
    {
      WriteDigits();
      if states.power != 0 {
        WriteLeds();
      } else {
        ClearPayload();
      }
      sent := UploadPayload(states.brightness, now);
    }

    /** The two halves of the 16-bit word holding the eight bits read: the
        high half is always 0. */
    method StoreRaw(code: bv8)
      requires Valid()
      modifies rawPayloadFromDsp
      ensures rawPayloadFromDsp[..] == [0, code]
    {
      var w: bv16 := code as bv16;
      rawPayloadFromDsp[0] := (w >> 8) as bv8;
      rawPayloadFromDsp[1] := (w & 0xFF) as bv8;
      assert rawPayloadFromDsp[..] == [rawPayloadFromDsp[0], rawPayloadFromDsp[1]];
    }

    /** The bookkeeping of a read of `code`: counted as a good packet (an
        eight-bit code is never 0xFFFF) and stored in halves. */
    method CountAndStore(code: bv8)
      requires Valid()
      modifies this`goodPacketsCount, rawPayloadFromDsp
      ensures goodPacketsCount == old(goodPacketsCount) + 1
      ensures rawPayloadFromDsp[..] == [0, code]
    {
      var good := goodPacketsCount;
      if FromBits(code) != 0xFFFF {
        good := good + 1;
      }
      goodPacketsCount := good;
      StoreRaw(code);
    }

    /** The read of getPressedButton(), with `bits` the eight TD levels
        clocked in: the code is counted, stored and looked up. */
    method ReadButton(bits: seq<bool>) returns (newButton: Button)
      requires Valid() && |bits| == 8
      modifies this`goodPacketsCount, rawPayloadFromDsp
      ensures goodPacketsCount == old(goodPacketsCount) + 1
      ensures rawPayloadFromDsp[..] == [0, VaCioType2.CommandOf(bits)]
      ensures Valid() && newButton == ButtonRead(bits)
    {
      var code := ReceiveCode(bits);
      CountAndStore(code);
      newButton := CioType1.ButtonFromCode(BUTTON_CODES, FromBits(code));
      EightBitButtons(code);
    }

    /** The debounce of getPressedButton(): a button read twice in a row
        becomes the reported one, a different one is only remembered; the
        reported button is returned. */
    method DebounceButton(newButton: Button) returns (b: Button)
      requires Valid() && newButton < POWER
      modifies this`oldButton, this`prevButton
      ensures Valid()
      ensures (prevButton, oldButton) == Debounce(old(prevButton), old(oldButton), newButton)
      ensures b == oldButton
    {
      if newButton == prevButton {
        oldButton := newButton;
      } else {
        prevButton := newButton;
      }
      b := oldButton;
    }

    /** getPressedButton() past its 20 ms throttle: read, then debounce. */
    method ReadAndDebounce(bits: seq<bool>) returns (b: Button)
      requires Valid() && |bits| == 8
      modifies this`oldButton, this`prevButton, this`goodPacketsCount, rawPayloadFromDsp
      ensures Valid() && b == oldButton
      ensures goodPacketsCount == old(goodPacketsCount) + 1
      ensures rawPayloadFromDsp[..] == [0, VaCioType2.CommandOf(bits)]
      ensures (prevButton, oldButton) == Debounce(old(prevButton), old(oldButton), ButtonRead(bits))
    {
      var newButton := ReadButton(bits);
      ghost var raw := rawPayloadFromDsp[..];
      ghost var good := goodPacketsCount;
      assert newButton == ButtonRead(bits) && raw == [0, VaCioType2.CommandOf(bits)];
      b := DebounceButton(newButton);
      assert rawPayloadFromDsp[..] == raw && goodPacketsCount == good;
    }

    /** getPressedButton() at time `now`: within 20 ms of the last read the
        reported button and nothing else changed; otherwise the read time is
        recorded and the button is read and debounced. */
    method GetPressedButton(now: u32, bits: seq<bool>) returns (b: Button)
      requires Valid() && |bits| == 8
      modifies this`getButtonLastTime, this`oldButton, this`prevButton, this`goodPacketsCount,
               rawPayloadFromDsp
      ensures Valid() && b == oldButton && b < POWER
      ensures Elapsed(now, old(getButtonLastTime)) < BUTTON_POLL_INTERVAL ==>
                oldButton == old(oldButton) && prevButton == old(prevButton) &&
                getButtonLastTime == old(getButtonLastTime) &&
                goodPacketsCount == old(goodPacketsCount) &&
                rawPayloadFromDsp[..] == old(rawPayloadFromDsp[..])
      ensures Elapsed(now, old(getButtonLastTime)) >= BUTTON_POLL_INTERVAL ==>
                getButtonLastTime == now && goodPacketsCount == old(goodPacketsCount) + 1 &&
                rawPayloadFromDsp[..] == [0, VaCioType2.CommandOf(bits)] &&
                (prevButton, oldButton) ==
                  Debounce(old(prevButton), old(oldButton),
                           ButtonRead(bits))
    {
      if Elapsed(now, getButtonLastTime) < BUTTON_POLL_INTERVAL {
        return oldButton;
      }
      getButtonLastTime := now;
      b := ReadAndDebounce(bits);
    }
  }
}
