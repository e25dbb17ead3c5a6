/** The display side of the 6-wire TYPE1 bus (`dsp_type1.cpp/.h`): the
    driver clocks a mode command, a write command, the 11-byte LED/digit
    payload and a dimming byte out to the display board, and polls the
    16-bit button word back. The clock is an explicit `now` parameter, and
    the sampled data levels of a button read are an input sequence. The
    7-segment table, the payload layout, the command bytes and the default
    button codes are the same as on the controller side (`cio_type1.h`),
    so those of `CioType1` are used. */
module DspType1 {
  import opened Bytes
  import opened Lookup
  import opened SpaStates
  import opened DisplayPayload
  import CioType1

  /** `DSPStates`. `unit` is true for Celsius. */
  datatype DspStates = DspStates(
    locked: bool, power: bool, unit: bool, bubbles: bool, heatgrn: bool, heatred: bool,
    pump: bool, jets: bool, timerled1: bool, timerled2: bool, timerbuttonled: bool,
    brightness: u8, char1: char, char2: char, char3: char)

  /** The member initialisers of `DSPStates`. */
  const DefaultDspStates: DspStates :=
    DspStates(false, true, true, false, false, false, false, false, false, false, false,
              7, ' ', ' ', ' ')

  /** The member initialiser of `payload_`. */
  const PAYLOAD_INITIALISER: seq<bv8> := [0x01, 0, 0, 0, 0, 0, 0, 0, 0, 0, 0]

  /** The least time between two uploads and between two button polls, in ms. */
  const REFRESH_INTERVAL: int := 50
  const BUTTON_POLL_INTERVAL: int := 90

  /** `CHARCODES[i]` of the display driver: the same 38 segment patterns
      as the controller's table, as the bytes written to the payload. */
  function CodeByte(i: nat): (r: bv8)
    requires i < 38
    ensures r as int == CioType1.CharCode(i)
  {
    match i
    case 0 => 0x7F case 1 => 0x0D case 2 => 0xB7 case 3 => 0x9F case 4 => 0xCD
    case 5 => 0xDB case 6 => 0xFB case 7 => 0x0F case 8 => 0xFF case 9 => 0xDF
    case 10 => 0xEF case 11 => 0xF9 case 12 => 0x73 case 13 => 0xBD case 14 => 0xF3
    case 15 => 0xE3 case 16 => 0x7B case 17 => 0xE9 case 18 => 0x09 case 19 => 0x3D
    case 20 => 0xE1 case 21 => 0x71 case 22 => 0x49 case 23 => 0xA9 case 24 => 0xB9
    case 25 => 0xE7 case 26 => 0xCF case 27 => 0xA1 case 28 => 0xDB case 29 => 0xF1
    case 30 => 0x7D case 31 => 0x7D case 32 => 0x7D case 33 => 0xED case 34 => 0xDD
    case 35 => 0xB7 case 36 => 0x00 case _ => 0x80
  }

  /** `CHARS[i]` for the 39 positions `sizeof(CHARS)` covers: the digits,
      the letters, space, dash and the terminating NUL. */
  function CharAt(i: nat): char
    requires i < 39
  {
    if i < 10 then ('0' as int + i) as char
    else if i < 36 then ('A' as int + i - 10) as char
    else if i == 36 then ' ' else if i == 37 then '-' else '\0'
  }

  /** The literal holds exactly those characters. */
  lemma CharsAt()
    ensures |CioType1.CHARS| == 38
    ensures forall i :: 0 <= i < 38 ==> CioType1.CHARS[i] == CharAt(i)
  {
  }

  /** The first position from `i` on whose character is `c`, or 39. */
  function Scan(c: char, i: nat): nat
    requires i <= 39
    decreases 39 - i
  {
    if i == 39 then 39 else if CharAt(i) == c then i else Scan(c, i + 1)
  }

  /** The scan stops at the first match from `i` on, and at 39 only when
      there is none. */
  lemma {:induction false} ScanFirst(c: char, i: nat)
    requires i <= 39
    ensures i <= Scan(c, i) <= 39
    ensures Scan(c, i) < 39 ==> CharAt(Scan(c, i)) == c
    ensures forall j :: i <= j < Scan(c, i) ==> CharAt(j) != c
    decreases 39 - i
  {
    if i < 39 && CharAt(i) != c {
      ScanFirst(c, i + 1);
    }
  }

  /** The position of `c` in `CHARS`, or 38, by arithmetic on the character. */
  function CharPos(c: char): (i: nat)
    ensures i <= 38
  {
    if '0' <= c <= '9' then c as int - '0' as int
    else if 'A' <= c <= 'Z' then c as int - 'A' as int + 10
    else if c == ' ' then 36
    else if c == '-' then 37
    else 38
  }

  /** `CharPos` inverts `CharAt` on the 38 characters and finds nothing
      for any other character. */
  lemma CharPosOfCharAt(c: char)
    ensures CharPos(c) < 38 ==> CharAt(CharPos(c)) == c
    ensures forall j :: 0 <= j < 38 ==> CharPos(CharAt(j)) == j
  {
  }

  /** The scan over `CHARS` stops where `CharPos` points: the characters
      are distinct, so the one match is the first; NUL stops it at the
      terminator, and any other character runs it off the end. */
  lemma {:induction false} ScanIsCharPos(c: char)
    ensures Scan(c, 0) == if c == '\0' then 38 else if CharPos(c) < 38 then CharPos(c) else 39
  {
    ScanFirst(c, 0);
    CharPosOfCharAt(c);
    var r := Scan(c, 0);
    if r < 38 {
      assert CharPos(CharAt(r)) == r && CharAt(r) != '\0';
    } else if r == 38 {
      assert CharAt(38) == c;
    } else {
      assert CharAt(38) != c;
    }
  }

  /** What the scan of char_to_7seg_code reads: a code of the table, or the
      byte just past the 38-entry `CHARCODES`. */
  datatype Fetch = Code(code: bv8) | PastTable

  /** char_to_7seg_code(c) as written: the scan runs over all
      `sizeof(CHARS)` = 39 positions, so the NUL at position 38 matches
      `c == '\0'` and `CHARCODES[38]`, one past the table, is read. */
  function CharTo7SegAsWritten(c: char): Fetch
  {
    var i := Scan(c, 0);
    if i < 38 then Code(CodeByte(i))
    else if i == 38 then PastTable
    else Code(0)
  }

  /** The NUL character makes the scan read past the table. */
  lemma NulReadsPastTable()
    ensures CharTo7SegAsWritten('\0') == PastTable
  {
    ScanIsCharPos('\0');
  }

  /** char_to_7seg_code(c) with the scan kept inside the 38 entries: the code
      of the first matching character, and 0x00 (blank) for any other. */
  function CharTo7Seg(c: char): bv8
  {
    var i := Scan(c, 0);
    if i < 38 then CodeByte(i) else 0
  }

  /** For every character but NUL the code as written and the bounded scan
      agree, so the bound changes nothing else; a character outside `CHARS`
      is blank. */
  lemma AsWrittenAgreesOffNul(c: char)
    requires c != '\0'
    ensures CharTo7SegAsWritten(c) == Code(CharTo7Seg(c))
    ensures c !in CioType1.CHARS ==> CharTo7Seg(c) == 0
  {
    ScanIsCharPos(c);
    CharsAt();
    CharPosOfCharAt(c);
  }

  /** Each character of `CHARS` is encoded with its own code. */
  lemma {:induction false} CharTo7SegOfChar(k: nat)
    requires k < 38
    ensures CharTo7Seg(CioType1.CHARS[k]) == CodeByte(k)
  {
    CharsAt();
    CharPosOfCharAt(CharAt(k));
    ScanIsCharPos(CharAt(k));
  }

  /** char_to_7seg_code() as its loop runs, bounded to the table. */
  method CharTo7SegCode(c: char) returns (code: bv8)
    ensures code == CharTo7Seg(c)
  {
    var i := 0;
    while i < 38 && CharAt(i) != c
      invariant i <= 38 && Scan(c, i) == Scan(c, 0)
    {
      i := i + 1;
    }
    code := if i < 38 then CodeByte(i) else 0;
  }

  /** Encoding on the display side and decoding with the controller's
      get_char (same table, bit 0 ignored) gives back every character but
      'S', 'V', 'W' and 'Z'. */
  lemma {:induction false} EncodeDecodeRoundTrip(k: nat)
    requires k < 38 && k != 28 && k != 31 && k != 32 && k != 35
    ensures CioType1.GetChar(CharTo7Seg(CioType1.CHARS[k])) == CioType1.CHARS[k]
  {
    CharTo7SegOfChar(k);
    CioType1.GetCharOfCode(k, CodeByte(k));
  }

  /** A character whose code is also that of the character at `e` is read
      back as that character. */
  lemma {:induction false} DecodesAsSameCode(k: nat, e: nat)
    requires k < 38 && e < 38 && e != 28 && e != 31 && e != 32 && e != 35
    requires CioType1.CharCode(k) == CioType1.CharCode(e)
    ensures CioType1.GetChar(CharTo7Seg(CharAt(k))) == CharAt(e)
  {
    CharsAt();
    CharTo7SegOfChar(k);
    CioType1.GetCharOfCode(e, CodeByte(k));
  }

  /** The four characters whose code an earlier character shares come back
      as that character: 'S' as '5', 'V' and 'W' as 'U', 'Z' as '2'. */
  lemma {:induction false} ShadowedCharsDecodeAs(c: char)
    requires c == 'S' || c == 'V' || c == 'W' || c == 'Z'
    ensures CioType1.GetChar(CharTo7Seg(c)) == if c == 'S' then '5' else if c == 'Z' then '2' else 'U'
  {
    if c == 'S' {
      DecodesAsSameCode(28, 5);
      assert CharAt(28) == c;
    } else if c == 'V' {
      DecodesAsSameCode(31, 30);
      assert CharAt(31) == c;
    } else if c == 'W' {
      DecodesAsSameCode(32, 30);
      assert CharAt(32) == c;
    } else {
      DecodesAsSameCode(35, 2);
      assert CharAt(35) == c;
    }
  }

  /** With the default codes, button_code_to_index reads NOBTN exactly for
      the NOBTN code and for codes no button has, and 0x0000 (shared by
      POWER and HYDROJETS) as POWER. */
  lemma {:induction false} DefaultButtonLookup(code: u16)
    ensures CioType1.ButtonOfCode(CioType1.DEFAULT_BUTTON_CODES, code) == NOBTN <==>
              code == 0x1B1B || code !in CioType1.DEFAULT_BUTTON_CODES
    ensures CioType1.ButtonOfCode(CioType1.DEFAULT_BUTTON_CODES, 0) == POWER
  {
    var t := CioType1.DEFAULT_BUTTON_CODES;
    assert t[0] == 0x1B1B && t[1] == 0x0200 && t[2] == 0x0100 && t[3] == 0x0300 && t[4] == 0x1012;
    assert t[5] == 0x1212 && t[6] == 0x1112 && t[7] == 0x1312 && t[8] == 0x0809 && t[9] == 0x0000;
    FirstIndexOfDistinct(t, POWER);
    var i := FirstIndex(t, code);
    if i < BTN_COUNT && i != 0 {
      assert t[i] == code;
    }
  }

  /** The three digit bytes handle_states writes: from the text while one is
      set, 0x01 for a missing second or third character, else from the
      state characters. */
  function DigitCodes(text: string, s: DspStates): (d: seq<bv8>)
    ensures |d| == 3
  {
    if |text| > 0 then
      [CharTo7Seg(text[0]),
       if |text| > 1 then CharTo7Seg(text[1]) else 0x01,
       if |text| > 2 then CharTo7Seg(text[2]) else 0x01]
    else [CharTo7Seg(s.char1), CharTo7Seg(s.char2), CharTo7Seg(s.char3)]
  }

  /** A text of three or more characters hides the state characters, and
      without a text the digits follow the state characters alone. */
  lemma DigitSources(text: string, s: DspStates, t: DspStates)
    ensures |text| >= 3 ==> DigitCodes(text, s) == DigitCodes(text, t)
    ensures |text| == 0 && (s.char1, s.char2, s.char3) == (t.char1, t.char2, t.char3) ==>
              DigitCodes(text, s) == DigitCodes(text, t)
    ensures |text| == 1 ==> DigitCodes(text, s)[1] == 0x01 && DigitCodes(text, s)[2] == 0x01
  {
  }

  /** The payload with the three digit bytes written. */
  function WithDigits(p: seq<bv8>, d: seq<bv8>): (r: seq<bv8>)
    requires |p| == CioType1.PAYLOAD_LEN && |d| == 3
  {
    p[CioType1.DGT1_IDX := d[0]][CioType1.DGT2_IDX := d[1]][CioType1.DGT3_IDX := d[2]]
  }

  /** The first LED writes of handle_states: lock, timer button and the
      two timer LEDs, all in byte 7. */
  function TimerLeds(p: seq<bv8>, s: DspStates): (r: seq<bv8>)
    requires |p| == CioType1.PAYLOAD_LEN
  {
    var p1 := SetLed(p, CioType1.LCK_IDX, CioType1.LCK_BIT, s.locked);
    var p2 := SetLed(p1, CioType1.TMRBTNLED_IDX, CioType1.TMRBTNLED_BIT, s.timerbuttonled);
    var p3 := SetLed(p2, CioType1.TMR1_IDX, CioType1.TMR1_BIT, s.timerled1);
    SetLed(p3, CioType1.TMR2_IDX, CioType1.TMR2_BIT, s.timerled2)
  }

  /** The next LED writes: the two heater LEDs, bubbles and filter pump,
      all in byte 9. */
  function HeaterLeds(p: seq<bv8>, s: DspStates): (r: seq<bv8>)
    requires |p| == CioType1.PAYLOAD_LEN
  {
    var p1 := SetLed(p, CioType1.REDHTR_IDX, CioType1.REDHTR_BIT, s.heatred);
    var p2 := SetLed(p1, CioType1.GRNHTR_IDX, CioType1.GRNHTR_BIT, s.heatgrn);
    var p3 := SetLed(p2, CioType1.AIR_IDX, CioType1.AIR_BIT, s.bubbles);
    SetLed(p3, CioType1.FLT_IDX, CioType1.FLT_BIT, s.pump)
  }

  /** The last LED writes: C (Celsius), F, power and jets. */
  function UnitLeds(p: seq<bv8>, s: DspStates): (r: seq<bv8>)
    requires |p| == CioType1.PAYLOAD_LEN
  {
    var p1 := SetLed(p, CioType1.C_IDX, CioType1.C_BIT, s.unit);
    var p2 := SetLed(p1, CioType1.F_IDX, CioType1.F_BIT, !s.unit);
    var p3 := SetLed(p2, CioType1.PWR_IDX, CioType1.PWR_BIT, s.power);
    SetLed(p3, CioType1.HJT_IDX, CioType1.HJT_BIT, s.jets)
  }

  /** The LED writes of handle_states with the power on, in source order;
      the C LED shares its bit with the second timer LED and is written
      after it. */
  function WithLeds(p: seq<bv8>, s: DspStates): (r: seq<bv8>)
    requires |p| == CioType1.PAYLOAD_LEN
  {
    UnitLeds(HeaterLeds(TimerLeds(p, s), s), s)
  }

  /** The payload after handle_states: the digits, then the LEDs with the
      power on, or everything but the command byte cleared with it off. */
  function HandledPayload(p: seq<bv8>, s: DspStates, text: string): (r: seq<bv8>)
    requires |p| == CioType1.PAYLOAD_LEN
  {
    var d := WithDigits(p, DigitCodes(text, s));
    if s.power then WithLeds(d, s) else Cleared(d)
  }

  /** Status byte 7 with the power on: the C LED (Celsius) in bit 0, where
      the second timer LED would go, the first timer LED, the lock and the
      timer button in bits 1 to 3, the upper half kept. */
  function StatusByte7(b: bv8, s: DspStates): bv8
  {
    (b & 0xF0) | BitOf(s.unit, 0) | BitOf(s.timerled1, 1) | BitOf(s.locked, 2) |
    BitOf(s.timerbuttonled, 3)
  }

  /** Status byte 9 with the power on: green heater, bubbles, pump, red
      heater, the F LED (not Celsius), power and jets in bits 0 to 6, bit 7 kept. */
  function StatusByte9(b: bv8, s: DspStates): bv8
  {
    (b & 0x80) | BitOf(s.heatgrn, 0) | BitOf(s.bubbles, 1) | BitOf(s.pump, 2) |
    BitOf(s.heatred, 3) | BitOf(!s.unit, 4) | BitOf(s.power, 5) | BitOf(s.jets, 6)
  }

  /** The five writes to byte 7 in order give `StatusByte7`. */
  lemma Byte7Writes(b: bv8, s: DspStates)
    ensures SetBit(SetBit(SetBit(SetBit(SetBit(b, 2, s.locked), 3, s.timerbuttonled),
              1, s.timerled1), 0, s.timerled2), 0, s.unit) == StatusByte7(b, s)
  {
  }

  /** The seven writes to byte 9 in order give `StatusByte9`. */
  lemma Byte9Writes(b: bv8, s: DspStates)
    ensures SetBit(SetBit(SetBit(SetBit(SetBit(SetBit(SetBit(b, 3, s.heatred), 0, s.heatgrn),
              1, s.bubbles), 2, s.pump), 4, !s.unit), 5, s.power), 6, s.jets) == StatusByte9(b, s)
  {
  }

  /** The LED writes touch bytes 7 and 9 only, and leave them as
      `StatusByte7` and `StatusByte9`. */
  lemma {:induction false} WithLedsBytes(p: seq<bv8>, s: DspStates)
    requires |p| == CioType1.PAYLOAD_LEN
    ensures WithLeds(p, s) == p[7 := StatusByte7(p[7], s)][9 := StatusByte9(p[9], s)]
  {
    var x4 := SetBit(SetBit(SetBit(SetBit(p[7], 2, s.locked), 3, s.timerbuttonled), 1, s.timerled1),
                     0, s.timerled2);
    TimerLedsByte(p, s);
    var q := p[7 := x4];
    var y4 := SetBit(SetBit(SetBit(SetBit(p[9], 3, s.heatred), 0, s.heatgrn), 1, s.bubbles), 2, s.pump);
    HeaterLedsByte(q, s);
    assert HeaterLeds(q, s) == p[7 := x4][9 := y4];
    UnitLedsBytes(p, x4, y4, s);
    Byte7Writes(p[7], s);
    Byte9Writes(p[9], s);
  }

  /** The timer LED writes replace byte 7 alone. */
  lemma {:induction false} TimerLedsByte(p: seq<bv8>, s: DspStates)
    requires |p| == CioType1.PAYLOAD_LEN
    ensures TimerLeds(p, s) ==
              p[7 := SetBit(SetBit(SetBit(SetBit(p[7], 2, s.locked), 3, s.timerbuttonled),
                                   1, s.timerled1), 0, s.timerled2)]
  {
    var x1 := SetBit(p[7], 2, s.locked);
    var x2 := SetBit(x1, 3, s.timerbuttonled);
    var x3 := SetBit(x2, 1, s.timerled1);
    SetLedAt(p, 7, x1, 3, s.timerbuttonled);
    SetLedAt(p, 7, x2, 1, s.timerled1);
    SetLedAt(p, 7, x3, 0, s.timerled2);
  }

  /** The heater, bubbles and pump LED writes replace byte 9 alone. */
  lemma {:induction false} HeaterLedsByte(p: seq<bv8>, s: DspStates)
    requires |p| == CioType1.PAYLOAD_LEN
    ensures HeaterLeds(p, s) ==
              p[9 := SetBit(SetBit(SetBit(SetBit(p[9], 3, s.heatred), 0, s.heatgrn),
                                   1, s.bubbles), 2, s.pump)]
  {
    var y1 := SetBit(p[9], 3, s.heatred);
    var y2 := SetBit(y1, 0, s.heatgrn);
    var y3 := SetBit(y2, 1, s.bubbles);
    SetLedAt(p, 9, y1, 0, s.heatgrn);
    SetLedAt(p, 9, y2, 1, s.bubbles);
    SetLedAt(p, 9, y3, 2, s.pump);
  }

  /** The unit, power and jets writes: bit 0 of byte 7, then bits 4 to 6
      of byte 9. */
  lemma {:induction false} UnitLedsBytes(p: seq<bv8>, x: bv8, y: bv8, s: DspStates)
    requires |p| == CioType1.PAYLOAD_LEN
    ensures UnitLeds(p[7 := x][9 := y], s) ==
              p[7 := SetBit(x, 0, s.unit)][9 := SetBit(SetBit(SetBit(y, 4, !s.unit), 5, s.power), 6, s.jets)]
  {
    var r := p[7 := SetBit(x, 0, s.unit)];
    var y5 := SetBit(y, 4, !s.unit);
    var y6 := SetBit(y5, 5, s.power);
    SetLedPast(p, 7, x, 9, y, 0, s.unit);
    SetLedAt(r, 9, y, 4, !s.unit);
    SetLedAt(r, 9, y5, 5, s.power);
    SetLedAt(r, 9, y6, 6, s.jets);
  }

  /** With the power on every LED bit equals its flag (C = unit, F = not
      unit), the other bits of bytes 7 and 9 and every other byte but the
      digits are kept, and the digits are `DigitCodes`. */
  lemma {:induction false} HandledPayloadPowerOn(p: seq<bv8>, s: DspStates, text: string)
    requires |p| == CioType1.PAYLOAD_LEN && s.power
    ensures var r := HandledPayload(p, s, text);
      |r| == 11 && r[1] == DigitCodes(text, s)[0] && r[3] == DigitCodes(text, s)[1] &&
      r[5] == DigitCodes(text, s)[2] && r[7] == StatusByte7(p[7], s) && r[9] == StatusByte9(p[9], s) &&
      r[0] == p[0] && r[2] == p[2] && r[4] == p[4] && r[6] == p[6] && r[8] == p[8] && r[10] == p[10]
  {
    var d := WithDigits(p, DigitCodes(text, s));
    WithLedsBytes(d, s);
  }

  /** Neither status byte reads the second timer LED. */
  lemma StatusBytesSkipTimerLed2(b7: bv8, b9: bv8, s: DspStates, t: DspStates)
    requires t == s.(timerled2 := t.timerled2)
    ensures StatusByte7(b7, s) == StatusByte7(b7, t) && StatusByte9(b9, s) == StatusByte9(b9, t)
  {
  }

  /** The second timer LED never reaches the display: its bit is
      overwritten by the C LED. */
  lemma TimerLed2Hidden(p: seq<bv8>, s: DspStates, v: bool)
    requires |p| == CioType1.PAYLOAD_LEN
    ensures WithLeds(p, s) == WithLeds(p, s.(timerled2 := v))
  {
    var t := s.(timerled2 := v);
    WithLedsBytes(p, s);
    WithLedsBytes(p, t);
    StatusBytesSkipTimerLed2(p[7], p[9], s, t);
  }

  /** With the power off bytes 1 to 10 are zero, the digits just written
      included, and the command byte is kept. */
  lemma HandledPayloadPowerOff(p: seq<bv8>, s: DspStates, text: string)
    requires |p| == CioType1.PAYLOAD_LEN && !s.power
    ensures var r := HandledPayload(p, s, text);
      |r| == 11 && r[0] == p[0] && forall i :: 1 <= i < 11 ==> r[i] == 0
  {
  }

  /** The frames upload_payload sends, each framed by chip select: the
      mode command, the write command, the payload and the dimming byte. */
  function UploadFrames(payload: seq<bv8>, brightness: u8): (f: seq<seq<bv8>>)
  {
    [[CioType1.DSP_CMD1_MODE6_11_7_P05504], [CioType1.DSP_CMD2_DATAWRITE], payload, [DimByte(brightness)]]
  }

  class DspType1 {
    const payload: array<bv8>
    const rawPayloadFromDsp: array<bv8>
    var states: DspStates
    var oldButton: Button
    var text: string
    var audioFrequency: u16
    var lastRefreshTime: u32
    var lastButtonPollTime: u32

    /** An 11-byte payload and a distinct 2-byte button buffer. */
    ghost predicate Valid()
      reads this
    {
      payload.Length == CioType1.PAYLOAD_LEN && rawPayloadFromDsp.Length == 2 &&
      payload != rawPayloadFromDsp
    }

    /** The member initialisers, then the constructor's mode command in
        byte 0 over the initialiser's 0x01. */
    constructor()
      ensures Valid() && fresh(payload) && fresh(rawPayloadFromDsp)
      ensures payload[..] == PAYLOAD_INITIALISER[0 := CioType1.DSP_CMD1_MODE6_11_7_P05504]
      ensures rawPayloadFromDsp[..] == [0, 0]
      ensures states == DefaultDspStates && oldButton == NOBTN && text == ""
      ensures audioFrequency == 0 && lastRefreshTime == 0 && lastButtonPollTime == 0
    {
      payload := new bv8[CioType1.PAYLOAD_LEN](i requires 0 <= i < CioType1.PAYLOAD_LEN => PAYLOAD_INITIALISER[i]);
      rawPayloadFromDsp := new bv8[2](_ => 0);
      states := DefaultDspStates;
      oldButton := NOBTN;
      text := "";
      audioFrequency := 0;
      lastRefreshTime := 0;
      lastButtonPollTime := 0;
      new;
      payload[0] := CioType1.DSP_CMD1_MODE6_11_7_P05504;
    }

    /** set_text(). */
    method SetText(t: string)
      modifies this`text
      ensures text == t
    {
      text := t;
    }

    /** clear_text(): the next handle_states shows the state characters. */
    method ClearText()
      modifies this`text
      ensures text == ""
    {
      text := "";
    }

    /** set_audio_frequency(). */
    method SetAudioFrequency(f: u16)
      modifies this`audioFrequency
      ensures audioFrequency == f
    {
      audioFrequency := f;
    }

    /** clear_payload(). */
    method ClearPayload()
      requires Valid()
      modifies payload
      ensures payload[..] == Cleared(old(payload[..]))
    {
      for i := 1 to CioType1.PAYLOAD_LEN
        invariant payload[0] == old(payload[0])
        invariant forall j :: 1 <= j < i ==> payload[j] == 0
      {
        payload[i] := 0;
      }
      assert payload[..] == Cleared(old(payload[..]));
    }

    /** The digit writes of handle_states. */
    method WriteDigits()
      requires Valid()
      modifies payload
      ensures payload[..] == WithDigits(old(payload[..]), DigitCodes(text, states))
    {
      var d1, d2, d3: bv8 := 0x01, 0x01, 0x01;
      if |text| > 0 {
        d1 := CharTo7SegCode(text[0]);
        if |text| > 1 {
          d2 := CharTo7SegCode(text[1]);
        }
        if |text| > 2 {
          d3 := CharTo7SegCode(text[2]);
        }
      } else {
        d1 := CharTo7SegCode(states.char1);
        d2 := CharTo7SegCode(states.char2);
        d3 := CharTo7SegCode(states.char3);
      }
      payload[CioType1.DGT1_IDX] := d1;
      payload[CioType1.DGT2_IDX] := d2;
      payload[CioType1.DGT3_IDX] := d3;
    }

    /** The LED writes of handle_states with the power on. */
    method WriteLeds()
      requires Valid()
      modifies payload
      ensures payload[..] == WithLeds(old(payload[..]), states)
    {
      var s := states;
      payload[CioType1.LCK_IDX] := SetBit(payload[CioType1.LCK_IDX], CioType1.LCK_BIT, s.locked);
      payload[CioType1.TMRBTNLED_IDX] :=
        SetBit(payload[CioType1.TMRBTNLED_IDX], CioType1.TMRBTNLED_BIT, s.timerbuttonled);
      payload[CioType1.TMR1_IDX] := SetBit(payload[CioType1.TMR1_IDX], CioType1.TMR1_BIT, s.timerled1);
      payload[CioType1.TMR2_IDX] := SetBit(payload[CioType1.TMR2_IDX], CioType1.TMR2_BIT, s.timerled2);
      payload[CioType1.REDHTR_IDX] := SetBit(payload[CioType1.REDHTR_IDX], CioType1.REDHTR_BIT, s.heatred);
      payload[CioType1.GRNHTR_IDX] := SetBit(payload[CioType1.GRNHTR_IDX], CioType1.GRNHTR_BIT, s.heatgrn);
      payload[CioType1.AIR_IDX] := SetBit(payload[CioType1.AIR_IDX], CioType1.AIR_BIT, s.bubbles);
      payload[CioType1.FLT_IDX] := SetBit(payload[CioType1.FLT_IDX], CioType1.FLT_BIT, s.pump);
      payload[CioType1.C_IDX] := SetBit(payload[CioType1.C_IDX], CioType1.C_BIT, s.unit);
      payload[CioType1.F_IDX] := SetBit(payload[CioType1.F_IDX], CioType1.F_BIT, !s.unit);
      payload[CioType1.PWR_IDX] := SetBit(payload[CioType1.PWR_IDX], CioType1.PWR_BIT, s.power);
      payload[CioType1.HJT_IDX] := SetBit(payload[CioType1.HJT_IDX], CioType1.HJT_BIT, s.jets);
    }

    /** upload_payload(brightness) at time `now`: nothing within 50 ms of
        the last upload; otherwise the time is recorded and the four frames
        are sent. */
    method UploadPayload(brightness: u8, now: u32) returns (sent: seq<seq<bv8>>)
      requires Valid()
      modifies this`lastRefreshTime
      ensures Elapsed(now, old(lastRefreshTime)) < REFRESH_INTERVAL ==>
                sent == [] && lastRefreshTime == old(lastRefreshTime)
      ensures Elapsed(now, old(lastRefreshTime)) >= REFRESH_INTERVAL ==>
                sent == UploadFrames(payload[..], brightness) && lastRefreshTime == now
    {
      if Elapsed(now, lastRefreshTime) < REFRESH_INTERVAL {
        return [];
      }
      lastRefreshTime := now;
      sent := UploadFrames(payload[..], brightness);
    }

    /** handle_states() at time `now`: the payload follows `HandledPayload`
        and is uploaded unless the last upload is under 50 ms old. */
    method HandleStates(now: u32) returns (sent: seq<seq<bv8>>)
      requires Valid()
      modifies payload, this`lastRefreshTime
      ensures payload[..] == HandledPayload(old(payload[..]), states, text)
      ensures Elapsed(now, old(lastRefreshTime)) < REFRESH_INTERVAL ==>
                sent == [] && lastRefreshTime == old(lastRefreshTime)
      ensures Elapsed(now, old(lastRefreshTime)) >= REFRESH_INTERVAL ==>
                sent == UploadFrames(payload[..], states.brightness) && lastRefreshTime == now
    {
      WriteDigits();
      if states.power {
        WriteLeds();
      } else {
        ClearPayload();
      }
      sent := UploadPayload(states.brightness, now);
    }

    /** The two halves of the word read, high byte first. */
    method StoreRaw(code: bv16)
      requires Valid()
      modifies rawPayloadFromDsp
      ensures rawPayloadFromDsp[..] == RawButtonBytes(code)
    {
      rawPayloadFromDsp[0] := (code >> 8) as bv8;
      rawPayloadFromDsp[1] := (code & 0xFF) as bv8;
      assert rawPayloadFromDsp[..] == [rawPayloadFromDsp[0], rawPayloadFromDsp[1]];
    }

    /** get_pressed_button() at time `now`, with `bits` the sixteen data
        levels clocked in: within 90 ms of the last poll the cached button;
        otherwise the word is read, stored in halves, looked up, cached and
        returned. */
    method GetPressedButton(now: u32, bits: seq<bool>) returns (b: Button)
      requires Valid() && |bits| == 16
      modifies this`lastButtonPollTime, this`oldButton, rawPayloadFromDsp
      ensures Elapsed(now, old(lastButtonPollTime)) < BUTTON_POLL_INTERVAL ==>
                b == old(oldButton) && oldButton == old(oldButton) &&
                lastButtonPollTime == old(lastButtonPollTime) &&
                rawPayloadFromDsp[..] == old(rawPayloadFromDsp[..])
      ensures Elapsed(now, old(lastButtonPollTime)) >= BUTTON_POLL_INTERVAL ==>
                lastButtonPollTime == now &&
                rawPayloadFromDsp[..] == RawButtonBytes(ReceivedWord(bits)) &&
                b == oldButton &&
                b == CioType1.ButtonOfCode(CioType1.DEFAULT_BUTTON_CODES, FromBits16(ReceivedWord(bits)))
    {
      if Elapsed(now, lastButtonPollTime) < BUTTON_POLL_INTERVAL {
        return oldButton;
      }
      lastButtonPollTime := now;
      var code := ReceiveBits(bits);
      assert code == ReceivedWord(bits);
      StoreRaw(code);
      ghost var raw := rawPayloadFromDsp[..];
      assert raw == RawButtonBytes(ReceivedWord(bits));
      b := CioType1.ButtonFromCode(CioType1.DEFAULT_BUTTON_CODES, FromBits16(code));
      oldButton := b;
      assert rawPayloadFromDsp[..] == raw;
    }
  }
}
