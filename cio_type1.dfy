/** The controller side of the 6-wire TYPE1 bus (`cio_type1.cpp/.h`): the
    display board clocks command bytes and an 11-byte LED/digit payload in,
    LSB first, framed by chip select; after the read command 0x42 the driver
    clocks the 16-bit button code out. Interrupt handlers are step methods
    that take the sampled pin levels as parameters. */
module CioType1 {
  import opened Bytes
  import opened Wrappers
  import opened Lookup
  import opened SpaStates

  /** `CHARCODES[i]`: the 7-segment code of `CHARS[i]`. */
  function CharCode(i: nat): u8
    requires i < 38
  {
    match i
    case 0 => 0x7F case 1 => 0x0D case 2 => 0xB7 case 3 => 0x9F case 4 => 0xCD
    case 5 => 0xDB case 6 => 0xFB case 7 => 0x0F case 8 => 0xFF case 9 => 0xDF
    case 10 => 0xEF case 11 => 0xF9 case 12 => 0x73 case 13 => 0xBD case 14 => 0xF3
    case 15 => 0xE3 case 16 => 0x7B case 17 => 0xE9 case 18 => 0x09 case 19 => 0x3D
    case 20 => 0xE1 case 21 => 0x71 case 22 => 0x49 case 23 => 0xA9 case 24 => 0xB9
    case 25 => 0xE7 case 26 => 0xCF case 27 => 0xA1 case 28 => 0xDB case 29 => 0xF1
    case 30 => 0x7D case 31 => 0x7D case 32 => 0x7D case 33 => 0xED case 34 => 0xDD
    case 35 => 0xB7 case 36 => 0x00 case _ => 0x80
  }

  /** `CHARS`, without the terminating NUL: 38 characters, one per code. */
  const CHARS: string := "0123456789ABCDEFGHIJKLMNOPQRSTUVWXYZ -"

  /** The command bytes: display mode (two variants), data read and data write. */
  const DSP_CMD1_MODE6_11_7: bv8 := 0x01
  const DSP_CMD1_MODE6_11_7_P05504: bv8 := 0x05
  const DSP_CMD2_DATAREAD: bv8 := 0x42
  const DSP_CMD2_DATAWRITE: bv8 := 0x40

  /** `sizeof(payload_)`, and the byte and bit of each digit and LED. */
  const PAYLOAD_LEN: nat := 11
  const DGT1_IDX: nat := 1
  const DGT2_IDX: nat := 3
  const DGT3_IDX: nat := 5
  const LCK_IDX: nat := 7
  const LCK_BIT: nat := 2
  const TMR1_IDX: nat := 7
  const TMR1_BIT: nat := 1
  const TMR2_IDX: nat := 7
  const TMR2_BIT: nat := 0
  const TMRBTNLED_IDX: nat := 7
  const TMRBTNLED_BIT: nat := 3
  const REDHTR_IDX: nat := 9
  const REDHTR_BIT: nat := 3
  const GRNHTR_IDX: nat := 9
  const GRNHTR_BIT: nat := 0
  const AIR_IDX: nat := 9
  const AIR_BIT: nat := 1
  const FLT_IDX: nat := 9
  const FLT_BIT: nat := 2
  const C_IDX: nat := 7
  const C_BIT: nat := 0
  const F_IDX: nat := 9
  const F_BIT: nat := 4
  const PWR_IDX: nat := 9
  const PWR_BIT: nat := 5
  const HJT_IDX: nat := 9
  const HJT_BIT: nat := 6

  /** The member initialiser of `button_codes_`, indexed by `Buttons`. */
  const DEFAULT_BUTTON_CODES: seq<u16> :=
    [0x1B1B, 0x0200, 0x0100, 0x0300, 0x1012, 0x1212, 0x1112, 0x1312, 0x0809, 0x0000, 0x0000]

  /** `CIOStates`. `unit` is true for Celsius. */
  datatype CioStates = CioStates(
    locked: bool, power: bool, unit: bool, bubbles: bool, heatgrn: bool, heatred: bool,
    heat: bool, pump: bool, jets: bool, timerled1: bool, timerled2: bool, timerbuttonled: bool,
    temperature: u8, target: u8, error: u8, char1: char, char2: char, char3: char)

  /** The member initialisers of `CIOStates`. */
  const DefaultCioStates: CioStates :=
    CioStates(false, true, true, false, false, false, false, false, false, false, false, false,
              20, 38, 0, ' ', ' ', ' ')

  /** The codes as `get_char` compares them, with bit 0 dropped. */
  function SegmentTable(): (t: seq<int>)
    ensures |t| == |CHARS|
  {
    seq(|CHARS|, i requires 0 <= i < |CHARS| => CharCode(i) / 2)
  }

  /** The index `get_char` stops at: the first code that agrees with `value`
      outside bit 0, or `|CHARS|` when none does. */
  function CharIndex(value: bv8): (i: nat)
    ensures i <= |CHARS|
  {
    FirstIndex(SegmentTable(), FromBits(value) / 2)
  }

  /** get_char(value): the character at `CharIndex(value)`, or '*'. */
  function GetChar(value: bv8): (c: char)
    ensures c == '*' || c in CHARS
  {
    var i := CharIndex(value);
    if i < |CHARS| then CHARS[i] else '*'
  }

  /** Codes repeat (0xDB for '5' and 'S', 0xB7 for '2' and 'Z', 0x7D for
      'U', 'V' and 'W'), so the first match never stops at 'S', 'V', 'W' or 'Z'. */
  lemma {:induction false} GetCharNeverShadowed(value: bv8)
    ensures CHARS[28] == 'S' && CHARS[31] == 'V' && CHARS[32] == 'W' && CHARS[35] == 'Z'
    ensures CharIndex(value) != 28 && CharIndex(value) != 31
    ensures CharIndex(value) != 32 && CharIndex(value) != 35
  {
    var t := SegmentTable();
    assert t[5] == t[28] && t[2] == t[35] && t[30] == t[31] && t[30] == t[32];
  }

  /** Every other character is decoded from a byte holding its code. */
  lemma {:induction false} GetCharOfCode(k: nat, value: bv8)
    requires k < |CHARS|
    requires k != 28 && k != 31 && k != 32 && k != 35
    requires value as int == CharCode(k)
    ensures GetChar(value) == CHARS[k]
  {
    FirstIndexOfDistinct(SegmentTable(), k);
  }
  /** get_char() as its scanning loop runs: the same answer as `GetChar`. */
  method CharOf(value: bv8) returns (c: char)
    ensures c == GetChar(value)
  {
    var i := Scan(SegmentTable(), FromBits(value) / 2);
    c := if i < |CHARS| then CHARS[i] else '*';
  }

  /** The error code and temperature that update_states() derives from the
      three display characters. */
  datatype Reading = Reading(error: u8, temperature: u8)

  /** The display parser of update_states(), starting from the reading `prev`:
      an undecodable character changes nothing; 'E' and two digits is an error
      code; a third character 'H' or ' ' changes nothing; anything else clears
      the error and takes a three-digit number (as `uint8_t`) or a blank and
      two digits as the temperature when it lies in 1..149. */
  function ParseDisplay(c1: char, c2: char, c3: char, prev: Reading): (r: Reading)
  {
    if c1 == '*' || c2 == '*' || c3 == '*' then prev
    else if c1 == 'E' then
      if IsDigit(c2) && IsDigit(c3) then prev.(error := 10 * DigitValue(c2) + DigitValue(c3))
      else prev
    else if c3 == 'H' || c3 == ' ' then prev
    else
      var t: Option<u8> :=
        if IsDigit(c1) && IsDigit(c2) && IsDigit(c3) then
          Some(U8(100 * DigitValue(c1) + 10 * DigitValue(c2) + DigitValue(c3)))
        else if c1 == ' ' && IsDigit(c2) && IsDigit(c3) then
          Some(10 * DigitValue(c2) + DigitValue(c3))
        else None;
      Reading(0, if t.Some? && 0 < t.value < 150 then t.value else prev.temperature)
  }

  /** A temperature from 100 to 149 shown as three digits reads back, and
      clears the error. */
  lemma {:induction false} ParseThreeDigits(t: nat, prev: Reading)
    requires 100 <= t < 150
    ensures ParseDisplay(DigitChar(t / 100), DigitChar(t / 10 % 10), DigitChar(t % 10), prev) == Reading(0, t)
  {
    var c1, c2, c3 := DigitChar(t / 100), DigitChar(t / 10 % 10), DigitChar(t % 10);
    assert c1 == '1';
    assert 100 * DigitValue(c1) + 10 * DigitValue(c2) + DigitValue(c3) == t;
  }

  /** A temperature from 1 to 99 shown as a blank and two digits reads back,
      and clears the error. */
  lemma {:induction false} ParseTwoDigits(t: nat, prev: Reading)
    requires 0 < t < 100
    ensures ParseDisplay(' ', DigitChar(t / 10), DigitChar(t % 10), prev) == Reading(0, t)
  {
    var c2, c3 := DigitChar(t / 10), DigitChar(t % 10);
    assert 10 * DigitValue(c2) + DigitValue(c3) == t;
  }

  /** "Exy" reads as error code `xy` and keeps the temperature. */
  lemma {:induction false} ParseErrorCode(e: nat, prev: Reading)
    requires e < 100
    ensures ParseDisplay('E', DigitChar(e / 10), DigitChar(e % 10), prev) == Reading(e, prev.temperature)
  {
    var c2, c3 := DigitChar(e / 10), DigitChar(e % 10);
    assert 10 * DigitValue(c2) + DigitValue(c3) == e;
  }

  /** The three-digit sum is taken modulo 256 before the range test, so "300"
      passes as 44. */
  lemma ParseThreeDigitsWraps(prev: Reading)
    ensures ParseDisplay('3', '0', '0', prev) == Reading(0, 44)
  {
  }

  /** Parsing is idempotent: the same characters read twice give the same
      reading as read once. */
  lemma {:induction false} ParseIdempotent(c1: char, c2: char, c3: char, prev: Reading)
    ensures ParseDisplay(c1, c2, c3, ParseDisplay(c1, c2, c3, prev)) == ParseDisplay(c1, c2, c3, prev)
  {
  }

  /** Bit `k` of payload byte `i`: `(raw_payload_from_cio_[i] & (1 << k)) > 0`. */
  predicate LedBit(p: seq<bv8>, i: nat, k: nat)
    requires i < |p| && k < 8
  {
    Bit(p[i], k)
  }

  /** The state decoding of update_states() for an accepted payload `p`:
      LEDs from their bits, the unit only when the C or F LED is lit, jets only
      on models that have them, the digits through get_char(), and the error
      and temperature through `ParseDisplay`. */
  function DecodePayload(s: CioStates, p: seq<bv8>, hasJets: bool): (r: CioStates)
    requires |p| == PAYLOAD_LEN
  {
    var c1 := GetChar(p[DGT1_IDX]);
    var c2 := GetChar(p[DGT2_IDX]);
    var c3 := GetChar(p[DGT3_IDX]);
    var reading := ParseDisplay(c1, c2, c3, Reading(s.error, s.temperature));
    var grn := LedBit(p, GRNHTR_IDX, GRNHTR_BIT);
    var red := LedBit(p, REDHTR_IDX, REDHTR_BIT);
    var celsius := LedBit(p, C_IDX, C_BIT);
    s.(locked := LedBit(p, LCK_IDX, LCK_BIT),
       power := LedBit(p, PWR_IDX, PWR_BIT),
       unit := if celsius || LedBit(p, F_IDX, F_BIT) then celsius else s.unit,
       bubbles := LedBit(p, AIR_IDX, AIR_BIT),
       heatgrn := grn, heatred := red, heat := grn || red,
       pump := LedBit(p, FLT_IDX, FLT_BIT),
       timerled1 := LedBit(p, TMR1_IDX, TMR1_BIT),
       timerled2 := LedBit(p, TMR2_IDX, TMR2_BIT),
       timerbuttonled := LedBit(p, TMRBTNLED_IDX, TMRBTNLED_BIT),
       char1 := c1, char2 := c2, char3 := c3,
       jets := hasJets && LedBit(p, HJT_IDX, HJT_BIT),
       error := reading.error, temperature := reading.temperature)
  }

  /** Decoding never touches the target, reports heat whenever either heater
      LED is lit, and reports jets only on models that have them. */
  lemma DecodeConsistent(s: CioStates, p: seq<bv8>, hasJets: bool)
    requires |p| == PAYLOAD_LEN
    ensures DecodePayload(s, p, hasJets).target == s.target
    ensures DecodePayload(s, p, hasJets).heat ==
              (DecodePayload(s, p, hasJets).heatgrn || DecodePayload(s, p, hasJets).heatred)
    ensures DecodePayload(s, p, hasJets).jets ==> hasJets
  {
  }

  /** The unit follows the C and F LEDs and is held while neither is lit. */
  lemma DecodeUnit(s: CioStates, p: seq<bv8>, hasJets: bool)
    requires |p| == PAYLOAD_LEN
    ensures LedBit(p, C_IDX, C_BIT) ==> DecodePayload(s, p, hasJets).unit
    ensures !LedBit(p, C_IDX, C_BIT) && LedBit(p, F_IDX, F_BIT) ==> !DecodePayload(s, p, hasJets).unit
    ensures !LedBit(p, C_IDX, C_BIT) && !LedBit(p, F_IDX, F_BIT) ==> DecodePayload(s, p, hasJets).unit == s.unit
  {
  }

  /** The second timer LED and the Celsius LED are the same bit (byte 7,
      bit 0), so whenever `timerled2` is lit the unit reads Celsius. */
  lemma TimerLed2ImpliesCelsius(s: CioStates, p: seq<bv8>, hasJets: bool)
    requires |p| == PAYLOAD_LEN
    ensures DecodePayload(s, p, hasJets).timerled2 ==> DecodePayload(s, p, hasJets).unit
  {
  }

  /** Decoding the same payload twice gives the states of decoding it once, so
      a repeated packet changes nothing. */
  lemma {:induction false} DecodeIdempotent(s: CioStates, p: seq<bv8>, hasJets: bool)
    requires |p| == PAYLOAD_LEN
    ensures DecodePayload(DecodePayload(s, p, hasJets), p, hasJets) == DecodePayload(s, p, hasJets)
  {
    var r := DecodePayload(s, p, hasJets);
    var c1, c2, c3 := GetChar(p[DGT1_IDX]), GetChar(p[DGT2_IDX]), GetChar(p[DGT3_IDX]);
    ParseIdempotent(c1, c2, c3, Reading(s.error, s.temperature));
  }

  /** The bits eop_handler() ors into `packet_error_`: 2 for a packet that
      is neither empty nor 11 bytes long, 1 for a byte left incomplete. */
  function EopErrors(byteCount: nat, bitCount: nat): (e: bv8)
    ensures e == 0 <==> (byteCount == 0 || byteCount == PAYLOAD_LEN) && bitCount == 0
    ensures e & 0xFC == 0
  {
    (if byteCount != PAYLOAD_LEN && byteCount != 0 then 2 else 0) | (if bitCount != 0 then 1 else 0)
  }

  /** The command matcher of eop_handler(): a display-mode command starts a
      sequence (1), a data-write command after it advances it (2), and any
      other byte advances 2 to 3 and ends a sequence at 3. */
  function NextMatch(m: nat, msg: bv8): (n: nat)
    ensures n <= 3
  {
    if msg == DSP_CMD1_MODE6_11_7 || msg == DSP_CMD1_MODE6_11_7_P05504 then 1
    else if msg == DSP_CMD2_DATAWRITE then (if m == 1 then 2 else 0)
    else if m == 3 then 0
    else if m == 2 then 3
    else if m <= 3 then m else 0
  }

  /** Whether the byte `msg`, closing a packet in matcher state `m`, is the
      brightness command that completes a frame. */
  predicate Captures(m: nat, msg: bv8)
  {
    m == 3 && msg != DSP_CMD1_MODE6_11_7 && msg != DSP_CMD1_MODE6_11_7_P05504 &&
    msg != DSP_CMD2_DATAWRITE
  }

  /** A command byte is not data. */
  predicate IsCommand(msg: bv8)
  {
    msg == DSP_CMD1_MODE6_11_7 || msg == DSP_CMD1_MODE6_11_7_P05504 || msg == DSP_CMD2_DATAWRITE
  }

  /** A display-mode command, a data-write command, one more packet and a
      brightness byte complete a frame from any matcher state, and the
      matcher starts over. */
  lemma CommandSequenceCaptures(m: nat, mode: bv8, data: bv8, bright: bv8)
    requires mode == DSP_CMD1_MODE6_11_7 || mode == DSP_CMD1_MODE6_11_7_P05504
    requires !IsCommand(data) && !IsCommand(bright)
    ensures Captures(NextMatch(NextMatch(NextMatch(m, mode), DSP_CMD2_DATAWRITE), data), bright)
    ensures NextMatch(NextMatch(NextMatch(NextMatch(m, mode), DSP_CMD2_DATAWRITE), data), bright) == 0
  {
  }

  /** Conversely, a frame is captured only at the fourth packet of such a
      sequence: the second packet was the data-write command, the third was
      not a command, and the first left the matcher at 1. */
  lemma {:induction false} CapturesOnlyAfterSequence(m: nat, a: bv8, b: bv8, c: bv8, d: bv8)
    requires m <= 3
    requires Captures(NextMatch(NextMatch(NextMatch(m, a), b), c), d)
    ensures NextMatch(m, a) == 1 && b == DSP_CMD2_DATAWRITE && !IsCommand(c) && !IsCommand(d)
  {
  }

  /** `send_bit_++; if (send_bit_ > 15) send_bit_ = 0;` */
  function NextSendBit(s: nat): (n: nat)
    requires s < 16
    ensures n < 16
  {
    if s + 1 > 15 then 0 else s + 1
  }

  /** The bit of the button code sent at the `n`-th falling edge after the
      read command, which sets `send_bit_` to 8. */
  function SendBitAfter(n: nat): (s: nat)
    ensures s < 16
  {
    if n == 0 then 8 else NextSendBit(SendBitAfter(n - 1))
  }

  /** The button code goes out high byte first, each byte least significant
      bit first: bit `(8 + n) % 16` at edge `n`. */
  lemma {:induction false} SendOrder(n: nat)
    ensures SendBitAfter(n) == (8 + n) % 16
  {
    if n > 0 {
      SendOrder(n - 1);
      var k := (7 + n) % 16;
      assert k < 15 ==> (8 + n) % 16 == k + 1;
      assert k == 15 ==> (8 + n) % 16 == 0;
    }
  }

  /** get_button_code(): the code of `b`, or of NOBTN when `b` is out of range. */
  function ButtonCodeOf(codes: seq<u16>, b: Button): (c: u16)
    requires |codes| == BTN_COUNT
    ensures c in codes
  {
    if b < BTN_COUNT then codes[b] else codes[NOBTN]
  }

  /** get_button_from_code(): the first button with code `code`, or NOBTN. */
  function ButtonOfCode(codes: seq<u16>, code: u16): (b: Button)
    requires |codes| == BTN_COUNT
    ensures b < BTN_COUNT
  {
    var i := FirstIndex(codes, code);
    if i < BTN_COUNT then i else NOBTN
  }

  /** A button whose code no earlier button shares is recovered from it. */
  lemma {:induction false} ButtonCodeRoundTrip(codes: seq<u16>, b: Button)
    requires |codes| == BTN_COUNT && b < BTN_COUNT
    requires forall j :: 0 <= j < b ==> codes[j] != codes[b]
    ensures ButtonOfCode(codes, ButtonCodeOf(codes, b)) == b
  {
    FirstIndexOfDistinct(codes, b);
  }

  /** A code maps to a button whose code it is exactly when some button has it. */
  lemma {:induction false} CodeButtonRoundTrip(codes: seq<u16>, code: u16)
    requires |codes| == BTN_COUNT
    ensures ButtonCodeOf(codes, ButtonOfCode(codes, code)) == code <==> code in codes
  {
    var i := FirstIndex(codes, code);
    if code !in codes {
      assert codes[NOBTN] in codes;
    }
  }

  /** With the default codes every button up to POWER is recovered from its
      code. */
  lemma {:induction false} DefaultCodesRoundTrip(b: Button)
    requires b < HYDROJETS
    ensures ButtonOfCode(DEFAULT_BUTTON_CODES, ButtonCodeOf(DEFAULT_BUTTON_CODES, b)) == b
  {
    var t := DEFAULT_BUTTON_CODES;
    assert t[0] == 0x1B1B && t[1] == 0x0200 && t[2] == 0x0100 && t[3] == 0x0300 && t[4] == 0x1012;
    assert t[5] == 0x1212 && t[6] == 0x1112 && t[7] == 0x1312 && t[8] == 0x0809 && t[9] == 0x0000;
    ButtonCodeRoundTrip(t, b);
  }

  /** HYDROJETS shares the default code 0x0000 with POWER, so its code reads
      back as POWER. */
  lemma {:induction false} DefaultCodesShadowJets()
    ensures ButtonOfCode(DEFAULT_BUTTON_CODES, ButtonCodeOf(DEFAULT_BUTTON_CODES, HYDROJETS)) == POWER
  {
    var t := DEFAULT_BUTTON_CODES;
    assert t[0] == 0x1B1B && t[1] == 0x0200 && t[2] == 0x0100 && t[3] == 0x0300 && t[4] == 0x1012;
    assert t[5] == 0x1212 && t[6] == 0x1112 && t[7] == 0x1312 && t[8] == 0x0809 && t[9] == 0x0000;
    FirstIndexOfDistinct(t, POWER);
  }

  /** get_button_from_code() as its scanning loop runs. */
  method ButtonFromCode(codes: seq<u16>, code: u16) returns (b: Button)
    requires |codes| == BTN_COUNT
    ensures b == ButtonOfCode(codes, code)
  {
    var i := Scan(codes, code);
    b := if i < BTN_COUNT then i else NOBTN;
  }

  /** The driver: the bit-level receiver and sender run from the chip-select
      and clock interrupts, and update_states() decodes a completed frame. */
  class CioType1 {
    var byteCount: nat
    var bitCount: nat
    var dataIsOutput: bool
    var receivedByte: bv8
    var cmdMatches: nat
    var newPacketAvailable: bool
    var sendBit: nat
    var brightness: bv8
    var packetError: bv8
    var packetTransmActive: bool
    var buttonCode: u16
    const payload: array<bv8>
    const rawPayloadFromCio: array<bv8>
    var states: CioStates
    var goodPacketsCount: nat
    var badPacketsCount: nat
    var hasJets: bool
    var hasAir: bool
    const buttonCodes: array<u16>

    /** Buffer sizes, and the counters in the ranges the handlers keep. */
    ghost predicate Valid()
      reads this
    {
      payload.Length == PAYLOAD_LEN && rawPayloadFromCio.Length == PAYLOAD_LEN &&
      payload != rawPayloadFromCio && buttonCodes.Length == BTN_COUNT &&
      byteCount <= PAYLOAD_LEN && bitCount < 8 && sendBit < 16 && cmdMatches <= 3
    }

    constructor()
      ensures Valid()
      ensures byteCount == 0 && bitCount == 0 && !dataIsOutput && receivedByte == 0
      ensures cmdMatches == 0 && !newPacketAvailable && sendBit == 8 && brightness == 7
      ensures packetError == 0 && !packetTransmActive && buttonCode == 0x1B1B
      ensures payload[..] == [0, 0, 0, 0, 0, 0, 0, 0, 0, 0, 0]
      ensures rawPayloadFromCio[..] == payload[..]
      ensures states == DefaultCioStates && goodPacketsCount == 0 && badPacketsCount == 0
      ensures !hasJets && hasAir && buttonCodes[..] == DEFAULT_BUTTON_CODES
    {
      byteCount := 0;
      bitCount := 0;
      dataIsOutput := false;
      receivedByte := 0;
      cmdMatches := 0;
      newPacketAvailable := false;
      sendBit := 8;
      brightness := 7;
      packetError := 0;
      packetTransmActive := false;
      buttonCode := 0x1B1B;
      payload := new bv8[PAYLOAD_LEN](_ => 0);
      rawPayloadFromCio := new bv8[PAYLOAD_LEN](_ => 0);
      states := DefaultCioStates;
      goodPacketsCount := 0;
      badPacketsCount := 0;
      hasJets := false;
      hasAir := true;
      buttonCodes := new u16[BTN_COUNT](i requires 0 <= i < BTN_COUNT => DEFAULT_BUTTON_CODES[i]);
    }

    /** Copy the received payload into `raw_payload_from_cio_`. */
    method CopyIn()
      requires Valid()
      modifies rawPayloadFromCio
      ensures rawPayloadFromCio[..] == payload[..]
    {
      for i := 0 to PAYLOAD_LEN
        invariant rawPayloadFromCio[..i] == payload[..i]
      {
        rawPayloadFromCio[i] := payload[i];
      }
      assert rawPayloadFromCio[..] == rawPayloadFromCio[..PAYLOAD_LEN];
    }

    /** update_states(): nothing without a new packet; a packet with errors
        is counted and dropped; an accepted one is copied and decoded. */
    method UpdateStates()
      requires Valid()
      modifies this`newPacketAvailable, this`packetError, this`badPacketsCount
      modifies this`goodPacketsCount, this`states, rawPayloadFromCio
      ensures Valid() && !newPacketAvailable
      ensures !old(newPacketAvailable) || old(packetError) != 0 ==>
                goodPacketsCount == old(goodPacketsCount) && states == old(states) &&
                rawPayloadFromCio[..] == old(rawPayloadFromCio[..])
      ensures !old(newPacketAvailable) ==>
                packetError == old(packetError) && badPacketsCount == old(badPacketsCount)
      ensures old(newPacketAvailable) && old(packetError) != 0 ==>
                packetError == 0 && badPacketsCount == old(badPacketsCount) + 1
      ensures old(newPacketAvailable) && old(packetError) == 0 ==>
                packetError == 0 && badPacketsCount == old(badPacketsCount) &&
                goodPacketsCount == old(goodPacketsCount) + 1 &&
                rawPayloadFromCio[..] == payload[..] &&
                states == DecodePayload(old(states), payload[..], hasJets)
    {
      if !newPacketAvailable {
        return;
      }
      newPacketAvailable := false;
      if packetError != 0 {
        badPacketsCount := badPacketsCount + 1;
        packetError := 0;
        return;
      }
      CopyIn();
      goodPacketsCount := goodPacketsCount + 1;
      states := DecodePayload(states, rawPayloadFromCio[..], hasJets);
    }

    /** eop_handler(): flag a short packet or a partial byte, reset the
        counters, and feed the last byte to the command matcher; the byte that
        completes a sequence is the brightness and marks a new packet. */
    method EopHandler()
      requires Valid()
      modifies this`packetError, this`byteCount, this`bitCount, this`cmdMatches
      modifies this`brightness, this`newPacketAvailable
      ensures Valid()
      ensures packetError == old(packetError) | EopErrors(old(byteCount), old(bitCount))
      ensures byteCount == 0 && bitCount == 0
      ensures cmdMatches == NextMatch(old(cmdMatches), receivedByte)
      ensures Captures(old(cmdMatches), receivedByte) ==> brightness == receivedByte && newPacketAvailable
      ensures !Captures(old(cmdMatches), receivedByte) ==>
                brightness == old(brightness) && newPacketAvailable == old(newPacketAvailable)
    {
      packetError := packetError | EopErrors(byteCount, bitCount);
      byteCount := 0;
      bitCount := 0;
      var msg := receivedByte;
      if msg == DSP_CMD1_MODE6_11_7 || msg == DSP_CMD1_MODE6_11_7_P05504 {
        cmdMatches := 1;
      } else if msg == DSP_CMD2_DATAWRITE {
        cmdMatches := if cmdMatches == 1 then 2 else 0;
      } else {
        if cmdMatches == 3 {
          brightness := msg;
          cmdMatches := 0;
          newPacketAvailable := true;
        }
        if cmdMatches == 2 {
          cmdMatches := 3;
        }
      }
    }

    /** isr_packet_handler(): chip select high ends a packet and releases
        the data line; low starts one. */
    method PacketHandler(csHigh: bool)
      requires Valid()
      modifies this`packetTransmActive, this`dataIsOutput, this`packetError, this`byteCount
      modifies this`bitCount, this`cmdMatches, this`brightness, this`newPacketAvailable
      ensures Valid()
      ensures packetTransmActive == !csHigh
      ensures csHigh ==> (!dataIsOutput && byteCount == 0 && bitCount == 0 &&
                 packetError == old(packetError) | EopErrors(old(byteCount), old(bitCount)) &&
                 cmdMatches == NextMatch(old(cmdMatches), receivedByte))
      ensures !csHigh ==> (dataIsOutput == old(dataIsOutput) && byteCount == old(byteCount) &&
                 bitCount == old(bitCount) && packetError == old(packetError) &&
                 cmdMatches == old(cmdMatches) && newPacketAvailable == old(newPacketAvailable))
    {
      if csHigh {
        packetTransmActive := false;
        dataIsOutput := false;
        EopHandler();
      } else {
        packetTransmActive := true;
      }
    }

    /** The rising-edge half of isr_clk_handler(): shift in one data bit; at
        a full byte, store it as payload while a data-write sequence is open
        (flagging error 4 past 11 bytes), or switch to sending after the read
        command. */
    method ReceiveBit(dataIn: bool)
      requires Valid()
      modifies this`receivedByte, this`bitCount, this`byteCount, this`packetError
      modifies this`sendBit, this`dataIsOutput, payload
      ensures Valid()
      ensures receivedByte == ShiftIn(old(receivedByte), dataIn)
      ensures old(bitCount) < 7 ==> (bitCount == old(bitCount) + 1 &&
                 byteCount == old(byteCount) && packetError == old(packetError) &&
                 sendBit == old(sendBit) && dataIsOutput == old(dataIsOutput) &&
                 payload[..] == old(payload[..]))
      ensures old(bitCount) == 7 ==> bitCount == 0
      ensures old(bitCount) == 7 && cmdMatches == 2 && old(byteCount) < PAYLOAD_LEN ==>
                payload[..] == old(payload[..])[old(byteCount) := receivedByte] &&
                byteCount == old(byteCount) + 1 && packetError == old(packetError)
      ensures old(bitCount) == 7 && cmdMatches == 2 && old(byteCount) == PAYLOAD_LEN ==>
                payload[..] == old(payload[..]) && byteCount == old(byteCount) &&
                packetError == old(packetError) | 4
      ensures old(bitCount) == 7 && cmdMatches == 2 ==>
                sendBit == old(sendBit) && dataIsOutput == old(dataIsOutput)
      ensures old(bitCount) == 7 && cmdMatches != 2 ==>
                payload[..] == old(payload[..]) && byteCount == old(byteCount) &&
                packetError == old(packetError) &&
                if receivedByte == DSP_CMD2_DATAREAD then sendBit == 8 && dataIsOutput
                else sendBit == old(sendBit) && dataIsOutput == old(dataIsOutput)
    {
      receivedByte := ShiftIn(receivedByte, dataIn);
      bitCount := bitCount + 1;
      if bitCount == 8 {
        bitCount := 0;
        if cmdMatches == 2 {
          if byteCount < PAYLOAD_LEN {
            payload[byteCount] := receivedByte;
            byteCount := byteCount + 1;
          } else {
            packetError := packetError | 4;
          }
        } else if receivedByte == DSP_CMD2_DATAREAD {
          sendBit := 8;
          dataIsOutput := true;
        }
      }
    }

    /** isr_clk_handler() at one clock edge, with the sampled chip-select,
        clock and data levels: chip select is polled to start or end a packet
        (an edge that ends one is not otherwise processed); on a falling edge
        while sending, the level written to the data line is returned; on a
        rising edge while receiving, one bit is shifted in. */
    method ClkHandler(csHigh: bool, clockHigh: bool, dataIn: bool) returns (out: Option<bool>)
      requires Valid()
      modifies this`packetTransmActive, this`dataIsOutput, this`packetError, this`byteCount
      modifies this`bitCount, this`cmdMatches, this`brightness, this`newPacketAvailable
      modifies this`receivedByte, this`sendBit, payload
      ensures Valid()
      ensures packetTransmActive == !csHigh
      ensures csHigh && old(packetTransmActive) ==>
                out == None && !dataIsOutput && byteCount == 0 && bitCount == 0 &&
                packetError == old(packetError) | EopErrors(old(byteCount), old(bitCount)) &&
                cmdMatches == NextMatch(old(cmdMatches), receivedByte) &&
                payload[..] == old(payload[..])
      ensures csHigh && !old(packetTransmActive) ==>
                out == None && receivedByte == old(receivedByte) && bitCount == old(bitCount) &&
                sendBit == old(sendBit) && payload[..] == old(payload[..])
      ensures !csHigh && !clockHigh && old(dataIsOutput) ==>
                out == Some(Bit16(buttonCode as bv16, old(sendBit))) && sendBit == NextSendBit(old(sendBit)) &&
                receivedByte == old(receivedByte) && bitCount == old(bitCount) &&
                payload[..] == old(payload[..])
      ensures !csHigh && clockHigh && !old(dataIsOutput) ==>
                out == None && receivedByte == ShiftIn(old(receivedByte), dataIn) &&
                cmdMatches == old(cmdMatches) &&
                (old(bitCount) < 7 ==>
                   bitCount == old(bitCount) + 1 &&
                   byteCount == old(byteCount) && packetError == old(packetError) &&
                   sendBit == old(sendBit) && dataIsOutput == old(dataIsOutput) &&
                   payload[..] == old(payload[..])) &&
                (old(bitCount) == 7 ==> bitCount == 0)
      ensures !csHigh && clockHigh && !old(dataIsOutput) && old(bitCount) == 7 && cmdMatches == 2 ==>
                sendBit == old(sendBit) && dataIsOutput == old(dataIsOutput) &&
                if old(byteCount) < PAYLOAD_LEN then
                  payload[..] == old(payload[..])[old(byteCount) := receivedByte] &&
                  byteCount == old(byteCount) + 1 && packetError == old(packetError)
                else
                  payload[..] == old(payload[..]) && byteCount == old(byteCount) &&
                  packetError == old(packetError) | 4
      ensures !csHigh && clockHigh && !old(dataIsOutput) && old(bitCount) == 7 && cmdMatches != 2 ==>
                payload[..] == old(payload[..]) && byteCount == old(byteCount) &&
                packetError == old(packetError) &&
                if receivedByte == DSP_CMD2_DATAREAD then sendBit == 8 && dataIsOutput
                else sendBit == old(sendBit) && dataIsOutput == old(dataIsOutput)
      ensures !csHigh && clockHigh == old(dataIsOutput) ==>
                out == None && receivedByte == old(receivedByte) && bitCount == old(bitCount) &&
                sendBit == old(sendBit) && payload[..] == old(payload[..])
    {
      out := None;
      if !csHigh && !packetTransmActive {
        packetTransmActive := true;
      } else if csHigh && packetTransmActive {
        packetTransmActive := false;
        dataIsOutput := false;
        EopHandler();
        return;
      }
      if !packetTransmActive {
        return;
      }
      if !clockHigh && dataIsOutput {
        out := Some(Bit16(buttonCode as bv16, sendBit));
        sendBit := NextSendBit(sendBit);
      }
      if clockHigh && !dataIsOutput {
        ReceiveBit(dataIn);
      }
    }

    /** get_button_code(). */
    method GetButtonCode(button: Button) returns (code: u16)
      requires Valid()
      ensures code == ButtonCodeOf(buttonCodes[..], button)
    {
      code := if button < BTN_COUNT then buttonCodes[button] else buttonCodes[NOBTN];
    }

    /** get_button_from_code(). */
    method GetButtonFromCode(code: u16) returns (b: Button)
      requires Valid()
      ensures b == ButtonOfCode(buttonCodes[..], code)
    {
      b := ButtonFromCode(buttonCodes[..], code);
    }

    /** set_button_code(): the code sent after the next read command. */
    method SetButtonCode(code: u16)
      modifies this`buttonCode
      ensures buttonCode == code
    {
      buttonCode := code;
    }

    /** set_button_codes(codes, count): overwrite the first `count` codes, at
        most `BTN_COUNT`, keeping the rest. */
    method SetButtonCodes(codes: seq<u16>)
      requires Valid()
      modifies buttonCodes
      ensures var n := if |codes| < BTN_COUNT then |codes| else BTN_COUNT;
              buttonCodes[..] == codes[..n] + old(buttonCodes[..])[n..]
    {
      var i := 0;
      while i < |codes| && i < BTN_COUNT
        invariant i <= BTN_COUNT && i <= |codes|
        invariant forall j :: 0 <= j < i ==> buttonCodes[j] == codes[j]
        invariant forall j :: i <= j < BTN_COUNT ==> buttonCodes[j] == old(buttonCodes[j])
      {
        buttonCodes[i] := codes[i];
        i := i + 1;
      }
      assert buttonCodes[..] == codes[..i] + old(buttonCodes[..])[i..];
    }
  }
}
