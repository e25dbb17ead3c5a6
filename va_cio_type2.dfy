/** The controller side of the TYPE2 bus as `CIO_TYPE2.cpp` (adapted from
    the VisualApproach firmware) reads it, for the 54149E: packets are
    framed by the LD line, the first eight clocked LD bits form the command
    byte, the payload bits after the data command are written bit by bit
    into a 5-byte buffer, and the button code goes out on the TD line in a
    10-bit frame. The byte and bit positions of the LEDs and digits, the
    data command and the character set are not defined in that file and
    are parameters here (`Layout`). */
module VaCioType2 {
  import opened Bytes
  import opened Lookup
  import opened SpaStates
  import opened Wrappers

  /** `PAYLOAD_LEN`: the payload is five bytes. */
  const PAYLOAD_LEN: nat := 5

  /** The layout constants `CIO_TYPE2.cpp` uses without defining: a byte
      index and bit number per LED, the byte of each digit, the data command
      `CMD2` and the character set `CHARS`. */
  datatype Layout = Layout(
    lckIdx: nat, lckBit: nat, cIdx: nat, cBit: nat, fIdx: nat, fBit: nat,
    airIdx: nat, airBit: nat, grnIdx: nat, grnBit: nat, redIdx: nat, redBit: nat,
    tmr1Idx: nat, tmr1Bit: nat, tmr2Idx: nat, tmr2Bit: nat,
    tmrBtnIdx: nat, tmrBtnBit: nat, fltIdx: nat, fltBit: nat, hjtIdx: nat, hjtBit: nat,
    dgt1Idx: nat, dgt2Idx: nat, dgt3Idx: nat, cmd2: bv8, chars: seq<char>)

  /** Every position lies inside the payload, and `CHARS` has one printable
      byte per code. */
  predicate ValidLayout(l: Layout)
  {
    l.lckIdx < 5 && l.cIdx < 5 && l.fIdx < 5 && l.airIdx < 5 && l.grnIdx < 5 &&
    l.redIdx < 5 && l.tmr1Idx < 5 && l.tmr2Idx < 5 && l.tmrBtnIdx < 5 &&
    l.fltIdx < 5 && l.hjtIdx < 5 && l.dgt1Idx < 5 && l.dgt2Idx < 5 && l.dgt3Idx < 5 &&
    l.lckBit < 8 && l.cBit < 8 && l.fBit < 8 && l.airBit < 8 && l.grnBit < 8 &&
    l.redBit < 8 && l.tmr1Bit < 8 && l.tmr2Bit < 8 && l.tmrBtnBit < 8 &&
    l.fltBit < 8 && l.hjtBit < 8 &&
    |l.chars| == 38 && forall i :: 0 <= i < |l.chars| ==> 0 < l.chars[i] as int < 256
  }

  /** A layout that fits the payload. */
  type PayloadLayout = l: Layout | ValidLayout(l)
    witness Layout(0, 0, 0, 0, 0, 0, 0, 0, 0, 0, 0, 0, 0, 0, 0, 0, 0, 0, 0, 0, 0, 0, 0, 0, 0, 0,
                   seq(38, _ => ' '))

  /** `CHARCODES[i]`: the segment pattern of `CHARS[i]`. */
  function CharCode(i: nat): u8
    requires i < 38
  {
    match i
    case 0 => 0x3F case 1 => 0x06 case 2 => 0x5B case 3 => 0x4F case 4 => 0x66
    case 5 => 0x6D case 6 => 0x7D case 7 => 0x07 case 8 => 0x7F case 9 => 0x6F
    case 10 => 0x00 case 11 => 0x40 case 12 => 0x77 case 13 => 0x7C case 14 => 0x39
    case 15 => 0x5E case 16 => 0x79 case 17 => 0x71 case 18 => 0x7D case 19 => 0x74
    case 20 => 0x76 case 21 => 0x30 case 22 => 0x0E case 23 => 0x70 case 24 => 0x38
    case 25 => 0x00 case 26 => 0x54 case 27 => 0x5C case 28 => 0x73 case 29 => 0x67
    case 30 => 0x50 case 31 => 0x6D case 32 => 0x78 case 33 => 0x1C case 34 => 0x3E
    case 35 => 0x00 case 36 => 0x6E case _ => 0x5B
  }

  /** The index _getChar() reaches scanning `CHARCODES` from `i` for the
      value `v`: the first index from `i` on holding `v`, or 38. */
  function FindCode(v: int, i: nat): nat
    requires i <= 38
    decreases 38 - i
  {
    if i == 38 then 38 else if CharCode(i) == v then i else FindCode(v, i + 1)
  }

  /** The scan stops at the first match from `i` on, and at 38 only when
      there is none. */
  lemma {:induction false} FindCodeFirst(v: int, i: nat)
    requires i <= 38
    ensures i <= FindCode(v, i) <= 38
    ensures FindCode(v, i) < 38 ==> CharCode(FindCode(v, i)) == v
    ensures forall j :: i <= j < FindCode(v, i) ==> CharCode(j) != v
    decreases 38 - i
  {
    if i < 38 && CharCode(i) != v {
      FindCodeFirst(v, i + 1);
    }
  }

  /** A code occurring at `k` and nowhere between `i` and `k` is found at `k`. */
  lemma {:induction false} FindCodeAt(i: nat, k: nat)
    requires i <= k < 38
    requires forall j :: i <= j < k ==> CharCode(j) != CharCode(k)
    ensures FindCode(CharCode(k), i) == k
    decreases k - i
  {
    if i < k {
      FindCodeAt(i + 1, k);
    }
  }

  /** The index _getChar() stops at: the first exact match, or 38. */
  function CharIndex(value: bv8): nat
  {
    FindCode(FromBits(value), 0)
  }

  /** _getChar(value): `CHARS` at the first exact match, '*' when the
      pattern is not in the table. */
  function GetChar(l: PayloadLayout, value: bv8): char
  {
    var i := CharIndex(value);
    if i < 38 then l.chars[i] else '*'
  }

  /** _getChar() returns a character of `CHARS` or '*', and '*' for a byte
      that is no character's code. */
  lemma GetCharRange(l: PayloadLayout, value: bv8)
    ensures GetChar(l, value) == '*' || GetChar(l, value) in l.chars
    ensures (forall k :: 0 <= k < 38 ==> CharCode(k) != value as int) ==> GetChar(l, value) == '*'
  {
    FindCodeFirst(FromBits(value), 0);
  }

  /** _getChar() as its scanning loop runs. */
  method CharOf(l: PayloadLayout, value: bv8) returns (c: char)
    ensures c == GetChar(l, value)
  {
    var v := FromBits(value);
    var index := 0;
    while index < 38 && CharCode(index) != v
      invariant index <= 38 && FindCode(v, index) == FindCode(v, 0)
    {
      index := index + 1;
    }
    c := if index < 38 then l.chars[index] else '*';
  }

  /** 0x7D, 0x00, 0x6D and 0x5B occur twice or more, so the scan never stops
      at index 18, 25, 31, 35 or 37: those characters are never returned by
      way of their own entry. */
  lemma {:induction false} GetCharNeverShadowed(value: bv8)
    ensures CharIndex(value) != 18 && CharIndex(value) != 25 && CharIndex(value) != 31
    ensures CharIndex(value) != 35 && CharIndex(value) != 37
  {
    FindCodeFirst(FromBits(value), 0);
    assert CharCode(6) == CharCode(18) && CharCode(10) == CharCode(25) && CharCode(5) == CharCode(31);
    assert CharCode(10) == CharCode(35) && CharCode(2) == CharCode(37);
  }

  /** The codes other than those five occur nowhere earlier in the table
      (the first half of the table, then the second). */
  lemma {:induction false} CodeFirstInLowHalf(k: nat)
    requires k < 19 && k != 18
    ensures forall j :: 0 <= j < k ==> CharCode(j) != CharCode(k)
  {
  }

  lemma {:induction false} CodeFirstInHighHalf(k: nat)
    requires 19 <= k < 38
    requires k != 25 && k != 31 && k != 35 && k != 37
    ensures forall j :: 0 <= j < k ==> CharCode(j) != CharCode(k)
  {
  }

  /** Every other character is read back from a byte holding its code. */
  lemma {:induction false} GetCharOfCode(l: PayloadLayout, k: nat, value: bv8)
    requires k < 38
    requires k != 18 && k != 25 && k != 31 && k != 35 && k != 37
    requires value as int == CharCode(k)
    ensures GetChar(l, value) == l.chars[k]
  {
    if k < 19 {
      CodeFirstInLowHalf(k);
    } else {
      CodeFirstInHighHalf(k);
    }
    FindCodeAt(0, k);
  }

  /** `_button_codes` of the 54149E: one bit per button, none for NOBTN. */
  const BUTTON_CODES: seq<u16> := [0, 0x80, 0x40, 0x20, 0x10, 0x08, 0x04, 0x02, 0x01, 0x100, 0x200]

  /** CIO_54149E::getButtonCode(): the table entry, 0 past the table. */
  function ButtonCode(b: Button): (c: u16)
    ensures c in BUTTON_CODES
  {
    if b < BTN_COUNT then BUTTON_CODES[b] else 0
  }

  /** CIO_54149E::getButton(): the first button with the code, NOBTN when
      there is none. */
  function ButtonOf(code: u16): (b: Button)
    ensures b < BTN_COUNT
  {
    var i := FirstIndex(BUTTON_CODES, code);
    if i < BTN_COUNT then i else NOBTN
  }

  /** The codes are distinct, so every button reads back from its code, and
      a button past the table has the NOBTN code. */
  lemma {:induction false} ButtonRoundTrip(b: Button)
    ensures b < BTN_COUNT ==> ButtonOf(ButtonCode(b)) == b
    ensures b >= BTN_COUNT ==> ButtonCode(b) == ButtonCode(NOBTN)
  {
    if b < BTN_COUNT {
      var t := BUTTON_CODES;
      assert t[0] == 0 && t[1] == 0x80 && t[2] == 0x40 && t[3] == 0x20 && t[4] == 0x10;
      assert t[5] == 0x08 && t[6] == 0x04 && t[7] == 0x02 && t[8] == 0x01 && t[9] == 0x100;
      FirstIndexOfDistinct(t, b);
    }
  }

  /** A code reads as NOBTN exactly when it is 0 or no button's code. */
  lemma {:induction false} ButtonOfUnknown(code: u16)
    ensures ButtonOf(code) == NOBTN <==> code == 0 || code !in BUTTON_CODES
  {
    var i := FirstIndex(BUTTON_CODES, code);
    if i < BTN_COUNT && i != 0 {
      assert BUTTON_CODES[i] == code && BUTTON_CODES[0] == 0;
    }
  }

  /** getButton() as its scanning loop runs. */
  method GetButton(code: u16) returns (b: Button)
    ensures b == ButtonOf(code)
  {
    var i := Scan(BUTTON_CODES, code);
    b := if i < BTN_COUNT then i else NOBTN;
  }

  /** The TD frame `(0xFE << 8) | (button_code << 1)` as a `uint16_t`. */
  function ButtonFrame(code: u16): bv16
  {
    0xFE00 | ((code as bv16) << 1)
  }

  /** Only the low ten bits are clocked out (bit `bit_count % 10`): a start
      bit 0, the low byte of the code from its least significant bit, and a
      stop bit 1. */
  lemma ButtonFrameBits(code: u16)
    ensures !Bit16(ButtonFrame(code), 0) && Bit16(ButtonFrame(code), 9)
    ensures forall k :: 1 <= k <= 8 ==> Bit16(ButtonFrame(code), k) == Bit16(code as bv16, k - 1)
  {
  }

  /** POWER (bit 8) and HYDROJETS (bit 9) fall outside the frame's eight
      data bits, so they are sent as the same frame as NOBTN. */
  lemma PowerAndJetsSendNothing()
    ensures ButtonFrame(ButtonCode(POWER)) == ButtonFrame(ButtonCode(NOBTN))
    ensures ButtonFrame(ButtonCode(HYDROJETS)) == ButtonFrame(ButtonCode(NOBTN))
  {
  }

  /** The command byte after LSB-first LD bits `bits`, as the rising edges
      of one packet or them in: `received_cmd |= bit << (bit_count % 8)`. */
  function CommandOf(bits: seq<bool>): bv8
    requires |bits| <= 8
  {
    if bits == [] then 0
    else CommandOf(bits[..|bits| - 1]) | BitOf(bits[|bits| - 1], |bits| - 1)
  }

  /** Bit `k` of the command byte is the `k`-th LD bit clocked in. */
  lemma {:induction false} CommandOfBits(bits: seq<bool>, k: nat)
    requires |bits| <= 8 && k < 8
    ensures Bit(CommandOf(bits), k) == (k < |bits| && bits[k])
  {
    if bits != [] {
      var n := |bits| - 1;
      CommandOfBits(bits[..n], k);
      if k != n {
        assert Bit(BitOf(bits[n], n), k) == false;
      }
    }
  }

  /** `isspace()` in the C locale. */
  predicate IsSpace(c: char)
  {
    c == ' ' || '\t' <= c <= '\r'
  }

  /** The decimal value of a run of digits. */
  function DecimalValue(d: seq<char>): (v: nat)
    requires forall i :: 0 <= i < |d| ==> IsDigit(d[i])
  {
    if d == [] then 0 else 10 * DecimalValue(d[..|d| - 1]) + DigitValue(d[|d| - 1])
  }

  /** The number of leading digits of `s`. */
  function DigitRun(s: seq<char>): (n: nat)
    ensures n <= |s|
    ensures forall i :: 0 <= i < n ==> IsDigit(s[i])
    ensures n < |s| ==> !IsDigit(s[n])
  {
    if s == [] || !IsDigit(s[0]) then 0 else 1 + DigitRun(s[1..])
  }

  /** `String::toInt()`, which is `atol()`: leading white space skipped, an
      optional sign, then the longest run of digits. */
  function ToInt(s: seq<char>): int
  {
    if s != [] && IsSpace(s[0]) then ToInt(s[1..])
    else if s != [] && (s[0] == '-' || s[0] == '+') then
      var v: int := DecimalValue(s[1..][..DigitRun(s[1..])]);
      if s[0] == '-' then -v else v
    else DecimalValue(s[..DigitRun(s)])
  }

  /** Two digits read as their two-digit number. */
  lemma {:induction false} ToIntTwoDigits(a: nat, b: nat)
    requires a <= 9 && b <= 9
    ensures ToInt([DigitChar(a), DigitChar(b)]) == 10 * a + b
  {
    var s := [DigitChar(a), DigitChar(b)];
    assert s[1..] == [DigitChar(b)] && s[1..][1..] == [];
    assert DigitRun(s) == 2;
    assert s[..2] == s && s[..1] == [DigitChar(a)] && s[..1][..0] == [];
    assert DecimalValue(s[..1]) == a;
  }

  /** Three digits read as their three-digit number. */
  lemma {:induction false} ToIntThreeDigits(a: nat, b: nat, c: nat)
    requires a <= 9 && b <= 9 && c <= 9
    ensures ToInt([DigitChar(a), DigitChar(b), DigitChar(c)]) == 100 * a + 10 * b + c
  {
    var s := [DigitChar(a), DigitChar(b), DigitChar(c)];
    assert s[1..] == [DigitChar(b), DigitChar(c)] && s[1..][1..] == [DigitChar(c)] && s[1..][1..][1..] == [];
    assert DigitRun(s) == 3;
    assert s[..3] == s && s[..2] == [DigitChar(a), DigitChar(b)];
    var p := s[..2];
    assert p[..1] == [DigitChar(a)] && p[..1][..0] == [];
    assert DecimalValue(p[..1]) == a;
    assert DecimalValue(p) == 10 * a + b;
  }

  /** A blank before two digits is skipped: " 38" reads as 38, and text that
      does not start with a digit reads as 0 ("H38"). */
  lemma ToIntExamples()
    ensures ToInt(" 38") == 38
    ensures ToInt("H38") == 0
  {
    assert " 38"[1..] == "38";
    assert DigitRun("38") == 2;
    assert "38"[..2] == "38" && "38"[..1] == "3" && "3"[..0] == [];
  }

  /** The character a `uint8_t` state field holds, cast back with `(char)`. */
  function CharOfByte(b: u8): char
  {
    b as char
  }

  /** `(uint8_t)_getChar(...)`. */
  function ByteOfChar(c: char): u8
  {
    U8(c as int)
  }

  /** `(payload[idx] & (1 << bit)) > 0` as a `uint8_t` flag. */
  function LedFlag(p: seq<bv8>, idx: nat, bit: nat): (f: u8)
    requires idx < |p| && bit < 8
    ensures f <= 1 && (f == 1 <==> Bit(p[idx], bit))
  {
    if Bit(p[idx], bit) then 1 else 0
  }

  /** The LED and digit part of updateStates() for a received payload `p`:
      each LED from its bit, power forced on, the unit only while the C or
      F LED is lit (Celsius when C is), heat when either heater LED is lit,
      jets only on models that have them, and the digits through
      _getChar(). */
  function DecodeLeds(l: PayloadLayout, s: States, p: seq<bv8>, hasJets: bool): States
    requires |p| == PAYLOAD_LEN
  {
    var grn := LedFlag(p, l.grnIdx, l.grnBit);
    var red := LedFlag(p, l.redIdx, l.redBit);
    var celsius := Bit(p[l.cIdx], l.cBit);
    s.(locked := LedFlag(p, l.lckIdx, l.lckBit),
       power := 1,
       unit := if celsius || Bit(p[l.fIdx], l.fBit) then LedFlag(p, l.cIdx, l.cBit) else s.unit,
       bubbles := LedFlag(p, l.airIdx, l.airBit),
       heatgrn := grn, heatred := red,
       timerled1 := LedFlag(p, l.tmr1Idx, l.tmr1Bit),
       timerled2 := LedFlag(p, l.tmr2Idx, l.tmr2Bit),
       timerbuttonled := LedFlag(p, l.tmrBtnIdx, l.tmrBtnBit),
       heat := if grn == 1 || red == 1 then 1 else 0,
       pump := LedFlag(p, l.fltIdx, l.fltBit),
       char1 := ByteOfChar(GetChar(l, p[l.dgt1Idx])),
       char2 := ByteOfChar(GetChar(l, p[l.dgt2Idx])),
       char3 := ByteOfChar(GetChar(l, p[l.dgt3Idx])),
       jets := if hasJets then LedFlag(p, l.hjtIdx, l.hjtBit) else 0)
  }

  /** Decoding reports the unit powered, heat exactly when a heater LED is
      lit, no jets without them, and keeps the unit while neither unit LED
      is lit; the temperature, target and error are left to the display
      reading. */
  lemma DecodeLedsFlags(l: PayloadLayout, s: States, p: seq<bv8>, hasJets: bool)
    requires |p| == PAYLOAD_LEN
    ensures DecodeLeds(l, s, p, hasJets).power == 1
    ensures DecodeLeds(l, s, p, hasJets).heat == 1 <==>
              Bit(p[l.grnIdx], l.grnBit) || Bit(p[l.redIdx], l.redBit)
    ensures !hasJets ==> DecodeLeds(l, s, p, hasJets).jets == 0
    ensures !Bit(p[l.cIdx], l.cBit) && !Bit(p[l.fIdx], l.fBit) ==> DecodeLeds(l, s, p, hasJets).unit == s.unit
    ensures Bit(p[l.cIdx], l.cBit) ==> DecodeLeds(l, s, p, hasJets).unit == 1
    ensures !Bit(p[l.cIdx], l.cBit) && Bit(p[l.fIdx], l.fBit) ==> DecodeLeds(l, s, p, hasJets).unit == 0
    ensures DecodeLeds(l, s, p, hasJets).temperature == s.temperature
    ensures DecodeLeds(l, s, p, hasJets).target == s.target
    ensures DecodeLeds(l, s, p, hasJets).error == s.error
  {
  }

  /** The static `capturePhase` of updateStates(). */
  datatype Readmode = ReadTemperature | Uncertain | ReadTarget

  /** The states and the two statics after a display reading. */
  datatype Capture = Capture(states: States, phase: Readmode, releaseTime: u32)

  /** '*', the character of an unreadable digit. */
  const STAR: u8 := 42

  /** The display part of updateStates(), at `now` = millis(): nothing for an
      unreadable digit; an error number after 'e'; nothing for a display
      ending in 'H' or ' '; otherwise the error is cleared, an UP or DOWN
      code restarts the capture window (and arms target capture while the
      unit is on and unlocked), the phase decays after 2 and 6 seconds, and
      the displayed number goes to the target or the temperature by phase. */
  function ReadDisplay(s: States, buttonCode: u16, phase: Readmode, release: u32, now: u32): Capture
  {
    if s.char1 == STAR || s.char2 == STAR || s.char3 == STAR then Capture(s, phase, release)
    else if s.char1 == 'e' as int then
      Capture(s.(error := U8(ToInt([CharOfByte(s.char2), CharOfByte(s.char3)]))), phase, release)
    else if s.char3 == 'H' as int || s.char3 == ' ' as int then Capture(s, phase, release)
    else
      var pressed := buttonCode == ButtonCode(UP) || buttonCode == ButtonCode(DOWN);
      var release1 := if pressed then now else release;
      var phase1 := if pressed && s.power != 0 && s.locked == 0 then ReadTarget else phase;
      var phase2 :=
        if Elapsed(now, release1) > 6000 then ReadTemperature
        else if Elapsed(now, release1) > 2000 then Uncertain
        else phase1;
      var v := U8(ToInt([CharOfByte(s.char1), CharOfByte(s.char2), CharOfByte(s.char3)]));
      var s1 := s.(error := 0);
      var s2 := if phase2 == ReadTarget && v > 19 then s1.(target := v) else s1;
      var s3 := if phase2 == ReadTemperature then s2.(temperature := v) else s2;
      Capture(s3, phase2, release1)
  }

  /** The number on the display, as updateStates() converts it. */
  function DisplayedValue(s: States): u8
  {
    U8(ToInt([CharOfByte(s.char1), CharOfByte(s.char2), CharOfByte(s.char3)]))
  }

  /** A display that is unreadable, or ends in 'H' or ' ', changes nothing,
      not even the error. */
  lemma ReadDisplaySkips(s: States, buttonCode: u16, phase: Readmode, release: u32, now: u32)
    requires s.char1 == STAR || s.char2 == STAR || s.char3 == STAR ||
             (s.char1 != 'e' as int && (s.char3 == 'H' as int || s.char3 == ' ' as int))
    ensures ReadDisplay(s, buttonCode, phase, release, now) == Capture(s, phase, release)
  {
  }

  /** "eNN" sets the error to NN and changes nothing else. */
  lemma {:induction false} ReadDisplayError(s: States, a: nat, b: nat, buttonCode: u16, phase: Readmode,
                                            release: u32, now: u32)
    requires a <= 9 && b <= 9
    requires s.char1 == 'e' as int && s.char2 == DigitChar(a) as int && s.char3 == DigitChar(b) as int
    ensures ReadDisplay(s, buttonCode, phase, release, now) == Capture(s.(error := 10 * a + b), phase, release)
  {
    ToIntTwoDigits(a, b);
  }

  /** The number is written to the target only in the target phase and
      when above 19, to the temperature only in the temperature phase, and
      the target phase never outlasts 2 seconds after the last UP or DOWN. */
  lemma ReadDisplayPhases(s: States, buttonCode: u16, phase: Readmode, release: u32, now: u32)
    requires phase == ReadTarget ==> Elapsed(now, release) <= 2000
    ensures var r := ReadDisplay(s, buttonCode, phase, release, now);
      (r.states.target != s.target ==> r.phase == ReadTarget && r.states.target == DisplayedValue(s) > 19) &&
      (r.states.temperature != s.temperature ==> r.phase == ReadTemperature && r.states.temperature == DisplayedValue(s)) &&
      (r.phase == ReadTarget ==> Elapsed(now, r.releaseTime) <= 2000)
  {
  }

  /** Pressing UP or DOWN on an unlocked, powered unit captures the number
      shown (when above 19) as the new target and keeps the temperature. */
  lemma ReadDisplayCapturesTarget(s: States, buttonCode: u16, phase: Readmode, release: u32, now: u32)
    requires s.char1 != STAR && s.char2 != STAR && s.char3 != STAR && s.char1 != 'e' as int
    requires s.char3 != 'H' as int && s.char3 != ' ' as int
    requires buttonCode == ButtonCode(UP) || buttonCode == ButtonCode(DOWN)
    requires s.power != 0 && s.locked == 0
    ensures var r := ReadDisplay(s, buttonCode, phase, release, now);
      r.phase == ReadTarget && r.releaseTime == now && r.states.error == 0 &&
      r.states.temperature == s.temperature &&
      r.states.target == (if DisplayedValue(s) > 19 then DisplayedValue(s) else s.target)
  {
  }

  /** More than 6 seconds after the last UP or DOWN the number shown is the
      water temperature; between 2 and 6 seconds it is ignored. */
  lemma ReadDisplayTimeouts(s: States, buttonCode: u16, phase: Readmode, release: u32, now: u32)
    requires s.char1 != STAR && s.char2 != STAR && s.char3 != STAR && s.char1 != 'e' as int
    requires s.char3 != 'H' as int && s.char3 != ' ' as int
    requires buttonCode != ButtonCode(UP) && buttonCode != ButtonCode(DOWN)
    ensures var r := ReadDisplay(s, buttonCode, phase, release, now);
      (Elapsed(now, release) > 6000 ==>
         r.phase == ReadTemperature && r.states == s.(error := 0, temperature := DisplayedValue(s))) &&
      (2000 < Elapsed(now, release) <= 6000 ==>
         r.phase == Uncertain && r.states == s.(error := 0))
  {
  }

  /** Three digits shown are read as their number modulo 256 ("104" is
      104). */
  lemma {:induction false} DisplayedValueDigits(s: States, a: nat, b: nat, c: nat)
    requires a <= 9 && b <= 9 && c <= 9
    requires s.char1 == DigitChar(a) as int && s.char2 == DigitChar(b) as int && s.char3 == DigitChar(c) as int
    ensures DisplayedValue(s) == U8(100 * a + 10 * b + c)
  {
    assert CharOfByte(s.char1) == DigitChar(a) && CharOfByte(s.char2) == DigitChar(b);
    assert CharOfByte(s.char3) == DigitChar(c);
    ToIntThreeDigits(a, b, c);
  }

  /** CIO_54149E::getHasjets(). */
  const HAS_JETS: bool := true

  /** The driver state of a 54149E controller. `brightnessCmd` is the raw
      `_brightness` command byte, `brightness` its published low three bits;
      `capturePhase` and `buttonReleaseTime` are the statics of
      updateStates(). */
  class CioType2 {
    const layout: PayloadLayout
    const payload: array<bv8>
    const rawPayloadFromCio: array<bv8>
    var byteCount: nat
    var bitCount: nat
    var receivedByte: bv8
    var sendBit: nat
    var brightnessCmd: bv8
    var receivedCmd: bv8
    var newPacketAvailable: bool
    var packetTransmActive: bool
    var buttonCode: u16
    var states: States
    var brightness: u8
    var goodPacketsCount: nat
    var badPacketsCount: nat
    var capturePhase: Readmode
    var buttonReleaseTime: u32

    /** Two distinct 5-byte buffers and a layout inside them. */
    ghost predicate Valid()
      reads this
    {
      payload.Length == PAYLOAD_LEN && rawPayloadFromCio.Length == PAYLOAD_LEN &&
      payload != rawPayloadFromCio
    }

    constructor(layout: PayloadLayout)
      ensures Valid() && this.layout == layout && fresh(payload) && fresh(rawPayloadFromCio)
      ensures byteCount == 0 && bitCount == 0 && receivedByte == 0 && sendBit == 8
      ensures brightnessCmd == 7 && receivedCmd == 0 && !newPacketAvailable && !packetTransmActive
      ensures buttonCode == 0 && states == DefaultStates && brightness == 7
      ensures goodPacketsCount == 0 && badPacketsCount == 0
      ensures capturePhase == ReadTemperature && buttonReleaseTime == 0
    {
      this.layout := layout;
      payload := new bv8[PAYLOAD_LEN];
      rawPayloadFromCio := new bv8[PAYLOAD_LEN];
      byteCount := 0;
      bitCount := 0;
      receivedByte := 0;
      sendBit := 8;
      brightnessCmd := 7;
      receivedCmd := 0;
      newPacketAvailable := false;
      packetTransmActive := false;
      buttonCode := 0;
      states := DefaultStates;
      brightness := 7;
      goodPacketsCount := 0;
      badPacketsCount := 0;
      capturePhase := ReadTemperature;
      buttonReleaseTime := 0;
    }

    /** The state setup() leaves: the NOBTN code on the TD line. */
    method Setup()
      modifies this`buttonCode
      ensures buttonCode == ButtonCode(NOBTN)
    {
      buttonCode := ButtonCode(NOBTN);
    }

    /** setButtonCode(). */
    method SetButtonCode(code: u16)
      modifies this`buttonCode
      ensures buttonCode == code
    {
      buttonCode := code;
    }

    /** The copy loop of updateStates(). */
    method CopyIn()
      requires Valid()
      modifies rawPayloadFromCio
      ensures rawPayloadFromCio[..] == payload[..]
    {
      for i := 0 to PAYLOAD_LEN
        invariant forall j :: 0 <= j < i ==> rawPayloadFromCio[j] == payload[j]
      {
        rawPayloadFromCio[i] := payload[i];
      }
      assert rawPayloadFromCio[..] == payload[..];
    }

    /** updateStates(now): a no-op without a new packet; otherwise the
        packet is consumed and copied out, counted, the brightness published,
        and the states and capture statics follow `DecodeLeds` and
        `ReadDisplay`. */
    method UpdateStates(now: u32)
      requires Valid()
      modifies this`newPacketAvailable, rawPayloadFromCio, this`goodPacketsCount, this`brightness
      modifies this`states, this`capturePhase, this`buttonReleaseTime
      ensures Valid()
      ensures !old(newPacketAvailable) ==>
                !newPacketAvailable && rawPayloadFromCio[..] == old(rawPayloadFromCio[..]) &&
                goodPacketsCount == old(goodPacketsCount) && brightness == old(brightness) &&
                states == old(states) && capturePhase == old(capturePhase) &&
                buttonReleaseTime == old(buttonReleaseTime)
      ensures old(newPacketAvailable) ==>
                !newPacketAvailable && rawPayloadFromCio[..] == payload[..] &&
                goodPacketsCount == old(goodPacketsCount) + 1 &&
                brightness == FromBits(brightnessCmd & 7) &&
                (var c := ReadDisplay(DecodeLeds(layout, old(states), payload[..], HAS_JETS), buttonCode,
                                      old(capturePhase), old(buttonReleaseTime), now);
                 states == c.states && capturePhase == c.phase && buttonReleaseTime == c.releaseTime)
    {
      if !newPacketAvailable {
        return;
      }
      newPacketAvailable := false;
      CopyIn();
      goodPacketsCount := goodPacketsCount + 1;
      brightness := FromBits(brightnessCmd & 7);
      DecodeInto(rawPayloadFromCio[..]);
      ReadInto(now);
    }

    /** The LED and digit updates of updateStates() for the copied payload `p`. */
    method DecodeInto(p: seq<bv8>)
      requires |p| == PAYLOAD_LEN
      modifies this`states
      ensures states == DecodeLeds(layout, old(states), p, HAS_JETS)
    {
      states := DecodeLeds(layout, states, p, HAS_JETS);
    }

    /** The display reading of updateStates() at `now`. */
    method ReadInto(now: u32)
      modifies this`states, this`capturePhase, this`buttonReleaseTime
      ensures var c := ReadDisplay(old(states), buttonCode, old(capturePhase), old(buttonReleaseTime), now);
        states == c.states && capturePhase == c.phase && buttonReleaseTime == c.releaseTime
    {
      var c := ReadDisplay(states, buttonCode, capturePhase, buttonReleaseTime, now);
      states := c.states;
      capturePhase := c.phase;
      buttonReleaseTime := c.releaseTime;
    }

    /** LED_Handler() with the sampled CLK and LD levels: an LD change while
        CLK is high starts (LD low) or ends (LD high) a packet. */
    method LedHandler(clkHigh: bool, ldHigh: bool)
      modifies this`byteCount, this`bitCount, this`receivedCmd
      modifies this`newPacketAvailable, this`packetTransmActive
      ensures clkHigh ==>
                byteCount == 0 && bitCount == 0 && receivedCmd == 0 &&
                newPacketAvailable == ldHigh && packetTransmActive == !ldHigh
      ensures !clkHigh ==>
                byteCount == old(byteCount) && bitCount == old(bitCount) &&
                receivedCmd == old(receivedCmd) && newPacketAvailable == old(newPacketAvailable) &&
                packetTransmActive == old(packetTransmActive)
    {
      if clkHigh {
        byteCount := 0;
        bitCount := 0;
        receivedCmd := 0;
        newPacketAvailable := ldHigh;
        packetTransmActive := !newPacketAvailable;
      }
    }

    /** clkHandler() at one CLK edge. On a rising edge: the first eight LD
        bits are ored into the command byte; after the data command the bits
        of bytes 1 to 5 each replace one bit of the payload; at bit 7 a
        brightness command (top bits 10) is kept. On a falling edge: bit
        `bit_count % 10` of the button frame goes out on TD. */
    method ClkHandler(risingEdge: bool, ldHigh: bool) returns (td: Option<bool>)
      requires Valid()
      modifies this`byteCount, this`receivedCmd, payload, this`brightnessCmd, this`bitCount
      ensures Valid()
      ensures risingEdge ==>
                td == None && byteCount == old(bitCount) / 8 && bitCount == old(bitCount) + 1
      ensures risingEdge ==>
                receivedCmd ==
                  if old(bitCount) < 8 then old(receivedCmd) | BitOf(ldHigh, old(bitCount)) else old(receivedCmd)
      ensures risingEdge && 8 <= old(bitCount) < 48 && old(receivedCmd) == layout.cmd2 ==>
                payload[..] == old(payload[..])[old(bitCount) / 8 - 1 :=
                  SetBit(old(payload[bitCount / 8 - 1]), old(bitCount) % 8, ldHigh)]
      ensures risingEdge && !(8 <= old(bitCount) < 48 && old(receivedCmd) == layout.cmd2) ==>
                payload[..] == old(payload[..])
      ensures risingEdge ==>
                brightnessCmd ==
                  if old(bitCount) == 7 && receivedCmd & 0xC0 == 0x80 then receivedCmd else old(brightnessCmd)
      ensures !risingEdge ==>
                td == Some(Bit16(ButtonFrame(buttonCode), bitCount % 10)) &&
                byteCount == old(byteCount) && bitCount == old(bitCount) &&
                receivedCmd == old(receivedCmd) && brightnessCmd == old(brightnessCmd) &&
                payload[..] == old(payload[..])
    {
      if risingEdge {
        byteCount := bitCount / 8;
        var ldBit := bitCount % 8;
        if byteCount == 0 {
          receivedCmd := receivedCmd | BitOf(ldHigh, ldBit);
        } else if byteCount < 6 && receivedCmd == layout.cmd2 {
          payload[byteCount - 1] := SetBit(payload[byteCount - 1], ldBit, ldHigh);
        }
        if bitCount == 7 && receivedCmd & 0xC0 == 0x80 {
          brightnessCmd := receivedCmd;
        }
        bitCount := bitCount + 1;
        td := None;
      } else {
        td := Some(Bit16(ButtonFrame(buttonCode), bitCount % 10));
      }
    }
  }
}
