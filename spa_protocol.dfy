/** The generic helpers of `spa_protocol.h`: the XOR checksum that seals a
    packet, the hexadecimal 7-segment codec, the DSP and CIO packet layouts,
    and the per-model lookups of `ModelConfig`. */
module SpaProtocol {
  import opened Bytes

  /** XOR of all bytes of `s`. */
  function Xor(s: seq<bv8>): bv8
  {
    if s == [] then 0 else Xor(s[..|s| - 1]) ^ s[|s| - 1]
  }

  /** The XOR of a concatenation is the XOR of the two parts. */
  lemma {:induction false} XorAppend(a: seq<bv8>, b: seq<bv8>)
    ensures Xor(a + b) == Xor(a) ^ Xor(b)
    decreases |b|
  {
    if b != [] {
      var n := |b| - 1;
      assert (a + b)[..|a + b| - 1] == a + b[..n];
      XorAppend(a, b[..n]);
    } else {
      assert a + b == a;
    }
  }

  /** The XOR of one byte is that byte. */
  lemma XorSingle(v: bv8)
    ensures Xor([v]) == v
  {
    assert [v][..0] == [];
  }

  /** The XOR of `s` split around byte `i`. */
  lemma XorSplit(s: seq<bv8>, i: nat)
    requires i < |s|
    ensures Xor(s) == Xor(s[..i]) ^ s[i] ^ Xor(s[i + 1..])
  {
    var pre, post := s[..i], s[i + 1..];
    assert s == (pre + [s[i]]) + post;
    XorAppend(pre + [s[i]], post);
    XorAppend(pre, [s[i]]);
    XorSingle(s[i]);
  }

  /** Replacing byte `i` by `x` changes the XOR by `s[i] ^ x`. */
  lemma XorUpdate(s: seq<bv8>, i: nat, x: bv8)
    requires i < |s|
    ensures Xor(s[i := x]) == Xor(s) ^ s[i] ^ x
  {
    XorSplit(s, i);
    XorSplit(s[i := x], i);
    assert s[i := x][..i] == s[..i] && s[i := x][i + 1..] == s[i + 1..];
  }

  /** calculate_checksum(data, len): the XOR of the first `len - 1` bytes,
      the last byte being the checksum itself. `len` must be at least 1: the
      bound `len - 1` is unsigned and would wrap for 0. */
  method CalculateChecksum(data: seq<bv8>, len: nat) returns (checksum: bv8)
    requires 1 <= len <= |data|
    ensures checksum == Xor(data[..len - 1])
  {
    checksum := 0;
    for i := 0 to len - 1
      invariant checksum == Xor(data[..i])
    {
      assert data[..i + 1][..i] == data[..i];
      checksum := checksum ^ data[i];
    }
  }

  /** What validate_packet(data, len) decides: at least two bytes, and the
      last of the `len` bytes is the XOR of the others. */
  predicate IsValidPacket(data: seq<bv8>, len: nat)
    requires len < 2 || len <= |data|
  {
    len >= 2 && Xor(data[..len - 1]) == data[len - 1]
  }

  /** validate_packet(data, len): false below two bytes, else the checksum
      comparison. */
  method ValidatePacket(data: seq<bv8>, len: nat) returns (ok: bool)
    requires len < 2 || len <= |data|
    ensures ok == IsValidPacket(data, len)
  {
    if len < 2 {
      return false;
    }
    var computed := CalculateChecksum(data, len);
    ok := computed == data[len - 1];
  }

  /** A packet of two or more bytes is valid exactly when the XOR of all its
      bytes, checksum included, is zero. */
  lemma ValidIffXorZero(data: seq<bv8>, len: nat)
    requires 2 <= len <= |data|
    ensures IsValidPacket(data, len) <==> Xor(data[..len]) == 0
  {
    assert data[..len] == data[..len - 1] + [data[len - 1]];
    XorAppend(data[..len - 1], [data[len - 1]]);
    XorSingle(data[len - 1]);
  }

  /** Sealing any nonempty byte sequence with its XOR gives a valid packet. */
  lemma SealedPacketValid(b: seq<bv8>)
    requires |b| >= 1
    ensures IsValidPacket(b + [Xor(b)], |b| + 1)
  {
    assert (b + [Xor(b)])[..|b|] == b;
  }

  /** Changing any one byte of a valid packet, the checksum included, makes
      it invalid: every single-byte error is detected. */
  lemma SingleByteErrorDetected(data: seq<bv8>, len: nat, i: nat, x: bv8)
    requires 2 <= len <= |data| && i < len && x != data[i]
    requires IsValidPacket(data, len)
    ensures !IsValidPacket(data[i := x], len)
  {
    ValidIffXorZero(data, len);
    ValidIffXorZero(data[i := x], len);
    assert data[i := x][..len] == data[..len][i := x];
    XorUpdate(data[..len], i, x);
    assert data[i] ^ x != 0;
  }

  /** `segments[i]`: the segment pattern of hexadecimal digit `i`. */
  function Segment(i: nat): u8
    requires i < 16
  {
    match i
    case 0 => 0x3F case 1 => 0x06 case 2 => 0x5B case 3 => 0x4F
    case 4 => 0x66 case 5 => 0x6D case 6 => 0x7D case 7 => 0x07
    case 8 => 0x7F case 9 => 0x6F case 10 => 0x77 case 11 => 0x7C
    case 12 => 0x39 case 13 => 0x5E case 14 => 0x79 case _ => 0x71
  }

  /** The character decode_7segment() returns for digit `i`: '0' to '9',
      then 'A' to 'F'. */
  function HexChar(i: nat): (c: char)
    requires i < 16
  {
    if i < 10 then ('0' as int + i) as char else ('A' as int + (i - 10)) as char
  }

  /** The first index from `i` on whose pattern is `seg`, or 16. */
  function FindSegment(seg: u8, i: nat): nat
    requires i <= 16
    decreases 16 - i
  {
    if i == 16 then 16 else if Segment(i) == seg then i else FindSegment(seg, i + 1)
  }

  /** The scan stops at a match, and at 16 only when there is none. */
  lemma {:induction false} FindSegmentFirst(seg: u8, i: nat)
    requires i <= 16
    ensures i <= FindSegment(seg, i) <= 16
    ensures FindSegment(seg, i) < 16 ==> Segment(FindSegment(seg, i)) == seg
    ensures FindSegment(seg, i) == 16 ==> forall j :: i <= j < 16 ==> Segment(j) != seg
    decreases 16 - i
  {
    if i < 16 && Segment(i) != seg {
      FindSegmentFirst(seg, i + 1);
    }
  }

  /** The sixteen patterns are distinct, so each is found at its own index. */
  lemma {:induction false} FindSegmentAt(i: nat, k: nat)
    requires i <= k < 16
    ensures FindSegment(Segment(k), i) == k
    decreases k - i
  {
    if i < k {
      assert Segment(i) != Segment(k);
      FindSegmentAt(i + 1, k);
    }
  }

  /** decode_7segment(segment): the digit of the first matching pattern, ' '
      when none matches. */
  function DecodeSegment(segment: u8): char
  {
    var i := FindSegment(segment, 0);
    if i < 16 then HexChar(i) else ' '
  }

  /** decode_7segment() as its scanning loop runs. */
  method Decode7Segment(segment: u8) returns (c: char)
    ensures c == DecodeSegment(segment)
  {
    var i := 0;
    while i < 16
      invariant i <= 16 && FindSegment(segment, i) == FindSegment(segment, 0)
    {
      if Segment(i) == segment {
        return HexChar(i);
      }
      i := i + 1;
    }
    c := ' ';
  }

  /** The hexadecimal digits, upper and lower case. */
  predicate IsHexDigit(c: char)
  {
    '0' <= c <= '9' || 'A' <= c <= 'F' || 'a' <= c <= 'f'
  }

  /** encode_7segment(c): the pattern of a hexadecimal digit of either case,
      0x00 (blank) for every other character. */
  function EncodeSegment(c: char): u8
  {
    if '0' <= c <= '9' then Segment(c as int - '0' as int)
    else if 'A' <= c <= 'F' then Segment(10 + (c as int - 'A' as int))
    else if 'a' <= c <= 'f' then Segment(10 + (c as int - 'a' as int))
    else 0x00
  }

  /** The character a digit reads back as: decimal digits and 'A' to 'F'
      unchanged, 'a' to 'f' in upper case, anything else blank. */
  function Normalised(c: char): char
  {
    if '0' <= c <= '9' || 'A' <= c <= 'F' then c
    else if 'a' <= c <= 'f' then (c as int - 'a' as int + 'A' as int) as char
    else ' '
  }

  /** Decoding the encoding of any character gives `Normalised(c)`: the
      codec round-trips every hexadecimal digit (lower case comes back upper)
      and blanks everything else. */
  lemma {:induction false} SegmentRoundTrip(c: char)
    ensures DecodeSegment(EncodeSegment(c)) == Normalised(c)
  {
    if IsHexDigit(c) {
      var k := if '0' <= c <= '9' then c as int - '0' as int
               else if 'A' <= c <= 'F' then 10 + (c as int - 'A' as int)
               else 10 + (c as int - 'a' as int);
      assert EncodeSegment(c) == Segment(k);
      FindSegmentAt(0, k);
    } else {
      assert EncodeSegment(c) == 0;
      FindSegmentFirst(0, 0);
    }
  }

  /** Only a hexadecimal digit has a nonblank pattern. */
  lemma EncodeBlankIffNotHex(c: char)
    ensures EncodeSegment(c) == 0 <==> !IsHexDigit(c)
  {
  }

  /** The three display bytes of create_display_message(text): NUL gives
      0x00, every other character its pattern. */
  function DisplayBytes(text: seq<char>): (d: seq<u8>)
    requires |text| >= 3
  {
    seq(3, i requires 0 <= i < 3 => if text[i] == '\0' then 0 else EncodeSegment(text[i]))
  }

  /** The NUL test changes nothing, since NUL encodes as blank anyway; and
      decoding the three bytes gives the text's first three characters,
      normalised. */
  lemma DisplayRoundTrip(text: seq<char>)
    requires |text| >= 3
    ensures |DisplayBytes(text)| == 3
    ensures forall i :: 0 <= i < 3 ==> DisplayBytes(text)[i] == EncodeSegment(text[i])
    ensures forall i :: 0 <= i < 3 ==> DecodeSegment(DisplayBytes(text)[i]) == Normalised(text[i])
  {
    forall i | 0 <= i < 3
      ensures DecodeSegment(DisplayBytes(text)[i]) == Normalised(text[i])
    {
      SegmentRoundTrip(text[i]);
    }
  }

  /** create_display_message(text, display): the loop writing the first three
      bytes of `display`; the bytes after them are untouched. The caller
      supplies at least three readable characters (NUL counts as one). */
  method CreateDisplayMessage(text: seq<char>, display: array<u8>)
    requires |text| >= 3 && display.Length >= 3
    modifies display
    ensures display[..3] == DisplayBytes(text)
    ensures display[3..] == old(display[3..])
  {
    for i := 0 to 3
      invariant forall j :: 0 <= j < i ==> display[j] == DisplayBytes(text)[j]
      invariant display[3..] == old(display[3..])
    {
      display[i] := if text[i] != '\0' then EncodeSegment(text[i]) else 0x00;
    }
  }

  /** The three display bytes of a DSP packet. */
  type Display = d: seq<bv8> | |d| == 3 witness [0, 0, 0]

  /** `DspPacket`: eleven one-byte fields in this order. */
  datatype DspPacket = DspPacket(start: bv8, tempHigh: bv8, tempLow: bv8, button: bv8,
                                 status: bv8, error: bv8, display: Display,
                                 reserved: bv8, checksum: bv8)

  /** `sizeof(DspPacket)`. */
  const DSP_PACKET_SIZE: nat := 11

  /** The start byte of a DSP packet. */
  const DSP_START: bv8 := 0xAA

  /** The packet's bytes in memory order. */
  function DspPacketBytes(p: DspPacket): (b: seq<bv8>)
    ensures |b| == DSP_PACKET_SIZE
  {
    [p.start, p.tempHigh, p.tempLow, p.button, p.status, p.error] + p.display +
    [p.reserved, p.checksum]
  }

  /** The packet `memcpy` fills from the first eleven bytes of `data`. */
  function DspPacketOf(data: seq<bv8>): DspPacket
    requires |data| >= DSP_PACKET_SIZE
  {
    DspPacket(data[0], data[1], data[2], data[3], data[4], data[5], data[6..9],
              data[9], data[10])
  }

  /** The layout round-trips both ways. */
  lemma DspPacketLayout(data: seq<bv8>, p: DspPacket)
    requires |data| >= DSP_PACKET_SIZE
    ensures DspPacketBytes(DspPacketOf(data)) == data[..DSP_PACKET_SIZE]
    ensures DspPacketOf(DspPacketBytes(p)) == p
  {
    var b := DspPacketBytes(p);
    assert b[6..9] == p.display;
  }

  /** parse_dsp_packet(data, packet): a first byte other than 0xAA is
      refused and leaves `packet` as it was; otherwise the eleven bytes are
      copied into the packet, whatever their checksum, and the verdict is
      the checksum's. */
  method ParseDspPacket(data: seq<bv8>, packet: DspPacket) returns (ok: bool, parsed: DspPacket)
    requires |data| >= 1 && (data[0] == DSP_START ==> |data| >= DSP_PACKET_SIZE)
    ensures data[0] != DSP_START ==> !ok && parsed == packet
    ensures data[0] == DSP_START ==>
              parsed == DspPacketOf(data) && ok == IsValidPacket(data, DSP_PACKET_SIZE)
  {
    if data[0] != DSP_START {
      return false, packet;
    }
    parsed := DspPacketOf(data);
    ok := ValidatePacket(data, DSP_PACKET_SIZE);
  }

  /** A packet with start byte 0xAA sealed with the XOR of its first ten
      bytes is accepted and parsed back to itself; changing any one of its
      bytes gets it refused. */
  lemma SealedDspPacketParses(p: DspPacket, i: nat, x: bv8)
    requires p.start == DSP_START
    requires p.checksum == Xor(DspPacketBytes(p)[..DSP_PACKET_SIZE - 1])
    requires i < DSP_PACKET_SIZE && x != DspPacketBytes(p)[i]
    ensures IsValidPacket(DspPacketBytes(p), DSP_PACKET_SIZE)
    ensures DspPacketOf(DspPacketBytes(p)) == p
    ensures !IsValidPacket(DspPacketBytes(p)[i := x], DSP_PACKET_SIZE)
  {
    DspPacketLayout(DspPacketBytes(p), p);
    SingleByteErrorDetected(DspPacketBytes(p), DSP_PACKET_SIZE, i, x);
  }

  /** The five reserved bytes of a CIO packet. */
  type Reserved = r: seq<bv8> | |r| == 5 witness [0, 0, 0, 0, 0]

  /** `CioPacket`: eleven one-byte fields in this order. */
  datatype CioPacket = CioPacket(start: bv8, targetHigh: bv8, targetLow: bv8, command: bv8,
                                 button: bv8, reserved: Reserved, checksum: bv8)

  /** `sizeof(CioPacket)`. */
  const CIO_PACKET_SIZE: nat := 11

  /** The start byte of a CIO packet. */
  const CIO_START: bv8 := 0x55

  /** The packet's bytes in memory order. */
  function CioPacketBytes(p: CioPacket): (b: seq<bv8>)
    ensures |b| == CIO_PACKET_SIZE
  {
    [p.start, p.targetHigh, p.targetLow, p.command, p.button] + p.reserved + [p.checksum]
  }

  /** build_cio_packet(packet, target, command, button), with `temp` the
      target already in protocol form (tenths of a degree, 16 bits): start
      byte 0x55, the target's high and low byte, command and button copied,
      reserved bytes zeroed, and the XOR of the first ten bytes as checksum,
      so the packet always validates. */
  method BuildCioPacket(temp: bv16, command: bv8, button: bv8) returns (p: CioPacket)
    ensures p.start == CIO_START && p.command == command && p.button == button
    ensures ((p.targetHigh as bv16) << 8) | (p.targetLow as bv16) == temp
    ensures p.reserved == [0, 0, 0, 0, 0]
    ensures IsValidPacket(CioPacketBytes(p), CIO_PACKET_SIZE)
  {
    var high := ((temp >> 8) & 0xFF) as bv8;
    var low := (temp & 0xFF) as bv8;
    p := CioPacket(CIO_START, high, low, command, button, [0, 0, 0, 0, 0], 0);
    var sum := CalculateChecksum(CioPacketBytes(p), CIO_PACKET_SIZE);
    ghost var unsealed := CioPacketBytes(p);
    p := p.(checksum := sum);
    assert CioPacketBytes(p)[..CIO_PACKET_SIZE - 1] == unsealed[..CIO_PACKET_SIZE - 1];
  }

  /** `ModelConfig::Model`. */
  datatype Model = Model6Wire2021 | Model6WirePre2021 | Model4Wire2021 | Model4WirePre2021

  /** has_cio(model): the two 6-wire models. */
  predicate HasCio(m: Model)
  {
    m == Model6Wire2021 || m == Model6WirePre2021
  }

  /** has_jets(model): the 2021 6-wire model only. */
  predicate HasJets(m: Model)
  {
    m == Model6Wire2021
  }

  /** Jets only on a model with a CIO, and on exactly one model. */
  lemma JetsNeedCio(m: Model)
    ensures HasJets(m) ==> HasCio(m)
    ensures HasJets(m) <==> m == Model6Wire2021
    ensures HasCio(m) <==> m != Model4Wire2021 && m != Model4WirePre2021
  {
  }

  /** `SpaButton`. */
  datatype SpaButton = BtnNone | BtnTempUp | BtnTempDown | BtnUnit | BtnLock
                     | BtnHeater | BtnFilter | BtnBubbles | BtnJets | BtnPower

  /** The enumerator values of `SpaButton`. */
  function ButtonValue(b: SpaButton): u8
  {
    match b
    case BtnNone => 0x00 case BtnTempUp => 0x01 case BtnTempDown => 0x02
    case BtnUnit => 0x04 case BtnLock => 0x08 case BtnHeater => 0x10
    case BtnFilter => 0x20 case BtnBubbles => 0x40 case BtnJets => 0x80
    case BtnPower => 0xFF
  }

  /** get_button_code(model, button): on the 4-wire models HEATER, FILTER
      and BUBBLES are remapped to 0x08, 0x04 and 0x02; every other code is
      the button's own value. */
  function GetButtonCode(m: Model, b: SpaButton): u8
  {
    match m
    case Model4Wire2021 | Model4WirePre2021 =>
      (match b
       case BtnHeater => 0x08
       case BtnFilter => 0x04
       case BtnBubbles => 0x02
       case _ => ButtonValue(b))
    case _ => ButtonValue(b)
  }

  /** On the 6-wire models every button has a code of its own. On the
      4-wire models the three remapped buttons take the codes of LOCK, UNIT
      and TEMP_DOWN, so those pairs cannot be told apart; all other buttons
      keep their own values. */
  lemma ButtonCodeCollisions(m: Model, a: SpaButton, b: SpaButton)
    ensures HasCio(m) && a != b ==> GetButtonCode(m, a) != GetButtonCode(m, b)
    ensures !HasCio(m) ==>
              GetButtonCode(m, BtnHeater) == GetButtonCode(m, BtnLock) &&
              GetButtonCode(m, BtnFilter) == GetButtonCode(m, BtnUnit) &&
              GetButtonCode(m, BtnBubbles) == GetButtonCode(m, BtnTempDown)
    ensures a !in {BtnHeater, BtnFilter, BtnBubbles} ==> GetButtonCode(m, a) == ButtonValue(a)
  {
  }

  /** get_model_name(model). */
  function ModelName(m: Model): string
  {
    match m
    case Model6Wire2021 => "6-Wire 2021"
    case Model6WirePre2021 => "6-Wire Pre-2021"
    case Model4Wire2021 => "4-Wire 2021"
    case Model4WirePre2021 => "4-Wire Pre-2021"
  }

  /** Every model has a name of its own. */
  lemma ModelNamesDistinct(a: Model, b: Model)
    ensures a != b ==> ModelName(a) != ModelName(b)
  {
  }
}
