/** The controller side of the 6-wire TYPE2 bus as `cio_type2.cpp/.h` read
    it: chip select frames a 5-byte packet (a command byte, three digit
    bytes and an LED byte), bits arrive LSB first on rising clock edges,
    and after the get-buttons command the 16-bit button code goes out on
    falling edges. Interrupt handlers are step methods over the sampled pin
    levels. */
module CioType2 {
  import opened Bytes
  import opened Wrappers
  import opened Lookup

  /** The command bytes. */
  const CIO_CMD_BEGIN_TYPE2: bv8 := 0x01
  const CIO_CMD_END_TYPE2: bv8 := 0x00
  const CIO_CMD_GETBUTTONS_TYPE2: bv8 := 0x10

  /** The LED masks of byte 4. */
  const LED_POWER_TYPE2: bv8 := 0x01
  const LED_BUBBLES_TYPE2: bv8 := 0x02
  const LED_JETS_TYPE2: bv8 := 0x04
  const LED_HEATGRN_TYPE2: bv8 := 0x08
  const LED_HEATRED_TYPE2: bv8 := 0x10
  const LED_PUMP_TYPE2: bv8 := 0x20
  const LED_UNIT_F_TYPE2: bv8 := 0x40
  const LED_LOCK_TYPE2: bv8 := 0x80

  /** The eight LED masks are distinct single bits that together cover the byte. */
  lemma LedMasksPartitionByte()
    ensures LED_POWER_TYPE2 | LED_BUBBLES_TYPE2 | LED_JETS_TYPE2 | LED_HEATGRN_TYPE2 |
            LED_HEATRED_TYPE2 | LED_PUMP_TYPE2 | LED_UNIT_F_TYPE2 | LED_LOCK_TYPE2 == 0xFF
    ensures LED_POWER_TYPE2 == BitMask(0) && LED_BUBBLES_TYPE2 == BitMask(1)
    ensures LED_JETS_TYPE2 == BitMask(2) && LED_HEATGRN_TYPE2 == BitMask(3)
    ensures LED_HEATRED_TYPE2 == BitMask(4) && LED_PUMP_TYPE2 == BitMask(5)
    ensures LED_UNIT_F_TYPE2 == BitMask(6) && LED_LOCK_TYPE2 == BitMask(7)
  {
  }

  /** `CHARCODES_TYPE2_DISP[i]`: the segment pattern of `CHARS_TYPE2[i]`. */
  function CharCode(i: nat): u8
    requires i < 38
  {
    match i
    case 0 => 0x3F case 1 => 0x06 case 2 => 0x5B case 3 => 0x4F case 4 => 0x66
    case 5 => 0x6D case 6 => 0x7D case 7 => 0x07 case 8 => 0x7F case 9 => 0x6F
    case 10 => 0x77 case 11 => 0x7C case 12 => 0x39 case 13 => 0x5E case 14 => 0x79
    case 15 => 0x71 case 16 => 0x3D case 17 => 0x76 case 18 => 0x06 case 19 => 0x0E
    case 20 => 0x70 case 21 => 0x38 case 22 => 0x15 case 23 => 0x54 case 24 => 0x5C
    case 25 => 0x73 case 26 => 0x67 case 27 => 0x50 case 28 => 0x6D case 29 => 0x78
    case 30 => 0x3E case 31 => 0x3E case 32 => 0x3E case 33 => 0x76 case 34 => 0x6E
    case 35 => 0x5B case 36 => 0x00 case _ => 0x40
  }

  /** `CHARS_TYPE2` without its terminating NUL: one character per code. */
  const CHARS_TYPE2: string := "0123456789ABCDEFGHIJKLMNOPQRSTUVWXYZ -"

  /** The table as decodeChar() scans it. */
  function SegmentTable(): (t: seq<int>)
    ensures |t| == |CHARS_TYPE2|
  {
    seq(|CHARS_TYPE2|, i requires 0 <= i < |CHARS_TYPE2| => CharCode(i))
  }

  /** The index decodeChar() stops at: the first exact match, or 38. */
  function CharIndex(segments: bv8): (i: nat)
    ensures i <= |CHARS_TYPE2|
  {
    FirstIndex(SegmentTable(), FromBits(segments))
  }

  /** decodeChar(segments): the character of the first exact match, ' ' for
      0x00 and '?' for a pattern not in the table. */
  function DecodeChar(segments: bv8): (c: char)
    ensures c == '?' || c in CHARS_TYPE2
  {
    var i := CharIndex(segments);
    if i < |CHARS_TYPE2| then CHARS_TYPE2[i]
    else if segments == 0x00 then ' '
    else '?'
  }

  /** decodeChar() as its scanning loop runs. */
  method DecodeCharScan(segments: bv8) returns (c: char)
    ensures c == DecodeChar(segments)
  {
    var i := Scan(SegmentTable(), FromBits(segments));
    if i < |CHARS_TYPE2| {
      c := CHARS_TYPE2[i];
    } else if segments == 0x00 {
      c := ' ';
    } else {
      c := '?';
    }
  }

  /** Codes repeat (0x06 for '1' and 'I', 0x76 for 'H' and 'X', 0x6D for '5'
      and 'S', 0x5B for '2' and 'Z', 0x3E for 'U', 'V' and 'W'), so
      decoding never stops at 'I', 'S', 'V', 'W', 'X' or 'Z'. */
  lemma {:induction false} DecodeNeverShadowed(segments: bv8)
    ensures CHARS_TYPE2[18] == 'I' && CHARS_TYPE2[28] == 'S' && CHARS_TYPE2[31] == 'V'
    ensures CHARS_TYPE2[32] == 'W' && CHARS_TYPE2[33] == 'X' && CHARS_TYPE2[35] == 'Z'
    ensures CharIndex(segments) != 18 && CharIndex(segments) != 28 && CharIndex(segments) != 31
    ensures CharIndex(segments) != 32 && CharIndex(segments) != 33 && CharIndex(segments) != 35
  {
    var t := SegmentTable();
    assert t[1] == t[18] && t[5] == t[28] && t[30] == t[31] && t[30] == t[32];
    assert t[17] == t[33] && t[2] == t[35];
  }

  /** The codes of the characters other than those six occur nowhere
      earlier in the table (the first half of the table, then the second). */
  lemma {:induction false} CodeFirstInLowHalf(k: nat)
    requires k < 19 && k != 18
    ensures forall j :: 0 <= j < k ==> SegmentTable()[j] != SegmentTable()[k]
  {
  }

  lemma {:induction false} CodeFirstInHighHalf(k: nat)
    requires 19 <= k < |CHARS_TYPE2|
    requires k != 28 && k != 31 && k != 32 && k != 33 && k != 35
    ensures forall j :: 0 <= j < k ==> SegmentTable()[j] != SegmentTable()[k]
  {
  }

  /** Every other character is decoded from a byte holding its code. */
  lemma {:induction false} DecodeCharOfCode(k: nat, segments: bv8)
    requires k < |CHARS_TYPE2|
    requires k != 18 && k != 28 && k != 31 && k != 32 && k != 33 && k != 35
    requires segments as int == CharCode(k)
    ensures DecodeChar(segments) == CHARS_TYPE2[k]
  {
    if k < 19 {
      CodeFirstInLowHalf(k);
    } else {
      CodeFirstInHighHalf(k);
    }
    FirstIndexOfDistinct(SegmentTable(), k);
  }

  /** The temperature parsePacket() reads from the display: ten times a
      leading digit (plus the second character when it is a digit), else two
      trailing digits, else nothing. */
  function DisplayTemperature(c1: char, c2: char, c3: char): (t: Option<int>)
    ensures t.Some? ==> 0 <= t.value <= 99
  {
    if IsDigit(c1) then
      Some(10 * DigitValue(c1) + (if IsDigit(c2) then DigitValue(c2) else 0))
    else if IsDigit(c2) && IsDigit(c3) then
      Some(10 * DigitValue(c2) + DigitValue(c3))
    else None
  }

  /** A temperature below 100 reads back from its two digits, whether they
      lead (the third character is then ignored) or trail a non-digit. */
  lemma {:induction false} DisplayTemperatureRoundTrip(t: nat, c: char)
    requires t < 100
    ensures DisplayTemperature(DigitChar(t / 10), DigitChar(t % 10), c) == Some(t)
    ensures !IsDigit(c) ==> DisplayTemperature(c, DigitChar(t / 10), DigitChar(t % 10)) == Some(t)
  {
    var d1, d2 := DigitChar(t / 10), DigitChar(t % 10);
    assert 10 * DigitValue(d1) + DigitValue(d2) == t;
  }

  /** Only two digits are read: "104" gives 10. */
  lemma DisplayTemperatureDropsThirdDigit()
    ensures DisplayTemperature('1', '0', '4') == Some(10)
  {
  }

  /** The out-parameters of parsePacket(): `None` is a null pointer, which
      is never written; `Some(v)` is the value the pointer currently holds. */
  datatype PacketFields = PacketFields(
    currentTemp: Option<int>, heaterRed: Option<bool>, heaterGreen: Option<bool>,
    pump: Option<bool>, bubbles: Option<bool>, jets: Option<bool>, locked: Option<bool>,
    power: Option<bool>, unitCelsius: Option<bool>, displayChars: Option<seq<char>>)

  /** A write through a pointer that may be null. */
  function Store<T>(p: Option<T>, v: T): (r: Option<T>)
    ensures r.Some? == p.Some?
  {
    if p.Some? then Some(v) else None
  }

  /** parsePacket(packet, ...): the three characters of bytes 1–3 (with a
      terminating NUL) into `displayChars`, the display temperature when
      there is one, and the LED flags of byte 4. */
  function ParsePacket(packet: seq<bv8>, out: PacketFields): (r: PacketFields)
    requires |packet| >= 5
    requires out.displayChars.Some? ==> |out.displayChars.value| >= 4
  {
    var c1, c2, c3 := DecodeChar(packet[1]), DecodeChar(packet[2]), DecodeChar(packet[3]);
    var t := DisplayTemperature(c1, c2, c3);
    var leds := packet[4];
    PacketFields(
      if out.currentTemp.Some? && t.Some? then t else out.currentTemp,
      Store(out.heaterRed, leds & LED_HEATRED_TYPE2 != 0),
      Store(out.heaterGreen, leds & LED_HEATGRN_TYPE2 != 0),
      Store(out.pump, leds & LED_PUMP_TYPE2 != 0),
      Store(out.bubbles, leds & LED_BUBBLES_TYPE2 != 0),
      Store(out.jets, leds & LED_JETS_TYPE2 != 0),
      Store(out.locked, leds & LED_LOCK_TYPE2 != 0),
      Store(out.power, leds & LED_POWER_TYPE2 != 0),
      Store(out.unitCelsius, leds & LED_UNIT_F_TYPE2 == 0),
      if out.displayChars.Some? then
        Some([c1, c2, c3, '\0'] + out.displayChars.value[4..])
      else None)
  }

  /** parsePacket() writes only through the pointers it is given. */
  lemma ParsePacketKeepsNullPointers(packet: seq<bv8>, out: PacketFields)
    requires |packet| >= 5
    requires out.displayChars.Some? ==> |out.displayChars.value| >= 4
    ensures var r := ParsePacket(packet, out);
      r.currentTemp.Some? == out.currentTemp.Some? && r.displayChars.Some? == out.displayChars.Some? &&
      r.heaterRed.Some? == out.heaterRed.Some? && r.heaterGreen.Some? == out.heaterGreen.Some? &&
      r.pump.Some? == out.pump.Some? && r.bubbles.Some? == out.bubbles.Some? &&
      r.jets.Some? == out.jets.Some? && r.locked.Some? == out.locked.Some? &&
      r.power.Some? == out.power.Some? && r.unitCelsius.Some? == out.unitCelsius.Some?
  {
  }

  /** A display that shows no temperature leaves the temperature as it was. */
  lemma ParsePacketKeepsUnreadTemperature(packet: seq<bv8>, out: PacketFields)
    requires |packet| >= 5
    requires out.displayChars.Some? ==> |out.displayChars.value| >= 4
    requires DisplayTemperature(DecodeChar(packet[1]), DecodeChar(packet[2]), DecodeChar(packet[3])).None?
    ensures ParsePacket(packet, out).currentTemp == out.currentTemp
  {
  }

  /** Celsius is reported exactly when the Fahrenheit LED is dark, and power
      exactly when the power LED is lit. */
  lemma ParsePacketLeds(packet: seq<bv8>, out: PacketFields)
    requires |packet| >= 5
    requires out.displayChars.Some? ==> |out.displayChars.value| >= 4
    ensures out.unitCelsius.Some? ==> (ParsePacket(packet, out).unitCelsius.value <==> !Bit(packet[4], 6))
    ensures out.power.Some? ==> (ParsePacket(packet, out).power.value <==> Bit(packet[4], 0))
    ensures out.locked.Some? ==> (ParsePacket(packet, out).locked.value <==> Bit(packet[4], 7))
  {
  }

  /** The display string keeps its length and is terminated after three
      characters. */
  lemma ParsePacketDisplay(packet: seq<bv8>, out: PacketFields)
    requires |packet| >= 5
    requires out.displayChars.Some? && |out.displayChars.value| >= 4
    ensures |ParsePacket(packet, out).displayChars.value| == |out.displayChars.value|
    ensures ParsePacket(packet, out).displayChars.value[..4] ==
              [DecodeChar(packet[1]), DecodeChar(packet[2]), DecodeChar(packet[3]), '\0']
  {
  }

  /** The rule isr_csHandler() accepts a packet by at chip-select release:
      five bytes, or four and part of a fifth. */
  predicate PacketComplete(byteCount: nat, bitCount: nat)
  {
    byteCount >= 5 || (byteCount == 4 && bitCount > 0)
  }

  /** The driver state. `dspDataPin` is the pin number recorded by setup();
      a negative number means the button line is not connected. */
  class CioType2 {
    var packet: seq<bv8>
    var packetReady: seq<bv8>
    var newPacket: bool
    var bitCount: nat
    var byteCount: nat
    var currentByte: bv8
    var buttonCode: u16
    var sendingButtons: bool
    var sendBit: nat
    var packetActive: bool
    var cmdByte: bv8
    var goodPackets: nat
    var badPackets: nat
    var dspDataPin: int

    /** Buffer sizes and the counter ranges the handlers keep. */
    ghost predicate Valid()
      reads this
    {
      |packet| == 5 && |packetReady| == 5 && bitCount < 8 && byteCount <= 5 && sendBit < 16
    }

    constructor()
      ensures Valid()
      ensures packet == [0, 0, 0, 0, 0] && packetReady == packet && !newPacket
      ensures bitCount == 0 && byteCount == 0 && currentByte == 0 && buttonCode == 0
      ensures !sendingButtons && sendBit == 0 && !packetActive && cmdByte == 0
      ensures goodPackets == 0 && badPackets == 0 && dspDataPin == -1
    {
      packet := [0, 0, 0, 0, 0];
      packetReady := [0, 0, 0, 0, 0];
      newPacket := false;
      bitCount := 0;
      byteCount := 0;
      currentByte := 0;
      buttonCode := 0;
      sendingButtons := false;
      sendBit := 0;
      packetActive := false;
      cmdByte := 0;
      goodPackets := 0;
      badPackets := 0;
      dspDataPin := -1;
    }

    /** The state setup() records: the button-line pin and the NOBTN code. */
    method Setup(dspDataPin: int)
      modifies this`dspDataPin, this`buttonCode
      ensures this.dspDataPin == dspDataPin && buttonCode == 0
    {
      this.dspDataPin := dspDataPin;
      buttonCode := 0;
    }

    /** setButtonCode(). */
    method SetButtonCode(code: u16)
      modifies this`buttonCode
      ensures buttonCode == code
    {
      buttonCode := code;
    }

    /** isPacketReady(). */
    method IsPacketReady() returns (ready: bool)
      ensures ready == newPacket
    {
      ready := newPacket;
    }

    /** getPacket(buffer, maxLen): nothing without a packet; otherwise the
        first min(maxLen, 5) bytes of the published packet are copied into
        `buffer` and the packet is consumed. */
    method GetPacket(buffer: array<bv8>, maxLen: nat) returns (ok: bool)
      requires Valid() && buffer.Length >= maxLen
      modifies buffer, this`newPacket
      ensures ok == old(newPacket) && !newPacket
      ensures var n := if maxLen < 5 then maxLen else 5;
              (ok ==> buffer[..n] == packetReady[..n] && buffer[n..] == old(buffer[n..])) &&
              (!ok ==> buffer[..] == old(buffer[..]))
    {
      if !newPacket {
        return false;
      }
      var n := if maxLen < 5 then maxLen else 5;
      for i := 0 to n
        invariant buffer[..i] == packetReady[..i]
        invariant buffer[i..] == old(buffer[i..])
      {
        buffer[i] := packetReady[i];
      }
      newPacket := false;
      ok := true;
    }

    /** isr_csHandler(): release publishes a complete packet (or counts a
        partial one as bad); assertion starts a packet from clean counters and
        a zeroed buffer. Either way any button transmission stops. */
    method CsHandler(csHigh: bool)
      requires Valid()
      modifies this`packetActive, this`sendingButtons, this`packetReady, this`newPacket
      modifies this`goodPackets, this`badPackets, this`bitCount, this`byteCount
      modifies this`currentByte, this`cmdByte, this`packet
      ensures Valid() && packetActive == !csHigh && !sendingButtons
      ensures csHigh && PacketComplete(old(byteCount), old(bitCount)) ==>
                packetReady == packet && newPacket && goodPackets == old(goodPackets) + 1 &&
                badPackets == old(badPackets)
      ensures csHigh && !PacketComplete(old(byteCount), old(bitCount)) ==>
                packetReady == old(packetReady) && newPacket == old(newPacket) &&
                goodPackets == old(goodPackets) &&
                badPackets == old(badPackets) + (if old(byteCount) > 0 then 1 else 0)
      ensures csHigh ==>
                packet == old(packet) && bitCount == old(bitCount) &&
                byteCount == old(byteCount) && currentByte == old(currentByte) &&
                cmdByte == old(cmdByte)
      ensures !csHigh ==>
                packet == [0, 0, 0, 0, 0] && bitCount == 0 && byteCount == 0 &&
                currentByte == 0 && cmdByte == 0 && packetReady == old(packetReady) &&
                newPacket == old(newPacket) && goodPackets == old(goodPackets) &&
                badPackets == old(badPackets)
    {
      if csHigh {
        packetActive := false;
        sendingButtons := false;
        if byteCount >= 5 || (byteCount == 4 && bitCount > 0) {
          packetReady := packet;
          newPacket := true;
          goodPackets := goodPackets + 1;
        } else if byteCount > 0 {
          badPackets := badPackets + 1;
        }
      } else {
        packetActive := true;
        bitCount := 0;
        byteCount := 0;
        currentByte := 0;
        sendingButtons := false;
        cmdByte := 0;
        packet := [0, 0, 0, 0, 0];
      }
    }

    /** A rising clock edge: shift in a bit; a completed byte is stored while
        there is room (the first one is also the command byte), and the
        get-buttons command starts a button transmission at bit 0. */
    method ReadBit(dataBit: bool)
      requires Valid()
      modifies this`currentByte, this`bitCount, this`byteCount, this`packet
      modifies this`cmdByte, this`sendingButtons, this`sendBit
      ensures Valid()
      ensures old(bitCount) < 7 ==>
                currentByte == ShiftIn(old(currentByte), dataBit) && bitCount == old(bitCount) + 1 &&
                byteCount == old(byteCount) && packet == old(packet) && cmdByte == old(cmdByte) &&
                sendingButtons == old(sendingButtons) && sendBit == old(sendBit)
      ensures old(bitCount) == 7 ==> bitCount == 0 && currentByte == 0
      ensures old(bitCount) == 7 && old(byteCount) < 5 ==>
                packet == old(packet)[old(byteCount) := ShiftIn(old(currentByte), dataBit)] &&
                byteCount == old(byteCount) + 1 &&
                cmdByte == (if old(byteCount) == 0 then ShiftIn(old(currentByte), dataBit) else old(cmdByte))
      ensures old(bitCount) == 7 && old(byteCount) == 5 ==>
                packet == old(packet) && byteCount == 5 && cmdByte == old(cmdByte)
      ensures old(bitCount) == 7 && ShiftIn(old(currentByte), dataBit) == CIO_CMD_GETBUTTONS_TYPE2 ==>
                sendingButtons && sendBit == 0
      ensures old(bitCount) == 7 && ShiftIn(old(currentByte), dataBit) != CIO_CMD_GETBUTTONS_TYPE2 ==>
                sendingButtons == old(sendingButtons) && sendBit == old(sendBit)
    {
      currentByte := ShiftIn(currentByte, dataBit);
      bitCount := bitCount + 1;
      if bitCount == 8 {
        bitCount := 0;
        if byteCount < 5 {
          packet := packet[byteCount := currentByte];
          if byteCount == 0 {
            cmdByte := currentByte;
          }
          byteCount := byteCount + 1;
        }
        if currentByte == CIO_CMD_GETBUTTONS_TYPE2 {
          sendingButtons := true;
          sendBit := 0;
        }
        currentByte := 0;
      }
    }

    /** A falling clock edge while sending: bit `sendBit` of the button code
        goes out, and the transmission ends after bit 15. */
    method WriteBit() returns (level: bool)
      requires Valid()
      modifies this`sendBit, this`sendingButtons
      ensures Valid()
      ensures level == Bit16(buttonCode as bv16, old(sendBit))
      ensures SentBits(buttonCode, old(sendBit) + 1) == SentBits(buttonCode, old(sendBit)) + [level]
      ensures old(sendBit) < 15 ==> sendBit == old(sendBit) + 1 && sendingButtons == old(sendingButtons)
      ensures old(sendBit) == 15 ==> sendBit == 0 && !sendingButtons
    {
      level := Bit16(buttonCode as bv16, sendBit);
      assert SentBits(buttonCode, sendBit + 1) == SentBits(buttonCode, sendBit) + [level];
      sendBit := sendBit + 1;
      if sendBit >= 16 {
        sendBit := 0;
        sendingButtons := false;
      }
    }

    /** isr_clkHandler() at one clock edge: nothing outside a packet; a
        rising edge reads a bit, a falling edge writes the next button bit
        when a transmission is on and the button line is connected. */
    method ClkHandler(clkHigh: bool, dataBit: bool) returns (out: Option<bool>)
      requires Valid()
      modifies this`currentByte, this`bitCount, this`byteCount, this`packet
      modifies this`cmdByte, this`sendingButtons, this`sendBit
      ensures Valid()
      ensures !packetActive ==>
                out == None && currentByte == old(currentByte) && bitCount == old(bitCount) &&
                byteCount == old(byteCount) && packet == old(packet) && cmdByte == old(cmdByte) &&
                sendingButtons == old(sendingButtons) && sendBit == old(sendBit)
      ensures packetActive && clkHigh ==> out == None
      ensures packetActive && clkHigh && old(bitCount) < 7 ==>
                currentByte == ShiftIn(old(currentByte), dataBit) && bitCount == old(bitCount) + 1 &&
                byteCount == old(byteCount) && packet == old(packet) && cmdByte == old(cmdByte) &&
                sendingButtons == old(sendingButtons) && sendBit == old(sendBit)
      ensures packetActive && clkHigh && old(bitCount) == 7 ==>
                var b := ShiftIn(old(currentByte), dataBit);
                bitCount == 0 && currentByte == 0 &&
                (old(byteCount) < 5 ==>
                   packet == old(packet)[old(byteCount) := b] && byteCount == old(byteCount) + 1 &&
                   cmdByte == (if old(byteCount) == 0 then b else old(cmdByte))) &&
                (old(byteCount) == 5 ==>
                   packet == old(packet) && byteCount == 5 && cmdByte == old(cmdByte)) &&
                (b == CIO_CMD_GETBUTTONS_TYPE2 ==> sendingButtons && sendBit == 0) &&
                (b != CIO_CMD_GETBUTTONS_TYPE2 ==>
                   sendingButtons == old(sendingButtons) && sendBit == old(sendBit))
      ensures packetActive && !clkHigh ==>
                currentByte == old(currentByte) && bitCount == old(bitCount) &&
                byteCount == old(byteCount) && packet == old(packet) && cmdByte == old(cmdByte)
      ensures packetActive && !clkHigh && old(sendingButtons) && dspDataPin >= 0 ==>
                out == Some(Bit16(buttonCode as bv16, old(sendBit))) &&
                SentBits(buttonCode, old(sendBit) + 1) == SentBits(buttonCode, old(sendBit)) + [out.value] &&
                (old(sendBit) < 15 ==> sendBit == old(sendBit) + 1 && sendingButtons) &&
                (old(sendBit) == 15 ==> sendBit == 0 && !sendingButtons)
      ensures packetActive && !clkHigh && !(old(sendingButtons) && dspDataPin >= 0) ==>
                out == None && sendingButtons == old(sendingButtons) && sendBit == old(sendBit)
    {
      out := None;
      if !packetActive {
        return;
      }
      if clkHigh {
        ReadBit(dataBit);
      } else if sendingButtons && dspDataPin >= 0 {
        var level := WriteBit();
        out := Some(level);
      }
    }
  }

  /** The bits sent at the falling edges after the get-buttons command:
      `SentBits(code, n)` lists the first `n`, and each `WriteBit` extends
      the list sent so far by the level it sends. */
  function SentBits(code: u16, n: nat): (bits: seq<bool>)
    requires n <= 16
    ensures |bits| == n
  {
    if n == 0 then [] else SentBits(code, n - 1) + [Bit16(code as bv16, n - 1)]
  }

  /** The button code goes out least significant bit first, all sixteen
      bits, each once. */
  lemma {:induction false} SentBitsLsbFirst(code: u16, n: nat)
    requires n <= 16
    ensures forall k :: 0 <= k < n ==> SentBits(code, n)[k] == Bit16(code as bv16, k)
  {
    if n > 0 {
      SentBitsLsbFirst(code, n - 1);
    }
  }}
