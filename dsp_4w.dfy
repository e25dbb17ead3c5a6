/** The 4-wire display driver (`DSP_4W`): it decodes the 7-byte command
    frames of the display panel into requests, and builds the status frames
    sent back to the panel. */
module Dsp4W {
  import opened Bytes
  import opened Wrappers
  import opened SpaStates
  import opened Cio4WModel
  import Cio4W

  /** The capability flags and bit masks a display model reports. */
  datatype Masks = Masks(hasJets: bool, hasAir: bool, pump: bv8, bubbles: bv8, jets: bv8,
                         heat1: bv8, heat2: bv8, power: bv8)

  /** The overrides of the `DSP_<model>` subclasses. */
  function DspMasks(m: Model4W): Masks
  {
    match m
    case M54123 => Masks(false, true, 0x10, 0x20, 0x00, 0x02, 0x08, 0x01)
    case M54138 => Masks(true, true, 0x05, 0x02, 0x08, 0x30, 0x40, 0x80)
    case M54144 => Masks(true, false, 0x05, 0x02, 0x08, 0x30, 0x40, 0x80)
    case M54154 => Masks(false, true, 0x10, 0x20, 0x00, 0x02, 0x08, 0x01)
    case M54173 => Masks(true, true, 0x05, 0x02, 0x08, 0x30, 0x40, 0x80)
  }

  /** Each display model reports the same masks and capabilities as the
      controller model of the same number. */
  lemma SameMasksAsController(m: Model4W)
    ensures DspMasks(m) == Masks(m.HasJets(), m.HasAir(), m.PumpBitmask(), m.BubblesBitmask(),
                                 m.JetsBitmask(), m.HeatBitmask1(), m.HeatBitmask2(),
                                 m.PowerBitmask())
  {
  }

  /** The requests after a good frame in god mode: bubbles, pump and jets
      changes are the differences between the latched and the new flags,
      every other request is withdrawn. */
  function DetectChanges(t: Toggles, oldBubbles: u8, oldPump: u8, oldJets: u8,
                         bubbles: u8, pump: u8, jets: u8): (r: Toggles)
    ensures r.bubblesChange <==> oldBubbles != bubbles
    ensures r.pumpChange <==> oldPump != pump
    ensures r.jetsChange <==> oldJets != jets
    ensures !r.heatChange && !r.lockedPressed && !r.powerChange && !r.unitChange
    ensures r.pressedButton == NOBTN
    ensures r.target == t.target && r.godmode == t.godmode &&
            r.noOfHeaterElementsOn == t.noOfHeaterElementsOn &&
            r.timerPressed == t.timerPressed && r.upPressed == t.upPressed &&
            r.downPressed == t.downPressed
  {
    t.(bubblesChange := oldBubbles != bubbles, heatChange := false,
       jetsChange := oldJets != jets, lockedPressed := false, powerChange := false,
       pumpChange := oldPump != pump, unitChange := false, pressedButton := NOBTN)
  }

  /** The water temperature in °C as generatePayload() computes it. */
  function TempC(s: States): (c: int)
    ensures s.unit != 0 ==> c == s.temperature
  {
    if s.unit != 0 then s.temperature else F2C(s.temperature)
  }

  /** The status frame for the panel: bytes 0, 1, 4 and 6 from the raw frame
      last received from the controller, the temperature in °C truncated to
      a byte, the error code, and the checksum. */
  function StatusFrame(raw: seq<u8>, s: States): (f: seq<u8>)
    requires |raw| >= PAYLOADSIZE
    ensures FrameOk(f)
    ensures f[2] == U8(TempC(s)) && f[3] == s.error
    ensures f[0] == raw[0] && f[1] == raw[1] && f[4] == raw[4] && f[6] == raw[6]
  {
    Frame(raw[..PAYLOADSIZE], U8(TempC(s)), s.error)
  }

  /** The largest of the running maximum and a new interval. */
  function RunningMax(max: int, t: int): (r: int)
    ensures r >= max && r >= t
    ensures r == max || r == t
  {
    if t > max then t else max
  }

  /** `lastmillis += elapsedtime` lands on the new reading: the `int`
      difference wraps back onto it modulo 2^32. */
  lemma {:induction false} AdvanceToNow(last: u32, now: u32)
    ensures U32(last + I32(Elapsed(now, last))) == now
  {
    var e: int := Elapsed(now, last);
    if e < 0x8000_0000 {
      assert I32(e) == e;
      if now >= last {
        assert last + e == now;
      } else {
        assert last + e == now + 0x1_0000_0000;
      }
    } else {
      assert I32(e) == e - 0x1_0000_0000;
      if now >= last {
        assert last + I32(e) == now - 0x1_0000_0000;
      } else {
        assert last + I32(e) == now;
      }
    }
  }

  class Dsp4W {
    const model: Model4W
    var toggles: Toggles
    var states: States
    var goodPacketsCount: nat
    var badPacketsCount: nat
    var writeMsgCount: int
    var maxTimeBetweenTransmissionsMs: int
    /** A `std::vector` that callers may replace, so its length may differ from 7. */
    var rawPayloadToDsp: seq<u8>
    var rawPayloadFromDsp: seq<u8>
    var enabledButtons: seq<bool>
    var timeSinceLastTransmissionMs: int
    const toDspBuf: array<u8>
    const fromDspBuf: array<u8>
    /** The flags decoded from the last good frame (`_bubbles`, `_pump`, `_jets`). */
    var bubbles: u8
    var pump: u8
    var jets: u8
    var serialReceived: bool
    var readyToTransmit: bool
    /** The function-local `static unsigned long lastmillis` of
        handleStates(): `None` until its first call initialises it. */
    var lastMillis: Option<u32>

    /** Buffer shapes and the `int` timers in range. */
    ghost predicate Valid()
      reads this
    {
      toDspBuf.Length == PAYLOADSIZE && fromDspBuf.Length == PAYLOADSIZE &&
      toDspBuf != fromDspBuf && |rawPayloadFromDsp| == PAYLOADSIZE &&
      |enabledButtons| == BTN_COUNT &&
      IsI32(timeSinceLastTransmissionMs) && IsI32(maxTimeBetweenTransmissionsMs)
    }

    /** Everything handleStates() leaves alone. */
    twostate predicate SameInputs()
      reads this
    {
      toggles == old(toggles) && states == old(states) &&
      goodPacketsCount == old(goodPacketsCount) && badPacketsCount == old(badPacketsCount) &&
      rawPayloadToDsp == old(rawPayloadToDsp) && rawPayloadFromDsp == old(rawPayloadFromDsp) &&
      enabledButtons == old(enabledButtons) && bubbles == old(bubbles) && pump == old(pump) &&
      jets == old(jets) && serialReceived == old(serialReceived)
    }

    /** Everything updateToggles() leaves alone. */
    twostate predicate SameOutputs()
      reads this
    {
      states == old(states) && writeMsgCount == old(writeMsgCount) &&
      maxTimeBetweenTransmissionsMs == old(maxTimeBetweenTransmissionsMs) &&
      rawPayloadToDsp == old(rawPayloadToDsp) && enabledButtons == old(enabledButtons) &&
      timeSinceLastTransmissionMs == old(timeSinceLastTransmissionMs) &&
      readyToTransmit == old(readyToTransmit) && lastMillis == old(lastMillis)
    }

    constructor(model: Model4W)
      ensures Valid()
      ensures this.model == model && toggles == DefaultToggles && states == DefaultStates
      ensures goodPacketsCount == 0 && badPacketsCount == 0 && writeMsgCount == 0
      ensures maxTimeBetweenTransmissionsMs == -1 && timeSinceLastTransmissionMs == 0
      ensures rawPayloadToDsp == [0, 0, 0, 0, 0, 0, 0] && rawPayloadFromDsp == rawPayloadToDsp
      ensures toDspBuf[..] == rawPayloadToDsp && fromDspBuf[..] == rawPayloadToDsp
      ensures |enabledButtons| == BTN_COUNT && forall b :: 0 <= b < BTN_COUNT ==> enabledButtons[b]
      ensures bubbles == 0 && pump == 0 && jets == 0
      ensures !serialReceived && !readyToTransmit && lastMillis.None?
    {
      this.model := model;
      toggles := DefaultToggles;
      states := DefaultStates;
      goodPacketsCount := 0;
      badPacketsCount := 0;
      writeMsgCount := 0;
      maxTimeBetweenTransmissionsMs := -1;
      rawPayloadToDsp := [0, 0, 0, 0, 0, 0, 0];
      rawPayloadFromDsp := [0, 0, 0, 0, 0, 0, 0];
      enabledButtons := [true, true, true, true, true, true, true, true, true, true, true];
      timeSinceLastTransmissionMs := 0;
      toDspBuf := new u8[PAYLOADSIZE](_ => 0);
      fromDspBuf := new u8[PAYLOADSIZE](_ => 0);
      bubbles := 0;
      pump := 0;
      jets := 0;
      serialReceived := false;
      readyToTransmit := false;
      lastMillis := None;
    }

    /** updateToggles(): `available` is the serial port's `available()` and
        `msg` the bytes `readBytes` delivered. The god-mode flag, target and
        heater-element count are copied into the requests first, whatever
        arrives; a short frame is ignored, a bad checksum counted, and a good
        frame decoded. */
    method UpdateToggles(available: bool, msg: seq<u8>)
      requires Valid()
      modifies this, fromDspBuf
      ensures Valid() && SameOutputs()
      ensures toggles.godmode == states.godmode && toggles.target == states.target &&
              toggles.noOfHeaterElementsOn == states.noOfHeaterElementsOn
      ensures !available || |msg| != PAYLOADSIZE || !FrameOk(msg) ==>
        toggles == old(toggles).(godmode := states.godmode, target := states.target,
                                 noOfHeaterElementsOn := states.noOfHeaterElementsOn) &&
        goodPacketsCount == old(goodPacketsCount) && bubbles == old(bubbles) &&
        pump == old(pump) && jets == old(jets) && serialReceived == old(serialReceived) &&
        rawPayloadFromDsp == old(rawPayloadFromDsp) && fromDspBuf[..] == old(fromDspBuf[..])
      ensures badPacketsCount ==
        if available && |msg| == PAYLOADSIZE && !FrameOk(msg) then old(badPacketsCount) + 1
        else old(badPacketsCount)
      ensures available && FrameOk(msg) ==>
        goodPacketsCount == old(goodPacketsCount) + 1 && serialReceived &&
        fromDspBuf[..] == msg && rawPayloadFromDsp == msg &&
        bubbles == Masked(msg[COMMANDINDEX], DspMasks(model).bubbles) &&
        pump == Masked(msg[COMMANDINDEX], DspMasks(model).pump) &&
        jets == Masked(msg[COMMANDINDEX], DspMasks(model).jets)
      ensures available && FrameOk(msg) && states.godmode ==>
        toggles == DetectChanges(old(toggles).(godmode := states.godmode, target := states.target,
                                               noOfHeaterElementsOn := states.noOfHeaterElementsOn),
                                 old(bubbles), old(pump), old(jets), bubbles, pump, jets)
      ensures available && FrameOk(msg) && !states.godmode ==>
        toggles == old(toggles).(godmode := states.godmode, target := states.target,
                                 noOfHeaterElementsOn := states.noOfHeaterElementsOn)
    {
      toggles := toggles.(godmode := states.godmode, target := states.target,
                          noOfHeaterElementsOn := states.noOfHeaterElementsOn);
      if !available {
        return;
      }
      if |msg| != PAYLOADSIZE {
        return;
      }
      var calculatedChecksum := Checksum(msg);
      if msg[CHECKSUMINDEX] != calculatedChecksum {
        badPacketsCount := badPacketsCount + 1;
        return;
      }
      Accept(msg);
    }

    /** The accepting half of updateToggles(): the frame is counted and
        copied, the three flags decoded from the command byte, changes
        detected in god mode, and the flags latched. */
    method Accept(msg: seq<u8>)
      requires Valid() && FrameOk(msg)
      modifies this, fromDspBuf
      ensures Valid() && SameOutputs() && badPacketsCount == old(badPacketsCount)
      ensures goodPacketsCount == old(goodPacketsCount) + 1 && serialReceived
      ensures fromDspBuf[..] == msg && rawPayloadFromDsp == msg
      ensures bubbles == Masked(msg[COMMANDINDEX], DspMasks(model).bubbles) &&
              pump == Masked(msg[COMMANDINDEX], DspMasks(model).pump) &&
              jets == Masked(msg[COMMANDINDEX], DspMasks(model).jets)
      ensures states.godmode ==>
        toggles == DetectChanges(old(toggles), old(bubbles), old(pump), old(jets), bubbles, pump, jets)
      ensures !states.godmode ==> toggles == old(toggles)
    {
      goodPacketsCount := goodPacketsCount + 1;
      CopyIn(msg);
      Latch(fromDspBuf[COMMANDINDEX]);
    }

    /** The decoding half of updateToggles(): the three flags of command
        byte `command`, change detection in god mode, and the latches. */
    method Latch(command: u8)
      modifies this`toggles, this`bubbles, this`pump, this`jets, this`serialReceived
      ensures serialReceived
      ensures bubbles == Masked(command, DspMasks(model).bubbles) &&
              pump == Masked(command, DspMasks(model).pump) &&
              jets == Masked(command, DspMasks(model).jets)
      ensures states.godmode ==>
        toggles == DetectChanges(old(toggles), old(bubbles), old(pump), old(jets), bubbles, pump, jets)
      ensures !states.godmode ==> toggles == old(toggles)
    {
      var masks := DspMasks(model);
      var newBubbles := Masked(command, masks.bubbles);
      var newPump := Masked(command, masks.pump);
      var newJets := Masked(command, masks.jets);
      if states.godmode {
        toggles := DetectChanges(toggles, bubbles, pump, jets, newBubbles, newPump, newJets);
      }
      bubbles, pump, jets := newBubbles, newPump, newJets;
      serialReceived := true;
    }

    /** The copy loop of updateToggles(). */
    method CopyIn(msg: seq<u8>)
      requires |msg| == PAYLOADSIZE && fromDspBuf.Length == PAYLOADSIZE &&
               |rawPayloadFromDsp| == PAYLOADSIZE
      modifies fromDspBuf, this`rawPayloadFromDsp
      ensures fromDspBuf[..] == msg && rawPayloadFromDsp == msg
    {
      var i := 0;
      while i < PAYLOADSIZE
        invariant 0 <= i <= PAYLOADSIZE && |rawPayloadFromDsp| == PAYLOADSIZE
        invariant fromDspBuf[..i] == msg[..i] && rawPayloadFromDsp[..i] == msg[..i]
      {
        fromDspBuf[i] := msg[i];
        rawPayloadFromDsp := rawPayloadFromDsp[i := msg[i]];
        i := i + 1;
      }
    }

    /** The timing part of handleStates(now): `now` is the `millis()`
        reading. The static `lastmillis` starts at the first reading, moves
        to each new one, and the `int` difference is added to the
        transmission timer. */
    method Tick(now: u32)
      requires Valid()
      modifies this`lastMillis, this`timeSinceLastTransmissionMs
      ensures Valid() && lastMillis == Some(now)
      ensures var last := if old(lastMillis).Some? then old(lastMillis).value else now;
        timeSinceLastTransmissionMs ==
          I32(old(timeSinceLastTransmissionMs) + I32(Elapsed(now, last)))
    {
      var last := if lastMillis.Some? then lastMillis.value else now;
      var elapsedtime := I32(Elapsed(now, last));
      AdvanceToNow(last, now);
      lastMillis := Some(U32(last + elapsedtime));
      timeSinceLastTransmissionMs := I32(timeSinceLastTransmissionMs + elapsedtime);
    }

    /** generatePayload(): the status frame for the panel. A raw frame
        shorter than seven bytes is read out of bounds by the source. */
    method GeneratePayload()
      requires Valid() && |rawPayloadToDsp| >= PAYLOADSIZE
      modifies toDspBuf
      ensures toDspBuf[..] == StatusFrame(rawPayloadToDsp, states)
    {
      var tempC := TempC(states);
      toDspBuf[0] := rawPayloadToDsp[0];
      toDspBuf[1] := rawPayloadToDsp[1];
      toDspBuf[2] := U8(tempC);
      toDspBuf[3] := states.error;
      toDspBuf[4] := rawPayloadToDsp[4];
      ghost var f := StatusFrame(rawPayloadToDsp, states);
      toDspBuf[CHECKSUMINDEX] := Checksum(toDspBuf[..]);
      assert toDspBuf[CHECKSUMINDEX] == f[CHECKSUMINDEX];
      toDspBuf[6] := rawPayloadToDsp[6];
      assert forall i :: 0 <= i < PAYLOADSIZE ==> toDspBuf[i] == f[i];
      assert toDspBuf[..] == f;
    }

    /** The pass-through copy of handleStates() outside god mode. */
    method CopyOut()
      requires Valid() && |rawPayloadToDsp| >= PAYLOADSIZE
      modifies toDspBuf
      ensures toDspBuf[..] == rawPayloadToDsp[..PAYLOADSIZE]
    {
      var i := 0;
      while i < PAYLOADSIZE
        invariant 0 <= i <= PAYLOADSIZE
        invariant toDspBuf[..i] == rawPayloadToDsp[..i]
      {
        toDspBuf[i] := rawPayloadToDsp[i];
        i := i + 1;
      }
    }

    /** The transmission part of handleStates(): the frame is written when
        the controller side allows it or when more than 2000 ms have passed;
        a write raises the running maximum to the interval and restarts it. */
    method Transmit() returns (sent: Option<seq<u8>>)
      requires Valid()
      modifies this`readyToTransmit, this`writeMsgCount, this`maxTimeBetweenTransmissionsMs,
               this`timeSinceLastTransmissionMs
      ensures Valid()
      ensures sent.Some? <==> old(readyToTransmit) || old(timeSinceLastTransmissionMs) > 2000
      ensures sent.Some? ==>
        sent.value == toDspBuf[..] && !readyToTransmit && writeMsgCount == old(writeMsgCount) + 1 &&
        maxTimeBetweenTransmissionsMs ==
          RunningMax(old(maxTimeBetweenTransmissionsMs), old(timeSinceLastTransmissionMs)) &&
        timeSinceLastTransmissionMs == 0
      ensures sent.None? ==>
        readyToTransmit == old(readyToTransmit) && writeMsgCount == old(writeMsgCount) &&
        maxTimeBetweenTransmissionsMs == old(maxTimeBetweenTransmissionsMs) &&
        timeSinceLastTransmissionMs == old(timeSinceLastTransmissionMs)
    {
      if readyToTransmit || timeSinceLastTransmissionMs > 2000 {
        readyToTransmit := false;
        sent := Some(toDspBuf[..]);
        writeMsgCount := writeMsgCount + 1;
        if timeSinceLastTransmissionMs > maxTimeBetweenTransmissionsMs {
          maxTimeBetweenTransmissionsMs := timeSinceLastTransmissionMs;
        }
        timeSinceLastTransmissionMs := 0;
      } else {
        sent := None;
      }
    }

    /** handleStates(now): in god mode the status frame is built from the
        states, otherwise the controller's raw frame is copied (and nothing
        more happens when it is shorter than seven bytes); then the frame is
        sent by the transmission policy. `sent` is the frame written, if any.
        The god-mode requirement is always met by the driver: the raw frame
        starts as seven zero bytes and no code shortens it, so bytes 0 to 6
        are read there without a length test. */
    method HandleStates(now: u32) returns (sent: Option<seq<u8>>)
      requires Valid()
      requires states.godmode ==> |rawPayloadToDsp| >= PAYLOADSIZE
      modifies this, toDspBuf
      ensures Valid() && SameInputs() && lastMillis == Some(now)
      ensures maxTimeBetweenTransmissionsMs >= old(maxTimeBetweenTransmissionsMs)
      ensures !states.godmode && |rawPayloadToDsp| < PAYLOADSIZE ==>
        sent.None? && toDspBuf[..] == old(toDspBuf[..]) && readyToTransmit == old(readyToTransmit)
      ensures states.godmode ==> toDspBuf[..] == StatusFrame(rawPayloadToDsp, states)
      ensures !states.godmode && |rawPayloadToDsp| >= PAYLOADSIZE ==>
        toDspBuf[..] == rawPayloadToDsp[..PAYLOADSIZE]
      ensures sent.Some? ==> sent.value == toDspBuf[..] && !readyToTransmit &&
                             timeSinceLastTransmissionMs == 0
      ensures var last := if old(lastMillis).Some? then old(lastMillis).value else now;
        var since := I32(old(timeSinceLastTransmissionMs) + I32(Elapsed(now, last)));
        (sent.Some? <==> (states.godmode || |rawPayloadToDsp| >= PAYLOADSIZE) &&
                         (old(readyToTransmit) || since > 2000)) &&
        (sent.Some? ==> writeMsgCount == old(writeMsgCount) + 1 &&
                        maxTimeBetweenTransmissionsMs == RunningMax(old(maxTimeBetweenTransmissionsMs), since)) &&
        (sent.None? ==> readyToTransmit == old(readyToTransmit) && writeMsgCount == old(writeMsgCount) &&
                        maxTimeBetweenTransmissionsMs == old(maxTimeBetweenTransmissionsMs) &&
                        timeSinceLastTransmissionMs == since)
    {
      Tick(now);
      if states.godmode {
        GeneratePayload();
      } else {
        if PAYLOADSIZE > |rawPayloadToDsp| {
          return None;
        }
        CopyOut();
      }
      sent := Transmit();
    }

    /** getSerialReceived(): report whether a frame arrived, and clear the flag. */
    method GetSerialReceived() returns (r: bool)
      requires Valid()
      modifies this`serialReceived
      ensures r == old(serialReceived) && !serialReceived
    {
      r := serialReceived;
      serialReceived := false;
    }

    /** setSerialReceived(txok): whether the next handleStates() may transmit. */
    method SetSerialReceived(txok: bool)
      requires Valid()
      modifies this`readyToTransmit
      ensures readyToTransmit == txok
    {
      readyToTransmit := txok;
    }
  }

  /** The bits of a command byte: each output mask of the model selects
      exactly that output's flag, since the masks are disjoint and neither
      the heater bits nor the power bit overlap them. */
  lemma CommandBits(m: Model4W, heatBitmask: bv8, s: States)
    requires s.pump <= 1 && s.bubbles <= 1 && s.jets <= 1 && s.heatred <= 1
    requires heatBitmask == 0 || heatBitmask == m.HeatBitmask1() ||
             heatBitmask == m.HeatBitmask1() | m.HeatBitmask2()
    requires m.HasJets() || s.jets == 0
    ensures var a := Cio4W.ActiveBits(m, heatBitmask, s);
      (a & m.PumpBitmask() != 0 <==> s.pump == 1) &&
      (a & m.BubblesBitmask() != 0 <==> s.bubbles == 1) &&
      (a & m.JetsBitmask() != 0 <==> s.jets == 1)
  {
  }

  /** A command byte of the controller driver decodes, by each output mask
      of the same model, to that output's flag. */
  lemma {:induction false} CommandByteFlags(m: Model4W, heatBitmask: bv8, s: States)
    requires s.pump <= 1 && s.bubbles <= 1 && s.jets <= 1 && s.heatred <= 1
    requires heatBitmask == 0 || heatBitmask == m.HeatBitmask1() ||
             heatBitmask == m.HeatBitmask1() | m.HeatBitmask2()
    requires m.HasJets() || s.jets == 0
    ensures Masked(Cio4W.CommandByte(m, heatBitmask, s), m.PumpBitmask()) == s.pump
    ensures Masked(Cio4W.CommandByte(m, heatBitmask, s), m.BubblesBitmask()) == s.bubbles
    ensures Masked(Cio4W.CommandByte(m, heatBitmask, s), m.JetsBitmask()) == s.jets
  {
    CommandBits(m, heatBitmask, s);
  }

  /** A command frame built by the controller driver decodes, on the display
      side, to the controller's pump, bubbles and jets outputs. */
  lemma {:induction false} DecodesCommandByte(m: Model4W, heatBitmask: bv8, s: States)
    requires s.pump <= 1 && s.bubbles <= 1 && s.jets <= 1 && s.heatred <= 1
    requires heatBitmask == 0 || heatBitmask == m.HeatBitmask1() ||
             heatBitmask == m.HeatBitmask1() | m.HeatBitmask2()
    requires m.HasJets() || s.jets == 0
    ensures Masked(Cio4W.CommandByte(m, heatBitmask, s), DspMasks(m).pump) == s.pump
    ensures Masked(Cio4W.CommandByte(m, heatBitmask, s), DspMasks(m).bubbles) == s.bubbles
    ensures Masked(Cio4W.CommandByte(m, heatBitmask, s), DspMasks(m).jets) == s.jets
  {
    SameMasksAsController(m);
    CommandByteFlags(m, heatBitmask, s);
  }

  /** A status frame built for the panel in Celsius mode decodes, on the
      controller-driver side, to the same temperature and error, and the
      display shows that temperature or that error. */
  lemma StatusFrameRoundTrip(raw: seq<u8>, s: States)
    requires |raw| >= PAYLOADSIZE && s.unit != 0
    ensures var r := Cio4W.DecodeStatus(s, StatusFrame(raw, s));
      r.temperature == s.temperature && r.error == s.error
  {
  }

  /** In Fahrenheit mode from 32 °F up the frame carries the temperature
      converted to °C, and the controller-driver side converts it back: the
      error is kept and the temperature comes back up to two degrees low,
      exactly when `temperature - 32` is a multiple of 9. */
  lemma {:induction false} StatusFrameRoundTripFahrenheit(raw: seq<u8>, s: States)
    requires |raw| >= PAYLOADSIZE && s.unit == 0 && s.temperature >= 32
    ensures var r := Cio4W.DecodeStatus(s, StatusFrame(raw, s));
      s.temperature - 2 <= r.temperature <= s.temperature && r.error == s.error &&
      (r.temperature == s.temperature <==> (s.temperature - 32) % 9 == 0)
  {
    FahrenheitRoundTrip(s.temperature);
    var c := F2C(s.temperature);
    assert 0 <= c < 256;
    assert StatusFrame(raw, s)[TEMPINDEX] == c;
    assert 0 <= C2F(c) < 256;
  }
}
