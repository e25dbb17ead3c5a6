# Bestway spa bus protocols in Dafny

This project models the protocol logic of an ESPHome component for Bestway
Lay-Z-Spa pumps. In the pump's vocabulary the pump controller is the CIO and
the control panel is the DSP. The component sits between the two, reads what
each side sends, and injects button presses of its own. Three bus families are
modelled, each by one Dafny module per source file:

- **4-wire UART** (`Cio4WModel`, `Cio4W`, `Dsp4W`): 7-byte frames whose byte 5
  is the sum of bytes 1 to 4, and a per-model state machine that walks a jump
  table and an allowed-states table for pump, heater, bubbles and jets. Around
  it sit the hysteresis thermostat, the antifreeze and antiboil overrides,
  truncating °F/°C conversion and change detection on the panel's frames.
- **6-wire TYPE1** (`CioType1`, `VaCioType1`, `DspType1`, `VaDspType1`): the
  controller side assembles bits LSB first on clock and chip-select edges and
  runs a four-step command match (0x01/0x05, 0x40, payload, brightness). It then
  decodes the 11-byte LED and digit payload with first-match 7-segment lookup
  and parses temperature and error from the three display characters. The
  display side encodes the states back into that payload and reads button words.
- **6-wire TYPE2** (`CioType2`, `VaCioType2`, `DspType2`): 5-byte packets
  accepted or refused on chip select, 16-bit and 10-bit framed button
  transmission, LED masks, a two-read button debounce, and the target and
  temperature capture phases.

Beside them are:

- `SpaProtocol`: the generic helpers of `spa_protocol.h`. These are the XOR
  checksum, a hexadecimal 7-segment codec, packet build and parse, and the
  per-model lookups.
- `ModelSpecific`: the per-model button-code tables and 4-wire mask
  configurations.
- `BestwaySpa`: the component's first-in, first-out button queue.
- `SpaStates`, `Bytes`, `Lookup` and `DisplayPayload`: shared records, C integer
  conversions, the first-match scan and the display payload operations.

Interrupt handlers are sequential step methods that take the sampled pin
levels as parameters. `millis()` is a time parameter. Function-local `static`
variables are object fields. Serial reads are byte sequences.

Where the variant files disagree, each file is modelled as written:

- The unit flag means Celsius when true in `CIO_4W.cpp`, `cio_type1.h`,
  `dsp_type1.cpp` and `DSP_TYPE2.cpp`. It means Celsius when 0 in
  `va/DSP_TYPE1.cpp`.
- The 4-wire masks of `model_specific.h` differ from those of `CIO_4W.h`.
  `ModelSpecific.MasksDifferFromDriver` states the 54123 case.
- On the 4-wire models, `get_button_code` of `spa_protocol.h` remaps HEATER,
  FILTER and BUBBLES onto the codes of LOCK, UNIT and TEMP_DOWN.
  `SpaProtocol.ButtonCodeCollisions` states this.
- `bestway_spa.cpp` queues `TEMP_UP` and `TEMP_DOWN`, which `va/enums.h` does
  not define. The model queues `UP` and `DOWN`.
- `bestway_spa.h` declares neither `button_queue_` nor `on_button_press_`. The
  model gives the component the queue that `bestway_spa.cpp` uses.
- The comments in the table of `CIO_TYPE1.cpp` label its entries in a
  different order than the `Buttons` enum. The model follows the enum order,
  so NOBTN, UP, POWER, HYDROJETS and out-of-range values send 0x1B1B, and
  UNIT and PUMP both send 0x1B1D.
- `CIO_TYPE1.cpp`'s updateStates stores the ASCII code of the decoded
  character as the temperature.
- In `CIO_TYPE2.cpp`, POWER (bit 8) and HYDROJETS (bit 9) do not fit in the
  eight data bits of the 10-bit frame, so they send the NOBTN frame.
- In `cio_type1.cpp` the parsed value is truncated to `uint8_t`, so "300"
  reads as 44.
- In `cio_type2.cpp` the display "104" reads as 10.
- `DSP_TYPE2.cpp` masks `CMD3` with 0xF8 when it builds the dimming byte, so
  brightness 0 sends 0x88 and the display stays on. `DspType2.UploadFrames`,
  and the class methods that send it, use that byte. The intended byte is
  listed under "## Findings".

## Model

| member | source | states |
|---|---|---|
| Lookup.FirstIndex | components/bestway_spa/dsp_type1.cpp:96-103 | the table lookup returns the first index holding the value, and the table length exactly when no entry holds it |
| Lookup.FirstIndexOfDistinct | components/bestway_spa/dsp_type1.cpp:96-103 | a value that no earlier entry holds is found at its own index |
| Lookup.Scan | components/bestway_spa/dsp_type1.cpp:96-103 | the scanning loop returns `FirstIndex` |
| DisplayPayload.SetLedAt | components/bestway_spa/dsp_type1.cpp:147-148 | clearing then setting bit `bit` of a byte just replaced sets that bit of the new byte to the flag and changes no other byte |
| DisplayPayload.OrFlagIsSetBit | components/bestway_spa/va/DSP_TYPE1.cpp:176-177 | for a `uint8_t` flag of 0 or 1 the clear-then-or write sets the bit to the flag and keeps every other bit |
| DisplayPayload.RawButtonBytes | components/bestway_spa/dsp_type1.cpp:124-125 | the stored button bytes are two |
| DisplayPayload.RawButtonBytesJoin | components/bestway_spa/dsp_type1.cpp:124-125 | the two stored bytes are the word's high and low byte: joined again they give the word back |
| DisplayPayload.Position | components/bestway_spa/dsp_type1.cpp:75 | the `i`-th clocked bit goes to position `(i + 8) % 16` |
| DisplayPayload.ReceivedWordBits | components/bestway_spa/dsp_type1.cpp:66-79 | after the first `n` clocked bits, position `(i + 8) % 16` holds the `i`-th bit and positions not reached yet are clear |
| DisplayPayload.ReceivedWordPositions | components/bestway_spa/dsp_type1.cpp:66-79 | sixteen clocked bits fill every position: position `j` holds bit `(j + 8) % 16`, so nothing read is lost |
| DisplayPayload.ReceiveBits | components/bestway_spa/dsp_type1.cpp:66-79 | the receive loop returns `ReceivedWord` of the sixteen levels |
| DisplayPayload.DimByteLevels | components/bestway_spa/dsp_type1.cpp:210-239 | brightness 0 sends 0x80 (display off); brightness 1 to 8 sends 0x88 with `b - 1` in the low three bits |
| Cio4WModel.TruncDiv | components/bestway_spa/CIO_4W.h:64-65 | C integer division truncates toward zero: the quotient brackets `a` from below for `a >= 0` and from above for `a < 0` |
| Cio4WModel.F2C | components/bestway_spa/CIO_4W.h:64 | `(f - 32) * 5 / 9` with truncation: `9c <= (f-32)*5 < 9c+9` above 32 °F, mirrored below |
| Cio4WModel.C2F | components/bestway_spa/CIO_4W.h:65 | `c * 9 / 5 + 32` with truncation: `5(f-32) <= 9c < 5(f-32)+5` for `c >= 0`, mirrored below |
| Cio4WModel.CelsiusRoundTrip | components/bestway_spa/CIO_4W.h:64-65 | for `c >= 0` the °C→°F→°C round trip gives `c` when 5 divides `c` and `c - 1` otherwise, so it can lose one degree |
| Cio4WModel.FahrenheitRoundTrip | components/bestway_spa/CIO_4W.h:64-65 | from 32 °F up the °F→°C→°F round trip loses zero to two degrees, none exactly when 9 divides `f - 32` |
| Cio4WModel.Model4W.JumpTable | components/bestway_spa/CIO_4W.cpp:22-105 | every model's jump table has `Rows()` rows of 4 entries and every entry is a row of the same tables |
| Cio4WModel.Model4W.AllowedStates | components/bestway_spa/CIO_4W.cpp:22-105 | every allowed-states row has 4 entries, columns 0-2 are 0 or 1, column 3 (heating elements) is at most 2, and row 0 is all off |
| Cio4WModel.MasksDisjoint | components/bestway_spa/CIO_4W.h:97-185 | for each model the pump, bubbles, jets, heater 1, heater 2 and power masks are pairwise disjoint |
| Cio4WModel.Capabilities | components/bestway_spa/CIO_4W.h:97-185 | 54123 and 54154 have air and no jets, 54138 and 54173 both, 54144 jets without air; the jets mask is nonzero exactly on jet models; all other masks are nonzero |
| Cio4WModel.Frame | components/bestway_spa/CIO_4W.cpp:259-280 | a built frame passes the receive check (byte 5 is the sum of bytes 1-4 mod 256), carries the given bytes 2 and 3 and copies bytes 0, 1, 4 and 6 |
| Cio4W.Jump | components/bestway_spa/CIO_4W.cpp:108-117 | `getJumptable(idx, col)` of a row in range is again a row in range |
| Cio4W.Walk | components/bestway_spa/CIO_4W.cpp:22-105 | any sequence of toggle requests keeps `_currentStateIndex` within the model's tables |
| Cio4W.WalkSnoc | components/bestway_spa/CIO_4W.cpp:181-182 | one more toggle after a walk is one more jump from where the walk ended |
| Cio4W.HeatingRowsPump | components/bestway_spa/CIO_4W.cpp:22-105 | in every model, each state whose heater column is nonzero has the pump on |
| Cio4W.PumpOnStep | components/bestway_spa/CIO_4W.cpp:373-376 | toggling the pump when it is off reaches a state with the pump on |
| Cio4W.HeatOnStep | components/bestway_spa/CIO_4W.cpp:377-380 | from a state with the pump on and the heater off, the heat toggle switches the heater on and keeps the pump on |
| Cio4W.HeatOffStep | components/bestway_spa/CIO_4W.cpp:396-399 | from a state with pump and heater on, the heat toggle switches the heater off and keeps the pump on |
| Cio4W.AntifreezeHeats | components/bestway_spa/CIO_4W.cpp:368-385 | from any state, the antifreeze toggles end with pump and heater on |
| Cio4W.AntiboilCools | components/bestway_spa/CIO_4W.cpp:387-401 | from any state, the antiboil toggles end with the pump on and the heater off |
| Cio4W.DeferredPumpOff | components/bestway_spa/CIO_4W.cpp:219-234 | a pump-off request while heating first reaches pump on with heater off, and the later pump toggle then stops the pump |
| Cio4W.GodModeColdHeats | components/bestway_spa/CIO_4W.cpp:201-280 | below 10 °C after the requests, god mode ends, in the tables' column order, with pump and heater on, the target at 10 °C (50 °F), the pump bit in the command byte, and the green LED exactly when the thermostat holds the heater off |
| Cio4W.GodModeHotCools | components/bestway_spa/CIO_4W.cpp:201-280 | above 41 °C after the requests, god mode ends with the pump on, the heater off, the green LED off, the target as requested and the pump bit in the command byte |
| Cio4W.GodModeMildRegulates | components/bestway_spa/CIO_4W.cpp:201-366 | from 10 °C to 41 °C the outputs are the row the requests reach, the target, unit and temperature are kept, the heater is active iff heat is on and temperature + hysteresis <= target, and the green LED shows heat that is on but held off |
| Cio4W.GodModeHeaterMask | components/bestway_spa/CIO_4W.cpp:242-366 | after god mode the heater mask is heater 1 whenever fewer than two elements are allowed, and otherwise the old mask, heater 1, or both heaters |
| Cio4W.UnitChanged | components/bestway_spa/CIO_4W.cpp:203-207 | the unit flag is negated and the temperature converted with F2C into °C or C2F into °F, cut to `uint8_t`; nothing else changes |
| Cio4W.RunDown | components/bestway_spa/CIO_4W.cpp:176-177 | a positive `int32_t` countdown minus the elapsed `uint32_t` stays an `int32_t` and is the plain difference when no wrap occurs; a nonpositive one is unchanged |
| Cio4W.UnitRequest | components/bestway_spa/CIO_4W.cpp:203-207 | without a unit-change request the states are unchanged, with one they are `UnitChanged` |
| Cio4W.AntifreezeTarget | components/bestway_spa/CIO_4W.cpp:381-383 | the antifreeze target is 10 in °C and 50 in °F |
| Cio4W.Scaled | components/bestway_spa/CIO_4W.cpp:265-268 | `flag * mask` is 0 for an inactive flag and the mask for an active one |
| Cio4W.TemperatureChars | components/bestway_spa/CIO_4W.cpp:309-311 | the three characters are decimal digits whose value is the temperature |
| Cio4W.ErrorChars | components/bestway_spa/CIO_4W.cpp:317-319 | the first character is 'E' and the other two, as offsets from '0', give the error number; they are digits when it is below 100 |
| Cio4W.DecodeStatus | components/bestway_spa/CIO_4W.cpp:304-320 | temperature from byte 2 (C2F when the unit flag is 0), error from byte 3, the digits of the temperature or, on an error, "E" and the error number with god mode cleared; nothing else changes |
| Cio4W.Cio4W.constructor | components/bestway_spa/CIO_4W.cpp:119-123 | a fresh driver is in state 0 with zero heater mask, zero counters, countdowns and buffers |
| Cio4W.Cio4W.ToggleStates | components/bestway_spa/CIO_4W.cpp:335-340 | the four outputs become those of the current row and nothing else changes |
| Cio4W.Cio4W.Toggle | components/bestway_spa/CIO_4W.cpp:181-182 | the state index follows the jump table and only the outputs change |
| Cio4W.Cio4W.GetSerialReceived | components/bestway_spa/CIO_4W.cpp:325-329 | returns the received flag and clears it |
| Cio4W.Cio4W.SetSerialReceived | components/bestway_spa/CIO_4W.cpp:331-333 | stores whether the next transmission is allowed |
| Cio4W.Cio4W.UpdateStates | components/bestway_spa/CIO_4W.cpp:282-323 | no frame, a short frame or a bad checksum changes no state or buffer, a bad checksum only counts a bad packet; an accepted frame is counted, copied, decoded, and an error clears the command byte |
| Cio4W.Cio4W.Accept | components/bestway_spa/CIO_4W.cpp:296-322 | an accepted frame is counted and copied into both buffers, the states are `DecodeStatus`, and an error zeroes byte 2 of the command buffer |
| Cio4W.Cio4W.Decode | components/bestway_spa/CIO_4W.cpp:304-320 | the states are `DecodeStatus` of the receive buffer, and an error zeroes the command byte |
| Cio4W.Cio4W.CopyIn | components/bestway_spa/CIO_4W.cpp:299-302 | both receive buffers hold the frame |
| Cio4W.Cio4W.GeneratePayload | components/bestway_spa/CIO_4W.cpp:259-280 | the green heater LED is heat on and not active, and the command buffer is a checked frame whose byte 2 is the masks of the active outputs plus power when any is active |
| Cio4W.Cio4W.WriteFrame | components/bestway_spa/CIO_4W.cpp:260-279 | the command buffer becomes `Frame` of the raw display frame with the given command byte |
| Cio4W.Cio4W.RegulateTemp | components/bestway_spa/CIO_4W.cpp:342-366 | heat off makes the heater inactive; otherwise it is active iff temperature + hysteresis <= target, hysteresis becomes 0 after heating and 1 otherwise, a starting heater arms the 10 s delay, and the second element joins once it has run out with two elements allowed; the values it updates are `RegulateControl` of the old ones |
| Cio4W.Cio4W.Antifreeze | components/bestway_spa/CIO_4W.cpp:368-385 | at 10 °C or more nothing changes; below, the state walks the antifreeze toggles and the target becomes 10 °C (50 °F); the values it updates are `AntifreezeControl` of the old ones |
| Cio4W.Cio4W.Antiboil | components/bestway_spa/CIO_4W.cpp:387-401 | at 41 °C or less nothing changes; above, the state walks the antiboil toggles and only the outputs change; the values it updates are `AntiboilControl` of the old ones |
| Cio4W.Cio4W.ToggleWhen | components/bestway_spa/CIO_4W.cpp:209-212 | a toggle taken only when its request is set; otherwise nothing changes |
| Cio4W.Cio4W.CountDown | components/bestway_spa/CIO_4W.cpp:176-184 | both countdowns run down, and a pending pump-off is served exactly once, when the cooling countdown has run out |
| Cio4W.Cio4W.ServePump | components/bestway_spa/CIO_4W.cpp:219-235 | the pump request toggles the pump, or while heating toggles the heater, arms the 5000 ms cooling countdown and sets the pump-off flag |
| Cio4W.Cio4W.ChangeUnit | components/bestway_spa/CIO_4W.cpp:203-207 | the states become `UnitRequest` of the requests |
| Cio4W.Cio4W.ServeRequests | components/bestway_spa/CIO_4W.cpp:203-240 | unit change, then heat, bubbles (air models), pump and jets (jet models) requests in that order; only the outputs differ from the unit-changed states |
| Cio4W.Cio4W.ServeHeatAndBubbles | components/bestway_spa/CIO_4W.cpp:209-217 | the heat request, then the bubbles request on air models |
| Cio4W.Cio4W.Tick | components/bestway_spa/CIO_4W.cpp:170-184 | the elapsed time is `now - _prev_ms` in `uint32_t`, is added to the transmission timer in `int32_t`, the target is copied from the requests, the countdowns run and a due pump-off is served once; the god-mode values become `TickControl` of the old ones |
| Cio4W.Cio4W.PassThrough | components/bestway_spa/CIO_4W.cpp:187-199 | outside god mode the display's raw frame goes to the command buffer and is sent exactly when the display side allowed it |
| Cio4W.Cio4W.GodModeStep | components/bestway_spa/CIO_4W.cpp:201-249 | in god mode the index, states, hysteresis, countdowns, heater mask and pump-off flag become `GodModeControl` of the old ones (requests, thermostat, guards and the green LED in source order), and the command buffer is the frame of the resulting outputs |
| Cio4W.Cio4W.ServeGodMode | components/bestway_spa/CIO_4W.cpp:201-244 | god mode is set, the unit change and the heat, bubbles, pump and jets requests are served (a pump-off while heating arms the 5000 ms cooling countdown and the flag), and the heater mask is reset to heater 1 when fewer than two elements are allowed: `ServeControl` of the old values |
| Cio4W.Cio4W.Guard | components/bestway_spa/CIO_4W.cpp:246-248 | regulateTemp, antifreeze and antiboil in that order: the values they update become `GuardControl` of the old ones and god mode is kept |
| Cio4W.Cio4W.Transmit | components/bestway_spa/CIO_4W.cpp:251-256 | the frame is sent iff allowed or more than 2000 ms have passed; sending clears the permission and the timer and counts the write |
| Cio4W.Cio4W.HandleToggles | components/bestway_spa/CIO_4W.cpp:169-257 | handleToggles as a whole: in both modes the elapsed time is added to the transmission timer in `int32_t`; outside god mode the target and countdowns follow `TickControl`, god mode is cleared and the raw frame is forwarded when allowed; inside it the values become `GodModeControl` of `TickControl` of the old ones, the checked command frame of the resulting outputs is built, and it is sent exactly when allowed or when the timer after the tick exceeds 2000 ms, otherwise the permission, timer and write count are kept |
| Cio4W.Cio4W.GodModeSend | components/bestway_spa/CIO_4W.cpp:201-256 | the god-mode half: the values become `GodModeControl` of the old ones, the command frame is built from the outputs and sent exactly when allowed or overdue; a send clears the permission and the timer and counts the write, otherwise the permission, timer and write count are kept |
| Cio4W.Cio4W.PassThroughToggles | components/bestway_spa/CIO_4W.cpp:169-198 | handleToggles outside god mode: the elapsed time is added to the transmission timer in `int32_t` and never reset, the target and countdowns follow `TickControl` of the old values, god mode is cleared, and the raw display frame goes to the command buffer and is sent exactly when the display side allowed it |
| Cio4W.Cio4W.GodModeToggles | components/bestway_spa/CIO_4W.cpp:169-257 | handleToggles in god mode: the values become `GodModeControl` of `TickControl` of the old ones, the command buffer is the frame built from the resulting outputs, and it is sent exactly when allowed or when the `int32_t` timer plus the elapsed time exceeds 2000 ms; a send clears the permission and the timer and counts the write, otherwise the permission is kept and the timer keeps the sum |
| Dsp4W.SameMasksAsController | components/bestway_spa/DSP_4W.h:90-180 | each display model's masks and capabilities equal those of the controller model of the same number |
| Dsp4W.DetectChanges | components/bestway_spa/DSP_4W.cpp:198-208 | a change flag is set exactly when that output differs from the latched one; heat, lock, power and unit flags are cleared and the pressed button is NOBTN; the other request fields are kept |
| Dsp4W.StatusFrame | components/bestway_spa/DSP_4W.cpp:256-267 | the status frame passes the checksum test, carries the temperature in °C and the error in bytes 2 and 3 and copies bytes 0, 1, 4 and 6 |
| Dsp4W.RunningMax | components/bestway_spa/DSP_4W.cpp:239-241 | the recorded maximum is at least both values and is one of them |
| Dsp4W.AdvanceToNow | components/bestway_spa/DSP_4W.cpp:219-220 | `lastmillis += elapsedtime` brings `lastmillis` to `now` even when the difference wraps |
| Dsp4W.Dsp4W.constructor | components/bestway_spa/DSP_4W.h:40-86 | a fresh driver has zero counters, all buttons enabled, zero latches and buffers, and -1 as the largest gap seen |
| Dsp4W.Dsp4W.UpdateToggles | components/bestway_spa/DSP_4W.cpp:167-215 | god mode, target and heater count are always copied into the requests; a missing, short or badly summed frame changes nothing else (a bad sum only counts); a good frame is counted, copied, and its outputs latched and compared in god mode |
| Dsp4W.Dsp4W.Accept | components/bestway_spa/DSP_4W.cpp:186-214 | a good frame is counted and copied, each output latched as `(byte2 & mask) > 0`, and in god mode the requests become `DetectChanges` |
| Dsp4W.Dsp4W.Latch | components/bestway_spa/DSP_4W.cpp:194-214 | the three outputs are latched from the command byte, and the change flags are set only in god mode |
| Dsp4W.Dsp4W.CopyIn | components/bestway_spa/DSP_4W.cpp:189-192 | both receive buffers hold the frame |
| Dsp4W.Dsp4W.Tick | components/bestway_spa/DSP_4W.cpp:218-221 | the first call sets `lastmillis` to now; each call adds the `uint32_t` difference, taken as `int`, to the transmission timer |
| Dsp4W.Dsp4W.GeneratePayload | components/bestway_spa/DSP_4W.cpp:256-267 | the send buffer is `StatusFrame` of the states |
| Dsp4W.Dsp4W.CopyOut | components/bestway_spa/DSP_4W.cpp:227-230 | the send buffer holds the first seven raw bytes |
| Dsp4W.Dsp4W.Transmit | components/bestway_spa/DSP_4W.cpp:233-243 | the frame is sent iff allowed or more than 2000 ms have passed; sending counts, records the largest gap and clears timer and permission |
| Dsp4W.Dsp4W.HandleStates | components/bestway_spa/DSP_4W.cpp:217-244 | god mode builds the status frame, otherwise the raw frame is copied when it has seven bytes; a frame goes out exactly when there is one and the panel allows it or the timer after the tick exceeds 2000 ms, raising the running maximum; otherwise the counters, the maximum and the ticked timer stay |
| Dsp4W.Dsp4W.GetSerialReceived | components/bestway_spa/DSP_4W.cpp:246-250 | returns the received flag and clears it |
| Dsp4W.Dsp4W.SetSerialReceived | components/bestway_spa/DSP_4W.cpp:252-254 | stores whether the next transmission is allowed |
| Dsp4W.CommandBits | components/bestway_spa/CIO_4W.cpp:265-272 | in the OR of active masks, each output's own mask bits are set exactly when that output is on |
| Dsp4W.CommandByteFlags | components/bestway_spa/CIO_4W.cpp:265-272 | reading the command byte back with each mask gives the pump, bubbles and jets flags it was built from |
| Dsp4W.DecodesCommandByte | components/bestway_spa/DSP_4W.cpp:194-196 | the display driver's decode of a controller command byte recovers the pump, bubbles and jets flags |
| Dsp4W.StatusFrameRoundTrip | components/bestway_spa/DSP_4W.cpp:256-267 | in °C, decoding a status frame with the controller's updateStates gives back the temperature and the error |
| Dsp4W.StatusFrameRoundTripFahrenheit | components/bestway_spa/DSP_4W.cpp:256-267 | in °F from 32 °F up, the error comes back unchanged and the temperature up to two degrees low, exact iff `temperature - 32` is a multiple of 9 |
| CioType1.SegmentTable | components/bestway_spa/cio_type1.cpp:13-20 | the 7-segment table has one code per character of `CHARS` |
| CioType1.CharIndex | components/bestway_spa/cio_type1.cpp:325-332 | the first-match index is at most the table length, the length meaning no match |
| CioType1.GetChar | components/bestway_spa/cio_type1.cpp:325-332 | the decoded character is one of `CHARS` or '*' |
| CioType1.GetCharNeverShadowed | components/bestway_spa/cio_type1.cpp:13-20 | 'S', 'V', 'W' and 'Z' are never decoded: their codes equal those of '5', 'U', 'U' and '2', which come first |
| CioType1.GetCharOfCode | components/bestway_spa/cio_type1.cpp:325-332 | every other character decodes back from its own code |
| CioType1.CharOf | components/bestway_spa/cio_type1.cpp:325-332 | the scanning loop returns `GetChar` of the byte |
| CioType1.ParseThreeDigits | components/bestway_spa/cio_type1.cpp:159-167 | three digits showing 100 to 149 set that temperature and clear the error |
| CioType1.ParseTwoDigits | components/bestway_spa/cio_type1.cpp:168-174 | a blank and two digits showing 1 to 99 set that temperature and clear the error |
| CioType1.ParseErrorCode | components/bestway_spa/cio_type1.cpp:150-155 | 'E' and two digits set the error number and keep the temperature |
| CioType1.ParseThreeDigitsWraps | components/bestway_spa/cio_type1.cpp:162-166 | "300" wraps in `uint8_t` to 44, which passes the range check and becomes the temperature |
| CioType1.ParseIdempotent | components/bestway_spa/cio_type1.cpp:149-177 | parsing the same three characters twice gives the same reading as once |
| CioType1.DecodeConsistent | components/bestway_spa/cio_type1.cpp:119-146 | decoding keeps the target, heat is green or red heater, and jets are only set on jet models |
| CioType1.DecodeUnit | components/bestway_spa/cio_type1.cpp:124-126 | the C bit gives °C, the F bit alone gives °F, neither keeps the unit |
| CioType1.TimerLed2ImpliesCelsius | components/bestway_spa/cio_type1.h:149-162 | timer LED 2 and the °C LED share byte 7 bit 0, so a lit timer LED 2 always decodes as °C |
| CioType1.DecodeIdempotent | components/bestway_spa/cio_type1.cpp:119-177 | decoding a payload twice gives the same states as once |
| CioType1.EopErrors | components/bestway_spa/cio_type1.cpp:188-191 | the error bits are zero exactly when 0 or 11 bytes and whole bytes were received, and only bits 0 and 1 are ever set |
| CioType1.NextMatch | components/bestway_spa/cio_type1.cpp:197-219 | the command-match step stays within 0 to 3 |
| CioType1.CommandSequenceCaptures | components/bestway_spa/cio_type1.cpp:197-219 | mode command, 0x40, a payload and a brightness byte capture the brightness and return to 0 |
| CioType1.CapturesOnlyAfterSequence | components/bestway_spa/cio_type1.cpp:197-219 | a brightness is captured only after a mode command, the data-write command and a non-command byte |
| CioType1.NextSendBit | components/bestway_spa/cio_type1.cpp:288-290 | the next bit to send stays below 16 |
| CioType1.SendBitAfter | components/bestway_spa/cio_type1.cpp:288-290 | the bit position after `n` falling edges stays below 16 |
| CioType1.SendOrder | components/bestway_spa/cio_type1.cpp:275-313 | starting from bit 8, the `n`-th bit sent is bit `(8 + n) mod 16`: high byte first, each LSB first |
| CioType1.ButtonCodeOf | components/bestway_spa/cio_type1.cpp:334-339 | the code of a button is an entry of the table |
| CioType1.ButtonOfCode | components/bestway_spa/cio_type1.cpp:341-348 | the button of a code is a valid button, NOBTN when no entry matches |
| CioType1.ButtonCodeRoundTrip | components/bestway_spa/cio_type1.cpp:334-348 | a button whose code differs from every earlier entry reads back from its code |
| CioType1.CodeButtonRoundTrip | components/bestway_spa/cio_type1.cpp:334-348 | a code reads back through its button exactly when it is in the table |
| CioType1.DefaultCodesRoundTrip | components/bestway_spa/cio_type1.h:129 | with the default table every button before HYDROJETS reads back from its code |
| CioType1.DefaultCodesShadowJets | components/bestway_spa/cio_type1.h:129 | with the default table HYDROJETS shares 0x0000 with POWER and reads back as POWER |
| CioType1.ButtonFromCode | components/bestway_spa/cio_type1.cpp:341-348 | the scanning loop returns `ButtonOfCode` |
| CioType1.CioType1.constructor | components/bestway_spa/cio_type1.cpp:35-45 | counters, flags and buffers start at zero, send bit 8, brightness 7, button code 0x1B1B, default states and table |
| CioType1.CioType1.CopyIn | components/bestway_spa/cio_type1.cpp:114-116 | the raw buffer holds the payload |
| CioType1.CioType1.UpdateStates | components/bestway_spa/cio_type1.cpp:101-178 | no new packet changes nothing; a flagged packet only counts a bad packet and clears the error; a good one is copied, counted and decoded |
| CioType1.CioType1.EopHandler | components/bestway_spa/cio_type1.cpp:180-220 | length errors are ORed in, the counters reset, the command match advances, and the brightness is captured exactly after the full sequence |
| CioType1.CioType1.PacketHandler | components/bestway_spa/cio_type1.cpp:222-238 | chip select high ends the packet through the end-of-packet step; low only marks a packet active |
| CioType1.CioType1.ReceiveBit | components/bestway_spa/cio_type1.cpp:294-322 | bits are shifted in LSB first; each eighth bit stores a payload byte while capturing (error 4 past 11 bytes), or turns the line around after 0x42 |
| CioType1.CioType1.ClkHandler | components/bestway_spa/cio_type1.cpp:240-323 | a chip-select edge starts or ends a packet; while active a falling edge outputs the current bit of the button code and moves to the next; a rising edge shifts in a bit and, at a full byte, stores it in an open data-write sequence (error bit 4 past 11 bytes) or switches to sending from bit 8 after the read command |
| CioType1.CioType1.GetButtonCode | components/bestway_spa/cio_type1.cpp:334-339 | returns `ButtonCodeOf` the current table |
| CioType1.CioType1.GetButtonFromCode | components/bestway_spa/cio_type1.cpp:341-348 | returns `ButtonOfCode` the current table |
| CioType1.CioType1.SetButtonCode | components/bestway_spa/cio_type1.h:82 | stores the code to send |
| CioType1.CioType1.SetButtonCodes | components/bestway_spa/cio_type1.cpp:350-354 | the first `min(count, 11)` entries are replaced and the rest kept |
| CioType2.LedMasksPartitionByte | components/bestway_spa/cio_type2.h:33-40 | the eight LED masks are bits 0 to 7 in order (power, bubbles, jets, green heater, red heater, pump, °F, lock) and together cover the byte |
| CioType2.SegmentTable | components/bestway_spa/cio_type2.h:43-51 | the TYPE2 7-segment table has one code per character of `CHARS_TYPE2` |
| CioType2.CharIndex | components/bestway_spa/cio_type2.cpp:292-297 | the first-match index is at most the table length, the length meaning no match |
| CioType2.DecodeChar | components/bestway_spa/cio_type2.cpp:292-304 | the decoded character is one of `CHARS_TYPE2` or '?' |
| CioType2.DecodeCharScan | components/bestway_spa/cio_type2.cpp:292-304 | the scanning loop returns `DecodeChar` of the segments |
| CioType2.DecodeNeverShadowed | components/bestway_spa/cio_type2.h:43-51 | 'I', 'S', 'V', 'W', 'X' and 'Z' are never decoded, because an earlier character has the same code |
| CioType2.CodeFirstInLowHalf | components/bestway_spa/cio_type2.h:43-51 | each of the first 19 codes except 'I' differs from every earlier one |
| CioType2.CodeFirstInHighHalf | components/bestway_spa/cio_type2.h:43-51 | each later code except the shadowed ones differs from every earlier one |
| CioType2.DecodeCharOfCode | components/bestway_spa/cio_type2.cpp:292-304 | every character that is not shadowed decodes back from its own code |
| CioType2.DisplayTemperature | components/bestway_spa/cio_type2.cpp:335-345 | a temperature read from the display lies between 0 and 99 |
| CioType2.DisplayTemperatureRoundTrip | components/bestway_spa/cio_type2.cpp:335-345 | two digits in front are read back as their value, as are two digits behind a non-digit |
| CioType2.DisplayTemperatureDropsThirdDigit | components/bestway_spa/cio_type2.cpp:336-341 | a leading digit makes only the first two characters count: "104" reads as 10 |
| CioType2.ParsePacketKeepsNullPointers | components/bestway_spa/cio_type2.cpp:316-374 | parsePacket writes only through the pointers that are not null |
| CioType2.ParsePacketKeepsUnreadTemperature | components/bestway_spa/cio_type2.cpp:335-345 | when the display shows no temperature, the temperature keeps its old value |
| CioType2.ParsePacketLeds | components/bestway_spa/cio_type2.cpp:348-373 | Celsius exactly when bit 6 of byte 4 is clear, power exactly when bit 0 is set, lock exactly when bit 7 is set |
| CioType2.ParsePacketDisplay | components/bestway_spa/cio_type2.cpp:323-332 | the display string keeps its length and starts with the three decoded characters and a NUL |
| CioType2.CioType2.constructor | components/bestway_spa/cio_type2.cpp:49-71 | counters, flags and both packet buffers start at zero, the button code at 0 (NOBTN of the 54149E) and no button pin |
| CioType2.CioType2.Setup | components/bestway_spa/cio_type2.cpp:77-109 | records the button pin and resets the button code to 0 |
| CioType2.CioType2.SetButtonCode | components/bestway_spa/cio_type2.cpp:129-131 | stores the code to send |
| CioType2.CioType2.IsPacketReady | components/bestway_spa/cio_type2.cpp:137-139 | reports whether a packet is waiting |
| CioType2.CioType2.GetPacket | components/bestway_spa/cio_type2.cpp:145-159 | without a packet nothing is copied; with one, the first `min(max_len, 5)` bytes are copied, the rest of the buffer is kept and the flag is cleared |
| CioType2.CioType2.CsHandler | components/bestway_spa/cio_type2.cpp:165-203 | release accepts five bytes, or four and part of a fifth, as a good packet, and counts a started shorter one as bad; select clears the packet and the counters |
| CioType2.CioType2.ReadBit | components/bestway_spa/cio_type2.cpp:231-256 | bits are shifted in LSB first; a full byte is stored while fewer than five are, the first one is the command byte, and 0x10 starts a button transmission at bit 0 |
| CioType2.CioType2.WriteBit | components/bestway_spa/cio_type2.cpp:263-284 | the level sent is the current bit of the button code, which is entry `sendBit` of `SentBits(code, 16)`, so the list sent so far grows by that level; after bit 15 the transmission ends |
| CioType2.CioType2.ClkHandler | components/bestway_spa/cio_type2.cpp:210-286 | nothing happens outside a packet; a rising edge shifts in a bit and, at a full byte, stores it while fewer than five are held (the first also as command byte) and starts the button transmission at bit 0 on the get-buttons command; a falling edge sends the current button bit when a transmission is on and the button pin is connected, ending after bit 15 |
| CioType2.SentBitsLsbFirst | components/bestway_spa/cio_type2.cpp:263-284 | the list of bits a transmission sends holds bit `k` of the button code at position `k`: LSB first, all sixteen bits, each once; `WriteBit` and `ClkHandler` send entry `sendBit` of that list, and `WriteBit` extends the list sent so far by its level |
| VaCioType1.FindCodeFirst | components/bestway_spa/CIO_TYPE1.cpp:50-55 | the search from `i` returns the first index at or after `i` whose code is the byte, or 38 when none is |
| VaCioType1.FindCodeAt | components/bestway_spa/CIO_TYPE1.cpp:50-55 | a code that differs from every earlier one from `i` on is found at its own index |
| VaCioType1.NoQuestionMarkInChars | components/bestway_spa/CIO_TYPE1.cpp:13-18 | '?' is not a table character, so it can only mean "no match" |
| VaCioType1.GetCharRange | components/bestway_spa/CIO_TYPE1.cpp:50-55 | the result is '?' or a table character, and '?' exactly when no code matches the byte |
| VaCioType1.CharOf | components/bestway_spa/CIO_TYPE1.cpp:50-55 | the scanning loop returns `GetChar` of the byte |
| VaCioType1.GetCharNeverS | components/bestway_spa/CIO_TYPE1.cpp:6-18 | 'S' is never decoded: its code 0x5B is that of '5', which comes first |
| VaCioType1.CodeFirstInLowHalf | components/bestway_spa/CIO_TYPE1.cpp:6-11 | each of the first 19 codes differs from every earlier one |
| VaCioType1.CodeFirstInHighHalf | components/bestway_spa/CIO_TYPE1.cpp:6-11 | each later code except that of 'S' differs from every earlier one |
| VaCioType1.GetCharOfCode | components/bestway_spa/CIO_TYPE1.cpp:50-55 | every character except 'S' decodes back from its own code |
| VaCioType1.ButtonCode | components/bestway_spa/CIO_TYPE1.cpp:57-60 | the code of any button value, in range or not, is an entry of the PRE2021 table (entry 0 when out of range) |
| VaCioType1.ButtonCodesCoincide | components/bestway_spa/CIO_TYPE1.cpp:21-33 | indexed by the `Buttons` enum, two buttons send the same code exactly when they are in the same group: NOBTN, UP, POWER, HYDROJETS and every out-of-range value send 0x1B1B, UNIT and PUMP both send 0x1B1D |
| VaCioType1.TemperatureIsCharacterCode | components/bestway_spa/CIO_TYPE1.cpp:86 | the temperature taken from a digit is the ASCII code of its character, `48 + d`, not the digit's value |
| VaCioType1.CioType1.constructor | components/bestway_spa/CIO_TYPE1.cpp:36-47 | counters, flags and the received byte start at zero, send bit 8, brightness 7 |
| VaCioType1.CioType1.UpdateStates | components/bestway_spa/CIO_TYPE1.cpp:78-90 | a packet error only counts a bad packet and is cleared; otherwise the temperature becomes the character code of byte 1 and a good packet is counted |
| VaCioType2.FindCodeFirst | components/bestway_spa/CIO_TYPE2.cpp:235-242 | the search from `i` returns the first index at or after `i` whose code is the byte, or 38 when none is |
| VaCioType2.FindCodeAt | components/bestway_spa/CIO_TYPE2.cpp:235-242 | a code that differs from every earlier one from `i` on is found at its own index |
| VaCioType2.GetCharRange | components/bestway_spa/CIO_TYPE2.cpp:235-242 | the result is '*' or a character of `CHARS`, and '*' whenever no code matches |
| VaCioType2.CharOf | components/bestway_spa/CIO_TYPE2.cpp:235-242 | the scanning loop returns `GetChar` of the byte |
| VaCioType2.GetCharNeverShadowed | components/bestway_spa/CIO_TYPE2.cpp:20-23 | positions 18, 25, 31, 35 and 37 are never returned, because an earlier position has the same code |
| VaCioType2.CodeFirstInLowHalf | components/bestway_spa/CIO_TYPE2.cpp:20-23 | each of the first 19 codes except position 18 differs from every earlier one |
| VaCioType2.CodeFirstInHighHalf | components/bestway_spa/CIO_TYPE2.cpp:20-23 | each later code except the shadowed ones differs from every earlier one |
| VaCioType2.GetCharOfCode | components/bestway_spa/CIO_TYPE2.cpp:235-242 | every position that is not shadowed decodes back to its own character |
| VaCioType2.ButtonCode | components/bestway_spa/CIO_TYPE2.cpp:245-250 | the code sent for any button value is an entry of the 54149E table |
| VaCioType2.ButtonOf | components/bestway_spa/CIO_TYPE2.cpp:252-259 | the button of a code is a valid button |
| VaCioType2.ButtonRoundTrip | components/bestway_spa/CIO_TYPE2.cpp:245-259 | every button reads back from its code; an out-of-range value sends the NOBTN code |
| VaCioType2.ButtonOfUnknown | components/bestway_spa/CIO_TYPE2.cpp:252-259 | a code reads as NOBTN exactly when it is 0 or not in the table |
| VaCioType2.GetButton | components/bestway_spa/CIO_TYPE2.cpp:252-259 | the scanning loop returns `ButtonOf` of the code |
| VaCioType2.ButtonFrameBits | components/bestway_spa/CIO_TYPE2.cpp:199-231 | of the ten bits clocked out, bit 0 is a 0 start bit, bit 9 a 1 stop bit, and bits 1-8 the low byte of the code, LSB first |
| VaCioType2.PowerAndJetsSendNothing | components/bestway_spa/CIO_TYPE2.cpp:26-38 | POWER (bit 8) and HYDROJETS (bit 9) fall outside the eight data bits and go out as the NOBTN frame |
| VaCioType2.CommandOfBits | components/bestway_spa/CIO_TYPE2.cpp:210-211 | bit `k` of the command byte is the `k`-th LD bit clocked in |
| VaCioType2.DigitRun | components/bestway_spa/CIO_TYPE2.cpp:169-170 | the number of leading digits: all of them digits, followed by a non-digit or the end |
| VaCioType2.ToIntTwoDigits | components/bestway_spa/CIO_TYPE2.cpp:145-151 | `toInt()` of two digits is their decimal value |
| VaCioType2.ToIntThreeDigits | components/bestway_spa/CIO_TYPE2.cpp:169-170 | `toInt()` of three digits is their decimal value |
| VaCioType2.ToIntExamples | components/bestway_spa/CIO_TYPE2.cpp:169-170 | leading white space is skipped (" 38" is 38) and a leading letter gives 0 ("H38" is 0) |
| VaCioType2.LedFlag | components/bestway_spa/CIO_TYPE2.cpp:113-128 | a LED flag is 0 or 1, and 1 exactly when its bit is set |
| VaCioType2.DecodeLedsFlags | components/bestway_spa/CIO_TYPE2.cpp:113-139 | power is always 1, heat exactly when a heater LED is lit, no jets on a model without them, the unit kept when neither unit LED is lit and set from the C LED otherwise |
| VaCioType2.ReadDisplaySkips | components/bestway_spa/CIO_TYPE2.cpp:142-153 | an unreadable display, or one ending in 'H' or ' ', leaves the states and the capture phase as they were |
| VaCioType2.ReadDisplayError | components/bestway_spa/CIO_TYPE2.cpp:145-151 | "eNN" sets the error to NN and changes nothing else |
| VaCioType2.ReadDisplayPhases | components/bestway_spa/CIO_TYPE2.cpp:155-180 | the target changes only while reading the target and only to a shown value above 19, the temperature only while reading the temperature, and target reading never outlasts 2000 ms |
| VaCioType2.ReadDisplayCapturesTarget | components/bestway_spa/CIO_TYPE2.cpp:158-174 | with UP or DOWN being sent on a powered, unlocked spa, the release time is now and a shown value above 19 becomes the target |
| VaCioType2.ReadDisplayTimeouts | components/bestway_spa/CIO_TYPE2.cpp:164-180 | more than 6000 ms after the last UP or DOWN the shown value is the temperature; between 2000 and 6000 ms it is ignored |
| VaCioType2.DisplayedValueDigits | components/bestway_spa/CIO_TYPE2.cpp:169-170 | three digits are read as their number modulo 256 |
| VaCioType2.CioType2.constructor | components/bestway_spa/CIO_TYPE2.cpp:53-63 | counters and command bytes start at zero, send bit 8, brightness 7, button code 0, capture phase reading the temperature |
| VaCioType2.CioType2.Setup | components/bestway_spa/CIO_TYPE2.cpp:65-79 | the button code becomes the NOBTN code |
| VaCioType2.CioType2.SetButtonCode | components/bestway_spa/CIO_TYPE2.h:34-36 | stores the code to send |
| VaCioType2.CioType2.CopyIn | components/bestway_spa/CIO_TYPE2.cpp:105-107 | the raw buffer holds the payload |
| VaCioType2.CioType2.UpdateStates | components/bestway_spa/CIO_TYPE2.cpp:96-181 | no new packet changes nothing; otherwise the packet is consumed, copied, counted, the brightness is the command's low three bits, and the states and capture statics are `DecodeLeds` then `ReadDisplay` |
| VaCioType2.CioType2.DecodeInto | components/bestway_spa/CIO_TYPE2.cpp:113-139 | the states become `DecodeLeds` of the payload |
| VaCioType2.CioType2.ReadInto | components/bestway_spa/CIO_TYPE2.cpp:141-180 | the states and the two statics become those of `ReadDisplay` |
| VaCioType2.CioType2.LedHandler | components/bestway_spa/CIO_TYPE2.cpp:184-195 | an LD change with CLK high resets the counters and command byte and starts (LD low) or ends (LD high) a packet; with CLK low nothing changes |
| VaCioType2.CioType2.ClkHandler | components/bestway_spa/CIO_TYPE2.cpp:197-233 | a rising edge ors the first eight LD bits into the command byte, replaces one payload bit per edge after the data command, keeps a brightness command at bit 7 and counts the edge; a falling edge outputs bit `bit_count % 10` of the button frame |
| DspType1.CodeByte | components/bestway_spa/dsp_type1.cpp:10-15 | each display code byte equals the controller's code at the same position |
| DspType1.CharsAt | components/bestway_spa/dsp_type1.cpp:17 | `CHARS` holds the ten digits, the 26 letters, space and dash, 38 characters in that order |
| DspType1.ScanFirst | components/bestway_spa/dsp_type1.cpp:88-92 | the scan from `i` stops at the first position whose character is `c`, and at 39 only when no later position matches |
| DspType1.CharPos | components/bestway_spa/dsp_type1.cpp:17 | the position is at most 38 |
| DspType1.CharPosOfCharAt | components/bestway_spa/dsp_type1.cpp:17 | `CharPos` finds every character of `CHARS` at its own position, and a character it finds is the one there |
| DspType1.ScanIsCharPos | components/bestway_spa/dsp_type1.cpp:88-92 | the scan over all `sizeof(CHARS)` positions stops at the character's position, at 38 (the terminator) for NUL, and runs off the end for any other character |
| DspType1.NulReadsPastTable | components/bestway_spa/dsp_type1.cpp:87-94 | the NUL character matches the terminator and reads `CHARCODES[38]`, past the 38-entry table |
| DspType1.AsWrittenAgreesOffNul | components/bestway_spa/dsp_type1.cpp:87-94 | for every other character the code as written equals the bounded lookup, and a character outside `CHARS` is blank (0x00) |
| DspType1.CharTo7SegOfChar | components/bestway_spa/dsp_type1.cpp:87-94 | every character of `CHARS` is encoded with its own code |
| DspType1.CharTo7SegCode | components/bestway_spa/dsp_type1.cpp:87-94 | the scanning loop, bounded to the table, returns `CharTo7Seg` of the character |
| DspType1.EncodeDecodeRoundTrip | components/bestway_spa/dsp_type1.cpp:10-17 | a character encoded for the display and decoded by the controller comes back, for all but 'S', 'V', 'W' and 'Z' |
| DspType1.DecodesAsSameCode | components/bestway_spa/dsp_type1.cpp:10-17 | a character whose code another decodable character shares is read back as that character |
| DspType1.ShadowedCharsDecodeAs | components/bestway_spa/dsp_type1.cpp:10-17 | 'S' comes back as '5', 'Z' as '2', 'V' and 'W' as 'U' |
| DspType1.DefaultButtonLookup | components/bestway_spa/dsp_type1.cpp:96-103 | with the default codes a code reads as NOBTN exactly when it is 0x1B1B or belongs to no button, and 0x0000 reads as POWER, never HYDROJETS |
| DspType1.DigitCodes | components/bestway_spa/dsp_type1.cpp:135-143 | handle_states writes three digit bytes |
| DspType1.DigitSources | components/bestway_spa/dsp_type1.cpp:135-143 | a text of three or more characters hides the state characters; without a text the digits depend on the state characters alone; a one-character text shows 0x01 in the other two digits |
| DspType1.Byte7Writes | components/bestway_spa/dsp_type1.cpp:146-176 | the lock, timer button, timer 1, timer 2 and C writes to byte 7, in source order, give `StatusByte7` |
| DspType1.Byte9Writes | components/bestway_spa/dsp_type1.cpp:160-186 | the red heater, green heater, bubbles, pump, F, power and jets writes to byte 9, in source order, give `StatusByte9` |
| DspType1.WithLedsBytes | components/bestway_spa/dsp_type1.cpp:145-186 | the LED writes change bytes 7 and 9 only, to `StatusByte7` and `StatusByte9` |
| DspType1.TimerLedsByte | components/bestway_spa/dsp_type1.cpp:146-158 | the lock and timer writes replace byte 7 only |
| DspType1.HeaterLedsByte | components/bestway_spa/dsp_type1.cpp:160-172 | the heater, bubbles and pump writes replace byte 9 only |
| DspType1.UnitLedsBytes | components/bestway_spa/dsp_type1.cpp:174-186 | the unit writes set bit 0 of byte 7 to the unit, and bits 4, 5 and 6 of byte 9 to not-unit, power and jets |
| DspType1.HandledPayloadPowerOn | components/bestway_spa/dsp_type1.cpp:133-186 | with the power on the digits are `DigitCodes`, bytes 7 and 9 are the status bytes, and bytes 0, 2, 4, 6, 8 and 10 are kept |
| DspType1.StatusBytesSkipTimerLed2 | components/bestway_spa/dsp_type1.cpp:157-176 | neither status byte depends on the second timer LED |
| DspType1.TimerLed2Hidden | components/bestway_spa/dsp_type1.cpp:157-176 | the second timer LED never reaches the display, because the C LED shares its bit and is written after it |
| DspType1.HandledPayloadPowerOff | components/bestway_spa/dsp_type1.cpp:187-189 | with the power off bytes 1 to 10 are zero, the digits just written included, and the command byte is kept |
| DspType1.DspType1.constructor | components/bestway_spa/dsp_type1.h:77-91 | the payload is the initialiser with the P05504 mode command in byte 0, the button buffer is zero, the states are the defaults, the cached button NOBTN, the text empty and the times zero |
| DspType1.DspType1.SetText | components/bestway_spa/dsp_type1.h:56 | stores the text |
| DspType1.DspType1.ClearText | components/bestway_spa/dsp_type1.h:57 | the text is empty, so the next digits come from the state characters |
| DspType1.DspType1.SetAudioFrequency | components/bestway_spa/dsp_type1.h:60 | stores the frequency |
| DspType1.DspType1.ClearPayload | components/bestway_spa/dsp_type1.cpp:81-85 | every byte but the command byte becomes zero |
| DspType1.DspType1.WriteDigits | components/bestway_spa/dsp_type1.cpp:135-143 | bytes 1, 3 and 5 become `DigitCodes` and nothing else changes |
| DspType1.DspType1.WriteLeds | components/bestway_spa/dsp_type1.cpp:145-186 | the payload becomes `WithLeds` of the old payload |
| DspType1.DspType1.UploadPayload | components/bestway_spa/dsp_type1.cpp:203-242 | under 50 ms after the last upload nothing is sent; otherwise the time is recorded and the mode, write, payload and dimming frames are sent |
| DspType1.DspType1.HandleStates | components/bestway_spa/dsp_type1.cpp:133-201 | the payload becomes `HandledPayload` and is uploaded with the state's brightness, unless the last upload is under 50 ms old |
| DspType1.DspType1.StoreRaw | components/bestway_spa/dsp_type1.cpp:124-125 | the button buffer holds the word's high byte, then its low byte |
| DspType1.DspType1.GetPressedButton | components/bestway_spa/dsp_type1.cpp:105-131 | under 90 ms after the last poll the cached button is returned and nothing changes; otherwise the poll time is now, the word received (bits 8-15 first) is stored in halves, and the button it reads as is cached and returned |
| VaDspType1.LedPlacesDistinct | components/bestway_spa/va/DSP_TYPE1.h:89-112 | the twelve LEDs sit on distinct bits: bits 1 to 7 of byte 7 and bits 1 to 5 of byte 9 |
| VaDspType1.ButtonCodesAre | components/bestway_spa/va/DSP_TYPE1.cpp:32-44 | the PRE2021 codes, button by button: 0xFFFF for NOBTN, 0x0000 for LOCK and HYDROJETS, single bits for the others |
| VaDspType1.ButtonCodeToIndexNone | components/bestway_spa/va/DSP_TYPE1.cpp:46-53 | a word reads as NOBTN exactly when it is 0xFFFF (nothing pressed) or no button's code |
| VaDspType1.ButtonCodeToIndexLock | components/bestway_spa/va/DSP_TYPE1.cpp:46-53 | 0x0000 reads as LOCK, so HYDROJETS, which shares that code, is never read |
| VaDspType1.ButtonCodeToIndexRoundTrip | components/bestway_spa/va/DSP_TYPE1.cpp:32-53 | every button but HYDROJETS reads back from its own code |
| VaDspType1.CharsAt | components/bestway_spa/va/DSP_TYPE1.cpp:25-29 | `CHARS` holds the ten digits, space, dash and the 26 letters, 38 characters in that order |
| VaDspType1.ScanFirst | components/bestway_spa/va/DSP_TYPE1.cpp:96-100 | the scan from `i` stops at the first position whose character is `c`, and at 38 only when no later position matches |
| VaDspType1.CharPos | components/bestway_spa/va/DSP_TYPE1.cpp:25-29 | the position is at most 38 |
| VaDspType1.CharPosOfCharAt | components/bestway_spa/va/DSP_TYPE1.cpp:25-29 | `CharPos` finds every character of `CHARS` at its own position, and a character it finds is the one there |
| VaDspType1.ScanIsCharPos | components/bestway_spa/va/DSP_TYPE1.cpp:96-100 | the scan stops at the character's position, and at the end for a character not in `CHARS` |
| VaDspType1.CharTo7SegCodes | components/bestway_spa/va/DSP_TYPE1.cpp:95-102 | each character of `CHARS` is encoded with its own code and any other as 0x00; space is 0x01 and dash 0x81 |
| VaDspType1.CharTo7SegCode | components/bestway_spa/va/DSP_TYPE1.cpp:95-102 | the scanning loop returns `CharTo7Seg` of the character |
| VaDspType1.DigitCodes | components/bestway_spa/va/DSP_TYPE1.cpp:164-172 | handleStates writes three digit bytes |
| VaDspType1.DigitSources | components/bestway_spa/va/DSP_TYPE1.cpp:164-172 | a text of three or more characters hides the state characters; without a text the digits depend on the state characters alone; a one-character text shows 0x01 in the other two digits |
| VaDspType1.Byte7LedsByte | components/bestway_spa/va/DSP_TYPE1.cpp:176-195 | the lock, timer button, timer 1, timer 2, red heater, green heater and bubbles writes replace byte 7 only |
| VaDspType1.Byte9LedsByte | components/bestway_spa/va/DSP_TYPE1.cpp:198-211 | the pump, C (unit 0), F (unit 1), power and jets writes replace byte 9 only |
| VaDspType1.Byte7Bits | components/bestway_spa/va/DSP_TYPE1.cpp:176-195 | with 0/1 flags the seven byte-7 writes give `StatusByte7` |
| VaDspType1.Byte7FlagsAsBits | components/bestway_spa/va/DSP_TYPE1.cpp:176-195 | with 0/1 flags each clear-then-or write to byte 7 sets the bit to its flag |
| VaDspType1.SetBitChain7 | components/bestway_spa/va/DSP_TYPE1.h:89-102 | setting the seven byte-7 bits in source order gives `StatusByte7` |
| VaDspType1.Byte9Bits | components/bestway_spa/va/DSP_TYPE1.cpp:198-211 | with 0/1 flags the five byte-9 writes give `StatusByte9` |
| VaDspType1.SetBitChain9 | components/bestway_spa/va/DSP_TYPE1.h:103-112 | setting the five byte-9 bits in source order gives `StatusByte9` |
| VaDspType1.HandledPayloadPowerOn | components/bestway_spa/va/DSP_TYPE1.cpp:162-211 | with the power on and 0/1 flags the digits are `DigitCodes`, bytes 7 and 9 are the status bytes, and bytes 0, 2, 4, 6, 8 and 10 are kept |
| VaDspType1.HandledPayloadPowerOff | components/bestway_spa/va/DSP_TYPE1.cpp:212-214 | with the power off bytes 1 to 10 are zero, the digits just written included, and the command byte is kept |
| VaDspType1.DimByteFromConstants | components/bestway_spa/va/DSP_TYPE1.cpp:233-237 | brightness 0 sends the dimming base alone; brightness 1 to 8 sends base and enable bit with `b - 1` in the low three bits |
| VaDspType1.VaDspType1.constructor | components/bestway_spa/va/DSP_TYPE1.cpp:55-68 | the payload is 0xC0 followed by alternating 0x01 and 0x00, the states the defaults, the text empty, the counters and times zero, the cached button NOBTN |
| VaDspType1.VaDspType1.ClearPayload | components/bestway_spa/va/DSP_TYPE1.cpp:131-135 | every byte but the command byte becomes zero |
| VaDspType1.VaDspType1.WriteDigits | components/bestway_spa/va/DSP_TYPE1.cpp:164-172 | bytes 1, 3 and 5 become `DigitCodes` and nothing else changes |
| VaDspType1.VaDspType1.WriteLeds | components/bestway_spa/va/DSP_TYPE1.cpp:174-211 | the payload becomes `WithLeds` of the old payload |
| VaDspType1.VaDspType1.UploadPayload | components/bestway_spa/va/DSP_TYPE1.cpp:228-265 | under 90 ms after the last upload nothing is sent; otherwise the time is recorded and the mode, write, payload and dimming frames are sent |
| VaDspType1.VaDspType1.HandleStates | components/bestway_spa/va/DSP_TYPE1.cpp:162-226 | the payload becomes `HandledPayload` and is uploaded with the state's brightness, unless the last upload is under 90 ms old |
| VaDspType1.VaDspType1.StoreRaw | components/bestway_spa/va/DSP_TYPE1.cpp:156-157 | the button buffer holds the word's high byte, then its low byte |
| VaDspType1.VaDspType1.ReadButton | components/bestway_spa/va/DSP_TYPE1.cpp:148-159 | the word received (bits 8-15 first) counts as a good packet unless it is 0xFFFF, is stored in halves, and the button it reads as is cached and returned |
| VaDspType1.VaDspType1.GetPressedButton | components/bestway_spa/va/DSP_TYPE1.cpp:137-160 | under 90 ms after the last poll the cached button is returned and nothing changes; otherwise the poll time is now and the button is read as `ReadButton` states |
| DspType2.LedPlacesDistinct | components/bestway_spa/DSP_TYPE2.h:76-99 | the twelve LEDs sit on distinct bits outside the digit bytes: bits 1 to 7 of byte 3 and bits 0 to 4 of byte 4 |
| DspType2.CodeByte | components/bestway_spa/DSP_TYPE2.cpp:19-22 | each display code byte equals the TYPE2 controller's code at the same position |
| DspType2.CharTo7SegCode | components/bestway_spa/DSP_TYPE2.cpp:66-73 | the scanning loop returns `CharTo7Seg` of the character |
| DspType2.CharTo7SegRoundTrip | components/bestway_spa/DSP_TYPE2.cpp:66-73 | with the controller's character set, a character first found at `k` whose code no earlier entry shares is read back by the controller as itself, and a character not in the set is read back as the blank at position 10 |
| DspType2.DigitCodes | components/bestway_spa/DSP_TYPE2.cpp:138-146 | handleStates writes three digit bytes |
| DspType2.DigitSources | components/bestway_spa/DSP_TYPE2.cpp:138-146 | a text of three or more characters hides the state characters; without a text the digits depend on the state characters alone; a one-character text shows 1 in the other two digits |
| DspType2.Byte3LedsByte | components/bestway_spa/DSP_TYPE2.cpp:150-171 | the lock, timer button, timer, heater and bubbles writes replace byte 3 only |
| DspType2.Byte4LedsByte | components/bestway_spa/DSP_TYPE2.cpp:174-189 | the pump, C, F, power and jets writes replace byte 4 only |
| DspType2.Byte3Bits | components/bestway_spa/DSP_TYPE2.cpp:150-171 | with 0/1 flags the seven byte-3 writes give `StatusByte3` |
| DspType2.Byte3FlagsAsBits | components/bestway_spa/DSP_TYPE2.cpp:150-171 | with 0/1 flags each clear-then-or write to byte 3 sets the bit to its flag |
| DspType2.SetBitChain3 | components/bestway_spa/DSP_TYPE2.h:76-89 | setting the seven byte-3 bits in source order gives `StatusByte3` |
| DspType2.Byte4Bits | components/bestway_spa/DSP_TYPE2.cpp:174-189 | with 0/1 flags and a 0/1 unit the five byte-4 writes give `StatusByte4` (C lit for unit 1, F for unit 0) |
| DspType2.SetBitChain4 | components/bestway_spa/DSP_TYPE2.h:90-99 | setting the five byte-4 bits in source order gives `StatusByte4` |
| DspType2.HandledPayloadPowerOn | components/bestway_spa/DSP_TYPE2.cpp:136-189 | with the power on, 0/1 flags and a 0/1 unit the first three bytes are `DigitCodes` and bytes 3 and 4 are the status bytes |
| DspType2.HandledPayloadPowerOff | components/bestway_spa/DSP_TYPE2.cpp:190-192 | with the power off all five bytes are zero, the digits just written included |
| DspType2.DimByteAsWrittenKeepsDisplayOn | components/bestway_spa/DSP_TYPE2.cpp:209-245 | as written, brightness 0 and brightness 1 both send 0x88 with the enable bit set, where the intended byte for 0 has it clear; for every nonzero brightness the two agree |
| DspType2.UploadFramesContent | components/bestway_spa/DSP_TYPE2.cpp:209-245 | the frames are CMD1, then CMD2 followed by the payload unchanged, then the dimming byte the program sends: base and enable bit always set, 0x88 for brightness 0 as for brightness 1, `b - 1` in the low three bits for levels 1 to 8, and the intended byte for every nonzero brightness |
| DspType2.ButtonCodesAre | components/bestway_spa/DSP_TYPE2.cpp:25-37 | the 54149E codes, button by button, equal to the controller's table: 0 for NOBTN, then bits 7 down to 0, then bits 8 and 9 for POWER and HYDROJETS |
| DspType2.EightBitButtons | components/bestway_spa/DSP_TYPE2.cpp:107-122 | an eight-bit read never reads as POWER or HYDROJETS, whose codes lie above the low byte |
| DspType2.ButtonCodeToIndexRoundTrip | components/bestway_spa/DSP_TYPE2.cpp:256-263 | every button below POWER has a code under 256 and reads back from it |
| DspType2.ButtonRead | components/bestway_spa/DSP_TYPE2.cpp:107-122 | the button an eight-bit read stands for is never POWER or HYDROJETS |
| DspType2.ReceiveCode | components/bestway_spa/DSP_TYPE2.cpp:107-113 | bit `i` of the code is the `i`-th TD level clocked in |
| DspType2.DebounceTwoReads | components/bestway_spa/DSP_TYPE2.cpp:126-131 | the read always becomes the previous read; the reported button changes only when the read repeats the previous one; two equal reads in a row make it the reported button |
| DspType2.DspType2.constructor | components/bestway_spa/DSP_TYPE2.cpp:39-43 | the payload is zero, the states the defaults, the text empty, every button enabled, the counters and times zero, both remembered buttons NOBTN |
| DspType2.DspType2.ClearPayload | components/bestway_spa/DSP_TYPE2.cpp:86-90 | all five bytes become zero |
| DspType2.DspType2.WriteDigits | components/bestway_spa/DSP_TYPE2.cpp:138-146 | bytes 0, 1 and 2 become `DigitCodes` and nothing else changes |
| DspType2.DspType2.WriteLeds | components/bestway_spa/DSP_TYPE2.cpp:148-189 | the payload becomes `WithLeds` of the old payload |
| DspType2.DspType2.UploadPayload | components/bestway_spa/DSP_TYPE2.cpp:204-253 | under 100 ms after the last upload nothing is sent; otherwise the time is recorded and the three frames are sent, the dimming byte as the program computes it (0x88 at brightness 0) |
| DspType2.DspType2.HandleStates | components/bestway_spa/DSP_TYPE2.cpp:136-202 | the payload becomes `HandledPayload` and is uploaded with the state's brightness, unless the last upload is under 100 ms old |
| DspType2.DspType2.StoreRaw | components/bestway_spa/DSP_TYPE2.cpp:123-124 | the button buffer holds 0, then the eight-bit code |
| DspType2.DspType2.CountAndStore | components/bestway_spa/DSP_TYPE2.cpp:120-124 | an eight-bit code is never 0xFFFF, so the read is always counted as good, and it is stored |
| DspType2.DspType2.ReadButton | components/bestway_spa/DSP_TYPE2.cpp:107-124 | the read is counted, stored as [0, code], and looked up as `ButtonRead` |
| DspType2.DspType2.DebounceButton | components/bestway_spa/DSP_TYPE2.cpp:126-133 | the remembered pair follows `Debounce` and the reported button is returned |
| DspType2.DspType2.ReadAndDebounce | components/bestway_spa/DSP_TYPE2.cpp:95-133 | the read is counted and stored, and the remembered pair follows `Debounce` of `ButtonRead` |
| DspType2.DspType2.GetPressedButton | components/bestway_spa/DSP_TYPE2.cpp:92-134 | under 20 ms after the last read the reported button is returned and nothing changes; otherwise the read time is now and the button is read and debounced; the result is never POWER or HYDROJETS |
| SpaProtocol.CalculateChecksum | includes/spa_protocol.h:77-83 | the checksum is the XOR of every byte but the last of the `len` bytes |
| SpaProtocol.ValidatePacket | includes/spa_protocol.h:86-90 | the verdict is false below two bytes, else whether the last byte is the XOR of the others |
| SpaProtocol.ValidIffXorZero | includes/spa_protocol.h:86-90 | a packet of two or more bytes is valid exactly when the XOR of all its bytes, checksum included, is zero |
| SpaProtocol.SealedPacketValid | includes/spa_protocol.h:77-90 | any nonempty byte sequence followed by its XOR is a valid packet |
| SpaProtocol.SingleByteErrorDetected | includes/spa_protocol.h:77-90 | changing any one byte of a valid packet, the checksum included, makes it invalid |
| SpaProtocol.FindSegmentFirst | includes/spa_protocol.h:124-128 | the scan stops at the first matching pattern, and at 16 only when none from `i` on matches |
| SpaProtocol.FindSegmentAt | includes/spa_protocol.h:105-122 | the sixteen patterns are distinct, so each is found at its own index |
| SpaProtocol.Decode7Segment | includes/spa_protocol.h:103-130 | the scanning loop returns `DecodeSegment`: the digit of the matching pattern, '0'-'9' then 'A'-'F', or ' ' |
| SpaProtocol.SegmentRoundTrip | includes/spa_protocol.h:103-147 | decoding the encoding of any character gives the character back for '0'-'9' and 'A'-'F', upper case for 'a'-'f', and ' ' for anything else |
| SpaProtocol.EncodeBlankIffNotHex | includes/spa_protocol.h:133-147 | a character is encoded as blank (0x00) exactly when it is not a hexadecimal digit |
| SpaProtocol.DisplayRoundTrip | includes/spa_protocol.h:150-154 | the three display bytes are the encodings of the text's first three characters, NUL included, and decode back to those characters normalised |
| SpaProtocol.CreateDisplayMessage | includes/spa_protocol.h:150-154 | the first three bytes of `display` become `DisplayBytes` of the text and the bytes after them are untouched |
| SpaProtocol.DspPacketBytes | includes/spa_protocol.h:50-60 | a DSP packet occupies eleven bytes |
| SpaProtocol.DspPacketLayout | includes/spa_protocol.h:50-60 | reading a packet from bytes and writing it back are inverse both ways |
| SpaProtocol.ParseDspPacket | includes/spa_protocol.h:157-162 | a first byte other than 0xAA is refused and leaves the packet as it was; otherwise the eleven bytes are copied into the packet whatever their checksum, and the verdict is the checksum's |
| SpaProtocol.SealedDspPacketParses | includes/spa_protocol.h:157-162 | a packet starting 0xAA and sealed with the XOR of its first ten bytes is accepted and parsed to itself; changing any one of its bytes gets it refused |
| SpaProtocol.CioPacketBytes | includes/spa_protocol.h:63-71 | a CIO packet occupies eleven bytes |
| SpaProtocol.BuildCioPacket | includes/spa_protocol.h:165-178 | the start byte is 0x55, the two target bytes join to the 16-bit target, command and button are copied, the reserved bytes are zero and the packet validates |
| SpaProtocol.JetsNeedCio | includes/spa_protocol.h:313-320 | only the 2021 6-wire model has jets, and only the two 6-wire models have a CIO, so jets imply a CIO |
| SpaProtocol.ButtonCodeCollisions | includes/spa_protocol.h:322-338 | on the 6-wire models every button has its own code; on the 4-wire models HEATER, FILTER and BUBBLES take the codes of LOCK, UNIT and TEMP_DOWN; every other button keeps its enumerator value |
| SpaProtocol.ModelNamesDistinct | includes/spa_protocol.h:340-348 | every model has a name of its own |
| ModelSpecific.Pre2021Are | components/bestway_spa/model_specific.h:32-44 | the PRE2021 codes, button by button, with POWER and JETS both 0x0000 |
| ModelSpecific.P05504Are | components/bestway_spa/model_specific.h:51-63 | the P05504 codes, button by button, with POWER and JETS both 0x0000 |
| ModelSpecific.Codes54149EAre | components/bestway_spa/model_specific.h:70-82 | the 54149E codes, button by button: 0, bits 7 down to 0, then bits 8 and 9 |
| ModelSpecific.TablesMatchDrivers | components/bestway_spa/model_specific.h:32-82 | the PRE2021 table is the TYPE1 controller's default table and the 54149E table the one the TYPE2 controller sends |
| ModelSpecific.Codes54149ERoundTrip | components/bestway_spa/model_specific.h:70-82 | every button reads back from its 54149E code |
| ModelSpecific.DistinctBelowJets | components/bestway_spa/model_specific.h:32-63 | in PRE2021 and P05504 the codes of the buttons before JETS are pairwise distinct |
| ModelSpecific.PowerShadowsJets | components/bestway_spa/model_specific.h:32-63 | in PRE2021 and P05504 POWER and JETS share 0x0000: every button before JETS reads back from its code, and JETS reads back as POWER |
| ModelSpecific.FourWireCodesEmpty | components/bestway_spa/model_specific.h:90-182 | every 4-wire table entry is 0, so every code reads as NOBTN |
| ModelSpecific.ButtonCodesForModelCases | components/bestway_spa/model_specific.h:280-292 | model 1 gets the 54149E table, model 7 the P05504 table, every other number the PRE2021 table, and no number a 4-wire table |
| ModelSpecific.ConfigsWellFormed | components/bestway_spa/model_specific.h:193-312 | every configuration the lookup returns has pairwise disjoint masks and a jets mask that is zero exactly without jets; the models with jets are exactly 3, 4 and 6 |
| ModelSpecific.MasksDifferFromDriver | components/bestway_spa/model_specific.h:207-215 | for 54123 the pump and bubbles masks and the air flag here differ from the 4-wire driver's, while the heater masks agree |
| BestwaySpa.ControlButtonsMeaning | components/bestway_spa/bestway_spa.cpp:112-123 | a climate call queues at most one button: UP exactly when the requested target is above the current one, DOWN exactly when it is below |
| BestwaySpa.InjectedInOrder | components/bestway_spa/bestway_spa.cpp:91-99 | the queue is first in, first out: `n + k` loop passes over `n` queued buttons hand the driver their codes in queue order, then the NOBTN code on every further pass |
| BestwaySpa.BestwaySpa.constructor | components/bestway_spa/CIO_TYPE1.h:37 | the component starts with its bus type and an empty queue, and the driver's outgoing code starts as the NOBTN code 0x1B1B |
| BestwaySpa.BestwaySpa.OnButtonPress | components/bestway_spa/bestway_spa.cpp:125-127 | the button is appended to the queue |
| BestwaySpa.BestwaySpa.Control | components/bestway_spa/bestway_spa.cpp:112-123 | the queue grows by `ControlButtons` of the request |
| BestwaySpa.BestwaySpa.InjectButton | components/bestway_spa/bestway_spa.cpp:56-99 | on the TYPE1 bus the oldest queued button's code is handed to the driver and dequeued, or the NOBTN code when the queue is empty; on other buses nothing changes |
| BestwaySpa.BestwaySpa.Loop | components/bestway_spa/bestway_spa.cpp:55-101 | on the TYPE1 bus the current and target temperature follow the controller's on every pass and one button is injected as `InjectStep` states; on other buses nothing changes |

## Left out

- Pin and interrupt wiring is not modelled: the setup, stop and pause bodies, `attachInterrupt`, `SoftwareSerial` and `pinMode`. Handlers take the sampled levels as parameters.
- The `#ifdef ESP8266` guards around the TYPE2 handlers are not modelled; the handlers are modelled as compiled for that target.
- Real concurrency between interrupt handlers and the main loop is not modelled: `volatile` fields, and `noInterrupts` in getPacket. Each handler is one atomic step.
- Timing-accurate bit-banging is not modelled: `_sendBitsToDSP`, `delayMicroseconds`, the chip-select and LD framing, and `BitBangSPI` in `spa_protocol.h`. Uploads return the byte frames they would send.
- `temp_to_protocol` and `protocol_to_temp` are not modelled, because they are float arithmetic.
- SpaProtocol.BuildCioPacket: takes the target already converted to the 16-bit protocol word, because the float conversion is left out.
- Host-side effects are not modelled: the audio tone and noTone calls, sensor `publish_state`, climate traits, logging, and the Python configuration files.
- BestwaySpa.BestwaySpa.Loop: takes the TYPE1 controller's temperature and target as parameters rather than calling the driver's updateStates, and leaves out the display handling and sensor publishing in the same pass.
- The `SpaStatus` and `SpaError` enums of `spa_protocol.h` are not modelled, because no modelled code uses them.
- Packet counters declared `uint32_t` and bit and byte counters declared `int` are unbounded naturals in the model. Their wrap-around after 2^32 packets or 2^31 edges is not modelled.
- The clock and chip-select debug counters are not modelled.
- `writeMsgCount` of both 4-wire drivers is an unbounded integer, so its wrap-around is not modelled. The 4-wire timers do wrap: each update goes through the `int32_t` conversion `I32`, and the CIO driver keeps them in the `i32` type.
- `setButtonCode` of the TYPE1 controller is declared in `CIO_TYPE1.h` but its body is not in the source. The component's `outgoingButtonCode` field stands for the code it hands over.
- `DSP_TYPE2.cpp` uses a `CHARS` table it does not define. `CIO_TYPE2.cpp` uses layout indices, `CMD2` and `CHARS` it does not define. These are parameters of the model (`CharSet`, `PayloadLayout`).
- `HEATTOGGLE`, `BUBBLETOGGLE`, `PUMPTOGGLE` and `JETSTOGGLE` are not defined in the 4-wire source. They are a parameter of distinct columns below 4. The antifreeze, antiboil and deferred-pump lemmas are proved for the assignment bubbles 0, jets 1, pump 2, heat 3, which the tables imply.
- The display-side `JUMPTABLE` and `ALLOWEDSTATES` of `DSP_4W` are not modelled, because `DSP_4W.cpp` never reads them.
- `dsp_toggles` of `DSP_TYPE2` is not modelled, because it is never written.
- DspType1.DspType1.WriteDigits: for a NUL state character the class writes the bounded `CharTo7Seg` code 0x00, where `dsp_type1.cpp` reads `CHARCODES[38]` past its table (see Findings); `DspType1.DspType1.HandleStates` inherits this.

## Findings

| source | as written | input that shows it | evidently intended | confidence | as-written member | corrected member |
|---|---|---|---|---|---|---|
| components/bestway_spa/dsp_type1.cpp:87-94 | the scan runs over `sizeof(CHARS)` = 39 positions of a 38-character literal, so NUL matches the terminator and `CHARCODES[38]` is read past the table | `char_to_7seg_code('\0')`, as handle_states calls it when a state character is NUL | scan only the 38 table entries, so NUL is blank (0x00) like every other unknown character | high, not executed | DspType1.NulReadsPastTable | DspType1.AsWrittenAgreesOffNul |
| components/bestway_spa/DSP_TYPE2.cpp:245 | `(CMD3 & 0xF8)` keeps the enable bit 0x08 of CMD3 = 0x8F, so brightness 0 sends 0x88 and the display stays on at the level of brightness 1 | `uploadPayload(0)` | brightness 0 sends 0x80 and switches the display off, as the TYPE1 displays do | medium, not executed | DspType2.DimByteAsWrittenKeepsDisplayOn | DisplayPayload.DimByteLevels |
