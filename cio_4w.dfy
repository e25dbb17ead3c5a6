/** The 4-wire controller driver (`CIO_4W`): it decodes the 7-byte status
    frames of the pump unit, and in god mode runs the per-model state machine,
    the thermostat and the frost and boil guards itself and builds the command
    frames sent to the pump unit. */
module Cio4W {
  import opened Bytes
  import opened Wrappers
  import opened SpaStates
  import opened Cio4WModel

  // ---------------------------------------------------------------------
  // The state machine, over the tables of Cio4WModel.

  /** `getJumptable(idx, col)`. */
  function Jump(m: Model4W, idx: nat, col: nat): (r: nat)
    requires idx < m.Rows() && col < 4
    ensures r < m.Rows()
  {
    m.JumpTable()[idx][col]
  }

  /** The pump output of state `idx`. */
  function Pump(m: Model4W, cols: ValidColumns, idx: nat): u8
    requires idx < m.Rows()
  {
    m.AllowedStates()[idx][cols.pump]
  }

  /** The heater is on in state `idx`. */
  predicate HeatOn(m: Model4W, cols: ValidColumns, idx: nat)
    requires idx < m.Rows()
  {
    m.AllowedStates()[idx][cols.heat] > 0
  }

  /** `a` and `b` agree on every field except the four outputs of the state
      table and the target temperature. */
  predicate SameSettings(a: States, b: States)
  {
    a.locked == b.locked && a.power == b.power && a.unit == b.unit &&
    a.heatgrn == b.heatgrn && a.heatred == b.heatred && a.temperature == b.temperature &&
    a.char1 == b.char1 && a.char2 == b.char2 && a.char3 == b.char3 && a.error == b.error &&
    a.timerled1 == b.timerled1 && a.timerled2 == b.timerled2 &&
    a.timerbuttonled == b.timerbuttonled && a.brightness == b.brightness &&
    a.godmode == b.godmode && a.noOfHeaterElementsOn == b.noOfHeaterElementsOn
  }

  /** `a` and `b` differ at most in the four outputs of the state table. */
  predicate OnlyOutputsDiffer(a: States, b: States)
  {
    SameSettings(a, b) && a.target == b.target
  }

  /** The four outputs of `s` are those of state `idx`. */
  predicate InRow(s: States, m: Model4W, cols: ValidColumns, idx: nat)
    requires idx < m.Rows()
  {
    var row := m.AllowedStates()[idx];
    s.bubbles == row[cols.bubbles] && s.jets == row[cols.jets] && s.pump == row[cols.pump] &&
    s.heat == (if row[cols.heat] > 0 then 1 else 0)
  }

  /** The first step of both guards: the pump toggled on if it is off. */
  function PumpOnIndex(m: Model4W, cols: ValidColumns, idx: nat): (r: nat)
    requires idx < m.Rows()
    ensures r < m.Rows()
  {
    if Pump(m, cols, idx) == 0 then Jump(m, idx, cols.pump) else idx
  }

  /** The state reached by `antifreeze()` from `idx` when it is cold: pump
      toggled if it is off, then heat toggled if it is off. */
  function AntifreezeIndex(m: Model4W, cols: ValidColumns, idx: nat): (r: nat)
    requires idx < m.Rows()
    ensures r < m.Rows()
  {
    var i1 := PumpOnIndex(m, cols, idx);
    if !HeatOn(m, cols, i1) then Jump(m, i1, cols.heat) else i1
  }

  /** The state reached by `antiboil()` from `idx` when it is hot: pump
      toggled if it is off, then heat toggled if it is on. */
  function AntiboilIndex(m: Model4W, cols: ValidColumns, idx: nat): (r: nat)
    requires idx < m.Rows()
    ensures r < m.Rows()
  {
    var i1 := PumpOnIndex(m, cols, idx);
    if HeatOn(m, cols, i1) then Jump(m, i1, cols.heat) else i1
  }

  /** The state after toggle `col` if `c` holds. */
  function ToggleIf(m: Model4W, idx: nat, col: nat, c: bool): (r: nat)
    requires idx < m.Rows() && col < 4
    ensures r < m.Rows()
  {
    if c then Jump(m, idx, col) else idx
  }

  /** A pump-off request that arrives in state `idx` while heating: the
      heater is switched off now and the pump later. */
  predicate DefersPumpOff(m: Model4W, cols: ValidColumns, t: Toggles, idx: nat)
    requires idx < m.Rows()
  {
    t.pumpChange && Pump(m, cols, idx) != 0 && HeatOn(m, cols, idx)
  }

  /** The state after the pump request in state `idx`. */
  function PumpRequestIndex(m: Model4W, cols: ValidColumns, t: Toggles, idx: nat): (r: nat)
    requires idx < m.Rows()
    ensures r < m.Rows()
  {
    if !t.pumpChange then idx
    else if DefersPumpOff(m, cols, t, idx) then Jump(m, idx, cols.heat)
    else Jump(m, idx, cols.pump)
  }

  /** The state after the heat and bubbles requests of god mode. */
  function BeforePumpRequest(m: Model4W, cols: ValidColumns, t: Toggles, idx: nat): (r: nat)
    requires idx < m.Rows()
    ensures r < m.Rows()
  {
    ToggleIf(m, ToggleIf(m, idx, cols.heat, t.heatChange), cols.bubbles, t.bubblesChange && m.HasAir())
  }

  /** The state after all god-mode requests, served in the order heat,
      bubbles (air models), pump, jets (jet models). */
  function RequestsIndex(m: Model4W, cols: ValidColumns, t: Toggles, idx: nat): (r: nat)
    requires idx < m.Rows()
    ensures r < m.Rows()
  {
    var i3 := PumpRequestIndex(m, cols, t, BeforePumpRequest(m, cols, t, idx));
    ToggleIf(m, i3, cols.jets, t.jetsChange && m.HasJets())
  }

  /** The state reached from `idx` by the toggle requests `cs`, in order. */
  function Walk(m: Model4W, idx: nat, cs: seq<nat>): (r: nat)
    requires idx < m.Rows() && forall i :: 0 <= i < |cs| ==> cs[i] < 4
    ensures r < m.Rows()
    decreases |cs|
  {
    if |cs| == 0 then idx else Walk(m, Jump(m, idx, cs[0]), cs[1..])
  }

  /** One more toggle request after a walk is one more jump: the walk is
      what a sequence of togglestates() calls computes. */
  lemma {:induction false} WalkSnoc(m: Model4W, idx: nat, cs: seq<nat>, c: nat)
    requires idx < m.Rows() && c < 4 && forall i :: 0 <= i < |cs| ==> cs[i] < 4
    ensures Walk(m, idx, cs + [c]) == Jump(m, Walk(m, idx, cs), c)
    decreases |cs|
  {
    if |cs| == 0 {
      assert cs + [c] == [c];
    } else {
      assert (cs + [c])[1..] == cs[1..] + [c];
      WalkSnoc(m, Jump(m, idx, cs[0]), cs[1..], c);
    }
  }

  /** In the tables' own column order, every state that heats also runs the
      pump. */
  lemma HeatingRowsPump(m: Model4W, idx: nat)
    requires idx < m.Rows()
    ensures HeatOn(m, TableColumns, idx) ==> Pump(m, TableColumns, idx) == 1
  {
  }

  lemma PumpOnStep(m: Model4W, idx: nat)
    requires idx < m.Rows()
    ensures Pump(m, TableColumns, PumpOnIndex(m, TableColumns, idx)) == 1
  {
  }

  lemma HeatOnStep(m: Model4W, idx: nat)
    requires idx < m.Rows() && Pump(m, TableColumns, idx) == 1 && !HeatOn(m, TableColumns, idx)
    ensures var r := Jump(m, idx, TableColumns.heat);
      Pump(m, TableColumns, r) == 1 && HeatOn(m, TableColumns, r)
  {
  }

  lemma HeatOffStep(m: Model4W, idx: nat)
    requires idx < m.Rows() && Pump(m, TableColumns, idx) == 1 && HeatOn(m, TableColumns, idx)
    ensures var r := Jump(m, idx, TableColumns.heat);
      Pump(m, TableColumns, r) == 1 && !HeatOn(m, TableColumns, r)
  {
  }

  lemma AntifreezeHeats(m: Model4W, idx: nat)
    requires idx < m.Rows()
    ensures var r := AntifreezeIndex(m, TableColumns, idx);
      Pump(m, TableColumns, r) == 1 && HeatOn(m, TableColumns, r)
  {
    var i1 := PumpOnIndex(m, TableColumns, idx);
    PumpOnStep(m, idx);
    if !HeatOn(m, TableColumns, i1) {
      HeatOnStep(m, i1);
    }
  }

  lemma AntiboilCools(m: Model4W, idx: nat)
    requires idx < m.Rows()
    ensures var r := AntiboilIndex(m, TableColumns, idx);
      Pump(m, TableColumns, r) == 1 && !HeatOn(m, TableColumns, r)
  {
    var i1 := PumpOnIndex(m, TableColumns, idx);
    PumpOnStep(m, idx);
    if HeatOn(m, TableColumns, i1) {
      HeatOffStep(m, i1);
    }
  }

  /** In the tables' own column order, a deferred pump-off first reaches a
      state where the pump runs without heat, and the later pump toggle then
      stops the pump. */
  lemma DeferredPumpOff(m: Model4W, t: Toggles, idx: nat)
    requires idx < m.Rows() && DefersPumpOff(m, TableColumns, t, idx)
    ensures var i1 := PumpRequestIndex(m, TableColumns, t, idx);
      Pump(m, TableColumns, i1) == 1 && !HeatOn(m, TableColumns, i1) &&
      Pump(m, TableColumns, Jump(m, i1, TableColumns.pump)) == 0
  {
  }

  /** The unit-change request: the unit flag is negated and the temperature
      converted into the new unit, truncated to `uint8_t`. */
  function UnitChanged(s: States): (r: States)
    ensures r.unit == (if s.unit == 0 then 1 else 0)
    ensures r.unit == 1 ==> r.temperature == U8(F2C(s.temperature))
    ensures r.unit == 0 ==> r.temperature == U8(C2F(s.temperature))
    ensures r == s.(unit := r.unit, temperature := r.temperature)
  {
    var unit := if s.unit == 0 then 1 else 0;
    s.(unit := unit,
       temperature := U8(if unit != 0 then F2C(s.temperature) else C2F(s.temperature)))
  }

  /** A countdown after `countdown -= elapsed` when it is positive: an
      `int32_t` minus a `uint32_t`, wrapped back into `int32_t`. */
  function RunDown(c: int, elapsed: u32): (r: int)
    ensures IsI32(r) || (c <= 0 && r == c)
    ensures c <= 0 ==> r == c
    ensures 0 < c < 0x8000_0000 && elapsed < c + 0x8000_0000 ==> r == c - elapsed
  {
    if c > 0 then I32(c - elapsed) else c
  }

  /** The states after the unit-change request of `t`, if any. */
  function UnitRequest(s: States, t: Toggles): (r: States)
    ensures !t.unitChange ==> r == s
    ensures t.unitChange ==> r == UnitChanged(s)
  {
    if t.unitChange then UnitChanged(s) else s
  }

  /** The target antifreeze() sets: 10 °C, converted with C2F when the unit
      flag is 0. */
  function AntifreezeTarget(unit: u8): (t: u8)
    ensures t == if unit != 0 then 10 else 50
  {
    var targetC := 10;
    if unit != 0 then targetC else assert C2F(targetC) == 50; U8(C2F(targetC))
  }

  /** The water temperature in °C as antifreeze and antiboil compute it. */
  function TempC(s: States): int
  {
    if s.unit != 0 then s.temperature else F2C(s.temperature)
  }

  // ---------------------------------------------------------------------
  // Frames.

  /** `flag * mask` stored in a byte. */
  function Scaled(flag: u8, mask: bv8): (r: bv8)
    ensures flag == 0 ==> r == 0
    ensures flag == 1 ==> r == mask
  {
    (flag as bv8) * mask
  }

  /** The masks of the active outputs, with the power mask added when any
      output is active. */
  function ActiveBits(m: Model4W, heatBitmask: bv8, s: States): bv8
  {
    var active := Scaled(s.heatred, heatBitmask) | Scaled(s.jets, m.JetsBitmask()) |
                  Scaled(s.bubbles, m.BubblesBitmask()) | Scaled(s.pump, m.PumpBitmask());
    if active != 0 then active | m.PowerBitmask() else 0
  }

  /** Byte 2 of a command frame. */
  function CommandByte(m: Model4W, heatBitmask: bv8, s: States): u8
  {
    FromBits(ActiveBits(m, heatBitmask, s))
  }

  /** The display characters of a temperature: its hundreds, tens and units
      digits as ASCII. */
  function TemperatureChars(t: u8): (r: (u8, u8, u8))
    ensures '0' as int <= r.0 <= '2' as int && '0' as int <= r.1 <= '9' as int &&
            '0' as int <= r.2 <= '9' as int
    ensures (r.0 - '0' as int) * 100 + (r.1 - '0' as int) * 10 + (r.2 - '0' as int) == t
  {
    (48 + t / 100, 48 + (t % 100) / 10, 48 + t % 10)
  }

  /** The display characters of an error: 'E', then tens and units of the
      error number as offsets from '0'. */
  function ErrorChars(e: u8): (r: (u8, u8, u8))
    ensures r.0 == 'E' as int
    ensures (r.1 - '0' as int) * 10 + (r.2 - '0' as int) == e
    ensures e < 100 ==> '0' as int <= r.1 <= '9' as int && '0' as int <= r.2 <= '9' as int
  {
    ('E' as int, 48 + e / 10, 48 + e % 10)
  }

  /** The states after decoding an accepted status frame `f`: temperature
      from byte 2 (converted to °F when the unit flag is 0), error from
      byte 3, and the display characters showing either the temperature or
      "E" and the error number; an error also leaves god mode. */
  function DecodeStatus(s: States, f: seq<u8>): (r: States)
    requires |f| == PAYLOADSIZE
    ensures s.unit != 0 ==> r.temperature == f[TEMPINDEX]
    ensures s.unit == 0 ==> r.temperature == U8(C2F(f[TEMPINDEX]))
    ensures r.error == f[ERRORINDEX]
    ensures r.error == 0 ==>
      (r.char1, r.char2, r.char3) == TemperatureChars(r.temperature) && r.godmode == s.godmode
    ensures r.error != 0 ==> (r.char1, r.char2, r.char3) == ErrorChars(r.error) && !r.godmode
    ensures r == s.(temperature := r.temperature, error := r.error, godmode := r.godmode,
                    char1 := r.char1, char2 := r.char2, char3 := r.char3)
  {
    var t := if s.unit == 0 then U8(C2F(f[TEMPINDEX])) else f[TEMPINDEX];
    var e := f[ERRORINDEX];
    if e != 0 then
      var c := ErrorChars(e);
      s.(temperature := t, error := e, godmode := false, char1 := c.0, char2 := c.1, char3 := c.2)
    else
      var c := TemperatureChars(t);
      s.(temperature := t, error := e, char1 := c.0, char2 := c.1, char3 := c.2)
  }

  // ---------------------------------------------------------------------
  // handleToggles() in god mode, step by step, over the values it updates.

  /** The part of the driver that handleToggles() updates in god mode: the
      state index, the states, the hysteresis of regulateTemp(), the two
      countdowns, the heater mask and the pending pump-off flag. */
  datatype Control = Control(
    idx: nat, states: States, hysteresis: u8, heater2Countdown: i32,
    heatBitmask: bv8, coolHeaterCountdown: i32, turnOffPumpFlag: bool)

  /** `s` with the four outputs of state `idx`, as togglestates() leaves it. */
  function WithRow(s: States, m: Model4W, cols: ValidColumns, idx: nat): States
    requires idx < m.Rows()
  {
    var row := m.AllowedStates()[idx];
    s.(bubbles := row[cols.bubbles], jets := row[cols.jets], pump := row[cols.pump],
       heat := if row[cols.heat] > 0 then 1 else 0)
  }

  /** The outputs of a row and no other change determine the states. */
  lemma RowDetermines(a: States, b: States, m: Model4W, cols: ValidColumns, idx: nat)
    requires idx < m.Rows()
    requires InRow(a, m, cols, idx) && OnlyOutputsDiffer(a, b)
    ensures a == WithRow(b, m, cols, idx)
  {
  }

  /** The start of handleToggles() after `elapsed` ms: the requested target
      copied, both countdowns run, and a pending pump-off served once the
      cooling countdown has run out. */
  function TickControl(m: Model4W, cols: ValidColumns, t: Toggles, c: Control, elapsed: u32): (r: Control)
    requires c.idx < m.Rows()
    ensures r.idx < m.Rows()
  {
    var cool := RunDown(c.coolHeaterCountdown, elapsed);
    var due := cool <= 0 && c.turnOffPumpFlag;
    var idx := ToggleIf(m, c.idx, cols.pump, due);
    c.(idx := idx, states := WithRow(c.states.(target := t.target), m, cols, idx),
       heater2Countdown := RunDown(c.heater2Countdown, elapsed),
       coolHeaterCountdown := cool, turnOffPumpFlag := c.turnOffPumpFlag && !due)
  }

  /** The requests of god mode: god mode on, the unit change, the heat,
      bubbles, pump and jets requests (a pump-off while heating arming the
      cooling countdown), and the heater mask reset to one element when only
      one is allowed. */
  function ServeControl(m: Model4W, cols: ValidColumns, t: Toggles, c: Control): (r: Control)
    requires c.idx < m.Rows()
    ensures r.idx < m.Rows()
  {
    var defers := DefersPumpOff(m, cols, t, BeforePumpRequest(m, cols, t, c.idx));
    var idx := RequestsIndex(m, cols, t, c.idx);
    c.(idx := idx, states := WithRow(UnitRequest(c.states.(godmode := true), t), m, cols, idx),
       coolHeaterCountdown := if defers then HEATERCOOLING_DELAY_MS else c.coolHeaterCountdown,
       turnOffPumpFlag := defers || c.turnOffPumpFlag,
       heatBitmask := if t.noOfHeaterElementsOn < 2 then m.HeatBitmask1() else c.heatBitmask)
  }

  /** regulateTemp(): with heat off the heater is inactive; otherwise it is
      active iff temperature + hysteresis <= target, a heater that starts
      arms the second-element delay, and the second element is added once
      that delay has run out and two elements are allowed. */
  function RegulateControl(m: Model4W, t: Toggles, c: Control): (r: Control)
  {
    var heat := c.states.heat != 0;
    var on := heat && c.states.temperature + c.hysteresis <= c.states.target;
    var starts := on && c.states.heatred == 0;
    var h2 := if starts then HEATER2_DELAY_MS else c.heater2Countdown;
    c.(states := c.states.(heatred := if on then 1 else 0),
       hysteresis := if !heat then c.hysteresis else if on then 0 else 1,
       heater2Countdown := h2,
       heatBitmask :=
         if heat && h2 <= 0 && t.noOfHeaterElementsOn == 2 then m.HeatBitmask1() | m.HeatBitmask2()
         else if starts then m.HeatBitmask1() else c.heatBitmask)
  }

  /** antifreeze(): below 10 °C the pump and heater switched on and the
      target set to 10 °C. */
  function AntifreezeControl(m: Model4W, cols: ValidColumns, c: Control): (r: Control)
    requires c.idx < m.Rows()
    ensures r.idx < m.Rows()
  {
    var cold := TempC(c.states) < 10;
    var idx := if cold then AntifreezeIndex(m, cols, c.idx) else c.idx;
    c.(idx := idx,
       states := if cold then WithRow(c.states, m, cols, idx).(target := AntifreezeTarget(c.states.unit))
                 else c.states)
  }

  /** antiboil(): above 41 °C the pump switched on and the heater off. */
  function AntiboilControl(m: Model4W, cols: ValidColumns, c: Control): (r: Control)
    requires c.idx < m.Rows()
    ensures r.idx < m.Rows()
  {
    var hot := TempC(c.states) > 41;
    var idx := if hot then AntiboilIndex(m, cols, c.idx) else c.idx;
    c.(idx := idx, states := if hot then WithRow(c.states, m, cols, idx) else c.states)
  }

  /** The thermostat, then the frost and boil guards. */
  function GuardControl(m: Model4W, cols: ValidColumns, t: Toggles, c: Control): (r: Control)
    requires c.idx < m.Rows()
    ensures r.idx < m.Rows()
  {
    AntiboilControl(m, cols, AntifreezeControl(m, cols, RegulateControl(m, t, c)))
  }

  /** handleToggles() in god mode after the timers: the requests served,
      the thermostat and the guards run, and the green heater LED set as
      generatePayload() does. */
  function GodModeControl(m: Model4W, cols: ValidColumns, t: Toggles, c: Control): (r: Control)
    requires c.idx < m.Rows()
    ensures r.idx < m.Rows()
  {
    var g := GuardControl(m, cols, t, ServeControl(m, cols, t, c));
    g.(states := g.states.(heatgrn := if g.states.heatred == 0 && g.states.heat != 0 then 1 else 0))
  }

  /** The states the thermostat and the guards see in god mode: those left
      by the requests. */
  function Served(m: Model4W, cols: ValidColumns, t: Toggles, c: Control): States
    requires c.idx < m.Rows()
  {
    ServeControl(m, cols, t, c).states
  }

  /** Below 10 °C, in the tables' column order, god mode ends with the pump
      and the heater on and the target at 10 °C (50 °F), whatever was
      requested; the command byte then runs the pump, and the green LED
      shows exactly when the thermostat holds the heater off. */
  lemma {:induction false} GodModeColdHeats(m: Model4W, t: Toggles, c: Control)
    requires c.idx < m.Rows()
    requires TempC(Served(m, TableColumns, t, c)) < 10
    ensures var g := GodModeControl(m, TableColumns, t, c);
      g.states.pump == 1 && g.states.heat == 1 &&
      g.states.target == (if Served(m, TableColumns, t, c).unit != 0 then 10 else 50) &&
      g.states.heatgrn == 1 - g.states.heatred &&
      ActiveBits(m, g.heatBitmask, g.states) & m.PumpBitmask() == m.PumpBitmask()
  {
    var r := RegulateControl(m, t, ServeControl(m, TableColumns, t, c));
    AntifreezeHeats(m, r.idx);
  }

  /** Above 41 °C, in the tables' column order, god mode ends with the pump
      on and the heater off, the target as requested, and the green LED
      off. */
  lemma {:induction false} GodModeHotCools(m: Model4W, t: Toggles, c: Control)
    requires c.idx < m.Rows()
    requires TempC(Served(m, TableColumns, t, c)) > 41
    ensures var g := GodModeControl(m, TableColumns, t, c);
      g.states.pump == 1 && g.states.heat == 0 && g.states.heatgrn == 0 &&
      g.states.target == c.states.target &&
      ActiveBits(m, g.heatBitmask, g.states) & m.PumpBitmask() == m.PumpBitmask()
  {
    var r := RegulateControl(m, t, ServeControl(m, TableColumns, t, c));
    AntiboilCools(m, r.idx);
  }

  /** Between 10 °C and 41 °C the guards stay out: the outputs are those
      the requests reach, the heater is active exactly when heat is on and
      temperature + hysteresis <= target, and the green LED shows heat
      that is on but held off. */
  lemma GodModeMildRegulates(m: Model4W, cols: ValidColumns, t: Toggles, c: Control)
    requires c.idx < m.Rows()
    requires 10 <= TempC(Served(m, cols, t, c)) <= 41
    ensures var g := GodModeControl(m, cols, t, c);
      var s := Served(m, cols, t, c);
      g.idx == RequestsIndex(m, cols, t, c.idx) && InRow(g.states, m, cols, g.idx) &&
      g.states.target == c.states.target && g.states.unit == s.unit &&
      g.states.temperature == s.temperature &&
      (g.states.heatred == 1 <==> s.heat != 0 && s.temperature + c.hysteresis <= s.target) &&
      (g.states.heatgrn == 1 <==> s.heat != 0 && g.states.heatred == 0)
  {
  }

  /** The heater mask after god mode: one element whenever only one is
      allowed, and otherwise one of the three masks the driver uses. */
  lemma GodModeHeaterMask(m: Model4W, cols: ValidColumns, t: Toggles, c: Control)
    requires c.idx < m.Rows()
    ensures var g := GodModeControl(m, cols, t, c);
      (t.noOfHeaterElementsOn < 2 ==> g.heatBitmask == m.HeatBitmask1()) &&
      (g.heatBitmask == c.heatBitmask || g.heatBitmask == m.HeatBitmask1() ||
       g.heatBitmask == m.HeatBitmask1() | m.HeatBitmask2())
  {
  }

  class Cio4W {
    const model: Model4W
    const cols: ValidColumns
    var states: States
    var toggles: Toggles
    var goodPacketsCount: nat
    var badPacketsCount: nat
    var writeMsgCount: int
    var rawPayloadToCio: seq<u8>
    var rawPayloadFromCio: seq<u8>
    var prevMs: u32
    var timeSinceLastTransmission: i32
    var heatBitmask: bv8
    const fromCioBuf: array<u8>
    const toCioBuf: array<u8>
    var currentStateIndex: nat
    var heater2Countdown: i32
    var coolHeaterCountdown: i32
    var turnOffPumpFlag: bool
    var serialReceived: bool
    var readyToTransmit: bool
    /** The function-local `static uint8_t hysteresis` of regulateTemp(). */
    var hysteresis: u8

    /** Buffer shapes, the state index in range, and the heater mask made of
        the model's heater bits. */
    ghost predicate Inv()
      reads this
    {
      currentStateIndex < model.Rows() &&
      fromCioBuf.Length == PAYLOADSIZE && toCioBuf.Length == PAYLOADSIZE &&
      fromCioBuf != toCioBuf &&
      |rawPayloadToCio| == PAYLOADSIZE && |rawPayloadFromCio| == PAYLOADSIZE &&
      states.heatred <= 1 && hysteresis <= 1 &&
      (heatBitmask == 0 || heatBitmask == model.HeatBitmask1() ||
       heatBitmask == model.HeatBitmask1() | model.HeatBitmask2())
    }

    /** `Inv()`, and the output flags are those of the current table row. */
    ghost predicate Valid()
      reads this
    {
      Inv() && InRow(states, model, cols, currentStateIndex)
    }

    /** The values handleToggles() updates in god mode. */
    ghost function Snapshot(): Control
      reads this
    {
      Control(currentStateIndex, states, hysteresis, heater2Countdown, heatBitmask,
              coolHeaterCountdown, turnOffPumpFlag)
    }

    constructor(model: Model4W, cols: ValidColumns)
      ensures Valid()
      ensures this.model == model && this.cols == cols
      ensures states == DefaultStates && toggles == DefaultToggles
      ensures currentStateIndex == 0 && heatBitmask == 0 && prevMs == 0
      ensures goodPacketsCount == 0 && badPacketsCount == 0 && writeMsgCount == 0
      ensures rawPayloadToCio == [0, 0, 0, 0, 0, 0, 0] && rawPayloadFromCio == rawPayloadToCio
      ensures fromCioBuf[..] == rawPayloadToCio && toCioBuf[..] == rawPayloadToCio
      ensures heater2Countdown == 0 && coolHeaterCountdown == 0 && timeSinceLastTransmission == 0
      ensures !turnOffPumpFlag && !serialReceived && !readyToTransmit && hysteresis == 0
    {
      this.model := model;
      this.cols := cols;
      states := DefaultStates;
      toggles := DefaultToggles;
      goodPacketsCount := 0;
      badPacketsCount := 0;
      writeMsgCount := 0;
      rawPayloadToCio := [0, 0, 0, 0, 0, 0, 0];
      rawPayloadFromCio := [0, 0, 0, 0, 0, 0, 0];
      prevMs := 0;
      timeSinceLastTransmission := 0;
      heatBitmask := 0;
      fromCioBuf := new u8[PAYLOADSIZE](_ => 0);
      toCioBuf := new u8[PAYLOADSIZE](_ => 0);
      currentStateIndex := 0;
      heater2Countdown := 0;
      coolHeaterCountdown := 0;
      turnOffPumpFlag := false;
      serialReceived := false;
      readyToTransmit := false;
      hysteresis := 0;
    }

    /** togglestates(): copy the outputs of the current row into the states. */
    method ToggleStates()
      requires Inv()
      modifies this`states
      ensures Valid() && OnlyOutputsDiffer(states, old(states))
    {
      var row := model.AllowedStates()[currentStateIndex];
      states := states.(bubbles := row[cols.bubbles], jets := row[cols.jets], pump := row[cols.pump],
                        heat := if row[cols.heat] > 0 then 1 else 0);
    }

    /** `_currentStateIndex = getJumptable(_currentStateIndex, col);
        togglestates();` */
    method Toggle(col: nat)
      requires Valid() && col < 4
      modifies this`currentStateIndex, this`states
      ensures Valid()
      ensures currentStateIndex == Jump(model, old(currentStateIndex), col)
      ensures OnlyOutputsDiffer(states, old(states))
    {
      currentStateIndex := Jump(model, currentStateIndex, col);
      ToggleStates();
    }

    /** getSerialReceived(): report whether a frame arrived, and clear the flag. */
    method GetSerialReceived() returns (r: bool)
      modifies this`serialReceived
      ensures r == old(serialReceived) && !serialReceived
    {
      r := serialReceived;
      serialReceived := false;
    }

    /** setSerialReceived(txok): whether the next handleToggles() may transmit. */
    method SetSerialReceived(txok: bool)
      modifies this`readyToTransmit
      ensures readyToTransmit == txok
    {
      readyToTransmit := txok;
    }

    /** updateStates(): `available` is the serial port's `available()`,
        `msg` the bytes `readBytes` delivered. Frames of the wrong length are
        ignored, frames with a bad checksum are counted, and an accepted frame
        is copied and decoded; a nonzero error also zeroes the command byte. */
    method UpdateStates(available: bool, msg: seq<u8>)
      requires Valid()
      modifies this`goodPacketsCount, this`badPacketsCount, this`states, this`rawPayloadFromCio
      modifies this`serialReceived, fromCioBuf, toCioBuf
      ensures Valid()
      ensures !available || |msg| != PAYLOADSIZE || !FrameOk(msg) ==>
        states == old(states) && goodPacketsCount == old(goodPacketsCount) &&
        serialReceived == old(serialReceived) &&
        fromCioBuf[..] == old(fromCioBuf[..]) && toCioBuf[..] == old(toCioBuf[..]) &&
        rawPayloadFromCio == old(rawPayloadFromCio)
      ensures badPacketsCount ==
        if available && |msg| == PAYLOADSIZE && !FrameOk(msg) then old(badPacketsCount) + 1
        else old(badPacketsCount)
      ensures available && FrameOk(msg) ==>
        goodPacketsCount == old(goodPacketsCount) + 1 &&
        fromCioBuf[..] == msg && rawPayloadFromCio == msg &&
        states == DecodeStatus(old(states), msg) && serialReceived &&
        toCioBuf[..] == if msg[ERRORINDEX] != 0 then old(toCioBuf[..])[COMMANDINDEX := 0] else old(toCioBuf[..])
    {
      if !available {
        return;
      }
      if |msg| != PAYLOADSIZE {
        return;
      }
      var calculatedChecksum := Checksum(msg);
      if msg[CHECKSUMINDEX] != calculatedChecksum {
        badPacketsCount := badPacketsCount + 1;
        return;
      }
      Accept(msg);
    }

    /** The accepting half of updateStates(): the frame is counted, copied
        into the receive buffer and the raw status, and decoded. */
    method Accept(msg: seq<u8>)
      requires Valid() && FrameOk(msg)
      modifies this`goodPacketsCount, this`states, this`rawPayloadFromCio, this`serialReceived
      modifies fromCioBuf, toCioBuf
      ensures Valid()
      ensures goodPacketsCount == old(goodPacketsCount) + 1 &&
        fromCioBuf[..] == msg && rawPayloadFromCio == msg &&
        states == DecodeStatus(old(states), msg) && serialReceived &&
        toCioBuf[..] == if msg[ERRORINDEX] != 0 then old(toCioBuf[..])[COMMANDINDEX := 0] else old(toCioBuf[..])
    {
      goodPacketsCount := goodPacketsCount + 1;
      CopyIn(msg);
      Decode();
      serialReceived := true;
    }

    /** The decoding step of updateStates(): the status read from the
        receive buffer, and a reported error clears the command byte. */
    method Decode()
      requires Valid()
      modifies this`states, toCioBuf
      ensures Valid()
      ensures states == DecodeStatus(old(states), fromCioBuf[..])
      ensures toCioBuf[..] == if states.error != 0 then old(toCioBuf[..])[COMMANDINDEX := 0] else old(toCioBuf[..])
    {
      states := DecodeStatus(states, fromCioBuf[..]);
      if states.error != 0 {
        toCioBuf[COMMANDINDEX] := 0;
      }
    }

    /** The copy loop of updateStates(): each byte of the frame into the
        receive buffer and the raw status. */
    method CopyIn(msg: seq<u8>)
      requires |msg| == PAYLOADSIZE && fromCioBuf.Length == PAYLOADSIZE &&
               |rawPayloadFromCio| == PAYLOADSIZE
      modifies fromCioBuf, this`rawPayloadFromCio
      ensures fromCioBuf[..] == msg && rawPayloadFromCio == msg
    {
      var i := 0;
      while i < PAYLOADSIZE
        invariant 0 <= i <= PAYLOADSIZE && |rawPayloadFromCio| == PAYLOADSIZE
        invariant fromCioBuf[..i] == msg[..i] && rawPayloadFromCio[..i] == msg[..i]
      {
        fromCioBuf[i] := msg[i];
        rawPayloadFromCio := rawPayloadFromCio[i := msg[i]];
        i := i + 1;
      }
    }

    /** generatePayload(): the command frame from the current outputs, with
        the green heater LED set when heating is on but not active. */
    method GeneratePayload()
      requires Valid()
      modifies this`states, toCioBuf
      ensures Valid()
      ensures states == old(states).(heatgrn := if old(states).heatred == 0 && old(states).heat != 0 then 1 else 0)
      ensures toCioBuf[..] == Frame(rawPayloadToCio, CommandByte(model, heatBitmask, states), rawPayloadToCio[3])
    {
      states := states.(heatgrn := if states.heatred == 0 && states.heat != 0 then 1 else 0);
      WriteFrame(CommandByte(model, heatBitmask, states));
    }

    /** The byte writes of generatePayload(): bytes 0, 1, 3, 4 and 6 from the
        raw frame of the display, the command byte, and the checksum of
        bytes 1 to 4. */
    method WriteFrame(command: u8)
      requires toCioBuf.Length == PAYLOADSIZE && |rawPayloadToCio| == PAYLOADSIZE
      modifies toCioBuf
      ensures toCioBuf[..] == Frame(rawPayloadToCio, command, rawPayloadToCio[3])
    {
      toCioBuf[0] := rawPayloadToCio[0];
      toCioBuf[1] := rawPayloadToCio[1];
      toCioBuf[COMMANDINDEX] := command;
      toCioBuf[3] := rawPayloadToCio[3];
      toCioBuf[4] := rawPayloadToCio[4];
      ghost var f := Frame(rawPayloadToCio, command, rawPayloadToCio[3]);
      toCioBuf[CHECKSUMINDEX] := Checksum(toCioBuf[..]);
      assert toCioBuf[CHECKSUMINDEX] == f[CHECKSUMINDEX];
      toCioBuf[6] := rawPayloadToCio[6];
      assert forall i :: 0 <= i < PAYLOADSIZE ==> toCioBuf[i] == f[i];
      assert toCioBuf[..] == f;
    }

    /** regulateTemp(): with heat off the heater is inactive; otherwise it is
        active iff temperature + hysteresis <= target, a heater that starts
        arms the second-element delay, and the second element is added once
        that delay has run out and two elements are allowed. */
    method RegulateTemp()
      requires Valid()
      modifies this`states, this`hysteresis, this`heater2Countdown, this`heatBitmask
      ensures Valid()
      ensures old(states).heat == 0 ==>
        states == old(states).(heatred := 0) && hysteresis == old(hysteresis) &&
        heater2Countdown == old(heater2Countdown) && heatBitmask == old(heatBitmask)
      ensures old(states).heat != 0 ==>
        var on := old(states).temperature + old(hysteresis) <= old(states).target;
        var starts := on && old(states).heatred == 0;
        states == old(states).(heatred := if on then 1 else 0) &&
        hysteresis == (if on then 0 else 1) &&
        heater2Countdown == (if starts then HEATER2_DELAY_MS else old(heater2Countdown)) &&
        heatBitmask ==
          if heater2Countdown <= 0 && toggles.noOfHeaterElementsOn == 2
          then model.HeatBitmask1() | model.HeatBitmask2()
          else if starts then model.HeatBitmask1() else old(heatBitmask)
      ensures Snapshot() == RegulateControl(model, toggles, old(Snapshot()))
    {
      if states.heat == 0 {
        states := states.(heatred := 0);
        return;
      }
      if states.temperature + hysteresis <= states.target {
        if states.heatred == 0 {
          heatBitmask := model.HeatBitmask1();
          states := states.(heatred := 1);
          heater2Countdown := HEATER2_DELAY_MS;
        }
        hysteresis := 0;
      } else {
        states := states.(heatred := 0);
        hysteresis := 1;
      }
      if heater2Countdown <= 0 && toggles.noOfHeaterElementsOn == 2 {
        heatBitmask := model.HeatBitmask1() | model.HeatBitmask2();
      }
    }

    /** antifreeze(): below 10 °C the pump and the heater are switched on and
        the target set to 10 °C (50 °F). */
    method Antifreeze()
      requires Valid()
      modifies this`currentStateIndex, this`states
      ensures Valid()
      ensures TempC(old(states)) >= 10 ==>
        states == old(states) && currentStateIndex == old(currentStateIndex)
      ensures TempC(old(states)) < 10 ==>
        currentStateIndex == AntifreezeIndex(model, cols, old(currentStateIndex)) &&
        SameSettings(states, old(states)) &&
        states.target == if old(states).unit != 0 then 10 else 50
      ensures Snapshot() == AntifreezeControl(model, cols, old(Snapshot()))
    {
      var tempC := TempC(states);
      if tempC < 10 {
        ToggleWhen(states.pump == 0, cols.pump);
        ToggleWhen(states.heat == 0, cols.heat);
        states := states.(target := AntifreezeTarget(states.unit));
      }
    }

    /** antiboil(): above 41 °C the pump is switched on and the heater off. */
    method Antiboil()
      requires Valid()
      modifies this`currentStateIndex, this`states
      ensures Valid()
      ensures TempC(old(states)) <= 41 ==>
        states == old(states) && currentStateIndex == old(currentStateIndex)
      ensures TempC(old(states)) > 41 ==>
        currentStateIndex == AntiboilIndex(model, cols, old(currentStateIndex)) &&
        OnlyOutputsDiffer(states, old(states))
      ensures Snapshot() == AntiboilControl(model, cols, old(Snapshot()))
    {
      var tempC := TempC(states);
      if tempC > 41 {
        ToggleWhen(states.pump == 0, cols.pump);
        ToggleWhen(states.heat != 0, cols.heat);
      }
    }

    /** `if (c) { _currentStateIndex = getJumptable(_currentStateIndex, col);
        togglestates(); }` */
    method ToggleWhen(c: bool, col: nat)
      requires Valid() && col < 4
      modifies this`currentStateIndex, this`states
      ensures Valid()
      ensures currentStateIndex == ToggleIf(model, old(currentStateIndex), col, c)
      ensures OnlyOutputsDiffer(states, old(states))
      ensures !c ==> states == old(states)
    {
      if c {
        Toggle(col);
      }
    }

    /** The countdown part of handleToggles(): both countdowns run down while
        positive, and once the cooling countdown has run out a pending pump-off
        request is served, exactly once. */
    method CountDown(elapsed: u32)
      requires Valid()
      modifies this`heater2Countdown, this`coolHeaterCountdown, this`turnOffPumpFlag
      modifies this`currentStateIndex, this`states
      ensures Valid()
      ensures heater2Countdown == RunDown(old(heater2Countdown), elapsed)
      ensures coolHeaterCountdown == RunDown(old(coolHeaterCountdown), elapsed)
      ensures var due := coolHeaterCountdown <= 0 && old(turnOffPumpFlag);
        turnOffPumpFlag == (old(turnOffPumpFlag) && !due) &&
        currentStateIndex == ToggleIf(model, old(currentStateIndex), cols.pump, due) &&
        OnlyOutputsDiffer(states, old(states)) && (!due ==> states == old(states))
    {
      heater2Countdown := RunDown(heater2Countdown, elapsed);
      coolHeaterCountdown := RunDown(coolHeaterCountdown, elapsed);
      var due := coolHeaterCountdown <= 0 && turnOffPumpFlag;
      ToggleWhen(due, cols.pump);
      turnOffPumpFlag := turnOffPumpFlag && !due;
    }

    /** The pump request of handleToggles(): switching the pump on toggles
        it; switching it off while heating toggles the heater instead and
        arms the cooling countdown. */
    method ServePump()
      requires Valid()
      modifies this`currentStateIndex, this`states, this`coolHeaterCountdown, this`turnOffPumpFlag
      ensures Valid()
      ensures currentStateIndex == PumpRequestIndex(model, cols, toggles, old(currentStateIndex))
      ensures OnlyOutputsDiffer(states, old(states))
      ensures DefersPumpOff(model, cols, toggles, old(currentStateIndex)) ==>
        coolHeaterCountdown == HEATERCOOLING_DELAY_MS && turnOffPumpFlag
      ensures !DefersPumpOff(model, cols, toggles, old(currentStateIndex)) ==>
        coolHeaterCountdown == old(coolHeaterCountdown) && turnOffPumpFlag == old(turnOffPumpFlag)
    {
      if toggles.pumpChange {
        if states.pump == 0 {
          Toggle(cols.pump);
        } else {
          if states.heat != 0 {
            Toggle(cols.heat);
            coolHeaterCountdown := HEATERCOOLING_DELAY_MS;
            turnOffPumpFlag := true;
          } else {
            Toggle(cols.pump);
          }
        }
      }
    }

    /** The unit-change request of handleToggles(). */
    method ChangeUnit()
      requires Valid()
      modifies this`states
      ensures Valid()
      ensures states == UnitRequest(old(states), toggles)
    {
      if toggles.unitChange {
        states := UnitChanged(states);
      }
    }

    /** The request part of handleToggles() in god mode: unit change, then
        the heat, bubbles, pump and jets requests. */
    method ServeRequests()
      requires Valid()
      modifies this`currentStateIndex, this`states, this`coolHeaterCountdown, this`turnOffPumpFlag
      ensures Valid()
      ensures currentStateIndex == RequestsIndex(model, cols, toggles, old(currentStateIndex))
      ensures OnlyOutputsDiffer(states, UnitRequest(old(states), toggles))
      ensures var i2 := BeforePumpRequest(model, cols, toggles, old(currentStateIndex));
        DefersPumpOff(model, cols, toggles, i2) ==>
        coolHeaterCountdown == HEATERCOOLING_DELAY_MS && turnOffPumpFlag
      ensures var i2 := BeforePumpRequest(model, cols, toggles, old(currentStateIndex));
        !DefersPumpOff(model, cols, toggles, i2) ==>
        coolHeaterCountdown == old(coolHeaterCountdown) && turnOffPumpFlag == old(turnOffPumpFlag)
    {
      ChangeUnit();
      ServeHeatAndBubbles();
      ServePump();
      ToggleWhen(toggles.jetsChange && model.HasJets(), cols.jets);
    }

    /** The heat request, then the bubbles request on air models. */
    method ServeHeatAndBubbles()
      requires Valid()
      modifies this`currentStateIndex, this`states
      ensures Valid()
      ensures currentStateIndex == BeforePumpRequest(model, cols, toggles, old(currentStateIndex))
      ensures OnlyOutputsDiffer(states, old(states))
    {
      ToggleWhen(toggles.heatChange, cols.heat);
      ToggleWhen(toggles.bubblesChange && model.HasAir(), cols.bubbles);
    }

    /** The start of handleToggles(now): the time since the previous call is
        added to the transmission timer, the requested target is copied, and
        the countdowns run. */
    method Tick(now: u32) returns (elapsed: u32)
      requires Valid()
      modifies this`prevMs, this`timeSinceLastTransmission, this`states, this`currentStateIndex
      modifies this`heater2Countdown, this`coolHeaterCountdown, this`turnOffPumpFlag
      ensures Valid()
      ensures elapsed == Elapsed(now, old(prevMs)) && prevMs == now
      ensures timeSinceLastTransmission == I32(old(timeSinceLastTransmission) + elapsed)
      ensures heater2Countdown == RunDown(old(heater2Countdown), elapsed)
      ensures coolHeaterCountdown == RunDown(old(coolHeaterCountdown), elapsed)
      ensures var due := coolHeaterCountdown <= 0 && old(turnOffPumpFlag);
        turnOffPumpFlag == (old(turnOffPumpFlag) && !due) &&
        currentStateIndex == ToggleIf(model, old(currentStateIndex), cols.pump, due) &&
        OnlyOutputsDiffer(states, old(states).(target := toggles.target))
      ensures Snapshot() == TickControl(model, cols, toggles, old(Snapshot()), elapsed)
    {
      elapsed := Elapsed(now, prevMs);
      prevMs := now;
      timeSinceLastTransmission := I32(timeSinceLastTransmission + elapsed);
      states := states.(target := toggles.target);
      CountDown(elapsed);
    }

    /** handleToggles() outside god mode: the display's raw frame is copied
        to the command buffer and written when the display side allows it. */
    method PassThrough() returns (sent: Option<seq<u8>>)
      requires Valid()
      modifies this`states, this`readyToTransmit, toCioBuf
      ensures Valid()
      ensures toCioBuf[..] == rawPayloadToCio
      ensures states == old(states).(godmode := false)
      ensures !readyToTransmit && (sent.Some? <==> old(readyToTransmit))
      ensures sent.Some? ==> sent.value == rawPayloadToCio
    {
      var i := 0;
      while i < PAYLOADSIZE
        invariant 0 <= i <= PAYLOADSIZE
        invariant toCioBuf[..i] == rawPayloadToCio[..i]
        modifies toCioBuf
      {
        toCioBuf[i] := rawPayloadToCio[i];
        i := i + 1;
      }
      states := states.(godmode := false);
      if readyToTransmit {
        readyToTransmit := false;
        sent := Some(toCioBuf[..]);
      } else {
        sent := None;
      }
    }

    /** handleToggles() in god mode, up to the transmission: the requests
        are served, the heater mask reset to one element when only one is
        allowed, the thermostat and the guards run, and the command frame is
        built from the resulting states. */
    method GodModeStep()
      requires Valid()
      modifies this`currentStateIndex, this`states, this`coolHeaterCountdown, this`turnOffPumpFlag
      modifies this`hysteresis, this`heater2Countdown, this`heatBitmask, toCioBuf
      ensures Valid()
      ensures states.godmode
      ensures Snapshot() == GodModeControl(model, cols, toggles, old(Snapshot()))
      ensures toCioBuf[..] == Frame(rawPayloadToCio, CommandByte(model, heatBitmask, states), rawPayloadToCio[3])
    {
      ServeGodMode();
      Guard();
      GeneratePayload();
    }

    /** The requests of god mode, and the heater mask reset to one element
        when only one is allowed. */
    method ServeGodMode()
      requires Valid()
      modifies this`currentStateIndex, this`states, this`coolHeaterCountdown, this`turnOffPumpFlag
      modifies this`heatBitmask
      ensures Valid() && states.godmode
      ensures currentStateIndex == RequestsIndex(model, cols, toggles, old(currentStateIndex))
      ensures toggles.noOfHeaterElementsOn < 2 ==> heatBitmask == model.HeatBitmask1()
      ensures toggles.noOfHeaterElementsOn >= 2 ==> heatBitmask == old(heatBitmask)
      ensures Snapshot() == ServeControl(model, cols, toggles, old(Snapshot()))
    {
      states := states.(godmode := true);
      ServeRequests();
      if toggles.noOfHeaterElementsOn < 2 {
        heatBitmask := model.HeatBitmask1();
      }
    }

    /** The thermostat, then the frost and boil guards. */
    method Guard()
      requires Valid()
      modifies this`currentStateIndex, this`states, this`hysteresis, this`heater2Countdown, this`heatBitmask
      ensures Valid() && states.godmode == old(states.godmode)
      ensures Snapshot() == GuardControl(model, cols, toggles, old(Snapshot()))
    {
      RegulateTemp();
      Antifreeze();
      Antiboil();
    }

    /** The end of handleToggles() in god mode: the command frame is written
        when the display side allows it or when more than 2000 ms have passed
        since the last one. */
    method Transmit() returns (sent: Option<seq<u8>>)
      requires Valid()
      modifies this`readyToTransmit, this`timeSinceLastTransmission, this`writeMsgCount
      ensures Valid()
      ensures sent.Some? <==>
        old(readyToTransmit) || old(timeSinceLastTransmission) > MAX_TIME_BETWEEN_TRANSMISSIONS_MS
      ensures sent.Some? ==>
        sent.value == toCioBuf[..] && !readyToTransmit && timeSinceLastTransmission == 0 &&
        writeMsgCount == old(writeMsgCount) + 1
      ensures sent.None? ==>
        readyToTransmit == old(readyToTransmit) &&
        timeSinceLastTransmission == old(timeSinceLastTransmission) &&
        writeMsgCount == old(writeMsgCount)
    {
      if readyToTransmit || timeSinceLastTransmission > MAX_TIME_BETWEEN_TRANSMISSIONS_MS {
        readyToTransmit := false;
        timeSinceLastTransmission := 0;
        sent := Some(toCioBuf[..]);
        writeMsgCount := writeMsgCount + 1;
      } else {
        sent := None;
      }
    }

    /** handleToggles(now): `now` is the `millis()` reading. Outside god mode
        the display's raw frame is forwarded when the display side allows it;
        in god mode the requests are served, the thermostat and guards run, a
        command frame is built, and it is sent when allowed or when more than
        2000 ms have passed since the last one. `sent` is the frame written to
        the serial port, if any. */
    method HandleToggles(now: u32) returns (sent: Option<seq<u8>>)
      requires Valid()
      modifies this`prevMs, this`timeSinceLastTransmission, this`states, this`currentStateIndex
      modifies this`heater2Countdown, this`coolHeaterCountdown, this`turnOffPumpFlag
      modifies this`hysteresis, this`heatBitmask, this`readyToTransmit, this`writeMsgCount, toCioBuf
      ensures Valid()
      ensures prevMs == now
      ensures sent.Some? ==> sent.value == toCioBuf[..]
      ensures !toggles.godmode ==>
        toCioBuf[..] == rawPayloadToCio && !states.godmode && !readyToTransmit &&
        (sent.Some? <==> old(readyToTransmit)) && writeMsgCount == old(writeMsgCount)
      ensures !toggles.godmode ==>
        timeSinceLastTransmission == I32(old(timeSinceLastTransmission) + Elapsed(now, old(prevMs)))
      ensures !toggles.godmode ==>
        var c := TickControl(model, cols, toggles, old(Snapshot()), Elapsed(now, old(prevMs)));
        Snapshot() == c.(states := c.states.(godmode := false))
      ensures toggles.godmode ==>
        Snapshot() == GodModeControl(model, cols, toggles,
                        TickControl(model, cols, toggles, old(Snapshot()), Elapsed(now, old(prevMs))))
      ensures toggles.godmode ==>
        states.godmode &&
        toCioBuf[..] == Frame(rawPayloadToCio, CommandByte(model, heatBitmask, states), rawPayloadToCio[3])
      ensures toggles.godmode ==>
        var since := I32(old(timeSinceLastTransmission) + Elapsed(now, old(prevMs)));
        (sent.Some? <==> old(readyToTransmit) || since > MAX_TIME_BETWEEN_TRANSMISSIONS_MS) &&
        (sent.Some? ==> !readyToTransmit && timeSinceLastTransmission == 0 &&
                        writeMsgCount == old(writeMsgCount) + 1) &&
        (sent.None? ==> readyToTransmit == old(readyToTransmit) &&
                        timeSinceLastTransmission == since && writeMsgCount == old(writeMsgCount))
    {
      if toggles.godmode {
        sent := GodModeToggles(now);
      } else {
        sent := PassThroughToggles(now);
      }
    }

    /** handleToggles(now) outside god mode: the timers run, then the
        display's raw frame is forwarded when the display side allows it. */
    method PassThroughToggles(now: u32) returns (sent: Option<seq<u8>>)
      requires Valid()
      modifies this`prevMs, this`timeSinceLastTransmission, this`states, this`currentStateIndex
      modifies this`heater2Countdown, this`coolHeaterCountdown, this`turnOffPumpFlag
      modifies this`readyToTransmit, toCioBuf
      ensures Valid()
      ensures prevMs == now
      ensures sent.Some? ==> sent.value == toCioBuf[..]
      ensures toCioBuf[..] == rawPayloadToCio && !states.godmode && !readyToTransmit &&
        (sent.Some? <==> old(readyToTransmit)) && writeMsgCount == old(writeMsgCount)
      ensures timeSinceLastTransmission == I32(old(timeSinceLastTransmission) + Elapsed(now, old(prevMs)))
      ensures var c := TickControl(model, cols, toggles, old(Snapshot()), Elapsed(now, old(prevMs)));
        Snapshot() == c.(states := c.states.(godmode := false))
    {
      var elapsed := Tick(now);
      sent := PassThrough();
    }

    /** handleToggles(now) in god mode: the timers run, then the command
        frame is built and sent when allowed or overdue. */
    method GodModeToggles(now: u32) returns (sent: Option<seq<u8>>)
      requires Valid()
      modifies this`prevMs, this`timeSinceLastTransmission, this`states, this`currentStateIndex
      modifies this`heater2Countdown, this`coolHeaterCountdown, this`turnOffPumpFlag
      modifies this`hysteresis, this`heatBitmask, this`readyToTransmit, this`writeMsgCount, toCioBuf
      ensures Valid()
      ensures prevMs == now
      ensures sent.Some? ==> sent.value == toCioBuf[..]
      ensures Snapshot() == GodModeControl(model, cols, toggles,
                              TickControl(model, cols, toggles, old(Snapshot()), Elapsed(now, old(prevMs))))
      ensures states.godmode &&
        toCioBuf[..] == Frame(rawPayloadToCio, CommandByte(model, heatBitmask, states), rawPayloadToCio[3])
      ensures var since := I32(old(timeSinceLastTransmission) + Elapsed(now, old(prevMs)));
        (sent.Some? <==> old(readyToTransmit) || since > MAX_TIME_BETWEEN_TRANSMISSIONS_MS) &&
        (sent.Some? ==> !readyToTransmit && timeSinceLastTransmission == 0 &&
                        writeMsgCount == old(writeMsgCount) + 1) &&
        (sent.None? ==> readyToTransmit == old(readyToTransmit) &&
                        timeSinceLastTransmission == since && writeMsgCount == old(writeMsgCount))
    {
      var elapsed := Tick(now);
      ghost var since := timeSinceLastTransmission;
      assert since == I32(old(timeSinceLastTransmission) + Elapsed(now, old(prevMs)));
      sent := GodModeSend();
    }

    /** handleToggles() in god mode after the timers: the command frame is
        built and then sent when allowed or overdue. */
    method GodModeSend() returns (sent: Option<seq<u8>>)
      requires Valid()
      modifies this`currentStateIndex, this`states, this`coolHeaterCountdown, this`turnOffPumpFlag
      modifies this`hysteresis, this`heater2Countdown, this`heatBitmask, toCioBuf
      modifies this`readyToTransmit, this`timeSinceLastTransmission, this`writeMsgCount
      ensures Valid() && states.godmode
      ensures Snapshot() == GodModeControl(model, cols, toggles, old(Snapshot()))
      ensures toCioBuf[..] == Frame(rawPayloadToCio, CommandByte(model, heatBitmask, states), rawPayloadToCio[3])
      ensures sent.Some? <==>
        old(readyToTransmit) || old(timeSinceLastTransmission) > MAX_TIME_BETWEEN_TRANSMISSIONS_MS
      ensures sent.Some? ==>
        sent.value == toCioBuf[..] && !readyToTransmit && timeSinceLastTransmission == 0 &&
        writeMsgCount == old(writeMsgCount) + 1
      ensures sent.None? ==>
        readyToTransmit == old(readyToTransmit) &&
        timeSinceLastTransmission == old(timeSinceLastTransmission) &&
        writeMsgCount == old(writeMsgCount)
    {
      GodModeStep();
      sent := Transmit();
    }
  }
}
