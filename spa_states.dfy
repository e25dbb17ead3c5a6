/** The state and request records shared by the drivers adapted from the
    VisualApproach firmware (`sStates`, `sToggles`, `Buttons`). */
module SpaStates {
  import opened Bytes

  /** `Buttons` is an enum over `uint8_t`; a value may lie outside the named ones. */
  type Button = u8

  const NOBTN: Button := 0
  const LOCK: Button := 1
  const TIMER: Button := 2
  const BUBBLES: Button := 3
  const UNIT: Button := 4
  const HEAT: Button := 5
  const PUMP: Button := 6
  const DOWN: Button := 7
  const UP: Button := 8
  const POWER: Button := 9
  const HYDROJETS: Button := 10
  const BTN_COUNT: nat := 11

  /** `sStates`: every flag is a `uint8_t`. `godmode` and
      `noOfHeaterElementsOn` are read and written by the 4-wire drivers. */
  datatype States = States(
    locked: u8, power: u8, unit: u8, bubbles: u8, heatgrn: u8, heatred: u8,
    heat: u8, pump: u8, temperature: u8, target: u8,
    char1: u8, char2: u8, char3: u8, jets: u8, error: u8,
    timerled1: u8, timerled2: u8, timerbuttonled: u8, brightness: u8,
    godmode: bool, noOfHeaterElementsOn: u8)

  /** The member initialisers of `sStates`. */
  const DefaultStates: States :=
    States(0, 0, 0, 0, 0, 0, 0, 0, 25, 20, 32, 32, 32, 0, 0, 0, 0, 0, 8, false, 0)

  /** Every LED flag is 0 or 1, as the controller drivers set them. The
      display drivers shift these `uint8_t` flags into place, so a larger
      value would light the LEDs above. */
  predicate FlagsAreBits(s: States)
  {
    s.locked <= 1 && s.timerbuttonled <= 1 && s.timerled1 <= 1 && s.timerled2 <= 1 &&
    s.heatred <= 1 && s.heatgrn <= 1 && s.bubbles <= 1 && s.pump <= 1 && s.power <= 1 &&
    s.jets <= 1
  }

  /** `sToggles`: requests coming from the display side. */
  datatype Toggles = Toggles(
    pressedButton: Button, target: u8,
    lockedPressed: bool, powerChange: bool, unitChange: bool,
    bubblesChange: bool, heatChange: bool, pumpChange: bool, jetsChange: bool,
    timerPressed: bool, upPressed: bool, downPressed: bool,
    godmode: bool, noOfHeaterElementsOn: u8)

  /** The member initialisers of `sToggles`. */
  const DefaultToggles: Toggles :=
    Toggles(NOBTN, 20, false, false, false, false, false, false, false, false, false, false, false, 0)
}
