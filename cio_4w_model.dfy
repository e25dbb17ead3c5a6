/** The per-model constants of the 4-wire controller driver: frame layout,
    timing limits, temperature conversions, bit masks, capabilities and the
    two state tables of each pump model. */
module Cio4WModel {
  import opened Bytes

  // Frame layout and timing.
  const PAYLOADSIZE: nat := 7
  const TEMPINDEX: nat := 2
  const ERRORINDEX: nat := 3
  const COMMANDINDEX: nat := 2
  const CHECKSUMINDEX: nat := 5
  const MAX_TIME_BETWEEN_TRANSMISSIONS_MS: int := 2000
  const HEATER2_DELAY_MS: int := 10000
  const HEATERCOOLING_DELAY_MS: int := 5000

  /** C integer division of `int`s: the quotient is truncated toward zero. */
  function TruncDiv(a: int, b: int): (q: int)
    requires b > 0
    ensures a >= 0 ==> q * b <= a < q * b + b
    ensures a < 0 ==> q * b - b < a <= q * b
  {
    if a >= 0 then a / b else -((-a) / b)
  }

  /** `F2C(f) = (f - 32) * 5 / 9`. */
  function F2C(f: int): (c: int)
    ensures f >= 32 ==> 9 * c <= (f - 32) * 5 < 9 * c + 9
    ensures f < 32 ==> 9 * c - 9 < (f - 32) * 5 <= 9 * c
  {
    TruncDiv((f - 32) * 5, 9)
  }

  /** `C2F(c) = c * 9 / 5 + 32`. */
  function C2F(c: int): (f: int)
    ensures c >= 0 ==> 5 * (f - 32) <= 9 * c < 5 * (f - 32) + 5
    ensures c < 0 ==> 5 * (f - 32) - 5 < 9 * c <= 5 * (f - 32)
  {
    TruncDiv(c * 9, 5) + 32
  }

  /** The °C -> °F -> °C round trip loses one degree exactly when `c` is not a
      multiple of 5. */
  lemma {:induction false} CelsiusRoundTrip(c: int)
    requires c >= 0
    ensures F2C(C2F(c)) == if c % 5 == 0 then c else c - 1
    ensures F2C(C2F(c)) == c || F2C(C2F(c)) == c - 1
  {
    var k, e := c / 5, c % 5;
    assert c == 5 * k + e && 0 <= e < 5;
    var f := C2F(c);
    var back := F2C(f);
    if e == 0 {
      assert f == 9 * k + 32;
      assert back == 5 * k;
    } else if e == 1 {
      assert f == 9 * k + 33;
      assert back == 5 * k;
    } else if e == 2 {
      assert f == 9 * k + 35;
      assert back == 5 * k + 1;
    } else if e == 3 {
      assert f == 9 * k + 37;
      assert back == 5 * k + 2;
    } else {
      assert f == 9 * k + 39;
      assert back == 5 * k + 3;
    }
  }

  /** The °F -> °C -> °F round trip from 32 °F up loses up to two degrees,
      and none exactly when `f - 32` is a multiple of 9. */
  lemma {:induction false} FahrenheitRoundTrip(f: int)
    requires f >= 32
    ensures f - 2 <= C2F(F2C(f)) <= f
    ensures C2F(F2C(f)) == f <==> (f - 32) % 9 == 0
  {
    var k, e := (f - 32) / 9, (f - 32) % 9;
    assert f - 32 == 9 * k + e && 0 <= e < 9;
    var c := F2C(f);
    var back := C2F(c);
    if e == 0 {
      assert c == 5 * k;
      assert back == 9 * k + 32;
    } else if e == 1 {
      assert c == 5 * k;
      assert back == 9 * k + 32;
    } else if e == 2 {
      assert c == 5 * k + 1;
      assert back == 9 * k + 33;
    } else if e == 3 {
      assert c == 5 * k + 1;
      assert back == 9 * k + 33;
    } else if e == 4 {
      assert c == 5 * k + 2;
      assert back == 9 * k + 35;
    } else if e == 5 {
      assert c == 5 * k + 2;
      assert back == 9 * k + 35;
    } else if e == 6 {
      assert c == 5 * k + 3;
      assert back == 9 * k + 37;
    } else if e == 7 {
      assert c == 5 * k + 3;
      assert back == 9 * k + 37;
    } else {
      assert c == 5 * k + 4;
      assert back == 9 * k + 39;
    }
  }

  /** The column of each toggle request in the jump and allowed-states tables
      (`BUBBLETOGGLE`, `JETSTOGGLE`, `PUMPTOGGLE`, `HEATTOGGLE`). */
  datatype ToggleColumns = ToggleColumns(bubbles: nat, jets: nat, pump: nat, heat: nat)
  {
    predicate Valid()
    {
      bubbles < 4 && jets < 4 && pump < 4 && heat < 4 &&
      bubbles != jets && bubbles != pump && bubbles != heat &&
      jets != pump && jets != heat && pump != heat
    }
  }

  /** The column order the tables themselves imply: column 3 holds the number
      of heating elements (0, 1 or 2), column 1 never changes on the models
      without jets, and every heating row has column 2 (the pump) on. */
  const TableColumns: ToggleColumns := ToggleColumns(0, 1, 2, 3)

  /** A column order of the tables: four distinct columns. */
  type ValidColumns = c: ToggleColumns | c.Valid() witness ToggleColumns(0, 1, 2, 3)

  /** The pump models served by the 4-wire driver. */
  datatype Model4W = M54123 | M54138 | M54144 | M54154 | M54173
  {
    function HasJets(): bool
    {
      match this
      case M54123 => false
      case M54138 => true
      case M54144 => true
      case M54154 => false
      case M54173 => true
    }

    function HasAir(): bool
    {
      match this
      case M54123 => true
      case M54138 => true
      case M54144 => false
      case M54154 => true
      case M54173 => true
    }

    function PumpBitmask(): bv8
    {
      match this
      case M54123 => 0x10
      case M54154 => 0x10
      case _ => 0x05
    }

    function BubblesBitmask(): bv8
    {
      match this
      case M54123 => 0x20
      case M54154 => 0x20
      case _ => 0x02
    }

    function JetsBitmask(): bv8
    {
      match this
      case M54123 => 0x00
      case M54154 => 0x00
      case _ => 0x08
    }

    function HeatBitmask1(): bv8
    {
      match this
      case M54123 => 0x02
      case M54154 => 0x02
      case _ => 0x30
    }

    function HeatBitmask2(): bv8
    {
      match this
      case M54123 => 0x08
      case M54154 => 0x08
      case _ => 0x40
    }

    function PowerBitmask(): bv8
    {
      match this
      case M54123 => 0x01
      case M54154 => 0x01
      case _ => 0x80
    }

    /** Number of rows of both state tables. */
    function Rows(): nat
    {
      match this
      case M54123 => 4
      case M54138 => 5
      case M54144 => 5
      case M54154 => 6
      case M54173 => 8
    }

    /** `JUMPTABLE[row][col]`: the state reached from `row` by toggle `col`.
        Every entry is a row of the same tables. */
    function JumpTable(): (t: seq<seq<u8>>)
      ensures |t| == Rows()
      ensures forall i :: 0 <= i < |t| ==> |t[i]| == 4
      ensures forall i, j :: 0 <= i < |t| && 0 <= j < |t[i]| ==> t[i][j] < Rows()
    {
      match this
      case M54123 =>
        [[1, 0, 2, 3], [0, 1, 2, 3], [1, 2, 0, 3], [1, 3, 0, 2]]
      case M54138 =>
        [[1, 2, 3, 4], [0, 2, 3, 4], [1, 0, 3, 4], [1, 2, 0, 4], [1, 2, 0, 3]]
      case M54144 =>
        [[1, 2, 3, 4], [0, 2, 3, 4], [1, 0, 3, 4], [1, 2, 0, 4], [1, 2, 0, 3]]
      case M54154 =>
        [[3, 0, 1, 2], [4, 1, 0, 2], [5, 2, 0, 1], [0, 3, 4, 5], [1, 4, 3, 5], [2, 5, 3, 4]]
      case M54173 =>
        [[6, 4, 1, 3], [7, 4, 0, 3], [3, 5, 6, 7], [2, 4, 0, 1],
         [5, 0, 1, 3], [4, 6, 1, 3], [0, 5, 7, 2], [1, 5, 6, 2]]
    }

    /** `ALLOWEDSTATES[row][col]`: the output of each toggle column in state
        `row`. Columns 0 to 2 are on/off, column 3 counts heating elements. */
    function AllowedStates(): (t: seq<seq<u8>>)
      ensures |t| == Rows()
      ensures forall i :: 0 <= i < |t| ==> |t[i]| == 4
      ensures forall i, j :: 0 <= i < |t| && 0 <= j < 3 ==> t[i][j] <= 1
      ensures forall i :: 0 <= i < |t| ==> t[i][3] <= 2
      ensures t[0] == [0, 0, 0, 0]
    {
      match this
      case M54123 =>
        [[0, 0, 0, 0], [1, 0, 0, 0], [0, 0, 1, 0], [0, 0, 1, 2]]
      case M54138 =>
        [[0, 0, 0, 0], [1, 0, 0, 0], [0, 1, 0, 0], [0, 0, 1, 0], [0, 0, 1, 2]]
      case M54144 =>
        [[0, 0, 0, 0], [1, 0, 0, 0], [0, 1, 0, 0], [0, 0, 1, 0], [0, 0, 1, 2]]
      case M54154 =>
        [[0, 0, 0, 0], [0, 0, 1, 0], [0, 0, 1, 2], [1, 0, 0, 0], [1, 0, 1, 0], [1, 0, 1, 1]]
      case M54173 =>
        [[0, 0, 0, 0], [0, 0, 1, 0], [1, 0, 1, 1], [0, 0, 1, 2],
         [0, 1, 0, 0], [1, 1, 0, 0], [1, 0, 0, 0], [1, 0, 1, 0]]
    }
  }

  /** The six masks of every model are pairwise disjoint, so each output has
      bits of its own in the command byte. */
  lemma MasksDisjoint(m: Model4W)
    ensures m.PumpBitmask() & m.BubblesBitmask() == 0
    ensures m.PumpBitmask() & m.JetsBitmask() == 0
    ensures m.PumpBitmask() & m.HeatBitmask1() == 0
    ensures m.PumpBitmask() & m.HeatBitmask2() == 0
    ensures m.PumpBitmask() & m.PowerBitmask() == 0
    ensures m.BubblesBitmask() & m.JetsBitmask() == 0
    ensures m.BubblesBitmask() & m.HeatBitmask1() == 0
    ensures m.BubblesBitmask() & m.HeatBitmask2() == 0
    ensures m.BubblesBitmask() & m.PowerBitmask() == 0
    ensures m.JetsBitmask() & m.HeatBitmask1() == 0
    ensures m.JetsBitmask() & m.HeatBitmask2() == 0
    ensures m.JetsBitmask() & m.PowerBitmask() == 0
    ensures m.HeatBitmask1() & m.HeatBitmask2() == 0
    ensures m.HeatBitmask1() & m.PowerBitmask() == 0
    ensures m.HeatBitmask2() & m.PowerBitmask() == 0
  {
  }

  /** Capabilities: 54123 and 54154 have air but no jets, 54138 and 54173 have
      both, 54144 has jets without air; a model without jets has a zero jets
      mask, and every other mask is nonzero. */
  lemma Capabilities(m: Model4W)
    ensures m.HasJets() <==> m.JetsBitmask() != 0
    ensures !m.HasAir() <==> m == M54144
    ensures m.HasJets() <==> m in {M54138, M54144, M54173}
    ensures m.PumpBitmask() != 0 && m.BubblesBitmask() != 0 && m.PowerBitmask() != 0
    ensures m.HeatBitmask1() != 0 && m.HeatBitmask2() != 0
  {
  }

  /** The additive checksum of a 4-wire frame: bytes 1 to 4 summed modulo 256. */
  function Checksum(f: seq<u8>): u8
    requires |f| == PAYLOADSIZE
  {
    U8(f[1] as int + f[2] as int + f[3] as int + f[4] as int)
  }

  /** A frame both drivers accept: seven bytes whose byte 5 is the checksum. */
  predicate FrameOk(f: seq<u8>)
  {
    |f| == PAYLOADSIZE && f[CHECKSUMINDEX] == Checksum(f)
  }

  /** A frame made from `raw` with `b2` and `b3` at indices 2 and 3 and the
      checksum recomputed, as both generatePayload functions build it. */
  function Frame(raw: seq<u8>, b2: u8, b3: u8): (f: seq<u8>)
    requires |raw| == PAYLOADSIZE
    ensures FrameOk(f)
    ensures f[0] == raw[0] && f[1] == raw[1] && f[4] == raw[4] && f[6] == raw[6]
    ensures f[2] == b2 && f[3] == b3
  {
    var f := [raw[0], raw[1], b2, b3, raw[4], 0, raw[6]];
    f[CHECKSUMINDEX := Checksum(f)]
  }
}
