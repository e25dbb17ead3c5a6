/** The per-model tables of `model_specific.h`: the button codes of each
    spa model, the bit masks and capabilities of the 4-wire models, and the
    two lookups from a model number. */
module ModelSpecific {
  import opened Bytes
  import opened SpaStates
  import CioType1
  import VaCioType2
  import Cio4WModel

  /** `BTNCODES_PRE2021`, indexed by `Buttons`. */
  const BTNCODES_PRE2021: seq<u16> :=
    [0x1B1B, 0x0200, 0x0100, 0x0300, 0x1012, 0x1212, 0x1112, 0x1312, 0x0809, 0x0000, 0x0000]

  /** `BTNCODES_P05504`. */
  const BTNCODES_P05504: seq<u16> :=
    [0x1B1B, 0x0210, 0x0110, 0x0310, 0x1022, 0x1222, 0x1122, 0x1322, 0x081A, 0x0000, 0x0000]

  /** `BTNCODES_54149E`: NOBTN is 0, every other button one bit. */
  const BTNCODES_54149E: seq<u16> :=
    [0x0000, 0x0080, 0x0040, 0x0020, 0x0010, 0x0008, 0x0004, 0x0002, 0x0001, 0x0100, 0x0200]

  /** The table each of the 4-wire models 54123, 54138, 54144, 54154 and
      54173 declares: every entry 0, the 4-wire bus not using button codes. */
  const BTNCODES_4W: seq<u16> := seq(BTN_COUNT, _ => 0)

  /** The entries of the PRE2021 table, one by one. */
  lemma Pre2021Are()
    ensures |BTNCODES_PRE2021| == BTN_COUNT
    ensures BTNCODES_PRE2021[0] == 0x1B1B && BTNCODES_PRE2021[1] == 0x0200
    ensures BTNCODES_PRE2021[2] == 0x0100 && BTNCODES_PRE2021[3] == 0x0300
    ensures BTNCODES_PRE2021[4] == 0x1012 && BTNCODES_PRE2021[5] == 0x1212
    ensures BTNCODES_PRE2021[6] == 0x1112 && BTNCODES_PRE2021[7] == 0x1312
    ensures BTNCODES_PRE2021[8] == 0x0809 && BTNCODES_PRE2021[9] == 0 && BTNCODES_PRE2021[10] == 0
  {
  }

  /** The entries of the P05504 table, one by one. */
  lemma P05504Are()
    ensures |BTNCODES_P05504| == BTN_COUNT
    ensures BTNCODES_P05504[0] == 0x1B1B && BTNCODES_P05504[1] == 0x0210
    ensures BTNCODES_P05504[2] == 0x0110 && BTNCODES_P05504[3] == 0x0310
    ensures BTNCODES_P05504[4] == 0x1022 && BTNCODES_P05504[5] == 0x1222
    ensures BTNCODES_P05504[6] == 0x1122 && BTNCODES_P05504[7] == 0x1322
    ensures BTNCODES_P05504[8] == 0x081A && BTNCODES_P05504[9] == 0 && BTNCODES_P05504[10] == 0
  {
  }

  /** The entries of the 54149E table, one by one. */
  lemma Codes54149EAre()
    ensures |BTNCODES_54149E| == BTN_COUNT
    ensures BTNCODES_54149E[0] == 0 && BTNCODES_54149E[1] == 0x80 && BTNCODES_54149E[2] == 0x40
    ensures BTNCODES_54149E[3] == 0x20 && BTNCODES_54149E[4] == 0x10 && BTNCODES_54149E[5] == 0x08
    ensures BTNCODES_54149E[6] == 0x04 && BTNCODES_54149E[7] == 0x02 && BTNCODES_54149E[8] == 0x01
    ensures BTNCODES_54149E[9] == 0x100 && BTNCODES_54149E[10] == 0x200
  {
  }

  /** The PRE2021 table is the TYPE1 controller's default table and the
      54149E table the one the TYPE2 controller sends. */
  lemma TablesMatchDrivers()
    ensures BTNCODES_PRE2021 == CioType1.DEFAULT_BUTTON_CODES
    ensures BTNCODES_54149E == VaCioType2.BUTTON_CODES
  {
  }

  /** The 54149E codes are distinct, so every button reads back from its
      own code. */
  lemma {:induction false} Codes54149ERoundTrip(b: Button)
    requires b < BTN_COUNT
    ensures CioType1.ButtonOfCode(BTNCODES_54149E, CioType1.ButtonCodeOf(BTNCODES_54149E, b)) == b
  {
    Codes54149EAre();
    CioType1.ButtonCodeRoundTrip(BTNCODES_54149E, b);
  }

  /** The codes of the buttons before HYDROJETS are distinct in PRE2021 and
      in P05504. */
  lemma {:induction false} DistinctBelowJets(codes: seq<u16>)
    requires codes == BTNCODES_PRE2021 || codes == BTNCODES_P05504
    ensures |codes| == BTN_COUNT
    ensures forall j, k :: 0 <= j < k < HYDROJETS ==> codes[j] != codes[k]
  {
    if codes == BTNCODES_PRE2021 {
      Pre2021Are();
    } else {
      P05504Are();
    }
  }

  /** In PRE2021 and P05504 POWER and HYDROJETS share 0x0000: every button
      before HYDROJETS reads back from its code, HYDROJETS reads as POWER. */
  lemma {:induction false} PowerShadowsJets(codes: seq<u16>, b: Button)
    requires codes == BTNCODES_PRE2021 || codes == BTNCODES_P05504
    requires b < BTN_COUNT
    ensures codes[POWER] == codes[HYDROJETS] == 0
    ensures b < HYDROJETS ==> CioType1.ButtonOfCode(codes, CioType1.ButtonCodeOf(codes, b)) == b
    ensures CioType1.ButtonOfCode(codes, CioType1.ButtonCodeOf(codes, HYDROJETS)) == POWER
  {
    DistinctBelowJets(codes);
    assert codes[POWER] == codes[HYDROJETS] == 0 by {
      if codes == BTNCODES_PRE2021 {
        Pre2021Are();
      } else {
        P05504Are();
      }
    }
    CioType1.ButtonCodeRoundTrip(codes, POWER);
    if b < HYDROJETS {
      CioType1.ButtonCodeRoundTrip(codes, b);
    }
  }

  /** A 4-wire table carries no button: every code reads as NOBTN. */
  lemma FourWireCodesEmpty(code: u16)
    ensures forall b :: 0 <= b < BTN_COUNT ==> BTNCODES_4W[b] == 0
    ensures CioType1.ButtonOfCode(BTNCODES_4W, code) == NOBTN
  {
    if code != 0 {
      assert code !in BTNCODES_4W;
    }
  }

  /** getButtonCodesForModel(model): 0 and every unlisted number give
      PRE2021, 1 gives 54149E, 7 gives P05504. */
  function ButtonCodesForModel(model: u8): (codes: seq<u16>)
  {
    match model
    case 0 => BTNCODES_PRE2021
    case 1 => BTNCODES_54149E
    case 7 => BTNCODES_P05504
    case _ => BTNCODES_PRE2021
  }

  /** Each table is returned for exactly the numbers listed, so the 4-wire
      tables are never returned. */
  lemma {:induction false} ButtonCodesForModelCases(model: u8)
    ensures |ButtonCodesForModel(model)| == BTN_COUNT
    ensures ButtonCodesForModel(model) == BTNCODES_54149E <==> model == 1
    ensures ButtonCodesForModel(model) == BTNCODES_P05504 <==> model == 7
    ensures ButtonCodesForModel(model) == BTNCODES_PRE2021 <==> model != 1 && model != 7
    ensures ButtonCodesForModel(model) != BTNCODES_4W
  {
    Pre2021Are();
    P05504Are();
    Codes54149EAre();
    assert BTNCODES_4W[0] == 0;
    assert BTNCODES_PRE2021[1] != BTNCODES_P05504[1];
  }

  /** `Model4WireConfig`. */
  datatype Model4WireConfig = Model4WireConfig(heatBitmask1: bv8, heatBitmask2: bv8,
                                               pumpBitmask: bv8, bubblesBitmask: bv8,
                                               jetsBitmask: bv8, hasJets: bool, hasAir: bool)

  const CONFIG_4W_54123: Model4WireConfig := Model4WireConfig(0x02, 0x08, 0x04, 0x10, 0x00, false, false)
  const CONFIG_4W_54138: Model4WireConfig := Model4WireConfig(0x30, 0x40, 0x04, 0x08, 0x80, true, true)
  const CONFIG_4W_54144: Model4WireConfig := Model4WireConfig(0x30, 0x40, 0x04, 0x08, 0x80, true, false)
  const CONFIG_4W_54154: Model4WireConfig := Model4WireConfig(0x02, 0x08, 0x04, 0x10, 0x00, false, false)
  const CONFIG_4W_54173: Model4WireConfig := Model4WireConfig(0x30, 0x40, 0x04, 0x08, 0x80, true, true)

  /** The features of the 6-wire models. */
  const PRE2021_HAS_JETS: bool := false
  const PRE2021_HAS_AIR: bool := true
  const P05504_HAS_JETS: bool := false
  const P05504_HAS_AIR: bool := true
  const MODEL54149E_HAS_JETS: bool := true
  const MODEL54149E_HAS_AIR: bool := true

  /** get4WireConfigForModel(model): 2 to 6 are 54123, 54138, 54144, 54154
      and 54173; every other number gives 54154. */
  function FourWireConfigForModel(model: u8): Model4WireConfig
  {
    match model
    case 2 => CONFIG_4W_54123
    case 3 => CONFIG_4W_54138
    case 4 => CONFIG_4W_54144
    case 5 => CONFIG_4W_54154
    case 6 => CONFIG_4W_54173
    case _ => CONFIG_4W_54154
  }

  /** The masks of a configuration are pairwise disjoint, and the jets mask
      is zero exactly when the model has no jets. */
  predicate WellFormed(c: Model4WireConfig)
  {
    c.heatBitmask1 & c.heatBitmask2 == 0 && c.heatBitmask1 & c.pumpBitmask == 0 &&
    c.heatBitmask1 & c.bubblesBitmask == 0 && c.heatBitmask1 & c.jetsBitmask == 0 &&
    c.heatBitmask2 & c.pumpBitmask == 0 && c.heatBitmask2 & c.bubblesBitmask == 0 &&
    c.heatBitmask2 & c.jetsBitmask == 0 && c.pumpBitmask & c.bubblesBitmask == 0 &&
    c.pumpBitmask & c.jetsBitmask == 0 && c.bubblesBitmask & c.jetsBitmask == 0 &&
    (c.jetsBitmask == 0 <==> !c.hasJets)
  }

  /** Every configuration the lookup can return is well formed, and the
      models with jets are exactly 3, 4 and 6. */
  lemma ConfigsWellFormed(model: u8)
    ensures WellFormed(FourWireConfigForModel(model))
    ensures FourWireConfigForModel(model).hasJets <==> model in {3, 4, 6}
  {
  }

  /** The masks here are not the 4-wire driver's: for 54123 the pump is 0x04
      and the bubbles 0x10 where the driver uses 0x10 and 0x20, and 54123 has
      no air here but has it there; the heater masks agree. */
  lemma MasksDifferFromDriver()
    ensures FourWireConfigForModel(2).pumpBitmask != Cio4WModel.Model4W.M54123.PumpBitmask()
    ensures FourWireConfigForModel(2).bubblesBitmask != Cio4WModel.Model4W.M54123.BubblesBitmask()
    ensures FourWireConfigForModel(2).hasAir != Cio4WModel.Model4W.M54123.HasAir()
    ensures FourWireConfigForModel(2).heatBitmask1 == Cio4WModel.Model4W.M54123.HeatBitmask1()
    ensures FourWireConfigForModel(2).heatBitmask2 == Cio4WModel.Model4W.M54123.HeatBitmask2()
  {
  }
}
