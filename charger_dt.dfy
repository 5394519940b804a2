/**
 * axp_charger_dt_parse (axp-charger-dt.c): filling the shared AXP
 * configuration record from the PMU's device-tree node.
 *
 * Every field of axp_config_info is a u32 named like the property it is
 * read from.  A node that is not available only clears pmu_used and fails
 * with -EPERM.  Otherwise pmu_used becomes 1 and each property is read in
 * turn: a missing property gives the field its default, a present one is
 * stored as read, and five fields are then multiplied by 1000 (in u32
 * arithmetic).  The source spells the 97 reads out one after another; the
 * model performs the same reads, in the same order, by their position.
 */
module ChargerDt {
  import opened Common

  /**
   * A field of axp_config_info.  pmu_used is field 0; the others are
   * numbered 1 .. 97 in the order the parse reads them.
   */
  type Field = nat

  const PmuUsed: Field := 0
  const PmuBatteryRdc: Field := 1
  const PmuBatteryCap: Field := 2
  const PmuBatdeten: Field := 3
  const PmuChgIcTemp: Field := 4
  const PmuRuntimeChgcur: Field := 5
  const PmuSuspendChgcur: Field := 6
  const PmuShutdownChgcur: Field := 7
  const PmuInitChgvol: Field := 8
  const PmuInitChgendRate: Field := 9
  const PmuInitChgEnabled: Field := 10
  const PmuInitBcEn: Field := 11
  const PmuInitAdcFreq: Field := 12
  const PmuInitAdctsFreq: Field := 13
  const PmuInitChgPretime: Field := 14
  const PmuInitChgCsttime: Field := 15
  const PmuBattCapCorrect: Field := 16
  const PmuChgEndOnEn: Field := 17
  const OcvCoulumb100: Field := 18
  const PmuBatPara1: Field := 19
  const PmuBatPara2: Field := 20
  const PmuBatPara3: Field := 21
  const PmuBatPara4: Field := 22
  const PmuBatPara5: Field := 23
  const PmuBatPara6: Field := 24
  const PmuBatPara7: Field := 25
  const PmuBatPara8: Field := 26
  const PmuBatPara9: Field := 27
  const PmuBatPara10: Field := 28
  const PmuBatPara11: Field := 29
  const PmuBatPara12: Field := 30
  const PmuBatPara13: Field := 31
  const PmuBatPara14: Field := 32
  const PmuBatPara15: Field := 33
  const PmuBatPara16: Field := 34
  const PmuBatPara17: Field := 35
  const PmuBatPara18: Field := 36
  const PmuBatPara19: Field := 37
  const PmuBatPara20: Field := 38
  const PmuBatPara21: Field := 39
  const PmuBatPara22: Field := 40
  const PmuBatPara23: Field := 41
  const PmuBatPara24: Field := 42
  const PmuBatPara25: Field := 43
  const PmuBatPara26: Field := 44
  const PmuBatPara27: Field := 45
  const PmuBatPara28: Field := 46
  const PmuBatPara29: Field := 47
  const PmuBatPara30: Field := 48
  const PmuBatPara31: Field := 49
  const PmuBatPara32: Field := 50
  const PmuAcVol: Field := 51
  const PmuUsbpcVol: Field := 52
  const PmuAcCur: Field := 53
  const PmuUsbpcCur: Field := 54
  const PmuPwroffVol: Field := 55
  const PmuPwronVol: Field := 56
  const PmuPowkeyOffTime: Field := 57
  const PmuPowkeyOffFunc: Field := 58
  const PmuPowkeyOffEn: Field := 59
  const PmuPowkeyOffDelayTime: Field := 60
  const PmuPowkeyLongTime: Field := 61
  const PmuPwrokTime: Field := 62
  const PmuPowkeyOnTime: Field := 63
  const PmuResetShutdownEn: Field := 64
  const PmuBatteryWarningLevel1: Field := 65
  const PmuBatteryWarningLevel2: Field := 66
  const PmuRestvolAdjustTime: Field := 67
  const PmuOcvCouAdjustTime: Field := 68
  const PmuChgledFunc: Field := 69
  const PmuChgledType: Field := 70
  const PmuVbusenFunc: Field := 71
  const PmuReset: Field := 72
  const PmuIrqWakeup: Field := 73
  const PmuHotShutdown: Field := 74
  const PmuInshort: Field := 75
  const PowerStart: Field := 76
  const PmuBatTempEnable: Field := 77
  const PmuBatChargeLtf: Field := 78
  const PmuBatChargeHtf: Field := 79
  const PmuBatShutdownLtf: Field := 80
  const PmuBatShutdownHtf: Field := 81
  const PmuBatTempPara1: Field := 82
  const PmuBatTempPara2: Field := 83
  const PmuBatTempPara3: Field := 84
  const PmuBatTempPara4: Field := 85
  const PmuBatTempPara5: Field := 86
  const PmuBatTempPara6: Field := 87
  const PmuBatTempPara7: Field := 88
  const PmuBatTempPara8: Field := 89
  const PmuBatTempPara9: Field := 90
  const PmuBatTempPara10: Field := 91
  const PmuBatTempPara11: Field := 92
  const PmuBatTempPara12: Field := 93
  const PmuBatTempPara13: Field := 94
  const PmuBatTempPara14: Field := 95
  const PmuBatTempPara15: Field := 96
  const PmuBatTempPara16: Field := 97


  /** The number of properties read. */
  const Reads: nat := 97

  /** The record: fields of the static struct that were never set read as 0. */
  type Config = map<Field, nat>

  function Get(c: Config, f: Field): nat
  {
    if f in c then c[f] else 0
  }

  /**
   * The device-tree node: whether it is available, and its u32 properties.
   * Each property has the name of the field it is read into, so the
   * properties are keyed by field.
   */
  datatype Node = Node(available: bool, props: map<Field, nat>)

  /** The value a field gets when its property is missing (before scaling). */
  function Default(f: Field): nat
  {
    if f == PmuBatteryRdc then 100
    else if f == PmuBatteryCap then 4000
    else if f == PmuBatdeten then 1
    else if f == PmuRuntimeChgcur then 300
    else if f == PmuSuspendChgcur then 1200
    else if f == PmuShutdownChgcur then 1200
    else if f == PmuInitChgvol then 4200
    else if f == PmuInitChgendRate then 10
    else if f == PmuInitChgEnabled then 1
    else if f == PmuInitAdcFreq then 25
    else if f == PmuInitAdctsFreq then 100
    else if f == PmuInitChgPretime then 50
    else if f == PmuInitChgCsttime then 480
    else if f == PmuBattCapCorrect then 1
    else if f == PmuBatPara9 then 4
    else if f == PmuBatPara10 then 5
    else if f == PmuBatPara11 then 6
    else if f == PmuBatPara12 then 7
    else if f == PmuBatPara13 then 10
    else if f == PmuBatPara14 then 13
    else if f == PmuBatPara15 then 26
    else if f == PmuBatPara16 then 36
    else if f == PmuBatPara17 then 41
    else if f == PmuBatPara18 then 46
    else if f == PmuBatPara19 then 50
    else if f == PmuBatPara20 then 53
    else if f == PmuBatPara21 then 57
    else if f == PmuBatPara22 then 61
    else if f == PmuBatPara23 then 67
    else if f == PmuBatPara24 then 73
    else if f == PmuBatPara25 then 79
    else if f == PmuBatPara26 then 84
    else if f == PmuBatPara27 then 88
    else if f == PmuBatPara28 then 92
    else if f == PmuBatPara29 then 94
    else if f == PmuBatPara30 then 96
    else if f == PmuBatPara31 then 98
    else if f == PmuBatPara32 then 100
    else if f == PmuAcVol then 4400
    else if f == PmuUsbpcVol then 4400
    else if f == PmuPwroffVol then 3300
    else if f == PmuPwronVol then 2900
    else if f == PmuPowkeyOffTime then 6000
    else if f == PmuPowkeyOffEn then 1
    else if f == PmuPowkeyLongTime then 1500
    else if f == PmuPwrokTime then 64
    else if f == PmuPowkeyOnTime then 1000
    else if f == PmuBatteryWarningLevel1 then 15
    else if f == PmuRestvolAdjustTime then 30
    else if f == PmuOcvCouAdjustTime then 60
    else if f == PmuVbusenFunc then 1
    else if f == PmuHotShutdown then 1
    else if f == PmuBatChargeLtf then 165
    else if f == PmuBatChargeHtf then 31
    else if f == PmuBatShutdownLtf then 252
    else if f == PmuBatShutdownHtf then 22
    else 0
  }

  /** The fields multiplied by 1000 after the read (mA to uA, mV to uV). */
  predicate Scaled(f: Field)
  {
    f == PmuRuntimeChgcur || f == PmuSuspendChgcur || f == PmuShutdownChgcur || f == PmuInitChgvol || f == PmuPwroffVol
  }

  /** What the parse stores in field f (a field other than pmu_used). */
  function Value(node: Node, f: Field): nat
  {
    var v := if f in node.props then node.props[f] else Default(f);
    if Scaled(f) then U32(v * 1000) else v
  }

  /** The record after the first k reads, one after the other, starting from c. */
  function Fill(c: Config, node: Node, k: nat): Config
  {
    if k == 0 then c else Fill(c, node, k - 1)[k := Value(node, k)]
  }

  /** After the first k reads, a field that was read holds its value and every other keeps its old one. */
  lemma {:induction false} FillLookup(c: Config, node: Node, k: nat, f: Field)
    ensures 1 <= f <= k ==> Get(Fill(c, node, k), f) == Value(node, f)
    ensures f == 0 || f > k ==> Get(Fill(c, node, k), f) == Get(c, f)
  {
    if k > 0 {
      FillLookup(c, node, k - 1, f);
      GetUpdate(Fill(c, node, k - 1), k, Value(node, k), f);
    }
  }

  /** Reading a record after one field was stored. */
  lemma GetUpdate(c: Config, k: Field, v: nat, f: Field)
    ensures Get(c[k := v], f) == if f == k then v else Get(c, f)
  {
  }

  /** The shared configuration record and the parse that fills it. */
  class AxpConfig {
    var values: Config

    /** A static struct starts out all zero. */
    constructor ()
      ensures values == map[]
    {
      values := map[];
    }

    /**
     * axp_charger_dt_parse: -EPERM with pmu_used = 0 for a node that is not
     * available; otherwise 0, pmu_used = 1 and every field read in order.
     */
    method DtParse(node: Node) returns (ret: int)
      modifies this
      ensures !node.available ==> ret == -EPERM && values == old(values)[PmuUsed := 0]
      ensures node.available ==> ret == 0 && values == Fill(old(values)[PmuUsed := 1], node, Reads)
    {
      if !node.available {
        values := values[PmuUsed := 0];
        return -EPERM;
      }
      values := values[PmuUsed := 1];
      var start := values;
      var k := 0;
      while k < Reads
        invariant 0 <= k <= Reads
        invariant values == Fill(start, node, k)
      {
        k := k + 1;
        values := values[k := Value(node, k)];
      }
      ret := 0;
    }
  }

  /**
   * The record after a successful parse: pmu_used is 1, every read field
   * holds what the node gives for it whatever the record held before, and
   * nothing else changes.
   */
  lemma ParsedField(c: Config, node: Node, f: Field)
    ensures var p := Fill(c[PmuUsed := 1], node, Reads);
      Get(p, f) == if f == PmuUsed then 1 else if f <= Reads then Value(node, f) else Get(c, f)
  {
    FillLookup(c[PmuUsed := 1], node, Reads, f);
  }

  /** A property that is present is stored as read, scaled by 1000 (mod 2^32) for the scaled fields. */
  lemma PresentStored(node: Node, f: Field)
    requires f in node.props
    ensures !Scaled(f) ==> Value(node, f) == node.props[f]
    ensures Scaled(f) ==> Value(node, f) == (node.props[f] * 1000) % TWO32
  {
  }

  /** Missing properties: the defaults of the battery and power-key fields. */
  lemma MissingDefaults(node: Node)
    requires node.props == map[]
    ensures Value(node, PmuBatteryRdc) == 100 && Value(node, PmuBatteryCap) == 4000
    ensures Value(node, PmuPowkeyLongTime) == 1500 && Value(node, PmuPwrokTime) == 64
    ensures Value(node, PmuPowkeyOffTime) == 6000 && Value(node, PmuPowkeyOnTime) == 1000
  {
  }

  /** Missing properties: the scaled fields end as 1000 times their default; pwron_vol is not scaled. */
  lemma MissingScaled(node: Node)
    requires node.props == map[]
    ensures Value(node, PmuRuntimeChgcur) == 300000
    ensures Value(node, PmuSuspendChgcur) == 1200000 && Value(node, PmuShutdownChgcur) == 1200000
    ensures Value(node, PmuInitChgvol) == 4200000 && Value(node, PmuPwroffVol) == 3300000
    ensures Value(node, PmuPwronVol) == 2900
  {
  }

  /** The OCV table defaults OCVREG0 .. OCVREG1F, for pmu_bat_para1 .. pmu_bat_para32. */
  const OcvDefaults: seq<nat> := [
    0x00, 0x00, 0x00, 0x00, 0x00, 0x00, 0x00, 0x00,
    0x04, 0x05, 0x06, 0x07, 0x0a, 0x0d, 0x1a, 0x24,
    0x29, 0x2e, 0x32, 0x35, 0x39, 0x3d, 0x43, 0x49,
    0x4f, 0x54, 0x58, 0x5c, 0x5e, 0x60, 0x62, 0x64]

  /** pmu_bat_paraN is field PmuBatPara1 + N - 1. */
  function OcvField(i: nat): Field
    requires i < 32
  {
    PmuBatPara1 + i
  }

  /** A missing pmu_bat_paraN takes OCVREG(N-1), unscaled. */
  lemma OcvFieldDefaults(node: Node, i: nat)
    requires i < 32 && OcvField(i) !in node.props
    ensures Value(node, OcvField(i)) == OcvDefaults[i]
  {
  }
}
