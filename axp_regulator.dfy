/**
 * The regulator operations shared by the AXP PMIC drivers
 * (axp-regulator.c): the voltage <-> register-field conversions for
 * single-step and two-step regulators, the table-driven selector
 * operations, and enable / disable / is_enabled on the enable register.
 *
 * Voltages are in microvolts.  The chip description of one regulator is a
 * RegulatorInfo value; its voltage field is `volNbits` bits at bit
 * `volShift` of register `volReg`.
 */
module AxpRegulator {
  import opened Common
  import opened Regmap

  datatype RegulatorInfo = RegulatorInfo(
    id: int,
    minUv: int, maxUv: int, step1Uv: int,
    volReg: int, volShift: nat, volNbits: nat,
    switchUv: int, step2Uv: int, newLevelUv: int,
    dvmEnableReg: int, dvmEnableBit: nat,
    enableReg: int, enableMask: bv8, enableVal: bv8, disableVal: bv8,
    vtable: Option<seq<int>>, nVoltages: nat)

  /** The voltage field lies inside its 8-bit register. */
  predicate FieldOk(info: RegulatorInfo)
  {
    info.volShift + info.volNbits <= 8
  }

  function VolMask(info: RegulatorInfo): bv8
    requires FieldOk(info)
  {
    FieldMask(info.volShift, info.volNbits)
  }

  /** check_range: only min_uv is checked, against [min_uV, max_uV]. */
  function CheckRange(info: RegulatorInfo, minUv: int, maxUv: int): (r: int)
    ensures r == 0 <==> info.minUv <= minUv <= info.maxUv
    ensures r != 0 ==> r == -EINVAL
  {
    if minUv < info.minUv || minUv > info.maxUv then -EINVAL else 0
  }

  /** The requested maximum plays no part in the check. */
  lemma CheckRangeIgnoresMax(info: RegulatorInfo, minUv: int, max1: int, max2: int)
    ensures CheckRange(info, minUv, max1) == CheckRange(info, minUv, max2)
  {
  }

  /** (a + step - 1) / step in C: the number of steps needed to cover a. */
  function CeilSteps(a: int, step: int): int
    requires step != 0
  {
    CDiv(a + step - 1, step)
  }

  /** For a >= 0 and a positive step this is the least k with k * step >= a. */
  lemma CeilStepsLeast(a: int, step: int)
    requires a >= 0 && step > 0
    ensures var k := CeilSteps(a, step);
      k >= 0 && step * k >= a && step * k - step < a
  {
    var k := CeilSteps(a, step);
    assert k == (a + step - 1) / step;
    assert step * k <= a + step - 1 < step * k + step;
  }

  /** Rounding a non-negative amount up to whole positive steps gives a non-negative count. */
  lemma CeilStepsNonneg(a: int, step: int)
    requires a >= 0 && step > 0
    ensures CeilSteps(a, step) >= 0
  {
    assert CeilSteps(a, step) == (a + step - 1) / step;
  }

  /** The two-step branches of axp_set_voltage. */
  predicate TwoStepNew(info: RegulatorInfo, minUv: int)
  {
    info.switchUv != 0 && info.step2Uv != 0 && info.newLevelUv != 0 && minUv > info.switchUv
  }

  predicate TwoStepPlain(info: RegulatorInfo, minUv: int)
  {
    info.switchUv != 0 && info.step2Uv != 0 && minUv > info.switchUv && info.newLevelUv == 0
  }

  /**
   * The u8 `val` that axp_set_voltage hands to axp_regmap_update.  Only
   * the single-step branch shifts it by vol_shift.
   */
  function SetValue(info: RegulatorInfo, minUv: int): bv8
    requires info.step1Uv != 0 && FieldOk(info)
  {
    if TwoStepNew(info, minUv) || TwoStepPlain(info, minUv) then U8(TwoStepVal(info, minUv))
    else U8(CeilSteps(minUv - info.minUv, info.step1Uv)) << info.volShift
  }

  /**
   * The two-step branches of axp_set_voltage, step by step as the C code
   * computes them: every assignment to the u8 `val` keeps its low 8 bits.
   */
  function TwoStepVal(info: RegulatorInfo, minUv: int): (r: int)
    requires info.step1Uv != 0
    ensures 0 <= r < 256
  {
    var v0 := CeilSteps(info.switchUv - info.minUv, info.step1Uv) % 256;
    if TwoStepNew(info, minUv) then
      if minUv <= info.newLevelUv then (v0 + 1) % 256
      else ((v0 + CDiv(minUv - info.newLevelUv, info.step2Uv)) % 256 + 1) % 256
    else if TwoStepPlain(info, minUv) then
      (v0 + CDiv(minUv - info.switchUv, info.step2Uv)) % 256
    else 0
  }

  /** The selector of the two-step branch with a new level, before truncation. */
  function NewLevelIndex(info: RegulatorInfo, minUv: int): int
    requires info.step1Uv != 0 && info.step2Uv != 0
  {
    var v0 := CeilSteps(info.switchUv - info.minUv, info.step1Uv);
    if minUv <= info.newLevelUv then v0 + 1 else v0 + CDiv(minUv - info.newLevelUv, info.step2Uv) + 1
  }

  /** The selector of the two-step branch without a new level, before truncation. */
  function PlainIndex(info: RegulatorInfo, minUv: int): int
    requires info.step1Uv != 0 && info.step2Uv != 0
  {
    CeilSteps(info.switchUv - info.minUv, info.step1Uv) + CDiv(minUv - info.switchUv, info.step2Uv)
  }

  /** The intermediate u8 truncations of the new-level branch lose nothing beyond one final cut. */
  lemma NewLevelVal(info: RegulatorInfo, minUv: int)
    requires info.step1Uv != 0 && TwoStepNew(info, minUv)
    ensures TwoStepVal(info, minUv) == NewLevelIndex(info, minUv) % 256
  {
    var c := CeilSteps(info.switchUv - info.minUv, info.step1Uv);
    if minUv <= info.newLevelUv {
      ModAdd(c, 1);
    } else {
      var d := CDiv(minUv - info.newLevelUv, info.step2Uv);
      ModAdd(c, d);
      ModAdd(c + d, 1);
      assert ((c % 256 + d) % 256 + 1) % 256 == (c + d + 1) % 256;
    }
  }

  /** The intermediate u8 truncations of the plain two-step branch lose nothing beyond one final cut. */
  lemma PlainVal(info: RegulatorInfo, minUv: int)
    requires info.step1Uv != 0 && TwoStepPlain(info, minUv)
    ensures TwoStepVal(info, minUv) == PlainIndex(info, minUv) % 256
  {
    var c := CeilSteps(info.switchUv - info.minUv, info.step1Uv);
    ModAdd(c, CDiv(minUv - info.switchUv, info.step2Uv));
  }

  lemma ModAdd(a: int, b: int)
    ensures (a % 256 + b) % 256 == (a + b) % 256
  {
  }

  /** The voltage a field value stands for (the decoding of axp_get_voltage). */
  function Decode(info: RegulatorInfo, f: bv8): int
  {
    var switchVal := if info.step1Uv != 0 then CeilSteps(info.switchUv - info.minUv, info.step1Uv) else 0;
    var val := f as int;
    if info.switchUv != 0 && info.step2Uv != 0 && val > switchVal && info.newLevelUv != 0 then
      info.newLevelUv + info.step2Uv * ((val - switchVal) % 256)
    else if info.switchUv != 0 && info.step2Uv != 0 && val > switchVal && info.newLevelUv == 0 then
      info.switchUv + info.step2Uv * ((val - switchVal) % 256)
    else
      info.minUv + info.step1Uv * val
  }

  /**
   * axp_set_voltage: a min_uv outside the range gives -EINVAL; otherwise
   * the field is updated, and when DVM is enabled for the regulator the
   * call ends with the result of reading back its voltage register.
   */
  function SetVoltage(bus: Bus, info: RegulatorInfo, minUv: int, maxUv: int): (r: (Bus, int))
    requires info.step1Uv != 0 && FieldOk(info)
    ensures CheckRange(info, minUv, maxUv) != 0 ==> r == (bus, -EINVAL)
    ensures CheckRange(info, minUv, maxUv) == 0 ==>
      r.0 == Update(bus, info.volReg, SetValue(info, minUv), VolMask(info), false).0
    ensures r.1 == 0 || r.1 == -EINVAL || r.1 == bus.err
  {
    if CheckRange(info, minUv, maxUv) != 0 then (bus, -EINVAL)
    else
      var u := Update(bus, info.volReg, SetValue(info, minUv), VolMask(info), false);
      if u.1 != 0 then u
      else if info.dvmEnableReg == 0 then u
      else
        match Read(u.0, info.dvmEnableReg)
        case ReadErr(e) => (u.0, e)
        case ReadOk(v) =>
          if AnySet(v, U8(Pow2(info.dvmEnableBit))) then (u.0, DvmWait(u.0, info)) else u
  }

  /**
   * The DVM wait re-reads the voltage register until bit 7 is set.  The
   * hardware sets it; the model keeps only how the wait ends: 0, or the
   * error of a failing read.
   */
  function DvmWait(bus: Bus, info: RegulatorInfo): (r: int)
    ensures r == 0 || r == bus.err
  {
    match Read(bus, info.volReg)
    case ReadErr(e) => e
    case ReadOk(_) => 0
  }

  function Pow2(k: nat): (p: nat)
    ensures p >= 1
  {
    if k == 0 then 1 else 2 * Pow2(k - 1)
  }

  /** axp_get_voltage: the read error, or the voltage of the field. */
  function GetVoltage(bus: Bus, info: RegulatorInfo): (r: int)
    requires FieldOk(info)
    ensures Addr(info.volReg) in bus.faulty ==> r == bus.err
    ensures Addr(info.volReg) !in bus.faulty ==>
      r == Decode(info, FieldOf(Reg(bus, Addr(info.volReg)), info.volShift, info.volNbits))
  {
    match Read(bus, info.volReg)
    case ReadErr(e) => e
    case ReadOk(v) => Decode(info, FieldOf(v, info.volShift, info.volNbits))
  }

  /**
   * Whatever the branch, when axp_set_voltage computes the field value f
   * shifted into place and f fits the field, axp_get_voltage afterwards
   * decodes f.
   */
  lemma SetThenGet(bus: Bus, info: RegulatorInfo, v: int, maxUv: int, f: bv8)
    requires FieldOk(info) && info.step1Uv != 0 && info.minUv <= v <= info.maxUv
    requires Fits(f, info.volNbits) && SetValue(info, v) == f << info.volShift
    requires Addr(info.volReg) !in bus.faulty
    ensures GetVoltage(SetVoltage(bus, info, v, maxUv).0, info) == Decode(info, f)
  {
    UpdateAndRead(bus, info, f);
  }

  /** Updating the field with k << shift (k fitting) leaves k in the field and the register reachable. */
  lemma UpdateAndRead(bus: Bus, info: RegulatorInfo, k: bv8)
    requires FieldOk(info) && Fits(k, info.volNbits)
    requires Addr(info.volReg) !in bus.faulty
    ensures var b := Update(bus, info.volReg, k << info.volShift, VolMask(info), false).0;
      Addr(info.volReg) !in b.faulty
      && FieldOf(Reg(b, Addr(info.volReg)), info.volShift, info.volNbits) == k
  {
    FitsWithin(k, info.volShift, info.volNbits);
    UpdateEffect(bus, info.volReg, k << info.volShift, VolMask(info), false);
    var b := Update(bus, info.volReg, k << info.volShift, VolMask(info), false).0;
    FieldReadBack(Reg(b, Addr(info.volReg)), k, info.volShift, info.volNbits);
  }

  /**
   * A single-step regulator (switch_uV == 0) set to v whose selector fits its
   * field reads back the least step voltage at or above v: v <= r < v + step1_uV.
   */
  lemma SingleStepRoundTrip(bus: Bus, info: RegulatorInfo, v: int, maxUv: int)
    requires FieldOk(info) && info.step1Uv > 0 && info.switchUv == 0
    requires info.minUv <= v <= info.maxUv
    requires var k := CeilSteps(v - info.minUv, info.step1Uv); k < 256 && Fits(U8(k), info.volNbits)
    requires Addr(info.volReg) !in bus.faulty
    ensures var r := GetVoltage(SetVoltage(bus, info, v, maxUv).0, info);
      v <= r < v + info.step1Uv
  {
    var k := CeilSteps(v - info.minUv, info.step1Uv);
    SetThenGet(bus, info, v, maxUv, U8(k));
    SingleStepDecode(info, v);
  }

  /** The pure half of the single-step round trip. */
  lemma SingleStepDecode(info: RegulatorInfo, v: int)
    requires info.step1Uv > 0 && info.switchUv == 0 && info.minUv <= v
    requires CeilSteps(v - info.minUv, info.step1Uv) < 256
    ensures var d := Decode(info, U8(CeilSteps(v - info.minUv, info.step1Uv)));
      v <= d < v + info.step1Uv
  {
    var k := CeilSteps(v - info.minUv, info.step1Uv);
    CeilStepsLeast(v - info.minUv, info.step1Uv);
    U8Small(k);
    assert Decode(info, U8(k)) == info.minUv + info.step1Uv * k;
  }

  /** The new-level branch of axp_set_voltage, with a selector that fits a byte. */
  predicate NewLevelCase(info: RegulatorInfo, v: int)
  {
    info.step1Uv > 0 && info.step2Uv > 0 && TwoStepNew(info, v) && info.switchUv >= info.minUv
    && NewLevelIndex(info, v) < 256
  }

  /** The plain two-step branch of axp_set_voltage, with a selector that fits a byte. */
  predicate PlainCase(info: RegulatorInfo, v: int)
  {
    info.step1Uv > 0 && info.step2Uv > 0 && TwoStepPlain(info, v) && info.switchUv >= info.minUv
    && PlainIndex(info, v) < 256
  }

  /**
   * Two-step regulator with a new level, field at bit 0 (the two-step
   * branches do not shift): a voltage above the switch point reads back as
   * the new level plus whole steps, strictly above v and at most one step
   * above v; a request at or below the new level reads back as one step
   * above it.
   */
  lemma NewLevelRoundTrip(bus: Bus, info: RegulatorInfo, v: int, maxUv: int)
    requires FieldOk(info) && info.volShift == 0 && NewLevelCase(info, v) && info.minUv <= v <= info.maxUv
    requires Fits(U8(NewLevelIndex(info, v)), info.volNbits) && Addr(info.volReg) !in bus.faulty
    ensures NewLevelReadBack(info, v, GetVoltage(SetVoltage(bus, info, v, maxUv).0, info))
  {
    NewLevelSet(info, v);
    SetThenGet(bus, info, v, maxUv, U8(NewLevelIndex(info, v)));
    NewLevelDecode(info, v);
  }

  /** The new-level branch writes its untruncated selector when that fits a byte. */
  lemma NewLevelSet(info: RegulatorInfo, v: int)
    requires FieldOk(info) && info.volShift == 0 && NewLevelCase(info, v)
    ensures SetValue(info, v) == U8(NewLevelIndex(info, v)) << info.volShift
  {
    var k := NewLevelIndex(info, v);
    var q := if v <= info.newLevelUv then 0 else CDiv(v - info.newLevelUv, info.step2Uv);
    NewLevelIndexSplit(info, v, q);
    NewLevelVal(info, v);
    assert TwoStepVal(info, v) == k;
    ShiftZero(U8(k));
  }

  /** The plain two-step branch writes its untruncated selector when that fits a byte. */
  lemma PlainSet(info: RegulatorInfo, v: int)
    requires FieldOk(info) && info.volShift == 0 && PlainCase(info, v)
    ensures SetValue(info, v) == U8(PlainIndex(info, v)) << info.volShift
  {
    var k := PlainIndex(info, v);
    CeilStepsNonneg(info.switchUv - info.minUv, info.step1Uv);
    assert CDiv(v - info.switchUv, info.step2Uv) >= 0;
    assert 0 <= k < 256;
    PlainVal(info, v);
    assert TwoStepVal(info, v) == k;
    assert !TwoStepNew(info, v) && TwoStepPlain(info, v);
    assert SetValue(info, v) == U8(k);
    ShiftZero(U8(k));
  }

  lemma ShiftZero(b: bv8)
    ensures b << 0 == b
  {
  }

  /**
   * What a new-level regulator set to v reads back: one step above the new
   * level for v at or below it, otherwise above v by at most one step.
   */
  predicate NewLevelReadBack(info: RegulatorInfo, v: int, r: int)
  {
    if v <= info.newLevelUv then r == info.newLevelUv + info.step2Uv
    else v < r <= v + info.step2Uv
  }

  /** The pure half of the new-level round trip. */
  lemma NewLevelDecode(info: RegulatorInfo, v: int)
    requires NewLevelCase(info, v)
    ensures NewLevelReadBack(info, v, Decode(info, U8(NewLevelIndex(info, v))))
  {
    var q := if v <= info.newLevelUv then 0 else CDiv(v - info.newLevelUv, info.step2Uv);
    NewLevelField(info, v, q);
    NewLevelSteps(v, info.newLevelUv, info.step2Uv, q);
  }

  /** The field the new-level branch writes decodes to q + 1 second steps above the new level. */
  lemma NewLevelField(info: RegulatorInfo, v: int, q: int)
    requires NewLevelCase(info, v)
    requires q == if v <= info.newLevelUv then 0 else CDiv(v - info.newLevelUv, info.step2Uv)
    ensures Decode(info, U8(NewLevelIndex(info, v))) == info.newLevelUv + info.step2Uv * (q + 1)
  {
    NewLevelIndexSplit(info, v, q);
    DecodeNewLevel(info, NewLevelIndex(info, v), q);
  }

  /** The new-level selector is the switch selector, q second steps, and one more. */
  lemma NewLevelIndexSplit(info: RegulatorInfo, v: int, q: int)
    requires NewLevelCase(info, v)
    requires q == if v <= info.newLevelUv then 0 else CDiv(v - info.newLevelUv, info.step2Uv)
    ensures var c := CeilSteps(info.switchUv - info.minUv, info.step1Uv);
      0 <= c && 0 <= q && NewLevelIndex(info, v) == c + q + 1
  {
    CeilStepsNonneg(info.switchUv - info.minUv, info.step1Uv);
  }

  /** Above the switch point of a regulator with a new level, the field counts second steps from the new level. */
  lemma DecodeNewLevel(info: RegulatorInfo, k: int, q: int)
    requires info.step1Uv > 0 && info.switchUv != 0 && info.step2Uv != 0 && info.newLevelUv != 0
    requires var c := CeilSteps(info.switchUv - info.minUv, info.step1Uv);
      0 <= c && 0 <= q && k == c + q + 1 && k < 256
    ensures Decode(info, U8(k)) == info.newLevelUv + info.step2Uv * (q + 1)
  {
    U8Small(k);
    var c := CeilSteps(info.switchUv - info.minUv, info.step1Uv);
    assert (U8(k) as int - c) % 256 == q + 1;
  }

  /** One second step above the rounded-up request lands above it by at most one step. */
  lemma NewLevelSteps(v: int, level: int, step: int, q: int)
    requires step > 0
    requires q == if v <= level then 0 else CDiv(v - level, step)
    ensures var d := level + step * (q + 1);
      if v <= level then d == level + step else v < d <= v + step
  {
    MulSucc(step, q);
    if v > level {
      DivBounds(v - level, step);
    }
  }

  lemma DivBounds(d: int, step: int)
    requires d >= 0 && step > 0
    ensures var q := CDiv(d, step); step * q <= d < step * q + step
    ensures CDiv(d, step) == 0 <==> d < step
  {
    var q, r := d / step, d % step;
    assert CDiv(d, step) == q;
    assert d == step * q + r && 0 <= r < step;
    if q >= 1 {
      assert step * q >= step * 1;
    }
  }

  lemma MulSucc(a: int, q: int)
    ensures a * (q + 1) == a * q + a
  {
  }

  /**
   * Two-step regulator without a new level, field at bit 0: above the
   * switch point the requested voltage is rounded DOWN to a step, so the
   * regulator may deliver less than min_uv (at most one step less); a
   * request less than one step above the switch point reads back as the
   * last single-step voltage.
   */
  lemma PlainRoundTrip(bus: Bus, info: RegulatorInfo, v: int, maxUv: int)
    requires FieldOk(info) && info.volShift == 0 && PlainCase(info, v) && info.minUv <= v <= info.maxUv
    requires Fits(U8(PlainIndex(info, v)), info.volNbits) && Addr(info.volReg) !in bus.faulty
    ensures PlainReadBack(info, v, GetVoltage(SetVoltage(bus, info, v, maxUv).0, info))
  {
    PlainSet(info, v);
    SetThenGet(bus, info, v, maxUv, U8(PlainIndex(info, v)));
    PlainDecode(info, v);
  }

  /**
   * What a plain two-step regulator set to v reads back: the last
   * single-step voltage for v less than one step above the switch point,
   * otherwise below v by less than one step.
   */
  predicate PlainReadBack(info: RegulatorInfo, v: int, r: int)
    requires info.step1Uv != 0
  {
    if v < info.switchUv + info.step2Uv
    then r == info.minUv + info.step1Uv * CeilSteps(info.switchUv - info.minUv, info.step1Uv)
    else v - info.step2Uv < r <= v
  }

  /** The pure half of the plain two-step round trip. */
  lemma PlainDecode(info: RegulatorInfo, v: int)
    requires PlainCase(info, v)
    ensures PlainReadBack(info, v, Decode(info, U8(PlainIndex(info, v))))
  {
    var q := CDiv(v - info.switchUv, info.step2Uv);
    assert q >= 0 && PlainIndex(info, v) == CeilSteps(info.switchUv - info.minUv, info.step1Uv) + q;
    CeilStepsNonneg(info.switchUv - info.minUv, info.step1Uv);
    DecodePlain(info, PlainIndex(info, v), q);
    PlainReadBackOf(info, v, q, Decode(info, U8(PlainIndex(info, v))));
  }

  /** The voltage DecodePlain gives for q = CDiv(v - switch_uV, step2_uV) is what PlainReadBack allows. */
  lemma PlainReadBackOf(info: RegulatorInfo, v: int, q: int, r: int)
    requires info.step1Uv > 0 && info.step2Uv > 0 && v > info.switchUv
    requires q == CDiv(v - info.switchUv, info.step2Uv)
    requires r == if q == 0 then info.minUv + info.step1Uv * CeilSteps(info.switchUv - info.minUv, info.step1Uv)
      else info.switchUv + info.step2Uv * q
    ensures PlainReadBack(info, v, r)
  {
    PlainSteps(v, info.switchUv, info.step2Uv, q);
  }

  /** Below the switch selector the field counts first steps; above it, second steps from the switch point. */
  lemma DecodePlain(info: RegulatorInfo, k: int, q: int)
    requires info.step1Uv > 0 && info.switchUv != 0 && info.step2Uv != 0 && info.newLevelUv == 0
    requires var c := CeilSteps(info.switchUv - info.minUv, info.step1Uv);
      0 <= c && 0 <= q && k == c + q && k < 256
    ensures Decode(info, U8(k)) ==
      if q == 0 then info.minUv + info.step1Uv * CeilSteps(info.switchUv - info.minUv, info.step1Uv)
      else info.switchUv + info.step2Uv * q
  {
    U8Small(k);
    var c := CeilSteps(info.switchUv - info.minUv, info.step1Uv);
    assert (U8(k) as int - c) % 256 == q;
  }

  /** Rounding the excess over the switch point down to whole steps loses less than one step. */
  lemma PlainSteps(v: int, base: int, step: int, q: int)
    requires step > 0 && v > base && q == CDiv(v - base, step)
    ensures q == 0 <==> v < base + step
    ensures q != 0 ==> v - step < base + step * q <= v
  {
    DivBounds(v - base, step);
  }

  /** The two-step branches of axp_list_voltage. */
  predicate ListTwoStep(info: RegulatorInfo, ret: int)
  {
    info.switchUv != 0 && info.step2Uv != 0 && ret > info.switchUv
  }

  /**
   * axp_list_voltage: min_uV + step1_uV * selector in unsigned arithmetic
   * cast to s32; above the switch point the selector is rebased
   * (unsigned) by (switch_uV - min_uV) / step1_uV and stepped by step2_uV
   * from the new level or the switch point; anything above max_uV is -EINVAL.
   */
  function ListVoltage(info: RegulatorInfo, sel: nat): (r: int)
    requires info.step1Uv != 0 || !ListTwoStep(info, S32(info.minUv + info.step1Uv * sel))
    ensures r == -EINVAL || r <= info.maxUv
  {
    var ret := S32(info.minUv + info.step1Uv * sel);
    var ret' :=
      if ListTwoStep(info, ret) then
        var sel' := U32(sel - CDiv(info.switchUv - info.minUv, info.step1Uv));
        if info.newLevelUv != 0 then S32(info.newLevelUv + info.step2Uv * sel')
        else S32(info.switchUv + info.step2Uv * sel')
      else ret;
    if ret' > info.maxUv then -EINVAL else ret'
  }

  /**
   * For a single-step regulator without wrap-around, list_voltage(sel) is
   * the voltage get_voltage decodes from field value sel, or -EINVAL when
   * that exceeds max_uV.
   */
  lemma ListMatchesDecode(info: RegulatorInfo, sel: nat)
    requires info.switchUv == 0 && sel < 256
    requires -0x8000_0000 <= info.minUv + info.step1Uv * sel < 0x8000_0000
    ensures var d := Decode(info, U8(sel));
      ListVoltage(info, sel) == if d > info.maxUv then -EINVAL else d
  {
    S32Small(info.minUv + info.step1Uv * sel);
    U8Small(sel);
  }

  /** Multiplying by a positive step keeps the order. */
  lemma MulMono(step: int, x: int, y: int)
    requires step > 0 && x <= y
    ensures step * x <= step * y
  {
  }

  /** Euclidean division is unique: a = step * k + r with 0 <= r < step fixes the quotient k. */
  lemma DivUnique(a: int, step: int, k: int, r: int)
    requires step > 0 && 0 <= r < step && a == step * k + r
    ensures a / step == k
  {
    var q, m := a / step, a % step;
    assert a == step * q + m && 0 <= m < step;
    if q > k {
      MulMono(step, k + 1, q);
      MulSucc(step, k);
    } else if q < k {
      MulMono(step, q + 1, k);
      MulSucc(step, q);
    }
  }

  /** The selector at the switch point when it lies on a first-step boundary: ceiling and floor agree. */
  lemma SwitchStep(a: int, step: int)
    requires a >= 0 && step > 0 && a % step == 0
    ensures CeilSteps(a, step) == CDiv(a, step) == a / step
  {
    var k := a / step;
    assert a == step * k;
    DivUnique(a + step - 1, step, k, step - 1);
  }

  /** At or below the switch selector both ends use the first step. */
  lemma ListMatchesDecodeBelow(info: RegulatorInfo, sel: nat, k: int)
    requires info.step1Uv > 0 && info.switchUv == info.minUv + info.step1Uv * k
    requires CeilSteps(info.switchUv - info.minUv, info.step1Uv) == k
    requires sel < 256 && sel <= k
    requires -0x8000_0000 <= info.minUv + info.step1Uv * sel < 0x8000_0000
    ensures var d := Decode(info, U8(sel));
      ListVoltage(info, sel) == if d > info.maxUv then -EINVAL else d
  {
    S32Small(info.minUv + info.step1Uv * sel);
    U8Small(sel);
    MulMono(info.step1Uv, sel, k);
  }

  /** The second-step voltage of rebased selector n: from the new level, or from the switch point. */
  function SecondStep(info: RegulatorInfo, n: int): int
  {
    (if info.newLevelUv != 0 then info.newLevelUv else info.switchUv) + info.step2Uv * n
  }

  /** Above the switch selector list_voltage rebases the selector by k and uses the second step. */
  lemma ListAbove(info: RegulatorInfo, sel: nat, k: int)
    requires info.step1Uv > 0 && info.switchUv == info.minUv + info.step1Uv * k
    requires CDiv(info.switchUv - info.minUv, info.step1Uv) == k
    requires info.switchUv != 0 && info.step2Uv != 0
    requires 0 <= k < sel < 256
    requires -0x8000_0000 <= info.minUv + info.step1Uv * sel < 0x8000_0000
    requires -0x8000_0000 <= SecondStep(info, sel - k) < 0x8000_0000
    ensures ListVoltage(info, sel) == if SecondStep(info, sel - k) > info.maxUv then -EINVAL else SecondStep(info, sel - k)
  {
    S32Small(info.minUv + info.step1Uv * sel);
    assert U32(sel - k) == sel - k;
    MulMono(info.step1Uv, k + 1, sel);
    MulSucc(info.step1Uv, k);
    S32Small(SecondStep(info, sel - k));
  }

  /** Above the switch selector get_voltage rebases the field value by k and uses the second step. */
  lemma DecodeAbove(info: RegulatorInfo, sel: nat, k: int)
    requires info.step1Uv > 0
    requires CeilSteps(info.switchUv - info.minUv, info.step1Uv) == k
    requires info.switchUv != 0 && info.step2Uv != 0
    requires 0 <= k < sel < 256
    ensures Decode(info, U8(sel)) == SecondStep(info, sel - k)
  {
    U8Small(sel);
  }

  /**
   * For a two-step regulator whose switch point lies on a first-step
   * boundary, list_voltage(sel) is again the voltage get_voltage decodes
   * from field value sel, or -EINVAL when that exceeds max_uV: below and
   * at the switch selector both use the first step, above it both rebase
   * the selector and use the second step from the new level or the
   * switch point.
   */
  lemma ListMatchesDecodeTwoStep(info: RegulatorInfo, sel: nat)
    requires info.step1Uv > 0 && info.minUv <= info.switchUv && (info.switchUv - info.minUv) % info.step1Uv == 0
    requires sel < 256
    requires -0x8000_0000 <= info.minUv + info.step1Uv * sel < 0x8000_0000
    requires sel > (info.switchUv - info.minUv) / info.step1Uv ==>
      -0x8000_0000 <= SecondStep(info, sel - (info.switchUv - info.minUv) / info.step1Uv) < 0x8000_0000
    ensures var d := Decode(info, U8(sel));
      ListVoltage(info, sel) == if d > info.maxUv then -EINVAL else d
  {
    var a := info.switchUv - info.minUv;
    var k := a / info.step1Uv;
    SwitchStep(a, info.step1Uv);
    assert a == info.step1Uv * k;
    if sel <= k || info.switchUv == 0 || info.step2Uv == 0 {
      if sel <= k {
        ListMatchesDecodeBelow(info, sel, k);
      } else {
        S32Small(info.minUv + info.step1Uv * sel);
        U8Small(sel);
      }
    } else {
      ListAbove(info, sel, k);
      DecodeAbove(info, sel, k);
    }
  }

  /** When the switch point falls between two first-step values, get_voltage's switch selector is one above the floor. */
  lemma CeilOffStep(a: int, step: int)
    requires a >= 0 && step > 0 && a % step != 0
    ensures CeilSteps(a, step) == a / step + 1 && CDiv(a, step) == a / step
  {
    var q, r := a / step, a % step;
    assert a == step * q + r && 0 < r < step;
    MulSucc(step, q);
    DivUnique(a + step - 1, step, q + 1, r - 1);
  }

  /**
   * When the switch point falls between two first-step values, the two
   * ends part ways at the selector just above it: list_voltage already
   * rebases it to 1 and uses the second step, while get_voltage, which
   * rounds the switch selector up, still decodes it with the first step.
   */
  lemma ListDecodeSplitOffStep(info: RegulatorInfo)
    requires info.step1Uv > 0 && info.minUv <= info.switchUv && (info.switchUv - info.minUv) % info.step1Uv != 0
    requires info.switchUv != 0 && info.step2Uv != 0
    requires (info.switchUv - info.minUv) / info.step1Uv + 1 < 256
    requires -0x8000_0000 <= info.minUv + info.step1Uv * ((info.switchUv - info.minUv) / info.step1Uv + 1) < 0x8000_0000
    requires -0x8000_0000 <= SecondStep(info, 1) < 0x8000_0000
    ensures var sel := (info.switchUv - info.minUv) / info.step1Uv + 1;
      ListVoltage(info, sel) == (if SecondStep(info, 1) > info.maxUv then -EINVAL else SecondStep(info, 1))
      && Decode(info, U8(sel)) == info.minUv + info.step1Uv * sel
  {
    var a := info.switchUv - info.minUv;
    var q := a / info.step1Uv;
    CeilOffStep(a, info.step1Uv);
    assert a < info.step1Uv * (q + 1) by {
      DivBounds(a, info.step1Uv);
      MulSucc(info.step1Uv, q);
    }
    S32Small(info.minUv + info.step1Uv * (q + 1));
    assert U32(q + 1 - q) == 1;
    S32Small(SecondStep(info, 1));
    U8Small(q + 1);
  }

  /** axp_enable / axp_disable: the enable field takes enable_val or disable_val. */
  function Enable(bus: Bus, info: RegulatorInfo): (Bus, int)
  {
    Update(bus, info.enableReg, info.enableVal, info.enableMask, false)
  }

  function Disable(bus: Bus, info: RegulatorInfo): (Bus, int)
  {
    Update(bus, info.enableReg, info.disableVal, info.enableMask, false)
  }

  /** axp_is_enabled: -1 on a read error, 1 when the enable field equals enable_val, else 0. */
  function IsEnabled(bus: Bus, info: RegulatorInfo): (r: int)
    ensures Addr(info.enableReg) in bus.faulty ==> r == -1
    ensures Addr(info.enableReg) !in bus.faulty ==>
      (r == 1 <==> FieldIs(Reg(bus, Addr(info.enableReg)), info.enableMask, info.enableVal))
    ensures r == -1 || r == 0 || r == 1
  {
    match Read(bus, info.enableReg)
    case ReadErr(_) => -1
    case ReadOk(v) => if FieldIs(v, info.enableMask, info.enableVal) then 1 else 0
  }

  /** With enable_val inside the mask, a regulator reports enabled after axp_enable. */
  lemma EnableThenEnabled(bus: Bus, info: RegulatorInfo)
    requires Within(info.enableVal, info.enableMask) && Addr(info.enableReg) !in bus.faulty
    ensures Enable(bus, info).1 == 0 && IsEnabled(Enable(bus, info).0, info) == 1
  {
    UpdateEffect(bus, info.enableReg, info.enableVal, info.enableMask, false);
  }

  /** With disable_val inside the mask and different from enable_val, it reports disabled after axp_disable. */
  lemma DisableThenDisabled(bus: Bus, info: RegulatorInfo)
    requires Within(info.disableVal, info.enableMask) && info.disableVal != info.enableVal
    requires Addr(info.enableReg) !in bus.faulty
    ensures Disable(bus, info).1 == 0 && IsEnabled(Disable(bus, info).0, info) == 0
  {
    UpdateEffect(bus, info.enableReg, info.disableVal, info.enableMask, false);
    var b := Disable(bus, info).0;
    FieldIsUnique(Reg(b, Addr(info.enableReg)), info.enableMask, info.disableVal, info.enableVal);
  }

  lemma FieldIsUnique(v: bv8, mask: bv8, a: bv8, b: bv8)
    requires FieldIs(v, mask, a) && a != b
    ensures !FieldIs(v, mask, b)
  {
  }

  /** axp_enable_time_regulator: 400 us for ids below 40, 1200 us otherwise. */
  function EnableTime(info: RegulatorInfo): (r: int)
    ensures r == 400 <==> info.id < 40
    ensures r == 1200 <==> info.id >= 40
  {
    if 40 > info.id then 400 else 1200
  }

  /** axp_set_voltage_sel: the selector shifted into the field (low 8 bits of selector << vol_shift). */
  function SetVoltageSel(bus: Bus, info: RegulatorInfo, sel: nat): (Bus, int)
    requires FieldOk(info)
  {
    Update(bus, info.volReg, U8(sel) << info.volShift, VolMask(info), false)
  }

  /** axp_get_voltage_sel: the read error, or the field value. */
  function GetVoltageSel(bus: Bus, info: RegulatorInfo): (r: int)
    requires FieldOk(info)
    ensures Addr(info.volReg) in bus.faulty ==> r == bus.err
    ensures Addr(info.volReg) !in bus.faulty ==> 0 <= r < 256
  {
    match Read(bus, info.volReg)
    case ReadErr(e) => e
    case ReadOk(v) => FieldOf(v, info.volShift, info.volNbits) as int
  }

  /** get_voltage_sel after set_voltage_sel(s) gives back s when s fits the field. */
  lemma VoltageSelRoundTrip(bus: Bus, info: RegulatorInfo, sel: nat)
    requires FieldOk(info) && sel < 256 && Fits(U8(sel), info.volNbits)
    requires Addr(info.volReg) !in bus.faulty
    ensures SetVoltageSel(bus, info, sel).1 == 0
    ensures GetVoltageSel(SetVoltageSel(bus, info, sel).0, info) == sel
  {
    U8Small(sel);
    UpdateAndRead(bus, info, U8(sel));
  }

  /** axp_list_voltage_sel: vtable[index] * 1000 inside the table, else -EINVAL. */
  function ListVoltageSel(info: RegulatorInfo, index: nat): (r: int)
    requires info.vtable.Some? ==> |info.vtable.value| >= info.nVoltages
    ensures info.vtable.None? || index >= info.nVoltages ==> r == -EINVAL
    ensures info.vtable.Some? && index < info.nVoltages ==> r == info.vtable.value[index] * 1000
  {
    if info.vtable.Some? && index < info.nVoltages then info.vtable.value[index] * 1000 else -EINVAL
  }
}
