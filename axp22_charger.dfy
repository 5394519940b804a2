/**
 * The AXP22 charger (axp22/axp22-charger.c): the USB input limits, the
 * charge current and voltage codes, the battery readings, and the register
 * programming that axp22_charger_init does from the parsed configuration.
 *
 * The register addresses AXP22_CHARGE_VBUS ... AXP22_BATCAP1 and the ADC
 * enable bits come from axp22-charger.h, which is not part of this model;
 * they are the parameters `Axp22Regs`.  Literal addresses of the source
 * (0x8F, 0x32, 0x34, 0xB8, 0xC0, 0xE0, 0xE2) are written as they are.
 * The getters that go through axp_regmap_reads take the bytes that call
 * leaves in the buffer as parameters.
 */
module Axp22Charger {
  import opened Common
  import opened Regmap
  import opened ChargerDt

  datatype Axp22Regs = Axp22Regs(
    chargeVbus: int, chargeControl1: int, chargeControl2: int,
    adcControl: int, adcControl3: int, warningLevel: int,
    pokSet: int, offCtl: int, pdbc: int,
    rdc0: int, rdc1: int, batcap0: int, batcap1: int,
    adcBatVol: bv8, adcBatCur: bv8, adcTsVol: bv8)

  // ---------------------------------------------------------------------
  // USB hold voltage and current (AXP22_CHARGE_VBUS)

  /** The hold-voltage field: bits 3-5. */
  const VholdMask: bv8 := 0x38

  /** The current-limit field: bits 0-1. */
  const IholdMask: bv8 := 0x03

  /** (vol - 4000) / 100 for a voltage the setter accepts. */
  function VholdCode(vol: int): (k: bv8)
    requires 4000 <= vol <= 4700
    ensures k as int == (vol - 4000) / 100 && k as int < 8
  {
    U8((vol - 4000) / 100)
  }

  /** A byte below 2^3 fits a three-bit field. */
  lemma Fits3(k: bv8)
    requires k as int < 8
    ensures Fits(k, 3)
  {
    assert k < 8;
  }

  /**
   * axp22_set_usb_vhold: a nonzero voltage enables the limit (bit 6) and,
   * inside [4000, 4700] mV, programs the field; 0 disables the limit.
   * Errors of the register helpers are ignored; the result is always 0.
   */
  function SetUsbVhold(bus: Bus, reg: int, vol: int): (r: (Bus, int))
    ensures r.1 == 0
  {
    if vol != 0 then
      var b := SetBits(bus, reg, 0x40, false).0;
      if 4000 <= vol <= 4700 then (Update(b, reg, VholdCode(vol) << 3, VholdMask, false).0, 0)
      else (b, 0)
    else (ClrBits(bus, reg, 0x40, false).0, 0)
  }

  /**
   * axp22_get_usb_vhold: 4000 + 100 * field.  The read's error is ignored,
   * so a failed read decodes whatever `stale` held.
   */
  function GetUsbVhold(bus: Bus, reg: int, stale: bv8): (mv: int)
    ensures 4000 <= mv <= 4700 && (mv - 4000) % 100 == 0
  {
    4000 + FieldOf(ReadInto(bus, reg, stale), 3, 3) as int * 100
  }

  /** axp22_set_usb_ihold: >= 900 mA clears the field, below writes 1, 0 sets both bits. */
  function SetUsbIhold(bus: Bus, reg: int, cur: int): (r: (Bus, int))
    ensures r.1 == 0
  {
    if cur != 0 then
      if cur >= 900 then (ClrBits(bus, reg, IholdMask, false).0, 0)
      else (Update(bus, reg, 0x01, IholdMask, false).0, 0)
    else (SetBits(bus, reg, IholdMask, false).0, 0)
  }

  /** axp22_get_usb_ihold: field 1 is 500 mA, 0 is 900 mA, anything else 0. */
  function GetUsbIhold(bus: Bus, reg: int, stale: bv8): (ma: int)
    ensures ma == 500 || ma == 900 || ma == 0
    ensures ma == 0 <==> AnySet(ReadInto(bus, reg, stale), 0x02)
  {
    var t := ReadInto(bus, reg, stale) & IholdMask;
    if t == 0x01 then 500 else if t == 0 then 900 else 0
  }

  /**
   * Reading the hold voltage back after setting a voltage in [4000, 4700]
   * gives it rounded down to 100 mV, with the limit enabled.
   */
  lemma VholdRoundTrip(bus: Bus, reg: int, vol: int, stale: bv8)
    requires Addr(reg) !in bus.faulty && 4000 <= vol <= 4700
    ensures var b := SetUsbVhold(bus, reg, vol).0;
      GetUsbVhold(b, reg, stale) == 4000 + 100 * ((vol - 4000) / 100)
      && AllSet(Reg(b, Addr(reg)), 0x40)
  {
    var a := Addr(reg);
    var b1 := SetBits(bus, reg, 0x40, false).0;
    SetBitsEffect(bus, reg, 0x40, false);
    var k := VholdCode(vol);
    Fits3(k);
    FitsWithin(k, 3, 3);
    UpdateEffect(b1, reg, k << 3, VholdMask, false);
    var b := Update(b1, reg, k << 3, VholdMask, false).0;
    FieldReadBack(Reg(b, a), k, 3, 3);
    KeepBit(Reg(b1, a), Reg(b, a), VholdMask, 0x40);
  }

  /** A bit outside `mask` that survived an update is still set. */
  lemma KeepBit(before: bv8, after: bv8, mask: bv8, bit: bv8)
    requires FieldIs(after, !mask, Rest(before, mask))
    requires AllSet(before, bit) && bit & mask == 0
    ensures AllSet(after, bit)
  {
  }

  /** Setting the voltage to 0 disables the limit. */
  lemma VholdOff(bus: Bus, reg: int)
    requires Addr(reg) !in bus.faulty
    ensures !AnySet(Reg(SetUsbVhold(bus, reg, 0).0, Addr(reg)), 0x40)
  {
    ClrBitsEffect(bus, reg, 0x40, false);
    AndNotMask(Reg(bus, Addr(reg)), 0x40);
  }

  /** Reading the current limit back after setting `cur`: 900, 500 or 0 mA. */
  lemma IholdRoundTrip(bus: Bus, reg: int, cur: int, stale: bv8)
    requires Addr(reg) !in bus.faulty
    ensures GetUsbIhold(SetUsbIhold(bus, reg, cur).0, reg, stale)
      == if cur == 0 then 0 else if cur >= 900 then 900 else 500
  {
    var v := Reg(bus, Addr(reg));
    if cur == 0 {
      SetBitsEffect(bus, reg, IholdMask, false);
      OrMask(v, IholdMask);
    } else if cur >= 900 {
      ClrBitsEffect(bus, reg, IholdMask, false);
      AndNotMask(v, IholdMask);
    } else {
      UpdateEffect(bus, reg, 0x01, IholdMask, false);
    }
  }

  /** Setting the current limit leaves the hold voltage as it was. */
  lemma IholdKeepsVhold(bus: Bus, reg: int, cur: int, stale: bv8)
    requires Addr(reg) !in bus.faulty
    ensures GetUsbVhold(SetUsbIhold(bus, reg, cur).0, reg, stale) == GetUsbVhold(bus, reg, stale)
  {
    var v := Reg(bus, Addr(reg));
    var w := Reg(SetUsbIhold(bus, reg, cur).0, Addr(reg));
    if cur == 0 {
      SetBitsEffect(bus, reg, IholdMask, false);
    } else if cur >= 900 {
      ClrBitsEffect(bus, reg, IholdMask, false);
    } else {
      UpdateEffect(bus, reg, 0x01, IholdMask, false);
    }
    SameVholdField(v, w);
  }

  lemma SameVholdField(v: bv8, w: bv8)
    requires FieldIs(w, !IholdMask, Rest(v, IholdMask))
    ensures FieldOf(w, 3, 3) == FieldOf(v, 3, 3)
  {
  }

  // ---------------------------------------------------------------------
  // Charge current and voltage (AXP22_CHARGE_CONTROL1)

  /** The low nibble set_chg_cur leaves: (cur - 300000) / 150000, saturated to [0, 15]. */
  function ChgCurCode(cur: int): (k: bv8)
    ensures k as int == if cur < 300000 then 0 else Min((cur - 300000) / 150000, 15)
  {
    if 300000 <= cur <= 2550000 then
      var q := (cur - 300000) / 150000;
      assert 0 <= q <= 15;
      U8Small(q);
      U8(q)
    else if cur < 300000 then 0
    else 0x0F
  }

  /**
   * axp22_set_chg_cur: bit 7 enables charging for a nonzero current; the
   * nibble is updated inside [300000, 2550000] uA, cleared below and set
   * above.
   */
  function SetChgCur(bus: Bus, reg: int, cur: int): (r: (Bus, int))
    ensures r.1 == 0
  {
    (ChgCurNibble(ChgCurEnable(bus, reg, cur), reg, cur), 0)
  }

  /** The first step of set_chg_cur: bit 7 cleared for a zero current, set otherwise. */
  function ChgCurEnable(bus: Bus, reg: int, cur: int): Bus
  {
    if cur == 0 then ClrBits(bus, reg, 0x80, false).0 else SetBits(bus, reg, 0x80, false).0
  }

  /** The second step of set_chg_cur: the current code into the low nibble. */
  function ChgCurNibble(b: Bus, reg: int, cur: int): Bus
  {
    if 300000 <= cur <= 2550000 then Update(b, reg, U8((cur - 300000) / 150000), 0x0F, false).0
    else if cur < 300000 then ClrBits(b, reg, 0x0F, false).0
    else SetBits(b, reg, 0x0F, false).0
  }

  /** After set_chg_cur: bit 7 iff cur != 0, the nibble is ChgCurCode(cur), bits 4-6 and other registers unchanged. */
  lemma ChgCurEffect(bus: Bus, reg: int, cur: int)
    requires Addr(reg) !in bus.faulty
    ensures var b := SetChgCur(bus, reg, cur).0;
      var v := Reg(b, Addr(reg));
      (AnySet(v, 0x80) <==> cur != 0) && FieldIs(v, 0x0F, ChgCurCode(cur))
      && FieldIs(v, 0x70, Reg(bus, Addr(reg)) & 0x70) && SameExcept(b, bus, Addr(reg))
  {
    var a := Addr(reg);
    var b1 := ChgCurEnable(bus, reg, cur);
    ChgCurEnableEffect(bus, reg, cur);
    ChgCurNibbleEffect(b1, reg, cur);
    NibbleKeep(Reg(b1, a), Reg(ChgCurNibble(b1, reg, cur), a));
  }

  lemma ChgCurEnableEffect(bus: Bus, reg: int, cur: int)
    requires Addr(reg) !in bus.faulty
    ensures var b := ChgCurEnable(bus, reg, cur);
      var v0, v1 := Reg(bus, Addr(reg)), Reg(b, Addr(reg));
      b.faulty == bus.faulty && (AnySet(v1, 0x80) <==> cur != 0) && v1 & 0x70 == v0 & 0x70
      && SameExcept(b, bus, Addr(reg))
  {
    if cur == 0 {
      ClrBitsEffect(bus, reg, 0x80, false);
    } else {
      SetBitsEffect(bus, reg, 0x80, false);
    }
  }

  lemma ChgCurNibbleEffect(b: Bus, reg: int, cur: int)
    requires Addr(reg) !in b.faulty
    ensures var v1, v := Reg(b, Addr(reg)), Reg(ChgCurNibble(b, reg, cur), Addr(reg));
      FieldIs(v, 0x0F, ChgCurCode(cur)) && FieldIs(v, !0x0F, Rest(v1, 0x0F))
      && SameExcept(ChgCurNibble(b, reg, cur), b, Addr(reg))
  {
    if 300000 <= cur <= 2550000 {
      ChgCurInRange(b, reg, cur);
    } else if cur < 300000 {
      ClrBitsEffect(b, reg, 0x0F, false);
      ClrNibble(Reg(b, Addr(reg)));
    } else {
      SetBitsEffect(b, reg, 0x0F, false);
      SetNibble(Reg(b, Addr(reg)));
    }
  }

  /** Inside [300000, 2550000] uA the nibble receives the code through an update. */
  lemma ChgCurInRange(b: Bus, reg: int, cur: int)
    requires Addr(reg) !in b.faulty && 300000 <= cur <= 2550000
    ensures var v1, v := Reg(b, Addr(reg)), Reg(ChgCurNibble(b, reg, cur), Addr(reg));
      FieldIs(v, 0x0F, ChgCurCode(cur)) && FieldIs(v, !0x0F, Rest(v1, 0x0F))
      && SameExcept(ChgCurNibble(b, reg, cur), b, Addr(reg))
  {
    var k := U8((cur - 300000) / 150000);
    assert ChgCurCode(cur) == k;
    assert k as int <= 15;
    NibbleWithin(k);
    UpdateEffect(b, reg, k, 0x0F, false);
  }

  lemma ClrNibble(v1: bv8)
    ensures FieldIs(Rest(v1, 0x0F), 0x0F, 0) && FieldIs(Rest(v1, 0x0F), !0x0F, Rest(v1, 0x0F))
  {
  }

  lemma SetNibble(v1: bv8)
    ensures FieldIs(v1 | 0x0F, 0x0F, 0x0F) && FieldIs(v1 | 0x0F, !0x0F, Rest(v1, 0x0F))
  {
  }

  lemma NibbleWithin(k: bv8)
    requires k as int <= 15
    ensures Within(k, 0x0F)
  {
  }

  lemma NibbleKeep(v1: bv8, v: bv8)
    requires FieldIs(v, !0x0F, Rest(v1, 0x0F))
    ensures (AnySet(v, 0x80) <==> AnySet(v1, 0x80)) && v & 0x70 == v1 & 0x70
  {
  }

  /** The bits 5-6 set_chg_vol writes for a target voltage `vol` in mV. */
  function ChgVolBits(vol: int): (t: bv8)
    ensures Within(t, 0x60)
    ensures AnySet(t, 0x40) <==> (4200 <= vol < 4220 || vol >= 4240)
    ensures AnySet(t, 0x20) <==> vol >= 4220
  {
    var tmp: bv8 := 0;
    if vol < 4200 then tmp & !0x60
    else if vol < 4220 then (tmp & !0x60) | 0x40
    else if vol < 4240 then (tmp & !0x60) | 0x20
    else tmp | 0x60
  }

  /** axp22_set_chg_vol: update of bits 5-6 only. */
  function SetChgVol(bus: Bus, reg: int, vol: int): (r: (Bus, int))
    ensures r.1 == 0
  {
    (Update(bus, reg, ChgVolBits(vol), 0x60, false).0, 0)
  }

  /** set_chg_vol leaves bits 5-6 equal to ChgVolBits(vol) and every other bit and register as it was. */
  lemma ChgVolEffect(bus: Bus, reg: int, vol: int)
    requires Addr(reg) !in bus.faulty
    ensures var b := SetChgVol(bus, reg, vol).0;
      FieldIs(Reg(b, Addr(reg)), 0x60, ChgVolBits(vol))
      && FieldIs(Reg(b, Addr(reg)), !0x60, Rest(Reg(bus, Addr(reg)), 0x60))
      && SameExcept(b, bus, Addr(reg))
  {
    UpdateEffect(bus, reg, ChgVolBits(vol), 0x60, false);
  }

  // ---------------------------------------------------------------------
  // Battery readings

  /** ((reg >> 8) << 4) | (reg & 0xF) on a u32: the shared part of the three converters. */
  function AdcJoin(reg: int): int
    requires 0 <= reg < TWO32
  {
    (reg / 256) * 16 + reg % 16
  }

  /** The 12-bit ADC reading split as bits 11-4 in `hi` and bits 3-0 in the low nibble of `lo`. */
  function Adc12(hi: bv8, lo: bv8): (c: nat)
    ensures c < 4096
  {
    hi as int * 16 + lo as int % 16
  }

  /** (hi << 8) | lo, read back through AdcJoin, is the 12-bit reading. */
  lemma JoinBytes(hi: bv8, lo: bv8)
    ensures AdcJoin(hi as int * 256 + lo as int) == Adc12(hi, lo)
  {
    JoinValues(hi as int, lo as int);
  }

  lemma JoinValues(h: int, l: int)
    requires 0 <= h < 256 && 0 <= l < 256
    ensures AdcJoin(h * 256 + l) == h * 16 + l % 16
  {
    var r := h * 256 + l;
    assert r / 256 == h;
    assert r % 16 == l % 16;
  }

  /** axp22_vbat_to_mV: 1.1 mV per step. */
  function VbatToMv(reg: int): int
    requires 0 <= reg < TWO32
  {
    AdcJoin(reg) * 1100 / 1000
  }

  /** axp22_get_vbat on the two bytes read from AXP22_VBATH_RES. */
  function GetVbat(hi: bv8, lo: bv8): (mv: int)
    ensures mv == Adc12(hi, lo) * 1100 / 1000
    ensures 0 <= mv <= 4504
  {
    JoinBytes(hi, lo);
    VbatToMv(hi as int * 256 + lo as int)
  }

  /** A larger reading never gives a lower battery voltage. */
  lemma VbatMonotone(h1: bv8, l1: bv8, h2: bv8, l2: bv8)
    requires Adc12(h1, l1) <= Adc12(h2, l2)
    ensures GetVbat(h1, l1) <= GetVbat(h2, l2)
  {
  }

  /** axp22_ibat_to_mA and axp22_icharge_to_mA: 1 mA per step. */
  function IbatToMa(reg: int): int
    requires 0 <= reg < TWO32
  {
    AdcJoin(reg)
  }

  /**
   * axp22_get_ibat on the four bytes read from AXP22_IBATH_REG: the
   * magnitude of charge minus discharge current.
   */
  function GetIbat(c0: bv8, c1: bv8, d0: bv8, d1: bv8): (ma: int)
    ensures ma == Abs(Adc12(c0, c1) - Adc12(d0, d1))
    ensures 0 <= ma < 4096
    ensures ma == 0 <==> Adc12(c0, c1) == Adc12(d0, d1)
  {
    JoinBytes(c0, c1);
    JoinBytes(d0, d1);
    Abs(IbatToMa(c0 as int * 256 + c1 as int) - IbatToMa(d0 as int * 256 + d1 as int))
  }

  /** The coulomb-counter value of a register pair: 15 bits at 1.456 mAh per step. */
  function Coulomb(b0: bv8, b1: bv8): (mah: nat)
  {
    ((b0 & 0x7F) as int * 256 + b1 as int) * 1456 / 1000
  }

  datatype RestCap = RestCap(percent: int, writeBack: Option<seq<bv8>>)

  /**
   * axp22_get_rest_cap on the bytes read from AXP22_CAP, 0xE2-0xE3 (the
   * counter) and 0xE0-0xE1 (the maximum): the percentage is the low seven
   * bits; when the counter exceeds the maximum, the maximum with bit 7
   * set is written back to 0xE2 (writeBack).
   */
  function GetRestCap(cap: bv8, cc0: bv8, cc1: bv8, max0: bv8, max1: bv8): (r: RestCap)
    ensures 0 <= r.percent <= 127 && r.percent == cap as int % 128
    ensures r.writeBack.Some? <==> Coulomb(cc0, cc1) > Coulomb(max0, max1)
    ensures r.writeBack.Some? ==> r.writeBack.value == [max0 | 0x80, max1]
  {
    var rest := (cap & 0x7F) as int;
    var counter := Coulomb(cc0, cc1);
    var maxCap := Coulomb(max0, max1);
    if counter > maxCap then RestCap(rest, Some([max0 | 0x80, max1])) else RestCap(rest, None)
  }

  /** The bytes written back carry the maximum, so reading them again triggers no second write. */
  lemma RestCapWriteBackSettles(cap: bv8, cc0: bv8, cc1: bv8, max0: bv8, max1: bv8)
    requires GetRestCap(cap, cc0, cc1, max0, max1).writeBack.Some?
    ensures var w := GetRestCap(cap, cc0, cc1, max0, max1).writeBack.value;
      Coulomb(w[0], w[1]) == Coulomb(max0, max1)
      && GetRestCap(cap, w[0], w[1], max0, max1).writeBack.None?
  {
    assert (max0 | 0x80) & 0x7F == max0 & 0x7F;
  }

  /** The fault-log bits axp22_get_bat_health tests (axp22-charger.h). */
  datatype FaultBits = FaultBits(batInact: bv8, overTemp: bv8, cold: bv8)

  datatype Health = Good | Dead | Overheat | Cold

  /** axp22_get_bat_health on AXP22_FAULT_LOG1: DEAD before OVERHEAT before COLD. */
  function GetBatHealth(log: bv8, f: FaultBits): (h: Health)
    ensures h == Dead <==> AnySet(log, f.batInact)
    ensures h == Overheat <==> !AnySet(log, f.batInact) && AnySet(log, f.overTemp)
    ensures h == Cold <==> !AnySet(log, f.batInact) && !AnySet(log, f.overTemp) && AnySet(log, f.cold)
    ensures h == Good <==> !AnySet(log, f.batInact | f.overTemp | f.cold)
  {
    OrAny(log, f.batInact, f.overTemp, f.cold);
    if log & f.batInact != 0 then Dead
    else if log & f.overTemp != 0 then Overheat
    else if log & f.cold != 0 then Cold
    else Good
  }

  lemma OrAny(v: bv8, a: bv8, b: bv8, c: bv8)
    ensures AnySet(v, a | b | c) <==> AnySet(v, a) || AnySet(v, b) || AnySet(v, c)
  {
  }

  // ---------------------------------------------------------------------
  // axp22_charger_init: codes computed from the configuration

  /** CHARGE_CONTROL1 from the uninitialised `val`: bit 4 unless the end rate is 10%, bit 7 clear. */
  function Control1Bits(stale: bv8, endRate: nat): (v: bv8)
    ensures !AnySet(v, 0x80)
    ensures AnySet(v, 0x10) <==> endRate != 10
    ensures FieldIs(v, 0x6F, stale & 0x6F)
  {
    var w := if endRate == 10 then stale & !0x10 else stale | 0x10;
    w & 0x7F
  }

  /** The pre-charge and constant-current timer clamps (a value below the floor is raised to it). */
  function ChgTimeConfig(c: Config): (d: Config)
  {
    var c1 := if Get(c, PmuInitChgPretime) < 30 then c[PmuInitChgPretime := 30] else c;
    if Get(c1, PmuInitChgCsttime) < 360 then c1[PmuInitChgCsttime := 360] else c1
  }

  /** The clamps raise both timers to their floors and touch nothing else. */
  lemma ChgTimeBounds(c: Config, f: Field)
    ensures var d := ChgTimeConfig(c);
      Get(d, PmuInitChgPretime) == Max(Get(c, PmuInitChgPretime), 30)
      && Get(d, PmuInitChgCsttime) == Max(Get(c, PmuInitChgCsttime), 360)
      && (f != PmuInitChgPretime && f != PmuInitChgCsttime ==> Get(d, f) == Get(c, f))
  {
  }

  /**
   * CHARGE_CONTROL2 value: ((pre - 40) / 10) << 6 | (cst - 360) / 120 in
   * u32, cut to u8.  The low byte of x << 6 is the low byte of u8(x) << 6.
   */
  function PreCstBits(pre: nat, cst: nat): bv8
  {
    (U8(U32(pre - 40) / 10) << 6) | U8(U32(cst - 360) / 120)
  }

  /** Inside the documented ranges the two timer codes land in bits 6-7 and 0-1. */
  lemma PreCstFields(pre: nat, cst: nat)
    requires 40 <= pre <= 70 && 360 <= cst <= 720
    ensures FieldOf(PreCstBits(pre, cst), 6, 2) as int == (pre - 40) / 10
    ensures FieldOf(PreCstBits(pre, cst), 0, 2) as int == (cst - 360) / 120
    ensures Within(PreCstBits(pre, cst), 0xC3)
  {
    var x, y := (pre - 40) / 10, (cst - 360) / 120;
    assert 0 <= x < 4 && 0 <= y < 4;
    assert U32(pre - 40) == pre - 40 && U32(cst - 360) == cst - 360;
    U8Small(x);
    U8Small(y);
    ByteLt(U8(x), 4);
    ByteLt(U8(y), 4);
    TwoBitFields(U8(x), U8(y));
  }

  lemma TwoBitFields(p: bv8, q: bv8)
    requires p < 4 && q < 4
    ensures FieldOf((p << 6) | q, 6, 2) == p && FieldOf((p << 6) | q, 0, 2) == q
    ensures Within((p << 6) | q, 0xC3)
  {
  }

  /**
   * A pre-charge time the clamp lets through below 40 wraps in u32: 35
   * minutes gives the code for 50 minutes, 30 the code for 40.
   */
  lemma PretimeWraps(cst: nat)
    requires 360 <= cst <= 720
    ensures FieldOf(PreCstBits(35, cst), 6, 2) == 1
    ensures FieldOf(PreCstBits(30, cst), 6, 2) == 0
  {
    var y := (cst - 360) / 120;
    assert U32(cst - 360) == cst - 360;
    U8Small(y);
    ByteLt(U8(y), 4);
    assert U32(35 - 40) / 10 == 429496729 && U32(30 - 40) / 10 == 429496728;
    ByteEq(U8(429496729), 0x99);
    ByteEq(U8(429496728), 0x98);
    HighField(0x99, U8(y));
    HighField(0x98, U8(y));
  }

  lemma HighField(p: bv8, q: bv8)
    requires q < 4
    ensures FieldOf((p << 6) | q, 6, 2) == p & 3
  {
  }

  /** ADC_CONTROL3 after the sample-rate switch and the TS pin setting. */
  function Adc3Bits(v: bv8, freq: nat, tempEnable: nat): (r: bv8)
    ensures FieldIs(r, 0x3B, v & 0x3B)
    ensures tempEnable != 0 ==> !AnySet(r, 0x04)
    ensures tempEnable == 0 ==> FieldIs(r, 0x04, v & 0x04)
    ensures freq / 100 == 1 ==> FieldIs(r, 0xC0, 0x00)
    ensures freq / 100 == 2 ==> FieldIs(r, 0xC0, 0x40)
    ensures freq / 100 == 4 ==> FieldIs(r, 0xC0, 0x80)
    ensures freq / 100 == 8 ==> FieldIs(r, 0xC0, 0xC0)
    ensures freq / 100 !in {1, 2, 4, 8} ==> FieldIs(r, 0xC0, v & 0xC0)
  {
    var w := match freq / 100
      case 1 => v & !0xC0
      case 2 => (v & !0xC0) | 0x40
      case 4 => (v & !0xC0) | 0x80
      case 8 => v | 0xC0
      case _ => v;
    if tempEnable != 0 then w & !0x04 else w
  }

  /** The enable bits written to ADC_CONTROL: battery voltage and current, and TS when enabled. */
  function AdcEnableBits(regs: Axp22Regs, tempEnable: nat): bv8
  {
    var v := regs.adcBatVol | regs.adcBatCur;
    if tempEnable != 0 then v | regs.adcTsVol else v
  }

  /** AXP22_WARNING_LEVEL: ((level1 - 5) << 4) + level2, cut to u8. */
  function WarningByte(c: Config): bv8
  {
    U8((Get(c, PmuBatteryWarningLevel1) - 5) * 16 + Get(c, PmuBatteryWarningLevel2))
  }

  /** Level 1 in [5, 20] and level 2 in [0, 15] occupy the high and low nibbles. */
  lemma WarningNibbles(c: Config)
    requires 5 <= Get(c, PmuBatteryWarningLevel1) <= 20 && Get(c, PmuBatteryWarningLevel2) <= 15
    ensures WarningByte(c) as int / 16 == Get(c, PmuBatteryWarningLevel1) - 5
    ensures WarningByte(c) as int % 16 == Get(c, PmuBatteryWarningLevel2)
  {
    var a, b := Get(c, PmuBatteryWarningLevel1) - 5, Get(c, PmuBatteryWarningLevel2);
    NibbleSplit(a, b);
    var x := a * 16 + b;
    assert WarningByte(c) == U8(x);
    U8Small(x);
  }

  lemma NibbleSplit(a: int, b: int)
    requires 0 <= a < 16 && 0 <= b < 16
    ensures 0 <= a * 16 + b < 256 && (a * 16 + b) / 16 == a && (a * 16 + b) % 16 == b
  {
  }

  /** The 32 OCV table bytes: pmu_bat_para1..32 cut to u8. */
  function OcvBytes(c: Config): (b: seq<bv8>)
    ensures |b| == 32
  {
    seq(32, i requires 0 <= i < 32 => U8(Get(c, OcvField(i))))
  }

  lemma OcvByteAt(c: Config, i: nat)
    requires i < 32
    ensures OcvBytes(c)[i] as int == Get(c, PmuBatPara1 + i) % 256
  {
  }

  /** POK_SET bits 6-7 from the power-on time in ms. */
  function OnTimeBits(on: nat): (b: bv8)
    ensures Within(b, 0xC0)
    ensures FieldOf(b, 6, 2) as int == Min(on / 1000, 3)
  {
    if on < 1000 then 0x00
    else if on < 2000 then 0x40
    else if on < 3000 then 0x80
    else 0xC0
  }

  /** OFF_CTL bits from the power-ok delay: t / 8 - 1 below 32 ms, t / 32 + 1 above, in u32. */
  function PwrokBits(t: nat): (b: bv8)
    ensures 8 <= t < 32 ==> b as int == t / 8 - 1 && b as int <= 2
    ensures 32 <= t < 96 ==> b as int == t / 32 + 1 && 2 <= b as int <= 3
    ensures t < 8 ==> b as int == 255
  {
    PwrokCode(t);
    U8(PwrokValue(t))
  }

  /** The u32 value the delay section ORs in, before the cut to u8. */
  function PwrokValue(t: nat): nat
  {
    if t < 32 then U32(t / 8 - 1) else U32(t / 32 + 1)
  }

  lemma PwrokCode(t: nat)
    ensures 8 <= t < 32 ==> PwrokValue(t) % 256 == t / 8 - 1
    ensures 32 <= t < 96 ==> PwrokValue(t) % 256 == t / 32 + 1
    ensures t < 8 ==> PwrokValue(t) % 256 == 255
  {
    if t < 8 {
      assert U32(t / 8 - 1) == TWO32 - 1;
    }
  }

  /**
   * The configuration after the power-key section: long press clamped to
   * [1000, 2500], off level enable normalised to 0/1, and the off time
   * replaced by its two-bit code.
   */
  function PowerKeyConfig(c: Config): Config
  {
    OffTimeCode(OffEnNormal(LongTimeClamp(c)))
  }

  /** The long-press time raised to 1000 ms and lowered to 2500 ms. */
  function LongTimeClamp(c: Config): (d: Config)
    ensures Get(d, PmuPowkeyLongTime) == Clamp(Get(c, PmuPowkeyLongTime), 1000, 2500)
    ensures forall f :: f != PmuPowkeyLongTime ==> Get(d, f) == Get(c, f)
  {
    var c1 := if Get(c, PmuPowkeyLongTime) < 1000 then c[PmuPowkeyLongTime := 1000] else c;
    if Get(c1, PmuPowkeyLongTime) > 2500 then c1[PmuPowkeyLongTime := 2500] else c1
  }

  /** The off-level power-off enable as 0 or 1. */
  function OffEnNormal(c: Config): (d: Config)
    ensures Get(d, PmuPowkeyOffEn) <= 1 && (Get(d, PmuPowkeyOffEn) == 1 <==> Get(c, PmuPowkeyOffEn) != 0)
    ensures forall f :: f != PmuPowkeyOffEn ==> Get(d, f) == Get(c, f)
  {
    c[PmuPowkeyOffEn := if Get(c, PmuPowkeyOffEn) != 0 then 1 else 0]
  }

  /** The off-level time clamped to [4000, 10000] ms and replaced by its code. */
  function OffTimeCode(c: Config): (d: Config)
    ensures Get(d, PmuPowkeyOffTime) == (Clamp(Get(c, PmuPowkeyOffTime), 4000, 10000) - 4000) / 2000
    ensures Get(d, PmuPowkeyOffTime) <= 3
    ensures forall f :: f != PmuPowkeyOffTime ==> Get(d, f) == Get(c, f)
  {
    var c1 := if Get(c, PmuPowkeyOffTime) < 4000 then c[PmuPowkeyOffTime := 4000] else c;
    var c2 := if Get(c1, PmuPowkeyOffTime) > 10000 then c1[PmuPowkeyOffTime := 10000] else c1;
    c2[PmuPowkeyOffTime := (Get(c2, PmuPowkeyOffTime) - 4000) / 2000]
  }

  /** The codes the power-key section stores: long time in range, enable 0/1, off time a code <= 3. */
  lemma PowerKeyConfigBounds(c: Config, f: Field)
    ensures var d := PowerKeyConfig(c);
      Get(d, PmuPowkeyLongTime) == Clamp(Get(c, PmuPowkeyLongTime), 1000, 2500)
      && (Get(d, PmuPowkeyOffEn) == 1 <==> Get(c, PmuPowkeyOffEn) != 0)
      && Get(d, PmuPowkeyOffEn) <= 1
      && Get(d, PmuPowkeyOffTime) == (Clamp(Get(c, PmuPowkeyOffTime), 4000, 10000) - 4000) / 2000
      && Get(d, PmuPowkeyOffTime) <= 3
      && (f != PmuPowkeyLongTime && f != PmuPowkeyOffEn && f != PmuPowkeyOffTime ==> Get(d, f) == Get(c, f))
  {
  }

  /**
   * The off time is overwritten with its code, so running the section a
   * second time on the result programs the 4 s code whatever was configured.
   */
  lemma PowerKeyConfigTwice(c: Config)
    ensures Get(PowerKeyConfig(PowerKeyConfig(c)), PmuPowkeyOffTime) == 0
  {
    PowerKeyConfigBounds(c, PmuPowkeyOffTime);
    PowerKeyConfigBounds(PowerKeyConfig(c), PmuPowkeyOffTime);
  }

  /** The code of the (clamped) long-press time: (t - 1000) / 500. */
  function LongCode(c: Config): (k: bv8)
  {
    U8((Get(c, PmuPowkeyLongTime) - 1000) / 500)
  }

  /**
   * POK_SET as the power-key section leaves it when every access succeeds:
   * every bit comes from the configuration `c` after its clamps.
   */
  function PokSetByte(c: Config): bv8
  {
    PokHigh(c) | U8(Get(c, PmuPowkeyOffTime))
  }

  /** Bits 2-7 of POK_SET: power-on time, long-press code, off-level enable and restart. */
  function PokHigh(c: Config): bv8
  {
    OnTimeBits(Get(c, PmuPowkeyOnTime)) | (LongCode(c) << 4) | (U8(Get(c, PmuPowkeyOffEn)) << 3)
    | (if Get(c, PmuPowkeyOffFunc) != 0 then 0x04 else 0x00)
  }

  /** PokHigh has nothing in bits 0-1. */
  lemma PokSetHigh(c: Config)
    requires 1000 <= Get(c, PmuPowkeyLongTime) <= 2500 && Get(c, PmuPowkeyOffEn) <= 1
    ensures Within(PokHigh(c), 0xFC)
  {
    var l, e := LongEnCodes(c);
    PokCompose(0, OnTimeBits(Get(c, PmuPowkeyOnTime)), l, e, Get(c, PmuPowkeyOffFunc) != 0);
  }

  /** Decoding POK_SET after the section gives back each configured setting. */
  lemma PokSetFields(c0: Config)
    ensures var c := PowerKeyConfig(c0);
      var b := PokSetByte(c);
      FieldOf(b, 6, 2) as int == Min(Get(c0, PmuPowkeyOnTime) / 1000, 3)
      && FieldOf(b, 4, 2) as int == (Clamp(Get(c0, PmuPowkeyLongTime), 1000, 2500) - 1000) / 500
      && (AnySet(b, 0x08) <==> Get(c0, PmuPowkeyOffEn) != 0)
      && (AnySet(b, 0x04) <==> Get(c0, PmuPowkeyOffFunc) != 0)
      && FieldOf(b, 0, 2) as int == (Clamp(Get(c0, PmuPowkeyOffTime), 4000, 10000) - 4000) / 2000
  {
    PowerKeyConfigBounds(c0, PmuPowkeyOnTime);
    PowerKeyConfigBounds(c0, PmuPowkeyOffFunc);
    PokSetDecode(PowerKeyConfig(c0));
  }

  /** POK_SET decoded field by field, for settings already in their clamped ranges. */
  lemma PokSetDecode(c: Config)
    requires 1000 <= Get(c, PmuPowkeyLongTime) <= 2500
    requires Get(c, PmuPowkeyOffEn) <= 1 && Get(c, PmuPowkeyOffTime) <= 3
    ensures var b := PokSetByte(c);
      FieldOf(b, 6, 2) as int == Min(Get(c, PmuPowkeyOnTime) / 1000, 3)
      && FieldOf(b, 4, 2) as int == (Get(c, PmuPowkeyLongTime) - 1000) / 500
      && (AnySet(b, 0x08) <==> Get(c, PmuPowkeyOffEn) == 1)
      && (AnySet(b, 0x04) <==> Get(c, PmuPowkeyOffFunc) != 0)
      && FieldOf(b, 0, 2) as int == Get(c, PmuPowkeyOffTime)
  {
    var l, e := LongEnCodes(c);
    var o := OffCode(c);
    var a := OnTimeBits(Get(c, PmuPowkeyOnTime));
    PokDecode(a, l, e, if Get(c, PmuPowkeyOffFunc) != 0 then 0x04 else 0x00, o);
  }

  /** The long-press and off-level enable codes PokHigh shifts into place, as bytes of the right widths. */
  lemma LongEnCodes(c: Config) returns (l: bv8, e: bv8)
    requires 1000 <= Get(c, PmuPowkeyLongTime) <= 2500 && Get(c, PmuPowkeyOffEn) <= 1
    ensures l == LongCode(c) && e == U8(Get(c, PmuPowkeyOffEn))
    ensures l < 4 && e < 2
    ensures l as int == (Get(c, PmuPowkeyLongTime) - 1000) / 500
    ensures e == 1 <==> Get(c, PmuPowkeyOffEn) == 1
  {
    var x := (Get(c, PmuPowkeyLongTime) - 1000) / 500;
    assert 0 <= x < 4;
    U8Small(x);
    U8Small(Get(c, PmuPowkeyOffEn));
    l, e := LongCode(c), U8(Get(c, PmuPowkeyOffEn));
    ByteLt(l, 4);
    ByteLt(e, 2);
    if e as int == 1 {
      ByteEq(e, 1);
    }
  }

  /** The off-level time code, as a two-bit byte. */
  lemma OffCode(c: Config) returns (o: bv8)
    requires Get(c, PmuPowkeyOffTime) <= 3
    ensures o == U8(Get(c, PmuPowkeyOffTime)) && o < 4 && o as int == Get(c, PmuPowkeyOffTime)
  {
    U8Small(Get(c, PmuPowkeyOffTime));
    o := U8(Get(c, PmuPowkeyOffTime));
    ByteLt(o, 4);
  }

  lemma PokDecode(a: bv8, l: bv8, e: bv8, f: bv8, o: bv8)
    requires Within(a, 0xC0) && l < 4 && e < 2 && (f == 0 || f == 0x04) && o < 4
    ensures var b := a | (l << 4) | (e << 3) | f | o;
      FieldOf(b, 6, 2) == FieldOf(a, 6, 2) && FieldOf(b, 4, 2) == l
      && (AnySet(b, 0x08) <==> e == 1) && (AnySet(b, 0x04) <==> f == 0x04) && FieldOf(b, 0, 2) == o
  {
  }

  /** The five read-modify-write steps on POK_SET compose to PokSetByte. */
  lemma PokCompose(v: bv8, a: bv8, l: bv8, e: bv8, func: bool)
    requires Within(a, 0xC0) && l < 4 && e < 2
    ensures var v1 := (v & 0x3F) | a;
      var v2 := (v1 & 0xCF) | (l << 4);
      var v3 := (v2 & 0xF7) | (e << 3);
      var h := a | (l << 4) | (e << 3) | (if func then 0x04 else 0x00);
      (if func then v3 | 0x04 else Rest(v3, 0x04)) == h | (v & 0x03) && Within(h, 0xFC)
  {
  }

  /** Replacing the field 0x03 is keeping 0xFC and ORing the new bits in. */
  lemma MergeLow(v: bv8, d: bv8)
    ensures Merge(v, 0x03, d) == (v & 0xFC) | d
  {
  }

  /** The last step replaces bits 0-1 and keeps the rest. */
  lemma PokLowCompose(h: bv8, v: bv8, o: bv8)
    requires Within(h, 0xFC) && o < 4
    ensures ((h | (v & 0x03)) & 0xFC) | o == h | o
  {
  }

  /** POK_SET after the power-on and long-press steps: bits 6-7 and 4-5 replaced. */
  function PokUpperBits(r: bv8, on: nat, l: bv8): bv8
  {
    (((r & 0x3F) | OnTimeBits(on)) & 0xCF) | (l << 4)
  }

  /** POK_SET after the off-level enable and restart steps: bit 3 replaced, bit 2 set or cleared. */
  function PokLowerBits(r: bv8, e: bv8, func: bool): bv8
  {
    var v := (r & 0xF7) | (e << 3);
    if func then v | 0x04 else Rest(v, 0x04)
  }

  /** The four POK_SET steps, starting from register value r0, leave PokHigh of the clamped configuration over bits 0-1 of r0. */
  lemma PokStepsCompose(r0: bv8, r2: bv8, r4: bv8, c0: Config)
    requires r2 == PokUpperBits(r0, Get(c0, PmuPowkeyOnTime), LongCode(LongTimeClamp(c0)))
    requires var c := OffEnNormal(LongTimeClamp(c0));
      r4 == PokLowerBits(r2, U8(Get(c, PmuPowkeyOffEn)), Get(c, PmuPowkeyOffFunc) != 0)
    ensures r4 == PokHigh(OffEnNormal(LongTimeClamp(c0))) | (r0 & 0x03)
  {
    var c1 := LongTimeClamp(c0);
    var c := OffEnNormal(c1);
    assert Get(c, PmuPowkeyOnTime) == Get(c0, PmuPowkeyOnTime);
    assert Get(c, PmuPowkeyLongTime) == Get(c1, PmuPowkeyLongTime);
    var l, e := LongEnCodes(c);
    PokCompose(r0, OnTimeBits(Get(c, PmuPowkeyOnTime)), l, e, Get(c, PmuPowkeyOffFunc) != 0);
  }

  /** Replacing bits 0-1 of the four steps' result with the off-time code gives PokSetByte of the final configuration. */
  lemma PokAfterOffTime(r0: bv8, r1: bv8, r2: bv8, v: bv8, c1: Config)
    requires 1000 <= Get(c1, PmuPowkeyLongTime) <= 2500 && Get(c1, PmuPowkeyOffEn) <= 1
    requires r1 == PokHigh(c1) | (r0 & 0x03)
    requires r2 == (r1 & 0xFC) | U8(Get(OffTimeCode(c1), PmuPowkeyOffTime)) && v == r2
    ensures r2 == PokSetByte(OffTimeCode(c1)) && v == r2
  {
    var c := OffTimeCode(c1);
    assert PokHigh(c) == PokHigh(c1) by {
      assert Get(c, PmuPowkeyOnTime) == Get(c1, PmuPowkeyOnTime);
      assert Get(c, PmuPowkeyLongTime) == Get(c1, PmuPowkeyLongTime);
      assert Get(c, PmuPowkeyOffEn) == Get(c1, PmuPowkeyOffEn);
      assert Get(c, PmuPowkeyOffFunc) == Get(c1, PmuPowkeyOffFunc);
    }
    var o := OffCode(c);
    PokSetHigh(c1);
    PokLowCompose(PokHigh(c1), r0, o);
  }

  /** The RDC code: (rdc * 10000 + 5371) / 10742 in u32. */
  function RdcCode(rdc: nat): (k: nat)
    ensures rdc * 10000 + 5371 < TWO32 ==> k == (rdc * 10000 + 5371) / 10742
  {
    U32(rdc * 10000 + 5371) / 10742
  }

  /** ((rdc >> 8) & 0x1F) | 0x80: bits 12-8 of the code with the valid bit. */
  function RdcHigh(k: nat): bv8
  {
    U8((k / 256) % 32 + 0x80)
  }

  /** rdc & 0xFF. */
  function RdcLow(k: nat): bv8
  {
    U8(k)
  }

  /** RDC0 carries the valid bit and, with RDC1, the code modulo 2^13. */
  lemma RdcRoundTrip(k: nat)
    ensures AllSet(RdcHigh(k), 0x80)
    ensures (RdcHigh(k) as int % 32) * 256 + RdcLow(k) as int == k % 8192
  {
    var h := (k / 256) % 32;
    assert RdcHigh(k) as int == h + 128;
    ByteLt(127, RdcHigh(k));
    HighSet(RdcHigh(k));
    Split13(k);
  }

  /** A byte of value 128 or more has bit 7 set. */
  lemma HighSet(b: bv8)
    requires 127 < b
    ensures AllSet(b, 0x80)
  {
  }

  /** The low 13 bits of k are its low byte and bits 8-12. */
  lemma Split13(k: nat)
    ensures ((k / 256) % 32) * 256 + k % 256 == k % 8192
  {
    var q := k / 256;
    assert k == 8192 * (q / 32) + 256 * (q % 32) + k % 256;
  }

  /** The low 15 bits of k are its low byte and bits 8-14. */
  lemma Split15(k: nat)
    ensures ((k / 256) % 128) * 256 + k % 256 == k % 32768
  {
    var q := k / 256;
    assert k == 32768 * (q / 128) + 256 * (q % 128) + k % 256;
  }

  /** The battery capacity in coulomb-counter steps: cap * 1000 / 1456 in u32. */
  function CapCode(cap: nat): (k: nat)
  {
    U32(cap * 1000) / 1456
  }

  /** (k >> 8) | 0x80, cut to u8. */
  function CapHigh(k: nat): bv8
  {
    U8(k / 256) | 0x80
  }

  /**
   * A capacity below 47000 mAh written at init reads back through the
   * maximum-capacity decode of get_rest_cap within 2 mAh below it.
   */
  lemma CapRoundTrip(cap: nat)
    requires cap < 47000
    ensures var k := CapCode(cap);
      AllSet(CapHigh(k), 0x80)
      && cap - 2 <= Coulomb(CapHigh(k), U8(k)) <= cap
  {
    var k := CapCode(cap);
    CapCodeBounds(cap);
    CapBytes(k);
    CoulombValue(CapHigh(k), U8(k), k);
  }

  /** A code below 2^15 is held whole by the two BATCAP bytes, with the valid bit set. */
  lemma CapBytes(k: nat)
    requires k < 32768
    ensures (CapHigh(k) & 0x7F) as int * 256 + U8(k) as int == k
    ensures AllSet(CapHigh(k), 0x80)
  {
    var h := U8(k / 256);
    assert h as int == k / 256;
    ValidLow(h);
  }

  lemma CoulombValue(b0: bv8, b1: bv8, n: int)
    requires (b0 & 0x7F) as int * 256 + b1 as int == n
    ensures Coulomb(b0, b1) == n * 1456 / 1000
  {
  }

  /** The capacity code stays below 2^15 and k * 1.456 is within 1.456 of the capacity. */
  lemma CapCodeBounds(cap: nat)
    requires cap < 47000
    ensures var k := CapCode(cap);
      k < 32768 && k * 1456 <= cap * 1000 < k * 1456 + 1456
      && cap - 2 <= k * 1456 / 1000 <= cap
  {
    assert U32(cap * 1000) == cap * 1000;
  }

  /** Setting the valid bit leaves the seven value bits and sets bit 7. */
  lemma ValidLow(h: bv8)
    ensures ((h | 0x80) & 0x7F) as int == h as int % 128
    ensures AllSet(h | 0x80, 0x80)
  {
    assert (h | 0x80) & 0x7F == h & 0x7F;
  }

  // ---------------------------------------------------------------------
  // The battery flag bits (read-modify-write of single bits)

  datatype FlagOp = FlagOp(reg: int, mask: bv8, on: bool)

  /** The set/clear calls of axp22_charger_init, in source order. */
  function FlagOps(c: Config, regs: Axp22Regs): (ops: seq<FlagOp>)
    ensures |ops| == 10
  {
    [ FlagOp(0x8F, 0x08, Get(c, PmuReset) != 0),
      FlagOp(0x8F, 0x80, Get(c, PmuIrqWakeup) != 0),
      FlagOp(0x8F, 0x10, Get(c, PmuVbusenFunc) != 0),
      FlagOp(0x8F, 0x60, Get(c, PmuInshort) != 0),
      FlagOp(0x32, 0x08, Get(c, PmuChgledFunc) != 0),
      FlagOp(0x34, 0x10, Get(c, PmuChgledType) != 0),
      FlagOp(0x8F, 0x04, Get(c, PmuHotShutdown) != 0),
      FlagOp(0xB8, 0x20, Get(c, PmuBattCapCorrect) != 0),
      FlagOp(0x34, 0x20, Get(c, PmuChgEndOnEn) != 0),
      FlagOp(regs.pdbc, 0x40, Get(c, PmuBatdeten) != 0) ]
  }

  /** One axp_regmap_set_bits or axp_regmap_clr_bits call. */
  function ApplyFlag(bus: Bus, op: FlagOp): (b: Bus)
    ensures b.faulty == bus.faulty && b.err == bus.err
  {
    if op.on then SetBits(bus, op.reg, op.mask, false).0 else ClrBits(bus, op.reg, op.mask, false).0
  }

  function ApplyFlags(bus: Bus, ops: seq<FlagOp>): (b: Bus)
    ensures b.faulty == bus.faulty && b.err == bus.err
    decreases |ops|
  {
    if |ops| == 0 then bus else ApplyFlags(ApplyFlag(bus, ops[0]), ops[1..])
  }

  /** The bits of `m` in register `a` are set (on) or clear (off). */
  predicate FlagHolds(bus: Bus, a: int, m: bv8, on: bool)
  {
    if on then AllSet(Reg(bus, a), m) else !AnySet(Reg(bus, a), m)
  }

  /** `op` works on another register or on bits outside `m`. */
  predicate Clear(op: FlagOp, a: int, m: bv8)
  {
    Addr(op.reg) != a || op.mask & m == 0
  }

  /** An operation elsewhere or on other bits keeps a flag. */
  lemma ApplyFlagKeeps(bus: Bus, op: FlagOp, a: int, m: bv8, on: bool)
    requires FlagHolds(bus, a, m, on)
    requires Clear(op, a, m)
    ensures FlagHolds(ApplyFlag(bus, op), a, m, on)
  {
    var b := ApplyFlag(bus, op);
    if Addr(op.reg) !in bus.faulty {
      var v := Reg(bus, Addr(op.reg));
      assert (Reg(b, Addr(op.reg)) == v | op.mask || Reg(b, Addr(op.reg)) == Rest(v, op.mask))
          && SameExcept(b, bus, Addr(op.reg)) by {
        ApplyFlagStep(bus, op);
      }
      if Addr(op.reg) == a {
        DisjointBits(v, op.mask, m);
      }
    } else {
      assert b == bus;
    }
  }

  /** A reachable operation ORs in or clears its mask and touches no other register. */
  lemma ApplyFlagStep(bus: Bus, op: FlagOp)
    requires Addr(op.reg) !in bus.faulty
    ensures var b := ApplyFlag(bus, op);
      var v := Reg(bus, Addr(op.reg));
      (Reg(b, Addr(op.reg)) == v | op.mask || Reg(b, Addr(op.reg)) == Rest(v, op.mask))
      && SameExcept(b, bus, Addr(op.reg))
  {
    if op.on {
      SetBitsEffect(bus, op.reg, op.mask, false);
    } else {
      ClrBitsEffect(bus, op.reg, op.mask, false);
    }
  }

  /** A reachable operation leaves its own bits as requested. */
  lemma ApplyFlagSets(bus: Bus, op: FlagOp)
    requires Addr(op.reg) !in bus.faulty
    ensures FlagHolds(ApplyFlag(bus, op), Addr(op.reg), op.mask, op.on)
  {
    if op.on {
      SetBitsEffect(bus, op.reg, op.mask, false);
      OrMask(Reg(bus, Addr(op.reg)), op.mask);
    } else {
      ClrBitsEffect(bus, op.reg, op.mask, false);
      AndNotMask(Reg(bus, Addr(op.reg)), op.mask);
    }
  }

  lemma DisjointBits(v: bv8, mask: bv8, m: bv8)
    requires mask & m == 0
    ensures (v | mask) & m == v & m && Rest(v, mask) & m == v & m
  {
  }

  /** A flag no later operation touches survives the rest of the list. */
  lemma {:induction false} ApplyFlagsKeeps(bus: Bus, ops: seq<FlagOp>, a: int, m: bv8, on: bool)
    requires FlagHolds(bus, a, m, on)
    requires forall j :: 0 <= j < |ops| ==> Clear(ops[j], a, m)
    ensures FlagHolds(ApplyFlags(bus, ops), a, m, on)
    decreases |ops|
  {
    if |ops| > 0 {
      var b := ApplyFlag(bus, ops[0]);
      assert FlagHolds(b, a, m, on) by {
        ApplyFlagKeeps(bus, ops[0], a, m, on);
      }
      AfterTail(ops, 0, a, m);
      ApplyFlagsKeeps(b, ops[1..], a, m, on);
    }
  }

  /**
   * After the list, the k-th operation's bits are as it requested, provided
   * its register is reachable and no later operation on the same register
   * overlaps them.
   */
  lemma {:induction false} FlagApplied(bus: Bus, ops: seq<FlagOp>, k: nat)
    requires k < |ops| && Addr(ops[k].reg) !in bus.faulty
    requires forall j :: k < j < |ops| ==> Clear(ops[j], Addr(ops[k].reg), ops[k].mask)
    ensures FlagHolds(ApplyFlags(bus, ops), Addr(ops[k].reg), ops[k].mask, ops[k].on)
    decreases k
  {
    var op := ops[k];
    var b := ApplyFlag(bus, ops[0]);
    AfterTail(ops, k, Addr(op.reg), op.mask);
    if k == 0 {
      assert FlagHolds(b, Addr(op.reg), op.mask, op.on) by {
        ApplyFlagSets(bus, op);
      }
      ApplyFlagsKeeps(b, ops[1..], Addr(op.reg), op.mask, op.on);
    } else {
      assert ops[1..][k - 1] == op;
      FlagApplied(b, ops[1..], k - 1);
    }
  }

  /** What holds of the operations after index k holds of the tail's operations after k - 1. */
  lemma AfterTail(ops: seq<FlagOp>, k: nat, a: int, m: bv8)
    requires k < |ops|
    requires forall j :: k < j < |ops| ==> Clear(ops[j], a, m)
    ensures forall j :: k <= j < |ops| - 1 ==> Clear(ops[1..][j], a, m)
  {
    forall j | k <= j < |ops| - 1
      ensures Clear(ops[1..][j], a, m)
    {
      assert ops[1..][j] == ops[j + 1];
    }
  }

  /** Registers no operation names keep their value. */
  lemma {:induction false} ApplyFlagsOther(bus: Bus, ops: seq<FlagOp>, a: int)
    requires forall j :: 0 <= j < |ops| ==> Addr(ops[j].reg) != a
    ensures Reg(ApplyFlags(bus, ops), a) == Reg(bus, a)
    decreases |ops|
  {
    if |ops| > 0 {
      var op := ops[0];
      if Addr(op.reg) !in bus.faulty {
        if op.on {
          SetBitsEffect(bus, op.reg, op.mask, false);
        } else {
          ClrBitsEffect(bus, op.reg, op.mask, false);
        }
      }
      ApplyFlagsOther(ApplyFlag(bus, op), ops[1..], a);
    }
  }

  /** No operation is followed by a later one on overlapping bits of the same register. */
  ghost predicate Independent(ops: seq<FlagOp>)
  {
    forall k, j :: 0 <= k < j < |ops| ==>
      Clear(ops[j], Addr(ops[k].reg), ops[k].mask)
  }

  /** Every reachable operation of an independent list takes effect. */
  lemma AllFlagsApplied(bus: Bus, ops: seq<FlagOp>)
    requires Independent(ops)
    ensures forall k :: 0 <= k < |ops| && Addr(ops[k].reg) !in bus.faulty ==>
      FlagHolds(ApplyFlags(bus, ops), Addr(ops[k].reg), ops[k].mask, ops[k].on)
  {
    forall k | 0 <= k < |ops| && Addr(ops[k].reg) !in bus.faulty
      ensures FlagHolds(ApplyFlags(bus, ops), Addr(ops[k].reg), ops[k].mask, ops[k].on)
    {
      FlagApplied(bus, ops, k);
    }
  }

  /** The flag list of axp22_charger_init, unless PDBC is register 0x8F, has no overlaps. */
  lemma FlagOpsIndependent(c: Config, regs: Axp22Regs)
    requires Addr(regs.pdbc) != 0x8F
    ensures Independent(FlagOps(c, regs))
  {
    var ops := FlagOps(c, regs);
    var masks: seq<bv8> := [0x08, 0x80, 0x10, 0x60, 0x08, 0x10, 0x04, 0x20, 0x20, 0x40];
    var addrs := [0x8F, 0x8F, 0x8F, 0x8F, 0x32, 0x34, 0x8F, 0xB8, 0x34, Addr(regs.pdbc)];
    assert forall k :: 0 <= k < 10 ==> ops[k].mask == masks[k] && Addr(ops[k].reg) == addrs[k];
    forall k, j | 0 <= k < j < 10
      ensures Clear(ops[j], Addr(ops[k].reg), ops[k].mask)
    {
      assert addrs[j] != addrs[k] || masks[j] & masks[k] == 0;
    }
  }

  /** The five flags of register 0x8F are set or cleared as their pmu_* settings ask. */
  lemma Flags8FEffect(bus: Bus, c: Config, regs: Axp22Regs)
    requires Addr(regs.pdbc) != 0x8F && 0x8F !in bus.faulty
    ensures var b := ApplyFlags(bus, FlagOps(c, regs));
      FlagHolds(b, 0x8F, 0x08, Get(c, PmuReset) != 0)
      && FlagHolds(b, 0x8F, 0x80, Get(c, PmuIrqWakeup) != 0)
      && FlagHolds(b, 0x8F, 0x10, Get(c, PmuVbusenFunc) != 0)
      && FlagHolds(b, 0x8F, 0x60, Get(c, PmuInshort) != 0)
      && FlagHolds(b, 0x8F, 0x04, Get(c, PmuHotShutdown) != 0)
  {
    var ops := FlagOps(c, regs);
    FlagOpsIndependent(c, regs);
    FlagAt(bus, ops, 0, 0x8F);
    FlagAt(bus, ops, 1, 0x8F);
    FlagAt(bus, ops, 2, 0x8F);
    FlagAt(bus, ops, 3, 0x8F);
    FlagAt(bus, ops, 6, 0x8F);
  }

  /** The CHGLED, capacity-correction, charge-end and battery-detection flags follow their settings. */
  lemma FlagsOtherEffect(bus: Bus, c: Config, regs: Axp22Regs)
    requires Addr(regs.pdbc) != 0x8F
    ensures var b := ApplyFlags(bus, FlagOps(c, regs));
      (0x32 !in bus.faulty ==> FlagHolds(b, 0x32, 0x08, Get(c, PmuChgledFunc) != 0))
      && (0x34 !in bus.faulty ==>
            FlagHolds(b, 0x34, 0x10, Get(c, PmuChgledType) != 0) && FlagHolds(b, 0x34, 0x20, Get(c, PmuChgEndOnEn) != 0))
      && (0xB8 !in bus.faulty ==> FlagHolds(b, 0xB8, 0x20, Get(c, PmuBattCapCorrect) != 0))
      && (Addr(regs.pdbc) !in bus.faulty ==> FlagHolds(b, Addr(regs.pdbc), 0x40, Get(c, PmuBatdeten) != 0))
  {
    var ops := FlagOps(c, regs);
    FlagOpsIndependent(c, regs);
    FlagAt(bus, ops, 4, 0x32);
    FlagAt(bus, ops, 5, 0x34);
    FlagAt(bus, ops, 7, 0xB8);
    FlagAt(bus, ops, 8, 0x34);
    FlagAt(bus, ops, 9, Addr(regs.pdbc));
  }

  /** The k-th operation of an independent list, on register `a`, takes effect when `a` is reachable. */
  lemma FlagAt(bus: Bus, ops: seq<FlagOp>, k: nat, a: int)
    requires Independent(ops) && k < |ops| && Addr(ops[k].reg) == a
    ensures a !in bus.faulty ==> FlagHolds(ApplyFlags(bus, ops), a, ops[k].mask, ops[k].on)
  {
    if a !in bus.faulty {
      FlagApplied(bus, ops, k);
    }
  }

  /** The whole configuration after axp22_charger_init's clamps. */
  function InitConfig(c: Config): Config
  {
    PowerKeyConfig(ChgTimeConfig(c))
  }

  /** The buses agree on error behaviour and on every register outside `s`. */
  ghost predicate OnlyChanged(b0: Bus, b1: Bus, s: set<int>)
  {
    b1.faulty == b0.faulty && b1.err == b0.err
    && forall x :: x !in s ==> Reg(b1, x) == Reg(b0, x)
  }

  lemma OnlyChangedTrans(b0: Bus, b1: Bus, b2: Bus, s1: set<int>, s2: set<int>)
    requires OnlyChanged(b0, b1, s1) && OnlyChanged(b1, b2, s2)
    ensures OnlyChanged(b0, b2, s1 + s2)
  {
  }

  /**
   * The driver state axp22_charger_init works on: the register map and
   * the configuration record it clamps in place.
   */
  class Charger {
    var bus: Bus
    var cfg: Config
    const regs: Axp22Regs

    constructor (bus0: Bus, cfg0: Config, regs0: Axp22Regs)
      ensures bus == bus0 && cfg == cfg0 && regs == regs0
    {
      bus := bus0;
      cfg := cfg0;
      regs := regs0;
    }

    /** axp_regmap_write of one register. */
    method WriteReg(reg: int, v: bv8)
      modifies this`bus
      ensures bus == Write(old(bus), reg, v, false).0
      ensures OnlyChanged(old(bus), bus, {Addr(reg)})
      ensures Addr(reg) !in bus.faulty ==> Reg(bus, Addr(reg)) == v
      ensures Addr(reg) in bus.faulty ==> bus == old(bus)
    {
      var b := bus;
      bus := Write(bus, reg, v, false).0;
      if Addr(reg) !in b.faulty {
        WriteEffect(b, reg, v, false);
      }
    }

    /** axp_regmap_update of the bits `mask` of one register. */
    method UpdateField(reg: int, val: bv8, mask: bv8)
      modifies this`bus
      ensures bus == Update(old(bus), reg, val, mask, false).0
      ensures OnlyChanged(old(bus), bus, {Addr(reg)})
      ensures Addr(reg) !in bus.faulty ==> Reg(bus, Addr(reg)) == Merge(Reg(old(bus), Addr(reg)), mask, val)
    {
      var b := bus;
      bus := Update(bus, reg, val, mask, false).0;
      if Addr(reg) !in b.faulty {
        UpdateReg(b, reg, val, mask, false);
      }
    }

    /** axp_regmap_set_bits (on) or axp_regmap_clr_bits of one register. */
    method FlagStep(reg: int, mask: bv8, on: bool)
      modifies this`bus
      ensures OnlyChanged(old(bus), bus, {Addr(reg)})
      ensures Addr(reg) !in bus.faulty ==>
        Reg(bus, Addr(reg)) == if on then Reg(old(bus), Addr(reg)) | mask else Rest(Reg(old(bus), Addr(reg)), mask)
    {
      if on {
        SetFlag(reg, mask);
      } else {
        ClrFlag(reg, mask);
      }
    }

    /** axp_regmap_set_bits of one register. */
    method SetFlag(reg: int, mask: bv8)
      modifies this`bus
      ensures bus == SetBits(old(bus), reg, mask, false).0
      ensures OnlyChanged(old(bus), bus, {Addr(reg)})
      ensures Addr(reg) !in bus.faulty ==> Reg(bus, Addr(reg)) == Reg(old(bus), Addr(reg)) | mask
    {
      var b := bus;
      bus := SetBits(bus, reg, mask, false).0;
      if Addr(reg) !in b.faulty {
        SetBitsEffect(b, reg, mask, false);
      }
    }

    /** axp_regmap_clr_bits of one register. */
    method ClrFlag(reg: int, mask: bv8)
      modifies this`bus
      ensures bus == ClrBits(old(bus), reg, mask, false).0
      ensures OnlyChanged(old(bus), bus, {Addr(reg)})
      ensures Addr(reg) !in bus.faulty ==> Reg(bus, Addr(reg)) == Rest(Reg(old(bus), Addr(reg)), mask)
    {
      var b := bus;
      bus := ClrBits(bus, reg, mask, false).0;
      if Addr(reg) !in b.faulty {
        ClrBitsEffect(b, reg, mask, false);
      }
    }

    /**
     * axp_regmap_read into `val`, (val & keep) | bits, axp_regmap_write:
     * a failed read leaves `val` as it was (v0).
     */
    method Rmw(reg: int, keep: bv8, bits: bv8, v0: bv8) returns (v: bv8)
      modifies this`bus
      ensures v == (ReadInto(old(bus), reg, v0) & keep) | bits
      ensures OnlyChanged(old(bus), bus, {Addr(reg)})
      ensures Addr(reg) !in bus.faulty ==> Reg(bus, Addr(reg)) == v
    {
      v := ReadInto(bus, reg, v0);
      v := (v & keep) | bits;
      WriteReg(reg, v);
    }

    /** Lines 323-339: CHARGE_CONTROL1 from the uninitialised `val`, the timer clamps and CHARGE_CONTROL2. */
    method ChargeControlInit(stale: bv8)
      modifies this
      ensures cfg == ChgTimeConfig(old(cfg))
      ensures var a1, a2 := Addr(regs.chargeControl1), Addr(regs.chargeControl2);
        OnlyChanged(old(bus), bus, {a1, a2})
        && (a1 != a2 && a1 !in bus.faulty ==> Reg(bus, a1) == Control1Bits(stale, Get(old(cfg), PmuInitChgendRate)))
        && (a1 != a2 && a2 !in bus.faulty ==>
              Reg(bus, a2) == Merge(Reg(old(bus), a2), 0xC2,
                                    PreCstBits(Get(cfg, PmuInitChgPretime), Get(cfg, PmuInitChgCsttime))))
    {
      ghost var b0 := bus;
      var val := Control1Bits(stale, Get(cfg, PmuInitChgendRate));
      WriteReg(regs.chargeControl1, val);
      ghost var b1 := bus;
      if Get(cfg, PmuInitChgPretime) < 30 {
        cfg := cfg[PmuInitChgPretime := 30];
      }
      if Get(cfg, PmuInitChgCsttime) < 360 {
        cfg := cfg[PmuInitChgCsttime := 360];
      }
      val := PreCstBits(Get(cfg, PmuInitChgPretime), Get(cfg, PmuInitChgCsttime));
      UpdateField(regs.chargeControl2, val, 0xC2);
      OnlyChangedTrans(b0, b1, bus, {Addr(regs.chargeControl1)}, {Addr(regs.chargeControl2)});
    }

    /** Lines 342-372: the ADC enables and ADC_CONTROL3; returns `val` as the section leaves it. */
    method AdcInit() returns (val: bv8)
      modifies this`bus
      ensures var a, a3 := Addr(regs.adcControl), Addr(regs.adcControl3);
        var t := Get(cfg, PmuBatTempEnable);
        var en := AdcEnableBits(regs, t);
        OnlyChanged(old(bus), bus, {a, a3})
        && (a != a3 && a !in bus.faulty ==>
              Reg(bus, a) == Merge(Reg(old(bus), a), regs.adcBatVol | regs.adcBatCur | regs.adcTsVol, en))
        && (a != a3 && a3 !in bus.faulty ==>
              val == Adc3Bits(Reg(old(bus), a3), Get(cfg, PmuInitAdcFreq), t) && Reg(bus, a3) == val)
        && (a3 in bus.faulty ==> val == Adc3Bits(en, Get(cfg, PmuInitAdcFreq), t))
    {
      ghost var b0 := bus;
      var t := Get(cfg, PmuBatTempEnable);
      val := AdcEnableBits(regs, t);
      UpdateField(regs.adcControl, val, regs.adcBatVol | regs.adcBatCur | regs.adcTsVol);
      ghost var b1 := bus;
      val := ReadInto(bus, regs.adcControl3, val);
      val := Adc3Bits(val, Get(cfg, PmuInitAdcFreq), t);
      WriteReg(regs.adcControl3, val);
      OnlyChangedTrans(b0, b1, bus, {Addr(regs.adcControl)}, {Addr(regs.adcControl3)});
    }

    /** Lines 375-410: the warning levels and the OCV table at 0xC0. */
    method BatteryParamInit()
      modifies this`bus
      ensures bus == RunChunks(Write(old(bus), regs.warningLevel, WarningByte(cfg), false).0,
                               ChunkPlan(0xC0, OcvBytes(cfg)), false).bus
    {
      WriteReg(regs.warningLevel, WarningByte(cfg));
      var ocv := OcvBytes(cfg);
      var out, ret, sent := Writes(bus, 0xC0, ocv, false);
      bus := out;
    }

    /**
     * Lines 412-476: POK_SET and OFF_CTL.  Each step re-reads the register
     * into `val`, so a failed read carries the previous step's value on.
     */
    method PowerKeyInit(val0: bv8) returns (val: bv8)
      modifies this
      ensures cfg == PowerKeyConfig(old(cfg))
      ensures var p, o := Addr(regs.pokSet), Addr(regs.offCtl);
        OnlyChanged(old(bus), bus, {p, o})
        && (p != o && p !in bus.faulty ==> Reg(bus, p) == PokSetByte(cfg) && val == PokSetByte(cfg))
        && (p != o && o !in bus.faulty ==>
              Reg(bus, o) == Merge(Reg(old(bus), o), 0x03, PwrokBits(Get(cfg, PmuPwrokTime))))
    {
      var p, o := Addr(regs.pokSet), Addr(regs.offCtl);
      ghost var c0, b0 := cfg, bus;
      val := PokSetSteps(val0);
      ghost var c1, b1 := cfg, bus;
      val := PwrokDelay(val);
      ghost var b2 := bus;
      val := PokOffTime(val);
      OnlyChangedTrans(b0, b1, b2, {p}, {o});
      OnlyChangedTrans(b0, b2, bus, {p, o}, {p});
      assert {p, o} + {p} == {p, o};
      if p != o && p !in bus.faulty {
        PokAfterOffTime(Reg(b0, p), Reg(b1, p), Reg(bus, p), val, c1);
      }
      if p != o && o !in bus.faulty {
        assert Get(cfg, PmuPwrokTime) == Get(c1, PmuPwrokTime);
      }
    }

    /** Lines 457-463: the power-ok delay into OFF_CTL bits 0-1. */
    method PwrokDelay(val0: bv8) returns (val: bv8)
      modifies this`bus
      ensures var o := Addr(regs.offCtl);
        OnlyChanged(old(bus), bus, {o})
        && (o !in bus.faulty ==> Reg(bus, o) == Merge(Reg(old(bus), o), 0x03, PwrokBits(Get(cfg, PmuPwrokTime))))
        && (o in bus.faulty ==> val == (val0 & 0xFC) | PwrokBits(Get(cfg, PmuPwrokTime)))
    {
      val := RmwLow(regs.offCtl, PwrokBits(Get(cfg, PmuPwrokTime)), val0);
    }

    /** A read-modify-write that replaces bits 0-1 of one register with `d`. */
    method RmwLow(reg: int, d: bv8, v0: bv8) returns (v: bv8)
      modifies this`bus
      ensures OnlyChanged(old(bus), bus, {Addr(reg)})
      ensures Addr(reg) !in bus.faulty ==> Reg(bus, Addr(reg)) == Merge(Reg(old(bus), Addr(reg)), 0x03, d)
      ensures Addr(reg) in bus.faulty ==> v == (v0 & 0xFC) | d
    {
      ghost var r0 := Reg(bus, Addr(reg));
      v := Rmw(reg, 0xFC, d, v0);
      MergeLow(r0, d);
    }

    /** Lines 466-476: the off-level time, clamped and encoded, into POK_SET bits 0-1. */
    method PokOffTime(val0: bv8) returns (val: bv8)
      modifies this
      ensures cfg == OffTimeCode(old(cfg))
      ensures var p := Addr(regs.pokSet);
        OnlyChanged(old(bus), bus, {p})
        && (p !in bus.faulty ==>
              Reg(bus, p) == (Reg(old(bus), p) & 0xFC) | U8(Get(cfg, PmuPowkeyOffTime)) && val == Reg(bus, p))
    {
      EncodeOffTime();
      val := Rmw(regs.pokSet, 0xFC, U8(Get(cfg, PmuPowkeyOffTime)), val0);
    }

    /**
     * Lines 412-454: the four POK_SET steps (power-on time, long press,
     * off-level enable, off-level restart); bits 0-1 keep their old value.
     */
    method PokSetSteps(val0: bv8) returns (val: bv8)
      modifies this
      ensures cfg == OffEnNormal(LongTimeClamp(old(cfg)))
      ensures var p := Addr(regs.pokSet);
        OnlyChanged(old(bus), bus, {p})
        && (p !in bus.faulty ==> Reg(bus, p) == PokHigh(cfg) | (Reg(old(bus), p) & 0x03))
    {
      var p := Addr(regs.pokSet);
      ghost var c0, b0 := cfg, bus;
      val := PokUpper(val0);
      ghost var b2 := bus;
      val := PokLower(val);
      OnlyChangedTrans(b0, b2, bus, {p}, {p});
      if p !in bus.faulty {
        PokStepsCompose(Reg(b0, p), Reg(b2, p), Reg(bus, p), c0);
      }
    }

    /** Lines 412-437: the power-on time into bits 6-7, then the clamped long-press time into bits 4-5. */
    method PokUpper(val0: bv8) returns (val: bv8)
      modifies this
      ensures cfg == LongTimeClamp(old(cfg))
      ensures var p := Addr(regs.pokSet);
        OnlyChanged(old(bus), bus, {p})
        && (p !in bus.faulty ==>
              Reg(bus, p) == PokUpperBits(Reg(old(bus), p), Get(cfg, PmuPowkeyOnTime), LongCode(cfg)))
    {
      var p := Addr(regs.pokSet);
      ghost var b0 := bus;
      val := PokOnTime(val0);
      ghost var b1 := bus;
      val := PokLongTime(val);
      OnlyChangedTrans(b0, b1, bus, {p}, {p});
      assert Get(cfg, PmuPowkeyOnTime) == Get(old(cfg), PmuPowkeyOnTime);
    }

    /** Lines 440-454: the normalised off-level enable into bit 3, then bit 2 set or cleared. */
    method PokLower(val0: bv8) returns (val: bv8)
      modifies this
      ensures cfg == OffEnNormal(old(cfg))
      ensures var p := Addr(regs.pokSet);
        OnlyChanged(old(bus), bus, {p})
        && (p !in bus.faulty ==>
              Reg(bus, p) == PokLowerBits(Reg(old(bus), p), U8(Get(cfg, PmuPowkeyOffEn)), Get(cfg, PmuPowkeyOffFunc) != 0))
    {
      var p := Addr(regs.pokSet);
      ghost var b0 := bus;
      val := PokOffEn(val0);
      ghost var b1 := bus;
      PokOffFunc();
      OnlyChangedTrans(b0, b1, bus, {p}, {p});
      assert Get(cfg, PmuPowkeyOffFunc) == Get(old(cfg), PmuPowkeyOffFunc);
    }

    /** Lines 412-425: the power-on time into bits 6-7. */
    method PokOnTime(val0: bv8) returns (val: bv8)
      modifies this`bus
      ensures var p := Addr(regs.pokSet);
        OnlyChanged(old(bus), bus, {p})
        && (p !in bus.faulty ==> Reg(bus, p) == (Reg(old(bus), p) & 0x3F) | OnTimeBits(Get(cfg, PmuPowkeyOnTime)))
    {
      val := Rmw(regs.pokSet, 0x3F, OnTimeBits(Get(cfg, PmuPowkeyOnTime)), val0);
    }

    /** Lines 428-437: the long-press time, clamped, into bits 4-5. */
    method PokLongTime(val0: bv8) returns (val: bv8)
      modifies this
      ensures cfg == LongTimeClamp(old(cfg))
      ensures var p := Addr(regs.pokSet);
        OnlyChanged(old(bus), bus, {p})
        && (p !in bus.faulty ==> Reg(bus, p) == (Reg(old(bus), p) & 0xCF) | (LongCode(cfg) << 4))
    {
      ClampLongTime();
      val := Rmw(regs.pokSet, 0xCF, LongCode(cfg) << 4, val0);
    }

    /** Lines 440-448: the off-level enable, made 0 or 1, into bit 3. */
    method PokOffEn(val0: bv8) returns (val: bv8)
      modifies this
      ensures cfg == OffEnNormal(old(cfg))
      ensures var p := Addr(regs.pokSet);
        OnlyChanged(old(bus), bus, {p})
        && (p !in bus.faulty ==> Reg(bus, p) == (Reg(old(bus), p) & 0xF7) | (U8(Get(cfg, PmuPowkeyOffEn)) << 3))
    {
      NormalizeOffEn();
      val := Rmw(regs.pokSet, 0xF7, U8(Get(cfg, PmuPowkeyOffEn)) << 3, val0);
    }

    /** Lines 451-454: the off-level restart, bit 2, set or cleared. */
    method PokOffFunc()
      modifies this`bus
      ensures var p := Addr(regs.pokSet);
        OnlyChanged(old(bus), bus, {p})
        && (p !in bus.faulty ==>
              Reg(bus, p) == if Get(cfg, PmuPowkeyOffFunc) != 0 then Reg(old(bus), p) | 0x04 else Rest(Reg(old(bus), p), 0x04))
    {
      FlagStep(regs.pokSet, 0x04, Get(cfg, PmuPowkeyOffFunc) != 0);
    }

    /** Lines 428-432: the long-press clamp. */
    method ClampLongTime()
      modifies this`cfg
      ensures cfg == LongTimeClamp(old(cfg))
    {
      if Get(cfg, PmuPowkeyLongTime) < 1000 {
        cfg := cfg[PmuPowkeyLongTime := 1000];
      }
      if Get(cfg, PmuPowkeyLongTime) > 2500 {
        cfg := cfg[PmuPowkeyLongTime := 2500];
      }
    }

    /** Lines 440-443: the off-level enable made 0 or 1. */
    method NormalizeOffEn()
      modifies this`cfg
      ensures cfg == OffEnNormal(old(cfg))
    {
      if Get(cfg, PmuPowkeyOffEn) != 0 {
        cfg := cfg[PmuPowkeyOffEn := 1];
      } else {
        cfg := cfg[PmuPowkeyOffEn := 0];
      }
    }

    /** Lines 466-471: the off-level time clamped and stored back as its code. */
    method EncodeOffTime()
      modifies this`cfg
      ensures cfg == OffTimeCode(old(cfg))
    {
      if Get(cfg, PmuPowkeyOffTime) < 4000 {
        cfg := cfg[PmuPowkeyOffTime := 4000];
      }
      if Get(cfg, PmuPowkeyOffTime) > 10000 {
        cfg := cfg[PmuPowkeyOffTime := 10000];
      }
      cfg := cfg[PmuPowkeyOffTime := (Get(cfg, PmuPowkeyOffTime) - 4000) / 2000];
    }

    /** Lines 479-535: the single-bit flags. */
    method FlagsInit()
      modifies this`bus
      ensures bus == ApplyFlags(old(bus), FlagOps(cfg, regs))
    {
      bus := ApplyFlags(bus, FlagOps(cfg, regs));
    }

    /**
     * Lines 538-543: RDC0/RDC1 are programmed when a resistance is
     * configured and RDC0 bit 6 is clear; after a failed read the test
     * looks at the `val` the previous section left.
     */
    method RdcInit(val0: bv8) returns (val: bv8)
      modifies this`bus
      ensures var r0, r1 := Addr(regs.rdc0), Addr(regs.rdc1);
        var k := RdcCode(Get(cfg, PmuBatteryRdc));
        var go := Get(cfg, PmuBatteryRdc) != 0 && !AnySet(val, 0x40);
        val == ReadInto(old(bus), regs.rdc0, val0)
        && OnlyChanged(old(bus), bus, {r0, r1})
        && (!go ==> bus == old(bus))
        && (go && r0 != r1 && r0 !in bus.faulty ==> Reg(bus, r0) == RdcHigh(k))
        && (go && r1 !in bus.faulty ==> Reg(bus, r1) == RdcLow(k))
    {
      val := ReadInto(bus, regs.rdc0, val0);
      if Get(cfg, PmuBatteryRdc) != 0 && !AnySet(val, 0x40) {
        var k := RdcCode(Get(cfg, PmuBatteryRdc));
        WritePair(regs.rdc0, regs.rdc1, RdcHigh(k), RdcLow(k));
      }
    }

    /**
     * Lines 545-556: BATCAP0/BATCAP1 get the capacity code with the valid
     * bit when a capacity is configured and bit 7 is clear, and are zeroed
     * when no capacity is configured.
     */
    method CapacityInit(val0: bv8)
      modifies this`bus
      ensures var c0, c1 := Addr(regs.batcap0), Addr(regs.batcap1);
        var cap := Get(cfg, PmuBatteryCap);
        var v := ReadInto(old(bus), regs.batcap0, val0);
        var k := CapCode(cap);
        OnlyChanged(old(bus), bus, {c0, c1})
        && (cap != 0 && AnySet(v, 0x80) ==> bus == old(bus))
        && (c0 != c1 && c0 !in bus.faulty ==>
              Reg(bus, c0) == (if cap == 0 then 0 else if AnySet(v, 0x80) then Reg(old(bus), c0) else CapHigh(k)))
        && (c0 != c1 && c1 !in bus.faulty ==>
              Reg(bus, c1) == (if cap == 0 then 0 else if AnySet(v, 0x80) then Reg(old(bus), c1) else U8(k)))
    {
      var val := ReadInto(bus, regs.batcap0, val0);
      var cap := Get(cfg, PmuBatteryCap);
      if cap != 0 && !AnySet(val, 0x80) {
        var k := CapCode(cap);
        WritePair(regs.batcap0, regs.batcap1, CapHigh(k), U8(k));
      } else if cap == 0 {
        WritePair(regs.batcap0, regs.batcap1, 0x00, 0x00);
      }
    }

    /** Two single-register writes in a row. */
    method WritePair(x: int, y: int, vx: bv8, vy: bv8)
      modifies this`bus
      ensures bus == Write(Write(old(bus), x, vx, false).0, y, vy, false).0
      ensures OnlyChanged(old(bus), bus, {Addr(x), Addr(y)})
      ensures Addr(x) != Addr(y) && Addr(x) !in bus.faulty ==> Reg(bus, Addr(x)) == vx
      ensures Addr(y) !in bus.faulty ==> Reg(bus, Addr(y)) == vy
    {
      ghost var b0 := bus;
      WriteReg(x, vx);
      ghost var b1 := bus;
      WriteReg(y, vy);
      OnlyChangedTrans(b0, b1, bus, {Addr(x)}, {Addr(y)});
    }

    /**
     * axp22_charger_init: the sections in order, each handing its `val` to
     * the next read that can fail.  `stale` is the uninitialised `val` the
     * first section starts from.  Always returns 0.
     */
    method ChargerInit(stale: bv8) returns (ret: int)
      modifies this
      ensures ret == 0
      ensures cfg == InitConfig(old(cfg))
      ensures bus.faulty == old(bus.faulty) && bus.err == old(bus.err)
    {
      ChargeControlInit(stale);
      var val := AdcInit();
      BatteryParamInit();
      val := PowerKeyInit(val);
      FlagsInit();
      val := RdcInit(val);
      CapacityInit(val);
      ret := 0;
    }
  }
}
