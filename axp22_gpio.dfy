/**
 * The GPIO operations of the AXP22x PMIC (axp22-gpio.c).  GPIO0 and GPIO1
 * have a configuration register each whose low three bits select the
 * function (000 drive low, 001 drive high, 010 input) and a shared input
 * state register; GPIO2 is an output only, controlled by bit 4 of its
 * configuration register and driven by bit 2 of a status register.  The
 * register numbers are the ones axp22-gpio.h gives in its comments.
 *
 * `hasMap` is whether the device has a register map (the source returns
 * -ENXIO for a NULL map); reads whose error the source ignores leave
 * `stale` in the uninitialised local.
 */
module Axp22Gpio {
  import opened Common
  import opened Regmap

  const Gpio0Cfg: int := 0x90
  const Gpio1Cfg: int := 0x92
  const Gpio2Cfg: int := 0x8F
  const Gpio2Sta: int := 0x30
  const Gpio01State: int := 0x94

  /** The configuration register of a GPIO. */
  function CfgReg(gpio: int): int
    requires 0 <= gpio <= 2
  {
    if gpio == 0 then Gpio0Cfg else if gpio == 1 then Gpio1Cfg else Gpio2Cfg
  }

  /** axp22_gpio_get_data: bit 0 of the state register for GPIO0, bit 1 (as 0 or 2) for GPIO1. */
  function GetData(hasMap: bool, bus: Bus, gpio: int, stale: bv8): (r: int)
    ensures !hasMap || (gpio != 0 && gpio != 1) ==> r == -ENXIO
    ensures hasMap && gpio == 0 ==> r == (ReadInto(bus, Gpio01State, stale) & 0x01) as int && (r == 0 || r == 1)
    ensures hasMap && gpio == 1 ==> r == (ReadInto(bus, Gpio01State, stale) & 0x02) as int && (r == 0 || r == 2)
  {
    if !hasMap then -ENXIO
    else if gpio == 0 then LowBit(ReadInto(bus, Gpio01State, stale))
    else if gpio == 1 then SecondBit(ReadInto(bus, Gpio01State, stale))
    else -ENXIO
  }

  function LowBit(v: bv8): (r: int)
    ensures r == (v & 0x01) as int && (r == 0 || r == 1)
  {
    var b := v & 0x01;
    assert b == 0 || b == 1;
    b as int
  }

  function SecondBit(v: bv8): (r: int)
    ensures r == (v & 0x02) as int && (r == 0 || r == 2)
  {
    var b := v & 0x02;
    assert b == 0 || b == 2;
    b as int
  }

  /**
   * axp22_gpio_set_data: only GPIO0..2 are accepted.  GPIO0/1 get
   * function 001 (high) or 000 (low) under mask 0x07; GPIO2 is first
   * switched to output (bit 4 of its configuration cleared, result
   * ignored) and then its status bit 2 is set or cleared.
   */
  function SetData(hasMap: bool, bus: Bus, gpio: int, value: int): (r: (Bus, int))
    ensures !hasMap || gpio < 0 || gpio > 2 ==> r == (bus, -ENXIO)
  {
    if gpio < 0 || gpio > 2 || !hasMap then (bus, -ENXIO)
    else if gpio < 2 then Update(bus, CfgReg(gpio), if value != 0 then 0x01 else 0x00, 0x07, true)
    else
      var b := ClrBits(bus, Gpio2Cfg, 0x10, true).0;
      if value != 0 then SetBits(b, Gpio2Sta, 0x04, true) else ClrBits(b, Gpio2Sta, 0x04, true)
  }

  /**
   * axp22_pmx_set: mux 1 (output) clears bits 1-2 of GPIO0/1 or bit 4 of
   * GPIO2; mux 0 (input) clears bits 0 and 2 and sets bit 1 of GPIO0/1,
   * returning the second call's result.  GPIO2 as input, other GPIOs and
   * other mux values give -ENXIO.
   */
  function PmxSet(hasMap: bool, bus: Bus, gpio: int, mux: int): (r: (Bus, int))
    ensures !hasMap || !ValidMux(gpio, mux) ==> r == (bus, -ENXIO)
  {
    if !hasMap then (bus, -ENXIO)
    else if mux == 1 then
      if gpio == 0 || gpio == 1 then ClrBits(bus, CfgReg(gpio), 0x06, true)
      else if gpio == 2 then ClrBits(bus, Gpio2Cfg, 0x10, true)
      else (bus, -ENXIO)
    else if mux == 0 then
      if gpio == 0 || gpio == 1 then
        var b := ClrBits(bus, CfgReg(gpio), 0x05, true).0;
        SetBits(b, CfgReg(gpio), 0x02, true)
      else (bus, -ENXIO)
    else (bus, -ENXIO)
  }

  /** The (gpio, mux) pairs pmx_set accepts: GPIO0/1 as input or output, GPIO2 as output. */
  predicate ValidMux(gpio: int, mux: int)
  {
    ((gpio == 0 || gpio == 1) && (mux == 0 || mux == 1)) || (gpio == 2 && mux == 1)
  }

  /**
   * axp22_pmx_get: GPIO0/1 report 1 (output) when bits 1-2 are clear, 0
   * (input) when the function is 010, -ENXIO otherwise; GPIO2 reports 1
   * exactly when bit 4 is clear.
   */
  function PmxGet(hasMap: bool, bus: Bus, gpio: int, stale: bv8): (r: int)
    ensures !hasMap || gpio < 0 || gpio > 2 ==> r == -ENXIO
    ensures hasMap && gpio == 2 ==> (r == 1 <==> !AnySet(ReadInto(bus, Gpio2Cfg, stale), 0x10)) && (r == 0 || r == 1)
    ensures hasMap && (gpio == 0 || gpio == 1) ==>
      (r == 1 <==> !AnySet(ReadInto(bus, CfgReg(gpio), stale), 0x06))
      && (r == 0 <==> AnySet(ReadInto(bus, CfgReg(gpio), stale), 0x06) && FieldIs(ReadInto(bus, CfgReg(gpio), stale), 0x07, 0x02))
      && (r == 1 || r == 0 || r == -ENXIO)
  {
    if !hasMap || gpio < 0 || gpio > 2 then -ENXIO
    else
      var v := ReadInto(bus, CfgReg(gpio), stale);
      if gpio == 2 then (if !AnySet(v, 0x10) then 1 else 0)
      else if !AnySet(v, 0x06) then 1
      else if FieldIs(v, 0x07, 0x02) then 0
      else -ENXIO
  }

  /** Clearing bits 1-2 leaves no output-blocking bit. */
  lemma ClearOutBits(v: bv8)
    ensures !AnySet(Rest(v, 0x06), 0x06) && !AnySet(Rest(v, 0x10), 0x10)
  {
  }

  /** Clearing bits 0 and 2 and then setting bit 1 gives function 010. */
  lemma InputBits(v: bv8)
    ensures AnySet(Rest(v, 0x05) | 0x02, 0x06) && FieldIs(Rest(v, 0x05) | 0x02, 0x07, 0x02)
  {
  }

  /** The data functions 000 and 001 leave bits 1-2 clear. */
  lemma DataBits(v: bv8, k: bv8)
    requires k == 0x00 || k == 0x01
    requires FieldIs(v, 0x07, k)
    ensures !AnySet(v, 0x06)
  {
  }

  /**
   * On a reachable configuration register, pmx_get after an accepted
   * pmx_set(gpio, mux) returns mux, and pmx_set returns 0.
   */
  lemma PmxRoundTrip(bus: Bus, gpio: int, mux: int, stale: bv8)
    requires ValidMux(gpio, mux) && Addr(CfgReg(gpio)) !in bus.faulty
    ensures var r := PmxSet(true, bus, gpio, mux);
      r.1 == 0 && PmxGet(true, r.0, gpio, stale) == mux
  {
    var a := Addr(CfgReg(gpio));
    var v := Reg(bus, a);
    if mux == 1 {
      if gpio == 2 {
        ClrBitsEffect(bus, Gpio2Cfg, 0x10, true);
      } else {
        ClrBitsEffect(bus, CfgReg(gpio), 0x06, true);
      }
      ClearOutBits(v);
    } else {
      var b := ClrBits(bus, CfgReg(gpio), 0x05, true).0;
      ClrBitsEffect(bus, CfgReg(gpio), 0x05, true);
      SetBitsEffect(b, CfgReg(gpio), 0x02, true);
      InputBits(v);
    }
  }

  /**
   * For GPIO0/1 on a reachable configuration register, set_data drives
   * function 001 for a nonzero value and 000 for zero, after which
   * pmx_get reports output; no other register changes.
   */
  lemma SetDataDrivesOutput(bus: Bus, gpio: int, value: int, stale: bv8)
    requires (gpio == 0 || gpio == 1) && Addr(CfgReg(gpio)) !in bus.faulty
    ensures var r := SetData(true, bus, gpio, value);
      r.1 == 0 && FieldIs(Reg(r.0, Addr(CfgReg(gpio))), 0x07, if value != 0 then 0x01 else 0x00)
      && PmxGet(true, r.0, gpio, stale) == 1 && SameExcept(r.0, bus, Addr(CfgReg(gpio)))
  {
    var k: bv8 := if value != 0 then 0x01 else 0x00;
    UpdateEffect(bus, CfgReg(gpio), k, 0x07, true);
    DataBits(Reg(Update(bus, CfgReg(gpio), k, 0x07, true).0, Addr(CfgReg(gpio))), k);
  }

  /**
   * For GPIO2 with both registers reachable, set_data leaves it an
   * output (pmx_get reports 1) whose status bit 2 is set exactly for a
   * nonzero value, and returns 0.  Only bit 4 of the configuration
   * register and bit 2 of the status register change, and no other
   * register does.
   */
  lemma SetDataGpio2(bus: Bus, value: int, stale: bv8)
    requires Addr(Gpio2Cfg) !in bus.faulty && Addr(Gpio2Sta) !in bus.faulty
    ensures var r := SetData(true, bus, 2, value);
      r.1 == 0 && (AnySet(Reg(r.0, Addr(Gpio2Sta)), 0x04) <==> value != 0)
      && PmxGet(true, r.0, 2, stale) == 1
    ensures var r := SetData(true, bus, 2, value);
      Reg(r.0, Addr(Gpio2Cfg)) == Rest(Reg(bus, Addr(Gpio2Cfg)), 0x10)
      && Reg(r.0, Addr(Gpio2Sta))
         == (if value != 0 then Reg(bus, Addr(Gpio2Sta)) | 0x04 else Rest(Reg(bus, Addr(Gpio2Sta)), 0x04))
      && forall x :: x != Addr(Gpio2Cfg) && x != Addr(Gpio2Sta) ==> Reg(r.0, x) == Reg(bus, x)
  {
    var b := ClrBits(bus, Gpio2Cfg, 0x10, true).0;
    ClrBitsEffect(bus, Gpio2Cfg, 0x10, true);
    ClearOutBits(Reg(bus, Addr(Gpio2Cfg)));
    var v := Reg(b, Addr(Gpio2Sta));
    if value != 0 {
      SetBitsEffect(b, Gpio2Sta, 0x04, true);
      StaBit(v);
    } else {
      ClrBitsEffect(b, Gpio2Sta, 0x04, true);
      StaBit(v);
    }
  }

  lemma StaBit(v: bv8)
    ensures AnySet(v | 0x04, 0x04) && !AnySet(Rest(v, 0x04), 0x04)
  {
  }
}
