/**
 * The sysfs handlers and the probe of the AXP152 regulator driver
 * (axp152-regu.c).  The four DCDC converters share one work-mode register
 * (BUCKMODE, one bit per converter: set means PWM) and one frequency
 * register (BUCKFREQ).  Both register numbers come from a chip header and
 * are parameters here.
 */
module Axp152Regu {
  import opened Common
  import opened Regmap
  import opened Parse
  import opened AxpReguAttrs

  /** The regulator ids of the AXP152 table. */
  datatype RegId = Dcdc1 | Dcdc2 | Dcdc3 | Dcdc4 | Ldo0 | Ldo1 | Ldo2 | Ldo3 | Ldo4 | Ldo5 | LdoIo0

  /** One entry of axp15_regulator_info: its id and whether it is a table (_SEL) regulator. */
  datatype Entry = Entry(id: RegId, hasTable: bool)

  /** axp15_regulator_info in table order. */
  const Table: seq<Entry> := [
    Entry(Dcdc1, true), Entry(Dcdc2, false), Entry(Dcdc3, false), Entry(Dcdc4, false),
    Entry(Ldo0, true), Entry(Ldo1, false), Entry(Ldo2, true), Entry(Ldo3, true),
    Entry(Ldo4, false), Entry(Ldo5, false), Entry(LdoIo0, false)]

  /** The BUCKMODE bit of a DCDC converter; other regulators have none. */
  function ModeBit(id: RegId): (m: Option<bv8>)
    ensures m.Some? <==> id.Dcdc1? || id.Dcdc2? || id.Dcdc3? || id.Dcdc4?
  {
    match id
    case Dcdc1 => Some(0x08)
    case Dcdc2 => Some(0x04)
    case Dcdc3 => Some(0x02)
    case Dcdc4 => Some(0x01)
    case _ => None
  }

  /**
   * workmode_show: a failed read reports IO ERROR whatever the regulator;
   * a DCDC reports PWM when its bit is set and AUTO when clear; any other
   * regulator reports IO ID ERROR.
   */
  function WorkmodeShow(bus: Bus, buckMode: int, id: RegId): (r: ModeReport)
    ensures r == IoError <==> Addr(buckMode) in bus.faulty
    ensures r == IoIdError <==> Addr(buckMode) !in bus.faulty && ModeBit(id).None?
    ensures r == Pwm <==> Addr(buckMode) !in bus.faulty && ModeBit(id).Some? && AnySet(Reg(bus, Addr(buckMode)), ModeBit(id).value)
  {
    match Read(bus, buckMode)
    case ReadErr(_) => IoError
    case ReadOk(v) =>
      match ModeBit(id)
      case None => IoIdError
      case Some(m) => if AnySet(v, m) then Pwm else Auto
  }

  /** Character i of the user's buffer; the byte after the text is the terminating NUL. */
  function CharAt(buf: string, i: nat): char
  {
    if i < |buf| then buf[i] else '\0'
  }

  /** The character workmode_store looks at: buf[0] when it is '1'..'8', else buf[1]. */
  function ModeChar(buf: string): (c: char)
    ensures '0' < CharAt(buf, 0) < '9' ==> c == CharAt(buf, 0)
    ensures !('0' < CharAt(buf, 0) < '9') ==> c == CharAt(buf, 1)
  {
    if '0' < CharAt(buf, 0) < '9' then CharAt(buf, 0) else CharAt(buf, 1)
  }

  /** 'W', 'w' and '2' ask for PWM; 'U', 'u', '1' and anything else for automatic mode. */
  predicate WantsPwm(c: char)
  {
    c == 'W' || c == 'w' || c == '2'
  }

  /**
   * workmode_store: the requested mode goes to the converter's BUCKMODE
   * bit (set for PWM, cleared otherwise); a regulator that is no DCDC
   * writes nothing.  The result of the register call is ignored and
   * `count` is returned.
   */
  function WorkmodeStore(bus: Bus, buckMode: int, id: RegId, buf: string, count: int): (r: (Bus, int))
    ensures r.1 == count
    ensures ModeBit(id).None? ==> r.0 == bus
  {
    match ModeBit(id)
    case None => (bus, count)
    case Some(m) =>
      if WantsPwm(ModeChar(buf)) then (SetBits(bus, buckMode, m, false).0, count)
      else (ClrBits(bus, buckMode, m, false).0, count)
  }

  /** A cleared bit is not set. */
  lemma ClearedNotSet(v: bv8, m: bv8)
    ensures !AnySet(Rest(v, m), m)
  {
  }

  /** A set nonzero mask has a bit set. */
  lemma SetIsSet(v: bv8, m: bv8)
    requires m != 0
    ensures AnySet(v | m, m)
  {
  }

  /**
   * For a DCDC converter on a reachable BUCKMODE, workmode_show after
   * workmode_store reports PWM exactly when the chosen character asks
   * for it; the other converters' bits and all other registers are kept.
   */
  lemma WorkmodeRoundTrip(bus: Bus, buckMode: int, id: RegId, buf: string, count: int)
    requires Addr(buckMode) !in bus.faulty && ModeBit(id).Some?
    ensures var b := WorkmodeStore(bus, buckMode, id, buf, count).0;
      WorkmodeShow(b, buckMode, id) == (if WantsPwm(ModeChar(buf)) then Pwm else Auto)
      && SameExcept(b, bus, Addr(buckMode))
      && Rest(Reg(b, Addr(buckMode)), ModeBit(id).value) == Rest(Reg(bus, Addr(buckMode)), ModeBit(id).value)
  {
    var v := Reg(bus, Addr(buckMode));
    var m := ModeBit(id).value;
    if WantsPwm(ModeChar(buf)) {
      SetBitsEffect(bus, buckMode, m, false);
      SetIsSet(v, m);
      OrKeepsRest(v, m);
    } else {
      ClrBitsEffect(bus, buckMode, m, false);
      ClearedNotSet(v, m);
      AndNotKeepsRest(v, m);
    }
  }

  lemma OrKeepsRest(v: bv8, m: bv8)
    ensures Rest(v | m, m) == Rest(v, m)
  {
  }

  lemma AndNotKeepsRest(v: bv8, m: bv8)
    ensures Rest(Rest(v, m), m) == Rest(v, m)
  {
  }

  /** "PWM", "pwm" and "2" select PWM; "AUTO", "auto" and "1" select automatic mode. */
  lemma ModeWords()
    ensures WantsPwm(ModeChar("PWM")) && WantsPwm(ModeChar("pwm")) && WantsPwm(ModeChar("2"))
    ensures !WantsPwm(ModeChar("AUTO")) && !WantsPwm(ModeChar("auto")) && !WantsPwm(ModeChar("1"))
  {
  }

  /**
   * frequency_store: simple_strtoul's value is assigned to an int (so it
   * wraps to s32), clamped and written as in FrequencyWrite.  There is no
   * parse error: text without digits reads as 0 and gives 50 MHz.
   */
  function FrequencyStore(bus: Bus, buckFreq: int, buf: string, count: int, stale: bv8): (r: (Bus, int))
    ensures r.1 == count && r.0.faulty == bus.faulty
  {
    (FrequencyWrite(bus, buckFreq, S32(StrToUl(buf, 10).0), stale), count)
  }

  /** frequency_show after frequency_store reports the clamped s32 value rounded down to a multiple of 5 MHz. */
  lemma FrequencyStoreThenShow(bus: Bus, buckFreq: int, buf: string, count: int, stale: bv8)
    requires Addr(buckFreq) !in bus.faulty
    ensures var x := S32(StrToUl(buf, 10).0);
      var b := FrequencyStore(bus, buckFreq, buf, count, stale).0;
      FrequencyShow(b, buckFreq) == Mhz(50 + 5 * ((Clamp(x, 50, 100) - 50) / 5))
      && SameExcept(b, bus, Addr(buckFreq))
  {
    FrequencyRoundTrip(bus, buckFreq, S32(StrToUl(buf, 10).0), stale);
  }

  /**
   * Any number simple_strtoul reads with bit 31 set (modulo 2^32) becomes
   * negative in the int, "4294967295" becoming -1; every value that ends
   * up below 50 is stored as the 50 MHz code and reads back as 50 MHz.
   */
  lemma FrequencyWrapsNegative(bus: Bus, buckFreq: int, buf: string, count: int, stale: bv8)
    requires Addr(buckFreq) !in bus.faulty
    ensures var u := StrToUl(buf, 10).0;
      u % TWO32 >= 0x8000_0000 ==> S32(u) == u % TWO32 - TWO32 < 0
    ensures S32(0xFFFF_FFFF) == -1
    ensures S32(StrToUl(buf, 10).0) < 50 ==>
      FrequencyShow(FrequencyStore(bus, buckFreq, buf, count, stale).0, buckFreq) == Mhz(50)
  {
    FrequencyStoreThenShow(bus, buckFreq, buf, count, stale);
  }

  /** The first list of the probe: registered with axp_regulator_register. */
  predicate InPlainList(id: RegId)
  {
    id == Ldo4 || id == Ldo5 || id == Dcdc2 || id == Dcdc3 || id == Dcdc4 || id == Ldo1 || id == LdoIo0
  }

  /** The second list: registered with axp_regulator_sel_register. */
  predicate InSelList(id: RegId)
  {
    id == Dcdc1 || id == Ldo0 || id == Ldo3 || id == Ldo2
  }

  /** The probe creates workmode/frequency attributes for the four DCDC converters. */
  predicate HasAttrs(id: RegId)
  {
    id == Dcdc1 || id == Dcdc2 || id == Dcdc3 || id == Dcdc4
  }

  /**
   * Every table entry is in exactly one of the probe's two lists, and it
   * is the _sel list exactly for the entries built with a voltage table.
   */
  lemma {:induction false} TablePartition(i: nat)
    requires i < |Table|
    ensures InPlainList(Table[i].id) != InSelList(Table[i].id)
    ensures InSelList(Table[i].id) <==> Table[i].hasTable
  {
    assert Table[i] in Table;
  }

  /** The regulators that get attributes are exactly those with a BUCKMODE bit. */
  lemma AttrsExactlyDcdc(id: RegId)
    ensures HasAttrs(id) <==> ModeBit(id).Some?
  {
  }

  /**
   * axp15_regulator_probe: the table is registered in order with the
   * results `regOk`; a failure unregisters the earlier ones and returns
   * -1; after success the four DCDC converters have their attributes.
   */
  method Probe(parseOk: bool, allocOk: bool, regOk: seq<bool>, attrCodes: seq<seq<int>>)
    returns (ret: int, registered: seq<bool>, attrs: seq<nat>)
    requires |regOk| == |Table| && |attrCodes| == |Table|
    ensures |registered| == |Table| && |attrs| == |Table|
    ensures !parseOk ==> ret == -EINVAL
    ensures parseOk && !allocOk ==> ret == -ENOMEM
    ensures parseOk && allocOk && AllTrue(regOk) ==>
      ret == 0 && AllTrue(registered)
      && forall i :: 0 <= i < |Table| ==> attrs[i] == if HasAttrs(Table[i].id) && FirstError(attrCodes[i]) == 0 then |attrCodes[i]| else 0
    ensures parseOk && allocOk && !AllTrue(regOk) ==> ret == -1 && NoneTrue(registered)
  {
    var wants := seq(|Table|, i requires 0 <= i < |Table| => HasAttrs(Table[i].id));
    var tried;
    ret, tried, registered, attrs := AxpReguAttrs.Probe(parseOk, allocOk, wants, regOk, attrCodes);
  }
}
