/**
 * The sysfs handlers and the probe of the AXP22x regulator driver
 * (axp22-regu.c).  Each DCDC regulator has a work-mode register with a
 * mode mask (all mask bits set means forced PWM, otherwise automatic
 * PFM/PWM) and a frequency register shared with AxpReguAttrs.
 */
module Axp22Regu {
  import opened Common
  import opened Regmap
  import opened Parse
  import opened AxpReguAttrs

  /** workmode_show: a read error, PWM when every mask bit is set, AUTO otherwise. */
  function WorkmodeShow(bus: Bus, modeReg: int, modeMask: bv8): (r: ModeReport)
    ensures r == IoError <==> Addr(modeReg) in bus.faulty
    ensures r == Pwm <==> Addr(modeReg) !in bus.faulty && AllSet(Reg(bus, Addr(modeReg)), modeMask)
    ensures r != IoIdError
  {
    match Read(bus, modeReg)
    case ReadErr(_) => IoError
    case ReadOk(v) => if AllSet(v, modeMask) then Pwm else Auto
  }

  /**
   * workmode_store: the text must start (after white space) with a decimal
   * number, else -EINVAL; a nonzero number sets every mask bit, zero
   * clears them.  The register call's result is ignored and `count` is
   * returned.
   */
  function WorkmodeStore(bus: Bus, modeReg: int, modeMask: bv8, buf: string, count: int): (r: (Bus, int))
    ensures ScanUnsigned(buf).None? ==> r == (bus, -EINVAL)
    ensures ScanUnsigned(buf).Some? ==> r.1 == count
  {
    match ScanUnsigned(buf)
    case None => (bus, -EINVAL)
    case Some(mode) =>
      if mode != 0 then (SetBits(bus, modeReg, modeMask, false).0, count)
      else (ClrBits(bus, modeReg, modeMask, false).0, count)
  }

  /** A cleared nonempty mask is not all set. */
  lemma ClearedNotAllSet(v: bv8, m: bv8)
    requires m != 0
    ensures !AllSet(Rest(v, m), m)
  {
  }

  /**
   * On a reachable register, workmode_show after a successful
   * workmode_store reports PWM for a nonzero number and AUTO for zero
   * (for a nonempty mask); only the mode register may change.
   */
  lemma WorkmodeRoundTrip(bus: Bus, modeReg: int, modeMask: bv8, buf: string, count: int)
    requires Addr(modeReg) !in bus.faulty && ScanUnsigned(buf).Some? && modeMask != 0
    ensures var b := WorkmodeStore(bus, modeReg, modeMask, buf, count).0;
      WorkmodeShow(b, modeReg, modeMask) == (if ScanUnsigned(buf).value != 0 then Pwm else Auto)
      && SameExcept(b, bus, Addr(modeReg))
  {
    var v := Reg(bus, Addr(modeReg));
    if ScanUnsigned(buf).value != 0 {
      SetBitsEffect(bus, modeReg, modeMask, false);
      OrMask(v, modeMask);
    } else {
      ClrBitsEffect(bus, modeReg, modeMask, false);
      ClearedNotAllSet(v, modeMask);
    }
  }

  /**
   * frequency_store: kstrtoint errors are returned with nothing written;
   * otherwise the clamped code is written as in FrequencyWrite and
   * `count` is returned.
   */
  function FrequencyStore(bus: Bus, freqReg: int, buf: string, count: int, stale: bv8): (r: (Bus, int))
    ensures KStrToInt(buf, 10).Fail? ==> r == (bus, KStrToInt(buf, 10).errno)
    ensures KStrToInt(buf, 10).Ok? ==> r.1 == count && r.0.faulty == bus.faulty
  {
    match KStrToInt(buf, 10)
    case Fail(e) => (bus, e)
    case Ok(x) => (FrequencyWrite(bus, freqReg, x, stale), count)
  }

  /** frequency_show after an accepted frequency_store(x) reports 50 + 5 * floor((clamp(x) - 50) / 5). */
  lemma FrequencyStoreThenShow(bus: Bus, freqReg: int, buf: string, count: int, stale: bv8)
    requires Addr(freqReg) !in bus.faulty && KStrToInt(buf, 10).Ok?
    ensures var x := KStrToInt(buf, 10).value;
      var r := FrequencyStore(bus, freqReg, buf, count, stale);
      r.1 == count && FrequencyShow(r.0, freqReg) == Mhz(50 + 5 * ((Clamp(x, 50, 100) - 50) / 5))
      && SameExcept(r.0, bus, Addr(freqReg))
  {
    FrequencyRoundTrip(bus, freqReg, KStrToInt(buf, 10).value, stale);
  }

  /** Whether a regulator gets the workmode/frequency attributes: its id is at least AXP_DCDC_ID_START. */
  function WantsAttrs(ids: seq<int>, dcdcIdStart: int): (w: seq<bool>)
    ensures |w| == |ids| && forall i :: 0 <= i < |ids| ==> (w[i] <==> ids[i] >= dcdcIdStart)
  {
    seq(|ids|, i requires 0 <= i < |ids| => ids[i] >= dcdcIdStart)
  }

  /**
   * axp22_regulator_probe over the regulator table with descriptor ids
   * `ids`: registration failure unwinds, and only regulators with an id
   * of at least `dcdcIdStart` get sysfs attributes.
   */
  method Probe(ids: seq<int>, dcdcIdStart: int, parseOk: bool, allocOk: bool, regOk: seq<bool>, attrCodes: seq<seq<int>>)
    returns (ret: int, registered: seq<bool>, attrs: seq<nat>)
    requires |ids| == |regOk| == |attrCodes|
    ensures |registered| == |ids| && |attrs| == |ids|
    ensures !parseOk ==> ret == -EINVAL
    ensures parseOk && !allocOk ==> ret == -ENOMEM
    ensures parseOk && allocOk && AllTrue(regOk) ==>
      ret == 0 && AllTrue(registered)
      && forall i :: 0 <= i < |ids| ==> attrs[i] == if ids[i] >= dcdcIdStart && FirstError(attrCodes[i]) == 0 then |attrCodes[i]| else 0
    ensures parseOk && allocOk && !AllTrue(regOk) ==> ret == -1 && NoneTrue(registered)
  {
    var tried;
    ret, tried, registered, attrs := AxpReguAttrs.Probe(parseOk, allocOk, WantsAttrs(ids, dcdcIdStart), regOk, attrCodes);
  }
}
