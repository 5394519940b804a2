/**
 * The virtual regulator consumer of the AXP power driver (virtual.h): a
 * device whose sysfs attributes set the voltage and current window of one
 * regulator and its operating mode, and switch the regulator on or off to
 * match.
 *
 * The regulator framework is not modelled: each call that changes the
 * regulator is recorded in `calls`, and the value it returns is a
 * parameter of the method that makes it; the read regulator_get_voltage
 * is not recorded, its result being only the `voltage` parameter of the
 * methods that read it.  `long64` says whether `long` is 64 bits wide on
 * the target (strict_strtol is then kstrtoll, else the 32-bit kstrtol).
 */
module VirtualConsumer {
  import opened Common
  import opened Parse

  /** The Linux regulator operating modes (REGULATOR_MODE_*). */
  const ModeFast: nat := 0x1
  const ModeNormal: nat := 0x2
  const ModeIdle: nat := 0x4
  const ModeStandby: nat := 0x8

  /** A call into the regulator framework. */
  datatype RegCall =
    | SetVoltage(minUv: int, maxUv: int)
    | OpsEnable
    | OpsDisable
    | SetCurrentLimit(minUa: int, maxUa: int)
    | RegEnable
    | RegDisable
    | SetMode(mode: nat)

  /**
   * The calls update_voltage_constraints makes for the window
   * [minUv, maxUv], where `setRet` is what regulator_set_voltage returns:
   * a nonzero, ordered window is set first and a failure there stops
   * everything; then the regulator is switched on through its ops when
   * both bounds are nonzero and off otherwise.
   */
  function VoltageCalls(minUv: int, maxUv: int, setRet: int): (c: seq<RegCall>)
    ensures SetVoltage(minUv, maxUv) in c <==> minUv != 0 && maxUv != 0 && minUv <= maxUv
    ensures OpsEnable in c <==> minUv != 0 && maxUv != 0 && !(minUv <= maxUv && setRet != 0)
    ensures OpsDisable in c <==> !(minUv != 0 && maxUv != 0)
    ensures |c| <= 2 && (|c| == 2 ==> c[0] == SetVoltage(minUv, maxUv))
  {
    var both := minUv != 0 && maxUv != 0;
    var lim := if both && minUv <= maxUv then [SetVoltage(minUv, maxUv)] else [];
    if both && minUv <= maxUv && setRet != 0 then lim
    else if both then lim + [OpsEnable]
    else lim + [OpsDisable]
  }

  /**
   * update_current_limit_constraints on the window [minUa, maxUa] and the
   * `enabled` flag, given what regulator_set_current_limit,
   * regulator_enable and regulator_disable return: the new flag and the
   * calls made.
   */
  function CurrentStep(minUa: int, maxUa: int, enabled: int, setRet: int, enRet: int, disRet: int): (r: (int, seq<RegCall>))
    ensures (SetCurrentLimit(minUa, maxUa) in r.1) <==> maxUa != 0 && minUa <= maxUa
    ensures maxUa != 0 && minUa <= maxUa && setRet != 0 ==> r == (enabled, [SetCurrentLimit(minUa, maxUa)])
    ensures r.0 != enabled ==>
      (r.0 == 1 && RegEnable in r.1 && enRet == 0 && maxUa != 0)
      || (r.0 == 0 && RegDisable in r.1 && disRet == 0 && (minUa == 0 || maxUa == 0))
    ensures r.0 == enabled || r.0 == 0 || r.0 == 1
  {
    var limit := if maxUa != 0 && minUa <= maxUa then [SetCurrentLimit(minUa, maxUa)] else [];
    if maxUa != 0 && minUa <= maxUa && setRet != 0 then (enabled, limit)
    else
      var e1 := if maxUa != 0 && enabled == 0 then (if enRet == 0 then 1 else enabled) else enabled;
      var c1 := limit + (if maxUa != 0 && enabled == 0 then [RegEnable] else []);
      if !(minUa != 0 && maxUa != 0) && e1 != 0 then
        (if disRet == 0 then 0 else e1, c1 + [RegDisable])
      else (e1, c1)
  }

  /**
   * With a zero lower bound and a nonzero upper bound, a disabled consumer
   * is enabled and, in the same call, disabled again: the flag ends at 0
   * after two successful calls.
   */
  lemma EnableThenDisable(maxUa: int, setRet: int)
    requires maxUa > 0
    ensures CurrentStep(0, maxUa, 0, setRet, 0, 0).0 == 0
    ensures setRet == 0 ==> CurrentStep(0, maxUa, 0, setRet, 0, 0).1 == [SetCurrentLimit(0, maxUa), RegEnable, RegDisable]
  {
  }

  /** A nonzero ordered window whose limit is accepted leaves a disabled consumer enabled, once the enable succeeds. */
  lemma CurrentWindowEnables(minUa: int, maxUa: int)
    requires 0 < minUa <= maxUa
    ensures CurrentStep(minUa, maxUa, 0, 0, 0, 0) == (1, [SetCurrentLimit(minUa, maxUa), RegEnable])
    ensures CurrentStep(minUa, maxUa, 1, 0, 0, 0) == (1, [SetCurrentLimit(minUa, maxUa)])
  {
    assert [SetCurrentLimit(minUa, maxUa)] + [RegEnable] == [SetCurrentLimit(minUa, maxUa), RegEnable];
    assert [SetCurrentLimit(minUa, maxUa)] + [] == [SetCurrentLimit(minUa, maxUa)];
  }

  /** `w` is a prefix of `s`: strncmp(s, w, strlen(w)) == 0. */
  predicate HasPrefix(s: string, w: string)
  {
    |w| <= |s| && s[..|w|] == w
  }

  /** The mode set_mode asks for: the first of fast, normal, idle, standby that starts the text. */
  function ParseMode(buf: string): (m: Option<nat>)
    ensures m == Some(ModeFast) <==> HasPrefix(buf, "fast")
    ensures m == Some(ModeNormal) <==> !HasPrefix(buf, "fast") && HasPrefix(buf, "normal")
    ensures m.None? <==> !HasPrefix(buf, "fast") && !HasPrefix(buf, "normal") && !HasPrefix(buf, "idle") && !HasPrefix(buf, "standby")
    ensures m.Some? ==> m.value in {ModeFast, ModeNormal, ModeIdle, ModeStandby}
  {
    if HasPrefix(buf, "fast") then Some(ModeFast)
    else if HasPrefix(buf, "normal") then Some(ModeNormal)
    else if HasPrefix(buf, "idle") then Some(ModeIdle)
    else if HasPrefix(buf, "standby") then Some(ModeStandby)
    else None
  }

  /** The word show_mode prints for a mode (before its newline). */
  function ModeName(mode: nat): (w: string)
    ensures w == "unknown" <==> mode !in {ModeFast, ModeNormal, ModeIdle, ModeStandby}
  {
    if mode == ModeFast then "fast"
    else if mode == ModeNormal then "normal"
    else if mode == ModeIdle then "idle"
    else if mode == ModeStandby then "standby"
    else "unknown"
  }

  /** What show_mode writes reads back through set_mode as the same mode, unless the mode is unknown. */
  lemma ModeRoundTrip(mode: nat)
    ensures mode in {ModeFast, ModeNormal, ModeIdle, ModeStandby} ==> ParseMode(ModeName(mode) + "\n") == Some(mode)
    ensures mode !in {ModeFast, ModeNormal, ModeIdle, ModeStandby} ==> ParseMode(ModeName(mode) + "\n").None?
  {
    var s := ModeName(mode) + "\n";
    assert s[..|ModeName(mode)|] == ModeName(mode);
    if mode == ModeNormal {
      assert s[0] == 'n';
    } else if mode == ModeIdle {
      assert s[0] == 'i';
    } else if mode == ModeStandby {
      assert s[0] == 's';
    } else if mode != ModeFast {
      assert s[0] == 'u';
    }
  }

  /** A mode the text selects is shown as a word that starts the text. */
  lemma ParsedModeIsPrefix(buf: string)
    requires ParseMode(buf).Some?
    ensures HasPrefix(buf, ModeName(ParseMode(buf).value))
  {
  }

  /** strict_strtol(buf, 10, &val): kstrtoll for a 64-bit long, the range-checked 32-bit kstrtol otherwise. */
  function StrictStrtol(buf: string, long64: bool): (r: Parsed<int>)
    ensures !long64 ==> r == KStrToInt(buf, 10)
    ensures r.Ok? ==> -0x8000_0000_0000_0000 <= r.value < 0x8000_0000_0000_0000
  {
    if long64 then KStrToLl(buf, 10) else KStrToInt(buf, 10)
  }

  /** virtual_consumer_data without its lock and regulator handle. */
  class Consumer {
    var enabled: int
    var minUv: int
    var maxUv: int
    var minUa: int
    var maxUa: int
    var mode: nat
    var calls: seq<RegCall>

    /** The cleared data the probe allocates. */
    constructor()
      ensures enabled == 0 && minUv == 0 && maxUv == 0 && minUa == 0 && maxUa == 0 && mode == 0 && calls == []
    {
      enabled, minUv, maxUv, minUa, maxUa, mode, calls := 0, 0, 0, 0, 0, 0, [];
    }

    /** update_voltage_constraints: only regulator calls, as in VoltageCalls; no field but the log changes. */
    method UpdateVoltageConstraints(setRet: int)
      modifies this
      ensures calls == old(calls) + VoltageCalls(minUv, maxUv, setRet)
      ensures enabled == old(enabled) && minUv == old(minUv) && maxUv == old(maxUv)
      ensures minUa == old(minUa) && maxUa == old(maxUa) && mode == old(mode)
    {
      if minUv != 0 && maxUv != 0 && minUv <= maxUv {
        calls := calls + [SetVoltage(minUv, maxUv)];
        if setRet != 0 {
          return;
        }
      }
      if minUv != 0 && maxUv != 0 {
        calls := calls + [OpsEnable];
      }
      if !(minUv != 0 && maxUv != 0) {
        calls := calls + [OpsDisable];
      }
    }

    /** update_current_limit_constraints: `enabled` and the log change as in CurrentStep. */
    method UpdateCurrentLimitConstraints(setRet: int, enRet: int, disRet: int)
      modifies this
      ensures enabled == CurrentStep(minUa, maxUa, old(enabled), setRet, enRet, disRet).0
      ensures calls == old(calls) + CurrentStep(minUa, maxUa, old(enabled), setRet, enRet, disRet).1
      ensures minUv == old(minUv) && maxUv == old(maxUv) && minUa == old(minUa) && maxUa == old(maxUa) && mode == old(mode)
    {
      var made: seq<RegCall> := [];
      if maxUa != 0 && minUa <= maxUa {
        made := [SetCurrentLimit(minUa, maxUa)];
        if setRet != 0 {
          calls := calls + made;
          return;
        }
      }
      if maxUa != 0 && enabled == 0 {
        made := made + [RegEnable];
        if enRet == 0 {
          enabled := 1;
        }
      }
      if !(minUa != 0 && maxUa != 0) && enabled != 0 {
        made := made + [RegDisable];
        if disRet == 0 {
          enabled := 0;
        }
      }
      calls := calls + made;
    }

    /**
     * show_min_uv: the lower bound is first refreshed from
     * regulator_get_voltage (`voltage`), then printed.
     */
    method ShowMinUv(voltage: int) returns (shown: int)
      modifies this
      ensures shown == voltage && minUv == voltage
      ensures enabled == old(enabled) && maxUv == old(maxUv) && minUa == old(minUa) && maxUa == old(maxUa)
      ensures mode == old(mode) && calls == old(calls)
    {
      minUv := voltage;
      shown := minUv;
    }

    /**
     * set_min_uv: text that strict_strtol rejects changes nothing;
     * otherwise the value (as an int) becomes the lower bound and the
     * voltage constraints are applied.  `count` is returned either way.
     */
    method SetMinUv(buf: string, count: int, long64: bool, setRet: int) returns (r: int)
      modifies this
      ensures r == count
      ensures StrictStrtol(buf, long64).Fail? ==>
        enabled == old(enabled) && minUv == old(minUv) && maxUv == old(maxUv) && calls == old(calls)
      ensures StrictStrtol(buf, long64).Ok? ==>
        (minUv == S32(StrictStrtol(buf, long64).value) && maxUv == old(maxUv) && enabled == old(enabled)
         && calls == old(calls) + VoltageCalls(minUv, maxUv, setRet))
      ensures minUa == old(minUa) && maxUa == old(maxUa) && mode == old(mode)
    {
      r := count;
      match StrictStrtol(buf, long64)
      case Fail(_) =>
      case Ok(v) =>
        minUv := S32(v);
        UpdateVoltageConstraints(setRet);
    }

    /**
     * set_max_uv: on accepted text the lower bound is first refreshed from
     * regulator_get_voltage (`voltage`), then the value becomes the upper
     * bound and the voltage constraints are applied.
     */
    method SetMaxUv(buf: string, count: int, long64: bool, voltage: int, setRet: int) returns (r: int)
      modifies this
      ensures r == count
      ensures StrictStrtol(buf, long64).Fail? ==>
        enabled == old(enabled) && minUv == old(minUv) && maxUv == old(maxUv) && calls == old(calls)
      ensures StrictStrtol(buf, long64).Ok? ==>
        (minUv == voltage && maxUv == S32(StrictStrtol(buf, long64).value) && enabled == old(enabled)
         && calls == old(calls) + VoltageCalls(voltage, maxUv, setRet))
      ensures minUa == old(minUa) && maxUa == old(maxUa) && mode == old(mode)
    {
      r := count;
      match StrictStrtol(buf, long64)
      case Fail(_) =>
      case Ok(v) =>
        minUv := voltage;
        maxUv := S32(v);
        UpdateVoltageConstraints(setRet);
    }

    /** set_min_ua: on accepted text the value becomes the lower current bound and the current constraints are applied. */
    method SetMinUa(buf: string, count: int, long64: bool, setRet: int, enRet: int, disRet: int) returns (r: int)
      modifies this
      ensures r == count
      ensures StrictStrtol(buf, long64).Fail? ==>
        enabled == old(enabled) && minUa == old(minUa) && maxUa == old(maxUa) && calls == old(calls)
      ensures StrictStrtol(buf, long64).Ok? ==>
        (minUa == S32(StrictStrtol(buf, long64).value) && maxUa == old(maxUa)
         && enabled == CurrentStep(minUa, maxUa, old(enabled), setRet, enRet, disRet).0
         && calls == old(calls) + CurrentStep(minUa, maxUa, old(enabled), setRet, enRet, disRet).1)
      ensures minUv == old(minUv) && maxUv == old(maxUv) && mode == old(mode)
    {
      r := count;
      match StrictStrtol(buf, long64)
      case Fail(_) =>
      case Ok(v) =>
        minUa := S32(v);
        UpdateCurrentLimitConstraints(setRet, enRet, disRet);
    }

    /** set_max_ua: on accepted text the value becomes the upper current bound and the current constraints are applied. */
    method SetMaxUa(buf: string, count: int, long64: bool, setRet: int, enRet: int, disRet: int) returns (r: int)
      modifies this
      ensures r == count
      ensures StrictStrtol(buf, long64).Fail? ==>
        enabled == old(enabled) && minUa == old(minUa) && maxUa == old(maxUa) && calls == old(calls)
      ensures StrictStrtol(buf, long64).Ok? ==>
        (maxUa == S32(StrictStrtol(buf, long64).value) && minUa == old(minUa)
         && enabled == CurrentStep(minUa, maxUa, old(enabled), setRet, enRet, disRet).0
         && calls == old(calls) + CurrentStep(minUa, maxUa, old(enabled), setRet, enRet, disRet).1)
      ensures minUv == old(minUv) && maxUv == old(maxUv) && mode == old(mode)
    {
      r := count;
      match StrictStrtol(buf, long64)
      case Fail(_) =>
      case Ok(v) =>
        maxUa := S32(v);
        UpdateCurrentLimitConstraints(setRet, enRet, disRet);
    }

    /** show_mode: the word for the stored mode and a newline. */
    function ShowMode(): (text: string)
      reads this
      ensures ParseMode(text) == if mode in {ModeFast, ModeNormal, ModeIdle, ModeStandby} then Some(mode) else None
    {
      ModeRoundTrip(mode);
      ModeName(mode) + "\n"
    }

    /**
     * set_mode: text starting with none of the four words changes nothing;
     * otherwise regulator_set_mode is called (returning `modeRet`) and the
     * mode is stored only when it succeeds.  `count` is returned.
     */
    method SetModeAttr(buf: string, count: int, modeRet: int) returns (r: int)
      modifies this
      ensures r == count
      ensures ParseMode(buf).None? ==> mode == old(mode) && calls == old(calls)
      ensures ParseMode(buf).Some? ==>
        (calls == old(calls) + [SetMode(ParseMode(buf).value)]
         && mode == if modeRet == 0 then ParseMode(buf).value else old(mode))
      ensures modeRet == 0 && ParseMode(buf).Some? ==> HasPrefix(buf, ModeName(mode))
      ensures enabled == old(enabled) && minUv == old(minUv) && maxUv == old(maxUv)
      ensures minUa == old(minUa) && maxUa == old(maxUa)
    {
      r := count;
      var m := ParseMode(buf);
      if m.None? {
        return;
      }
      calls := calls + [SetMode(m.value)];
      if modeRet == 0 {
        mode := m.value;
        ParsedModeIsPrefix(buf);
      }
    }
  }
}
