/**
 * What the AXP22x and AXP152 regulator drivers share (axp22-regu.c,
 * axp152-regu.c): the DCDC switching-frequency sysfs codec, the sysfs
 * attribute creation with its unwind, and the probe loop that registers
 * the regulators in table order and unregisters the earlier ones when one
 * registration fails.
 *
 * The frequency lives in the low nibble of a register as a code k meaning
 * 50 + 5k MHz; the high nibble belongs to another function and is kept.
 */
module AxpReguAttrs {
  import opened Common
  import opened Regmap

  /** What a workmode_show handler reports. */
  datatype ModeReport = Pwm | Auto | IoError | IoIdError

  /** What a frequency_show handler returns: a frequency in MHz, or the read error. */
  datatype FreqReport = Mhz(mhz: int) | ReadFailed(errno: int)

  /** The frequency a register byte encodes: (reg & 0x0F) * 5 + 50. */
  function FreqOfReg(v: bv8): (mhz: int)
    ensures 50 <= mhz <= 125 && (mhz - 50) % 5 == 0
  {
    (v & 0x0F) as int * 5 + 50
  }

  /** frequency_show: the read error is passed on, otherwise the decoded frequency. */
  function FrequencyShow(bus: Bus, freqReg: int): (r: FreqReport)
    ensures r.ReadFailed? <==> Addr(freqReg) in bus.faulty
    ensures r.ReadFailed? ==> r.errno == bus.err
    ensures r.Mhz? ==> r.mhz == FreqOfReg(Reg(bus, Addr(freqReg)))
  {
    match Read(bus, freqReg)
    case ReadErr(e) => ReadFailed(e)
    case ReadOk(v) => Mhz(FreqOfReg(v))
  }

  /** The code frequency_store writes for a request of `x` MHz: ((clamp(x) - 50) / 5) & 0x0F. */
  function FreqCode(x: int): (k: bv8)
    ensures k as int == (Clamp(x, 50, 100) - 50) / 5
    ensures k as int <= 10
  {
    var q := (Clamp(x, 50, 100) - 50) / 5;
    assert 0 <= q <= 10;
    U8Small(q);
    U8(q) & 0x0F
  }

  /**
   * The register part of frequency_store once the number is known: the
   * register is read into `tmp` (a failed read leaves `stale` there), its
   * high nibble is kept and the code goes into the low nibble.  The
   * write's return value is ignored in the source.
   */
  function FrequencyWrite(bus: Bus, freqReg: int, x: int, stale: bv8): (b: Bus)
    ensures b.faulty == bus.faulty && b.err == bus.err
  {
    var tmp := ReadInto(bus, freqReg, stale) & 0xF0;
    Write(bus, freqReg, FreqCode(x) | tmp, false).0
  }

  /** A code below 16 ORed onto a high nibble can be read back from either half. */
  lemma NibbleJoin(k: bv8, hi: bv8)
    requires k as int < 16
    ensures (k | (hi & 0xF0)) & 0x0F == k
    ensures (k | (hi & 0xF0)) & 0xF0 == hi & 0xF0
  {
    ByteLt(k, 16);
  }

  /**
   * On a reachable register, frequency_show after the write reports the
   * clamped request rounded down to a multiple of 5 MHz; the high nibble
   * and every other register are unchanged.
   */
  lemma FrequencyRoundTrip(bus: Bus, freqReg: int, x: int, stale: bv8)
    requires Addr(freqReg) !in bus.faulty
    ensures var b := FrequencyWrite(bus, freqReg, x, stale);
      FrequencyShow(b, freqReg) == Mhz(50 + 5 * ((Clamp(x, 50, 100) - 50) / 5))
      && Reg(b, Addr(freqReg)) & 0xF0 == Reg(bus, Addr(freqReg)) & 0xF0
      && SameExcept(b, bus, Addr(freqReg))
  {
    var a := Addr(freqReg);
    var k := FreqCode(x);
    var tmp := Reg(bus, a) & 0xF0;
    StoreEffect(bus, a, k | tmp, false);
    NibbleJoin(k, Reg(bus, a));
    assert (k | tmp) & 0x0F == k;
  }

  /** The frequency reported after the write lies in [50, 100] and is the request itself when that is a multiple of 5 in range. */
  lemma FrequencyExact(x: int)
    ensures 50 <= 50 + 5 * ((Clamp(x, 50, 100) - 50) / 5) <= 100
    ensures 50 <= x <= 100 && x % 5 == 0 ==> 50 + 5 * ((Clamp(x, 50, 100) - 50) / 5) == x
  {
    var c := Clamp(x, 50, 100);
    var q := (c - 50) / 5;
    assert 5 * q <= c - 50 < 5 * q + 5;
  }

  /** The number of sysfs attributes a DCDC regulator gets: workmode and frequency. */
  const NumAttrs: nat := 2

  /** The first nonzero device_create_file result, or 0 when all succeed. */
  function FirstError(codes: seq<int>): (e: int)
    ensures e == 0 <==> forall i :: 0 <= i < |codes| ==> codes[i] == 0
    ensures e != 0 ==> e in codes
  {
    if |codes| == 0 then 0 else if codes[0] != 0 then codes[0] else FirstError(codes[1..])
  }

  /**
   * axp_regu_create_attrs: the attributes are created in order with the
   * results `codes` of device_create_file; at the first failure the ones
   * already created are removed again in reverse and that failure is
   * returned.  So either every attribute exists or none does; `present`
   * counts the attributes left, which are always the first ones.
   */
  method CreateAttrs(codes: seq<int>) returns (ret: int, present: nat)
    ensures ret == FirstError(codes)
    ensures present == if ret == 0 then |codes| else 0
  {
    var j := 0;
    ret := 0;
    present := 0;
    while j < |codes|
      invariant 0 <= j <= |codes|
      invariant present == j
      invariant FirstError(codes) == FirstError(codes[j..])
      invariant ret == 0
    {
      if codes[j] != 0 {
        ret := codes[j];
        break;
      }
      assert codes[j..][1..] == codes[j + 1..];
      present := present + 1;
      j := j + 1;
    }
    if ret != 0 {
      assert ret == FirstError(codes[j..]);
      while j > 0
        invariant 0 <= j && present == j
      {
        j := j - 1;
        present := present - 1;
      }
    } else {
      assert codes[j..] == [];
    }
  }

  /** Every entry of `s` is true. */
  predicate AllTrue(s: seq<bool>)
  {
    forall i :: 0 <= i < |s| ==> s[i]
  }

  /** Every entry of `s` is false. */
  predicate NoneTrue(s: seq<bool>)
  {
    forall i :: 0 <= i < |s| ==> !s[i]
  }

  /** Index of the first failed registration, or |ok|. */
  function FirstFailure(ok: seq<bool>): (k: nat)
    ensures k <= |ok| && (k < |ok| ==> !ok[k])
    ensures forall i :: 0 <= i < k ==> ok[i]
  {
    if |ok| == 0 || !ok[0] then 0 else 1 + FirstFailure(ok[1..])
  }

  /** How many attributes regulator i ends with when probing succeeds. */
  function AttrsOf(wants: bool, codes: seq<int>): nat
  {
    if wants && FirstError(codes) == 0 then |codes| else 0
  }

  /**
   * The probe of a regulator driver: a failed device-tree parse gives
   * -EINVAL, a failed allocation -ENOMEM; then the regulators are
   * registered in table order (`regOk[i]` is whether registration i
   * succeeds).  After a failure every earlier regulator is unregistered
   * and -1 is returned; after a success the regulators marked in
   * `wantsAttrs` get their attributes, whose creation results are
   * `attrCodes[i]` and whose failure is only logged.
   */
  method Probe(parseOk: bool, allocOk: bool, wantsAttrs: seq<bool>, regOk: seq<bool>, attrCodes: seq<seq<int>>)
    returns (ret: int, tried: nat, registered: seq<bool>, attrs: seq<nat>)
    requires |wantsAttrs| == |regOk| == |attrCodes|
    ensures |registered| == |regOk| && |attrs| == |regOk|
    ensures !parseOk ==> ret == -EINVAL && tried == 0
    ensures parseOk && !allocOk ==> ret == -ENOMEM && tried == 0
    ensures parseOk && allocOk ==> tried == Min(FirstFailure(regOk) + 1, |regOk|)
    ensures parseOk && allocOk && AllTrue(regOk) ==>
      ret == 0 && AllTrue(registered) && forall i :: 0 <= i < |attrs| ==> attrs[i] == AttrsOf(wantsAttrs[i], attrCodes[i])
    ensures parseOk && allocOk && !AllTrue(regOk) ==> ret == -1
    ensures ret != 0 ==> NoneTrue(registered)
  {
    var n := |regOk|;
    registered := seq(n, _ => false);
    attrs := seq(n, _ => 0);
    tried := 0;
    if !parseOk {
      return -EINVAL, tried, registered, attrs;
    }
    if !allocOk {
      return -ENOMEM, tried, registered, attrs;
    }
    var i := 0;
    while i < n
      invariant 0 <= i <= n && |registered| == n && |attrs| == n
      invariant i == tried && i <= FirstFailure(regOk)
      invariant forall j :: 0 <= j < i ==> registered[j]
      invariant forall j :: i <= j < n ==> !registered[j] && attrs[j] == 0
      invariant forall j :: 0 <= j < i ==> attrs[j] == AttrsOf(wantsAttrs[j], attrCodes[j])
    {
      tried := tried + 1;
      if !regOk[i] {
        assert FirstFailure(regOk) == i;
        registered := Unwind(registered, i);
        return -1, tried, registered, attrs;
      }
      assert FirstFailure(regOk) != i;
      registered := registered[i := true];
      if wantsAttrs[i] {
        var r, present := CreateAttrs(attrCodes[i]);
        attrs := attrs[i := present];
      }
      i := i + 1;
    }
    ret := 0;
  }

  /** `while (--i >= 0) unregister(i)`: the regulators below i are unregistered, last first. */
  method Unwind(registered: seq<bool>, i: nat) returns (r: seq<bool>)
    requires i <= |registered|
    requires forall j :: i <= j < |registered| ==> !registered[j]
    ensures |r| == |registered| && NoneTrue(r)
  {
    r := registered;
    var k := i;
    while k > 0
      invariant 0 <= k <= i && |r| == |registered|
      invariant forall j :: k <= j < |r| ==> !r[j]
    {
      k := k - 1;
      r := r[k := false];
    }
  }
}
