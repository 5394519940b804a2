/**
 * The TV encoder low-level functions of de_tve_sun8iw11.c that compute
 * something: the DAC calibration (three error readings in 10-bit
 * sign-magnitude form, bit 9 meaning positive, the most consistent of
 * them checked against the factory value), the DAC level written at
 * init, and the DAC connection status.
 *
 * The encoder's 32-bit registers are a map from offset to word; words are
 * naturals below 2^32 and single-bit operations are written arithmetically.
 * The values the hardware puts into the calibration result register are
 * inputs.  The one encoder instance of the model stands for
 * tve_reg_base[sel].
 */
module Tve {
  import opened Common

  const Tve000: int := 0x000
  const Tve008: int := 0x008
  const Tve030: int := 0x030
  const Tve038: int := 0x038
  const Tve300: int := 0x300
  const Tve304: int := 0x304

  /** The DAC setting word written at init and during calibration. */
  const DacSetting: nat := 0x433e12b1

  /** Whether the bit with value m (a power of two) is set in w. */
  predicate BitSet(w: nat, m: nat)
    requires m > 0
  {
    (w / m) % 2 == 1
  }

  /** w | m for a single-bit m. */
  function SetBit(w: nat, m: nat): nat
    requires m > 0
  {
    if BitSet(w, m) then w else w + m
  }

  /** w & ~m for a single-bit m. */
  function ClrBit(w: nat, m: nat): nat
    requires m > 0
  {
    if BitSet(w, m) then w - m else w
  }

  /** Setting bit 0 and clearing it again is clearing it. */
  lemma SetThenClearBit0(w: nat)
    ensures ClrBit(SetBit(w, 1), 1) == ClrBit(w, 1)
  {
  }

  // ---------------------------------------------------------------------
  // Sign-magnitude values

  /** The 10-bit error field of the calibration register: (w >> 16) & 0x3ff. */
  function Reading(w: nat): (r: nat)
    ensures r < 1024
  {
    (w / 65536) % 1024
  }

  /** Decoding of a sign-magnitude value: +(r & 0x1ff) when bit 9 is set, -(r & 0x1ff) otherwise. */
  function SignMag(r: nat): (x: int)
    ensures -511 <= x <= 511
    ensures BitSet(r, 512) ==> x == r % 512
    ensures !BitSet(r, 512) ==> x == -(r % 512)
  {
    if BitSet(r, 512) then 0 + r % 512 else 0 - r % 512
  }

  /** The word written back for an error value: (1 << 9) | x for x >= 0, and -x as u32 otherwise. */
  function Encode(x: int): (w: nat)
    requires -0x8000_0000 <= x < 0x8000_0000
  {
    if x >= 0 then SetBit(x, 512) else U32(0 - x)
  }

  /** Encoding inverts the decoding on every value a decoding yields, and fits ten bits. */
  lemma EncodeRoundTrip(x: int)
    requires -511 <= x <= 511
    ensures Encode(x) < 1024 && SignMag(Encode(x)) == x
  {
    if x >= 0 {
      assert x / 512 == 0;
      assert Encode(x) == x + 512;
      assert (x + 512) / 512 == 1;
    } else {
      assert Encode(x) == -x;
      assert (-x) / 512 == 0;
    }
  }

  /** Decoding then encoding gives back every ten-bit value except the negative zero 0x000, which encodes as +0. */
  lemma DecodeRoundTrip(r: nat)
    requires r < 1024 && r != 0
    ensures Encode(SignMag(r)) == r
  {
    if BitSet(r, 512) {
      assert r == 512 + r % 512;
      assert (r % 512) / 512 == 0;
    } else {
      assert r < 512 && r % 512 == r;
    }
  }

  // ---------------------------------------------------------------------
  // Choosing the calibration value

  /** The summed distance of reading k to the other two (cali_err_2[k]). */
  function Spread(v0: int, v1: int, v2: int, k: nat): (e: nat)
    requires k < 3
  {
    var d01, d12, d20 := Abs(v1 - v0), Abs(v2 - v1), Abs(v0 - v2);
    if k == 0 then d20 + d01 else if k == 1 then d01 + d12 else d12 + d20
  }

  /** The reading whose spread is strictly smallest; reading 2 when no spread is. */
  function AutoIndex(v0: int, v1: int, v2: int): (k: nat)
    ensures k < 3
    ensures k == 0 <==> Spread(v0, v1, v2, 0) < Spread(v0, v1, v2, 1) && Spread(v0, v1, v2, 0) < Spread(v0, v1, v2, 2)
    ensures k == 1 <==> Spread(v0, v1, v2, 1) < Spread(v0, v1, v2, 0) && Spread(v0, v1, v2, 1) < Spread(v0, v1, v2, 2)
  {
    var e0, e1, e2 := Spread(v0, v1, v2, 0), Spread(v0, v1, v2, 1), Spread(v0, v1, v2, 2);
    if e0 < e1 && e0 < e2 then 0 else if e1 < e0 && e1 < e2 then 1 else 2
  }

  function Pick(v0: int, v1: int, v2: int, k: nat): int
    requires k < 3
  {
    if k == 0 then v0 else if k == 1 then v1 else v2
  }

  /** dac_err_auto. */
  function Auto(v0: int, v1: int, v2: int): int
  {
    Pick(v0, v1, v2, AutoIndex(v0, v1, v2))
  }

  /** For three distinct readings the auto value is their median. */
  lemma AutoIsMedian(v0: int, v1: int, v2: int)
    requires v0 != v1 && v1 != v2 && v0 != v2
    ensures var a := Auto(v0, v1, v2);
      (a == v0 && Min(v1, v2) < v0 < Max(v1, v2))
      || (a == v1 && Min(v0, v2) < v1 < Max(v0, v2))
      || (a == v2 && Min(v0, v1) < v2 < Max(v0, v1))
  {
  }

  /**
   * Whenever two readings agree no spread is strictly smallest, so reading
   * 2 is taken: with readings 0 and 1 equal that is the odd reading, not
   * the value two of the three agree on.
   */
  lemma TieTakesReadingTwo(v0: int, v1: int, v2: int)
    requires v0 == v1 || v1 == v2 || v0 == v2
    ensures Auto(v0, v1, v2) == v2
    ensures v0 == v1 != v2 ==> Auto(v0, v1, v2) != v0
  {
    var e0, e1, e2 := Spread(v0, v1, v2, 0), Spread(v0, v1, v2, 1), Spread(v0, v1, v2, 2);
    if v0 == v1 {
      assert e0 == e1;
    } else if v1 == v2 {
      assert e1 == e2;
    } else {
      assert e0 == e2;
    }
  }

  /** dac_err_opti: the auto value when within 100 of the factory value, else the factory value. */
  function Optimum(auto: int, efuse: int): (o: int)
    ensures o == auto || o == efuse
    ensures o == auto <==> Abs(auto - efuse) < 100 || auto == efuse
  {
    if Abs(auto - efuse) < 100 then auto else efuse
  }

  /** The error value calibration writes back: decoded readings, chosen, checked, encoded. */
  function DacErrSet(cali: nat, r0: nat, r1: nat, r2: nat): (w: nat)
    ensures w < 1024
    ensures SignMag(w) == Optimum(Auto(SignMag(r0), SignMag(r1), SignMag(r2)), SignMag(cali))
  {
    var o := Optimum(Auto(SignMag(r0), SignMag(r1), SignMag(r2)), SignMag(cali));
    EncodeRoundTrip(o);
    Encode(o)
  }

  /**
   * The calibration register word: cali << 16 | 0xc << 8, as u32, so only
   * the low 16 bits of cali reach the upper half-word.
   */
  function CaliWord(cali: nat): (w: nat)
    ensures w < TWO32 && !BitSet(w, 1) && !BitSet(w, 16)
    ensures w / 65536 == cali % 65536 && w % 65536 == 0xc00
  {
    var q := cali % 65536;
    assert q * 65536 + 0xc00 == 16 * (q * 4096 + 192) == 2 * (q * 32768 + 1536);
    q * 65536 + 0xc00
  }

  /** tve_low_get_dac_status: the low two bits of register 0x038 (0 unconnected, 1 connected, 3 short to ground). */
  function DacStatus(readval: nat): (s: int)
    ensures 0 <= s <= 3 && (readval - s) % 4 == 0
  {
    readval % 4
  }

  /** The DAC level tve_low_init writes: 784 * 1100 / (1030 + offset), as u32. */
  function InitDacSet(offset: int): (d: nat)
    requires 1030 + offset != 0
    ensures d < TWO32
  {
    U32(CDiv(784 * 1100, 1030 + offset))
  }

  /** With no offset the level is 837. */
  lemma InitDacSetNominal()
    ensures InitDacSet(0) == 837
  {
  }

  /** Register `a` of the map, 0 if never written. */
  function Word(regs: map<int, nat>, a: int): nat
  {
    if a in regs then regs[a] else 0
  }

  class Encoder {
    var regs: map<int, nat>

    constructor(regs0: map<int, nat>)
      ensures regs == regs0
    {
      regs := regs0;
    }

    /** tve_low_init: calibration word, DAC level, DAC setting, clock gate. */
    method Init(cali: nat, offset: int)
      requires 1030 + offset != 0
      modifies this
      ensures regs == old(regs)[Tve304 := CaliWord(cali)][Tve300 := U32(InitDacSet(offset) * 65536)]
        [Tve008 := DacSetting][Tve000 := 0x8000_0000]
    {
      regs := regs[Tve304 := CaliWord(cali)];
      regs := regs[Tve300 := U32(InitDacSet(offset) * 65536)];
      regs := regs[Tve008 := DacSetting];
      regs := regs[Tve000 := 0x8000_0000];
    }

    /**
     * One round of the calibration loop: start the measurement (bits 4
     * and 0 of register 0x304), take the reading the hardware left in
     * `sample`, stop the measurement again.
     */
    method Measure(sample: nat) returns (x: int)
      requires Tve304 in regs && !BitSet(regs[Tve304], 1) && !BitSet(regs[Tve304], 16)
      modifies this
      ensures regs == old(regs)
      ensures x == SignMag(Reading(sample))
    {
      var w := regs[Tve304];
      regs := regs[Tve304 := SetBit(w, 16)];
      regs := regs[Tve304 := SetBit(regs[Tve304], 1)];
      var r := Reading(sample);
      regs := regs[Tve304 := ClrBit(regs[Tve304], 1)];
      regs := regs[Tve304 := ClrBit(regs[Tve304], 16)];
      SetBitsClear(w);
      assert regs == old(regs)[Tve304 := w];
      var mag: int := r % 512;
      x := if BitSet(r, 512) then mag else -mag;
    }

    /**
     * tve_low_dac_auto_cali: three readings (`samples`, what the
     * hardware puts into register 0x308 each round), the auto value, the
     * check against the factory value `cali`, and the encoded result
     * written to bits 16-25 of register 0x304; calibration is then
     * released and plug detection enabled.
     */
    method DacAutoCali(cali: nat, samples: seq<nat>)
      requires |samples| == 3
      modifies this
      ensures regs == old(regs)[Tve000 := 0x8000_0300][Tve030 := 0][Tve008 := DacSetting]
        [Tve304 := DacErrSet(cali, Reading(samples[0]), Reading(samples[1]), Reading(samples[2])) * 65536 + 0xc00]
        [Tve300 := ClrBit(Word(old(regs), Tve300), 1)][Tve030 := 1]
    {
      StartCali(cali);
      var vals := MeasureAll(samples);
      var code := Encode(Optimum(Auto(vals[0], vals[1], vals[2]), SignMag(cali)));
      FinishCali(code);
      SetThenClearBit0(Word(old(regs), Tve300));
    }

    /** The set-up writes of the calibration: clock on, detection off, DAC setting, factory word, DAC forced. */
    method StartCali(cali: nat)
      modifies this
      ensures regs == old(regs)[Tve000 := 0x8000_0300][Tve030 := 0][Tve008 := DacSetting]
        [Tve304 := CaliWord(cali)][Tve300 := SetBit(Word(old(regs), Tve300), 1)]
    {
      var w300 := Word(regs, Tve300);
      regs := regs[Tve000 := 0x8000_0300];
      regs := regs[Tve030 := 0];
      regs := regs[Tve008 := DacSetting];
      regs := regs[Tve304 := CaliWord(cali)];
      regs := regs[Tve300 := SetBit(w300, 1)];
    }

    /** The three measurement rounds; they leave the registers as they were. */
    method MeasureAll(samples: seq<nat>) returns (vals: seq<int>)
      requires |samples| == 3
      requires Tve304 in regs && !BitSet(regs[Tve304], 1) && !BitSet(regs[Tve304], 16)
      modifies this
      ensures regs == old(regs)
      ensures |vals| == 3 && forall j :: 0 <= j < 3 ==> vals[j] == SignMag(Reading(samples[j]))
    {
      vals := [];
      for i := 0 to 3
        invariant regs == old(regs)
        invariant |vals| == i
        invariant forall j :: 0 <= j < i ==> vals[j] == SignMag(Reading(samples[j]))
      {
        var x := Measure(samples[i]);
        vals := vals + [x];
      }
    }

    /** The closing writes: the chosen error value, the DAC released, plug detection on. */
    method FinishCali(code: nat)
      modifies this
      ensures regs == old(regs)[Tve304 := code * 65536 + 0xc00][Tve300 := ClrBit(Word(old(regs), Tve300), 1)][Tve030 := 1]
    {
      var w300 := Word(regs, Tve300);
      regs := regs[Tve304 := code * 65536 + 0xc00];
      regs := regs[Tve300 := ClrBit(w300, 1)];
      regs := regs[Tve030 := 1];
    }
  }

  /** The measurement bits start clear, so setting and clearing them restores the word. */
  lemma SetBitsClear(w: nat)
    requires !BitSet(w, 1) && !BitSet(w, 16)
    ensures ClrBit(ClrBit(SetBit(SetBit(w, 16), 1), 1), 16) == w
  {
    assert w / 1 == w && (w + 16) / 1 == w + 16 && (w + 17) / 1 == w + 17;
    assert w % 2 == 0;
    assert (w + 16) / 16 == w / 16 + 1;
    var a := SetBit(w, 16);
    assert a == w + 16;
    var b := SetBit(a, 1);
    assert b == a + 1;
    assert ClrBit(b, 1) == a;
    assert ClrBit(a, 16) == w;
  }
}
