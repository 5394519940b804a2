/**
 * The interrupt table and the register-dump attributes of the AXP core
 * (axp-core.c): request, enable, disable and free of one interrupt, the
 * interrupt work that assembles the status word and runs the registered
 * handlers, and the "axp_reg" / "axp_regs" sysfs stores.
 *
 * Handlers are opaque: a handler is a number (0 stands for NULL) and its
 * data an integer; running a handler is recorded as a Call.  The bus is the
 * register-file value of module Regmap.
 */
module AxpCore {
  import opened Common
  import opened Parse
  import opened Regmap

  /** AXP_REG_WIDTH: interrupts per status/enable register. */
  const RegWidth: nat := 8

  /** Register holding the enable bit of interrupt `irqNo`. */
  function IrqReg(enableBase: int, irqNo: nat): int
  {
    enableBase + irqNo / RegWidth
  }

  /** Position of that bit inside its register. */
  function IrqBitPos(irqNo: nat): (k: nat)
    ensures k < RegWidth
  {
    irqNo % RegWidth
  }

  /** The mask 1 << (irq_no % AXP_REG_WIDTH). */
  function IrqMask(irqNo: nat): bv8
  {
    Bit(IrqBitPos(irqNo))
  }

  /** Distinct interrupts never share both their register and their bit. */
  lemma IrqSlotsDistinct(enableBase: int, i: nat, j: nat)
    requires i != j
    ensures IrqReg(enableBase, i) != IrqReg(enableBase, j) || IrqBitPos(i) != IrqBitPos(j)
  {
    assert i == RegWidth * (i / RegWidth) + i % RegWidth;
    assert j == RegWidth * (j / RegWidth) + j % RegWidth;
  }

  // ---------------------------------------------------------------------
  // The status word of axp_irq_work

  function Pow2(k: nat): (p: nat)
    ensures p >= 1
  {
    if k == 0 then 1 else 2 * Pow2(k - 1)
  }

  /** Bit `k` of the natural number `x`. */
  predicate BitAt(x: nat, k: nat)
  {
    if k == 0 then x % 2 == 1 else BitAt(x / 2, k - 1)
  }

  /**
   * irqs = OR over i of (u64)reg_val[i] << (i * 8).  The bytes occupy
   * disjoint lanes, so the OR is the sum of the shifted bytes.
   */
  function IrqWord(vals: seq<bv8>): nat
  {
    if |vals| == 0 then 0 else vals[0] as int + 256 * IrqWord(vals[1..])
  }

  lemma {:induction false} ZeroBits(j: nat)
    ensures !BitAt(0, j)
  {
    if j > 0 {
      ZeroBits(j - 1);
    }
  }

  /** The low k bits of a + 2^k * w are those of a, the higher ones those of w. */
  lemma {:induction false} BitSplit(a: nat, w: nat, k: nat, j: nat)
    requires a < Pow2(k)
    ensures BitAt(a + Pow2(k) * w, j) <==> if j < k then BitAt(a, j) else BitAt(w, j - k)
    decreases k
  {
    if k > 0 {
      var t := Pow2(k - 1) * w;
      assert Pow2(k) * w == 2 * t;
      if j > 0 {
        assert (a + 2 * t) / 2 == a / 2 + t;
        BitSplit(a / 2, w, k - 1, j - 1);
      }
    }
  }

  /** Bit j of the status word is bit j % 8 of status register j / 8. */
  lemma {:induction false} WordBit(vals: seq<bv8>, j: nat)
    ensures BitAt(IrqWord(vals), j) <==> j < RegWidth * |vals| && BitAt(vals[j / RegWidth] as int, j % RegWidth)
    decreases |vals|
  {
    if |vals| == 0 {
      ZeroBits(j);
    } else {
      assert Pow2(8) == 256;
      BitSplit(vals[0] as int, IrqWord(vals[1..]), 8, j);
      if j >= 8 {
        WordBit(vals[1..], j - 8);
        assert (j - 8) / 8 == j / 8 - 1 && (j - 8) % 8 == j % 8;
      }
    }
  }

  /** Adding one more status byte on top of the word built so far. */
  lemma {:induction false} WordSnoc(vals: seq<bv8>, v: bv8)
    ensures IrqWord(vals + [v]) == IrqWord(vals) + v as int * Pow2(RegWidth * |vals|)
    decreases |vals|
  {
    if |vals| == 0 {
      assert Pow2(0) == 1;
    } else {
      var rest := vals[1..];
      assert (vals + [v])[1..] == rest + [v];
      assert (vals + [v])[0] == vals[0];
      WordSnoc(rest, v);
      var p := Pow2(RegWidth * |rest|);
      Pow2Byte(RegWidth * |rest|);
      assert RegWidth * |rest| + 8 == RegWidth * |vals|;
      var a := IrqWord(rest);
      assert IrqWord(vals + [v]) == vals[0] as int + 256 * (a + v as int * p);
      Distribute(a, v as int, p);
    }
  }

  lemma Distribute(a: int, v: int, p: int)
    ensures 256 * (a + v * p) == 256 * a + v * (256 * p)
  {
  }

  lemma {:induction false} Pow2Byte(k: nat)
    ensures Pow2(k + 8) == 256 * Pow2(k)
    decreases k
  {
    if k == 0 {
      assert Pow2(8) == 256;
    } else {
      Pow2Byte(k - 1);
      assert Pow2(k + 8) == 2 * Pow2(k - 1 + 8);
    }
  }

  /** One run of a registered handler: interrupt number, handler and its data. */
  datatype Call = Call(irq: nat, handler: nat, data: int)

  /**
   * for_each_set_bit(j, &irqs, n): the handlers of the set bits below n
   * that are registered, in increasing interrupt order.
   */
  function Dispatch(w: nat, handler: seq<nat>, data: seq<int>, n: nat): seq<Call>
    requires n <= |handler| && n <= |data|
  {
    if n == 0 then []
    else
      var last := if BitAt(w, n - 1) && handler[n - 1] != 0 then [Call(n - 1, handler[n - 1], data[n - 1])] else [];
      Dispatch(w, handler, data, n - 1) + last
  }

  /** A handler runs exactly when its bit is set and it is registered, with its own data. */
  lemma {:induction false} DispatchMembers(w: nat, handler: seq<nat>, data: seq<int>, n: nat, c: Call)
    requires n <= |handler| && n <= |data|
    ensures c in Dispatch(w, handler, data, n) <==>
      c.irq < n && BitAt(w, c.irq) && handler[c.irq] != 0 && c.handler == handler[c.irq] && c.data == data[c.irq]
  {
    if n > 0 {
      DispatchMembers(w, handler, data, n - 1, c);
    }
  }

  /** Handlers run in strictly increasing interrupt order. */
  lemma {:induction false} DispatchOrdered(w: nat, handler: seq<nat>, data: seq<int>, n: nat)
    requires n <= |handler| && n <= |data|
    ensures forall p, q :: 0 <= p < q < |Dispatch(w, handler, data, n)| ==>
      Dispatch(w, handler, data, n)[p].irq < Dispatch(w, handler, data, n)[q].irq
  {
    if n > 0 {
      DispatchOrdered(w, handler, data, n - 1);
      var cs := Dispatch(w, handler, data, n - 1);
      var last := if BitAt(w, n - 1) && handler[n - 1] != 0 then [Call(n - 1, handler[n - 1], data[n - 1])] else [];
      assert Dispatch(w, handler, data, n) == cs + last;
      forall p | 0 <= p < |cs| ensures cs[p].irq < n - 1 {
        assert cs[p] in cs;
        DispatchMembers(w, handler, data, n - 1, cs[p]);
      }
      var all := cs + last;
      forall p, q | 0 <= p < q < |all| ensures all[p].irq < all[q].irq {
        assert all[p] == cs[p];
        if q < |cs| {
          assert all[q] == cs[q];
        } else {
          assert all[q] == last[q - |cs|] && last[q - |cs|].irq == n - 1;
        }
      }
    }
  }

  /** The first loop of axp_irq_work: irqs |= (u64)reg_val[i] << (i * 8) for i < n. */
  method BuildWord(regVal: seq<bv8>, n: nat) returns (irqs: nat)
    requires n <= |regVal|
    ensures irqs == IrqWord(regVal[..n])
  {
    irqs := 0;
    var i := 0;
    while i < n
      invariant 0 <= i <= n
      invariant irqs == IrqWord(regVal[..i])
    {
      WordSnoc(regVal[..i], regVal[i]);
      assert regVal[..i + 1] == regVal[..i] + [regVal[i]];
      irqs := irqs + regVal[i] as int * Pow2(RegWidth * i);
      i := i + 1;
    }
  }

  /** The for_each_set_bit loop of axp_irq_work: runs the registered handlers of the set bits below n. */
  method RunHandlers(irqs: nat, handler: seq<nat>, data: seq<int>, n: nat) returns (calls: seq<Call>)
    requires n <= |handler| && n <= |data|
    ensures calls == Dispatch(irqs, handler, data, n)
  {
    calls := [];
    var j := 0;
    while j < n
      invariant 0 <= j <= n
      invariant calls == Dispatch(irqs, handler, data, j)
    {
      if BitAt(irqs, j) && handler[j] != 0 {
        calls := calls + [Call(j, handler[j], data[j])];
      }
      j := j + 1;
    }
  }

  /** RangeOk is exactly "the first faulty position is past the range". */
  lemma RangeOkFirstFault(bus: Bus, reg: int, len: nat)
    ensures RangeOk(bus, reg, len) <==> FirstFault(bus, reg, len) == len
  {
  }

  /**
   * reg_val after axp_regmap_reads into the uninitialised 8-byte array whose
   * earlier contents are `stale`: the bytes __axp_reads_rsb copied before
   * any failure, the stale bytes behind them.
   */
  function StatusBuffer(bus: Bus, base: int, n: nat, stale: seq<bv8>): (buf: seq<bv8>)
    requires n <= 8 && |stale| == 8
    ensures |buf| == 8
  {
    var k := FirstFault(bus, base, n);
    var got := if k == n then n else k / TransByteMax * TransByteMax;
    seq(8, i requires 0 <= i < 8 => if i < got then Reg(bus, Addr(base + i)) else stale[i])
  }

  /** With every status register reachable the word holds exactly their bits. */
  lemma StatusWordBits(bus: Bus, base: int, n: nat, stale: seq<bv8>, j: nat)
    requires n <= 8 && |stale| == 8 && RangeOk(bus, base, n)
    ensures BitAt(IrqWord(StatusBuffer(bus, base, n, stale)[..n]), j) <==>
      j < RegWidth * n && BitAt(Reg(bus, Addr(base + j / RegWidth)) as int, j % RegWidth)
  {
    var buf := StatusBuffer(bus, base, n, stale);
    RangeOkFirstFault(bus, base, n);
    WordBit(buf[..n], j);
  }

  // ---------------------------------------------------------------------
  // The AXP device: its register map, interrupt table and dump attributes

  class AxpDev {
    /** The register file behind adev->regmap. */
    var bus: Bus
    /** irqs[j].handler (0 for NULL) and irqs[j].data. */
    var handler: seq<nat>
    var data: seq<int>
    /** The chip description: num_regs, status_base, enable_base. */
    const numRegs: nat
    const statusBase: int
    const enableBase: int
    /** The static axp_reg_addr (u8) and data2 (u32) of the dump attributes. */
    var regAddr: bv8
    var dumpCount: nat

    /** num_irqs = AXP_REG_WIDTH * num_regs, and the status word fits u64. */
    function NumIrqs(): nat
      reads this
    {
      RegWidth * numRegs
    }

    predicate Valid()
      reads this
    {
      1 <= numRegs <= 8 && |handler| == NumIrqs() && |data| == NumIrqs() && Good(bus) && dumpCount < TWO32
    }

    /** axp_irq_chip_register's zeroed table; data2 starts at 2. */
    constructor (bus0: Bus, regs: nat, status: int, enable: int)
      requires 1 <= regs <= 8 && Good(bus0)
      ensures Valid()
      ensures bus == bus0 && numRegs == regs && statusBase == status && enableBase == enable
      ensures handler == seq(RegWidth * regs, _ => 0) && data == seq(RegWidth * regs, _ => 0)
      ensures regAddr == 0 && dumpCount == 2
    {
      bus := bus0;
      numRegs := regs;
      statusBase := status;
      enableBase := enable;
      handler := seq(RegWidth * regs, _ => 0);
      data := seq(RegWidth * regs, _ => 0);
      regAddr := 0;
      dumpCount := 2;
    }

    predicate InRange(irqNo: int)
      reads this
    {
      0 <= irqNo < NumIrqs()
    }

    /**
     * axp_request_irq: an out-of-range number or a NULL handler gives -1;
     * otherwise the handler and data are stored and the enable bit is set.
     */
    method RequestIrq(irqNo: int, h: nat, d: int) returns (ret: int)
      requires Valid()
      modifies this
      ensures Valid()
      ensures !InRange(irqNo) || h == 0 ==> ret == -1 && unchanged(this)
      ensures InRange(irqNo) && h != 0 ==>
        handler == old(handler)[irqNo := h] && data == old(data)[irqNo := d]
        && (bus, ret) == SetBits(old(bus), IrqReg(enableBase, irqNo), IrqMask(irqNo), false)
        && regAddr == old(regAddr) && dumpCount == old(dumpCount)
    {
      if irqNo < 0 || irqNo >= RegWidth * numRegs || h == 0 {
        return -1;
      }
      handler := handler[irqNo := h];
      data := data[irqNo := d];
      var r := SetBits(bus, IrqReg(enableBase, irqNo), IrqMask(irqNo), false);
      bus := r.0;
      ret := r.1;
    }

    /** axp_enable_irq: sets the enable bit only for a registered handler. */
    method EnableIrq(irqNo: int) returns (ret: int)
      requires Valid()
      modifies this
      ensures Valid()
      ensures handler == old(handler) && data == old(data) && regAddr == old(regAddr) && dumpCount == old(dumpCount)
      ensures !InRange(irqNo) ==> ret == -1 && bus == old(bus)
      ensures InRange(irqNo) && handler[irqNo] == 0 ==> ret == 0 && bus == old(bus)
      ensures InRange(irqNo) && handler[irqNo] != 0 ==>
        (bus, ret) == SetBits(old(bus), IrqReg(enableBase, irqNo), IrqMask(irqNo), false)
    {
      if irqNo < 0 || irqNo >= RegWidth * numRegs {
        return -1;
      }
      ret := 0;
      if handler[irqNo] != 0 {
        var r := SetBits(bus, IrqReg(enableBase, irqNo), IrqMask(irqNo), false);
        bus := r.0;
        ret := r.1;
      }
    }

    /** axp_disable_irq: clears the enable bit whether or not a handler is registered. */
    method DisableIrq(irqNo: int) returns (ret: int)
      requires Valid()
      modifies this
      ensures Valid()
      ensures handler == old(handler) && data == old(data) && regAddr == old(regAddr) && dumpCount == old(dumpCount)
      ensures !InRange(irqNo) ==> ret == -1 && bus == old(bus)
      ensures InRange(irqNo) ==>
        (bus, ret) == ClrBits(old(bus), IrqReg(enableBase, irqNo), IrqMask(irqNo), false)
    {
      if irqNo < 0 || irqNo >= RegWidth * numRegs {
        return -1;
      }
      var r := ClrBits(bus, IrqReg(enableBase, irqNo), IrqMask(irqNo), false);
      bus := r.0;
      ret := r.1;
    }

    /**
     * axp_free_irq: for a registered handler clears the enable bit (its
     * result is ignored) and the table entry; returns 0 for any number in range.
     */
    method FreeIrq(irqNo: int) returns (ret: int)
      requires Valid()
      modifies this
      ensures Valid()
      ensures regAddr == old(regAddr) && dumpCount == old(dumpCount)
      ensures !InRange(irqNo) ==> ret == -1 && unchanged(this)
      ensures InRange(irqNo) ==> ret == 0
      ensures InRange(irqNo) && old(handler)[irqNo] == 0 ==> unchanged(this)
      ensures InRange(irqNo) && old(handler)[irqNo] != 0 ==>
        handler == old(handler)[irqNo := 0] && data == old(data)[irqNo := 0]
        && bus == ClrBits(old(bus), IrqReg(enableBase, irqNo), IrqMask(irqNo), false).0
    {
      if irqNo < 0 || irqNo >= RegWidth * numRegs {
        return -1;
      }
      if handler[irqNo] != 0 {
        bus := ClrBits(bus, IrqReg(enableBase, irqNo), IrqMask(irqNo), false).0;
        data := data[irqNo := 0];
        handler := handler[irqNo := 0];
      }
      ret := 0;
    }

    /**
     * axp_irq_work: reads the num_regs status registers into reg_val (whose
     * unread bytes keep their stale contents), builds the status word, runs
     * the registered handlers of its set bits below num_irqs, and writes the
     * status bytes back to acknowledge them.
     */
    method IrqWork(stale: seq<bv8>) returns (calls: seq<Call>)
      requires Valid() && |stale| == 8
      modifies this
      ensures Valid()
      ensures handler == old(handler) && data == old(data) && regAddr == old(regAddr) && dumpCount == old(dumpCount)
      ensures var buf := StatusBuffer(old(bus), statusBase, numRegs, stale);
        calls == Dispatch(IrqWord(buf[..numRegs]), handler, data, NumIrqs())
        && bus == RunChunks(old(bus), ChunkPlan(statusBase, buf[..numRegs]), false).bus
    {
      var ret, got := ReadsRsb(bus, statusBase, numRegs);
      RangeOkFirstFault(bus, statusBase, numRegs);
      var regVal := got + stale[|got|..];
      assert regVal == StatusBuffer(bus, statusBase, numRegs, stale);
      var irqs := BuildWord(regVal, numRegs);
      calls := RunHandlers(irqs, handler, data, RegWidth * numRegs);
      var out, wret, sent := Writes(bus, statusBase, regVal[..numRegs], false);
      bus := out;
    }

    /** axp_reg_show: the selected address and what reading it gives. */
    function RegShow(): (r: (bv8, ReadResult))
      reads this
      ensures r.0 == regAddr
    {
      (regAddr, Read(bus, regAddr as int))
    }

    /**
     * axp_reg_store: the hexadecimal input, cast to s32, below 256 only
     * selects a register (a negative value selects its low byte); otherwise
     * bits 8..15 select the register and bits 0..7 are written to it.  The
     * write's result is ignored and the whole input is consumed.
     */
    method RegStore(s: seq<char>) returns (n: int)
      requires Valid()
      modifies this
      ensures Valid()
      ensures n == |s| && handler == old(handler) && data == old(data) && dumpCount == old(dumpCount)
      ensures var tmp := RegCommand(s);
        if tmp < 256 then regAddr == U8(tmp) && bus == old(bus)
        else regAddr == U8(tmp / 256) && bus == Write(old(bus), regAddr as int, U8(tmp), false).0
    {
      var tmp := S32(StrToUl(s, 16).0);
      if tmp < 256 {
        regAddr := U8(tmp);
      } else {
        var val := U8(tmp);
        regAddr := U8(tmp / 256);
        bus := Write(bus, regAddr as int, val, false).0;
      }
      n := |s|;
    }

    /**
     * axp_regs_store: "<hex> <dec>".  Without a space right after the
     * hexadecimal number it fails with -EINVAL and changes nothing.
     * Otherwise data2 takes the decimal number; a first number below 256
     * only selects a register, a larger one selects register bits 16..23
     * and writes bits 8..15 and 0..7 to it and the register after it.
     */
    method RegsStore(s: seq<char>) returns (n: int)
      requires Valid()
      modifies this
      ensures Valid()
      ensures handler == old(handler) && data == old(data)
      ensures !RegsWellFormed(s) ==> n == -EINVAL && unchanged(this)
      ensures RegsWellFormed(s) ==>
        n == |s|
        && dumpCount == RegsCount(s)
        && (RegsFirst(s) < 256 ==> regAddr == U8(RegsFirst(s)) && bus == old(bus))
        && (RegsFirst(s) >= 256 ==>
              regAddr == U8(RegsFirst(s) / 65536)
              && bus == RunChunks(old(bus), ChunkPlan(regAddr as int, RegsValues(RegsFirst(s))), false).bus)
    {
      var p := StrToUl(s, 16);
      var data1 := U32(p.0);
      if p.1 >= |s| || s[p.1] != ' ' {
        return -EINVAL;
      }
      dumpCount := U32(StrToUl(s[p.1 + 1..], 10).0);
      SelectRegs(data1);
      n := |s|;
    }

    /**
     * The second half of axp_regs_store: data1 below 256 selects a register;
     * a larger one selects register bits 16..23 and writes bits 8..15 and
     * 0..7 to it and the register after it.
     */
    method SelectRegs(data1: nat)
      requires Valid()
      modifies this
      ensures Valid()
      ensures handler == old(handler) && data == old(data) && dumpCount == old(dumpCount)
      ensures data1 < 256 ==> regAddr == U8(data1) && bus == old(bus)
      ensures data1 >= 256 ==>
        regAddr == U8(data1 / 65536)
        && bus == RunChunks(old(bus), ChunkPlan(regAddr as int, RegsValues(data1)), false).bus
    {
      if data1 < 256 {
        regAddr := U8(data1);
      } else {
        regAddr := U8(data1 / 65536);
        var vals := [U8(data1 / 256), U8(data1)];
        var out, wret, sent := Writes(bus, regAddr as int, vals, false);
        bus := out;
      }
    }
  }

  /** The s32 value axp_reg_store reads from its input. */
  function RegCommand(s: seq<char>): (tmp: int)
    ensures -0x8000_0000 <= tmp < 0x8000_0000
  {
    S32(StrToUl(s, 16).0)
  }

  /** The hexadecimal number of axp_regs_store is followed by a space (not the end of the input). */
  predicate RegsWellFormed(s: seq<char>)
  {
    var e := StrToUl(s, 16).1;
    e < |s| && s[e] == ' '
  }

  /** The first (u32) number of axp_regs_store. */
  function RegsFirst(s: seq<char>): (d: nat)
    ensures d < TWO32
  {
    U32(StrToUl(s, 16).0)
  }

  /** The register count data2 that axp_regs_store reads after the space. */
  function RegsCount(s: seq<char>): (d: nat)
    requires RegsWellFormed(s)
    ensures d < TWO32
  {
    U32(StrToUl(s[StrToUl(s, 16).1 + 1..], 10).0)
  }

  /** val[0] = (data1 >> 8) & 0xFF, val[1] = data1 & 0xFF. */
  function RegsValues(data1: nat): (vals: seq<bv8>)
    ensures |vals| == 2
    ensures vals[0] as int * 256 + vals[1] as int == data1 % 65536
  {
    SplitWord(data1);
    [U8(data1 / 256), U8(data1)]
  }

  /** Bits 8..15 and 0..7 of d make up its low sixteen bits. */
  lemma SplitWord(d: nat)
    ensures (d / 256) % 256 * 256 + d % 256 == d % 65536
  {
    var a, r := d / 65536, d % 65536;
    assert d == 65536 * a + r;
    assert d / 256 == 256 * a + r / 256;
    assert (d / 256) % 256 == r / 256;
    assert d % 256 == r % 256;
  }

  /** A store of a value of 256 or more followed by a show reads back the written byte. */
  lemma RegStoreShow(bus: Bus, s: seq<char>)
    requires RegCommand(s) >= 256
    requires Addr(RegCommand(s) / 256 % 256) !in bus.faulty
    ensures var tmp := RegCommand(s);
      var a := U8(tmp / 256);
      Read(Write(bus, a as int, U8(tmp), false).0, a as int) == ReadOk(U8(tmp))
  {
    var tmp := RegCommand(s);
    var a := U8(tmp / 256);
    StoreEffect(bus, Addr(a as int), U8(tmp), false);
  }

  /** A two-byte dump write puts (data1 >> 8) & 0xFF and data1 & 0xFF into two consecutive registers. */
  lemma RegsStoreEffect(bus: Bus, d: nat)
    requires 256 <= d < TWO32
    requires RangeOk(bus, U8(d / 65536) as int, 2)
    ensures var a := U8(d / 65536) as int;
      var r := RunChunks(bus, ChunkPlan(a, RegsValues(d)), false);
      r.ret == 0 && Reg(r.bus, a) as int == d / 256 % 256 && Reg(r.bus, Addr(a + 1)) as int == d % 256
  {
    var vals := RegsValues(d);
    assert vals[0] == U8(d / 256) && vals[1] == U8(d);
    PairStore(bus, U8(d / 65536) as int, vals);
  }

  /** Writing two bytes to a reachable pair of registers stores them in order. */
  lemma PairStore(bus: Bus, a: int, vals: seq<bv8>)
    requires 0 <= a < 256 && |vals| == 2
    requires RangeOk(bus, a, 2)
    ensures var r := RunChunks(bus, ChunkPlan(a, vals), false);
      r.ret == 0 && Reg(r.bus, a) == vals[0] && Reg(r.bus, Addr(a + 1)) == vals[1]
  {
    WritesAllReachable(bus, a, vals, false);
    ConsecutiveRead(bus, a, vals, false, a);
    assert Offset(a, a) == 0;
    OffsetNext(a);
    ConsecutiveRead(bus, a, vals, false, Addr(a + 1));
  }

  lemma OffsetNext(a: int)
    requires 0 <= a < 256
    ensures Offset(a, Addr(a + 1)) == 1
  {
    if a == 255 {
      assert Addr(a + 1) == 0;
    } else {
      assert Addr(a + 1) == a + 1;
    }
  }

  /** Requesting an interrupt on a reachable register leaves its enable bit set and no other register changed. */
  lemma RequestSetsEnable(bus: Bus, enableBase: int, irqNo: nat)
    requires Addr(IrqReg(enableBase, irqNo)) !in bus.faulty
    ensures var r := SetBits(bus, IrqReg(enableBase, irqNo), IrqMask(irqNo), false);
      r.1 == 0 && AllSet(Reg(r.0, Addr(IrqReg(enableBase, irqNo))), IrqMask(irqNo))
      && SameExcept(r.0, bus, Addr(IrqReg(enableBase, irqNo)))
  {
    SetBitsEffect(bus, IrqReg(enableBase, irqNo), IrqMask(irqNo), false);
    OrMask(Reg(bus, Addr(IrqReg(enableBase, irqNo))), IrqMask(irqNo));
  }

  /** Disabling clears the enable bit and no other register changes. */
  lemma DisableClearsEnable(bus: Bus, enableBase: int, irqNo: nat)
    requires Addr(IrqReg(enableBase, irqNo)) !in bus.faulty
    ensures var r := ClrBits(bus, IrqReg(enableBase, irqNo), IrqMask(irqNo), false);
      r.1 == 0 && !AnySet(Reg(r.0, Addr(IrqReg(enableBase, irqNo))), IrqMask(irqNo))
      && SameExcept(r.0, bus, Addr(IrqReg(enableBase, irqNo)))
  {
    ClrBitsEffect(bus, IrqReg(enableBase, irqNo), IrqMask(irqNo), false);
    AndNotMask(Reg(bus, Addr(IrqReg(enableBase, irqNo))), IrqMask(irqNo));
  }
}
