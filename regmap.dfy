/**
 * The AXP register map (axp-core.c): 8-bit registers behind an I2C or RSB
 * transport, the read-modify-write helpers built on single transfers, the
 * chunked RSB block read, and the packed multi-register write encoding of
 * _axp_writes together with the RSB side that decodes it into
 * (address, value) pairs.
 *
 * The register file is a value: the map from address to byte, the set of
 * addresses whose transfers fail (with the transport's error code `err`),
 * and the log of every register write that reached the chip.  Register
 * addresses are cut to u8 by the transport, as the RSB path does.
 */
module Regmap {
  import opened Common

  /** AXP_TRANS_BYTE_MAX: the largest RSB block.  Its header is not part of
   *  this model; the proofs only use that it is positive. */
  const TransByteMax: nat := 8

  /** The chunk size of _axp_writes (a literal 15 in the source). */
  const WritesChunk: nat := 15

  datatype Transfer = Transfer(addr: int, value: bv8, sync: bool)

  datatype Bus = Bus(regs: map<int, bv8>, faulty: set<int>, err: int, log: seq<Transfer>)

  /** A transport reports failures with a negative code. */
  predicate Good(bus: Bus)
  {
    bus.err < 0
  }

  /** The address the transport puts on the wire for register number `reg`. */
  function Addr(reg: int): (a: int)
    ensures 0 <= a < 256
  {
    reg % 256
  }

  /** Current content of a register (registers never written read as 0). */
  function Reg(bus: Bus, a: int): bv8
  {
    if a in bus.regs then bus.regs[a] else 0
  }

  /** Two buses agree on every register except `a`. */
  ghost predicate SameExcept(b1: Bus, b2: Bus, a: int)
  {
    forall x :: x != a ==> Reg(b1, x) == Reg(b2, x)
  }

  datatype ReadResult = ReadOk(value: bv8) | ReadErr(errno: int)

  /** _axp_read: one register, or the transport error. */
  function Read(bus: Bus, reg: int): (r: ReadResult)
    ensures r.ReadOk? <==> Addr(reg) !in bus.faulty
    ensures r.ReadOk? ==> r.value == Reg(bus, Addr(reg))
    ensures r.ReadErr? ==> r.errno == bus.err
  {
    if Addr(reg) in bus.faulty then ReadErr(bus.err) else ReadOk(Reg(bus, Addr(reg)))
  }

  /** axp_regmap_read(map, reg, &v): on a failed read `v` keeps what it held. */
  function ReadInto(bus: Bus, reg: int, v: bv8): (x: bv8)
    ensures Addr(reg) !in bus.faulty ==> x == Reg(bus, Addr(reg))
    ensures Addr(reg) in bus.faulty ==> x == v
  {
    match Read(bus, reg)
    case ReadOk(x) => x
    case ReadErr(_) => v
  }

  /** The bus after register `a` took the value `v` over the wire. */
  function Store(bus: Bus, a: int, v: bv8, sync: bool): Bus
  {
    bus.(regs := bus.regs[a := v], log := bus.log + [Transfer(a, v, sync)])
  }

  /** A stored register reads back its value; nothing else changes but the log. */
  lemma StoreEffect(bus: Bus, a: int, v: bv8, sync: bool)
    ensures var b := Store(bus, a, v, sync);
      Reg(b, a) == v && SameExcept(b, bus, a) && b.faulty == bus.faulty && b.err == bus.err
      && b.log == bus.log + [Transfer(a, v, sync)]
  {
  }

  /** Every bit of `m` is set in `v`. */
  predicate AllSet(v: bv8, m: bv8)
  {
    v & m == m
  }

  /** Some bit of `m` is set in `v`. */
  predicate AnySet(v: bv8, m: bv8)
  {
    v & m != 0
  }

  /** The bits of `v` under `mask` are exactly `val`. */
  predicate FieldIs(v: bv8, mask: bv8, val: bv8)
  {
    v & mask == val
  }

  /** _axp_write / axp_regmap_write: one register, logged when it succeeds. */
  function Write(bus: Bus, reg: int, v: bv8, sync: bool): (r: (Bus, int))
    ensures r.0.faulty == bus.faulty && r.0.err == bus.err
    ensures Addr(reg) in bus.faulty ==> r == (bus, bus.err)
    ensures Addr(reg) !in bus.faulty ==> r == (Store(bus, Addr(reg), v, sync), 0)
  {
    if Addr(reg) in bus.faulty then (bus, bus.err) else (Store(bus, Addr(reg), v, sync), 0)
  }

  /**
   * axp_regmap_set_bits (sync = false) and axp_regmap_set_bits_sync
   * (sync = true): a read error is returned with no write; otherwise
   * reg | mask is written exactly when some bit of the mask was clear.
   */
  function SetBits(bus: Bus, reg: int, mask: bv8, sync: bool): (r: (Bus, int))
    ensures r.0.faulty == bus.faulty && r.0.err == bus.err
    ensures Addr(reg) in bus.faulty ==> r == (bus, bus.err)
    ensures Addr(reg) !in bus.faulty ==> r.1 == 0
    ensures Addr(reg) !in bus.faulty && AllSet(Reg(bus, Addr(reg)), mask) ==> r.0 == bus
    ensures Addr(reg) !in bus.faulty && !AllSet(Reg(bus, Addr(reg)), mask) ==>
      r.0 == Store(bus, Addr(reg), Reg(bus, Addr(reg)) | mask, sync)
  {
    match Read(bus, reg)
    case ReadErr(e) => (bus, e)
    case ReadOk(v) => if !AllSet(v, mask) then Write(bus, reg, v | mask, sync) else (bus, 0)
  }

  /**
   * axp_regmap_clr_bits and axp_regmap_clr_bits_sync: reg & ~mask is
   * written exactly when some bit of the mask was set.
   */
  function ClrBits(bus: Bus, reg: int, mask: bv8, sync: bool): (r: (Bus, int))
    ensures r.0.faulty == bus.faulty && r.0.err == bus.err
    ensures Addr(reg) in bus.faulty ==> r == (bus, bus.err)
    ensures Addr(reg) !in bus.faulty ==> r.1 == 0
    ensures Addr(reg) !in bus.faulty && !AnySet(Reg(bus, Addr(reg)), mask) ==> r.0 == bus
    ensures Addr(reg) !in bus.faulty && AnySet(Reg(bus, Addr(reg)), mask) ==>
      r.0 == Store(bus, Addr(reg), Rest(Reg(bus, Addr(reg)), mask), sync)
  {
    match Read(bus, reg)
    case ReadErr(e) => (bus, e)
    case ReadOk(v) => if AnySet(v, mask) then Write(bus, reg, Rest(v, mask), sync) else (bus, 0)
  }

  /**
   * axp_regmap_update and axp_regmap_update_sync: when (reg & mask) != val
   * the register is rewritten as (reg & ~mask) | val.  The source does not
   * mask `val`, so bits of `val` outside `mask` are ORed in as well.
   */
  function Update(bus: Bus, reg: int, val: bv8, mask: bv8, sync: bool): (r: (Bus, int))
    ensures r.0.faulty == bus.faulty && r.0.err == bus.err
    ensures Addr(reg) in bus.faulty ==> r == (bus, bus.err)
    ensures Addr(reg) !in bus.faulty ==> r.1 == 0
    ensures Addr(reg) !in bus.faulty && FieldIs(Reg(bus, Addr(reg)), mask, val) ==> r.0 == bus
    ensures Addr(reg) !in bus.faulty && !FieldIs(Reg(bus, Addr(reg)), mask, val) ==>
      r.0 == Store(bus, Addr(reg), Merge(Reg(bus, Addr(reg)), mask, val), sync)
  {
    match Read(bus, reg)
    case ReadErr(e) => (bus, e)
    case ReadOk(v) => if !FieldIs(v, mask, val) then Write(bus, reg, Merge(v, mask, val), sync) else (bus, 0)
  }

  lemma OrAbsorb(v: bv8, m: bv8)
    requires AllSet(v, m)
    ensures v | m == v
  {
  }

  lemma AndNotAbsorb(v: bv8, m: bv8)
    requires !AnySet(v, m)
    ensures Rest(v, m) == v
  {
  }

  lemma FieldRebuild(v: bv8, mask: bv8, val: bv8)
    requires FieldIs(v, mask, val)
    ensures (v & !mask) | val == v
  {
  }

  lemma FieldReplace(v: bv8, mask: bv8, val: bv8)
    requires Within(val, mask)
    ensures FieldIs(Merge(v, mask, val), mask, val)
    ensures FieldIs(Merge(v, mask, val), !mask, Rest(v, mask))
  {
  }

  lemma OrMask(v: bv8, m: bv8)
    ensures AllSet(v | m, m)
  {
  }

  lemma AndNotMask(v: bv8, m: bv8)
    ensures !AnySet(Rest(v, m), m)
  {
  }

  /** After set_bits every bit of the mask is set and no other register changed. */
  lemma SetBitsEffect(bus: Bus, reg: int, mask: bv8, sync: bool)
    requires Addr(reg) !in bus.faulty
    ensures var r := SetBits(bus, reg, mask, sync);
      Reg(r.0, Addr(reg)) == Reg(bus, Addr(reg)) | mask && SameExcept(r.0, bus, Addr(reg))
  {
    var a := Addr(reg);
    var v := Reg(bus, a);
    var r := SetBits(bus, reg, mask, sync);
    if AllSet(v, mask) {
      assert r.0 == bus;
      OrAbsorb(v, mask);
    } else {
      assert r.0 == Store(bus, a, v | mask, sync);
      StoreEffect(bus, a, v | mask, sync);
    }
  }

  /** After clr_bits every bit of the mask is clear and no other register changed. */
  lemma ClrBitsEffect(bus: Bus, reg: int, mask: bv8, sync: bool)
    requires Addr(reg) !in bus.faulty
    ensures var r := ClrBits(bus, reg, mask, sync);
      Reg(r.0, Addr(reg)) == Rest(Reg(bus, Addr(reg)), mask) && SameExcept(r.0, bus, Addr(reg))
  {
    var a := Addr(reg);
    var v := Reg(bus, a);
    var r := ClrBits(bus, reg, mask, sync);
    if !AnySet(v, mask) {
      assert r.0 == bus;
      AndNotAbsorb(v, mask);
    } else {
      assert r.0 == Store(bus, a, Rest(v, mask), sync);
      StoreEffect(bus, a, Rest(v, mask), sync);
    }
  }

  /** The bits of `v` outside `mask`. */
  function Rest(v: bv8, mask: bv8): bv8
  {
    v & !mask
  }

  /** `v` with the field under `mask` replaced by `val`. */
  function Merge(v: bv8, mask: bv8, val: bv8): bv8
  {
    Rest(v, mask) | val
  }

  /** `val` has no bit outside `mask`. */
  predicate Within(val: bv8, mask: bv8)
  {
    val & !mask == 0
  }

  /**
   * When val lies inside mask, update leaves the masked field equal to val,
   * the other bits of the register and all other registers as they were.
   */
  lemma UpdateEffect(bus: Bus, reg: int, val: bv8, mask: bv8, sync: bool)
    requires Within(val, mask)
    requires Addr(reg) !in bus.faulty
    ensures var r := Update(bus, reg, val, mask, sync);
      FieldIs(Reg(r.0, Addr(reg)), mask, val) && FieldIs(Reg(r.0, Addr(reg)), !mask, Rest(Reg(bus, Addr(reg)), mask))
      && SameExcept(r.0, bus, Addr(reg))
  {
    var a := Addr(reg);
    var v := Reg(bus, a);
    var r := Update(bus, reg, val, mask, sync);
    if FieldIs(v, mask, val) {
      assert r.0 == bus;
      FieldKeep(v, mask, val);
    } else {
      var w := Merge(v, mask, val);
      assert r.0 == Store(bus, a, w, sync);
      StoreEffect(bus, a, w, sync);
      FieldReplace(v, mask, val);
    }
  }

  /** After write the register holds the value and nothing else changed. */
  lemma WriteEffect(bus: Bus, reg: int, v: bv8, sync: bool)
    requires Addr(reg) !in bus.faulty
    ensures var b := Write(bus, reg, v, sync).0;
      Reg(b, Addr(reg)) == v && SameExcept(b, bus, Addr(reg))
  {
    StoreEffect(bus, Addr(reg), v, sync);
  }

  /**
   * Whatever bits `val` has, update leaves (reg & ~mask) | val in the
   * register: when the field already equals val no write is needed because
   * the register already has that value.
   */
  lemma UpdateReg(bus: Bus, reg: int, val: bv8, mask: bv8, sync: bool)
    requires Addr(reg) !in bus.faulty
    ensures var b := Update(bus, reg, val, mask, sync).0;
      Reg(b, Addr(reg)) == Merge(Reg(bus, Addr(reg)), mask, val) && SameExcept(b, bus, Addr(reg))
  {
    var a := Addr(reg);
    var v := Reg(bus, a);
    if FieldIs(v, mask, val) {
      FieldRebuild(v, mask, val);
    } else {
      StoreEffect(bus, a, Merge(v, mask, val), sync);
    }
  }

  lemma FieldKeep(v: bv8, mask: bv8, val: bv8)
    requires FieldIs(v, mask, val)
    ensures FieldIs(v, !mask, Rest(v, mask))
  {
  }

  /** For val inside mask a second identical update performs no write. */
  lemma UpdateIdempotent(bus: Bus, reg: int, val: bv8, mask: bv8, sync: bool)
    requires Within(val, mask)
    ensures var r1 := Update(bus, reg, val, mask, sync);
      Update(r1.0, reg, val, mask, sync) == (r1.0, r1.1)
  {
    var r1 := Update(bus, reg, val, mask, sync);
    if Addr(reg) !in bus.faulty {
      UpdateEffect(bus, reg, val, mask, sync);
      assert Addr(reg) !in r1.0.faulty;
    }
  }

  /** Setting bits twice writes once. */
  lemma SetBitsIdempotent(bus: Bus, reg: int, mask: bv8, sync: bool)
    ensures var r1 := SetBits(bus, reg, mask, sync);
      SetBits(r1.0, reg, mask, sync) == r1
  {
    var r1 := SetBits(bus, reg, mask, sync);
    if Addr(reg) !in bus.faulty {
      SetBitsEffect(bus, reg, mask, sync);
      OrMask(Reg(bus, Addr(reg)), mask);
    }
  }

  /** Clearing bits twice writes once. */
  lemma ClrBitsIdempotent(bus: Bus, reg: int, mask: bv8, sync: bool)
    ensures var r1 := ClrBits(bus, reg, mask, sync);
      ClrBits(r1.0, reg, mask, sync) == r1
  {
    var r1 := ClrBits(bus, reg, mask, sync);
    if Addr(reg) !in bus.faulty {
      ClrBitsEffect(bus, reg, mask, sync);
      AndNotMask(Reg(bus, Addr(reg)), mask);
    }
  }

  // ---------------------------------------------------------------------
  // Bit fields inside one register

  /** ((1 << n) - 1): the n low bits. */
  function Low(n: nat): bv8
    requires n <= 8
  {
    ((1 as bv8) << n) - 1
  }

  /** ((1 << n) - 1) << shift: an n-bit field at bit `shift`. */
  function FieldMask(shift: nat, n: nat): bv8
    requires shift + n <= 8
  {
    Low(n) << shift
  }

  /** (v & mask) >> shift: the content of the field. */
  function FieldOf(v: bv8, shift: nat, n: nat): bv8
    requires shift + n <= 8
  {
    (v & FieldMask(shift, n)) >> shift
  }

  /** `k` has no bit at or above bit n, that is k < 2^n. */
  predicate Fits(k: bv8, n: nat)
    requires n <= 8
  {
    k & !Low(n) == 0
  }

  /** A value that fits, shifted into place, lies inside the field mask. */
  lemma FitsWithin(k: bv8, shift: nat, n: nat)
    requires shift + n <= 8 && Fits(k, n)
    ensures Within(k << shift, FieldMask(shift, n))
  {
  }

  /** A register whose field holds k << shift reads back k from that field. */
  lemma FieldReadBack(v: bv8, k: bv8, shift: nat, n: nat)
    requires shift + n <= 8 && Fits(k, n)
    requires FieldIs(v, FieldMask(shift, n), k << shift)
    ensures FieldOf(v, shift, n) == k
  {
  }

  // ---------------------------------------------------------------------
  // RSB block read (__axp_reads_rsb)

  /** The register `i` places after `reg` cannot be reached. */
  predicate FaultyAt(bus: Bus, reg: int, i: int)
  {
    Addr(reg + i) in bus.faulty
  }

  /** None of the `len` consecutive addresses from `reg` on is faulty. */
  ghost predicate RangeOk(bus: Bus, reg: int, len: nat)
  {
    forall i :: 0 <= i < len ==> !FaultyAt(bus, reg, i)
  }

  /** Index of the first faulty address among positions from..len-1 of the range, or `len`. */
  function FirstFaultFrom(bus: Bus, reg: int, len: nat, from: nat): (k: nat)
    requires from <= len
    ensures from <= k <= len
    ensures forall i :: from <= i < k ==> !FaultyAt(bus, reg, i)
    ensures k < len ==> FaultyAt(bus, reg, k)
    decreases len - from
  {
    if from == len || FaultyAt(bus, reg, from) then from
    else FirstFaultFrom(bus, reg, len, from + 1)
  }

  /** Index of the first faulty address in the range, or `len`. */
  function FirstFault(bus: Bus, reg: int, len: nat): (k: nat)
    ensures k <= len
    ensures forall i :: 0 <= i < k ==> !FaultyAt(bus, reg, i)
    ensures k < len ==> FaultyAt(bus, reg, k)
  {
    FirstFaultFrom(bus, reg, len, 0)
  }

  /** One RSB block read: the addresses' contents, or the error if any is faulty. */
  function BlockRead(bus: Bus, addrs: seq<int>): (r: Option<seq<bv8>>)
    ensures r.Some? <==> forall j :: 0 <= j < |addrs| ==> addrs[j] !in bus.faulty
    ensures r.Some? ==> |r.value| == |addrs| && forall j :: 0 <= j < |addrs| ==> r.value[j] == Reg(bus, addrs[j])
  {
    if forall j :: 0 <= j < |addrs| ==> addrs[j] !in bus.faulty
    then Some(seq(|addrs|, j requires 0 <= j < |addrs| => Reg(bus, addrs[j])))
    else None
  }

  /**
   * __axp_reads_rsb: reads `len` registers from `reg` in blocks of at most
   * TransByteMax.  A block containing a faulty address fails and reading
   * stops; `data` is what was copied into the caller's buffer by then
   * (whole blocks only).
   */
  method ReadsRsb(bus: Bus, reg: int, len: nat) returns (ret: int, data: seq<bv8>)
    requires Good(bus)
    ensures ret == 0 <==> RangeOk(bus, reg, len)
    ensures ret != 0 ==> ret == bus.err
    ensures ret == 0 ==> |data| == len
    ensures ret != 0 ==> |data| == FirstFault(bus, reg, len) / TransByteMax * TransByteMax
    ensures forall i :: 0 <= i < |data| ==> data[i] == Reg(bus, Addr(reg + i))
  {
    var left := len;
    var r := reg;
    data := [];
    ret := 0;
    while left > 0
      invariant left + |data| == len && r == reg + |data|
      invariant |data| % TransByteMax == 0 || left == 0
      invariant |data| <= FirstFault(bus, reg, len)
      invariant forall i :: 0 <= i < |data| ==> data[i] == Reg(bus, Addr(reg + i))
      decreases left
    {
      var rdLen := Min(left, TransByteMax);
      var addrs: seq<int> := [];
      var i := 0;
      while i < rdLen
        invariant 0 <= i <= rdLen && |addrs| == i
        invariant forall j :: 0 <= j < i ==> addrs[j] == Addr(reg + (|data| + j))
      {
        addrs := addrs + [Addr(r + i)];
        i := i + 1;
      }
      var got := BlockRead(bus, addrs);
      if got.None? {
        ret := bus.err;
        var j :| 0 <= j < |addrs| && addrs[j] in bus.faulty;
        assert FaultyAt(bus, reg, |data| + j);
        FirstFaultInBlock(bus, reg, len, |data|, j);
        return;
      }
      forall k | |data| <= k < |data| + rdLen
        ensures !FaultyAt(bus, reg, k)
      {
        assert addrs[k - |data|] !in bus.faulty;
      }
      FirstFaultPastBlock(bus, reg, len, |data|, rdLen);
      data := data + got.value;
      r := r + rdLen;
      left := left - rdLen;
    }
  }

  /** A faulty address inside the block starting at `start` makes that block the last one read. */
  lemma FirstFaultInBlock(bus: Bus, reg: int, len: nat, start: nat, j: nat)
    requires start <= FirstFault(bus, reg, len)
    requires start % TransByteMax == 0
    requires j < TransByteMax && start + j < len
    requires FaultyAt(bus, reg, start + j)
    ensures !RangeOk(bus, reg, len)
    ensures start == FirstFault(bus, reg, len) / TransByteMax * TransByteMax
  {
    var k := FirstFault(bus, reg, len);
    assert k <= start + j;
    DivBlock(start, k);
  }

  lemma DivBlock(start: nat, k: nat)
    requires start % TransByteMax == 0 && start <= k < start + TransByteMax
    ensures start == k / TransByteMax * TransByteMax
  {
  }

  lemma FirstFaultPastBlock(bus: Bus, reg: int, len: nat, start: nat, n: nat)
    requires start + n <= len && start <= FirstFault(bus, reg, len)
    requires forall k :: start <= k < start + n ==> !FaultyAt(bus, reg, k)
    ensures start + n <= FirstFault(bus, reg, len)
  {
  }

  // ---------------------------------------------------------------------
  // Packed multi-register writes (_axp_writes and __axp_writes_rsb)

  /** One buffer handed to the transport: first register and packed bytes. */
  datatype Chunk = Chunk(reg: int, buf: seq<bv8>)

  /**
   * The packed encoding of _axp_writes for up to 15 values starting at
   * register `reg`: the first value, then (address, value) pairs for the
   * following consecutive registers, addresses cut to u8.
   */
  function PackChunk(reg: int, vals: seq<bv8>): (r: seq<bv8>)
    requires 1 <= |vals|
    ensures |r| == 2 * |vals| - 1 && |r| % 2 == 1
  {
    seq(2 * |vals| - 1, k requires 0 <= k < 2 * |vals| - 1 =>
      if k == 0 then vals[0] else if k % 2 == 1 then U8(reg + (k + 1) / 2) else vals[k / 2])
  }

  /** The decoded form of a block write: (address, value) pairs. */
  datatype Pair = Pair(addr: int, value: bv8)

  /**
   * The decoding of __axp_writes_rsb: (len + 1) >> 1 pairs, the first
   * taking `reg` as its address and only a value from the buffer, every
   * later one an address byte and a value byte.
   */
  function RsbDecode(reg: int, buf: seq<bv8>): (ps: seq<Pair>)
    requires |buf| % 2 == 1
    ensures |ps| == (|buf| + 1) / 2
  {
    var n := (|buf| + 1) / 2;
    seq(n, k requires 0 <= k < n => PairAt(reg, buf, k))
  }

  /** The `k`-th pair of a packed buffer. */
  function PairAt(reg: int, buf: seq<bv8>, k: nat): Pair
    requires 2 * k < |buf|
  {
    if k == 0 then Pair(Addr(reg), buf[0]) else Pair(buf[2 * k - 1] as int, buf[2 * k])
  }

  /** The pairs a packed chunk stands for: consecutive registers and their values. */
  function Consecutive(reg: int, vals: seq<bv8>): (ps: seq<Pair>)
    ensures |ps| == |vals|
  {
    seq(|vals|, i requires 0 <= i < |vals| => Pair(Addr(reg + i), vals[i]))
  }

  /** RSB decoding inverts the packing of _axp_writes. */
  lemma DecodePack(reg: int, vals: seq<bv8>)
    requires 1 <= |vals|
    ensures RsbDecode(reg, PackChunk(reg, vals)) == Consecutive(reg, vals)
  {
    var ps := RsbDecode(reg, PackChunk(reg, vals));
    var qs := Consecutive(reg, vals);
    assert |ps| == |qs|;
    forall i | 0 <= i < |ps| ensures ps[i] == qs[i] {
      PairAtPack(reg, vals, i);
    }
  }

  /** The i-th pair decoded from a packed chunk is register reg + i with the i-th value. */
  lemma PairAtPack(reg: int, vals: seq<bv8>, i: nat)
    requires i < |vals|
    ensures PairAt(reg, PackChunk(reg, vals), i) == Pair(Addr(reg + i), vals[i])
  {
    var buf := PackChunk(reg, vals);
    if i > 0 {
      assert (2 * i - 1 + 1) / 2 == i && (2 * i) / 2 == i;
      assert buf[2 * i - 1] == U8(reg + i);
      assert buf[2 * i] == vals[i];
    }
  }

  /** None of the pairs names a faulty address. */
  predicate PairsOk(bus: Bus, ps: seq<Pair>)
  {
    forall i :: 0 <= i < |ps| ==> ps[i].addr !in bus.faulty
  }

  /** Writes the pairs one after another, each logged. */
  function ApplyPairs(bus: Bus, ps: seq<Pair>, sync: bool): (b: Bus)
    ensures b.faulty == bus.faulty && b.err == bus.err
    ensures |b.log| == |bus.log| + |ps|
    decreases |ps|
  {
    if |ps| == 0 then bus
    else
      var last := ps[|ps| - 1];
      var b := ApplyPairs(bus, ps[..|ps| - 1], sync);
      b.(regs := b.regs[last.addr := last.value], log := b.log + [Transfer(last.addr, last.value, sync)])
  }

  /**
   * The RSB block transfers of one decoded buffer: blocks of at most
   * TransByteMax pairs, each failing as a whole when it names a faulty
   * address, stopping at the first failure.
   */
  function BlockWrites(bus: Bus, ps: seq<Pair>, sync: bool): (r: (Bus, int))
    ensures r.0.faulty == bus.faulty && r.0.err == bus.err
    ensures r.1 == 0 || r.1 == bus.err
    decreases |ps|
  {
    if |ps| == 0 then (bus, 0)
    else
      var w := Min(|ps|, TransByteMax);
      if !PairsOk(bus, ps[..w]) then (bus, bus.err)
      else BlockWrites(ApplyPairs(bus, ps[..w], sync), ps[w..], sync)
  }

  /** What the transport does with one buffer handed over by _axp_writes. */
  function TransportWrites(bus: Bus, c: Chunk, sync: bool): (r: (Bus, int))
    requires |c.buf| % 2 == 1
    ensures r.0.faulty == bus.faulty && r.0.err == bus.err
    ensures r.1 == 0 || r.1 == bus.err
  {
    BlockWrites(bus, RsbDecode(c.reg, c.buf), sync)
  }

  /**
   * The inner loop of __axp_writes_rsb: fills addr[0..n) and data[0..n)
   * with pairs done.. of the buffer.  Only the very first pair of the buffer
   * keeps the address already in addr[0]; every later one reads an address
   * byte and a value byte.
   */
  method LoadBlock(reg: int, buf: seq<bv8>, done: nat, n: nat, addr: array<bv8>, data: array<bv8>)
    returns (block: seq<Pair>)
    requires |buf| % 2 == 1 && 2 * (done + n) <= |buf| + 1
    requires n <= addr.Length && n <= data.Length && addr != data
    requires done == 0 ==> 0 < addr.Length && addr[0] == U8(reg)
    modifies addr, data
    ensures block == RsbDecode(reg, buf)[done..][..n]
    ensures forall j :: 0 <= j < n ==> block[j] == Pair(addr[j] as int, data[j])
  {
    var first := done == 0;
    var p := if first then 0 else 2 * done - 1;   // the source's val pointer
    var i := 0;
    while i < n
      invariant 0 <= i <= n
      invariant first <==> done + i == 0
      invariant p == if done + i == 0 then 0 else 2 * (done + i) - 1
      invariant first ==> addr[0] == U8(reg)
      invariant forall j :: 0 <= j < i ==> Pair(addr[j] as int, data[j]) == PairAt(reg, buf, done + j)
    {
      if first {
        data[i] := buf[p];
        p := p + 1;
        first := false;
      } else {
        addr[i] := buf[p];
        data[i] := buf[p + 1];
        p := p + 2;
      }
      i := i + 1;
    }
    block := seq(n, j requires 0 <= j < n reads addr, data => Pair(addr[j] as int, data[j]));
  }

  /**
   * __axp_writes_rsb: walks the packed buffer, filling the address and data
   * arrays of each block (the first element takes `reg`), and issues one
   * block transfer per TransByteMax pairs.
   */
  method WritesRsb(bus: Bus, reg: int, buf: seq<bv8>, sync: bool) returns (out: Bus, ret: int)
    requires |buf| % 2 == 1
    ensures (out, ret) == TransportWrites(bus, Chunk(reg, buf), sync)
  {
    ghost var ps := RsbDecode(reg, buf);
    var len: nat := (|buf| + 1) / 2;
    var done: nat := 0;     // pairs sent so far
    var addr := new bv8[TransByteMax];
    var data := new bv8[TransByteMax];
    addr[0] := U8(reg);
    out := bus;
    while len > 0
      invariant done + len == |ps|
      invariant BlockWrites(out, ps[done..], sync) == BlockWrites(bus, ps, sync)
      invariant done == 0 ==> addr[0] == U8(reg)
      decreases len
    {
      var wrLen := Min(len, TransByteMax);
      var block := LoadBlock(reg, buf, done, wrLen, addr, data);
      if !PairsOk(out, block) {
        ret := out.err;
        return;
      }
      out := ApplyPairs(out, block, sync);
      assert ps[done..][wrLen..] == ps[done + wrLen..];
      done := done + wrLen;
      len := len - wrLen;
    }
    ret := 0;
  }

  /** Every buffer of the list has the odd length the RSB decoding needs. */
  predicate Packed(cs: seq<Chunk>)
  {
    forall k :: 0 <= k < |cs| ==> |cs[k].buf| % 2 == 1
  }

  /**
   * The buffers _axp_writes hands to the transport for `vals` written from
   * register `reg` on: one per stretch of at most 15 registers, each the
   * packing of its stretch.
   */
  function ChunkPlan(reg: int, vals: seq<bv8>): (cs: seq<Chunk>)
    ensures Packed(cs)
    decreases |vals|
  {
    if |vals| == 0 then []
    else
      var w := Min(|vals|, WritesChunk);
      [Chunk(reg, PackChunk(reg, vals[..w]))] + ChunkPlan(reg + w, vals[w..])
  }

  /** Result of _axp_writes: final bus, return code, and the buffers handed over. */
  datatype WritesOutcome = WritesOutcome(bus: Bus, ret: int, sent: seq<Chunk>)

  /** Hands the buffers to the transport in order, stopping at the first error. */
  function RunChunks(bus: Bus, cs: seq<Chunk>, sync: bool): (r: WritesOutcome)
    requires Packed(cs)
    ensures r.bus.faulty == bus.faulty && r.bus.err == bus.err
    ensures r.ret == 0 ==> r.sent == cs
    ensures r.ret != 0 ==> r.ret == bus.err && 0 < |r.sent| <= |cs| && r.sent == cs[..|r.sent|]
    decreases |cs|
  {
    if |cs| == 0 then WritesOutcome(bus, 0, [])
    else
      var t := TransportWrites(bus, cs[0], sync);
      if t.1 != 0 then WritesOutcome(t.0, t.1, [cs[0]])
      else
        var rest := RunChunks(t.0, cs[1..], sync);
        WritesOutcome(rest.bus, rest.ret, [cs[0]] + rest.sent)
  }

  /** The first buffer of a plan and the plan of the rest. */
  lemma ChunkPlanHead(reg: int, vals: seq<bv8>)
    requires |vals| > 0
    ensures var w := Min(|vals|, WritesChunk);
      ChunkPlan(reg, vals) == [Chunk(reg, PackChunk(reg, vals[..w]))] + ChunkPlan(reg + w, vals[w..])
  {
  }

  /** Past the first buffer, a plan continues with the plan of the registers after the first 15. */
  lemma ChunkPlanTail(reg: int, vals: seq<bv8>, k: nat)
    requires 0 < k < |ChunkPlan(reg, vals)|
    ensures |vals| > WritesChunk && k - 1 < |ChunkPlan(reg + WritesChunk, vals[WritesChunk..])|
    ensures ChunkPlan(reg, vals)[k] == ChunkPlan(reg + WritesChunk, vals[WritesChunk..])[k - 1]
  {
    ChunkPlanHead(reg, vals);
  }

  /** The buffers of a plan are the packings of consecutive 15-register stretches. */
  lemma {:induction false} ChunkPlanShape(reg: int, vals: seq<bv8>, k: nat)
    requires k < |ChunkPlan(reg, vals)|
    ensures var lo := WritesChunk * k;
      lo < |vals| && ChunkPlan(reg, vals)[k] == Chunk(reg + lo, PackChunk(reg + lo, vals[lo..][..Min(|vals| - lo, WritesChunk)]))
    decreases |vals|
  {
    if k == 0 {
      ChunkPlanHead(reg, vals);
    } else {
      var w := WritesChunk;
      ChunkPlanTail(reg, vals, k);
      ChunkPlanShape(reg + w, vals[w..], k - 1);
      var lo, lo' := WritesChunk * k, WritesChunk * (k - 1);
      assert lo == w + lo';
      var tail, rest := vals[w..][lo'..], vals[lo..];
      assert tail == rest;
      var m := Min(|vals| - lo, WritesChunk);
      assert Min(|vals[w..]| - lo', WritesChunk) == m;
      assert reg + w + lo' == reg + lo;
    }
  }

  /** _axp_writes makes ceil(len / 15) transport calls when none fails. */
  lemma {:induction false} ChunkPlanCount(reg: int, vals: seq<bv8>)
    ensures |ChunkPlan(reg, vals)| == (|vals| + WritesChunk - 1) / WritesChunk
    decreases |vals|
  {
    if |vals| > 0 {
      var w := Min(|vals|, WritesChunk);
      ChunkPlanCount(reg + w, vals[w..]);
    }
  }

  /** Every plan buffer is 2w-1 bytes for its w <= 15 registers, so within the 32-byte wr_val. */
  lemma ChunkPlanFits(reg: int, vals: seq<bv8>, k: nat)
    requires k < |ChunkPlan(reg, vals)|
    ensures 1 <= |ChunkPlan(reg, vals)[k].buf| <= 2 * WritesChunk - 1 < 32
  {
    ChunkPlanShape(reg, vals, k);
  }

  /**
   * _axp_writes: `vals` goes out in chunks of at most 15 registers, each
   * packed into the 32-byte buffer wr_val as 2w-1 bytes, one transport call
   * per chunk, stopping at the first error.
   */
  method Writes(bus: Bus, reg: int, vals: seq<bv8>, sync: bool) returns (out: Bus, ret: int, sent: seq<Chunk>)
    ensures WritesOutcome(out, ret, sent) == RunChunks(bus, ChunkPlan(reg, vals), sync)
  {
    var len: nat := |vals|;
    var r := reg;
    var rest := vals;   // the values from the source's val pointer on
    var wrVal := new bv8[32];
    ghost var goal := RunChunks(bus, ChunkPlan(reg, vals), sync);
    out, ret, sent := bus, 0, [];
    assert Prepend([], goal) == goal by { assert [] + goal.sent == goal.sent; }
    while len > 0
      invariant len == |rest| && ret == 0
      invariant goal == Prepend(sent, RunChunks(out, ChunkPlan(r, rest), sync))
      decreases len
    {
      var wrLen := Min(len, WritesChunk);
      var e;
      out, e, sent := WritesRound(out, r, rest, wrVal, sync, goal, sent);
      rest := rest[wrLen..];
      r := r + wrLen;
      if e != 0 {
        ret := e;
        return;
      }
      len := len - wrLen;
    }
    assert sent + [] == sent;
  }

  /**
   * One round of the loop of _axp_writes over the values `rest` still to
   * write: the first stretch of at most 15 is packed and handed over.
   */
  method WritesRound(bus: Bus, r: int, rest: seq<bv8>, wrVal: array<bv8>, sync: bool,
                     ghost goal: WritesOutcome, sent: seq<Chunk>)
    returns (out: Bus, e: int, sent': seq<Chunk>)
    requires |rest| > 0 && wrVal.Length == 32
    requires goal == Prepend(sent, RunChunks(bus, ChunkPlan(r, rest), sync))
    modifies wrVal
    ensures var w := Min(|rest|, WritesChunk);
      sent' == sent + [Chunk(r, PackChunk(r, rest[..w]))]
      && (e != 0 ==> goal == WritesOutcome(out, e, sent'))
      && (e == 0 ==> goal == Prepend(sent', RunChunks(out, ChunkPlan(r + w, rest[w..]), sync)))
  {
    var w := Min(|rest|, WritesChunk);
    PlanStep(bus, r, rest, sync);
    var c;
    out, e, c := SendChunk(bus, r, rest[..w], wrVal, sync);
    LoopStep(goal, sent, c, bus, out, e, ChunkPlan(r + w, rest[w..]), sync);
    sent' := sent + [c];
  }

  /** `o` with the buffers `sent` already handed over in front of its own. */
  function Prepend(sent: seq<Chunk>, o: WritesOutcome): WritesOutcome
  {
    WritesOutcome(o.bus, o.ret, sent + o.sent)
  }

  /** The bookkeeping of one round of the loop of _axp_writes. */
  lemma LoopStep(goal: WritesOutcome, sent: seq<Chunk>, c: Chunk, before: Bus, out: Bus, e: int,
                 cs: seq<Chunk>, sync: bool)
    requires |c.buf| % 2 == 1 && Packed(cs)
    requires (out, e) == TransportWrites(before, c, sync)
    requires goal == Prepend(sent, if e != 0 then WritesOutcome(out, e, [c])
                                   else Prepend([c], RunChunks(out, cs, sync)))
    ensures e != 0 ==> goal == WritesOutcome(out, e, sent + [c])
    ensures e == 0 ==> goal == Prepend(sent + [c], RunChunks(out, cs, sync))
  {
    if e == 0 {
      var rest := RunChunks(out, cs, sync);
      assert sent + ([c] + rest.sent) == (sent + [c]) + rest.sent;
    }
  }

  /** Running a plan: the transport call for its first buffer, then the plan of the rest. */
  lemma PlanStep(bus: Bus, reg: int, vals: seq<bv8>, sync: bool)
    requires |vals| > 0
    ensures var w := Min(|vals|, WritesChunk);
      var c := Chunk(reg, PackChunk(reg, vals[..w]));
      var t := TransportWrites(bus, c, sync);
      RunChunks(bus, ChunkPlan(reg, vals), sync) ==
        if t.1 != 0 then WritesOutcome(t.0, t.1, [c])
        else Prepend([c], RunChunks(t.0, ChunkPlan(reg + w, vals[w..]), sync))
  {
    var w := Min(|vals|, WritesChunk);
    ChunkPlanHead(reg, vals);
    RunChunksStep(bus, Chunk(reg, PackChunk(reg, vals[..w])), ChunkPlan(reg + w, vals[w..]), sync);
  }

  /** One round of the loop of _axp_writes: pack the stretch into wr_val and hand 2w-1 bytes over. */
  method SendChunk(bus: Bus, rwReg: int, chunk: seq<bv8>, wrVal: array<bv8>, sync: bool)
    returns (out: Bus, e: int, c: Chunk)
    requires 1 <= |chunk| <= WritesChunk && wrVal.Length == 32
    modifies wrVal
    ensures c == Chunk(rwReg, PackChunk(rwReg, chunk))
    ensures (out, e) == TransportWrites(bus, c, sync)
  {
    PackInto(wrVal, rwReg, chunk);
    c := Chunk(rwReg, wrVal[..2 * |chunk| - 1]);
    out, e := WritesRsb(bus, rwReg, c.buf, sync);
  }

  /** One step of RunChunks. */
  lemma RunChunksStep(bus: Bus, c: Chunk, cs: seq<Chunk>, sync: bool)
    requires |c.buf| % 2 == 1 && Packed(cs)
    ensures Packed([c] + cs)
    ensures var t := TransportWrites(bus, c, sync);
      RunChunks(bus, [c] + cs, sync) ==
        if t.1 != 0 then WritesOutcome(t.0, t.1, [c])
        else var rest := RunChunks(t.0, cs, sync); WritesOutcome(rest.bus, rest.ret, [c] + rest.sent)
  {
    assert ([c] + cs)[0] == c && ([c] + cs)[1..] == cs;
  }

  /** The inner loop of _axp_writes: packs one stretch into wr_val. */
  method PackInto(wrVal: array<bv8>, rwReg: int, chunk: seq<bv8>)
    requires 1 <= |chunk| <= WritesChunk && wrVal.Length == 32
    modifies wrVal
    ensures wrVal[..2 * |chunk| - 1] == PackChunk(rwReg, chunk)
  {
    ghost var pk := PackChunk(rwReg, chunk);
    wrVal[0] := chunk[0];
    var reg := rwReg + 1;
    var i := 1;
    while i < |chunk|
      invariant 1 <= i <= |chunk| && reg == rwReg + i
      invariant forall k :: 0 <= k < 2 * i - 1 ==> wrVal[k] == pk[k]
    {
      assert pk[i * 2 - 1] == U8(reg) && pk[i * 2] == chunk[i];
      wrVal[i * 2 - 1] := U8(reg);
      reg := reg + 1;
      wrVal[i * 2] := chunk[i];
      i := i + 1;
    }
    assert wrVal[..2 * |chunk| - 1] == pk;
  }

  // ---------------------------------------------------------------------
  // What a successful _axp_writes does to the registers

  /** Applying two lists of pairs one after the other is applying their concatenation. */
  lemma {:induction false} ApplyPairsAppend(bus: Bus, xs: seq<Pair>, ys: seq<Pair>, sync: bool)
    ensures ApplyPairs(ApplyPairs(bus, xs, sync), ys, sync) == ApplyPairs(bus, xs + ys, sync)
    decreases |ys|
  {
    if |ys| == 0 {
      assert xs + ys == xs;
    } else {
      var n := |ys| - 1;
      ApplyPairsAppend(bus, xs, ys[..n], sync);
      assert (xs + ys)[..|xs + ys| - 1] == xs + ys[..n];
      assert (xs + ys)[|xs + ys| - 1] == ys[n];
    }
  }

  /** A block list naming no faulty address is written completely. */
  lemma {:induction false} BlockWritesOk(bus: Bus, ps: seq<Pair>, sync: bool)
    requires PairsOk(bus, ps)
    ensures BlockWrites(bus, ps, sync) == (ApplyPairs(bus, ps, sync), 0)
    decreases |ps|
  {
    if |ps| > 0 {
      var w := Min(|ps|, TransByteMax);
      assert PairsOk(bus, ps[..w]);
      var b := ApplyPairs(bus, ps[..w], sync);
      assert PairsOk(b, ps[w..]);
      BlockWritesOk(b, ps[w..], sync);
      ApplyPairsAppend(bus, ps[..w], ps[w..], sync);
      assert ps[..w] + ps[w..] == ps;
    }
  }

  /** Splitting a stretch of consecutive registers. */
  lemma ConsecutiveSplit(reg: int, vals: seq<bv8>, w: nat)
    requires w <= |vals|
    ensures Consecutive(reg, vals[..w]) + Consecutive(reg + w, vals[w..]) == Consecutive(reg, vals)
  {
    var l := Consecutive(reg, vals[..w]) + Consecutive(reg + w, vals[w..]);
    forall i | 0 <= i < |vals| ensures l[i] == Consecutive(reg, vals)[i] {
      if i >= w {
        assert l[i] == Consecutive(reg + w, vals[w..])[i - w];
        assert reg + w + (i - w) == reg + i;
      }
    }
  }

  /** A packed stretch of reachable registers is written completely by the transport. */
  lemma ChunkOk(bus: Bus, reg: int, head: seq<bv8>, sync: bool)
    requires 1 <= |head| && RangeOk(bus, reg, |head|)
    ensures TransportWrites(bus, Chunk(reg, PackChunk(reg, head)), sync) == (ApplyPairs(bus, Consecutive(reg, head), sync), 0)
  {
    DecodePack(reg, head);
    var ps := Consecutive(reg, head);
    assert PairsOk(bus, ps) by {
      forall i | 0 <= i < |ps| ensures ps[i].addr !in bus.faulty {
        assert !FaultyAt(bus, reg, i);
      }
    }
    BlockWritesOk(bus, ps, sync);
  }

  /** The rest of a reachable range is reachable, on any bus with the same faults. */
  lemma RangeOkShift(bus: Bus, b: Bus, reg: int, w: nat, len: nat)
    requires w <= len && RangeOk(bus, reg, len) && b.faulty == bus.faulty
    ensures RangeOk(b, reg + w, len - w)
  {
    var next := reg + w;
    forall i | 0 <= i < len - w ensures !FaultyAt(b, next, i) {
      assert !FaultyAt(bus, reg, w + i);
      assert next + i == reg + (w + i);
    }
  }

  /**
   * With every register of the range reachable, _axp_writes succeeds, hands
   * over the whole plan, and its effect is writing vals[i] to register
   * reg + i for each i in order.
   */
  lemma {:induction false} WritesAllReachable(bus: Bus, reg: int, vals: seq<bv8>, sync: bool)
    requires RangeOk(bus, reg, |vals|)
    ensures RunChunks(bus, ChunkPlan(reg, vals), sync)
      == WritesOutcome(ApplyPairs(bus, Consecutive(reg, vals), sync), 0, ChunkPlan(reg, vals))
    decreases |vals|
  {
    if |vals| > 0 {
      var w := Min(|vals|, WritesChunk);
      var b := ApplyPairs(bus, Consecutive(reg, vals[..w]), sync);
      RangeOkShift(bus, b, reg, w, |vals|);
      WritesAllReachable(b, reg + w, vals[w..], sync);
      WritesReachableStep(bus, reg, vals, sync, w, b);
    }
  }

  /** The first buffer of a reachable plan is written completely, and the run goes on with the rest. */
  lemma FirstChunkRuns(bus: Bus, reg: int, vals: seq<bv8>, sync: bool, w: nat, b: Bus)
    requires |vals| > 0 && RangeOk(bus, reg, |vals|)
    requires w == Min(|vals|, WritesChunk) && b == ApplyPairs(bus, Consecutive(reg, vals[..w]), sync)
    ensures var rest := RunChunks(b, ChunkPlan(reg + w, vals[w..]), sync);
      RunChunks(bus, ChunkPlan(reg, vals), sync)
        == WritesOutcome(rest.bus, rest.ret, [Chunk(reg, PackChunk(reg, vals[..w]))] + rest.sent)
  {
    var c := Chunk(reg, PackChunk(reg, vals[..w]));
    var cs := ChunkPlan(reg + w, vals[w..]);
    ChunkPlanHead(reg, vals);
    assert ChunkPlan(reg, vals) == [c] + cs;
    ChunkOk(bus, reg, vals[..w], sync);
    assert TransportWrites(bus, c, sync) == (b, 0);
    RunChunksStep(bus, c, cs, sync);
  }

  /** One step of WritesAllReachable: the first chunk succeeds and the rest of the plan follows. */
  lemma WritesReachableStep(bus: Bus, reg: int, vals: seq<bv8>, sync: bool, w: nat, b: Bus)
    requires |vals| > 0 && RangeOk(bus, reg, |vals|)
    requires w == Min(|vals|, WritesChunk) && b == ApplyPairs(bus, Consecutive(reg, vals[..w]), sync)
    requires RunChunks(b, ChunkPlan(reg + w, vals[w..]), sync)
      == WritesOutcome(ApplyPairs(b, Consecutive(reg + w, vals[w..]), sync), 0, ChunkPlan(reg + w, vals[w..]))
    ensures RunChunks(bus, ChunkPlan(reg, vals), sync)
      == WritesOutcome(ApplyPairs(bus, Consecutive(reg, vals), sync), 0, ChunkPlan(reg, vals))
  {
    FirstChunkRuns(bus, reg, vals, sync, w, b);
    ChunkPlanHead(reg, vals);
    ApplyPairsAppend(bus, Consecutive(reg, vals[..w]), Consecutive(reg + w, vals[w..]), sync);
    ConsecutiveSplit(reg, vals, w);
  }

  /** The addresses of the pairs are pairwise distinct. */
  ghost predicate DistinctAddrs(ps: seq<Pair>)
  {
    forall i, j :: 0 <= i < j < |ps| ==> ps[i].addr != ps[j].addr
  }

  /** After writing pairs with distinct addresses each address holds its value; others are untouched. */
  lemma {:induction false} ApplyPairsReads(bus: Bus, ps: seq<Pair>, sync: bool)
    requires DistinctAddrs(ps)
    ensures forall i :: 0 <= i < |ps| ==> Reg(ApplyPairs(bus, ps, sync), ps[i].addr) == ps[i].value
    ensures forall a :: (forall i :: 0 <= i < |ps| ==> ps[i].addr != a) ==> Reg(ApplyPairs(bus, ps, sync), a) == Reg(bus, a)
    decreases |ps|
  {
    if |ps| > 0 {
      var n := |ps| - 1;
      ApplyPairsReads(bus, ps[..n], sync);
    }
  }

  /** Up to 256 consecutive registers have distinct u8 addresses. */
  lemma ConsecutiveDistinct(reg: int, vals: seq<bv8>)
    requires |vals| <= 256
    ensures DistinctAddrs(Consecutive(reg, vals))
  {
    var ps := Consecutive(reg, vals);
    forall i, j | 0 <= i < j < |ps| ensures ps[i].addr != ps[j].addr {
      assert ps[i].addr == Addr(reg + i) && ps[j].addr == Addr(reg + j);
      ModDistinct(reg + i, reg + j);
    }
  }

  lemma ModDistinct(x: int, y: int)
    requires x < y < x + 256
    ensures x % 256 != y % 256
  {
  }

  /** How far register `a` lies after `reg`, counting modulo the 256 addresses. */
  function Offset(reg: int, a: int): (d: int)
    ensures 0 <= d < 256
  {
    (a - reg) % 256
  }

  lemma OffsetAddr(reg: int, a: int, i: int)
    requires 0 <= a < 256 && 0 <= i < 256
    ensures Addr(reg + i) == a <==> Offset(reg, a) == i
  {
  }

  /**
   * The promise of axp_regmap_writes: when every register of the range can
   * be reached and the range does not wrap onto itself, the call succeeds,
   * register reg + d (d < len) ends holding vals[d], and every other
   * register is unchanged.
   */
  lemma WritesEffect(bus: Bus, reg: int, vals: seq<bv8>, sync: bool)
    requires RangeOk(bus, reg, |vals|) && |vals| <= 256
    ensures var r := RunChunks(bus, ChunkPlan(reg, vals), sync);
      r.ret == 0
      && forall a :: 0 <= a < 256 ==>
           Reg(r.bus, a) == if Offset(reg, a) < |vals| then vals[Offset(reg, a)] else Reg(bus, a)
  {
    WritesAllReachable(bus, reg, vals, sync);
    forall a | 0 <= a < 256
      ensures Reg(ApplyPairs(bus, Consecutive(reg, vals), sync), a)
        == if Offset(reg, a) < |vals| then vals[Offset(reg, a)] else Reg(bus, a)
    {
      ConsecutiveRead(bus, reg, vals, sync, a);
    }
  }

  /** Register `a` after writing a stretch of at most 256 consecutive registers. */
  lemma ConsecutiveRead(bus: Bus, reg: int, vals: seq<bv8>, sync: bool, a: int)
    requires |vals| <= 256 && 0 <= a < 256
    ensures Reg(ApplyPairs(bus, Consecutive(reg, vals), sync), a)
      == if Offset(reg, a) < |vals| then vals[Offset(reg, a)] else Reg(bus, a)
  {
    var ps := Consecutive(reg, vals);
    ConsecutiveDistinct(reg, vals);
    ApplyPairsReads(bus, ps, sync);
    var d := Offset(reg, a);
    if d < |vals| {
      OffsetAddr(reg, a, d);
      assert ps[d].addr == a;
    } else {
      forall i | 0 <= i < |ps| ensures ps[i].addr != a {
        OffsetAddr(reg, a, i);
      }
    }
  }
}
