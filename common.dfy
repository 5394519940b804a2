/**
 * Shared vocabulary of the driver models: optional values, the Linux error
 * numbers the drivers return (negated at the call sites), and the C integer
 * conversions the drivers rely on (truncating casts and truncating division).
 */
module Common {

  datatype Option<T> = None | Some(value: T)

  /** errno values used by the drivers; the drivers return them negated. */
  const EPERM: int := 1
  const EIO: int := 5
  const ENXIO: int := 6
  const ENOMEM: int := 12
  const EBUSY: int := 16
  const EINVAL: int := 22
  const ERANGE: int := 34

  const TWO32: int := 0x1_0000_0000
  const TWO64: int := 0x1_0000_0000_0000_0000

  /**
   * C cast of an integer to u8 (keeps the low eight bits), assembled from
   * its two hexadecimal digits.
   */
  function U8(x: int): (b: bv8)
    ensures b as int == x % 256
  {
    var y := x % 256;
    (Nibble(y / 16) << 4) | Nibble(y % 16)
  }

  /** The byte holding a value below 16, counted up one at a time. */
  function Nibble(y: int): (b: bv8)
    requires 0 <= y < 16
    ensures b as int == y
  {
    if y == 0 then 0 else Nibble(y - 1) + 1
  }

  /** C conversion of an integer to u32 (wraps modulo 2^32). */
  function U32(x: int): (r: nat)
    ensures r < TWO32 && (r - x) % TWO32 == 0
  {
    x % TWO32
  }

  /** C conversion of an integer to u64 (wraps modulo 2^64). */
  function U64(x: int): (r: nat)
    ensures r < TWO64 && (r - x) % TWO64 == 0
  {
    x % TWO64
  }

  /** C conversion of an integer to s32 (two's complement wrap). */
  function S32(x: int): (r: int)
    ensures -0x8000_0000 <= r < 0x8000_0000 && (r - x) % TWO32 == 0
  {
    var u := x % TWO32;
    if u >= 0x8000_0000 then u - TWO32 else u
  }

  function Abs(x: int): (r: nat)
    ensures r == x || r == -x
  {
    if x < 0 then -x else x
  }

  function Min(a: int, b: int): (r: int)
    ensures r <= a && r <= b && (r == a || r == b)
  {
    if a <= b then a else b
  }

  function Max(a: int, b: int): (r: int)
    ensures r >= a && r >= b && (r == a || r == b)
  {
    if a >= b then a else b
  }

  /** x limited to [lo, hi]. */
  function Clamp(x: int, lo: int, hi: int): (r: int)
    requires lo <= hi
    ensures lo <= r <= hi
    ensures lo <= x <= hi ==> r == x
    ensures x < lo ==> r == lo
    ensures x > hi ==> r == hi
  {
    if x < lo then lo else if x > hi then hi else x
  }

  /** C division on signed operands: the quotient is truncated toward zero. */
  function CDiv(a: int, b: int): (q: int)
    requires b != 0
    ensures a >= 0 && b > 0 ==> q == a / b
    ensures (a < 0) != (b < 0) ==> q <= 0
  {
    var m := Abs(a) / Abs(b);
    if (a < 0) == (b < 0) then m else -m
  }

  /** The byte with only bit `n` set. */
  function Bit(n: nat): (b: bv8)
    requires n < 8
  {
    (1 as bv8) << n
  }

  /** A value already in the s32 range is its own s32 conversion. */
  lemma S32Small(x: int)
    requires -0x8000_0000 <= x < 0x8000_0000
    ensures S32(x) == x
  {
  }

  /** A value already in the u8 range is its own u8 conversion. */
  lemma U8Small(x: int)
    requires 0 <= x < 256
    ensures U8(x) as int == x
  {
  }

  /** Bytes compare as their values do. */
  lemma ByteLt(a: bv8, b: bv8)
    requires a as int < b as int
    ensures a < b
  {
  }

  /** Bytes with the same value are the same byte. */
  lemma ByteEq(a: bv8, b: bv8)
    requires a as int == b as int
    ensures a == b
  {
  }

  /** Truncating to u8 before adding does not change the final u8. */
  lemma U8Add(a: int, b: int)
    ensures U8(U8(a) as int + b) == U8(a + b)
  {
    assert (U8(a) as int + b) % 256 == (a + b) % 256;
  }
}
