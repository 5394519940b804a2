/**
 * The kernel's text-to-number helpers used by the sysfs handlers of the
 * drivers: simple_strtoul (no error reporting, wraps modulo 2^64 and stops
 * at the first non-digit), kstrtoint / kstrtol (strict: digits, one optional
 * trailing newline, range checked) and the "%u" conversion of sscanf.
 * Strings are the bytes the user wrote, without the terminating NUL.
 */
module Parse {
  import opened Common

  datatype Parsed<T> = Ok(value: T) | Fail(errno: int)

  /** Value of a hexadecimal digit, case-insensitive. */
  function HexDigit(c: char): (d: Option<nat>)
    ensures d.Some? ==> d.value < 16
  {
    if '0' <= c <= '9' then Some(c as int - '0' as int)
    else if 'a' <= c <= 'f' then Some(c as int - 'a' as int + 10)
    else if 'A' <= c <= 'F' then Some(c as int - 'A' as int + 10)
    else None
  }

  /** Digit value, or 0 for a character that is not a digit. */
  function DigitVal(c: char): nat
  {
    match HexDigit(c)
    case Some(d) => d
    case None => 0
  }

  predicate IsDigitIn(c: char, base: nat)
  {
    HexDigit(c).Some? && HexDigit(c).value < base
  }

  predicate IsSpace(c: char)
  {
    c == ' ' || c == '\t' || c == '\n' || c == '\r' || c == '\U{0b}' || c == '\U{0c}'
  }

  /** Number of leading characters of `s` that are digits in `base`. */
  function DigitRun(s: seq<char>, base: nat): (n: nat)
    ensures n <= |s|
    ensures forall i :: 0 <= i < n ==> IsDigitIn(s[i], base)
    ensures n < |s| ==> !IsDigitIn(s[n], base)
  {
    if |s| == 0 || !IsDigitIn(s[0], base) then 0 else 1 + DigitRun(s[1..], base)
  }

  /** Exact value of a string of digits in `base` (most significant first). */
  function DigitsValue(s: seq<char>, base: nat): nat
    requires forall i :: 0 <= i < |s| ==> IsDigitIn(s[i], base)
  {
    if |s| == 0 then 0
    else DigitsValue(s[..|s| - 1], base) * base + DigitVal(s[|s| - 1])
  }

  /** The "0x" prefix that a base-16 conversion skips. */
  function RadixSkip(s: seq<char>, base: nat): (k: nat)
    ensures k <= |s|
  {
    if base == 16 && |s| >= 2 && s[0] == '0' && (s[1] == 'x' || s[1] == 'X') then 2 else 0
  }

  /** The digits a conversion reads, after the radix prefix. */
  function NumberField(s: seq<char>, base: nat): (t: seq<char>)
    ensures forall i :: 0 <= i < |t| ==> IsDigitIn(t[i], base)
  {
    var p := RadixSkip(s, base);
    s[p..][..DigitRun(s[p..], base)]
  }

  /**
   * simple_strtoul(s, &end, base) on a 64-bit kernel: the value read,
   * modulo 2^64, and the index where reading stopped.
   */
  function StrToUl(s: seq<char>, base: nat): (r: (nat, nat))
    ensures r.0 < TWO64
    ensures r.1 <= |s|
    ensures r.1 < |s| ==> !IsDigitIn(s[r.1], base)
    ensures r.0 == DigitsValue(NumberField(s, base), base) % TWO64
  {
    var p := RadixSkip(s, base);
    var n := DigitRun(s[p..], base);
    (DigitsValue(NumberField(s, base), base) % TWO64, p + n)
  }

  /** _kstrtoull: digits, an optional newline, nothing else; no overflow. */
  function KStrToUllBody(s: seq<char>, base: nat): (r: Parsed<nat>)
    ensures r.Ok? ==> r.value < TWO64
    ensures r.Fail? ==> r.errno == -EINVAL || r.errno == -ERANGE
  {
    var p := RadixSkip(s, base);
    var n := DigitRun(s[p..], base);
    var v := DigitsValue(NumberField(s, base), base);
    var rest := s[p + n..];
    if v >= TWO64 then Fail(-ERANGE)
    else if n == 0 then Fail(-EINVAL)
    else if rest == [] || rest == ['\n'] then Ok(v)
    else Fail(-EINVAL)
  }

  /** kstrtoll: an optional sign, then _kstrtoull; "-0" is out of range. */
  function KStrToLl(s: seq<char>, base: nat): (r: Parsed<int>)
    ensures r.Ok? ==> -0x8000_0000_0000_0000 <= r.value < 0x8000_0000_0000_0000
  {
    if |s| > 0 && s[0] == '-' then
      match KStrToUllBody(s[1..], base)
      case Fail(e) => Fail(e)
      case Ok(t) => var neg: int := 0 - (t as int); if 0 < t <= 0x8000_0000_0000_0000 then Ok(neg) else Fail(-ERANGE)
    else
      var t := if |s| > 0 && s[0] == '+' then s[1..] else s;
      match KStrToUllBody(t, base)
      case Fail(e) => Fail(e)
      case Ok(u) => if u < 0x8000_0000_0000_0000 then Ok(u) else Fail(-ERANGE)
  }

  /** kstrtoint: kstrtoll followed by a check that the value fits an int. */
  function KStrToInt(s: seq<char>, base: nat): (r: Parsed<int>)
    ensures r.Ok? ==> -0x8000_0000 <= r.value < 0x8000_0000
    ensures r.Ok? ==> KStrToLl(s, base) == r
  {
    match KStrToLl(s, base)
    case Fail(e) => Fail(e)
    case Ok(v) => if -0x8000_0000 <= v < 0x8000_0000 then Ok(v) else Fail(-ERANGE)
  }

  /** Index of the first character that is not white space. */
  function SkipSpaces(s: seq<char>): (k: nat)
    ensures k <= |s| && (k < |s| ==> !IsSpace(s[k]))
    ensures forall i :: 0 <= i < k ==> IsSpace(s[i])
  {
    if |s| == 0 || !IsSpace(s[0]) then 0 else 1 + SkipSpaces(s[1..])
  }

  /**
   * sscanf(s, "%u", &v): after white space a decimal digit must follow;
   * the value is then simple_strtoull's, cut to 32 bits.
   */
  function ScanUnsigned(s: seq<char>): (r: Option<nat>)
    ensures r.Some? ==> r.value < TWO32
    ensures r.Some? <==> SkipSpaces(s) < |s| && '0' <= s[SkipSpaces(s)] <= '9'
  {
    var t := s[SkipSpaces(s)..];
    if |t| > 0 && '0' <= t[0] <= '9' then Some(U32(StrToUl(t, 10).0)) else None
  }

  /** A string of decimal digits denotes the number they spell. */
  lemma {:induction false} DecimalDigitsMonotone(s: seq<char>, c: char)
    requires forall i :: 0 <= i < |s| ==> IsDigitIn(s[i], 10)
    requires IsDigitIn(c, 10)
    ensures DigitsValue(s + [c], 10) == DigitsValue(s, 10) * 10 + DigitVal(c)
  {
    assert (s + [c])[..|s + [c]| - 1] == s;
  }

  /** kstrtoint accepts exactly the strings it can read completely. */
  lemma KStrToIntRejectsTrailing(s: seq<char>, junk: char)
    requires |s| > 0 && '0' <= s[0] <= '9'
    requires forall i :: 0 <= i < |s| ==> '0' <= s[i] <= '9'
    requires !IsDigitIn(junk, 10) && junk != '\n'
    ensures KStrToInt(s + [junk], 10) == Fail(-EINVAL) || KStrToInt(s + [junk], 10) == Fail(-ERANGE)
  {
    var t := s + [junk];
    assert forall i :: 0 <= i < |s| ==> IsDigitIn(t[i], 10);
    DigitRunPrefix(t, |s|, 10);
  }

  lemma {:induction false} DigitRunPrefix(s: seq<char>, k: nat, base: nat)
    requires k <= |s|
    requires forall i :: 0 <= i < k ==> IsDigitIn(s[i], base)
    requires k < |s| ==> !IsDigitIn(s[k], base)
    ensures DigitRun(s, base) == k
  {
    if k > 0 {
      DigitRunPrefix(s[1..], k - 1, base);
    }
  }
}
