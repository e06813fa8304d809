/**
 * The PHP built-ins the runtime's handlers and process supervisor rely on,
 * stated on Dafny strings: `ltrim`/`rtrim` with a one-character mask, the
 * leftmost-position searches behind `preg_match` and `stripos`, `empty()` on
 * a string, and the `(int)` cast of a string.
 */
module PhpStrings {

  /** PHP's `int|false` answer of a position search. */
  datatype Position = NotFound | At(index: nat)

  /** `ltrim($s, $c)`: drop every leading occurrence of `c`. */
  function LeftTrim(s: string, c: char): (r: string)
    ensures |r| <= |s| && r == s[|s| - |r|..]
    ensures forall i :: 0 <= i < |s| - |r| ==> s[i] == c
    ensures r == [] || r[0] != c
    decreases |s|
  {
    if |s| > 0 && s[0] == c then LeftTrim(s[1..], c) else s
  }

  /** `rtrim($s, $c)`: drop every trailing occurrence of `c`. */
  function RightTrim(s: string, c: char): (r: string)
    ensures |r| <= |s| && r == s[..|r|]
    ensures forall i :: |r| <= i < |s| ==> s[i] == c
    ensures r == [] || r[|r| - 1] != c
    decreases |s|
  {
    if |s| > 0 && s[|s| - 1] == c then RightTrim(s[..|s| - 1], c) else s
  }

  /** Trimming a string that does not start with the mask character changes nothing. */
  lemma LeftTrimNoop(s: string, c: char)
    requires s == [] || s[0] != c
    ensures LeftTrim(s, c) == s
  {
  }

  /** One more leading mask character does not change what `ltrim` returns. */
  lemma LeftTrimCons(s: string, c: char)
    ensures LeftTrim([c] + s, c) == LeftTrim(s, c)
  {
    assert ([c] + s)[1..] == s;
  }

  /**
   * The leftmost index `j` with `lo <= j < hi` at which `at` holds: the
   * answer a left-to-right scan reports, as PCRE does for an unanchored
   * pattern and `stripos` does for a needle.
   */
  function FirstIndex(at: nat -> bool, lo: nat, hi: nat): (r: Position)
    ensures r.At? ==> lo <= r.index < hi && at(r.index)
    ensures r.At? ==> forall j: nat :: lo <= j < r.index ==> !at(j)
    ensures r.NotFound? ==> forall j: nat :: lo <= j < hi ==> !at(j)
    decreases hi - lo
  {
    if lo >= hi then NotFound
    else if at(lo) then At(lo)
    else FirstIndex(at, lo + 1, hi)
  }

  /** ASCII lower-casing, the folding `stripos` applies. */
  function ToLowerAscii(c: char): (r: char)
    ensures 'A' <= c <= 'Z' ==> 'a' <= r <= 'z' && r as int - c as int == 32
    ensures !('A' <= c <= 'Z') ==> r == c
  {
    if 'A' <= c <= 'Z' then (c as int + 32) as char else c
  }

  predicate EqualsIgnoreCase(a: string, b: string)
  {
    |a| == |b| && forall i :: 0 <= i < |a| ==> ToLowerAscii(a[i]) == ToLowerAscii(b[i])
  }

  /** `needle` occurs in `haystack` at `j`, ignoring ASCII case. */
  predicate OccursAtIgnoreCase(haystack: string, needle: string, j: nat)
  {
    j + |needle| <= |haystack| && EqualsIgnoreCase(haystack[j..j + |needle|], needle)
  }

  /** `stripos($haystack, $needle)`: the first case-insensitive occurrence, or false. */
  function IndexOfIgnoreCase(haystack: string, needle: string): (r: Position)
    ensures r.At? ==> OccursAtIgnoreCase(haystack, needle, r.index)
    ensures r.At? ==> forall j: nat :: j < r.index ==> !OccursAtIgnoreCase(haystack, needle, j)
    ensures r.NotFound? ==> forall j: nat :: !OccursAtIgnoreCase(haystack, needle, j)
  {
    if |needle| > |haystack| then NotFound
    else
      var hi: nat := |haystack| - |needle| + 1;
      var at := (j: nat) => OccursAtIgnoreCase(haystack, needle, j);
      var r := FirstIndex(at, 0, hi);
      assert forall j: nat :: at(j) == OccursAtIgnoreCase(haystack, needle, j);
      assert forall j: nat :: hi <= j ==> !OccursAtIgnoreCase(haystack, needle, j);
      r
  }

  /** `0 === stripos($s, $prefix)` holds exactly when `s` starts with `prefix` up to ASCII case. */
  lemma IndexOfIgnoreCaseAtZero(s: string, prefix: string)
    ensures IndexOfIgnoreCase(s, prefix) == At(0)
        <==> |prefix| <= |s| && EqualsIgnoreCase(s[..|prefix|], prefix)
  {
    if |prefix| <= |s| && EqualsIgnoreCase(s[..|prefix|], prefix) {
      assert OccursAtIgnoreCase(s, prefix, 0);
    }
  }

  /** `(a + w + b)[|a|..|a| + |w|]` is `w`. */
  lemma InfixOfConcat(a: string, w: string, b: string)
    ensures (a + w + b)[|a|..|a| + |w|] == w
  {
  }

  /** `stripos` finds a needle that stands in the haystack, at that place or earlier. */
  lemma IndexOfIgnoreCaseFindsInfix(a: string, w: string, b: string)
    ensures IndexOfIgnoreCase(a + w + b, w).At?
    ensures IndexOfIgnoreCase(a + w + b, w).index <= |a|
  {
    InfixOfConcat(a, w, b);
    assert OccursAtIgnoreCase(a + w + b, w, |a|);
  }

  /** PHP's `empty()` on a string: true for "" and for "0". */
  predicate IsEmpty(s: string)
  {
    s == "" || s == "0"
  }

  // ---------------------------------------------------------------------------
  // The `(int)` cast of a string
  // ---------------------------------------------------------------------------

  const Int64Min: int := -0x8000_0000_0000_0000
  const Int64Max: int :=  0x7FFF_FFFF_FFFF_FFFF

  predicate IsDigit(c: char) { '0' as int <= c as int <= '9' as int }

  /** The white space PHP skips before a numeric string: space, \t, \n, \r, \v, \f. */
  predicate IsNumericWhitespace(c: char)
  {
    c == ' ' || c == '\t' || c == '\n' || c == '\r' || c as int == 11 || c as int == 12
  }

  function SkipWhitespace(s: string): (r: string)
    ensures |r| <= |s|
    ensures r == [] || !IsNumericWhitespace(r[0])
    decreases |s|
  {
    if |s| > 0 && IsNumericWhitespace(s[0]) then SkipWhitespace(s[1..]) else s
  }

  /** Length of the longest prefix of `s` made of decimal digits. */
  function LeadingDigits(s: string): (n: nat)
    ensures n <= |s|
    ensures n > 0 ==> IsDigit(s[0])
    decreases |s|
  {
    if |s| > 0 && IsDigit(s[0]) then 1 + LeadingDigits(s[1..]) else 0
  }

  predicate AllDigits(ds: string) { forall i :: 0 <= i < |ds| ==> IsDigit(ds[i]) }

  /** The value of a decimal digit (0 for any other character). */
  function DigitValue(c: char): nat
  {
    if IsDigit(c) then c as int - '0' as int else 0
  }

  /** The value of a string of decimal digits, most significant first. */
  function DecimalValue(ds: string): nat
    decreases |ds|
  {
    if ds == [] then 0 else 10 * DecimalValue(ds[..|ds| - 1]) + DigitValue(ds[|ds| - 1])
  }

  /** A finite value outside the 64-bit range saturates at the bounds (`zend_dval_to_lval_cap`). */
  function Clamp64(n: int): (r: int)
    ensures Int64Min <= r <= Int64Max
    ensures Int64Min <= n <= Int64Max ==> r == n
    ensures (r < 0) == (n < 0)
  {
    if n < Int64Min then Int64Min else if n > Int64Max then Int64Max else n
  }

  /**
   * 2^1024 - 2^970, the least integer `zend_strtod` rounds to infinity: it
   * lies halfway between the largest double and 2^1024, and the tie goes to
   * the even 2^1024.
   */
  const DoubleOverflow: int := 179_769_313_486_231_580_793_728_971_405_303_415_079_934_132_710_037_826_936_173_778_980_444_968_292_764_750_946_649_017_977_587_207_096_330_286_416_692_887_910_946_555_547_851_940_402_630_657_488_671_505_820_681_908_902_000_708_383_676_273_854_845_817_711_531_764_475_730_270_069_855_571_366_959_622_842_914_819_860_834_936_475_292_719_074_168_444_365_510_704_342_711_559_699_508_093_042_880_177_904_174_497_792

  /**
   * How `(int)` turns the value of an integer string into a PHP integer: a
   * value outside the 64-bit range is read as a double, which saturates at
   * the bounds, except when it is infinite, which gives 0.
   */
  function IntOfNumericValue(v: int): int
  {
    if v <= -DoubleOverflow || DoubleOverflow <= v then 0 else Clamp64(v)
  }

  /** A value in the 64-bit range is kept as it is. */
  lemma IntOfNumericValueInRange(v: int)
    requires Int64Min <= v <= Int64Max
    ensures IntOfNumericValue(v) == v
  {
    assert -DoubleOverflow < Int64Min && Int64Max < DoubleOverflow;
  }

  /**
   * `(int) $s`: skip leading white space, read an optional sign and the
   * longest run of decimal digits; anything else reads as 0.
   */
  function IntCast(s: string): (r: int)
    ensures Int64Min <= r <= Int64Max
  {
    var t := SkipWhitespace(s);
    if |t| > 0 && t[0] == '-' then IntOfNumericValue(-(DigitPrefixValue(t[1..]) as int))
    else if |t| > 0 && t[0] == '+' then IntOfNumericValue(DigitPrefixValue(t[1..]))
    else IntOfNumericValue(DigitPrefixValue(t))
  }

  /** The value of the longest prefix of `u` made of digits (0 when there is none). */
  function DigitPrefixValue(u: string): nat
  {
    DecimalValue(u[..LeadingDigits(u)])
  }

  /** Content that does not begin (after white space) with a digit or a signed digit casts to 0. */
  lemma NonNumericCastsToZero(s: string)
    requires var t := SkipWhitespace(s);
      t == [] || (!IsDigit(t[0]) && (t[0] in "+-" ==> |t| == 1 || !IsDigit(t[1])))
    ensures IntCast(s) == 0
  {
  }

  /** The only way `(int)` yields a negative number: a minus sign followed by a non-zero digit string. */
  lemma NegativeCastNeedsMinus(s: string)
    requires IntCast(s) < 0
    ensures var t := SkipWhitespace(s); |t| > 1 && t[0] == '-' && IsDigit(t[1])
  {
  }

  // ---------------------------------------------------------------------------
  // Writing an integer in decimal, the partner of the cast
  // ---------------------------------------------------------------------------

  function DigitChar(d: nat): (c: char)
    requires d < 10
    ensures IsDigit(c) && DigitValue(c) == d
  {
    ('0' as int + d) as char
  }

  /** The decimal digits of `n`, without leading zeros. */
  function NatToDecimal(n: nat): (ds: string)
    ensures |ds| > 0 && AllDigits(ds)
    decreases n
  {
    if n < 10 then [DigitChar(n)] else NatToDecimal(n / 10) + [DigitChar(n % 10)]
  }

  /** How PHP writes an integer as a string (`(string) $n`, `"%d"`). */
  function IntToString(n: int): (s: string)
  {
    if n < 0 then "-" + NatToDecimal(-n) else NatToDecimal(n)
  }

  lemma {:induction false} DecimalValueOfNatToDecimal(n: nat)
    ensures DecimalValue(NatToDecimal(n)) == n
    decreases n
  {
    var ds := NatToDecimal(n);
    if n >= 10 {
      DecimalValueOfNatToDecimal(n / 10);
      assert ds[..|ds| - 1] == NatToDecimal(n / 10);
    }
  }

  lemma {:induction false} LeadingDigitsOfDigitsThen(ds: string, tail: string)
    requires AllDigits(ds)
    requires tail == [] || !IsDigit(tail[0])
    ensures LeadingDigits(ds + tail) == |ds|
    decreases |ds|
  {
    if ds != [] {
      assert (ds + tail)[1..] == ds[1..] + tail;
      LeadingDigitsOfDigitsThen(ds[1..], tail);
    }
  }

  lemma DigitPrefixValueOf(ds: string, tail: string)
    requires AllDigits(ds)
    requires tail == [] || !IsDigit(tail[0])
    ensures DigitPrefixValue(ds + tail) == DecimalValue(ds)
  {
    LeadingDigitsOfDigitsThen(ds, tail);
    assert (ds + tail)[..|ds|] == ds;
  }

  /** A string that starts with a digit is read as an unsigned digit run. */
  lemma IntCastOfUnsigned(s: string)
    requires |s| > 0 && IsDigit(s[0])
    ensures IntCast(s) == IntOfNumericValue(DigitPrefixValue(s))
  {
    assert SkipWhitespace(s) == s;
  }

  /** A minus sign followed by `u` is read as the negated digit run that starts `u`. */
  lemma IntCastOfMinus(u: string)
    ensures IntCast(['-'] + u) == IntOfNumericValue(-(DigitPrefixValue(u) as int))
  {
    var s := ['-'] + u;
    assert SkipWhitespace(s) == s;
    assert s[1..] == u;
  }

  /** A run of digits, then anything that is not a digit, casts to that run's value. */
  lemma IntCastOfDigits(ds: string, tail: string)
    requires |ds| > 0 && AllDigits(ds)
    requires tail == [] || !IsDigit(tail[0])
    ensures IntCast(ds + tail) == IntOfNumericValue(DecimalValue(ds))
  {
    IntCastOfUnsigned(ds + tail);
    DigitPrefixValueOf(ds, tail);
  }

  /**
   * A digit run too long for a double, such as 400 nines, casts to 0 with
   * either sign: the string reads as an infinite double.
   */
  lemma InfiniteCastsToZero(ds: string, tail: string)
    requires AllDigits(ds) && DecimalValue(ds) >= DoubleOverflow
    requires tail == [] || !IsDigit(tail[0])
    ensures IntCast(ds + tail) == 0
    ensures IntCast(['-'] + (ds + tail)) == 0
  {
    assert ds != [];
    IntCastOfDigits(ds, tail);
    IntCastOfMinus(ds + tail);
    DigitPrefixValueOf(ds, tail);
  }

  /** The decimal digits of `m`, then anything that is not a digit, cast back to `m`. */
  lemma IntCastOfNatToDecimal(m: nat, tail: string)
    requires m <= Int64Max
    requires tail == [] || !IsDigit(tail[0])
    ensures IntCast(NatToDecimal(m) + tail) == m
  {
    var ds := NatToDecimal(m);
    DecimalValueOfNatToDecimal(m);
    IntCastOfDigits(ds, tail);
    IntOfNumericValueInRange(m);
  }

  /** A minus sign and the decimal digits of `m`, then anything that is not a digit, cast back to `-m`. */
  lemma IntCastOfMinusNatToDecimal(m: nat, tail: string)
    requires m <= -Int64Min
    requires tail == [] || !IsDigit(tail[0])
    ensures IntCast(['-'] + (NatToDecimal(m) + tail)) == -(m as int)
  {
    var ds := NatToDecimal(m);
    DecimalValueOfNatToDecimal(m);
    IntCastOfMinus(ds + tail);
    DigitPrefixValueOf(ds, tail);
    IntOfNumericValueInRange(-(m as int));
  }

  /**
   * Round trip: an integer written in decimal and followed by anything that
   * is not a digit (a newline, say) casts back to the same integer.
   */
  lemma IntCastOfIntToString(n: int, tail: string)
    requires Int64Min <= n <= Int64Max
    requires tail == [] || !IsDigit(tail[0])
    ensures IntCast(IntToString(n) + tail) == n
  {
    if n < 0 {
      assert IntToString(n) + tail == ['-'] + (NatToDecimal(-n) + tail);
      IntCastOfMinusNatToDecimal(-n, tail);
    } else {
      IntCastOfNatToDecimal(n, tail);
    }
  }


}
