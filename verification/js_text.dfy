/** The string operations of the JavaScript runtime that the components rely
    on: `trim`, `toLowerCase`, `length`, `split(c)[0]`, `parseInt` and
    number-to-string conversion. Dafny strings are sequences of Unicode scalar
    values; JavaScript strings are UTF-16. Of the operations here only
    `Utf16Length` depends on the difference, and strings with unpaired
    surrogates, which JavaScript allows, have no Dafny counterpart. */
module JsText {
  import opened Options
  import opened Seqs

  // ---------------------------------------------------------------------
  // Whitespace and trimming
  // ---------------------------------------------------------------------

  /** The code points `String.prototype.trim` removes: ECMAScript's
      WhiteSpace (tab, vertical tab, form feed, space, no-break space, the
      byte-order mark and every Unicode "Zs" space) and LineTerminator (line
      feed, carriage return, line and paragraph separator). */
  predicate IsJsSpace(c: char) {
    var n := c as int;
    || n == 0x09 || n == 0x0A || n == 0x0B || n == 0x0C || n == 0x0D
    || n == 0x20 || n == 0xA0 || n == 0x1680
    || (0x2000 <= n <= 0x200A)
    || n == 0x2028 || n == 0x2029 || n == 0x202F || n == 0x205F
    || n == 0x3000 || n == 0xFEFF
  }

  /** Every character of `s` is whitespace (vacuously true of ""). */
  predicate IsBlank(s: string) {
    forall i :: 0 <= i < |s| ==> IsJsSpace(s[i])
  }

  /** The number of whitespace characters `s` starts with. */
  function Lead(s: string): (k: nat)
    ensures k <= |s|
    ensures forall i :: 0 <= i < k ==> IsJsSpace(s[i])
    ensures k < |s| ==> !IsJsSpace(s[k])
  {
    if |s| > 0 && IsJsSpace(s[0]) then 1 + Lead(s[1..]) else 0
  }

  /** Where the trailing whitespace of `s` begins, looking no further left
      than `lo`. */
  function TailStart(s: string, lo: nat): (e: nat)
    requires lo <= |s|
    ensures lo <= e <= |s|
    ensures forall i :: e <= i < |s| ==> IsJsSpace(s[i])
    ensures e > lo ==> !IsJsSpace(s[e - 1])
    decreases |s|
  {
    if |s| > lo && IsJsSpace(s[|s| - 1]) then TailStart(s[..|s| - 1], lo) else |s|
  }

  /** `s.trimStart()`: the suffix left after dropping leading whitespace. */
  function TrimStart(s: string): (r: string)
    ensures |r| <= |s| && r == s[|s| - |r|..]
    ensures forall i :: 0 <= i < |s| - |r| ==> IsJsSpace(s[i])
    ensures |r| > 0 ==> !IsJsSpace(r[0])
  {
    s[Lead(s)..]
  }

  /** `r` sits at offset `i` of `s` with only whitespace around it. */
  predicate TrimmedAt(s: string, i: nat, r: string) {
    && i + |r| <= |s|
    && r == s[i..i + |r|]
    && (forall k :: 0 <= k < i ==> IsJsSpace(s[k]))
    && (forall k :: i + |r| <= k < |s| ==> IsJsSpace(s[k]))
  }

  /** `s.trim()`: the contiguous part of `s` left after dropping whitespace
      at both ends; it neither starts nor ends with whitespace. */
  function Trim(s: string): (r: string)
    ensures TrimmedAt(s, Lead(s), r)
    ensures |r| > 0 ==> !IsJsSpace(r[0]) && !IsJsSpace(r[|r| - 1])
  {
    s[Lead(s)..TailStart(s, Lead(s))]
  }

  /** Trimming leaves nothing exactly when the input is all whitespace: the
      test `!s.trim()` is a blankness test. */
  lemma TrimEmptyIffBlank(s: string)
    ensures Trim(s) == "" <==> IsBlank(s)
  {
  }

  /** `Trim` is characterised by its contract: the only string sitting in
      `s` between whitespace, and neither starting nor ending with
      whitespace, is `Trim(s)`. */
  lemma TrimUnique(s: string, i: nat, r: string)
    requires TrimmedAt(s, i, r)
    requires |r| > 0 ==> !IsJsSpace(r[0]) && !IsJsSpace(r[|r| - 1])
    ensures Trim(s) == r
  {
    var t := Trim(s);
    var a := Lead(s);
    if |r| == 0 {
      assert IsBlank(s);
      TrimEmptyIffBlank(s);
    } else {
      assert s[i] == r[0];
      assert i == a;
      assert s[i + |r| - 1] == r[|r| - 1];
      assert |t| > 0 by {
        assert s[i] == r[0];
      }
      assert s[a + |t| - 1] == t[|t| - 1];
      assert |t| == |r|;
    }
  }

  /** A string with no whitespace at either end is its own trim. */
  lemma TrimUnpadded(s: string)
    requires |s| > 0 && !IsJsSpace(s[0]) && !IsJsSpace(s[|s| - 1])
    ensures Trim(s) == s
  {
    assert s[0..|s|] == s;
    TrimUnique(s, 0, s);
  }

  /** One leading whitespace character does not survive trimming. */
  lemma TrimLeadingSpace(s: string, w: string)
    requires |s| > 0 && IsJsSpace(s[0]) && s[1..] == w
    requires |w| > 0 && !IsJsSpace(w[0]) && !IsJsSpace(w[|w| - 1])
    ensures Trim(s) == w
  {
    assert s[1..1 + |w|] == w;
    TrimUnique(s, 1, w);
  }

  /** Trimming twice is trimming once. */
  lemma TrimIdempotent(s: string)
    ensures Trim(Trim(s)) == Trim(s)
  {
    var r := Trim(s);
    if |r| > 0 {
      TrimUnpadded(r);
    }
  }

  // ---------------------------------------------------------------------
  // Case mapping
  // ---------------------------------------------------------------------

  predicate IsAsciiUpper(c: char) {
    'A' <= c <= 'Z'
  }

  /** `toLowerCase` on one character, for the ASCII letters. */
  function LowerChar(c: char): (d: char)
    ensures !IsAsciiUpper(d)
    ensures IsJsSpace(d) <==> IsJsSpace(c)
  {
    if IsAsciiUpper(c) then (c as int + 32) as char else c
  }

  /** `s.toLowerCase()`, character by character, with no upper-case ASCII
      letter left in the result. */
  function Lower(s: string): (r: string)
    ensures |r| == |s|
    ensures forall i :: 0 <= i < |s| ==> r[i] == LowerChar(s[i])
    ensures forall i :: 0 <= i < |r| ==> !IsAsciiUpper(r[i])
  {
    seq(|s|, i requires 0 <= i < |s| => LowerChar(s[i]))
  }

  /** A string with no upper-case ASCII letter is its own lower case. */
  lemma LowerOfLowercase(s: string)
    requires forall i :: 0 <= i < |s| ==> !IsAsciiUpper(s[i])
    ensures Lower(s) == s
  {
  }

  /** Lower-casing twice is lower-casing once. */
  lemma LowerIdempotent(s: string)
    ensures Lower(Lower(s)) == Lower(s)
  {
  }

  // ---------------------------------------------------------------------
  // Length in UTF-16 code units
  // ---------------------------------------------------------------------

  /** A scalar value outside the Basic Multilingual Plane, which UTF-16
      writes as a surrogate pair. */
  predicate IsAstral(c: char) {
    c as int >= 0x1_0000
  }

  /** Code units a scalar value occupies in UTF-16. */
  function Utf16Units(c: char): nat {
    if c as int < 0x1_0000 then 1 else 2
  }

  /** JavaScript's `s.length`: characters outside the Basic Multilingual
      Plane are counted twice. */
  function Utf16Length(s: string): (n: nat)
    ensures |s| <= n <= 2 * |s|
    ensures (forall i :: 0 <= i < |s| ==> s[i] as int < 0x1_0000) ==> n == |s|
    ensures n == |s| + |Filter(s, IsAstral)|
  {
    if |s| == 0 then 0 else Utf16Units(s[0]) + Utf16Length(s[1..])
  }

  // ---------------------------------------------------------------------
  // Prefix before a separator
  // ---------------------------------------------------------------------

  /** `s.split(c)[0]`: the longest prefix of `s` not containing `c`; it is
      followed in `s` by `c` unless it is the whole of `s`. */
  function BeforeFirst(s: string, c: char): (r: string)
    ensures |r| <= |s| && r == s[..|r|]
    ensures c !in r
    ensures |r| < |s| ==> s[|r|] == c
  {
    if |s| == 0 || s[0] == c then "" else [s[0]] + BeforeFirst(s[1..], c)
  }

  // ---------------------------------------------------------------------
  // Digits and number formatting
  // ---------------------------------------------------------------------

  /** A decimal digit; `DigitIn` gives its value. */
  predicate IsDigit(c: char) {
    '0' <= c <= '9'
  }

  function DigitChar(d: nat): (c: char)
    requires d < 10
    ensures IsDigit(c)
  {
    ('0' as int + d) as char
  }

  /** The value of a digit in radix 10 or 16 (either letter case), if `c`
      is one. */
  function DigitIn(c: char, radix: nat): (v: Option<nat>)
    requires radix == 10 || radix == 16
    ensures v.Some? ==> v.value < radix
    ensures radix == 10 ==> (v.Some? <==> IsDigit(c))
  {
    if IsDigit(c) then Some(c as int - '0' as int)
    else if radix == 16 && 'a' <= c <= 'f' then Some(c as int - 'a' as int + 10)
    else if radix == 16 && 'A' <= c <= 'F' then Some(c as int - 'A' as int + 10)
    else None
  }

  predicate AllDigitsIn(s: string, radix: nat)
    requires radix == 10 || radix == 16
  {
    forall i :: 0 <= i < |s| ==> DigitIn(s[i], radix).Some?
  }

  /** The number a string of digits denotes, most significant first. */
  function ValueIn(s: string, radix: nat): nat
    requires radix == 10 || radix == 16
    requires AllDigitsIn(s, radix)
  {
    if |s| == 0 then 0
    else ValueIn(s[..|s| - 1], radix) * radix + DigitIn(s[|s| - 1], radix).value
  }

  lemma DigitCharValue(d: nat)
    requires d < 10
    ensures DigitIn(DigitChar(d), 10) == Some(d)
    ensures ValueIn([DigitChar(d)], 10) == d
  {
    assert [DigitChar(d)][..0] == [];
  }

  /** Decimal notation of a natural number, without leading zeros: what
      string concatenation and template literals produce for an integral
      number. */
  function Decimal(n: nat): (r: string)
    ensures |r| > 0 && AllDigitsIn(r, 10)
    ensures r[0] == '0' ==> n == 0
  {
    if n < 10 then [DigitChar(n)] else Decimal(n / 10) + [DigitChar(n % 10)]
  }

  /** Reading the decimal notation back gives the number. */
  lemma {:induction false} DecimalRoundTrip(n: nat)
    ensures AllDigitsIn(Decimal(n), 10)
    ensures ValueIn(Decimal(n), 10) == n
  {
    var r := Decimal(n);
    if n >= 10 {
      DecimalRoundTrip(n / 10);
      assert r[..|r| - 1] == Decimal(n / 10);
    }
  }

  function Pow10(k: nat): (p: nat)
    ensures p >= 1
  {
    if k == 0 then 1 else 10 * Pow10(k - 1)
  }

  /** A number with `k + 1` digits is written with `k + 1` characters. */
  lemma {:induction false} DecimalWidth(n: nat, k: nat)
    requires Pow10(k) <= n < Pow10(k + 1)
    ensures |Decimal(n)| == k + 1
  {
    if k > 0 {
      DecimalWidth(n / 10, k - 1);
    }
  }

  /** `Number.prototype.toFixed(2)` of `p / 100`, for an integral `p`: an
      optional minus sign, the integral part in decimal, a point and exactly
      two fraction digits. */
  function FixedTwo(p: int): (r: string)
    ensures var sign := if p < 0 then 1 else 0;
            var m := if p < 0 then -p else p;
            && |r| >= sign + 4
            && (p < 0 <==> r[0] == '-')
            && r[|r| - 3] == '.'
            && r[sign..|r| - 3] == Decimal(m / 100)
            && AllDigitsIn(r[sign..|r| - 3], 10) && ValueIn(r[sign..|r| - 3], 10) == m / 100
            && AllDigitsIn(r[|r| - 2..], 10) && ValueIn(r[|r| - 2..], 10) == m % 100
  {
    var m := if p < 0 then -p else p;
    var whole := Decimal(m / 100);
    var frac := [DigitChar(m % 100 / 10), DigitChar(m % 10)];
    var sign := if p < 0 then "-" else "";
    var r := sign + whole + "." + frac;
    DecimalRoundTrip(m / 100);
    DigitCharValue(m % 100 / 10);
    DigitCharValue(m % 10);
    assert r[|sign|..|r| - 3] == whole;
    assert r[|r| - 2..] == frac;
    assert frac[..1] == [DigitChar(m % 100 / 10)];
    r
  }

  // ---------------------------------------------------------------------
  // parseInt
  // ---------------------------------------------------------------------

  /** Length of the longest prefix of `s` made of radix digits. */
  function DigitRun(s: string, radix: nat): (k: nat)
    requires radix == 10 || radix == 16
    ensures k <= |s| && AllDigitsIn(s[..k], radix)
    ensures k < |s| ==> DigitIn(s[k], radix).None?
  {
    if |s| == 0 || DigitIn(s[0], radix).None? then 0
    else
      var k := 1 + DigitRun(s[1..], radix);
      assert s[..k] == [s[0]] + s[1..][..k - 1];
      k
  }

  /** `s` begins with the hexadecimal prefix `0x` or `0X`. */
  predicate HasHexPrefix(s: string) {
    |s| >= 2 && s[0] == '0' && (s[1] == 'x' || s[1] == 'X')
  }

  /** The unsigned part of `parseInt`: a `0x`/`0X` prefix selects radix 16,
      and the longest run of digits that follows is the value; `None` when
      that run is empty. */
  function ParseMagnitude(u: string): (r: Option<nat>)
    ensures |u| == 0 ==> r.None?
    ensures !HasHexPrefix(u) && (|u| == 0 || !IsDigit(u[0])) ==> r.None?
  {
    var radix := if HasHexPrefix(u) then 16 else 10;
    var v := if radix == 16 then u[2..] else u;
    var k := DigitRun(v, radix);
    if k == 0 then None else Some(ValueIn(v[..k], radix))
  }

  /** `parseInt(s)` with no radix argument: leading whitespace is skipped and
      an optional sign is read before the magnitude. `None` stands for NaN. */
  function ParseInt(s: string): (r: Option<int>)
    ensures IsBlank(s) ==> r.None?
  {
    var t := TrimStart(s);
    if |t| > 0 && t[0] == '-' then
      match ParseMagnitude(t[1..])
      case Some(m) => Some(-(m as int))
      case None => None
    else if |t| > 0 && t[0] == '+' then
      match ParseMagnitude(t[1..])
      case Some(m) => Some(m)
      case None => None
    else
      match ParseMagnitude(t)
      case Some(m) => Some(m)
      case None => None
  }

  /** `parseInt(s) || 0`: NaN (and zero) become 0. */
  function ParseIntOrZero(s: string): int {
    ParseInt(s).GetOr(0)
  }

  /** `parseInt` reads a decimal numeral back, stopping at the first
      character that is not a digit: `parseInt("12.7")` is 12. The one
      exception is "0" followed by `x`, which reads as a hexadecimal
      prefix. */
  lemma ParseIntDecimal(n: nat, rest: string)
    requires |rest| == 0 || !IsDigit(rest[0])
    requires n == 0 ==> |rest| == 0 || (rest[0] != 'x' && rest[0] != 'X')
    ensures ParseInt(Decimal(n) + rest) == Some(n)
  {
    var d := Decimal(n);
    MagnitudeOfDecimal(n, rest);
    assert (d + rest)[0] == d[0];
    ParseIntUnsigned(d + rest, n);
  }

  /** The same with a leading minus sign: `parseInt("-12")` is -12. */
  lemma ParseIntNegativeDecimal(n: nat, rest: string)
    requires |rest| == 0 || !IsDigit(rest[0])
    requires n == 0 ==> |rest| == 0 || (rest[0] != 'x' && rest[0] != 'X')
    ensures ParseInt("-" + (Decimal(n) + rest)) == Some(-(n as int))
  {
    var d := Decimal(n);
    MagnitudeOfDecimal(n, rest);
    assert (d + rest)[0] == d[0];
    ParseIntNegated(d + rest, n);
  }

  /** Input that starts with a digit is read by `ParseMagnitude` alone. */
  lemma ParseIntUnsigned(s: string, m: nat)
    requires |s| > 0 && IsDigit(s[0])
    requires ParseMagnitude(s) == Some(m)
    ensures ParseInt(s) == Some(m)
  {
    assert TrimStart(s) == s;
  }

  /** A minus sign before a digit negates the magnitude. */
  lemma ParseIntNegated(s: string, m: nat)
    requires |s| > 0 && IsDigit(s[0])
    requires ParseMagnitude(s) == Some(m)
    ensures ParseInt("-" + s) == Some(-(m as int))
  {
    var t := "-" + s;
    assert TrimStart(t) == t;
    assert t[1..] == s;
  }

  /** Input starting with anything but whitespace, a sign or a digit is not
      a number: `parseInt("abc")` is NaN. */
  lemma ParseIntNotANumber(s: string)
    requires |s| > 0 && !(IsJsSpace(s[0]) || s[0] == '-' || s[0] == '+' || IsDigit(s[0]))
    ensures ParseInt(s).None?
  {
    assert TrimStart(s) == s;
  }

  /** The magnitude read from a decimal numeral followed by a non-digit is
      the numeral's value. */
  lemma MagnitudeOfDecimal(n: nat, rest: string)
    requires |rest| == 0 || !IsDigit(rest[0])
    requires n == 0 ==> |rest| == 0 || (rest[0] != 'x' && rest[0] != 'X')
    ensures ParseMagnitude(Decimal(n) + rest) == Some(n)
  {
    var d := Decimal(n);
    var s := d + rest;
    DecimalRoundTrip(n);
    assert n == 0 ==> d == "0";
    assert !HasHexPrefix(s);
    DigitRunOfNumeral(d, rest);
    assert s[..|d|] == d;
  }

  /** The digit run of a numeral followed by a non-digit is the numeral. */
  lemma {:induction false} DigitRunOfNumeral(d: string, rest: string)
    requires AllDigitsIn(d, 10)
    requires |rest| == 0 || !IsDigit(rest[0])
    ensures DigitRun(d + rest, 10) == |d|
  {
    if |d| > 0 {
      assert (d + rest)[1..] == d[1..] + rest;
      DigitRunOfNumeral(d[1..], rest);
    }
  }
}
