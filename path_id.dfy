/**
 * The path-id step shared by every single-item handler: strip the route prefix
 * (strings.TrimPrefix) and parse the rest with strconv.Atoi on a 64-bit
 * platform, which accepts an optional '+' or '-' followed by one or more ASCII
 * decimal digits whose value fits in a signed 64-bit integer.
 */
module PathId {
  import opened Wrappers

  const MinInt64: int := -0x8000_0000_0000_0000
  const MaxInt64: int := 0x7FFF_FFFF_FFFF_FFFF

  /** `s` without `prefix` when it starts with it, otherwise `s` itself. */
  function TrimPrefix(s: string, prefix: string): (r: string)
    ensures prefix <= s ==> s == prefix + r
    ensures !(prefix <= s) ==> r == s
  {
    if prefix <= s then s[|prefix|..] else s
  }

  predicate IsDigit(c: char) {
    '0' <= c <= '9'
  }

  predicate AllDigits(s: string) {
    forall i :: 0 <= i < |s| ==> IsDigit(s[i])
  }

  function DigitValue(c: char): nat
    requires IsDigit(c)
  {
    (c as int) - ('0' as int)
  }

  function DigitChar(d: nat): (c: char)
    requires d < 10
    ensures IsDigit(c) && DigitValue(c) == d
  {
    ('0' as int + d) as char
  }

  /** The value of a string of decimal digits, most significant digit first. */
  function DecimalValue(s: string): nat
    requires AllDigits(s)
  {
    if s == [] then 0 else DecimalValue(s[..|s| - 1]) * 10 + DigitValue(s[|s| - 1])
  }

  /** The shortest decimal spelling of `n` (strconv.Itoa of a non-negative value). */
  function DecimalString(n: nat): (s: string)
    ensures |s| > 0 && AllDigits(s)
    ensures |s| > 1 ==> s[0] != '0'
  {
    if n < 10 then [DigitChar(n)] else DecimalString(n / 10) + [DigitChar(n % 10)]
  }

  /** strconv.Itoa: a leading '-' for negative values, then the digits. */
  function FormatInt(n: int): string {
    if n < 0 then "-" + DecimalString(-n) else DecimalString(n)
  }

  /** The syntax base-10 ParseInt accepts: an optional '+' or '-', then one
      or more digits (leading zeros allowed). */
  predicate IsNumeral(s: string) {
    if |s| > 0 && (s[0] == '+' || s[0] == '-') then |s| > 1 && AllDigits(s[1..])
    else |s| > 0 && AllDigits(s)
  }

  /** The value a numeral denotes, before any range check. */
  function NumeralValue(s: string): int
    requires IsNumeral(s)
  {
    if s[0] == '-' then -(DecimalValue(s[1..]) as int)
    else if s[0] == '+' then DecimalValue(s[1..])
    else DecimalValue(s)
  }

  /**
   * strconv.Atoi on a 64-bit platform. Both of its error kinds (syntax and
   * range) are None here: every caller treats them alike.
   */
  function Atoi(s: string): (r: Option<int>)
    ensures r.Some? ==> MinInt64 <= r.value <= MaxInt64
    ensures r.Some? ==> |s| > 0 && (IsDigit(s[0]) || s[0] == '+' || s[0] == '-') && AllDigits(s[1..])
  {
    var neg := |s| > 0 && s[0] == '-';
    var digits := if |s| > 0 && (s[0] == '+' || s[0] == '-') then s[1..] else s;
    if digits == [] || !AllDigits(digits) then None
    else
      var magnitude: int := DecimalValue(digits);
      var v := if neg then -magnitude else magnitude;
      if v < MinInt64 || v > MaxInt64 then None else Some(v)
  }

  /** Exactly the numerals in the signed 64-bit range parse, each to the
      value it denotes. */
  lemma AtoiExactly(s: string)
    ensures Atoi(s).Some? <==> IsNumeral(s) && MinInt64 <= NumeralValue(s) <= MaxInt64
    ensures Atoi(s).Some? ==> Atoi(s).value == NumeralValue(s)
  {
  }

  lemma {:induction false} DecimalRoundTrip(n: nat)
    ensures DecimalValue(DecimalString(n)) == n
  {
    if n >= 10 {
      DecimalRoundTrip(n / 10);
      var s := DecimalString(n);
      assert s[..|s| - 1] == DecimalString(n / 10);
    }
  }

  /** Every id the handlers can be given back, written the way strconv.Itoa
      writes it, parses to itself. */
  lemma AtoiFormatInt(n: int)
    requires MinInt64 <= n <= MaxInt64
    ensures Atoi(FormatInt(n)) == Some(n)
  {
    var s := FormatInt(n);
    if n < 0 {
      var digits := DecimalString(-n);
      DecimalRoundTrip(-n);
      assert s == "-" + digits && s[0] == '-' && s[1..] == digits;
    } else {
      DecimalRoundTrip(n);
      assert s == DecimalString(n) && IsDigit(s[0]);
    }
  }

  /** A path whose suffix after the route prefix is an id spelled by FormatInt
      yields that id. */
  lemma ParsePathId(prefix: string, n: int)
    requires MinInt64 <= n <= MaxInt64
    ensures Atoi(TrimPrefix(prefix + FormatInt(n), prefix)) == Some(n)
  {
    assert TrimPrefix(prefix + FormatInt(n), prefix) == FormatInt(n);
    AtoiFormatInt(n);
  }

  /** The empty suffix ("/api/products/") is rejected. */
  lemma AtoiEmpty()
    ensures Atoi("") == None
  {
  }

  /** A suffix with a non-digit anywhere but a leading sign is rejected. */
  lemma AtoiRejects(s: string, k: nat)
    requires k < |s| && !IsDigit(s[k]) && (k > 0 || (s[0] != '+' && s[0] != '-'))
    ensures Atoi(s) == None
  {
  }

  /** Go's parser accepts a '+' sign, leading zeros and "-0". */
  lemma AtoiAcceptsNonCanonical()
    ensures Atoi("+7") == Some(7) && Atoi("007") == Some(7) && Atoi("-0") == Some(0)
  {
    assert IsNumeral("+7") && IsNumeral("007") && IsNumeral("-0");
    assert "007"[..2] == "00" && "00"[..1] == "0" && "0"[..0] == "";
    assert DecimalValue("007") == 7;
  }
}
