/** Go's base-10 integer parsing, as worker-manager reads a job priority with
    `strconv.Atoi` and the generated route reads a user id with `strconv.ParseInt(s, 10, 64)`.
    On a 64-bit platform the two accept the same strings: an optional sign
    followed by at least one decimal digit (leading zeros allowed, no underscores, no
    spaces), whose value fits in 64 bits. `FormatInt` is the decimal rendering and the
    partner that shows the parser loses nothing. */
module Numbers {
  import opened Wrappers

  const MinInt64: int := -0x8000_0000_0000_0000
  const MaxInt64: int := 0x7FFF_FFFF_FFFF_FFFF

  predicate InInt64(n: int) {
    MinInt64 <= n <= MaxInt64
  }

  predicate IsDigit(c: char) {
    '0' <= c <= '9'
  }

  predicate AllDigits(s: string) {
    forall i :: 0 <= i < |s| ==> IsDigit(s[i])
  }

  function DigitValue(c: char): nat
    requires IsDigit(c)
  {
    c as int - '0' as int
  }

  function DigitChar(d: nat): (c: char)
    requires d < 10
    ensures IsDigit(c) && DigitValue(c) == d
  {
    ('0' as int + d) as char
  }

  /** The value of a digit string, most significant digit first. */
  function DigitsValue(s: string): nat
    requires AllDigits(s)
    decreases |s|
  {
    if |s| == 0 then 0 else DigitsValue(s[..|s| - 1]) * 10 + DigitValue(s[|s| - 1])
  }

  /** The sign-stripped part of a numeral. */
  function Magnitude(s: string): string {
    if |s| > 0 && (s[0] == '-' || s[0] == '+') then s[1..] else s
  }

  predicate Negative(s: string) {
    |s| > 0 && s[0] == '-'
  }

  /** A well-formed numeral: optional sign, then at least one digit. */
  predicate Numeral(s: string) {
    |Magnitude(s)| > 0 && AllDigits(Magnitude(s))
  }

  /** The signed value a numeral denotes. */
  function NumeralValue(s: string): int
    requires Numeral(s)
  {
    if Negative(s) then 0 - DigitsValue(Magnitude(s)) else DigitsValue(Magnitude(s))
  }

  /** `strconv.ParseInt(s, 10, 64)`, and `strconv.Atoi(s)` with 64-bit `int`: accepted
      exactly when `s` is a numeral whose value fits in 64 bits. */
  function ParseInt64(s: string): (r: Option<int>)
    ensures r.Some? <==> (Numeral(s) && InInt64(NumeralValue(s)))
    ensures r.Some? ==> r.value == NumeralValue(s) && InInt64(r.value)
  {
    var digits := Magnitude(s);
    if |digits| == 0 || !AllDigits(digits) then None
    else
      var v: int := if Negative(s) then 0 - DigitsValue(digits) else DigitsValue(digits);
      if InInt64(v) then Some(v) else None
  }

  /** Decimal digits of a natural number, without leading zeros. */
  function FormatNat(n: nat): (s: string)
    ensures |s| > 0 && AllDigits(s) && DigitsValue(s) == n
    ensures s[0] == '0' ==> n == 0
    decreases n
  {
    if n < 10 then [DigitChar(n)]
    else
      var high := FormatNat(n / 10);
      var s := high + [DigitChar(n % 10)];
      assert s[..|s| - 1] == high;
      s
  }

  /** `strconv.Itoa` / `%d`: decimal with a leading '-' for negatives. */
  function FormatInt(n: int): string {
    if n < 0 then "-" + FormatNat(-n) else FormatNat(n)
  }

  /** Every 64-bit integer parses back from its decimal rendering. */
  lemma ParseFormat(n: int)
    requires InInt64(n)
    ensures ParseInt64(FormatInt(n)) == Some(n)
  {
    var s := FormatInt(n);
    if n < 0 {
      assert s[1..] == FormatNat(-n);
      assert Magnitude(s) == FormatNat(-n);
    } else {
      var d := FormatNat(n);
      assert IsDigit(d[0]);
      assert Magnitude(s) == d;
    }
  }
}
