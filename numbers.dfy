/** Fixed-width integers and their decimal text form: Rust's `u64`, its
    `str::parse::<u64>()` and its `Display` (`format!("{}", n)`). */
module Numbers {
  import opened Wrappers

  const U64_LIMIT: int := 0x1_0000_0000_0000_0000

  /** Rust's `u64`. */
  type U64 = x: int | 0 <= x < U64_LIMIT

  predicate IsDigit(c: char) {
    '0' <= c <= '9'
  }

  predicate AllDigits(s: string) {
    forall i :: 0 <= i < |s| ==> IsDigit(s[i])
  }

  /** The number written by a string of decimal digits, most significant first. */
  function DigitsValue(s: string): nat
    requires AllDigits(s)
  {
    if s == [] then 0
    else 10 * DigitsValue(s[..|s| - 1]) + (s[|s| - 1] as int - '0' as int)
  }

  /** `u64::from_str`: an optional leading '+', then one or more ASCII digits
      whose value fits in 64 bits; anything else (empty, '-', spaces, overflow)
      is an error. */
  function ParseU64(s: string): (r: Option<U64>)
    ensures r.Some? ==> |s| > 0
    ensures r.Some? && s[0] != '+' ==> AllDigits(s) && r.value == DigitsValue(s)
    ensures r.Some? && s[0] == '+' ==> |s| > 1 && AllDigits(s[1..]) && r.value == DigitsValue(s[1..])
  {
    var digits := if |s| > 0 && s[0] == '+' then s[1..] else s;
    if |digits| == 0 || !AllDigits(digits) then None
    else if DigitsValue(digits) < U64_LIMIT then Some(DigitsValue(digits))
    else None
  }

  /** Every non-empty run of digits, leading zeros included, parses to its
      value when that fits in 64 bits and is rejected otherwise; a '+' in
      front changes nothing. */
  lemma ParseDigitRun(d: string)
    requires |d| > 0 && AllDigits(d)
    ensures ParseU64(d) == (if DigitsValue(d) < U64_LIMIT then Some(DigitsValue(d)) else None)
    ensures ParseU64("+" + d) == ParseU64(d)
  {
    assert d[0] != '+' by { assert IsDigit(d[0]); }
    assert ("+" + d)[1..] == d;
  }

  function DigitChar(d: nat): (c: char)
    requires d < 10
    ensures IsDigit(c) && c as int - '0' as int == d
  {
    ('0' as int + d) as char
  }

  /** `Display` for an unsigned integer: shortest decimal form, no sign. */
  function ToDecimal(n: nat): (s: string)
    ensures |s| > 0 && AllDigits(s)
  {
    if n < 10 then [DigitChar(n)]
    else ToDecimal(n / 10) + [DigitChar(n % 10)]
  }

  lemma {:induction false} ToDecimalValue(n: nat)
    ensures DigitsValue(ToDecimal(n)) == n
  {
    var s := ToDecimal(n);
    if n >= 10 {
      ToDecimalValue(n / 10);
      assert s[..|s| - 1] == ToDecimal(n / 10);
    }
  }

  /** Parsing the decimal form of a u64 gives the number back: the text the
      ledger RPC sends for a ledger sequence always decodes. */
  lemma ParseToDecimal(n: U64)
    ensures ParseU64(ToDecimal(n)) == Some(n)
  {
    ToDecimalValue(n);
    assert ToDecimal(n)[0] != '+' by { assert IsDigit(ToDecimal(n)[0]); }
  }
}
