/** Decimal text of unsigned numbers, as order sizes travel between the services. */
module Decimal {
  import opened Options
  import opened Numbers

  /** Unicode's White_Space characters, which `str::trim` removes. */
  predicate IsWhitespace(c: char)
  {
    var n := c as int;
    9 <= n <= 13 || n in {32, 0x85, 0xA0, 0x1680, 0x2028, 0x2029, 0x202F, 0x205F, 0x3000} || 0x2000 <= n <= 0x200A
  }

  function TrimStart(s: string): string
  {
    if s != "" && IsWhitespace(s[0]) then TrimStart(s[1..]) else s
  }

  function TrimEnd(s: string): string
  {
    if s != "" && IsWhitespace(s[|s| - 1]) then TrimEnd(s[..|s| - 1]) else s
  }

  /** `str::trim` */
  function Trim(s: string): string { TrimEnd(TrimStart(s)) }

  predicate IsDecimal(s: string) { forall i :: 0 <= i < |s| ==> '0' <= s[i] <= '9' }

  function ValueOf(s: string): nat
    requires IsDecimal(s)
  {
    if s == "" then 0 else 10 * ValueOf(s[..|s| - 1]) + ((s[|s| - 1] as int) - ('0' as int))
  }

  /** `parse_u128_decimal`: trimmed, an optional plus sign, then digits that fit 128 bits. */
  function ParseU128(s: string): Result<nat>
  {
    var trimmed := Trim(s);
    var digits := if trimmed != "" && trimmed[0] == '+' then trimmed[1..] else trimmed;
    if digits == "" || !IsDecimal(digits) || ValueOf(digits) > U128_MAX then Err else Ok(ValueOf(digits))
  }

  /** `to_string` of an unsigned number. */
  function ToString(n: nat): (r: string)
    ensures r != "" && IsDecimal(r)
  {
    (if n < 10 then "" else ToString(n / 10)) + [((n % 10) + ('0' as int)) as char]
  }

  lemma {:induction false} ToStringValue(n: nat)
    ensures ValueOf(ToString(n)) == n
  {
    if n >= 10 {
      ToStringValue(n / 10);
      assert ToString(n)[..|ToString(n)| - 1] == ToString(n / 10);
    } else {
      assert ToString(n)[..0] == "";
    }
  }

  /** A printed size is read back unchanged. */
  lemma ParsePrinted(n: nat)
    requires n <= U128_MAX
    ensures ParseU128(ToString(n)) == Ok(n)
  {
    ToStringValue(n);
    var s := ToString(n);
    assert '0' <= s[0] <= '9' && '0' <= s[|s| - 1] <= '9';
  }
}
