/** Octets, as the wire formats of this project are made of. */
module Octets {
  import opened Wrappers

  type Byte = x: int | 0 <= x < 256

  const INT64_MAX: int := 0x7FFF_FFFF_FFFF_FFFF

  // ----- decimal numbers ------------------------------------------------------------------

  predicate IsDigit(b: Byte) {
    48 <= b <= 57
  }

  predicate AllDigits(s: seq<Byte>) {
    forall i :: 0 <= i < |s| ==> IsDigit(s[i])
  }

  /** Itoa of a count. */
  function Decimal(n: nat): (r: seq<Byte>)
    ensures r != [] && AllDigits(r)
  {
    if n < 10 then [48 + n] else Decimal(n / 10) + [48 + n % 10]
  }

  function DigitsValue(s: seq<Byte>): nat
    requires AllDigits(s)
  {
    if s == [] then 0 else 10 * DigitsValue(s[..|s| - 1]) + (s[|s| - 1] - 48)
  }

  /** ParseInt in base 10: an optional sign, then digits, within an int64. */
  function ParseInt(s: seq<Byte>): (r: Option<int>)
    ensures r.Some? ==> -INT64_MAX - 1 <= r.value <= INT64_MAX
  {
    var signed := s != [] && (s[0] == 43 || s[0] == 45);
    var digits := if signed then s[1..] else s;
    if digits == [] || !AllDigits(digits) then None else
    var n: int := if signed && s[0] == 45 then -(DigitsValue(digits) as int) else DigitsValue(digits) as int;
    if -INT64_MAX - 1 <= n <= INT64_MAX then Some(n) else None
  }

  lemma {:induction false} DecimalValue(n: nat)
    ensures DigitsValue(Decimal(n)) == n
  {
    if n >= 10 {
      DecimalValue(n / 10);
      var r := Decimal(n);
      assert r[..|r| - 1] == Decimal(n / 10);
    }
  }

  /** A count written out is read back. */
  lemma ParseDecimal(n: nat)
    requires n <= INT64_MAX
    ensures ParseInt(Decimal(n)) == Some(n)
  {
    DecimalValue(n);
    var r := Decimal(n);
    assert IsDigit(r[0]);
  }

  function Tens(k: nat): nat {
    if k == 0 then 1 else 10 * Tens(k - 1)
  }

  /** Small counts are short. */
  lemma {:induction false} DecimalShort(n: nat, k: nat)
    requires k >= 1 && n < Tens(k)
    ensures |Decimal(n)| <= k
  {
    if n >= 10 {
      DecimalShort(n / 10, k - 1);
    }
  }
}
