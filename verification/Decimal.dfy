/** Decimal rendering of counters, as used in generated names and ids. */
module Decimal {
  import opened Basics

  function Digit(d: nat): char
    requires d < 10
  {
    ('0' as int + d) as char
  }

  function ToString(n: nat): (s: string)
    ensures |s| > 0
    ensures forall i :: 0 <= i < |s| ==> '0' <= s[i] <= '9'
  {
    if n < 10 then [Digit(n)] else ToString(n / 10) + [Digit(n % 10)]
  }

  function Value(s: string): nat
    requires forall i :: 0 <= i < |s| ==> '0' <= s[i] <= '9'
  {
    if s == [] then 0
    else 10 * Value(s[..|s| - 1]) + (s[|s| - 1] as int - '0' as int)
  }

  lemma {:induction false} RoundTrip(n: nat)
    ensures Value(ToString(n)) == n
  {
    if n < 10 {
      assert ToString(n)[..0] == [];
    } else {
      RoundTrip(n / 10);
      assert ToString(n)[..|ToString(n)| - 1] == ToString(n / 10);
    }
  }

  /** Different numbers never render alike. */
  lemma Injective(a: nat, b: nat)
    requires ToString(a) == ToString(b)
    ensures a == b
  {
    RoundTrip(a);
    RoundTrip(b);
  }

  /** An unsigned number below `limit`: digits after an optional plus sign. */
  function Parse(s: string, limit: nat): Option<nat> {
    var digits := if s != "" && s[0] == '+' then s[1..] else s;
    if digits == "" || exists i :: 0 <= i < |digits| && !('0' <= digits[i] <= '9') then None
    else
      var value := Value(digits);
      if value < limit then Some(value) else None
  }

  lemma ParseToString(n: nat, limit: nat)
    ensures Parse(ToString(n), limit) == if n < limit then Some(n) else None
  {
    RoundTrip(n);
  }

  lemma Examples()
    ensures ToString(0) == "0" && ToString(7) == "7" && ToString(120) == "120" && ToString(65) == "65"
  {
    assert ToString(12) == ToString(1) + [Digit(2)];
    assert ToString(120) == ToString(12) + [Digit(0)];
    assert ToString(65) == ToString(6) + [Digit(5)];
  }
}
