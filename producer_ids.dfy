/**
 * Producer identifiers. The marketplace names the producer registered n-th
 * (counting from 0) "prod" followed by the decimal digits of n; the model
 * indexes producers by n and proves that the names are pairwise distinct.
 */
module ProducerIds {
  function Digit(d: nat): (c: char)
    requires d < 10
    ensures '0' <= c <= '9' && c as int - '0' as int == d
  {
    ('0' as int + d) as char
  }

  /** Python's `str(n)` for a non-negative integer: digits only, no leading zero. */
  function Decimal(n: nat): (s: string)
    ensures |s| >= 1 && (n < 10 <==> |s| == 1)
    ensures forall i :: 0 <= i < |s| ==> '0' <= s[i] <= '9'
    ensures s[0] == '0' ==> n == 0
  {
    if n < 10 then [Digit(n)] else Decimal(n / 10) + [Digit(n % 10)]
  }

  /** `'prod' + str(n)`. */
  function ProducerName(n: nat): string
  {
    "prod" + Decimal(n)
  }

  /** Different numbers have different decimal renderings. */
  lemma {:induction false} DecimalInjective(a: nat, b: nat)
    requires Decimal(a) == Decimal(b)
    ensures a == b
  {
    if a >= 10 && b >= 10 {
      var sa, sb := Decimal(a), Decimal(b);
      assert sa[..|sa| - 1] == Decimal(a / 10);
      assert sb[..|sb| - 1] == Decimal(b / 10);
      DecimalInjective(a / 10, b / 10);
      assert Digit(a % 10) == sa[|sa| - 1] == Digit(b % 10);
    } else if a < 10 && b < 10 {
      assert Digit(a) == Decimal(a)[0];
    }
  }

  /** Producers registered at different times get different names. */
  lemma ProducerNameInjective(a: nat, b: nat)
    requires ProducerName(a) == ProducerName(b)
    ensures a == b
  {
    assert ProducerName(a)[4..] == Decimal(a);
    assert ProducerName(b)[4..] == Decimal(b);
    DecimalInjective(a, b);
  }
}
