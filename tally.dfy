/**
 * Totals of units: the multiset sum of what a function gives for each
 * element of a sequence. The stock of all producers and the reservations of
 * all carts are both such totals.
 */
module Tally {
  function Sum<X, P>(s: seq<X>, f: X -> multiset<P>): multiset<P>
  {
    if s == [] then multiset{} else f(s[0]) + Sum(s[1..], f)
  }

  /** Replacing one element changes the total by exactly the difference of its parts. */
  lemma {:induction false} SumUpdate<X, P>(s: seq<X>, f: X -> multiset<P>, i: nat, x: X)
    requires i < |s|
    ensures Sum(s[i := x], f) + f(s[i]) == Sum(s, f) + f(x)
  {
    if i == 0 {
      assert s[i := x][1..] == s[1..];
    } else {
      var t := s[i := x];
      assert t[0] == s[0] && t[1..] == s[1..][i - 1 := x] && s[1..][i - 1] == s[i];
      SumUpdate(s[1..], f, i - 1, x);
      calc {
        Sum(t, f) + f(s[i]);
        f(s[0]) + (Sum(s[1..][i - 1 := x], f) + f(s[1..][i - 1]));
        f(s[0]) + (Sum(s[1..], f) + f(x));
        Sum(s, f) + f(x);
      }
    }
  }

  /** Appending one element adds its part to the total. */
  lemma {:induction false} SumAppend<X, P>(s: seq<X>, f: X -> multiset<P>, x: X)
    ensures Sum(s + [x], f) == Sum(s, f) + f(x)
  {
    if s == [] {
      assert [x][1..] == [];
    } else {
      assert (s + [x])[1..] == s[1..] + [x];
      SumAppend(s[1..], f, x);
    }
  }

  /** Multiset sums cancel: equal totals with a common part agree without it. */
  lemma Cancel<P>(a: multiset<P>, b: multiset<P>, c: multiset<P>)
    requires a + c == b + c
    ensures a == b
  {
    forall x ensures a[x] == b[x] {
      assert (a + c)[x] == (b + c)[x];
    }
  }
}
