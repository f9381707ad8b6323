/**
 * The C integer operators the controller relies on, written out because Dafny's
 * `/` on `int` is Euclidean while C's `/` truncates toward zero.
 */
module CArith {

  /** Absolute value, as C's `abs`. */
  function Abs(x: int): (r: nat)
    ensures r == x || r == -x
  {
    if x < 0 then -x else x
  }

  /** C's `n / d` for a positive divisor: the quotient is rounded toward zero. */
  function TruncDiv(n: int, d: int): (q: int)
    requires d > 0
    ensures n >= 0 ==> q >= 0
    ensures n <= 0 ==> q <= 0
  {
    if n >= 0 then n / d else -((-n) / d)
  }

  /** The magnitude of the truncating quotient is the floor of |n| / d. */
  lemma TruncDivIsTruncation(n: int, d: int)
    requires d > 0
    ensures Abs(TruncDiv(n, d)) * d <= Abs(n) < (Abs(TruncDiv(n, d)) + 1) * d
  {
    var m := Abs(n);
    var q := m / d;
    assert Abs(TruncDiv(n, d)) == q by {
      if n < 0 {
        assert TruncDiv(n, d) == -q;
      }
    }
    assert q * d <= m < q * d + d by {
      assert m == q * d + m % d;
    }
    assert (q + 1) * d == q * d + d;
  }

  /** The truncating quotient is the unique one with those two properties. */
  lemma TruncDivUnique(n: int, d: int, q: int)
    requires d > 0
    requires Abs(q) * d <= Abs(n) < (Abs(q) + 1) * d
    requires (n >= 0 ==> q >= 0) && (n <= 0 ==> q <= 0)
    ensures q == TruncDiv(n, d)
  {
    TruncDivIsTruncation(n, d);
    var t := TruncDiv(n, d);
    if Abs(q) < Abs(t) {
      MulMonotone(Abs(q) + 1, Abs(t), d);
    } else if Abs(t) < Abs(q) {
      MulMonotone(Abs(t) + 1, Abs(q), d);
    }
  }

  /** A quotient of something at most k times the divisor is at most k. */
  lemma TruncDivBound(n: int, d: int, k: nat)
    requires d > 0
    requires Abs(n) <= k * d
    ensures Abs(TruncDiv(n, d)) <= k
  {
    TruncDivIsTruncation(n, d);
    var q := TruncDiv(n, d);
    if Abs(q) > k {
      MulMonotone(k + 1, Abs(q), d);
    }
  }

  lemma MulMonotone(a: int, b: int, d: int)
    requires a <= b && d > 0
    ensures a * d <= b * d
  {
  }

  /** Where the two conventions part: C gives -3 for -7 / 2, Dafny gives -4. */
  lemma TruncDivOfNegative()
    ensures TruncDiv(-7, 2) == -3 && -7 / 2 == -4
  {
  }
}
