/**
  JavaScript integer arithmetic used by the grid.

  JavaScript's `%` truncates toward zero (the remainder takes the sign of the
  dividend), whereas Dafny's `%` is Euclidean.  `Mod` is the repository's
  `mod(m, n) = (m % n + n) % n`, built on the truncating remainder.
*/
module JsMath {

  function Abs(n: int): nat
  {
    if n < 0 then -n else n
  }

  /** JavaScript `m % n` on integers; `n == 0` would give NaN. */
  function JsRem(m: int, n: int): (r: int)
    requires n != 0
    ensures Abs(r) < Abs(n)
    ensures m >= 0 ==> r >= 0
    ensures m < 0 ==> r <= 0
  {
    if m >= 0 then m % Abs(n) else -((-m) % Abs(n))
  }

  /**
    The repository's `mod(m, n)`: the result takes the divisor's sign, so a
    positive modulus always gives a value in `[0, n)`.
  */
  function Mod(m: int, n: int): (r: int)
    requires n != 0
    ensures n > 0 ==> 0 <= r < n
    ensures n < 0 ==> n < r <= 0
  {
    JsRem(JsRem(m, n) + n, n)
  }

  /** Euclidean division is unique: any decomposition with a remainder in range is Dafny's. */
  lemma {:induction false} EuclidUnique(a: int, n: int, q: int, r: int)
    requires n > 0
    requires a == q * n + r
    requires 0 <= r < n
    ensures a % n == r
    ensures a / n == q
  {
    var q', r' := a / n, a % n;
    assert (q - q') * n == r' - r;
    MultipleInOpenBand(q - q', n);
  }

  /** The only multiple of `n` strictly between `-n` and `n` is zero. */
  lemma MultipleInOpenBand(k: int, n: int)
    requires n > 0
    requires -n < k * n < n
    ensures k == 0
  {
    if k > 0 {
      AtLeastOnce(k, n);
    } else if k < 0 {
      AtLeastOnce(-k, n);
    }
  }

  lemma AtLeastOnce(k: int, n: int)
    requires k >= 1 && n > 0
    ensures k * n >= n
  {
  }

  /** The truncating remainder differs from its dividend by a multiple of the divisor. */
  lemma {:induction false} JsRemDivides(m: int, n: int)
    requires n != 0
    ensures exists q :: m == q * n + JsRem(m, n)
  {
    var a := Abs(n);
    if m >= 0 {
      assert m == (m / a) * a + m % a;
      if n > 0 {
        assert m == (m / a) * n + JsRem(m, n);
      } else {
        assert m == (-(m / a)) * n + JsRem(m, n);
      }
    } else {
      assert -m == ((-m) / a) * a + (-m) % a;
      if n > 0 {
        assert m == (-((-m) / a)) * n + JsRem(m, n);
      } else {
        assert m == ((-m) / a) * n + JsRem(m, n);
      }
    }
  }

  /** For a positive divisor the repository's `mod` is Dafny's Euclidean remainder. */
  lemma {:induction false} ModIsEuclidean(m: int, n: int)
    requires n > 0
    ensures Mod(m, n) == m % n
  {
    var r1 := JsRem(m, n);
    JsRemDivides(m, n);
    var q :| m == q * n + r1;
    var s := r1 + n;
    assert s >= 0;
    assert Mod(m, n) == s % n;
    if r1 >= 0 {
      assert s == 1 * n + r1;
      EuclidUnique(s, n, 1, r1);
      EuclidUnique(m, n, q, r1);
    } else {
      assert s == 0 * n + s;
      EuclidUnique(s, n, 0, s);
      assert m == (q - 1) * n + s;
      EuclidUnique(m, n, q - 1, s);
    }
  }

  /** `m - mod(m, n)` is a multiple of `n`. */
  lemma ModDivides(m: int, n: int)
    requires n > 0
    ensures (m - Mod(m, n)) % n == 0
  {
    ModIsEuclidean(m, n);
    EuclidUnique(m - m % n, n, m / n, 0);
  }

  /** `mod` leaves values already in `[0, n)` alone. */
  lemma ModOfSmall(m: int, n: int)
    requires 0 <= m < n
    ensures Mod(m, n) == m
  {
    ModIsEuclidean(m, n);
    EuclidUnique(m, n, 0, m);
  }

  /** `mod` is periodic with period `n`. */
  lemma {:induction false} ModPeriodic(m: int, k: int, n: int)
    requires n > 0
    ensures Mod(m + k * n, n) == Mod(m, n)
  {
    ModIsEuclidean(m, n);
    ModIsEuclidean(m + k * n, n);
    var q, r := m / n, m % n;
    assert m + k * n == (q + k) * n + r;
    EuclidUnique(m + k * n, n, q + k, r);
  }

  /** Adding to a reduced value and reducing again is the same as reducing once. */
  lemma {:induction false} ModAddReduced(m: int, d: int, n: int)
    requires n > 0
    ensures Mod(Mod(m, n) + d, n) == Mod(m + d, n)
  {
    ModIsEuclidean(m, n);
    var q := m / n;
    assert Mod(m, n) + d == (m + d) + (-q) * n;
    ModPeriodic(m + d, -q, n);
  }
}
