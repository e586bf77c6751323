/**
 * Integer helpers of the numeric package (`numint`, `gcd`, `lcm`), whose
 * source file is not part of this model: they are specified from the
 * package's tests. Also Go's truncating division, which the GncNumeric
 * variants use on possibly negative denominators.
 */
module NumInt {

  function Abs(x: int): (r: nat)
    ensures r == x || r == -x
  {
    if x < 0 then -x else x
  }

  /** `d` is a positive divisor of `n`. */
  predicate Divides(d: int, n: int)
  {
    d > 0 && n % d == 0
  }

  /** Go's integer `/`: the quotient is truncated toward zero. */
  function Quo(a: int, b: int): (q: int)
    requires b != 0
    ensures a >= 0 && b > 0 ==> q == a / b
    ensures Abs(q) == Abs(a) / Abs(b)
  {
    var n: int := Abs(a) / Abs(b);
    assert n >= 0;
    if (a < 0) == (b < 0) then n else -n
  }

  lemma MultipleBelowIsZero(m: int, g: int)
    requires g > 0 && 0 <= m * g < g
    ensures m == 0
  {
    if m >= 1 {
      ProductAtLeast(m, g);
    } else if m <= -1 {
      ProductAtLeast(-m, g);
    }
  }

  lemma ProductAtLeast(m: int, g: int)
    requires m >= 1 && g > 0
    ensures m * g >= g
  {
    assert m * g == (m - 1) * g + g;
    assert (m - 1) * g >= 0;
  }

  /** Division of an exact multiple gives back the factor. */
  lemma DivMultiple(k: int, g: int)
    requires g > 0
    ensures (k * g) % g == 0 && (k * g) / g == k
  {
    var q, r := (k * g) / g, (k * g) % g;
    assert k * g == q * g + r;
    assert (k - q) * g == r;
    MultipleBelowIsZero(k - q, g);
  }

  /** A common divisor of `a` and `b` divides `q * a + b`. */
  lemma DividesCombination(d: int, a: int, b: int, q: int)
    requires Divides(d, a) && Divides(d, b)
    ensures Divides(d, q * a + b)
  {
    var ka, kb := a / d, b / d;
    assert a == ka * d;
    assert b == kb * d;
    assert q * a + b == (q * ka + kb) * d;
    DivMultiple(q * ka + kb, d);
  }

  /** Euclid's algorithm on non-negative operands. */
  function Euclid(x: nat, y: nat): (g: nat)
    ensures g == 0 <==> x == 0 && y == 0
    ensures g > 0 ==> Divides(g, x) && Divides(g, y)
    ensures forall d {:trigger Divides(d, g)} :: Divides(d, x) && Divides(d, y) ==> Divides(d, g)
    decreases y
  {
    if y == 0 then x
    else
      var g := Euclid(y, x % y);
      assert x == (x / y) * y + x % y;
      DividesCombination(g, y, x % y, x / y);
      forall d | Divides(d, x) && Divides(d, y) ensures Divides(d, g) {
        DividesCombination(d, y, x, -(x / y));
        assert -(x / y) * y + x == x % y;
      }
      g
  }

  /**
   * `gcd` ignores the signs of its operands and gcd(0, 0) = 0; the result is
   * a common divisor that every common divisor divides.
   */
  function Gcd(a: int, b: int): (g: nat)
    ensures g == 0 <==> a == 0 && b == 0
    ensures g > 0 ==> Divides(g, Abs(a)) && Divides(g, Abs(b))
    ensures forall d {:trigger Divides(d, g)} :: Divides(d, Abs(a)) && Divides(d, Abs(b)) ==> Divides(d, g)
  {
    Euclid(Abs(a), Abs(b))
  }

  /**
   * `lcm` is 0 when either operand is 0; otherwise it is the positive
   * common multiple (|a| / gcd(a, b)) * |b|.
   */
  function Lcm(a: int, b: int): (l: nat)
    ensures l == 0 <==> a == 0 || b == 0
    ensures l > 0 ==> Divides(Abs(a), l) && Divides(Abs(b), l)
  {
    if a == 0 || b == 0 then 0
    else
      var g := Gcd(a, b);
      var p, q := Abs(a) / g, Abs(b) / g;
      assert Abs(a) == p * g && Abs(b) == q * g;
      assert p > 0;
      assert p * Abs(b) == (p * q) * g;
      assert p * Abs(b) == q * Abs(a);
      DivMultiple(p, Abs(b));
      DivMultiple(q, Abs(a));
      p * Abs(b)
  }

  /**
   * lcm is the least common multiple: times the gcd it gives |a| * |b|,
   * and the gcd is pinned by its own contract.
   */
  lemma LcmTimesGcd(a: int, b: int)
    ensures Lcm(a, b) * Gcd(a, b) == Abs(a) * Abs(b)
  {
    if a != 0 && b != 0 {
      var g := Gcd(a, b);
      var p := Abs(a) / g;
      assert Abs(a) == p * g;
      assert Lcm(a, b) == p * Abs(b);
      assert (p * Abs(b)) * g == (p * g) * Abs(b);
    }
  }

  /** The package's lcm table, numeric/numint_test.go. */
  lemma LcmTable()
    ensures Lcm(7, 3) == 21 && Lcm(7, -3) == 21 && Lcm(-7, -3) == 21 && Lcm(-7, 3) == 21
    ensures Lcm(15, 6) == 30 && Lcm(15, -6) == 30 && Lcm(-15, -6) == 30 && Lcm(-15, 6) == 30
    ensures Lcm(2, 0) == 0 && Lcm(0, 2) == 0 && Lcm(-2, 0) == 0 && Lcm(0, -2) == 0 && Lcm(0, 0) == 0
    ensures Lcm(65535, 500) == 6553500
  {
    assert Euclid(1, 0) == 1 && Euclid(3, 1) == 1 && Euclid(7, 3) == 1;
    assert Gcd(7, 3) == 1 && Gcd(7, -3) == 1 && Gcd(-7, -3) == 1 && Gcd(-7, 3) == 1;
    assert Euclid(3, 0) == 3 && Euclid(6, 3) == 3 && Euclid(15, 6) == 3;
    assert Gcd(15, 6) == 3 && Gcd(15, -6) == 3 && Gcd(-15, -6) == 3 && Gcd(-15, 6) == 3;
    assert Euclid(5, 0) == 5 && Euclid(10, 5) == 5 && Euclid(35, 10) == 5;
    assert Euclid(500, 35) == 5 && Euclid(65535, 500) == 5;
    assert Gcd(65535, 500) == 5;
  }
}
