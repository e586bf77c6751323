/**
 * The exact-fraction money type of the numeric package: a (num, den) pair
 * that is never reduced, where a zero denominator means zero. Values are a
 * datatype; the pointer-receiver methods that overwrite a Numeric in place
 * (Set, NegEqual, AddEqual, SubEqual) are methods of class NumericVar.
 */
module Numeric {
  import opened Wrappers
  import opened NumInt
  import opened Decimal

  datatype Numeric = Numeric(num: int, den: int)

  /** Numeric{}, the zero value of the Go struct. */
  const Nil := Numeric(0, 0)

  /** The number a value stands for: num / den, or 0 when den == 0. */
  function Real(z: Numeric): real
  {
    if z.den == 0 then 0.0 else z.num as real / z.den as real
  }

  /** New moves the sign of the denominator into the numerator. */
  function New(num: int, den: int): (z: Numeric)
    ensures z.den == Abs(den) && z.num == if den < 0 then -num else num
    ensures Real(z) == Real(Numeric(num, den))
  {
    if den < 0 then Numeric(-num, -den) else Numeric(num, den)
  }

  /**
   * FromString reads "n" as n/1 and "n/d" as New(n, d), splitting at the
   * first '/'; a zero denominator is accepted. A part that is not a signed
   * decimal integer is the error.
   */
  function FromString(v: string): (r: Result<Numeric, string>)
    ensures r.Success? ==> r.value.den >= 0
    ensures '/' !in v ==> r == (if Atoi(v).Some? then Success(Numeric(Atoi(v).value, 1)) else Failure(v))
    ensures '/' in v ==>
      var i := IndexByte(v, '/');
      && (r.Success? <==> Atoi(v[..i]).Some? && Atoi(v[i + 1..]).Some?)
      && (r.Success? ==> r.value == New(Atoi(v[..i]).value, Atoi(v[i + 1..]).value))
  {
    var idx := IndexByte(v, '/');
    if idx < 0 then
      match Atoi(v)
      case None => Failure(v)
      case Some(n) => Success(Numeric(n, 1))
    else
      match Atoi(v[..idx])
      case None => Failure(v[..idx])
      case Some(n) =>
        match Atoi(v[idx + 1..])
        case None => Failure(v[idx + 1..])
        case Some(d) => Success(if d < 0 then Numeric(-n, -d) else Numeric(n, d))
  }

  /** "0" for a zero denominator, the bare numerator over 1, "num/den" otherwise. */
  function String(z: Numeric): string
  {
    if z.den == 0 then "0"
    else if z.den == 1 then FormatInt(z.num)
    else FormatInt(z.num) + "/" + FormatInt(z.den)
  }

  /** Zero: the numerator or the denominator is 0. */
  predicate Zero(z: Numeric)
  {
    z.num == 0 || z.den == 0
  }

  /** Equal: any argument equals a zero receiver; otherwise the pairs must be identical. */
  predicate Equal(z: Numeric, x: Numeric)
  {
    if Zero(z) then true else z.num == x.num && z.den == x.den
  }

  /** Sign: 0 for a zero denominator, otherwise the sign of the numerator. */
  function Sign(z: Numeric): (s: int)
  {
    if z.den == 0 then 0 else if z.num > 0 then 1 else if z.num == 0 then 0 else -1
  }

  /** Neg: the numerator negated, the denominator kept. */
  function Neg(x: Numeric): (r: Numeric)
  {
    Numeric(-x.num, x.den)
  }

  /**
   * z + x as AddEqual computes it: a zero-denominator operand is the
   * identity, equal denominators add numerators, and otherwise both sides
   * are rescaled to the lcm of the denominators. Nothing is reduced.
   */
  function Add(z: Numeric, x: Numeric): Numeric
  {
    if x.den == 0 then z
    else if z.den == 0 then x
    else if z.den == x.den then Numeric(z.num + x.num, z.den)
    else
      var g := Lcm(z.den, x.den);
      Numeric(z.num * Quo(g, z.den) + x.num * Quo(g, x.den), g)
  }

  /** z - x as SubEqual computes it: z + Neg(x). */
  function Sub(z: Numeric, x: Numeric): Numeric
  {
    Add(z, Neg(x))
  }

  /**
   * For values without a negative denominator, Add keeps den >= 0 and adds
   * their values (given that Lcm of positive numbers is a positive common
   * multiple).
   */
  lemma AddIsSum(z: Numeric, x: Numeric)
    requires z.den >= 0 && x.den >= 0
    ensures Add(z, x).den >= 0 && Real(Add(z, x)) == Real(z) + Real(x)
  {
    if x.den != 0 && z.den != 0 {
      if z.den == x.den {
        SumOverCommon(z.num, x.num, z.den);
      } else {
        LcmSumIsSum(z, x);
      }
    }
  }

  /** Likewise Sub subtracts. */
  lemma SubIsDifference(z: Numeric, x: Numeric)
    requires z.den >= 0 && x.den >= 0
    ensures Sub(z, x).den >= 0 && Real(Sub(z, x)) == Real(z) - Real(x)
  {
    NegIsOpposite(x);
    AddIsSum(z, Neg(x));
  }

  lemma SumOverCommon(a: int, b: int, g: int)
    requires g > 0
    ensures (a + b) as real / g as real == a as real / g as real + b as real / g as real
  {
  }

  lemma ScaledFraction(n: int, d: int, p: int)
    requires d > 0 && p > 0
    ensures (n * p) as real / (d * p) as real == n as real / d as real
  {
    assert (n * p) as real == n as real * p as real;
    assert (d * p) as real == d as real * p as real;
  }

  /** A positive multiple g of d > 0 is Quo(g, d) times d, with a positive quotient. */
  lemma ExactQuotient(g: int, d: int)
    requires g > 0 && d > 0 && g % d == 0
    ensures Quo(g, d) > 0 && g == d * Quo(g, d)
  {
    assert g == d * (g / d) + g % d;
  }

  lemma LcmSumIsSum(z: Numeric, x: Numeric)
    requires z.den > 0 && x.den > 0 && z.den != x.den
    ensures var g := Lcm(z.den, x.den);
      g > 0 && Real(Numeric(z.num * Quo(g, z.den) + x.num * Quo(g, x.den), g)) == Real(z) + Real(x)
  {
    var g := Lcm(z.den, x.den);
    ExactQuotient(g, z.den);
    ExactQuotient(g, x.den);
    var p, q := Quo(g, z.den), Quo(g, x.den);
    SumOverCommon(z.num * p, x.num * q, g);
    ScaledFraction(z.num, z.den, p);
    ScaledFraction(x.num, x.den, q);
  }

  lemma NegIsOpposite(x: Numeric)
    ensures Real(Neg(x)) == -Real(x)
    ensures Zero(Neg(x)) == Zero(x) && Neg(x).den == x.den
    ensures Sign(Neg(x)) == -Sign(x)
  {
  }

  /** Zero holds exactly of the values that stand for 0. */
  lemma ZeroIffRealZero(z: Numeric)
    ensures Zero(z) <==> Real(z) == 0.0
  {
    if z.den != 0 && z.num != 0 {
      assert Real(z) * z.den as real == z.num as real;
    }
  }

  /** With a non-negative denominator, Sign is the sign of the number. */
  lemma SignIsSignOfReal(z: Numeric)
    requires z.den >= 0
    ensures Sign(z) == 1 <==> Real(z) > 0.0
    ensures Sign(z) == 0 <==> Real(z) == 0.0
    ensures Sign(z) == -1 <==> Real(z) < 0.0
  {
    ZeroIffRealZero(z);
    if z.den > 0 {
      assert Real(z) * z.den as real == z.num as real;
    }
  }

  /**
   * A zero receiver is Equal to every argument; a non-zero one only to an
   * identical pair.
   */
  lemma EqualIsZeroOrIdentity(z: Numeric, x: Numeric)
    ensures Equal(z, x) <==> Zero(z) || z == x
  {
  }

  /** Equal is not symmetric and does not reduce: 0/1 equals 5/1 but not conversely; 1/1 differs from 5/5. */
  lemma EqualIsAsymmetricAndUnreduced()
    ensures Equal(Numeric(0, 1), Numeric(5, 1)) && !Equal(Numeric(5, 1), Numeric(0, 1))
    ensures Real(Numeric(1, 1)) == Real(Numeric(5, 5)) && !Equal(Numeric(1, 1), Numeric(5, 5))
    ensures Equal(Numeric(1, 0), Numeric(7, 3)) && Equal(New(-1, 2), New(1, -2))
  {
  }

  /** String then FromString gives the pair back whenever den >= 1. */
  lemma FromStringOfString(z: Numeric)
    requires z.den >= 1
    ensures FromString(String(z)) == Success(z)
  {
    AtoiOfFormatInt(z.num);
    if z.den != 1 {
      AtoiOfFormatInt(z.den);
      var a, b := FormatInt(z.num), FormatInt(z.den);
      var s := a + "/" + b;
      assert s[..|a|] == a && s[|a|] == '/';
      assert IndexByte(s, '/') == |a| by {
        var i := IndexByte(s, '/');
        assert '/' !in a;
      }
      assert s[|a| + 1..] == b;
    }
  }

  /** A zero-denominator value prints as "0", which reads back as 0/1, an Equal value. */
  lemma FromStringOfStringZero(z: Numeric)
    requires z.den == 0
    ensures FromString(String(z)) == Success(Numeric(0, 1)) && Equal(z, Numeric(0, 1))
  {
    AtoiOfFormatInt(0);
  }

  /** New(j, j) is (|j|, |j|). */
  lemma NewOfEqualParts(j: int)
    ensures New(j, j) == Numeric(Abs(j), Abs(j))
  {
  }

  /** A zero-denominator operand is the identity of Add, even on the left. */
  lemma AddIdentity(z: Numeric, x: Numeric)
    ensures x.den == 0 ==> Add(z, x) == z
    ensures z.den == 0 && x.den != 0 ==> Add(z, x) == x
  {
  }

  /** Add with positive unequal denominators rescales to their lcm. */
  lemma AddRescalesToLcm(z: Numeric, x: Numeric)
    requires z.den > 0 && x.den > 0 && z.den != x.den
    ensures var g := Lcm(z.den, x.den);
      Add(z, x) == Numeric(z.num * (g / z.den) + x.num * (g / x.den), g)
  {
  }

  /** 1/2 + 1/3 rescales both to sixths. */
  lemma AddThirdsExample()
    ensures Add(New(1, 2), New(1, 3)) == Numeric(5, 6)
  {
    assert Gcd(2, 3) == 1;
    assert Lcm(2, 3) == 6;
    assert Quo(6, 2) == 3 && Quo(6, 3) == 2;
  }

  /** 1/2 + 5/10 rescales to tenths and is left unreduced. */
  lemma AddTenthsExample()
    ensures Add(New(1, 2), New(5, 10)) == Numeric(10, 10)
  {
    assert Gcd(2, 10) == 2;
    assert Lcm(2, 10) == 10;
    assert Quo(10, 2) == 5 && Quo(10, 10) == 1;
  }

  /** The sums the package's tests expect, unreduced: 1/2 + 5/10 is 10/10. */
  lemma AddExamples()
    ensures Add(New(150, 100), New(250, 100)) == Numeric(400, 100)
    ensures Add(New(1, 2), New(1, 3)) == Numeric(5, 6)
    ensures Add(New(1, 2), New(5, 10)) == Numeric(10, 10)
  {
    AddThirdsExample();
    AddTenthsExample();
  }

  /** A Numeric variable updated in place through a pointer receiver. */
  class NumericVar {
    var num: int
    var den: int

    function Value(): Numeric
      reads this
    {
      Numeric(num, den)
    }

    /** `var z numeric.Numeric`: the zero value. */
    constructor ()
      ensures Value() == Nil
    {
      num, den := 0, 0;
    }

    /** Set overwrites both fields with those of x. */
    method Set(x: Numeric)
      modifies this
      ensures Value() == x
    {
      num, den := x.num, x.den;
    }

    /** NegEqual negates the numerator only. */
    method NegEqual()
      modifies this
      ensures Value() == Neg(old(Value()))
      ensures Real(Value()) == -Real(old(Value()))
    {
      NegIsOpposite(Value());
      num := -num;
    }

    /** AddEqual: z += x. */
    method AddEqual(x: Numeric)
      modifies this
      ensures Value() == Add(old(Value()), x)
      ensures old(den) >= 0 && x.den >= 0 ==> den >= 0 && Real(Value()) == Real(old(Value())) + Real(x)
    {
      if den >= 0 && x.den >= 0 {
        AddIsSum(Value(), x);
      }
      if x.den == 0 {
        return;
      }
      if den == 0 {
        num := x.num;
        den := x.den;
        return;
      }
      if den == x.den {
        num := num + x.num;
        return;
      }
      var g := Lcm(den, x.den);
      num := num * Quo(g, den) + x.num * Quo(g, x.den);
      den := g;
    }

    /** SubEqual: z -= x, by adding Neg(x). */
    method SubEqual(x: Numeric)
      modifies this
      ensures Value() == Sub(old(Value()), x)
      ensures old(den) >= 0 && x.den >= 0 ==> den >= 0 && Real(Value()) == Real(old(Value())) - Real(x)
    {
      if den >= 0 && x.den >= 0 {
        SubIsDifference(Value(), x);
      }
      var y := Neg(x);
      AddEqual(y);
    }
  }
}
