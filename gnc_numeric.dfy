/**
 * GncNumeric of model/gnc-numeric.go: the fraction type the split parser
 * uses. Construction and parsing normalise the denominator to be positive
 * and refuse a zero denominator. GCD and LCM carry a defect (the second
 * operand is overwritten by the first), so Add and Sub with different
 * denominators do not compute a sum; see GCD, AddIsNotSum and
 * HalfPlusThirdStaysHalf.
 */
module GncNumeric {
  import opened Wrappers
  import NumInt
  import opened Decimal
  import Numeric

  /** The (num, den) pair a GncNumeric holds. */
  datatype Fraction = Fraction(num: int, den: int)

  /** Why a text is not a GncNumeric: a part is not an integer, or the denominator is 0. */
  datatype ParseError = SyntaxError(text: string) | DivisionByZero(text: string)

  /** NewGncNumeric panics on a zero denominator and otherwise moves its sign into the numerator. */
  function NewGncNumeric(a: int, b: int): (n: Fraction)
    requires b != 0
    ensures n.den > 0 && n.den == Abs(b)
    ensures n.num * b == a * n.den
  {
    if b < 0 then Fraction(-a, -b) else Fraction(a, b)
  }

  const GncNumericZero := NewGncNumeric(0, 100)

  const GncNumericOne := NewGncNumeric(100, 100)

  lemma ZeroAndOne()
    ensures GncNumericZero == Fraction(0, 100)
    ensures GncNumericOne == Fraction(100, 100)
  {
  }

  /** Abs returns x or -x and is never negative. */
  function Abs(x: int): (r: int)
    ensures r >= 0 && (r == x || r == -x)
  {
    if x < 0 then -x else x
  }

  /**
   * What FromString stores: "n" is n/1; "n/d", split at the first '/', is
   * refused when d is 0 and otherwise normalised to a positive denominator.
   */
  function Parse(v: string): (r: Result<Fraction, ParseError>)
    ensures r.Success? ==> r.value.den > 0
    ensures '/' !in v ==> (r.Success? <==> Atoi(v).Some?) && (r.Success? ==> r.value == Fraction(Atoi(v).value, 1))
    ensures '/' in v ==>
      var i := IndexByte(v, '/');
      && (r.Success? <==> Atoi(v[..i]).Some? && Atoi(v[i + 1..]).Some? && Atoi(v[i + 1..]).value != 0)
      && (r.Success? ==> r.value == NewGncNumeric(Atoi(v[..i]).value, Atoi(v[i + 1..]).value))
      && (Atoi(v[..i]).Some? && Atoi(v[i + 1..]) == Some(0) ==> r == Failure(DivisionByZero(v)))
  {
    var idx := IndexByte(v, '/');
    if idx < 0 then
      match Atoi(v)
      case None => Failure(SyntaxError(v))
      case Some(n) => Success(Fraction(n, 1))
    else
      match Atoi(v[..idx])
      case None => Failure(SyntaxError(v[..idx]))
      case Some(n) =>
        match Atoi(v[idx + 1..])
        case None => Failure(SyntaxError(v[idx + 1..]))
        case Some(d) =>
          if d == 0 then Failure(DivisionByZero(v))
          else if d < 0 then Success(Fraction(-n, -d))
          else Success(Fraction(n, d))
  }

  /**
   * This parser and the numeric package's FromString agree on every text
   * except one whose denominator is 0: the numeric package accepts it as a
   * zero value, this one refuses it.
   */
  lemma ParseAgreesWithNumericFromString(v: string)
    ensures Parse(v).Success? ==> Numeric.FromString(v) == Success(Numeric.Numeric(Parse(v).value.num, Parse(v).value.den))
    ensures Numeric.FromString(v).Success? && Numeric.FromString(v).value.den != 0 ==>
      Parse(v) == Success(Fraction(Numeric.FromString(v).value.num, Numeric.FromString(v).value.den))
    ensures Numeric.FromString(v).Success? && Numeric.FromString(v).value.den == 0 ==> Parse(v) == Failure(DivisionByZero(v))
  {
  }

  /**
   * Sign inspects the numerator only; with the positive denominator the
   * caller is trusted to keep, that is the sign of the number.
   */
  function Sign(n: Fraction): (s: int)
    ensures s == 1 <==> n.num > 0
    ensures s == 0 <==> n.num == 0
    ensures s == -1 <==> n.num < 0
    ensures n.den > 0 ==> (s == 1 <==> n.num as real / n.den as real > 0.0)
    ensures n.den > 0 ==> (s == -1 <==> n.num as real / n.den as real < 0.0)
    ensures n.den > 0 ==> (s == 0 <==> n.num as real / n.den as real == 0.0)
  {
    if n.num > 0 then 1 else if n.num == 0 then 0 else -1
  }

  /**
   * What Add leaves in the receiver, given that LCM(a, b) is |a|: the
   * denominator stays |n.den| and x's numerator is scaled by the truncated
   * quotient |n.den| / x.den.
   */
  function Added(n: Fraction, x: Fraction): (r: Fraction)
    requires n.den == x.den || (n.den != 0 && x.den != 0)
  {
    if n.den == x.den then Fraction(n.num + x.num, n.den)
    else
      var g := Abs(n.den);
      Fraction(n.num * NumInt.Quo(g, n.den) + x.num * NumInt.Quo(g, x.den), g)
  }

  /** What Sub leaves in the receiver; the same as Added with x's numerator subtracted. */
  function Subtracted(n: Fraction, x: Fraction): (r: Fraction)
    requires n.den == x.den || (n.den != 0 && x.den != 0)
  {
    if n.den == x.den then Fraction(n.num - x.num, n.den)
    else
      var g := Abs(n.den);
      Fraction(n.num * NumInt.Quo(g, n.den) - x.num * NumInt.Quo(g, x.den), g)
  }

  /** With equal denominators Add and Sub combine numerators and keep the denominator. */
  lemma EqualDenominators(n: Fraction, x: Fraction)
    requires n.den == x.den
    ensures Added(n, x) == Fraction(n.num + x.num, n.den)
    ensures Subtracted(n, x) == Fraction(n.num - x.num, n.den)
  {
  }

  /**
   * With positive different denominators, Add keeps n.den and adds
   * x.num * (n.den / x.den) truncated; Sub subtracts the same term.
   */
  lemma DifferentDenominatorsKeepLeft(n: Fraction, x: Fraction)
    requires n.den > 0 && x.den > 0 && n.den != x.den
    ensures Added(n, x) == Fraction(n.num + x.num * (n.den / x.den), n.den)
    ensures Subtracted(n, x) == Fraction(n.num - x.num * (n.den / x.den), n.den)
  {
  }

  /**
   * As written, Add is not addition: 1/2 + 1/3 leaves 1/2, where the
   * numeric package's Add gives 5/6, the sum.
   */
  lemma AddIsNotSum()
    ensures Added(Fraction(1, 2), Fraction(1, 3)) == Fraction(1, 2)
    ensures Numeric.Add(Numeric.Numeric(1, 2), Numeric.Numeric(1, 3)) == Numeric.Numeric(5, 6)
    ensures Numeric.Real(Numeric.Numeric(5, 6)) != Numeric.Real(Numeric.Numeric(1, 2))
  {
    assert NumInt.Quo(2, 3) == 0;
    assert Numeric.Add(Numeric.Numeric(1, 2), Numeric.Numeric(1, 3)) == Numeric.Numeric(5, 6) by {
      Numeric.AddThirdsExample();
    }
    assert Numeric.Real(Numeric.Numeric(5, 6)) != Numeric.Real(Numeric.Numeric(1, 2));
  }

  /** GCD as written: `b` is overwritten by |a|, so the result is |a| whatever b is. */
  method GCD(a0: int, b0: int) returns (g: int)
    ensures g == Abs(a0)
  {
    var a := Abs(a0);
    var b := Abs(a);
    while b != 0
      invariant a == Abs(a0) && (b == a || b == 0)
      decreases b
    {
      a, b := b, a % b;
    }
    return a;
  }

  /** LCM as written: |a| for a != 0; for a == 0 the source divides by zero. */
  method LCM(a0: int, b0: int) returns (l: int)
    requires a0 != 0
    ensures l == Abs(a0)
  {
    var a := Abs(a0);
    var b := Abs(a);
    var g := GCD(a, b);
    l := (a / g) * b;
  }

  /** A GncNumeric that its methods update in place and return. */
  class GncNumeric {
    var num: int
    var den: int

    function Value(): Fraction
      reads this
    {
      Fraction(num, den)
    }

    /** GncNumeric{}: both fields zero. */
    constructor Empty()
      ensures Value() == Fraction(0, 0)
    {
      num, den := 0, 0;
    }

    /** The struct NewGncNumeric allocates. */
    constructor (a: int, b: int)
      requires b != 0
      ensures Value() == NewGncNumeric(a, b)
    {
      var n := NewGncNumeric(a, b);
      num, den := n.num, n.den;
    }

    /** FromString: on success the receiver holds the parsed pair; on error it is untouched. */
    method FromString(v: string) returns (err: Option<ParseError>)
      modifies this
      ensures Parse(v).Success? ==> err == None && Value() == Parse(v).value
      ensures Parse(v).Failure? ==> err == Some(Parse(v).error) && Value() == old(Value())
    {
      var idx := IndexByte(v, '/');
      if idx < 0 {
        var n := Atoi(v);
        if n.None? {
          return Some(SyntaxError(v));
        }
        num, den := n.value, 1;
      } else {
        var n := Atoi(v[..idx]);
        if n.None? {
          return Some(SyntaxError(v[..idx]));
        }
        var d := Atoi(v[idx + 1..]);
        if d.None? {
          return Some(SyntaxError(v[idx + 1..]));
        }
        var num1, den1 := n.value, d.value;
        if den1 == 0 {
          return Some(DivisionByZero(v));
        }
        if den1 < 0 {
          num1, den1 := -num1, -den1;
        }
        num, den := num1, den1;
      }
      return None;
    }

    /** Neg negates the numerator in place and returns the receiver. */
    method Neg() returns (r: GncNumeric)
      modifies this
      ensures r == this && Value() == Fraction(-old(num), old(den))
    {
      num := -num;
      return this;
    }

    /** Add: n += x as written, returning the receiver. */
    method Add(x: GncNumeric) returns (r: GncNumeric)
      requires den == x.den || (den != 0 && x.den != 0)
      modifies this
      ensures r == this && Value() == Added(old(Value()), old(x.Value()))
    {
      if den == x.den {
        num := num + x.num;
        return this;
      }
      var g := LCM(den, x.den);
      num := num * NumInt.Quo(g, den) + x.num * NumInt.Quo(g, x.den);
      den := g;
      return this;
    }

    /** Sub: n -= x as written, returning the receiver. */
    method Sub(x: GncNumeric) returns (r: GncNumeric)
      requires den == x.den || (den != 0 && x.den != 0)
      modifies this
      ensures r == this && Value() == Subtracted(old(Value()), old(x.Value()))
    {
      if den == x.den {
        num := num - x.num;
        return this;
      }
      var g := LCM(den, x.den);
      num := num * NumInt.Quo(g, den) - x.num * NumInt.Quo(g, x.den);
      den := g;
      return this;
    }
  }

  /** NewGncNumericFromString: a fresh GncNumeric holding the parsed pair, or the parse error. */
  method NewGncNumericFromString(v: string) returns (r: Result<GncNumeric, ParseError>)
    ensures Parse(v).Success? ==> r.Success? && fresh(r.value) && r.value.Value() == Parse(v).value
    ensures Parse(v).Failure? ==> r == Failure(Parse(v).error)
  {
    var n := new GncNumeric.Empty();
    var err := n.FromString(v);
    if err.Some? {
      return Failure(err.value);
    }
    return Success(n);
  }

  /** Running the methods on 1/2 and 1/3 leaves 1/2 in the receiver. */
  method HalfPlusThirdStaysHalf() returns (sum: Fraction)
    ensures sum == Fraction(1, 2)
  {
    var n := new GncNumeric(1, 2);
    var x := new GncNumeric(1, 3);
    var r := n.Add(x);
    sum := r.Value();
  }
}
