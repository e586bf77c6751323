/**
 * The earlier GncNumeric of model/numeric.go. Construction and parsing
 * store the pair verbatim: no sign normalisation and no zero check. Add,
 * GCD and LCM carry the same defect as the later variant.
 */
module GncNumericLegacy {
  import opened Wrappers
  import NumInt
  import opened Decimal

  datatype Fraction = Fraction(num: int, den: int)

  /** NewGncNumeric stores (a, b) as given. */
  function NewGncNumeric(a: int, b: int): (n: Fraction)
    ensures n.num == a && n.den == b
  {
    Fraction(a, b)
  }

  /** Abs returns x or -x and is never negative. */
  function Abs(x: int): (r: int)
    ensures r >= 0 && (r == x || r == -x)
  {
    if x < 0 then -x else x
  }

  /**
   * What FromString stores: "n" is n/1 and "n/d", split at the first '/',
   * is (n, d) verbatim, a zero or negative d included. The error is the
   * text that is not an integer.
   */
  function Parse(v: string): (r: Result<Fraction, string>)
    ensures '/' !in v ==> (r.Success? <==> Atoi(v).Some?) && (r.Success? ==> r.value == Fraction(Atoi(v).value, 1))
    ensures '/' in v ==>
      var i := IndexByte(v, '/');
      && (r.Success? <==> Atoi(v[..i]).Some? && Atoi(v[i + 1..]).Some?)
      && (r.Success? ==> r.value == Fraction(Atoi(v[..i]).value, Atoi(v[i + 1..]).value))
  {
    var idx := IndexByte(v, '/');
    if idx < 0 then
      match Atoi(v)
      case None => Failure(v)
      case Some(n) => Success(Fraction(n, 1))
    else
      match Atoi(v[..idx])
      case None => Failure(v[..idx])
      case Some(n) =>
        match Atoi(v[idx + 1..])
        case None => Failure(v[idx + 1..])
        case Some(d) => Success(Fraction(n, d))
  }

  /** "1/0" and "1/-2" parse, verbatim. */
  lemma ParseKeepsZeroAndNegativeDenominators()
    ensures Parse("1/0") == Success(Fraction(1, 0))
    ensures Parse("1/-2") == Success(Fraction(1, -2))
  {
    assert IndexByte("1/0", '/') == 1;
    assert IndexByte("1/-2", '/') == 1;
    assert "1/0"[..1] == "1" && "1/0"[2..] == "0";
    assert "1/-2"[..1] == "1" && "1/-2"[2..] == "-2";
    assert "-2"[1..] == "2";
  }

  /** What Add leaves in the receiver, given that LCM(a, b) is |a|. */
  function Added(n: Fraction, x: Fraction): (r: Fraction)
    requires n.den == x.den || (n.den != 0 && x.den != 0)
  {
    if n.den == x.den then Fraction(n.num + x.num, n.den)
    else
      var g := Abs(n.den);
      Fraction(n.num * NumInt.Quo(g, n.den) + x.num * NumInt.Quo(g, x.den), g)
  }

  /** Equal denominators: numerators add and the denominator stays. */
  lemma AddEqualDenominators(n: Fraction, x: Fraction)
    requires n.den == x.den
    ensures Added(n, x) == Fraction(n.num + x.num, n.den)
  {
  }

  /**
   * Different positive denominators: n.den stays and x.num * (n.den / x.den)
   * truncated is added, so 1/2 + 1/3 leaves 1/2.
   */
  lemma AddDifferentDenominatorsKeepsLeft(n: Fraction, x: Fraction)
    requires n.den > 0 && x.den > 0 && n.den != x.den
    ensures Added(n, x) == Fraction(n.num + x.num * (n.den / x.den), n.den)
    ensures Added(Fraction(1, 2), Fraction(1, 3)) == Fraction(1, 2)
  {
    assert NumInt.Quo(2, 3) == 0;
  }

  /** GCD as written: `b` is overwritten by |a|, so the result is |a|. */
  method GCD(a0: int, b0: int) returns (g: int)
    ensures g == Abs(a0)
  {
    var a := Abs(a0);
    var b := Abs(a);
    while b != 0
      invariant a == Abs(a0) && (b == a || b == 0)
      decreases b
    {
      a, b := b, a % b;
    }
    return a;
  }

  /** LCM as written: |a| for a != 0; for a == 0 the source divides by zero. */
  method LCM(a0: int, b0: int) returns (l: int)
    requires a0 != 0
    ensures l == Abs(a0)
  {
    var a := Abs(a0);
    var b := Abs(a);
    var g := GCD(a, b);
    l := (a / g) * b;
  }

  /** The earlier GncNumeric, updated in place by FromString and Add. */
  class GncNumeric {
    var num: int
    var den: int

    function Value(): Fraction
      reads this
    {
      Fraction(num, den)
    }

    /** GncNumeric{}: both fields zero. */
    constructor Empty()
      ensures Value() == Fraction(0, 0)
    {
      num, den := 0, 0;
    }

    /** The struct NewGncNumeric allocates. */
    constructor (a: int, b: int)
      ensures Value() == NewGncNumeric(a, b)
    {
      num, den := a, b;
    }

    /** FromString: on success the receiver holds the parsed pair; on error it is untouched. */
    method FromString(v: string) returns (err: Option<string>)
      modifies this
      ensures Parse(v).Success? ==> err == None && Value() == Parse(v).value
      ensures Parse(v).Failure? ==> err == Some(Parse(v).error) && Value() == old(Value())
    {
      var idx := IndexByte(v, '/');
      if idx < 0 {
        var n := Atoi(v);
        if n.None? {
          return Some(v);
        }
        num, den := n.value, 1;
      } else {
        var n := Atoi(v[..idx]);
        if n.None? {
          return Some(v[..idx]);
        }
        var d := Atoi(v[idx + 1..]);
        if d.None? {
          return Some(v[idx + 1..]);
        }
        num, den := n.value, d.value;
      }
      return None;
    }

    /** Add: n += x as written. */
    method Add(x: GncNumeric)
      requires den == x.den || (den != 0 && x.den != 0)
      modifies this
      ensures Value() == Added(old(Value()), old(x.Value()))
    {
      if den == x.den {
        num := num + x.num;
        return;
      }
      var g := LCM(den, x.den);
      num := num * NumInt.Quo(g, den) + x.num * NumInt.Quo(g, x.den);
      den := g;
    }
  }

  /** NewGncNumericFromString: a fresh GncNumeric holding the parsed pair, or the parse error. */
  method NewGncNumericFromString(v: string) returns (r: Result<GncNumeric, string>)
    ensures Parse(v).Success? ==> r.Success? && fresh(r.value) && r.value.Value() == Parse(v).value
    ensures Parse(v).Failure? ==> r == Failure(Parse(v).error)
  {
    var n := new GncNumeric.Empty();
    var err := n.FromString(v);
    if err.Some? {
      return Failure(err.value);
    }
    return Success(n);
  }
}
