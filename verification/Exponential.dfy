/**
 Scores with -inf, and the exponential the kernels use, over the reals.

 exp2 and log2 are abstract: all that is assumed of them is `Lawful`.  Rounding is
 not modelled.
*/
module Exponential {

  /** A score: -inf or a real. */
  datatype Ext = NegInf | Fin(x: real)
  {
    function Plus(y: Ext): Ext { if NegInf? || y.NegInf? then NegInf else Fin(x + y.x) }

    function Max(y: Ext): Ext {
      if NegInf? then y else if y.NegInf? || y.x <= x then this else y
    }
  }

  /** exp2 and log2, and the natural logarithm of two. */
  datatype Exp2 = Exp2(e: real -> real, lg: real -> real, ln2: real)
  {
    /** exp2 of a score; exp2(-inf) is zero. */
    function Of(s: Ext): real { if s.NegInf? then 0.0 else e(s.x) }
  }

  ghost predicate SumLaw(x: Exp2, a: real, b: real) { x.e(a + b) == Mul(x.e(a), x.e(b)) }
  ghost predicate Positive(x: Exp2, a: real) { x.e(a) > 0.0 }
  ghost predicate Monotone(x: Exp2, a: real, b: real) { a <= b <==> x.e(a) <= x.e(b) }
  ghost predicate LogLaw(x: Exp2, a: real) { a > 0.0 ==> x.e(x.lg(a)) == a }

  ghost predicate Lawful(x: Exp2) {
    && x.ln2 > 0.0
    && (forall a, b :: SumLaw(x, a, b))
    && (forall a :: Positive(x, a))
    && (forall a, b :: Monotone(x, a, b))
    && (forall a :: LogLaw(x, a))
  }

  lemma Sum(x: Exp2, a: real, b: real)
    requires Lawful(x)
    ensures x.e(a + b) == Mul(x.e(a), x.e(b))
  {
    assert SumLaw(x, a, b);
  }

  lemma Pos(x: Exp2, a: real)
    requires Lawful(x)
    ensures x.e(a) > 0.0
  {
    assert Positive(x, a);
  }

  lemma Zero(x: Exp2)
    requires Lawful(x)
    ensures x.e(0.0) == 1.0
  {
    Sum(x, 0.0, 0.0);
    Pos(x, 0.0);
    var y := x.e(0.0);
    var z := 0.0 + 0.0;
    assert x.e(z) == Mul(y, y) && z == 0.0;
    DivIs(y, y, 1.0);
    DivIs(y, y, y);
  }

  lemma Injective(x: Exp2, a: real, b: real)
    requires Lawful(x) && x.e(a) == x.e(b)
    ensures a == b
  {
    assert Monotone(x, a, b) && Monotone(x, b, a);
  }

  lemma LogInverse(x: Exp2, a: real)
    requires Lawful(x) && a > 0.0
    ensures x.e(x.lg(a)) == a
  {
    assert LogLaw(x, a);
  }

  // ----- real arithmetic used throughout -----

  /** Multiplication, named so that equal factors visibly give equal products. */
  function Mul(a: real, b: real): real { a * b }

  lemma Same(x: Exp2, a: real, b: real)
    requires a == b
    ensures x.e(a) == x.e(b)
  {
  }

  lemma Distrib(a: real, b: real, c: real)
    ensures Mul(a, b + c) == Mul(a, b) + Mul(a, c)
    ensures Mul(b + c, a) == Mul(b, a) + Mul(c, a)
  {
  }

  lemma Assoc(a: real, b: real, c: real)
    ensures Mul(Mul(a, b), c) == Mul(a, Mul(b, c)) == Mul(Mul(a, c), b)
  {
  }

  lemma DivCancel(a: real, b: real, c: real)
    requires b != 0.0 && c != 0.0
    ensures Mul(b, c) != 0.0 && Mul(a, c) / Mul(b, c) == a / b
  {
    var q := a / b;
    assert q * b == a;
    assert q * (b * c) == a * c;
  }

  lemma DivIs(a: real, b: real, q: real)
    requires b != 0.0 && Mul(q, b) == a
    ensures a / b == q
  {
  }

  lemma MulPos(a: real, b: real)
    requires a > 0.0 && b > 0.0
    ensures Mul(a, b) > 0.0
  {
  }

  lemma MulMono(c: real, a: real, b: real)
    requires c > 0.0
    ensures a <= b <==> Mul(c, a) <= Mul(c, b)
    ensures a < b <==> Mul(c, a) < Mul(c, b)
  {
    Distrib(c, a, b - a);
    Distrib(c, b, a - b);
    if a < b { MulPos(c, b - a); } else if b < a { MulPos(c, a - b); }
  }
}
