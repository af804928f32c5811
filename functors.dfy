/** The functor classes F that the apply templates take: a static function
    F::f and its derivative, which receives the argument values and the value
    f already computed there. F itself is left abstract; the functors the
    apply tests use (exp_fun, hypot_fun, and the product by a constant that
    the tests multiply with) are defined over Elementary. */
module Functors {
  import opened Elementary

  /** A unary functor: f(x) and dx(x, fx). */
  datatype Unary = Unary(f: real -> real, dx: (real, real) -> real)

  /** A binary functor: f(x1, x2), dx1(x1, x2, fx) and dx2(x1, x2, fx). */
  datatype Binary = Binary(
    f: (real, real) -> real,
    dx1: (real, real, real) -> real,
    dx2: (real, real, real) -> real)

  function F(u: Unary, x: real): real { u.f(x) }
  function Dx(u: Unary, x: real, fx: real): real { u.dx(x, fx) }
  function F2(g: Binary, x1: real, x2: real): real { g.f(x1, x2) }
  function Dx1(g: Binary, x1: real, x2: real, fx: real): real { g.dx1(x1, x2, fx) }
  function Dx2(g: Binary, x1: real, x2: real, fx: real): real { g.dx2(x1, x2, fx) }

  /** exp_fun: f = exp, and the derivative is the value itself. */
  function ExpFun(fns: Fns): Unary
  {
    Unary(x => Exp(fns, x), (x, fx) => fx)
  }

  /** hypot_fun: f = sqrt(x1^2 + x2^2), dx1 = x1 / fx, dx2 = x2 / fx. */
  function HypotFun(fns: Fns): Binary
  {
    Binary(
      (x1, x2) => Sqrt(fns, x1 * x1 + x2 * x2),
      (x1, x2, fx) => Divide(fns, x1, fx),
      (x1, x2, fx) => Divide(fns, x2, fx))
  }

  /** The product x1 * x2, with dx1 = x2 and dx2 = x1; the tests scale a
      result by a double with it. */
  function TimesFun(): Binary
  {
    Binary((x1, x2) => x1 * x2, (x1, x2, fx) => x2, (x1, x2, fx) => x1)
  }

  lemma ZeroFactor(x: real, y: real)
    requires x * y == 0.0 && y > 0.0
    ensures x == 0.0
  {
  }

  /** Equal factors give equal products; the solver does not always
      substitute inside a product by itself. */
  lemma SameFactor(a: real, b: real, d: real)
    requires a == b
    ensures a * d == b * d
  {
  }

  /** hypot(3, 4) = 5, with partial derivatives 3/5 and 4/5. */
  lemma HypotThreeFour(fns: Fns)
    requires SqrtSquares(fns)
    ensures F2(HypotFun(fns), 3.0, 4.0) == 5.0
    ensures Dx1(HypotFun(fns), 3.0, 4.0, 5.0) == 0.6
    ensures Dx2(HypotFun(fns), 3.0, 4.0, 5.0) == 0.8
  {
    var s := Sqrt(fns, 25.0);
    assert s >= 0.0 && s * s == 25.0;
    assert (s - 5.0) * (s + 5.0) == s * s - 25.0;
    ZeroFactor(s - 5.0, s + 5.0);
    assert 3.0 * 3.0 + 4.0 * 4.0 == 25.0;
    assert F2(HypotFun(fns), 3.0, 4.0) == s;
  }
}
