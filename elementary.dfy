/** The elementary real functions the transforms call (exp, log, log1m,
    log1p_exp, inv_logit, logit, sqrt). They are not defined here: a value of
    type Fns supplies them, and each law below names one fact about them that a
    proof relies on; a lemma or method asks only for the laws it needs. */
module Elementary {

  datatype Fns = Fns(
    exp: real -> real,
    log: real -> real,
    log1m: real -> real,
    log1pExp: real -> real,
    invLogit: real -> real,
    logit: real -> real,
    sqrt: real -> real,
    /** the IEEE result (an infinity or NaN) of dividing a by zero, which a
        real number cannot represent; it stays unspecified */
    divZero: real -> real)

  function Exp(fns: Fns, x: real): real { fns.exp(x) }
  function Log(fns: Fns, x: real): real { fns.log(x) }
  function Log1m(fns: Fns, x: real): real { fns.log1m(x) }
  function Log1pExp(fns: Fns, x: real): real { fns.log1pExp(x) }
  function InvLogit(fns: Fns, x: real): real { fns.invLogit(x) }
  function Logit(fns: Fns, x: real): real { fns.logit(x) }
  function Sqrt(fns: Fns, x: real): real { fns.sqrt(x) }

  ghost predicate ExpPositive(fns: Fns)
  {
    forall x: real :: Exp(fns, x) > 0.0
  }

  ghost predicate LogInvertsExp(fns: Fns)
  {
    forall a: real :: Log(fns, Exp(fns, a)) == a
  }

  ghost predicate InvLogitInUnit(fns: Fns)
  {
    forall a: real :: 0.0 < InvLogit(fns, a) < 1.0
  }

  ghost predicate LogitInvertsInvLogit(fns: Fns)
  {
    forall a: real :: Logit(fns, InvLogit(fns, a)) == a
  }

  /** The principal square root of a non-negative number. */
  ghost predicate SqrtSquares(fns: Fns)
  {
    forall a: real :: a >= 0.0 ==> Sqrt(fns, a) >= 0.0 && Sqrt(fns, a) * Sqrt(fns, a) == a
  }

  /** inv_logit(-log(m)) is the equal share 1/(m+1); the stick-breaking
      transform relies on it to centre its input at the uniform simplex. */
  ghost predicate EqualShare(fns: Fns)
  {
    forall m: real :: m > 0.0 ==> InvLogit(fns, -Log(fns, m)) == 1.0 / (m + 1.0)
  }

  /** Floating-point division: a / b, and the unspecified IEEE value when b is zero. */
  function Divide(fns: Fns, a: real, b: real): real
  {
    if b == 0.0 then fns.divZero(a) else a / b
  }

  /** Equal factors give equal products; the solver does not always
      rewrite inside a product of two unknowns by itself. */
  lemma ProductOfEquals(a: real, b: real, c: real, d: real)
    requires a == c && b == d
    ensures a * b == c * d
  {
  }
}
