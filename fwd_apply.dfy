/** Forward-mode apply<F>: an fvar carries a value and a tangent, and
    applying F to fvars yields F's value and the tangent pushed through F's
    partial derivatives. The tangent type T is fixed to real. */
module FwdApply {
  import opened Elementary
  import opened Functors
  import opened RevTape

  /** fvar<double>: a value and its tangent (directional derivative). */
  datatype Fvar = Fvar(val: real, d: real)

  /** apply<F>(fvar x): value F::f(x.val), tangent x.d * F::dx(x.val, fx). */
  function ApplyUnary(u: Unary, x: Fvar): (r: Fvar)
    ensures r.val == F(u, x.val)
    ensures x.d == 0.0 ==> r.d == 0.0
  {
    var fx := F(u, x.val);
    Fvar(fx, x.d * Dx(u, x.val, fx))
  }

  /** apply<F>(fvar x1, fvar x2): both tangents contribute. */
  function ApplyVV(g: Binary, x1: Fvar, x2: Fvar): (r: Fvar)
    ensures r.val == F2(g, x1.val, x2.val)
    ensures x1.d == 0.0 && x2.d == 0.0 ==> r.d == 0.0
  {
    var fx := F2(g, x1.val, x2.val);
    Fvar(fx, x1.d * Dx1(g, x1.val, x2.val, fx) + x2.d * Dx2(g, x1.val, x2.val, fx))
  }

  /** apply<F>(fvar x1, double x2): only x1's tangent contributes. */
  function ApplyVD(g: Binary, x1: Fvar, x2: real): (r: Fvar)
    ensures r.val == F2(g, x1.val, x2)
    ensures x1.d == 0.0 ==> r.d == 0.0
  {
    var fx := F2(g, x1.val, x2);
    Fvar(fx, x1.d * Dx1(g, x1.val, x2, fx))
  }

  /** apply<F>(double x1, fvar x2): only x2's tangent contributes. */
  function ApplyDV(g: Binary, x1: real, x2: Fvar): (r: Fvar)
    ensures r.val == F2(g, x1, x2.val)
    ensures x2.d == 0.0 ==> r.d == 0.0
  {
    var fx := F2(g, x1, x2.val);
    Fvar(fx, x2.d * Dx2(g, x1, x2.val, fx))
  }

  /** A double argument behaves as an fvar whose tangent is zero. */
  lemma VDIsConstantSecond(g: Binary, x1: Fvar, x2: real)
    ensures ApplyVD(g, x1, x2) == ApplyVV(g, x1, Fvar(x2, 0.0))
  {
  }

  lemma DVIsConstantFirst(g: Binary, x1: real, x2: Fvar)
    ensures ApplyDV(g, x1, x2) == ApplyVV(g, Fvar(x1, 0.0), x2)
  {
  }

  /** The tangent is linear in the input tangents: scaling the seed scales
      the result, for any functor. */
  lemma TangentScales(g: Binary, v1: real, v2: real, t1: real, t2: real, a: real)
    ensures ApplyVV(g, Fvar(v1, a * t1), Fvar(v2, a * t2)).d == a * ApplyVV(g, Fvar(v1, t1), Fvar(v2, t2)).d
  {
    var fx := F2(g, v1, v2);
    var p, q := Dx1(g, v1, v2, fx), Dx2(g, v1, v2, fx);
    assert (a * t1) * p + (a * t2) * q == a * (t1 * p + t2 * q);
  }

  /** Forward and reverse mode agree on apply<F>(x): the tangent is x's
      tangent times the adjoint the reverse sweep gives x on the tape
      holding x and the fun_v_vari node. */
  lemma UnaryForwardIsReverse(u: Unary, x: Fvar, nodes: seq<Node>, vals: seq<real>, root: nat)
    requires |nodes| == 2 && |vals| == 2 && root == 1
    requires nodes[0] == Leaf && nodes[1] == UnaryNode(u, 0)
    requires vals[0] == x.val && vals[1] == F(u, x.val)
    ensures ApplyUnary(u, x).d == x.d * Sweep(nodes, vals, Seed(|nodes|, root), root + 1)[0]
  {
    var a0 := Seed(|nodes|, root);
    var a1 := ChainStep(nodes, vals, a0, 1);
    ChainEffect(nodes, vals, a0, 1, 0);
    SweepOverLeaves(nodes, vals, a1, 1);
    SameFactor(Sweep(nodes, vals, a0, root + 1)[0], Dx(u, x.val, F(u, x.val)), x.d);
  }

  /** The same for apply<F>(x1, x2) and the fun_vv_vari node: the tangent
      is the seed tangents dotted with the reverse-mode gradient. */
  lemma BinaryForwardIsReverse(g: Binary, x1: Fvar, x2: Fvar, nodes: seq<Node>, vals: seq<real>, root: nat)
    requires |nodes| == 3 && |vals| == 3 && root == 2
    requires nodes[0] == Leaf && nodes[1] == Leaf && nodes[2] == BinaryNode(g, 0, 1)
    requires vals[0] == x1.val && vals[1] == x2.val && vals[2] == F2(g, x1.val, x2.val)
    ensures var r := Sweep(nodes, vals, Seed(|nodes|, root), root + 1);
      ApplyVV(g, x1, x2).d == x1.d * r[0] + x2.d * r[1]
  {
    var a0 := Seed(|nodes|, root);
    var a1 := ChainStep(nodes, vals, a0, 2);
    ChainEffect(nodes, vals, a0, 2, 0);
    ChainEffect(nodes, vals, a0, 2, 1);
    SweepOverLeaves(nodes, vals, a1, 2);
    var r := Sweep(nodes, vals, a0, root + 1);
    var fx := F2(g, x1.val, x2.val);
    SameFactor(r[0], Dx1(g, x1.val, x2.val, fx), x1.d);
    SameFactor(r[1], Dx2(g, x1.val, x2.val, fx), x2.d);
  }

  /** The same for apply<F>(x1, double) and the fun_vd_vari node. */
  lemma VDForwardIsReverse(g: Binary, x1: Fvar, x2: real, nodes: seq<Node>, vals: seq<real>, root: nat)
    requires |nodes| == 2 && |vals| == 2 && root == 1
    requires nodes[0] == Leaf && nodes[1] == BinaryVD(g, 0, x2)
    requires vals[0] == x1.val && vals[1] == F2(g, x1.val, x2)
    ensures ApplyVD(g, x1, x2).d == x1.d * Sweep(nodes, vals, Seed(|nodes|, root), root + 1)[0]
  {
    var a0 := Seed(|nodes|, root);
    var a1 := ChainStep(nodes, vals, a0, 1);
    ChainEffect(nodes, vals, a0, 1, 0);
    SweepOverLeaves(nodes, vals, a1, 1);
    SameFactor(Sweep(nodes, vals, a0, root + 1)[0], Dx1(g, x1.val, x2, F2(g, x1.val, x2)), x1.d);
  }

  /** The same for apply<F>(double, x2) and the fun_dv_vari node. */
  lemma DVForwardIsReverse(g: Binary, x1: real, x2: Fvar, nodes: seq<Node>, vals: seq<real>, root: nat)
    requires |nodes| == 2 && |vals| == 2 && root == 1
    requires nodes[0] == Leaf && nodes[1] == BinaryDV(g, x1, 0)
    requires vals[0] == x2.val && vals[1] == F2(g, x1, x2.val)
    ensures ApplyDV(g, x1, x2).d == x2.d * Sweep(nodes, vals, Seed(|nodes|, root), root + 1)[0]
  {
    var a0 := Seed(|nodes|, root);
    var a1 := ChainStep(nodes, vals, a0, 1);
    ChainEffect(nodes, vals, a0, 1, 0);
    SweepOverLeaves(nodes, vals, a1, 1);
    SameFactor(Sweep(nodes, vals, a0, root + 1)[0], Dx2(g, x1, x2.val, F2(g, x1, x2.val)), x2.d);
  }

  /** dx_fvar_dbl: exp at (-3, tangent 1.7) has tangent 1.7 * exp(-3). */
  lemma ExpTangent(fns: Fns)
    ensures ApplyUnary(ExpFun(fns), Fvar(-3.0, 1.7)) == Fvar(Exp(fns, -3.0), 1.7 * Exp(fns, -3.0))
  {
  }

  /** dx_ffd_fvar_dbl with T = real: exp(x * 1.9) at x = -2 has tangent
      1.9 * exp(-3.8) when x is seeded, and 0 when x's tangent is 0. */
  lemma ExpOfScaledTangent(fns: Fns)
    ensures ApplyUnary(ExpFun(fns), ApplyVD(TimesFun(), Fvar(-2.0, 1.0), 1.9)) == Fvar(Exp(fns, -3.8), 1.9 * Exp(fns, -3.8))
    ensures ApplyUnary(ExpFun(fns), ApplyVD(TimesFun(), Fvar(-2.0, 0.0), 1.9)).d == 0.0
  {
    assert ApplyVD(TimesFun(), Fvar(-2.0, 1.0), 1.9) == Fvar(-3.8, 1.9);
  }

  /** hypot_fd_fd, hypot_fd_d and hypot_d_fd: hypot(3, 4) = 5, with tangent
      3/5 when x1 is seeded and 4/5 when x2 is. */
  lemma HypotTangents(fns: Fns)
    requires SqrtSquares(fns)
    ensures ApplyVV(HypotFun(fns), Fvar(3.0, 1.0), Fvar(4.0, 0.0)) == Fvar(5.0, 0.6)
    ensures ApplyVV(HypotFun(fns), Fvar(3.0, 0.0), Fvar(4.0, 1.0)) == Fvar(5.0, 0.8)
    ensures ApplyVD(HypotFun(fns), Fvar(3.0, 1.0), 4.0) == Fvar(5.0, 0.6)
    ensures ApplyDV(HypotFun(fns), 3.0, Fvar(4.0, 1.0)) == Fvar(5.0, 0.8)
  {
    HypotThreeFour(fns);
  }
}
