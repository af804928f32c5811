/** The gradients the reverse-mode apply tests read off: a product of a
    double c with apply<F>(...) is built on a fresh tape, the sweep runs from
    the product, and the adjoints of the independent variables are the
    gradient. */
module RevGradients {
  import opened Elementary
  import opened Functors
  import opened RevTape

  /** The product by c passes c on to its var operand. */
  lemma TimesPassesScale(c: real, v: real, fv: real)
    ensures Dx2(TimesFun(), c, v, fv) == c
  {
  }

  /** hypot_fun's derivatives are x1 / fx and x2 / fx. */
  lemma HypotPartials(fns: Fns, x1: real, x2: real, fx: real)
    ensures Dx1(HypotFun(fns), x1, x2, fx) == Divide(fns, x1, fx)
    ensures Dx2(HypotFun(fns), x1, x2, fx) == Divide(fns, x2, fx)
  {
  }

  /** The tape of s * apply<F>(x) for a product node s: the gradient is the
      product's derivative in its operand times F::dx. */
  lemma UnarySweep(u: Unary, t: Binary, c: real, nodes: seq<Node>, vals: seq<real>, root: nat)
    requires |nodes| == 3 && |vals| == 3 && root == 2
    requires nodes[0] == Leaf && nodes[1] == UnaryNode(u, 0) && nodes[2] == BinaryDV(t, c, 1)
    ensures Sweep(nodes, vals, Seed(|nodes|, root), root + 1)[0] == Dx2(t, c, vals[1], vals[2]) * Dx(u, vals[0], vals[1])
  {
    var a0 := Seed(|nodes|, root);
    var a1 := ChainStep(nodes, vals, a0, 2);
    ChainEffect(nodes, vals, a0, 2, 1);
    ChainEffect(nodes, vals, a0, 2, 0);
    var a2 := ChainStep(nodes, vals, a1, 1);
    ChainEffect(nodes, vals, a1, 1, 0);
    SweepOverLeaves(nodes, vals, a2, 1);
  }

  /** grad_unary: the gradient of c * my_exp(x) is c * exp(x). */
  method ExpGradient(fns: Fns, x: real, c: real) returns (g: seq<real>)
    ensures |g| == 1 && g[0] == c * Exp(fns, x)
  {
    var t, i, y := ExpTape(fns, x, c);
    t.Grad(y);
    UnarySweep(ExpFun(fns), TimesFun(), c, t.nodes, t.vals, y);
    TimesPassesScale(c, t.vals[1], t.vals[2]);
    ProductOfEquals(Dx2(TimesFun(), c, t.vals[1], t.vals[2]), Dx(ExpFun(fns), t.vals[0], t.vals[1]), c, Exp(fns, x));
    g := [t.adj[i]];
  }

  /** The tape of c * my_exp(x): the var x, exp(x), and the product. */
  method ExpTape(fns: Fns, x: real, c: real) returns (t: Tape, i: nat, y: nat)
    ensures fresh(t) && t.Valid() && i == 0 && y == 2
    ensures t.nodes == [Leaf, UnaryNode(ExpFun(fns), 0), BinaryDV(TimesFun(), c, 1)]
    ensures t.vals[1] == Exp(fns, x)
  {
    t := new Tape();
    i := t.NewVar(x);
    var e := t.ApplyV(ExpFun(fns), i);
    y := t.ApplyDV(TimesFun(), c, e);
  }

  /** The tape of s * apply<F>(x1, x2) with both arguments vars: the
      gradient is the product's derivative times F::dx1 and F::dx2. */
  lemma BinarySweep(g: Binary, t: Binary, c: real, nodes: seq<Node>, vals: seq<real>, root: nat)
    requires |nodes| == 4 && |vals| == 4 && root == 3
    requires nodes[0] == Leaf && nodes[1] == Leaf
    requires nodes[2] == BinaryNode(g, 0, 1) && nodes[3] == BinaryDV(t, c, 2)
    ensures var s := Dx2(t, c, vals[2], vals[3]);
      var r := Sweep(nodes, vals, Seed(|nodes|, root), root + 1);
      r[0] == s * Dx1(g, vals[0], vals[1], vals[2]) && r[1] == s * Dx2(g, vals[0], vals[1], vals[2])
  {
    var a0 := Seed(|nodes|, root);
    var a1 := ChainStep(nodes, vals, a0, 3);
    ChainEffect(nodes, vals, a0, 3, 2);
    ChainEffect(nodes, vals, a0, 3, 1);
    ChainEffect(nodes, vals, a0, 3, 0);
    var a2 := ChainStep(nodes, vals, a1, 2);
    ChainEffect(nodes, vals, a1, 2, 0);
    ChainEffect(nodes, vals, a1, 2, 1);
    SweepOverLeaves(nodes, vals, a2, 2);
  }

  /** The tape of grad_binary_vv: c * hypot(x1, x2). */
  lemma HypotVVSweep(fns: Fns, x1: real, x2: real, c: real, nodes: seq<Node>, vals: seq<real>, root: nat)
    requires |nodes| == 4 && |vals| == 4 && root == 3
    requires nodes[0] == Leaf && nodes[1] == Leaf
    requires nodes[2] == BinaryNode(HypotFun(fns), 0, 1) && nodes[3] == BinaryDV(TimesFun(), c, 2)
    requires vals[0] == x1 && vals[1] == x2 && vals[2] == F2(HypotFun(fns), x1, x2)
    ensures var f := F2(HypotFun(fns), x1, x2);
      var r := Sweep(nodes, vals, Seed(|nodes|, root), root + 1);
      r[0] == c * Divide(fns, x1, f) && r[1] == c * Divide(fns, x2, f)
  {
    BinarySweep(HypotFun(fns), TimesFun(), c, nodes, vals, root);
    TimesPassesScale(c, vals[2], vals[3]);
    HypotPartials(fns, x1, x2, vals[2]);
    var s := Dx2(TimesFun(), c, vals[2], vals[3]);
    SameFactor(s, c, Dx1(HypotFun(fns), x1, x2, vals[2]));
    SameFactor(s, c, Dx2(HypotFun(fns), x1, x2, vals[2]));
  }

  /** grad_binary_vv: the gradient of c * hypot(x1, x2) is c * x1 / f and
      c * x2 / f for f = hypot(x1, x2); at (3, 4) that is 3c/5 and 4c/5. */
  method HypotGradientVV(fns: Fns, x1: real, x2: real, c: real) returns (g: seq<real>)
    ensures var f := F2(HypotFun(fns), x1, x2);
      |g| == 2 && g[0] == c * Divide(fns, x1, f) && g[1] == c * Divide(fns, x2, f)
    ensures SqrtSquares(fns) && x1 == 3.0 && x2 == 4.0 ==> g[0] == c * 0.6 && g[1] == c * 0.8
  {
    var t := new Tape();
    var i1 := t.NewVar(x1);
    var i2 := t.NewVar(x2);
    var h := t.ApplyVV(HypotFun(fns), i1, i2);
    var y := t.ApplyDV(TimesFun(), c, h);
    t.Grad(y);
    HypotVVSweep(fns, x1, x2, c, t.nodes, t.vals, y);
    g := [t.adj[i1], t.adj[i2]];
    if SqrtSquares(fns) && x1 == 3.0 && x2 == 4.0 {
      HypotThreeFour(fns);
    }
  }

  /** The tape of s * apply<F>(x1, d) with d a double: the gradient of x1
      is the product's derivative times F::dx1 at the stored d. */
  lemma BinaryVDSweep(g: Binary, d: real, t: Binary, c: real, nodes: seq<Node>, vals: seq<real>, root: nat)
    requires |nodes| == 3 && |vals| == 3 && root == 2
    requires nodes[0] == Leaf && nodes[1] == BinaryVD(g, 0, d) && nodes[2] == BinaryDV(t, c, 1)
    ensures Sweep(nodes, vals, Seed(|nodes|, root), root + 1)[0] == Dx2(t, c, vals[1], vals[2]) * Dx1(g, vals[0], d, vals[1])
  {
    var a0 := Seed(|nodes|, root);
    var a1 := ChainStep(nodes, vals, a0, 2);
    ChainEffect(nodes, vals, a0, 2, 1);
    ChainEffect(nodes, vals, a0, 2, 0);
    var a2 := ChainStep(nodes, vals, a1, 1);
    ChainEffect(nodes, vals, a1, 1, 0);
    SweepOverLeaves(nodes, vals, a2, 1);
  }

  /** The tape of grad_binary_vd: c * hypot(x1, d). */
  lemma HypotVDSweep(fns: Fns, x1: real, x2: real, c: real, nodes: seq<Node>, vals: seq<real>, root: nat)
    requires |nodes| == 3 && |vals| == 3 && root == 2
    requires nodes[0] == Leaf && nodes[1] == BinaryVD(HypotFun(fns), 0, x2) && nodes[2] == BinaryDV(TimesFun(), c, 1)
    requires vals[0] == x1 && vals[1] == F2(HypotFun(fns), x1, x2)
    ensures Sweep(nodes, vals, Seed(|nodes|, root), root + 1)[0] == c * Divide(fns, x1, F2(HypotFun(fns), x1, x2))
  {
    BinaryVDSweep(HypotFun(fns), x2, TimesFun(), c, nodes, vals, root);
    TimesPassesScale(c, vals[1], vals[2]);
    HypotPartials(fns, x1, x2, vals[1]);
    SameFactor(Dx2(TimesFun(), c, vals[1], vals[2]), c, Dx1(HypotFun(fns), vals[0], x2, vals[1]));
  }

  /** grad_binary_vd: only x1 is a var, and its gradient is c * x1 / f. */
  method HypotGradientVD(fns: Fns, x1: real, x2: real, c: real) returns (g: seq<real>)
    ensures |g| == 1 && g[0] == c * Divide(fns, x1, F2(HypotFun(fns), x1, x2))
    ensures SqrtSquares(fns) && x1 == 3.0 && x2 == 4.0 ==> g[0] == c * 0.6
  {
    var t := new Tape();
    var i1 := t.NewVar(x1);
    var h := t.ApplyVD(HypotFun(fns), i1, x2);
    var y := t.ApplyDV(TimesFun(), c, h);
    t.Grad(y);
    HypotVDSweep(fns, x1, x2, c, t.nodes, t.vals, y);
    g := [t.adj[i1]];
    if SqrtSquares(fns) && x1 == 3.0 && x2 == 4.0 {
      HypotThreeFour(fns);
    }
  }

  /** The tape of s * apply<F>(d, x2) with d a double: the gradient of x2
      is the product's derivative times F::dx2 at the stored d. */
  lemma BinaryDVSweep(g: Binary, d: real, t: Binary, c: real, nodes: seq<Node>, vals: seq<real>, root: nat)
    requires |nodes| == 3 && |vals| == 3 && root == 2
    requires nodes[0] == Leaf && nodes[1] == BinaryDV(g, d, 0) && nodes[2] == BinaryDV(t, c, 1)
    ensures Sweep(nodes, vals, Seed(|nodes|, root), root + 1)[0] == Dx2(t, c, vals[1], vals[2]) * Dx2(g, d, vals[0], vals[1])
  {
    var a0 := Seed(|nodes|, root);
    var a1 := ChainStep(nodes, vals, a0, 2);
    ChainEffect(nodes, vals, a0, 2, 1);
    ChainEffect(nodes, vals, a0, 2, 0);
    var a2 := ChainStep(nodes, vals, a1, 1);
    ChainEffect(nodes, vals, a1, 1, 0);
    SweepOverLeaves(nodes, vals, a2, 1);
  }

  /** The tape of grad_binary_dv: c * hypot(d, x2). */
  lemma HypotDVSweep(fns: Fns, x1: real, x2: real, c: real, nodes: seq<Node>, vals: seq<real>, root: nat)
    requires |nodes| == 3 && |vals| == 3 && root == 2
    requires nodes[0] == Leaf && nodes[1] == BinaryDV(HypotFun(fns), x1, 0) && nodes[2] == BinaryDV(TimesFun(), c, 1)
    requires vals[0] == x2 && vals[1] == F2(HypotFun(fns), x1, x2)
    ensures Sweep(nodes, vals, Seed(|nodes|, root), root + 1)[0] == c * Divide(fns, x2, F2(HypotFun(fns), x1, x2))
  {
    BinaryDVSweep(HypotFun(fns), x1, TimesFun(), c, nodes, vals, root);
    TimesPassesScale(c, vals[1], vals[2]);
    HypotPartials(fns, x1, x2, vals[1]);
    SameFactor(Dx2(TimesFun(), c, vals[1], vals[2]), c, Dx2(HypotFun(fns), x1, vals[0], vals[1]));
  }

  /** grad_binary_dv: only x2 is a var, and its gradient is c * x2 / f. */
  method HypotGradientDV(fns: Fns, x1: real, x2: real, c: real) returns (g: seq<real>)
    ensures |g| == 1 && g[0] == c * Divide(fns, x2, F2(HypotFun(fns), x1, x2))
    ensures SqrtSquares(fns) && x1 == 3.0 && x2 == 4.0 ==> g[0] == c * 0.8
  {
    var t := new Tape();
    var i2 := t.NewVar(x2);
    var h := t.ApplyDV(HypotFun(fns), x1, i2);
    var y := t.ApplyDV(TimesFun(), c, h);
    t.Grad(y);
    HypotDVSweep(fns, x1, x2, c, t.nodes, t.vals, y);
    g := [t.adj[i2]];
    if SqrtSquares(fns) && x1 == 3.0 && x2 == 4.0 {
      HypotThreeFour(fns);
    }
  }
}
