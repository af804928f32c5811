/** Reverse mode: the nodes (vari) that the apply functors and
    OperandsAndPartials push, laid out on a tape in creation order. A node
    holds its value, an adjoint that chain() calls update in place, and the
    indices of its operands, which all come before it on the tape. */
module RevTape {
  import opened Functors

  /** The kinds of node: an independent variable (whose chain does nothing),
      fun_v_vari, fun_vv_vari, fun_vd_vari (with its stored double bd),
      fun_dv_vari (with its stored double ad), and partials_vari (with one
      partial per operand). */
  datatype Node =
    | Leaf
    | UnaryNode(u: Unary, a: nat)
    | BinaryNode(g: Binary, a: nat, b: nat)
    | BinaryVD(g: Binary, a: nat, bd: real)
    | BinaryDV(g: Binary, ad: real, b: nat)
    | PartialsNode(operands: seq<nat>, partials: seq<real>)

  /** The tape positions whose adjoints a node's chain() updates. */
  function Operands(node: Node): seq<nat>
  {
    match node
    case Leaf => []
    case UnaryNode(_, a) => [a]
    case BinaryNode(_, a, b) => [a, b]
    case BinaryVD(_, a, _) => [a]
    case BinaryDV(_, _, b) => [b]
    case PartialsNode(ops, _) => ops
  }

  /** Every position in ops comes before n. */
  predicate Before(ops: seq<nat>, n: nat)
  {
    forall i :: 0 <= i < |ops| ==> ops[i] < n
  }

  /** Node n reads only earlier nodes, and a partials node carries one
      partial per operand. */
  predicate NodeOk(node: Node, n: nat)
  {
    match node
    case Leaf => true
    case UnaryNode(_, a) => a < n
    case BinaryNode(_, a, b) => a < n && b < n
    case BinaryVD(_, a, _) => a < n
    case BinaryDV(_, _, b) => b < n
    case PartialsNode(ops, ps) => |ps| == |ops| && Before(ops, n)
  }

  predicate Shaped(nodes: seq<Node>, vals: seq<real>, adj: seq<real>)
  {
    |vals| == |nodes| && |adj| == |nodes| &&
    forall n :: 0 <= n < |nodes| ==> NodeOk(nodes[n], n)
  }

  /** avi->adj_ += adj_ * d: position a gains the adjoint of node n times d. */
  function Add(adj: seq<real>, a: nat, n: nat, d: real): (r: seq<real>)
    requires a < |adj| && n < |adj|
    ensures |r| == |adj|
  {
    adj[a := adj[a] + adj[n] * d]
  }

  /** The first k passes of partials_vari::chain: operand k-1 gets the node's
      adjoint times partial k-1. */
  function AddPartials(adj: seq<real>, ops: seq<nat>, ps: seq<real>, n: nat, k: nat): (r: seq<real>)
    requires k <= |ops| == |ps| && n < |adj|
    requires Before(ops, n)
    ensures |r| == |adj|
  {
    if k == 0 then adj
    else Add(AddPartials(adj, ops, ps, n, k - 1), ops[k - 1], n, ps[k - 1])
  }

  /** The adjoints after node n's chain(). */
  function ChainStep(nodes: seq<Node>, vals: seq<real>, adj: seq<real>, n: nat): (r: seq<real>)
    requires Shaped(nodes, vals, adj) && n < |nodes|
    ensures |r| == |adj|
  {
    assert NodeOk(nodes[n], n);
    match nodes[n]
    case Leaf => adj
    case UnaryNode(u, a) => Add(adj, a, n, Dx(u, vals[a], vals[n]))
    case BinaryNode(g, a, b) =>
      Add(Add(adj, a, n, Dx1(g, vals[a], vals[b], vals[n])), b, n, Dx2(g, vals[a], vals[b], vals[n]))
    case BinaryVD(g, a, bd) => Add(adj, a, n, Dx1(g, vals[a], bd, vals[n]))
    case BinaryDV(g, ad, b) => Add(adj, b, n, Dx2(g, ad, vals[b], vals[n]))
    case PartialsNode(ops, ps) => AddPartials(adj, ops, ps, n, |ops|)
  }

  /** The sum of the partials, among the first k, whose operand is m. */
  function Weight(ops: seq<nat>, ps: seq<real>, m: nat, k: nat): real
    requires k <= |ops| == |ps|
  {
    if k == 0 then 0.0
    else Weight(ops, ps, m, k - 1) + (if ops[k - 1] == m then ps[k - 1] else 0.0)
  }

  /** The derivative of node n in node m by the node's own rule: the sum over
      the operand slots that hold m of the derivative the functor (or the
      partials buffer) gives for that slot; 0 when m is not an operand. */
  function LocalPartial(nodes: seq<Node>, vals: seq<real>, n: nat, m: nat): real
    requires |vals| == |nodes| && n < |nodes| && NodeOk(nodes[n], n)
  {
    match nodes[n]
    case Leaf => 0.0
    case UnaryNode(u, a) =>
      if a == m then Dx(u, vals[a], vals[n]) else 0.0
    case BinaryNode(g, a, b) =>
      (if a == m then Dx1(g, vals[a], vals[b], vals[n]) else 0.0)
      + (if b == m then Dx2(g, vals[a], vals[b], vals[n]) else 0.0)
    case BinaryVD(g, a, bd) =>
      if a == m then Dx1(g, vals[a], bd, vals[n]) else 0.0
    case BinaryDV(g, ad, b) =>
      if b == m then Dx2(g, ad, vals[b], vals[n]) else 0.0
    case PartialsNode(ops, ps) => Weight(ops, ps, m, |ops|)
  }

  /** partials_vari::chain adds adj * partials[k] into operand k for every k,
      so a position listed several times accumulates all its partials, and
      the node's own adjoint is read unchanged throughout. */
  lemma {:induction false} AddPartialsEffect(adj: seq<real>, ops: seq<nat>, ps: seq<real>, n: nat, k: nat, m: nat)
    requires k <= |ops| == |ps| && n < |adj| && m < |adj|
    requires Before(ops, n)
    ensures AddPartials(adj, ops, ps, n, k)[n] == adj[n]
    ensures AddPartials(adj, ops, ps, n, k)[m] == adj[m] + adj[n] * Weight(ops, ps, m, k)
  {
    if k > 0 {
      AddPartialsEffect(adj, ops, ps, n, k - 1, m);
      var w := Weight(ops, ps, m, k - 1);
      if ops[k - 1] == m {
        assert adj[n] * (w + ps[k - 1]) == adj[n] * w + adj[n] * ps[k - 1];
      }
    }
  }

  /** Every chain() is the transposed step of the chain rule: position m
      gains adj[n] times the derivative of node n in node m. */
  lemma ChainEffect(nodes: seq<Node>, vals: seq<real>, adj: seq<real>, n: nat, m: nat)
    requires Shaped(nodes, vals, adj) && n < |nodes| && m < |adj|
    ensures ChainStep(nodes, vals, adj, n)[m] == adj[m] + adj[n] * LocalPartial(nodes, vals, n, m)
  {
    assert NodeOk(nodes[n], n);
    if nodes[n].PartialsNode? {
      PartialsEffect(nodes, vals, adj, n, m);
    } else {
      FunctorEffect(nodes, vals, adj, n, m);
    }
  }

  lemma PartialsEffect(nodes: seq<Node>, vals: seq<real>, adj: seq<real>, n: nat, m: nat)
    requires Shaped(nodes, vals, adj) && n < |nodes| && m < |adj| && nodes[n].PartialsNode?
    ensures ChainStep(nodes, vals, adj, n)[m] == adj[m] + adj[n] * LocalPartial(nodes, vals, n, m)
  {
    assert NodeOk(nodes[n], n);
    var ops, ps := nodes[n].operands, nodes[n].partials;
    AddPartialsEffect(adj, ops, ps, n, |ops|, m);
  }

  lemma FunctorEffect(nodes: seq<Node>, vals: seq<real>, adj: seq<real>, n: nat, m: nat)
    requires Shaped(nodes, vals, adj) && n < |nodes| && m < |adj| && !nodes[n].PartialsNode?
    ensures ChainStep(nodes, vals, adj, n)[m] == adj[m] + adj[n] * LocalPartial(nodes, vals, n, m)
  {
    assert NodeOk(nodes[n], n);
    match nodes[n]
    case Leaf =>
    case UnaryNode(u, a) =>
      SingleEffect(nodes, vals, adj, n, m, a, Dx(u, vals[a], vals[n]));
    case BinaryNode(g, a, b) =>
      PairEffect(nodes, vals, adj, n, m);
    case BinaryVD(g, a, bd) =>
      SingleEffect(nodes, vals, adj, n, m, a, Dx1(g, vals[a], bd, vals[n]));
    case BinaryDV(g, ad, b) =>
      SingleEffect(nodes, vals, adj, n, m, b, Dx2(g, ad, vals[b], vals[n]));
  }

  /** The nodes with one operand a, whose chain() adds adj[n] * d to it. */
  lemma SingleEffect(nodes: seq<Node>, vals: seq<real>, adj: seq<real>, n: nat, m: nat, a: nat, d: real)
    requires Shaped(nodes, vals, adj) && n < |nodes| && m < |adj|
    requires match nodes[n]
      case UnaryNode(u, x) => x == a && d == Dx(u, vals[a], vals[n])
      case BinaryVD(g, x, bd) => x == a && d == Dx1(g, vals[a], bd, vals[n])
      case BinaryDV(g, ad, x) => x == a && d == Dx2(g, ad, vals[a], vals[n])
      case _ => false
    ensures ChainStep(nodes, vals, adj, n)[m] == adj[m] + adj[n] * LocalPartial(nodes, vals, n, m)
  {
    assert NodeOk(nodes[n], n);
    var r := ChainStep(nodes, vals, adj, n);
    var w := LocalPartial(nodes, vals, n, m);
    OneUpdate(adj, a, n, m, d);
    assert r == Add(adj, a, n, d);
    assert w == if a == m then d else 0.0;
  }

  /** fun_vv_vari, whose chain() updates both operands. */
  lemma PairEffect(nodes: seq<Node>, vals: seq<real>, adj: seq<real>, n: nat, m: nat)
    requires Shaped(nodes, vals, adj) && n < |nodes| && m < |adj| && nodes[n].BinaryNode?
    ensures ChainStep(nodes, vals, adj, n)[m] == adj[m] + adj[n] * LocalPartial(nodes, vals, n, m)
  {
    assert NodeOk(nodes[n], n);
    var g, a, b := nodes[n].g, nodes[n].a, nodes[n].b;
    var r := ChainStep(nodes, vals, adj, n);
    var w := LocalPartial(nodes, vals, n, m);
    var d1, d2 := Dx1(g, vals[a], vals[b], vals[n]), Dx2(g, vals[a], vals[b], vals[n]);
    TwoUpdates(adj, a, b, n, m, d1, d2);
    assert r == Add(Add(adj, a, n, d1), b, n, d2);
    assert w == (if a == m then d1 else 0.0) + (if b == m then d2 else 0.0);
  }

  /** The single update of fun_v_vari, fun_vd_vari and fun_dv_vari. */
  lemma OneUpdate(adj: seq<real>, a: nat, n: nat, m: nat, d: real)
    requires a < n && n < |adj| && m < |adj|
    ensures Add(adj, a, n, d)[m] == adj[m] + adj[n] * (if a == m then d else 0.0)
  {
  }

  /** The two updates of fun_vv_vari::chain, the second reading the adjoint
      the first may have changed when both operands are the same node. */
  lemma TwoUpdates(adj: seq<real>, a: nat, b: nat, n: nat, m: nat, d1: real, d2: real)
    requires a < n && b < n && n < |adj| && m < |adj|
    ensures Add(Add(adj, a, n, d1), b, n, d2)[m] == adj[m] + adj[n] * ((if a == m then d1 else 0.0) + (if b == m then d2 else 0.0))
  {
    if a == m && b == m {
      assert adj[n] * (d1 + d2) == adj[n] * d1 + adj[n] * d2;
    }
  }

  lemma {:induction false} WeightAbsent(ops: seq<nat>, ps: seq<real>, m: nat, k: nat)
    requires k <= |ops| == |ps|
    requires m !in ops
    ensures Weight(ops, ps, m, k) == 0.0
  {
    if k > 0 {
      WeightAbsent(ops, ps, m, k - 1);
    }
  }

  /** A chain() changes only its operands' adjoints: the node's own adjoint,
      every later one and every other earlier one stay as they were. */
  lemma ChainTouchesOnlyOperands(nodes: seq<Node>, vals: seq<real>, adj: seq<real>, n: nat, m: nat)
    requires Shaped(nodes, vals, adj) && n < |nodes| && m < |adj|
    requires m !in Operands(nodes[n])
    ensures ChainStep(nodes, vals, adj, n)[m] == adj[m]
  {
    ChainEffect(nodes, vals, adj, n, m);
    assert NodeOk(nodes[n], n);
    match nodes[n]
    case Leaf =>
    case UnaryNode(u, a) =>
    case BinaryNode(g, a, b) =>
    case BinaryVD(g, a, bd) =>
    case BinaryDV(g, ad, b) =>
    case PartialsNode(ops, ps) =>
      WeightAbsent(ops, ps, m, |ops|);
  }

  /** The adjoint vector with 1 at the root and 0 elsewhere. */
  function Seed(size: nat, root: nat): (adj: seq<real>)
    ensures |adj| == size
  {
    seq(size, m => if m == root then 1.0 else 0.0)
  }

  /** The chain() calls of nodes n-1, n-2, ..., 0, in that order. */
  function Sweep(nodes: seq<Node>, vals: seq<real>, adj: seq<real>, n: nat): (r: seq<real>)
    requires Shaped(nodes, vals, adj) && n <= |nodes|
    ensures |r| == |adj|
    decreases n
  {
    if n == 0 then adj
    else Sweep(nodes, vals, ChainStep(nodes, vals, adj, n - 1), n - 1)
  }

  /** One more node on the sweep: its chain() runs first. */
  lemma SweepStep(nodes: seq<Node>, vals: seq<real>, adj: seq<real>, n: nat)
    requires Shaped(nodes, vals, adj) && n < |nodes|
    ensures Sweep(nodes, vals, adj, n + 1) == Sweep(nodes, vals, ChainStep(nodes, vals, adj, n), n)
  {
  }

  /** A sweep over nodes below n leaves the adjoints at n and above alone:
      each node's adjoint is complete before its own chain() runs. */
  lemma {:induction false} SweepKeepsLater(nodes: seq<Node>, vals: seq<real>, adj: seq<real>, n: nat, m: nat)
    requires Shaped(nodes, vals, adj) && n <= m < |nodes|
    ensures Sweep(nodes, vals, adj, n)[m] == adj[m]
    decreases n
  {
    if n > 0 {
      var next := ChainStep(nodes, vals, adj, n - 1);
      assert NodeOk(nodes[n - 1], n - 1);
      ChainTouchesOnlyOperands(nodes, vals, adj, n - 1, m);
      SweepKeepsLater(nodes, vals, next, n - 1, m);
    }
  }

  /** Independent variables pass nothing on: a sweep over leaves only is
      the identity. */
  lemma {:induction false} SweepOverLeaves(nodes: seq<Node>, vals: seq<real>, adj: seq<real>, k: nat)
    requires Shaped(nodes, vals, adj) && k <= |nodes|
    requires forall i :: 0 <= i < k ==> nodes[i].Leaf?
    ensures Sweep(nodes, vals, adj, k) == adj
  {
    if k > 0 {
      assert ChainStep(nodes, vals, adj, k - 1) == adj;
      SweepOverLeaves(nodes, vals, adj, k - 1);
    }
  }

  /** The tape. nodes, vals and adj are indexed by tape position. */
  class Tape {
    var nodes: seq<Node>
    var vals: seq<real>
    var adj: seq<real>

    ghost predicate Valid()
      reads this
    {
      Shaped(nodes, vals, adj)
    }

    constructor()
      ensures Valid() && nodes == [] && vals == [] && adj == []
    {
      nodes, vals, adj := [], [], [];
    }

    /** An independent variable with value v and adjoint 0. */
    method NewVar(v: real) returns (x: nat)
      requires Valid()
      modifies this
      ensures Valid() && x == old(|nodes|)
      ensures nodes == old(nodes) + [Leaf] && vals == old(vals) + [v] && adj == old(adj) + [0.0]
    {
      x := |nodes|;
      Push(Leaf, v);
    }

    /** Appends a node with the given value and adjoint 0. */
    method Push(node: Node, v: real)
      requires Valid() && NodeOk(node, |nodes|)
      modifies this
      ensures Valid()
      ensures nodes == old(nodes) + [node] && vals == old(vals) + [v] && adj == old(adj) + [0.0]
    {
      nodes, vals, adj := nodes + [node], vals + [v], adj + [0.0];
      assert forall n :: 0 <= n < |old(nodes)| ==> nodes[n] == old(nodes)[n];
    }

    /** apply<F>(x): a fun_v_vari whose value is F::f(x.val). */
    method ApplyV(u: Unary, x: nat) returns (r: nat)
      requires Valid() && x < |nodes|
      modifies this
      ensures Valid() && r == old(|nodes|)
      ensures nodes == old(nodes) + [UnaryNode(u, x)]
      ensures vals == old(vals) + [F(u, old(vals)[x])] && adj == old(adj) + [0.0]
    {
      r := |nodes|;
      Push(UnaryNode(u, x), F(u, vals[x]));
    }

    /** apply<F>(x1, x2) on two vars: a fun_vv_vari with value F::f(x1.val, x2.val). */
    method ApplyVV(g: Binary, x1: nat, x2: nat) returns (r: nat)
      requires Valid() && x1 < |nodes| && x2 < |nodes|
      modifies this
      ensures Valid() && r == old(|nodes|)
      ensures nodes == old(nodes) + [BinaryNode(g, x1, x2)]
      ensures vals == old(vals) + [F2(g, old(vals)[x1], old(vals)[x2])] && adj == old(adj) + [0.0]
    {
      r := |nodes|;
      Push(BinaryNode(g, x1, x2), F2(g, vals[x1], vals[x2]));
    }

    /** apply<F>(x1, x2) with x2 a double: a fun_vd_vari storing x2. */
    method ApplyVD(g: Binary, x1: nat, x2: real) returns (r: nat)
      requires Valid() && x1 < |nodes|
      modifies this
      ensures Valid() && r == old(|nodes|)
      ensures nodes == old(nodes) + [BinaryVD(g, x1, x2)]
      ensures vals == old(vals) + [F2(g, old(vals)[x1], x2)] && adj == old(adj) + [0.0]
    {
      r := |nodes|;
      Push(BinaryVD(g, x1, x2), F2(g, vals[x1], x2));
    }

    /** apply<F>(x1, x2) with x1 a double: a fun_dv_vari storing x1. */
    method ApplyDV(g: Binary, x1: real, x2: nat) returns (r: nat)
      requires Valid() && x2 < |nodes|
      modifies this
      ensures Valid() && r == old(|nodes|)
      ensures nodes == old(nodes) + [BinaryDV(g, x1, x2)]
      ensures vals == old(vals) + [F2(g, x1, old(vals)[x2])] && adj == old(adj) + [0.0]
    {
      r := |nodes|;
      Push(BinaryDV(g, x1, x2), F2(g, x1, vals[x2]));
    }

    /** new partials_vari(value, N, operands, partials). */
    method PushPartials(value: real, ops: seq<nat>, ps: seq<real>) returns (r: nat)
      requires Valid() && |ops| == |ps|
      requires forall i :: 0 <= i < |ops| ==> ops[i] < |nodes|
      modifies this
      ensures Valid() && r == old(|nodes|)
      ensures nodes == old(nodes) + [PartialsNode(ops, ps)]
      ensures vals == old(vals) + [value] && adj == old(adj) + [0.0]
    {
      r := |nodes|;
      Push(PartialsNode(ops, ps), value);
    }

    /** chain() of node n: each kind updates its operands' adjoints in place. */
    method Chain(n: nat)
      requires Valid() && n < |nodes|
      modifies this
      ensures Valid() && nodes == old(nodes) && vals == old(vals)
      ensures adj == ChainStep(nodes, vals, old(adj), n)
    {
      assert NodeOk(nodes[n], n);
      match nodes[n]
      case Leaf =>
      case UnaryNode(u, a) =>
        adj := adj[a := adj[a] + adj[n] * Dx(u, vals[a], vals[n])];
        assert adj[a] == ChainStep(nodes, vals, old(adj), n)[a];
      case BinaryNode(g, a, b) =>
        adj := adj[a := adj[a] + adj[n] * Dx1(g, vals[a], vals[b], vals[n])];
        adj := adj[b := adj[b] + adj[n] * Dx2(g, vals[a], vals[b], vals[n])];
        assert adj[b] == ChainStep(nodes, vals, old(adj), n)[b];
      case BinaryVD(g, a, bd) =>
        adj := adj[a := adj[a] + adj[n] * Dx1(g, vals[a], bd, vals[n])];
        assert adj[a] == ChainStep(nodes, vals, old(adj), n)[a];
      case BinaryDV(g, ad, b) =>
        adj := adj[b := adj[b] + adj[n] * Dx2(g, ad, vals[b], vals[n])];
        assert adj[b] == ChainStep(nodes, vals, old(adj), n)[b];
      case PartialsNode(ops, ps) =>
        ChainPartials(n, ops, ps);
    }

    /** partials_vari::chain: for k < N, operands[k].adj += adj * partials[k]. */
    method ChainPartials(n: nat, ops: seq<nat>, ps: seq<real>)
      requires Valid() && n < |nodes| && nodes[n] == PartialsNode(ops, ps)
      modifies this
      ensures Valid() && nodes == old(nodes) && vals == old(vals)
      ensures adj == AddPartials(old(adj), ops, ps, n, |ops|)
    {
      assert NodeOk(nodes[n], n);
      for k := 0 to |ops|
        invariant Valid() && nodes == old(nodes) && vals == old(vals)
        invariant adj == AddPartials(old(adj), ops, ps, n, k)
      {
        adj := adj[ops[k] := adj[ops[k]] + adj[n] * ps[k]];
        assert adj[ops[k]] == AddPartials(old(adj), ops, ps, n, k + 1)[ops[k]];
      }
    }

    /** The reverse sweep from root: its adjoint is set to 1 and every other
        to 0, then chain() runs on root, root - 1, ..., 0. */
    method Grad(root: nat)
      requires Valid() && root < |nodes|
      modifies this
      ensures Valid() && nodes == old(nodes) && vals == old(vals)
      ensures adj == Sweep(nodes, vals, Seed(|nodes|, root), root + 1)
    {
      adj := Seed(|nodes|, root);
      var n: nat := root + 1;
      while n > 0
        invariant n <= root + 1
        invariant Valid() && nodes == old(nodes) && vals == old(vals)
        invariant Sweep(nodes, vals, adj, n) == Sweep(nodes, vals, Seed(|nodes|, root), root + 1)
      {
        ghost var before := adj;
        n := n - 1;
        Chain(n);
        SweepStep(nodes, vals, before, n);
      }
    }
  }
}
