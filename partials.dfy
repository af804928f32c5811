/** OperandsAndPartials: the helper a density uses to hand its derivatives
    to the autodiff layer. Its arguments (up to six in the source, each a
    scalar or a vector, each constant or not) are flattened into one operand
    array and one partials buffer; argument k owns the contiguous view d_xk
    of the buffer that starts after the non-constant arguments before it. */
module OperandsPartials {
  import opened Sums
  import opened RevTape
  import opened FwdApply

  /** One argument: a double, a vector of doubles, a single autodiff
      scalar of type V, or a vector of them. */
  datatype Arg<V> = Double(v: real) | Doubles(vs: seq<real>) | Scalar(x: V) | Vector(xs: seq<V>)

  /** length(x): 1 for a scalar, the size for a vector. */
  function Length<V>(a: Arg<V>): nat
  {
    match a
    case Double(_) => 1
    case Doubles(vs) => |vs|
    case Scalar(_) => 1
    case Vector(xs) => |xs|
  }

  /** is_constant_struct: doubles and vectors of doubles. */
  predicate IsConstant<V>(a: Arg<V>)
  {
    a.Double? || a.Doubles?
  }

  /** The slots an argument takes: !is_constant_struct * length(x). */
  function Counted<V>(a: Arg<V>): nat
  {
    if IsConstant(a) then 0 else Length(a)
  }

  /** The autodiff scalars of an argument, in order; none for a constant. */
  function Elements<V>(a: Arg<V>): (es: seq<V>)
    ensures |es| == Counted(a)
  {
    match a
    case Double(_) => []
    case Doubles(_) => []
    case Scalar(x) => [x]
    case Vector(xs) => xs
  }

  /** nvaris (npartials in the forward case): the slots of all arguments. */
  function NVaris<V>(args: seq<Arg<V>>): nat
  {
    if |args| == 0 then 0 else NVaris(args[..|args| - 1]) + Counted(args[|args| - 1])
  }

  /** Where the view d_xk of argument k starts in the partials buffer. */
  function Offset<V>(args: seq<Arg<V>>, k: nat): nat
    requires k <= |args|
  {
    NVaris(args[..k])
  }

  /** The operands of all arguments, argument after argument. */
  function Flatten<V>(args: seq<Arg<V>>): seq<V>
  {
    if |args| == 0 then [] else Flatten(args[..|args| - 1]) + Elements(args[|args| - 1])
  }

  /** is_constant<T_return_type>: the result is a double exactly when every
      argument is constant. */
  predicate AllConstant<V>(args: seq<Arg<V>>)
  {
    forall k :: 0 <= k < |args| ==> IsConstant(args[k])
  }

  /** The flattened operands fill exactly nvaris slots. */
  lemma {:induction false} FlattenLength<V>(args: seq<Arg<V>>)
    ensures |Flatten(args)| == NVaris(args)
  {
    if |args| > 0 {
      FlattenLength(args[..|args| - 1]);
    }
  }

  /** Constant arguments take no slots: with all of them constant, nvaris
      is 0. */
  lemma {:induction false} AllConstantNoSlots<V>(args: seq<Arg<V>>)
    requires AllConstant(args)
    ensures NVaris(args) == 0 && Flatten(args) == []
  {
    if |args| > 0 {
      var init := args[..|args| - 1];
      assert forall k :: 0 <= k < |init| ==> init[k] == args[k];
      AllConstantNoSlots(init);
    }
  }

  /** The converse fails: an empty vector of vars takes no slot but makes
      the result a var. */
  lemma EmptyVarVector()
    ensures var args: seq<Arg<nat>> := [Vector([])];
      NVaris(args) == 0 && !AllConstant(args)
  {
    var args: seq<Arg<nat>> := [Vector([])];
    assert args[..0] == [];
    assert !IsConstant(args[0]);
  }

  lemma PrefixStep<V>(args: seq<Arg<V>>, k: nat)
    requires k < |args|
    ensures args[..k + 1][..k] == args[..k] && args[..k + 1][k] == args[k]
  {
  }

  lemma FlattenStep<V>(args: seq<Arg<V>>, k: nat)
    requires k < |args|
    ensures Flatten(args[..k + 1]) == Flatten(args[..k]) + Elements(args[k])
  {
    PrefixStep(args, k);
  }

  /** View k ends where view k + 1 starts, within [0, nvaris). */
  lemma ViewBounds<V>(args: seq<Arg<V>>, k: nat)
    requires k < |args|
    ensures Offset(args, k) + Counted(args[k]) == Offset(args, k + 1) <= NVaris(args)
  {
    OffsetStep(args, k);
    ViewsInOrder(args, k, |args|);
  }

  /** The views together end at nvaris. */
  lemma OffsetAll<V>(args: seq<Arg<V>>)
    ensures Offset(args, |args|) == NVaris(args)
  {
    assert args[..|args|] == args;
  }

  lemma WholePrefixes(a: seq<real>, b: seq<real>, n: nat)
    requires n == |a| == |b|
    ensures Dot(a[..n], b[..n]) == Dot(a, b)
  {
    assert a[..n] == a && b[..n] == b;
  }

  /** View k ends where view k + 1 starts; the first starts at 0 and the
      last ends at nvaris. */
  lemma OffsetStep<V>(args: seq<Arg<V>>, k: nat)
    requires k < |args|
    ensures Offset(args, k + 1) == Offset(args, k) + Counted(args[k])
    ensures Offset(args, 0) == 0 && Offset(args, |args|) == NVaris(args)
  {
    PrefixStep(args, k);
    assert args[..|args|] == args;
  }

  /** The views come in argument order and do not overlap: view k lies
      wholly before view k' for k < k', and within [0, nvaris). */
  lemma {:induction false} ViewsInOrder<V>(args: seq<Arg<V>>, k: nat, k': nat)
    requires k < k' <= |args|
    ensures Offset(args, k) + Counted(args[k]) <= Offset(args, k') <= NVaris(args)
    decreases |args| - k
  {
    OffsetStep(args, k);
    if k + 1 < k' {
      ViewsInOrder(args, k + 1, k');
    } else if k' < |args| {
      ViewsInOrder(args, k', |args|);
    }
  }

  /** Slot t of view d_xk. */
  function Slot<V>(args: seq<Arg<V>>, k: nat, t: nat): (p: nat)
    requires k < |args| && t < Counted(args[k])
    ensures Offset(args, k) <= p < Offset(args, k) + Counted(args[k]) <= NVaris(args)
  {
    ViewsInOrder(args, k, |args|);
    Offset(args, k) + t
  }

  /** The argument whose view holds slot p, searching from argument k on. */
  function ViewFrom<V>(args: seq<Arg<V>>, p: nat, k: nat): (v: nat)
    requires k < |args| && Offset(args, k) <= p < NVaris(args)
    ensures k <= v < |args| && Offset(args, v) <= p < Offset(args, v) + Counted(args[v])
    decreases |args| - k
  {
    OffsetStep(args, k);
    if p < Offset(args, k + 1) then k else ViewFrom(args, p, k + 1)
  }

  /** The views cover [0, nvaris): every slot lies in some view. */
  function ViewOf<V>(args: seq<Arg<V>>, p: nat): (v: nat)
    requires p < NVaris(args)
    ensures v < |args| && Offset(args, v) <= p < Offset(args, v) + Counted(args[v])
  {
    assert |args| > 0;
    OffsetStep(args, 0);
    ViewFrom(args, p, 0)
  }

  /** ... and in exactly one: slot t of view k belongs to no other view. */
  lemma ViewOfSlot<V>(args: seq<Arg<V>>, k: nat, t: nat)
    requires k < |args| && t < Counted(args[k])
    ensures ViewOf(args, Slot(args, k, t)) == k
  {
    var v := ViewOf(args, Slot(args, k, t));
    if v < k {
      ViewsInOrder(args, v, k);
    } else if k < v {
      ViewsInOrder(args, k, v);
    }
  }

  /** Element t of argument k sits at slot t of view d_xk in the flattened
      operands, so the views and all_varis line up. */
  lemma {:induction false} FlattenAt<V>(args: seq<Arg<V>>, k: nat, t: nat)
    requires k < |args| && t < Counted(args[k])
    ensures |Flatten(args)| == NVaris(args)
    ensures Flatten(args)[Slot(args, k, t)] == Elements(args[k])[t]
  {
    FlattenLength(args);
    var init := args[..|args| - 1];
    FlattenLength(init);
    OffsetStep(args, |args| - 1);
    if k == |args| - 1 {
      assert args[..k] == init;
    } else {
      PrefixStep(args, |args| - 1);
      assert init[..k] == args[..k] && init[k] == args[k];
      FlattenAt(init, k, t);
      ViewsInOrder(init, k, |init|);
    }
  }

  /** set_varis<T>::set: writes the operands of x from position base on
      and reports how many it wrote (none for a constant). */
  method SetVaris(varis: array<nat>, base: nat, a: Arg<nat>) returns (m: nat)
    requires base + Counted(a) <= varis.Length
    modifies varis
    ensures m == Counted(a)
    ensures varis[..base] == old(varis[..base])
    ensures varis[base..base + m] == Elements(a)
    ensures varis[base + m..] == old(varis[base + m..])
  {
    match a
    case Double(_) => m := 0;
    case Doubles(_) => m := 0;
    case Scalar(x) =>
      varis[base] := x;
      m := 1;
    case Vector(xs) =>
      var n := 0;
      while n < |xs|
        invariant n <= |xs|
        invariant varis[..base] == old(varis[..base])
        invariant varis[base..base + n] == xs[..n]
        invariant varis[base + |xs|..] == old(varis[base + |xs|..])
      {
        varis[base + n] := xs[n];
        assert varis[base..base + n + 1] == varis[base..base + n] + [xs[n]];
        n := n + 1;
      }
      m := |xs|;
  }

  /** The set_varis calls of the constructor: each non-constant argument
      writes its operands at the running base, which then moves past them. */
  method FillVaris(args: seq<Arg<nat>>) returns (varis: array<nat>)
    ensures fresh(varis) && varis[..] == Flatten(args)
  {
    var n := NVaris(args);
    FlattenLength(args);
    varis := new nat[n];
    var base := 0;
    for k := 0 to |args|
      invariant base == Offset(args, k) <= n == varis.Length
      invariant varis[..base] == Flatten(args[..k])
    {
      base := SetArgument(varis, args, k, base);
    }
    assert args[..|args|] == args;
    assert varis[..] == varis[..base];
  }

  /** One if (!is_constant_struct<Tk>) base += set_varis<Tk>().set(...). */
  method SetArgument(varis: array<nat>, args: seq<Arg<nat>>, k: nat, base: nat) returns (next: nat)
    requires k < |args| && varis.Length == NVaris(args)
    requires base == Offset(args, k) <= varis.Length && varis[..base] == Flatten(args[..k])
    modifies varis
    ensures next == Offset(args, k + 1) <= varis.Length && varis[..next] == Flatten(args[..k + 1])
  {
    OffsetStep(args, k);
    ViewsInOrder(args, k, |args|);
    FlattenStep(args, k);
    var m := SetVaris(varis, base, args[k]);
    assert varis[..base + m] == varis[..base] + varis[base..base + m];
    next := base + m;
  }

  /** std::fill(all_partials, all_partials + nvaris, 0) on a fresh buffer. */
  method ZeroBuffer(n: nat) returns (a: array<real>)
    ensures fresh(a) && a.Length == n
    ensures forall p :: 0 <= p < n ==> a[p] == 0.0
  {
    a := new real[n];
    for p := 0 to n
      invariant forall q :: 0 <= q < p ==> a[q] == 0.0
    {
      a[p] := 0.0;
    }
  }

  /** What to_var returns: the plain double logp, or a var naming the new
      partials_vari on the tape. */
  datatype Value = Plain(value: real) | VarRef(vi: nat)

  /** The reverse-mode OperandsAndPartials. */
  class OperandsAndPartials {
    const args: seq<Arg<nat>>
    const nvaris: nat
    const allVaris: array<nat>
    const allPartials: array<real>

    /** The buffers have nvaris slots and all_varis holds the flattened
        operands. */
    ghost predicate Valid()
      reads allVaris
    {
      nvaris == NVaris(args) && allPartials.Length == nvaris && allVaris[..] == Flatten(args)
    }

    /** The constructor: set_varis for each non-constant argument at the
        running base, then std::fill of the partials with 0. */
    constructor(args: seq<Arg<nat>>)
      ensures Valid() && this.args == args
      ensures forall p :: 0 <= p < nvaris ==> allPartials[p] == 0.0
      ensures fresh(allVaris) && fresh(allPartials)
    {
      var varis := FillVaris(args);
      var partials := ZeroBuffer(NVaris(args));
      this.args := args;
      nvaris := NVaris(args);
      allVaris := varis;
      allPartials := partials;
    }

    /** d_xk[t] = v, the write a density makes through view k. */
    method SetPartial(k: nat, t: nat, v: real)
      requires Valid() && k < |args| && t < Counted(args[k])
      modifies allPartials
      ensures Valid()
      ensures allPartials[Slot(args, k, t)] == v
      ensures forall p :: 0 <= p < nvaris && p != Slot(args, k, t) ==> allPartials[p] == old(allPartials[p])
    {
      allPartials[Slot(args, k, t)] := v;
    }

    /** to_var(logp), through partials_to_var: the plain value when the
        result type is constant, otherwise a new partials_vari with value
        logp over all nvaris operands and their partials. */
    method ToVar(tape: Tape, logp: real) returns (r: Value)
      requires Valid() && tape.Valid()
      requires forall i :: 0 <= i < |Flatten(args)| ==> Flatten(args)[i] < |tape.nodes|
      modifies tape
      ensures tape.Valid()
      ensures AllConstant(args) ==>
        r == Plain(logp) && tape.nodes == old(tape.nodes) && tape.vals == old(tape.vals) && tape.adj == old(tape.adj)
      ensures !AllConstant(args) ==>
        r == VarRef(old(|tape.nodes|)) && tape.nodes == old(tape.nodes) + [PartialsNode(Flatten(args), allPartials[..])] &&
        tape.vals == old(tape.vals) + [logp] && tape.adj == old(tape.adj) + [0.0]
    {
      FlattenLength(args);
      if AllConstant(args) {
        r := Plain(logp);
      } else {
        var vi := tape.PushPartials(logp, allVaris[..], allPartials[..]);
        r := VarRef(vi);
      }
    }
  }

  /** The tangents of a sequence of fvars. */
  function Tangents(xs: seq<Fvar>): (ds: seq<real>)
    ensures |ds| == |xs|
  {
    if |xs| == 0 then [] else Tangents(xs[..|xs| - 1]) + [xs[|xs| - 1].d]
  }

  /** Entry i of the tangents is the tangent of fvar i. */
  lemma {:induction false} TangentsAt(xs: seq<Fvar>, i: nat)
    requires i < |xs|
    ensures Tangents(xs)[i] == xs[i].d
  {
    if i < |xs| - 1 {
      TangentsAt(xs[..|xs| - 1], i);
    }
  }

  /** tangent<T>::value(x, n): the tangent of element n, 0 for a constant. */
  function Tangent(a: Arg<Fvar>, n: nat): real
    requires n < Length(a)
  {
    match a
    case Double(_) => 0.0
    case Doubles(_) => 0.0
    case Scalar(x) => x.d
    case Vector(xs) => xs[n].d
  }

  /** The tangent that to_var reads for element n of view k is the one at
      that slot of the flattened operands. */
  lemma TangentAt(args: seq<Arg<Fvar>>, k: nat, n: nat)
    requires k < |args| && n < Counted(args[k])
    ensures Offset(args, k) + n < NVaris(args) == |Tangents(Flatten(args))|
    ensures Tangents(Flatten(args))[Offset(args, k) + n] == Tangent(args[k], n)
  {
    var j := Slot(args, k, n);
    assert j == Offset(args, k) + n;
    FlattenAt(args, k, n);
    TangentsAt(Flatten(args), j);
    ElementTangent(args[k], n);
  }

  /** The tangent of element n of a non-constant argument is that of its n-th fvar. */
  lemma ElementTangent(a: Arg<Fvar>, n: nat)
    requires n < Counted(a)
    ensures n < Length(a) && Elements(a)[n].d == Tangent(a, n)
  {
  }

  /** One step of to_var's accumulation extends the dot product by one. */
  lemma AccumulateStep(ps: seq<real>, ts: seq<real>, j: nat, acc: real, p: real, t: real)
    requires |ps| == |ts| && j < |ps|
    requires acc == Dot(ps[..j], ts[..j]) && p == ps[j] && t == ts[j]
    ensures acc + p * t == Dot(ps[..j + 1], ts[..j + 1])
  {
    DotPrefixStep(ps, ts, j);
  }

  /** One step of to_var's loop over view k, at its element n. */
  lemma ViewStep(args: seq<Arg<Fvar>>, ps: seq<real>, k: nat, n: nat, acc: real, p: real, t: real)
    requires k < |args| && n < Counted(args[k]) && |ps| == NVaris(args) == |Tangents(Flatten(args))|
    requires var j := Offset(args, k) + n;
      j < |ps| && acc == Dot(ps[..j], Tangents(Flatten(args))[..j]) && p == ps[j] && t == Tangent(args[k], n)
    ensures var j := Offset(args, k) + n + 1;
      acc + p * t == Dot(ps[..j], Tangents(Flatten(args))[..j])
  {
    TangentAt(args, k, n);
    AccumulateStep(ps, Tangents(Flatten(args)), Offset(args, k) + n, acc, p, t);
  }

  /** The forward-mode OperandsAndPartials, over fvar arguments. */
  class FwdOperandsAndPartials {
    const args: seq<Arg<Fvar>>
    const npartials: nat
    const allPartials: array<real>

    predicate Valid()
    {
      npartials == NVaris(args) && allPartials.Length == npartials
    }

    /** The constructor sizes the buffer, nx1 + ... + nx6, and does not
        initialise it: the density writes every partial it needs. */
    constructor(args: seq<Arg<Fvar>>)
      ensures Valid() && this.args == args && fresh(allPartials)
    {
      this.args := args;
      npartials := NVaris(args);
      allPartials := new real[NVaris(args)];
    }

    /** d_xk[t] = v. */
    method SetPartial(k: nat, t: nat, v: real)
      requires Valid() && k < |args| && t < Counted(args[k])
      modifies allPartials
      ensures allPartials[Slot(args, k, t)] == v
      ensures forall p :: 0 <= p < npartials && p != Slot(args, k, t) ==> allPartials[p] == old(allPartials[p])
    {
      allPartials[Slot(args, k, t)] := v;
    }

    /** One loop of to_var: derivative += d_xk[n] * tangent(xk, n) for each
        n < nxk. */
    method AccumulateView(k: nat, base: nat, acc: real, ghost ps: seq<real>, ghost ts: seq<real>) returns (next: real)
      requires Valid() && k < |args| && base == Offset(args, k) <= npartials
      requires ps == allPartials[..] && ts == Tangents(Flatten(args)) && npartials == |ts|
      requires acc == Dot(ps[..base], ts[..base])
      ensures base + Counted(args[k]) == Offset(args, k + 1) <= npartials
      ensures next == Dot(ps[..base + Counted(args[k])], ts[..base + Counted(args[k])])
    {
      ViewBounds(args, k);
      next := acc;
      for n := 0 to Counted(args[k])
        invariant next == Dot(ps[..base + n], ts[..base + n])
      {
        var pn := allPartials[base + n];
        var tn := Tangent(args[k], n);
        ViewStep(args, ps, k, n, next, pn, tn);
        next := next + pn * tn;
      }
    }

    /** to_var(logp): value logp, tangent the sum over the views of
        d_xk[n] * tangent(xk, n), i.e. the partials dotted with the
        tangents of the flattened operands. */
    method ToVar(logp: real) returns (r: Fvar)
      requires Valid()
      ensures |Tangents(Flatten(args))| == npartials
      ensures r == Fvar(logp, Dot(allPartials[..], Tangents(Flatten(args))))
    {
      FlattenLength(args);
      ghost var ts := Tangents(Flatten(args));
      ghost var ps := allPartials[..];
      var derivative := 0.0;
      var base := 0;
      for k := 0 to |args|
        invariant base == Offset(args, k) <= npartials
        invariant derivative == Dot(ps[..base], ts[..base])
      {
        derivative := AccumulateView(k, base, derivative, ps, ts);
        base := base + Counted(args[k]);
      }
      OffsetAll(args);
      WholePrefixes(ps, ts, base);
      r := Fvar(logp, derivative);
    }
  }

  /** With every argument constant there is nothing to propagate: the
      forward result's tangent is 0 whatever the buffer holds. */
  lemma ConstantTangentZero(args: seq<Arg<Fvar>>, partials: seq<real>)
    requires AllConstant(args) && |partials| == NVaris(args)
    ensures |Tangents(Flatten(args))| == |partials|
    ensures Dot(partials, Tangents(Flatten(args))) == 0.0
  {
    AllConstantNoSlots(args);
  }
}
