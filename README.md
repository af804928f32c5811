# Stan autodiff nodes and constraining transforms, in Dafny

This project models two parts of Stan's C++ core and proves properties of them.

The first part is the derivative-propagation nodes of Stan's automatic differentiation (the `agrad` namespace):

- **`OperandsAndPartials`.** It flattens up to six scalar-or-vector arguments into one operand array `all_varis` and one partials buffer `all_partials`. Arguments are `double`s or `var`s. Argument `k` owns the contiguous view `d_xk`. `to_var` folds the result to a plain `double` when every argument is constant. Otherwise it pushes a `partials_vari`, whose `chain()` adds `adj * partials[n]` into each operand's adjoint.
- **The forward-mode specialisation of `OperandsAndPartials`.** Its `to_var` returns the value `logp` with tangent `Σ d_xk[n] * tangent(xk[n])`.
- **The functor nodes `fun_v_vari`, `fun_vv_vari`, `fun_vd_vari` and `fun_dv_vari`** behind the reverse-mode `apply<F>`, together with the forward-mode `apply<F>` over `fvar<double>`.

The autodiff tape is a class `RevTape.Tape` with three sequences:

- the node records;
- their values;
- their mutable adjoints.

Every node's operands are earlier entries. Each `chain()` is a method that updates the adjoints in place. `Grad` is a minimal reverse sweep from a root seeded with 1. The functor `F` is a datatype of function values `f`, `dx`, `dx1` and `dx2`, left arbitrary.

The second part is the structured constraining transforms of `stan::prob`:

- the centred stick-breaking `simplex_constrain`, and `simplex_free`;
- `positive_ordered_constrain`;
- `cov_matrix_constrain`, which packs a lower triangle and returns L·Lᵀ;
- `make_nu`, the degrees-of-freedom layout of the Lewandowski–Kurowicka–Joe (LKJ) construction;
- `read_corr_L`, the C-vine Cholesky factor built from canonical partial correlations (CPCs), and its `log_prob` overload.

Each transform is a method with the source's loops, proved equal to a specification function. The transform's properties are then proved about that function as lemmas.

The elementary functions (`exp`, `log`, `log1m`, `log1p_exp`, `inv_logit`, `logit`, `sqrt`) are fields of a value `Elementary.Fns` and are left abstract. Each lemma takes as a `requires` only the laws it needs:

- `ExpPositive`;
- `LogInvertsExp`;
- `InvLogitInUnit`;
- `LogitInvertsInvLogit`;
- `SqrtSquares`;
- `EqualShare`, which says `inv_logit(-log m) = 1/(m+1)`.

Division that may divide by zero goes through `Elementary.Divide`. When the divisor is 0, `Divide` returns the unspecified value `divZero(a)`.

Files:

- `sums.dfy`: sums and dot products.
- `results.dfy`: the success or `domain_error` result.
- `elementary.dfy` and `functors.dfy`: the abstract functions and the test functors.
- `rev_tape.dfy` and `rev_gradients.dfy`: the reverse mode.
- `fwd_apply.dfy`: the forward mode.
- `partials.dfy`: `OperandsAndPartials`, reverse and forward.
- `simplex_constrain.dfy`, `simplex_free.dfy`, `positive_ordered.dfy`, `cov_matrix.dfy`, `cpc_layout.dfy`, `make_nu.dfy` and `read_corr_l.dfy`: the transforms.

## Model

| member | source | states |
|---|---|---|
| RevTape.Tape.ApplyV | src/stan/agrad/rev/functor/apply.hpp:16-20 | apply<F>(x) pushes one node whose value is F::f of x's value, with x as its only operand and adjoint 0. Earlier nodes, values and adjoints are unchanged |
| RevTape.Tape.ApplyVV | src/stan/agrad/rev/functor/apply.hpp:26-30 | apply<F>(x1, x2) pushes a node with value F::f(x1.val, x2.val) over both operands |
| RevTape.Tape.ApplyVD | src/stan/agrad/rev/functor/apply.hpp:36-40 | apply<F>(x1, double) pushes a node with value F::f(x1.val, bd) that keeps the double bd and has one operand |
| RevTape.Tape.ApplyDV | src/stan/agrad/rev/functor/apply.hpp:45-49 | apply<F>(double, x2) pushes a node with value F::f(ad, x2.val) that keeps the double ad and has one operand |
| RevTape.Tape.PushPartials | src/stan/agrad/partials_vari.hpp:17-23 | A partials_vari node records value logp, its N operands and their N partials |
| RevTape.Tape.Chain | src/stan/agrad/rev/functor/apply.hpp:21-52 | chain() of node n changes only the adjoints, as ChainStep says. No node and no value changes |
| RevTape.Tape.ChainPartials | src/stan/agrad/partials_vari.hpp:24-27 | The loop over n < N that adds adj * partials[n] to operand n's adjoint yields AddPartials |
| RevTape.AddPartialsEffect | src/stan/agrad/partials_vari.hpp:24-27 | After partials_vari::chain, the node's own adjoint is unchanged. Every other adjoint m has gained adj times the sum of the partials of all slots naming m, so repeated operands accumulate |
| RevTape.ChainEffect | src/stan/agrad/rev/functor/apply.hpp:21-52 | For every node kind, one chain() adds adj[n] * (local partial of n with respect to m) to each adjoint m. The local partial is dx for the unary node, dx1 and/or dx2 for vv, dx1 with the stored bd for vd, and dx2 with the stored ad for dv |
| RevTape.PairEffect | src/stan/agrad/rev/functor/apply.hpp:31-34 | The var–var chain adds dx1 to the first operand and dx2 to the second. When both operands are the same node, the two contributions add up |
| RevTape.ChainTouchesOnlyOperands | src/stan/agrad/rev/functor/apply.hpp:21-52 | chain() leaves the adjoint of every node that is not one of its operands unchanged |
| RevTape.Tape.Grad | src/test/agrad/rev/functor/apply_test.cpp:121-122 | The test driver's sweep: the adjoints become Sweep from the root seeded with 1, run downward over every node at or below the root. Nodes and values are unchanged |
| RevGradients.UnarySweep | src/stan/agrad/rev/functor/apply.hpp:21-23 | On x → F(x) → c·F(x), the gradient on x is the scale's partial times dx(x, F(x)) |
| RevGradients.BinarySweep | src/stan/agrad/rev/functor/apply.hpp:31-34 | On (x1, x2) → F → c·F, the gradients are s·dx1 and s·dx2, where s is the scale's partial |
| RevGradients.BinaryVDSweep | src/stan/agrad/rev/functor/apply.hpp:41-43 | With x2 a double, only x1 receives a gradient: s·dx1(x1, bd, f) |
| RevGradients.BinaryDVSweep | src/stan/agrad/rev/functor/apply.hpp:50-52 | With x1 a double, only x2 receives a gradient: s·dx2(ad, x2, f) |
| RevGradients.ExpGradient | src/test/agrad/rev/functor/apply_test.cpp:56-70 | The gradient of c·exp(x) has one entry, c·exp(x); the test uses c = 1.7 and x = -3 |
| RevGradients.HypotGradientVV | src/test/agrad/rev/functor/apply_test.cpp:108-127 | The gradient of c·hypot(x1, x2) is (c·x1/f, c·x2/f). At (3, 4) it is (0.6c, 0.8c) |
| RevGradients.HypotGradientVD | src/test/agrad/rev/functor/apply_test.cpp:128-144 | With x2 a double, the gradient has the single entry c·x1/f, 0.6c at (3, 4) |
| RevGradients.HypotGradientDV | src/test/agrad/rev/functor/apply_test.cpp:145-161 | With x1 a double, the gradient has the single entry c·x2/f, 0.8c at (3, 4) |
| Functors.HypotThreeFour | src/test/agrad/fwd/functor/apply_test.cpp:91-103 | hypot_fun at (3, 4) has value 5 and partials 3/5 and 4/5 |
| FwdApply.ApplyUnary | src/stan/agrad/fwd/functor/apply.hpp:38-43 | The value is F::f(x.val), and a zero input tangent gives a zero output tangent |
| FwdApply.ApplyVV | src/stan/agrad/fwd/functor/apply.hpp:45-52 | The value is F::f(x1.val, x2.val), and zero tangents on both inputs give a zero output tangent |
| FwdApply.ApplyVD | src/stan/agrad/fwd/functor/apply.hpp:53-58 | The value is F::f(x1.val, x2), and the tangent is zero when x1's tangent is |
| FwdApply.ApplyDV | src/stan/agrad/fwd/functor/apply.hpp:59-64 | The value is F::f(x1, x2.val), and the tangent is zero when x2's tangent is |
| FwdApply.VDIsConstantSecond | src/stan/agrad/fwd/functor/apply.hpp:53-58 | The fvar–double overload equals the fvar–fvar overload given an x2 with tangent 0, so only x1's tangent is used |
| FwdApply.DVIsConstantFirst | src/stan/agrad/fwd/functor/apply.hpp:59-64 | The double–fvar overload equals the fvar–fvar overload given an x1 with tangent 0, so only x2's tangent is used |
| FwdApply.TangentScales | src/stan/agrad/fwd/functor/apply.hpp:45-52 | The output tangent is linear in the input tangents: scaling both scales the result |
| FwdApply.UnaryForwardIsReverse | src/stan/agrad/fwd/functor/apply.hpp:38-43 | The forward tangent equals x.d times the adjoint the reverse sweep gives x through fun_v_vari |
| FwdApply.BinaryForwardIsReverse | src/stan/agrad/fwd/functor/apply.hpp:45-52 | The forward tangent equals x1.d·adj(x1) + x2.d·adj(x2) from the reverse sweep through fun_vv_vari |
| FwdApply.VDForwardIsReverse | src/stan/agrad/fwd/functor/apply.hpp:53-58 | The forward tangent equals x1.d times the reverse adjoint through fun_vd_vari |
| FwdApply.DVForwardIsReverse | src/stan/agrad/fwd/functor/apply.hpp:59-64 | The forward tangent equals x2.d times the reverse adjoint through fun_dv_vari |
| FwdApply.ExpTangent | src/test/agrad/fwd/functor/apply_test.cpp:32-37 | exp_fun at fvar(-3, 1.7) gives (exp(-3), 1.7·exp(-3)) |
| FwdApply.ExpOfScaledTangent | src/test/agrad/fwd/functor/apply_test.cpp:62-73 | exp(x·1.9) at x = -2, seeded on x, gives (exp(-3.8), 1.9·exp(-3.8)). A tangent-free x gives tangent 0: multiplying by a double adds none |
| FwdApply.HypotTangents | src/test/agrad/fwd/functor/apply_test.cpp:107-141 | hypot(3, 4) has value 5, with tangent 3/5 when seeded on x1 and 4/5 when seeded on x2, in the fvar–fvar, fvar–double and double–fvar overloads |
| OperandsPartials.FlattenLength | src/stan/agrad/partials_vari.hpp:92-97 | The flattened operand list has exactly nvaris entries: the sum of length(xk) over the non-constant arguments |
| OperandsPartials.AllConstantNoSlots | src/stan/agrad/partials_vari.hpp:92-97 | When every argument is constant, nvaris is 0 and there are no operands |
| OperandsPartials.EmptyVarVector | src/stan/agrad/partials_vari.hpp:138-141 | nvaris = 0 does not make the result constant: an empty vector of vars still produces a node |
| OperandsPartials.OffsetStep | src/stan/agrad/partials_vari.hpp:100-120 | View 0 starts at 0, view k+1 starts where view k ends, and the last view ends at nvaris |
| OperandsPartials.ViewsInOrder | src/stan/agrad/partials_vari.hpp:100-120 | Views are disjoint, in argument order, and lie inside [0, nvaris) |
| OperandsPartials.Slot | src/stan/agrad/partials_vari.hpp:100-120 | Entry t of view k lies inside view k's window and below nvaris |
| OperandsPartials.ViewOf | src/stan/agrad/partials_vari.hpp:100-120 | The views cover [0, nvaris): every index below nvaris lies in some view |
| OperandsPartials.ViewOfSlot | src/stan/agrad/partials_vari.hpp:100-120 | An entry of view k belongs to view k and to no other view |
| OperandsPartials.FlattenAt | src/stan/agrad/partials_vari.hpp:122-134 | Slot Offset(k)+t of the operand array is element t of argument k |
| OperandsPartials.SetVaris | src/stan/agrad/partials_vari.hpp:44-66 | set_varis writes the argument's vars, in order, at base and nothing else. It returns their number: 0 for a constant, 1 for a var scalar, the length for a vector |
| OperandsPartials.FillVaris | src/stan/agrad/partials_vari.hpp:122-134 | The constructor's chain of set_varis calls fills all_varis with the flattened non-constant arguments, in argument order |
| OperandsPartials.ZeroBuffer | src/stan/agrad/partials_vari.hpp:135 | std::fill leaves every partial at 0 |
| OperandsPartials.OperandsAndPartials.constructor | src/stan/agrad/partials_vari.hpp:90-136 | After construction the buffers have nvaris slots, all_varis is the flattened operand list, and every partial is 0 |
| OperandsPartials.OperandsAndPartials.SetPartial | src/stan/agrad/partials_vari.hpp:100-120 | A write d_xk[t] = v changes exactly slot Offset(k)+t of the shared buffer |
| OperandsPartials.OperandsAndPartials.ToVar | src/stan/agrad/partials_vari.hpp:31-42 | With every argument constant, to_var returns the plain logp and the tape is unchanged. Otherwise it returns a new node with value logp over the nvaris operands and the current partials |
| OperandsPartials.TangentAt | src/stan/agrad/partials_vari.hpp:147-164 | The tangent paired with slot Offset(k)+n is the tangent of element n of argument k |
| OperandsPartials.ConstantTangentZero | src/stan/agrad/partials_vari.hpp:150-154 | With every argument constant, the derivative sum is 0 |
| OperandsPartials.FwdOperandsAndPartials.constructor | src/stan/agrad/partials_vari.hpp:197-219 | npartials is nx1+…+nx6, and the buffer has that many slots. Its contents are not set |
| OperandsPartials.FwdOperandsAndPartials.SetPartial | src/stan/agrad/partials_vari.hpp:207-212 | A write through view k at t changes exactly slot Offset(k)+t, where the offsets are the prefix sums of the nx |
| OperandsPartials.FwdOperandsAndPartials.AccumulateView | src/stan/agrad/partials_vari.hpp:224-235 | One loop over view k extends the running derivative to the dot product over the slots through view k |
| OperandsPartials.FwdOperandsAndPartials.ToVar | src/stan/agrad/partials_vari.hpp:221-239 | to_var returns value logp and tangent Σ all_partials[p]·tangent of operand p, over all npartials slots |
| SimplexConstrain.SimplexConstrain | src/stan/prob/transform/simplex_constrain.hpp:37-55 | The result is the stick-breaking simplex of y. It has |y|+1 entries, which sum to 1 |
| SimplexConstrain.SimplexConstrainLp | src/stan/prob/transform/simplex_constrain.hpp:70-94 | It returns the same vector as the plain overload. lp grows by Σ_k log(stick_k) - log1p_exp(-adj_k) - log1p_exp(adj_k), and the last entry adds nothing |
| SimplexConstrain.StickIsRemainder | src/stan/prob/transform/simplex_constrain.hpp:48-53 | Before step k the stick equals 1 minus the sum of the entries already written |
| SimplexConstrain.SimplexSumsToOne | src/stan/prob/transform/simplex_constrain.hpp:47-53 | The entries sum to 1 exactly |
| SimplexConstrain.StickPositive | src/stan/prob/transform/simplex_constrain.hpp:48-52 | The stick stays positive when inv_logit lies in (0, 1) |
| SimplexConstrain.SimplexPositive | src/stan/prob/transform/simplex_constrain.hpp:26-29 | Every entry is positive when inv_logit lies in (0, 1) |
| SimplexConstrain.ZeroMapsToUniform | src/test/prob/transform/simplex_test.cpp:14-22 | An all-zero input of any length n gives the uniform simplex 1/(n+1) |
| SimplexFree.SimplexFree | src/stan/prob/transform/simplex_free.hpp:39-55 | It fails with domain_error exactly when x is not a simplex. Otherwise it returns the |x|-1 entries logit(x(k)/stick_k) + log(Km1-k) |
| SimplexFree.Unconstrained | src/stan/prob/transform/simplex_free.hpp:45-46 | The free vector has one entry fewer than the simplex |
| SimplexFree.SuffixIsStick | src/stan/prob/transform/simplex_free.hpp:47-49 | On a constrained simplex, the downward stick Σ_{j≥k} x(j) is the stick simplex_constrain had before step k |
| SimplexFree.FreeEntryOfSimplex | src/stan/prob/transform/simplex_free.hpp:50-51 | Entry k of simplex_free(simplex_constrain(y)) is y(k) |
| SimplexFree.FreeInvertsConstrain | src/test/prob/transform/simplex_test.cpp:14-41 | simplex_constrain yields a simplex that simplex_free accepts, and simplex_free maps it back to y |
| SimplexFree.RejectsOverfull | src/test/prob/transform/simplex_test.cpp:55-57 | (0.5, 0.55) is rejected for any tolerance below 0.05 |
| SimplexFree.RejectsNegative | src/test/prob/transform/simplex_test.cpp:58-59 | (1.1, -0.1) is rejected whatever the tolerance |
| PositiveOrdered.PositiveOrdered | src/stan/prob/transform/positive_ordered_constrain.hpp:38-41 | The output has the input's length, so an empty input gives an empty output |
| PositiveOrdered.CumulativeExpStep | src/stan/prob/transform/positive_ordered_constrain.hpp:42-46 | y[0] = exp(x[0]) and y[i] = y[i-1] + exp(x[i]) |
| PositiveOrdered.PositiveOrderedConstrain | src/stan/prob/transform/positive_ordered_constrain.hpp:34-48 | The loop computes the cumulative sums of exp(x) |
| PositiveOrdered.PositiveOrderedIsOrdered | src/stan/prob/transform/positive_ordered_constrain.hpp:26-28 | With exp positive, the result is positive and strictly increasing |
| PositiveOrdered.PositiveOrderedConstrainLp | src/stan/prob/transform/positive_ordered_constrain.hpp:62-70 | lp grows by Σ x(i), and the vector is the plain overload's result |
| CovMatrix.RowStartClosed | src/stan/prob/transform/cov_matrix_constrain.hpp:44-45 | The packed size of K rows is K(K+1)/2, the size the check demands |
| CovMatrix.CovMatrixConstrain | src/stan/prob/transform/cov_matrix_constrain.hpp:37-56 | It fails with domain_error exactly when x.size() != K(K+1)/2. Otherwise it returns L·Lᵀ for the packed factor L |
| CovMatrix.FillFactor | src/stan/prob/transform/cov_matrix_constrain.hpp:46-53 | Row m takes the next m entries of x below the diagonal and exp of the following one on it, with zeros above |
| CovMatrix.PackingIsBijective | src/stan/prob/transform/cov_matrix_constrain.hpp:46-53 | The running index reads every entry below K(K+1)/2 exactly once: a bijection with the lower triangle |
| CovMatrix.Unpack | src/stan/prob/transform/cov_matrix_constrain.hpp:46-53 | Every position of x is read into some lower-triangular (m, n) of a K×K factor |
| CovMatrix.CovarianceSymmetric | src/stan/prob/transform/cov_matrix_constrain.hpp:54-55 | L·Lᵀ is symmetric |
| CovMatrix.CovMatrixConstrainLp | src/stan/prob/transform/cov_matrix_constrain.hpp:71-95 | It performs the same size check and returns the same matrix. lp grows by K·log 2 + Σ_k (K-k+1)·log L(k,k), and stays put on error |
| CovMatrix.AddDiagonalTerms | src/stan/prob/transform/cov_matrix_constrain.hpp:91-92 | The diagonal loop adds Σ_k (K-k+1)·log L(k,k) |
| CovMatrix.DiagonalTermsOfFree | src/stan/prob/transform/cov_matrix_constrain.hpp:89-92 | With log(exp a) = a, the diagonal terms are Σ_k (K-k+1)·x(diagonal k) |
| CpcLayout.ColStartSize | src/stan/prob/transform/make_nu.hpp:38 | The K-1 columns of K-1, K-2, … 1 CPCs hold K(K-1)/2 in all |
| CpcLayout.ColumnOfAt | src/stan/prob/transform/make_nu.hpp:50-58 | Entry t of block c sits in column c |
| MakeNu.MakeNu | src/stan/prob/transform/make_nu.hpp:34-60 | The result has K(K-1)/2 entries. Entry j is 2·(eta + (K-2)/2 - c/2), where c is j's column, so every slot is written |
| MakeNu.NuBlock | src/stan/prob/transform/make_nu.hpp:51-58 | The K-1-i entries of block i equal 2·(eta + (K-2)/2 - i/2). For i = 0 these are the first K-1 entries |
| MakeNu.NuNonIncreasing | src/stan/prob/transform/make_nu.hpp:52-53 | The degrees of freedom never increase along the array |
| ReadCorrL.ReadCorrL | src/stan/prob/transform/read_corr_L.hpp:46-73 | The column-by-column construction yields exactly the factor CorrFactor |
| ReadCorrL.CorrFactorShape | src/stan/prob/transform/read_corr_L.hpp:54-61 | L is lower triangular, L(0,0) = 1, and L(r,0) = CPCs[r-1] |
| ReadCorrL.CpcsReadOnce | src/stan/prob/transform/read_corr_L.hpp:57-70 | The segments at position = Σ of the earlier pulls use every one of the K(K-1)/2 CPCs exactly once, column by column |
| ReadCorrL.AccPositive | src/stan/prob/transform/read_corr_L.hpp:62-69 | With every CPC in (-1, 1), acc stays positive, so every sqrt is of a positive number |
| ReadCorrL.RowNormOne | src/stan/prob/transform/read_corr_L.hpp:26-43 | Every row of L has squared norm 1, so L·Lᵀ has unit diagonal: L is the Cholesky factor of a correlation matrix |
| ReadCorrL.AccumulateLogProb | src/stan/prob/transform/read_corr_L.hpp:113-129 | The loop adds lead/2·log1m(CPC[j]²) for every j < CPCs.rows()-1, with the counters i, k and lead updated as written |
| ReadCorrL.ReadCorrLLp | src/stan/prob/transform/read_corr_L.hpp:101-131 | It returns the same L as read_corr_L(CPCs, K), and changes log_prob only by the loop's sum |
| ReadCorrL.AsWrittenLead | src/stan/prob/transform/read_corr_L.hpp:107-128 | As written, the first K+1 CPCs get lead K-2, and CPC j > K gets the C-vine weight of CPC j-K-1 |
| ReadCorrL.AsWrittenMisweighs | src/stan/prob/transform/read_corr_L.hpp:107-128 | For K ≥ 4, CPC K-1 (the first of column 1) gets lead K-2 where the C-vine Jacobian needs K-3 |
| ReadCorrL.CorrectedLeadIsLkj | src/stan/prob/transform/read_corr_L.hpp:82-88 | With the counters started at k = 1, i = 2, the lead of a CPC in column c is K-2-c, the C-vine weight |
| ReadCorrL.LastCpcAddsNothing | src/stan/prob/transform/read_corr_L.hpp:113 | The skipped last CPC has C-vine weight 0, so skipping it loses nothing |
| ReadCorrL.ReadCorrLLpCorrected | src/stan/prob/transform/read_corr_L.hpp:101-131 | The corrected overload returns the same L and adds exactly the C-vine log Jacobian Σ (K-2-c)/2·log1m(CPC²) |

## Left out

- Floating point. Values are exact reals. NaN propagation, overflow and rounding are not modelled, and neither are the `EXPECT_FLOAT_EQ` tolerances of the tests. A division by zero yields an unspecified value (`Elementary.Divide`).
- The elementary functions are abstract. Only the laws listed above are assumed, each one as a `requires` of the lemmas that use it.
- `stan::math::LOG_2` is modelled as `log 2.0` through the abstract `log`.
- `var.hpp`, `vari.hpp`, the chainable stack, its arena allocator (`chainable::operator new`) and `grad` are not part of this model. The tape is a plain sequence of nodes. `Grad` is a minimal sweep from one root, with adjoints starting at 0 and the root seeded with 1.
- The product of a `var` and a `double` in the tests (`1.7 * my_exp(x)`) is modelled as a `fun_dv_vari` node for the product functor. The real operator is not part of this model.
- `partials_vari` shares `all_varis` and `all_partials` with `OperandsAndPartials`. The model copies them into the pushed node at `to_var`. Later writes through the views do not reach a node that was already pushed, and that aliasing is not modelled.
- `OperandsAndPartials` takes at most six arguments in the source. The model takes any sequence of arguments. `VectorView` is not part of this model: a view is its index window in the shared buffer.
- The forward specialisation is modelled for `fvar<double>` only. Nested `fvar<fvar<T>>` and `var` tangents are left out, so the mixed second derivatives of the nested tests are not stated.
- Constant folding in `to_var` is decided in the source from the result type `T_return_type`. The model decides it from the arguments: every argument is a `double` or a vector of them.
- `math::apply<F>(x)` is inlined as `F::f(x)`.
- `check_simplex` is not part of this model. The model accepts a non-empty vector with every entry ≥ 0 whose sum is within a tolerance of 1, with the tolerance a parameter.
- `size_t` arithmetic is unbounded. Where it would wrap, the source's callers must rule it out, so `make_nu` requires K ≥ 1; for K = 0 the value K - 1 wraps.
- ReadCorrL.ReadCorrL: requires K ≥ 2 and exactly K(K-1)/2 CPCs. For K = 1 the source reads `acc(K-2)` out of bounds, and for K = 0 it writes `L(0,0)` of a 0×0 matrix. The CPC count is documented but not checked.
- The Eigen matrix and array types are modelled as `seq<seq<real>>`. In `read_corr_L` they are an `array2`.
- `cov_matrix_constrain` computes `M = L * L.transpose()` and then discards it. That dead value is not modelled.

## Findings

| source | as written | input that shows it | evidently intended | confidence | as-written member | corrected member |
|---|---|---|---|---|---|---|
| src/stan/prob/transform/read_corr_L.hpp:107-128 | The `log_prob` loop starts at k = 0, i = 0 and keeps lead = K-2 until i exceeds K. So the first K+1 CPCs get weight K-2, and every later CPC gets the weight of the CPC K+1 positions before it | K = 4: CPCs at positions 3 and 4, of column 1, get lead 2 where the C-vine Jacobian has 1 | The lead of a CPC in column c is K-2-c, as in the construction the comment at lines 82-88 cites. Starting the counters at k = 1, i = 2 gives exactly that | high; not executed | ReadCorrL.AsWrittenMisweighs | ReadCorrL.ReadCorrLLpCorrected |
