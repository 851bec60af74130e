/**
  Computable real numbers built from integer constants, negation and addition.

  A `Real` is a node: an evaluator (`kind`) together with the environment it
  closes over (`env`). Asking a node for its approximation at precision `n`
  yields a rational that is meant to lie within 1/n of the exact value the node
  denotes. Rationals are exact: they are modelled by Dafny's `real`, and every
  value that arises here is a ratio of integers.
*/
module ConstructiveReals {

  /** The source's 32-bit signed integer, the input of the constant lifting. */
  newtype i32 = x: int | -0x8000_0000 <= x < 0x8000_0000

  /** Which evaluator a node runs: the source stores one function pointer per
      operator implementation; all of a kind share the same body. */
  datatype Kind = Constant | Negation | Sum

  /** The environment an evaluator closes over: child reals or exact rationals. */
  datatype Capture = Capture(r: seq<Real>, q: seq<real>)

  datatype Real = Real(kind: Kind, env: Capture)

  /** How an operand is handed to an operator: moved in, or borrowed shared or
      exclusively (a borrowed operand is cloned into the new node). */
  datatype Operand = Owned(v: Real) | Shared(v: Real) | Exclusive(v: Real)

  // ---------------------------------------------------------------------------
  // The shape of an environment
  // ---------------------------------------------------------------------------

  /** The environment holds exactly `k` child reals and no rationals. */
  predicate HoldsReals(c: Capture, k: nat) {
    |c.r| == k && c.q == []
  }

  /** The environment holds exactly `k` rationals and no child reals. */
  predicate HoldsRats(c: Capture, k: nat) {
    c.r == [] && |c.q| == k
  }

  /** What each evaluator indexes: a constant reads `q[0]`, a negation `r[0]`,
      a sum `r[0]` and `r[1]`; every child must in turn be safe to evaluate. */
  predicate Safe(x: Real)
    decreases x
  {
    match x.kind
    case Constant => |x.env.q| >= 1
    case Negation => |x.env.r| >= 1 && Safe(x.env.r[0])
    case Sum => |x.env.r| >= 2 && Safe(x.env.r[0]) && Safe(x.env.r[1])
  }

  /** The exact shape the constructors build: a constant holds one rational and
      no reals, a negation one real, a sum two reals, all the way down. */
  predicate Shaped(x: Real)
    decreases x
  {
    match x.kind
    case Constant => HoldsRats(x.env, 1)
    case Negation => HoldsReals(x.env, 1) && Shaped(x.env.r[0])
    case Sum => HoldsReals(x.env, 2) && Shaped(x.env.r[0]) && Shaped(x.env.r[1])
  }

  /** A node of the constructors' shape never indexes out of bounds. */
  lemma {:induction false} ShapedIsSafe(x: Real)
    requires Shaped(x)
    ensures Safe(x)
    decreases x
  {
    match x.kind
    case Constant =>
    case Negation =>
      ShapedIsSafe(x.env.r[0]);
    case Sum =>
      ShapedIsSafe(x.env.r[0]);
      ShapedIsSafe(x.env.r[1]);
  }

  // ---------------------------------------------------------------------------
  // Capture constructors
  // ---------------------------------------------------------------------------

  /** The environment of a negation: the single child. */
  function Of(x: Real): (c: Capture)
    ensures HoldsReals(c, 1) && c.r[0] == x
  {
    Capture([x], [])
  }

  /** The environment of a node over several children. */
  function OfReals(rs: seq<Real>): (c: Capture)
    ensures HoldsReals(c, |rs|) && c.r == rs
  {
    Capture(rs, [])
  }

  /** The environment of a constant: its rationals. */
  function OfRats(qs: seq<real>): (c: Capture)
    ensures HoldsRats(c, |qs|) && c.q == qs
  {
    Capture([], qs)
  }

  // ---------------------------------------------------------------------------
  // Clone: a deep copy (the derived clone of Capture clones every child real)
  // ---------------------------------------------------------------------------

  /** Duplicating a node yields an equal, independently owned node. */
  function CloneReal(x: Real): (c: Real)
    ensures c == x
    decreases x, 1
  {
    Real(x.kind, CloneCapture(x.env))
  }

  /** Duplicating an environment duplicates every child real and copies the
      rationals. */
  function CloneCapture(env: Capture): (c: Capture)
    ensures c == env
    decreases env, 0
  {
    var rs := seq(|env.r|, i requires 0 <= i < |env.r| => CloneReal(env.r[i]));
    Capture(rs, env.q)
  }

  // ---------------------------------------------------------------------------
  // Evaluation
  // ---------------------------------------------------------------------------

  /** The approximation of `x` at precision `n`. Each evaluator works on a clone
      of the children it reads; a sum asks each child for twice the precision.
      Total on every integer `n`, zero and negative ones included. */
  function Approx(x: Real, n: int): (r: real)
    requires Safe(x)
    decreases x
  {
    match x.kind
    case Constant => x.env.q[0]
    case Negation => -Approx(CloneReal(x.env.r[0]), n)
    case Sum =>
      var r0 := CloneReal(x.env.r[0]);
      var r1 := CloneReal(x.env.r[1]);
      Approx(r0, 2 * n) + Approx(r1, 2 * n)
  }

  /** The exact real a node denotes. The library has no such operation: this
      is the meaning its approximations are measured against. */
  function Value(x: Real): (v: real)
    requires Safe(x)
    decreases x
  {
    match x.kind
    case Constant => x.env.q[0]
    case Negation => -Value(x.env.r[0])
    case Sum => Value(x.env.r[0]) + Value(x.env.r[1])
  }

  function Abs(a: real): (m: real) {
    if a < 0.0 then -a else a
  }

  /** The accuracy contract for any approximation procedure `f` of the exact
      real `v`: at every precision n >= 1, `f(n)` lies within 1/n of `v`. */
  ghost predicate WithinContract(f: int -> real, v: real) {
    forall n: int :: n >= 1 ==> Abs(f(n) - v) <= 1.0 / (n as real)
  }

  /** A node meets the accuracy contract: at every precision n >= 1 its
      approximation lies within 1/n of its exact value. */
  ghost predicate Accurate(x: Real)
    requires Safe(x)
  {
    forall n: int :: n >= 1 ==> Abs(Approx(x, n) - Value(x)) <= 1.0 / (n as real)
  }

  /** A node's approximations as a procedure, so that the rule lemmas below,
      which speak of arbitrary procedures, apply to nodes. */
  function ApproxOf(x: Real): (f: int -> real) {
    n => if Safe(x) then Approx(x, n) else 0.0
  }

  // ---------------------------------------------------------------------------
  // Constructors: constant lifting, negation, addition
  // ---------------------------------------------------------------------------

  /** The real that an operand contributes to a new node's environment: an
      owned operand is moved in, a borrowed one is cloned. */
  function Take(o: Operand): (x: Real)
    ensures x == o.v
  {
    match o
    case Owned(v) => v
    case Shared(v) => CloneReal(v)
    case Exclusive(v) => CloneReal(v)
  }

  /** Lifting a 32-bit integer: a constant node holding that integer as a rational. */
  function FromI32(k: i32): (x: Real)
    ensures Shaped(x) && Safe(x)
    ensures Value(x) == k as real
  {
    Real(Constant, OfRats([k as real]))
  }

  /** The negation of an operand, in any of its three forms. */
  function Negate(o: Operand): (x: Real)
    ensures Safe(o.v) ==> Safe(x) && Value(x) == -Value(o.v)
    ensures Shaped(o.v) ==> Shaped(x)
  {
    Real(Negation, Of(Take(o)))
  }

  /** The sum of two operands, in any of the nine combinations of forms. */
  function Add(a: Operand, b: Operand): (x: Real)
    ensures Safe(a.v) && Safe(b.v) ==> Safe(x) && Value(x) == Value(a.v) + Value(b.v)
    ensures Shaped(a.v) && Shaped(b.v) ==> Shaped(x)
  {
    Real(Sum, OfReals([Take(a), Take(b)]))
  }

  // ---------------------------------------------------------------------------
  // The evaluation rules, stated on the constructors
  // ---------------------------------------------------------------------------

  /** A lifted integer approximates to exactly that integer, whatever `n`. */
  lemma ApproxFromI32(k: i32, n: int)
    ensures Approx(FromI32(k), n) == k as real
  {
  }

  /** Negation negates the child's approximation at the same precision. */
  lemma ApproxNegate(o: Operand, n: int)
    requires Safe(o.v)
    ensures Approx(Negate(o), n) == -Approx(o.v, n)
  {
  }

  /** A sum asks each child for twice the precision and adds the results. */
  lemma ApproxAdd(a: Operand, b: Operand, n: int)
    requires Safe(a.v) && Safe(b.v)
    ensures Approx(Add(a, b), n) == Approx(a.v, 2 * n) + Approx(b.v, 2 * n)
  {
  }

  /** A clone approximates exactly like the original at every precision. */
  lemma CloneApprox(x: Real, n: int)
    requires Safe(x)
    ensures Safe(CloneReal(x)) && Approx(CloneReal(x), n) == Approx(x, n)
  {
  }

  /** The owned, shared and exclusive forms of an operator build the same node,
      so they approximate identically; the borrowed operand is left as it was. */
  lemma OperandFormsAgree(a: Operand, b: Operand, n: int)
    requires Safe(a.v) && Safe(b.v)
    ensures Negate(a) == Negate(Owned(a.v))
    ensures Add(a, b) == Add(Owned(a.v), Owned(b.v))
    ensures Approx(Negate(a), n) == Approx(Negate(Owned(a.v)), n)
    ensures Approx(Add(a, b), n) == Approx(Add(Owned(a.v), Owned(b.v)), n)
  {
  }

  // ---------------------------------------------------------------------------
  // Accuracy
  // ---------------------------------------------------------------------------

  /** Error propagation of one negation, on rationals alone: negating an
      approximation does not change its distance from the negated value. */
  lemma NegErrorBound(ax: real, vx: real, n: int)
    requires n >= 1
    requires Abs(ax - vx) <= 1.0 / (n as real)
    ensures Abs(-ax - -vx) <= 1.0 / (n as real)
  {
  }

  /** 1/(2n) + 1/(2n) == 1/n: the arithmetic step of the sum rule, named so
      that the sum's error bound does not depend on the solver finding it. */
  lemma HalvesMakeWhole(n: int)
    requires n >= 1
    ensures 1.0 / ((2 * n) as real) + 1.0 / ((2 * n) as real) == 1.0 / (n as real)
  {
  }

  /** Error propagation of one sum, on rationals alone: two approximations
      each within 1/(2n) of their values add up to within 1/n of the sum,
      since 1/(2n) + 1/(2n) = 1/n. */
  lemma SumErrorBound(ax: real, vx: real, ay: real, vy: real, n: int)
    requires n >= 1
    requires Abs(ax - vx) <= 1.0 / ((2 * n) as real)
    requires Abs(ay - vy) <= 1.0 / ((2 * n) as real)
    ensures Abs((ax + ay) - (vx + vy)) <= 1.0 / (n as real)
  {
    HalvesMakeWhole(n);
  }

  /** The negation rule, applied to any procedure meeting the contract (not
      only to the exact nodes of this model), yields one meeting it too. */
  lemma NegRulePreservesContract(f: int -> real, v: real)
    requires WithinContract(f, v)
    ensures WithinContract(n => -f(n), -v)
  {
    forall n: int | n >= 1
      ensures Abs(-f(n) - -v) <= 1.0 / (n as real)
    {
      NegErrorBound(f(n), v, n);
    }
  }

  /** The sum rule, applied to any two procedures meeting the contract, yields
      one meeting it: each child is asked for 2n, so each is off by at most
      1/(2n), and the two errors add up to at most 1/n. */
  lemma SumRulePreservesContract(f: int -> real, vf: real, g: int -> real, vg: real)
    requires WithinContract(f, vf) && WithinContract(g, vg)
    ensures WithinContract(n => f(2 * n) + g(2 * n), vf + vg)
  {
    forall n: int | n >= 1
      ensures Abs((f(2 * n) + g(2 * n)) - (vf + vg)) <= 1.0 / (n as real)
    {
      SumErrorBound(f(2 * n), vf, g(2 * n), vg, n);
    }
  }

  /** A procedure that errs by exactly 1/n at every precision n >= 1: it meets
      the contract for the value 0 with no slack. */
  function OffByOneOverN(n: int): (r: real) {
    if n >= 1 then 1.0 / (n as real) else 0.0
  }

  /** The doubling is needed: a sum that asked its children for the same
      precision n would break the contract. Two children erring by 1/n each
      give a total error of 2/n > 1/n, while the doubled rule stays within. */
  lemma SamePrecisionBreaksContract()
    ensures WithinContract(OffByOneOverN, 0.0)
    ensures !WithinContract(n => OffByOneOverN(n) + OffByOneOverN(n), 0.0)
    ensures WithinContract(n => OffByOneOverN(2 * n) + OffByOneOverN(2 * n), 0.0 + 0.0)
  {
    var undoubled := n => OffByOneOverN(n) + OffByOneOverN(n);
    assert undoubled(1) == 2.0;
    assert Abs(undoubled(1) - 0.0) > 1.0 / (1 as real);
    SumRulePreservesContract(OffByOneOverN, 0.0, OffByOneOverN, 0.0);
  }

  /** A negation node's approximations are the negation rule applied to its
      operand's, so the rule lemma carries the contract over to the node. */
  lemma NegNodeIsNegRule(o: Operand)
    requires Safe(o.v) && WithinContract(ApproxOf(o.v), Value(o.v))
    ensures Safe(Negate(o)) && WithinContract(ApproxOf(Negate(o)), Value(Negate(o)))
  {
    var f := ApproxOf(o.v);
    NegRulePreservesContract(f, Value(o.v));
    forall n: int | n >= 1
      ensures Abs(ApproxOf(Negate(o))(n) - Value(Negate(o))) <= 1.0 / (n as real)
    {
      ApproxNegate(o, n);
      assert ApproxOf(Negate(o))(n) == -f(n);
      assert (m => -f(m))(n) == -f(n);
    }
  }

  /** A sum node's approximations are the doubling sum rule applied to its
      operands', so the rule lemma carries the contract over to the node. */
  lemma AddNodeIsSumRule(a: Operand, b: Operand)
    requires Safe(a.v) && WithinContract(ApproxOf(a.v), Value(a.v))
    requires Safe(b.v) && WithinContract(ApproxOf(b.v), Value(b.v))
    ensures Safe(Add(a, b)) && WithinContract(ApproxOf(Add(a, b)), Value(Add(a, b)))
  {
    var f, g := ApproxOf(a.v), ApproxOf(b.v);
    SumRulePreservesContract(f, Value(a.v), g, Value(b.v));
    forall n: int | n >= 1
      ensures Abs(ApproxOf(Add(a, b))(n) - Value(Add(a, b))) <= 1.0 / (n as real)
    {
      ApproxAdd(a, b, n);
      assert ApproxOf(Add(a, b))(n) == f(2 * n) + g(2 * n);
      assert (m => f(2 * m) + g(2 * m))(n) == f(2 * n) + g(2 * n);
    }
  }

  /** The accuracy contract of a node is the contract of its approximations
      seen as a procedure. */
  lemma AccurateIsWithinContract(x: Real)
    requires Safe(x)
    ensures Accurate(x) <==> WithinContract(ApproxOf(x), Value(x))
  {
    var f := ApproxOf(x);
    if Accurate(x) {
      forall n: int | n >= 1
        ensures Abs(f(n) - Value(x)) <= 1.0 / (n as real)
      {
        assert f(n) == Approx(x, n);
      }
    }
    if WithinContract(f, Value(x)) {
      forall n: int | n >= 1
        ensures Abs(Approx(x, n) - Value(x)) <= 1.0 / (n as real)
      {
        assert f(n) == Approx(x, n);
        assert Abs(f(n) - Value(x)) <= 1.0 / (n as real);
      }
    }
  }

  /** Negation keeps the 1/n bound unchanged: the negation rule lemma, carried
      over to the node. */
  lemma NegatePreservesAccuracy(o: Operand)
    requires Safe(o.v) && Accurate(o.v)
    ensures Safe(Negate(o)) && Accurate(Negate(o))
  {
    AccurateIsWithinContract(o.v);
    NegNodeIsNegRule(o);
    AccurateIsWithinContract(Negate(o));
  }

  /** The sum keeps the 1/n bound: the doubling sum rule lemma, carried over to
      the node. */
  lemma AddPreservesAccuracy(a: Operand, b: Operand)
    requires Safe(a.v) && Safe(b.v) && Accurate(a.v) && Accurate(b.v)
    ensures Safe(Add(a, b)) && Accurate(Add(a, b))
  {
    AccurateIsWithinContract(a.v);
    AccurateIsWithinContract(b.v);
    AddNodeIsSumRule(a, b);
    AccurateIsWithinContract(Add(a, b));
  }

  /** Every node the constructors can build meets the accuracy contract; the
      proof uses only the two preservation lemmas, not exactness. */
  lemma {:induction false} ShapedIsAccurate(x: Real)
    requires Shaped(x)
    ensures Safe(x) && Accurate(x)
    decreases x
  {
    ShapedIsSafe(x);
    match x.kind
    case Constant =>
      forall n: int | n >= 1
        ensures Abs(Approx(x, n) - Value(x)) <= 1.0 / (n as real)
      {
      }
    case Negation =>
      var c := x.env.r[0];
      ShapedIsAccurate(c);
      NegatePreservesAccuracy(Owned(c));
      assert x == Negate(Owned(c));
    case Sum =>
      var c0, c1 := x.env.r[0], x.env.r[1];
      ShapedIsAccurate(c0);
      ShapedIsAccurate(c1);
      AddPreservesAccuracy(Owned(c0), Owned(c1));
      assert x.env.r == [c0, c1];
      assert x == Add(Owned(c0), Owned(c1));
  }

  /** For trees of constants, negations and sums the approximation is exact:
      it equals the denoted value at every precision, zero included. */
  lemma {:induction false} ApproxIsExact(x: Real, n: int)
    requires Safe(x)
    ensures Approx(x, n) == Value(x)
    decreases x
  {
    match x.kind
    case Constant =>
    case Negation =>
      ApproxIsExact(x.env.r[0], n);
    case Sum =>
      ApproxIsExact(x.env.r[0], 2 * n);
      ApproxIsExact(x.env.r[1], 2 * n);
  }

  /** Hence the approximation does not depend on the precision asked for. */
  lemma ApproxIndependentOfPrecision(x: Real, n: int, m: int)
    requires Safe(x)
    ensures Approx(x, n) == Approx(x, m)
  {
    ApproxIsExact(x, n);
    ApproxIsExact(x, m);
  }
}
