# Constructive reals: a Dafny model

A model of a small Rust library of computable real numbers. A `Real` is a node
holding an evaluator and the environment it captured (`Capture`): either a list
of child reals or a list of exact rationals. `approx(n)` returns a rational
meant to lie within 1/n of the real the node denotes. Three kinds of node
exist: constants lifted from `i32`, negations (three operator impls: owned,
`&`, `&mut`) and sums (nine operator impls, one per pair of operand forms).
A sum asks each child for twice the precision, so that two errors of at most
1/(2n) add up to at most 1/n.

Files:

- `constructive_reals.dfy` (module `ConstructiveReals`): the data model
  (`Real`, `Capture`, the evaluator tag `Kind`, the operand forms `Operand`),
  the capture constructors, the deep-copy `clone`, the evaluator `Approx`, the
  exact denotation `Value`, the constructors `FromI32`, `Negate`, `Add`, and
  the lemmas about them.
- `lib_tests.dfy` (module `LibTests`): the library's unit tests as lemmas.

Modelling choices:

- The evaluator function pointer becomes a tag (`Kind`) and `Approx`
  dispatches on it. The source defines one evaluator per operator impl, but
  all evaluators of one kind have the same body, so one tag per kind suffices.
- `BigRational` becomes Dafny's exact `real` (only ratios of integers arise);
  `BigInt` precision becomes an unbounded `int`. `i32` is a newtype over its
  range, and its conversion to a rational is exact.
- `Safe` states what the evaluators index (`q[0]`, `r[0]`, `r[1]`), which
  the Rust code would otherwise panic on; `Approx` requires it. `Shaped` is
  the exact shape the constructors build (a constant has one rational and
  no reals, a negation one real, a sum two). `ShapedIsSafe` shows that the
  indexing never fails on a constructed node.
- `clone` is a real deep copy (`CloneReal`, `CloneCapture`), and the
  evaluators approximate the clone of each child, as the source does. The
  copy is proved equal to the original.
- An operand's form (`Owned`, `Shared`, `Exclusive`) decides whether it is
  moved or cloned into the new node's environment (`Take`).
- `Value` is the exact real a node denotes. The library has no such
  operation; it is what the approximations are measured against.
- `WithinContract(f, v)` states the accuracy contract for any approximation
  procedure `f : int -> real`, not only for the nodes built here. Every node
  the library can build is exact (`ApproxIsExact`), so the contract holds of
  them whatever rule a sum uses; the role of the doubling is therefore stated
  on arbitrary procedures (`SumRulePreservesContract`,
  `SamePrecisionBreaksContract`). The helper `ApproxOf` takes a node's
  approximations as such a procedure, and `NegNodeIsNegRule` and
  `AddNodeIsSumRule` apply the rule lemmas to nodes. `Accurate(x)` and
  `WithinContract(ApproxOf(x), Value(x))` state the same contract in two
  spellings (`AccurateIsWithinContract`), and the node-level preservation
  lemmas `NegatePreservesAccuracy` and `AddPreservesAccuracy` are derived
  from the node-rule lemmas through that equivalence. The rule lemmas rest on
  the error bounds on rationals (`NegErrorBound`, `SumErrorBound`).
- `Approx` is total on every integer precision, zero and negative ones
  included, as in the code (the tests call it at precision 0). The
  accuracy contract (`Accurate`) only speaks of `n >= 1`.

## Model

| member | source | states |
|---|---|---|
| `ConstructiveReals.Of` | src/lib.rs:16-18 | the environment of a negation holds exactly the one child and no rationals |
| `ConstructiveReals.OfReals` | src/lib.rs:20-22 | the environment holds exactly the given children, in order, and no rationals |
| `ConstructiveReals.OfRats` | src/lib.rs:24-26 | the environment holds exactly the given rationals and no child reals |
| `ConstructiveReals.CloneCapture` | src/lib.rs:9-13 | the derived clone of an environment, which clones every child, yields an equal environment |
| `ConstructiveReals.CloneReal` | src/lib.rs:34-41 | cloning a node (same evaluator, cloned environment) yields a node equal to the original |
| `ConstructiveReals.CloneApprox` | src/lib.rs:34-41 | a clone approximates exactly as the original at every precision |
| `ConstructiveReals.Take` | src/lib.rs:61-197 | an operand enters the new environment unchanged, whether moved in (67, 99, and the by-value operand at 111, 123, 135, 171) or cloned from a borrow (77, 87, and the borrowed operand at 111-195) |
| `ConstructiveReals.Approx` | src/lib.rs:43-98 | `approx` runs the node's evaluator: a constant returns its rational (51-53), a negation minus its child's approximation (64-66), a sum its children's approximations at 2n (94-98); its properties are the rows below |
| `ConstructiveReals.FromI32` | src/lib.rs:49-58 | lifting an `i32` builds a well-shaped constant node whose value is that integer |
| `ConstructiveReals.ApproxFromI32` | src/lib.rs:51-53 | a lifted integer approximates to exactly that integer at every precision, independent of n |
| `ConstructiveReals.Negate` | src/lib.rs:61-89 | all three negation forms build a well-shaped node (if the operand is) whose value is minus the operand's |
| `ConstructiveReals.ApproxNegate` | src/lib.rs:64-66 | a negation approximates to minus the child's approximation at the same precision |
| `ConstructiveReals.NegErrorBound` | src/lib.rs:64-66 | on rationals alone: an approximation within 1/n of its value stays within 1/n of the negated value once negated |
| `ConstructiveReals.NegRulePreservesContract` | src/lib.rs:64-66 | the negation rule applied to any procedure within 1/n at every n >= 1 (exact or not) gives a procedure within 1/n of the negated value |
| `ConstructiveReals.NegNodeIsNegRule` | src/lib.rs:61-89 | the negation rule lemma applied to a negation node: if the operand's approximations meet the contract, so do the node's |
| `ConstructiveReals.NegatePreservesAccuracy` | src/lib.rs:61-89 | if the operand is within 1/n for every n >= 1, so is its negation, in any of the three forms; derived from `NegNodeIsNegRule` |
| `ConstructiveReals.Add` | src/lib.rs:91-197 | all nine addition forms build a well-shaped node (if the operands are) whose value is the sum of the operands' |
| `ConstructiveReals.ApproxAdd` | src/lib.rs:94-98 | a sum approximates to the sum of the children's approximations at twice the precision |
| `ConstructiveReals.SumErrorBound` | src/lib.rs:97 | on rationals alone: two approximations each within 1/(2n) of their values sum to within 1/n of the sum of the values |
| `ConstructiveReals.SumRulePreservesContract` | src/lib.rs:94-98 | the doubling sum rule applied to any two procedures within 1/m at every m >= 1 (exact or not) gives a procedure within 1/n of the sum at every n >= 1 |
| `ConstructiveReals.SamePrecisionBreaksContract` | src/lib.rs:97 | the doubling is needed: with children erring by exactly 1/n, asking them for n gives error 2/n and breaks the contract, while asking for 2n keeps it |
| `ConstructiveReals.AddNodeIsSumRule` | src/lib.rs:91-197 | the doubling sum rule lemma applied to a sum node: if both operands' approximations meet the contract, so do the node's |
| `ConstructiveReals.AccurateIsWithinContract` | src/lib.rs:43-46 | the accuracy contract of a node and the contract of its approximations taken as a procedure of n are the same statement, in both directions |
| `ConstructiveReals.AddPreservesAccuracy` | src/lib.rs:91-197 | if both operands are within 1/m for every m >= 1, the sum node is within 1/n for every n >= 1, in any of the nine forms; derived from `AddNodeIsSumRule` |
| `ConstructiveReals.OperandFormsAgree` | src/lib.rs:61-197 | owned, `&` and `&mut` operands build identical nodes, hence identical approximations at every precision |
| `ConstructiveReals.ShapedIsSafe` | src/lib.rs:49-99 | on every node the constructors build, the `q[0]`, `r[0]` and `r[1]` indexing is in bounds |
| `ConstructiveReals.ShapedIsAccurate` | src/lib.rs:43-46 | every constructed node meets the accuracy contract, by induction using only the two preservation lemmas |
| `ConstructiveReals.ApproxIsExact` | src/lib.rs:43-46 | on trees of constants, negations and sums, the approximation equals the exact value at every precision, zero included |
| `ConstructiveReals.ApproxIndependentOfPrecision` | src/lib.rs:43-46 | on such trees, the approximation is the same at any two precisions |
| `LibTests.NegTest` | src/lib.rs:203-211 | `-1` approximates to -1 and `-0` to 0 at precision 0 |
| `LibTests.AddTest` | src/lib.rs:213-228 | `1+1`, `0+1`, `1+2`, `2+2`, `0+0` built from borrowed constants approximate to 2, 1, 3, 4, 0 at precision 0 |
| `LibTests.TestsAtEveryPrecision` | src/lib.rs:203-228 | all seven tested results (-1, 0, 2, 1, 3, 4, 0) hold at every precision, not only at 0 |

## Left out

- The internals of `num`'s `BigInt` and `BigRational` are not modelled: they are taken as exact integer and rational arithmetic (`int`, `real`).
- NegatePreservesAccuracy: every node of this model is exact, so the lemma would hold under any negation rule; preservation for an operand that actually errs is stated by NegRulePreservesContract on arbitrary procedures instead.
- AddPreservesAccuracy: every node of this model is exact, so the lemma would hold under any sum rule, 2n or not; that the 2n rule is what keeps an erring sum within 1/n is stated by SumRulePreservesContract and SamePrecisionBreaksContract on arbitrary procedures instead.
- ShapedIsAccurate: for the same reason it does not single out the doubling rule; it is proved from the two preservation lemmas.
- The evaluator is a tag, not a function pointer. The model cannot express a node carrying an arbitrary user-supplied evaluator, which the source's `Real` could hold in principle, though no constructor builds one.
- Rust ownership (moves, borrows, lifetimes) is not modelled. Values are immutable, so a borrowed operand staying usable after the operator call holds trivially; only the clone into the new environment is kept.
- Cost is not modelled: there is no memoization, and every `approx` call re-walks and re-clones the whole tree.
- Thread safety is not modelled: nothing in the code is concurrent.
- The 1/n accuracy bound at precision n <= 0 is not modelled because 1/n means nothing there; `Approx` itself is defined for every integer n.
