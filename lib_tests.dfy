/** The library's unit tests, as facts about the model. They ask for precision
    zero, where the accuracy contract says nothing; the results are exact. */
module LibTests {
  import opened ConstructiveReals

  /** `-r1` approximates to -1 and `-r0` to 0 (the tests negate owned operands). */
  lemma NegTest()
    ensures Approx(Negate(Owned(FromI32(1))), 0) == -1.0
    ensures Approx(Negate(Owned(FromI32(0))), 0) == 0.0
  {
  }

  /** Sums of borrowed constants: 1+1, 0+1, 1+2, 2+2 and 0+0. */
  lemma AddTest()
    ensures Approx(Add(Shared(FromI32(1)), Shared(FromI32(1))), 0) == 2.0
    ensures Approx(Add(Shared(FromI32(0)), Shared(FromI32(1))), 0) == 1.0
    ensures Approx(Add(Shared(FromI32(1)), Shared(FromI32(2))), 0) == 3.0
    ensures Approx(Add(Shared(FromI32(2)), Shared(FromI32(2))), 0) == 4.0
    ensures Approx(Add(Shared(FromI32(0)), Shared(FromI32(0))), 0) == 0.0
  {
  }

  /** The same seven results hold at every precision, not just at zero. */
  lemma {:induction false} TestsAtEveryPrecision(n: int)
    ensures Approx(Negate(Owned(FromI32(1))), n) == -1.0
    ensures Approx(Negate(Owned(FromI32(0))), n) == 0.0
    ensures Approx(Add(Shared(FromI32(1)), Shared(FromI32(1))), n) == 2.0
    ensures Approx(Add(Shared(FromI32(0)), Shared(FromI32(1))), n) == 1.0
    ensures Approx(Add(Shared(FromI32(1)), Shared(FromI32(2))), n) == 3.0
    ensures Approx(Add(Shared(FromI32(2)), Shared(FromI32(2))), n) == 4.0
    ensures Approx(Add(Shared(FromI32(0)), Shared(FromI32(0))), n) == 0.0
  {
    ApproxIsExact(Negate(Owned(FromI32(1))), n);
    ApproxIsExact(Negate(Owned(FromI32(0))), n);
    ApproxIsExact(Add(Shared(FromI32(1)), Shared(FromI32(1))), n);
    ApproxIsExact(Add(Shared(FromI32(0)), Shared(FromI32(1))), n);
    ApproxIsExact(Add(Shared(FromI32(1)), Shared(FromI32(2))), n);
    ApproxIsExact(Add(Shared(FromI32(2)), Shared(FromI32(2))), n);
    ApproxIsExact(Add(Shared(FromI32(0)), Shared(FromI32(0))), n);
  }
}
