/** Differencing on programs: the array-to-scalar chain of awns4.c, a sum that subtracts, and programs on which the
    generated code or its records are wrong. */
module DiffExamples {
  import opened DiffSpec
  import opened DiffSound
  import opened DiffSums
  import opened DiffProgram

  function Num(c: int): Term { Leaf(Lit(c)) }

  /** `x = x + t` and `x = x - t`. */
  function PlusEq(x: nat, t: Term): Phase { Accum(x, Bin(Add, Load(Scl(x)), t)) }
  function MinusEq(x: nat, t: Term): Phase { Accum(x, Bin(Sub, Load(Scl(x)), t)) }

  const A := Load(Arr(0))
  const B := Load(Arr(1))

  // ----- awns4.c: a[i] = 1; x += a[i]; b[i] = x + N; y += b[i] -----

  const AWNS4 := [
    ArrLoop(0, Num(1)), OuterSet(0, Lit(0)), PlusEq(0, A),
    ArrLoop(1, Bin(Add, Load(Scl(0)), Leaf(Size))), OuterSet(1, Lit(0)), PlusEq(1, B)]

  lemma {:induction false} ConstantTotal(s: State, a: nat, n: int, k: nat, c: int)
    requires forall i: int | 0 <= i < k :: s.arr(a, i) == c
    ensures Total(s, Load(Arr(a)), n, k) == k * c
  {
    if k > 0 {
      ConstantTotal(s, a, n, k - 1, c);
      assert TVal(s, Load(Arr(a)), n, k - 1) == s.arr(a, k - 1) == c;
    }
  }

  lemma ArrayAddend(x: nat, a: nat, neg: bool)
    ensures AddendOf(x, (if neg then MinusEq(x, Load(Arr(a))) else PlusEq(x, Load(Arr(a)))).t) == Some(Addend(neg, Load(Arr(a))))
  {
    assert Loads(Load(Arr(a))) == [Arr(a)];
  }

  /** Adding up an array of equal cells. */
  lemma AccumConstant(x: nat, a: nat, n: nat, s: State, c: int)
    requires s.scl(x) == 0 && forall i: int | 0 <= i < n :: s.arr(a, i) == c
    ensures var t := Exec(PlusEq(x, Load(Arr(a))), n, s);
            t.scl(x) == n * c && t.arr == s.arr && forall y: nat | y != x :: t.scl(y) == s.scl(y)
  {
    ArrayAddend(x, a, false);
    AccumAt(PlusEq(x, Load(Arr(a))), n, n, s);
    FoldAdds(s, x, PlusEq(x, Load(Arr(a))).t, n, n);
    ConstantTotal(s, a, n, n, c);
  }

  /** What the benchmark asserts, at every size. */
  lemma Awns4Sum(n: nat, s0: State)
    ensures Run(AWNS4, n, 6, s0).scl(1) == 2 * n * n
  {
    hide Total, Fold;
    var s1 := Run(AWNS4, n, 1, s0);
    ArrLoopAt(AWNS4[0], n, n, s0);
    assert Run(AWNS4, n, 0, s0) == s0;
    var s2 := Run(AWNS4, n, 2, s0);
    var s3 := Run(AWNS4, n, 3, s0);
    AccumConstant(0, 0, n, s2, 1);
    var s4 := Run(AWNS4, n, 4, s0);
    ArrLoopAt(AWNS4[3], n, n, s3);
    forall i: int | 0 <= i < n ensures s4.arr(1, i) == 2 * n {
      assert TVal(s3, Load(Scl(0)), n, i) == s3.scl(0) == n && TVal(s3, Leaf(Size), n, i) == n;
    }
    var s5 := Run(AWNS4, n, 5, s0);
    AccumConstant(1, 1, n, s5, 2 * n);
    assert n * (2 * n) == 2 * n * n;
  }

  lemma Awns4Written()
    ensures forall j | 0 <= j < 6 && !AWNS4[j].Accum? :: !WrittenBefore(AWNS4, j, Target(AWNS4[j]))
    ensures !WrittenFrom(AWNS4, 3, Scl(0))
  {
  }

  lemma AddsArray(x: nat, a: nat)
    ensures AddsArrays(PlusEq(x, Load(Arr(a))))
  {
    ArrayAddend(x, a, false);
  }

  lemma Awns4Tight(j: nat, x: nat)
    requires j <= 6
    ensures !Loose(AWNS4, j, x)
  {
    hide AddsArrays, FreshReset, Loose;
    AddsArray(0, 0);
    AddsArray(1, 1);
    NeverLoose(AWNS4, j, x);
  }

  /** The chain lies in the fragment: differences pass from a scalar to an array and back to a scalar. */
  lemma Awns4InFragment(j: nat)
    requires j < 6
    ensures StaticOk(AWNS4, j) && Tight(AWNS4, j) && FewDiffs(GenUpTo(AWNS4, j), AWNS4[j])
  {
    hide GenUpTo, WrittenBefore, WrittenFrom, Loose, StaticTerm;
    Awns4Written();
    forall x: nat ensures !Loose(AWNS4, j, x) { Awns4Tight(j, x); }
    ArrayAddend(0, 0, false);
    ArrayAddend(1, 1, false);
    StaticValues(GenUpTo(AWNS4, j));
    assert Loads(AWNS4[3].t) == [Scl(0)];
    assert Loads(Load(Scl(0))) == [Scl(0)] && Loads(A) == [Arr(0)] && Loads(B) == [Arr(1)];
    assert Loads(AWNS4[2].t) == [Scl(0), Arr(0)] && Loads(AWNS4[5].t) == [Scl(1), Arr(1)];
  }

  lemma StaticValues(g: Gen)
    ensures StaticTerm(g, A, false) && StaticTerm(g, B, false) && StaticTerm(g, Num(1), false)
    ensures StaticTerm(g, Bin(Add, Load(Scl(0)), Leaf(Size)), false) && StaticTerm(g, Leaf(Size), false)
  {
    assert Stable(Size);
    var x, t := Load(Scl(0)), Bin(Add, Load(Scl(0)), Leaf(Size));
    assert AsPure(x) == None && AsPure(t) == None && AsPure(Leaf(Size)) == Some(Size);
    assert Linear(x) && Linear(Leaf(Size)) && Linear(t);
    assert Sums(x) && Sums(Leaf(Size)) && Sums(t);
    assert OnlyLoads(x) && OneLeaf(Leaf(Size)) && OneLeaf(t);
    assert UnmovedNegated(g, x, false) && UnmovedNegated(g, t, false);
  }

  /** So the code generated for it turns `2 * (N-1) * (N-1)` into `2 * N * N`. */
  lemma Awns4Differenced(n: nat, s0: State)
    requires n >= 2
    ensures Differenced(AWNS4, n, s0).scl(1) == 2 * n * n
  {
    hide StaticOk, Tight, FewDiffs, GenUpTo, Run, Differenced;
    forall j | 0 <= j < |AWNS4| ensures StaticOk(AWNS4, j) && Tight(AWNS4, j) && FewDiffs(GenUpTo(AWNS4, j), AWNS4[j]) { Awns4InFragment(j); }
    StaticallyCorrect(AWNS4, n, s0);
    Awns4Sum(n, s0);
  }

  // ----- values without loads: resets and products -----

  /** x = N in a loop; a[i] = x; y += a[i]. */
  const RESET_CHAIN := [Accum(0, Leaf(Size)), ArrLoop(0, Load(Scl(0))), PlusEq(1, A)]

  lemma ResetChainSum(n: nat, s0: State)
    requires n >= 1 && s0.scl(1) == 0
    ensures Run(RESET_CHAIN, n, 3, s0).scl(1) == n * n
  {
    hide Total;
    assert Run(RESET_CHAIN, n, 0, s0) == s0;
    var s1, s2 := Run(RESET_CHAIN, n, 1, s0), Run(RESET_CHAIN, n, 2, s0);
    AccumAt(RESET_CHAIN[0], n, n, s0);
    assert s1.scl(0) == n && s1.scl(1) == 0;
    ArrLoopAt(RESET_CHAIN[1], n, n, s1);
    forall i: int | 0 <= i < n ensures s2.arr(0, i) == n { assert TVal(s1, Load(Scl(0)), n, i) == s1.scl(0); }
    AccumConstant(1, 0, n, s2, n);
  }

  lemma ResetChainInFragment(j: nat)
    requires j < 3
    ensures StaticOk(RESET_CHAIN, j) && Tight(RESET_CHAIN, j) && FewDiffs(GenUpTo(RESET_CHAIN, j), RESET_CHAIN[j])
  {
    hide GenUpTo, StaticTerm, Loose;
    ArrayAddend(1, 0, false);
    StaticValues(GenUpTo(RESET_CHAIN, j));
    assert StaticTerm(GenUpTo(RESET_CHAIN, j), Load(Scl(0)), false) by { ScalarStatic(GenUpTo(RESET_CHAIN, j)); }
    assert Loads(Load(Scl(0))) == [Scl(0)] && Loads(A) == [Arr(0)] && Loads(RESET_CHAIN[2].t) == [Scl(1), Arr(0)];
    assert !Loose(RESET_CHAIN, 1, 0) by { ResetNotLoose(); }
    assert !WrittenBefore(RESET_CHAIN, 1, Arr(0)) && !WrittenFrom(RESET_CHAIN, 1, Scl(0));
  }

  lemma ScalarStatic(g: Gen)
    ensures StaticTerm(g, Load(Scl(0)), false)
  {
  }

  lemma ResetNotLoose()
    ensures !Loose(RESET_CHAIN, 1, 0)
  {
    assert GenUpTo(RESET_CHAIN, 0) == START;
    assert FreshReset(START, RESET_CHAIN[0], 0);
  }

  /** What is recorded for the reset reaches the sum: the generated code ends in N * N. */
  lemma ResetChainDifferenced(n: nat, s0: State)
    requires n >= 2 && s0.scl(1) == 0
    ensures Differenced(RESET_CHAIN, n, s0).scl(1) == n * n
  {
    hide StaticOk, Tight, FewDiffs, GenUpTo, Run, Differenced;
    forall j | 0 <= j < |RESET_CHAIN| ensures StaticOk(RESET_CHAIN, j) && Tight(RESET_CHAIN, j) && FewDiffs(GenUpTo(RESET_CHAIN, j), RESET_CHAIN[j]) {
      ResetChainInFragment(j);
    }
    StaticallyCorrect(RESET_CHAIN, n, s0);
    ResetChainSum(n, s0);
  }

  /** a[i] = N * N; y += a[i]. */
  const SQUARES := [ArrLoop(0, Bin(Mul, Leaf(Size), Leaf(Size))), PlusEq(1, A)]

  lemma SquaresSum(n: nat, s0: State)
    requires s0.scl(1) == 0
    ensures Run(SQUARES, n, 2, s0).scl(1) == n * (n * n)
  {
    hide Total;
    assert Run(SQUARES, n, 0, s0) == s0;
    ArrLoopAt(SQUARES[0], n, n, s0);
    forall i: int ensures TVal(s0, SQUARES[0].t, n, i) == n * n { PureMeans(s0, SQUARES[0].t, n, i); }
    AccumConstant(1, 0, n, Run(SQUARES, n, 1, s0), n * n);
  }

  lemma SquareStatic(g: Gen)
    ensures var t := SQUARES[0].t; StaticTerm(g, t, false) && Loads(t) == []
  {
    var t, e := SQUARES[0].t, Times(Size, Size);
    assert AsPure(Leaf(Size)) == Some(Size);
    assert AsPure(t) == Some(e);
    PureRest(t);
    forall n, i ensures Eval(e, n, i) == n * n { assert Eval(Size, n, i) == n; }
  }

  lemma SquaresInFragment(j: nat)
    requires j < 2
    ensures StaticOk(SQUARES, j) && Tight(SQUARES, j) && FewDiffs(GenUpTo(SQUARES, j), SQUARES[j])
  {
    hide GenUpTo, Loose;
    ArrayAddend(1, 0, false);
    StaticValues(GenUpTo(SQUARES, j));
    SquareStatic(GenUpTo(SQUARES, j));
    hide StaticTerm;
    assert Loads(A) == [Arr(0)] && Loads(SQUARES[1].t) == [Scl(1), Arr(0)];
  }

  /** The record of the products is 2 * N - 1, so the generated code ends in N * N * N. */
  lemma SquaresDifferenced(n: nat, s0: State)
    requires n >= 2 && s0.scl(1) == 0
    ensures Differenced(SQUARES, n, s0).scl(1) == n * (n * n)
  {
    hide StaticOk, Tight, FewDiffs, GenUpTo, Run, Differenced;
    forall j | 0 <= j < |SQUARES| ensures StaticOk(SQUARES, j) && Tight(SQUARES, j) && FewDiffs(GenUpTo(SQUARES, j), SQUARES[j]) { SquaresInFragment(j); }
    StaticallyCorrect(SQUARES, n, s0);
    SquaresSum(n, s0);
  }

  /** b[i] = (a[i] + 1) + (a[i] + N): both operands have a rest, so the rest is the whole sum, which is not without
      loads, and the step of N is not recorded. */
  const TWO_RESTS := Bin(Add, Bin(Add, A, Num(1)), Bin(Add, A, Leaf(Size)))

  lemma NothingAfter(ps: seq<Phase>, v: Var)
    ensures !WrittenFrom(ps, |ps|, v)
  {
  }

  // ----- subtraction -----

  /** a[i] = e; x = 0; x -= a[i]. */
  function Subtracting(e: NExpr): seq<Phase> { [ArrLoop(0, Leaf(e)), OuterSet(0, Lit(0)), MinusEq(0, A)] }

  lemma SubtractingStatic(e: NExpr)
    ensures forall j | 0 <= j < 3 :: StaticOk(Subtracting(e), j) && Tight(Subtracting(e), j)
    ensures Subtracting(e)[2] == MinusEq(0, A) && !WrittenFrom(Subtracting(e), 3, Scl(0))
  {
    assert Loads(A) == [Arr(0)] && Loads(MinusEq(0, A).t) == [Scl(0), Arr(0)];
  }

  lemma SubtractingDiffs(e: NExpr)
    ensures DiffsOf(GenUpTo(Subtracting(e), 2), Arr(0)) == RecDiffs(Some(e))
  {
    var ps := Subtracting(e);
    var g1 := GenUpTo(ps, 1);
    assert GenUpTo(ps, 0) == START;
    assert g1 == GenPhase(ps[0], START);
    assert RecOf(Leaf(e)) == Some(e) && Loads(Leaf(e)) == [];
    assert GenUpTo(ps, 2) == GenPhase(ps[1], g1);
  }

  lemma SubtractingEarly(e: NExpr, g: Gen)
    requires Stable(e)
    ensures FewDiffs(g, Subtracting(e)[0]) && FewDiffs(g, Subtracting(e)[1])
  {
  }

  lemma SubtractingAt(e: NExpr, n: nat, s0: State)
    requires n >= 2 && Stable(e)
    ensures var g, w := GenUpTo(Subtracting(e), 2), WorldAt(Subtracting(e), n, 2, s0);
            Related(g, w) && w.n == n && SumOf(g, Arr(0), w) == Eval(e, n, 0) - Eval(e, n - 1, 0)
  {
    hide StaticOk, Tight, FewDiffs, Run, GenUpTo, WorldAt, Kept, Missing, Stable, RecDiffs, Related;
    var ps := Subtracting(e);
    var w := WorldAt(ps, n, 2, s0);
    SubtractingStatic(e);
    forall i | 0 <= i < 2 ensures FewDiffs(GenUpTo(ps, i), ps[i]) { SubtractingEarly(e, GenUpTo(ps, i)); }
    assert InBounds(ps, n - 1);
    AllKeptTight(ps, n, s0, 2);
    KeptIs(ps, n, s0, 2);
    WorldBasics(ps, n, s0, 2);
    SubtractingDiffs(e);
    RecDiffMeans(Some(e), n, 0, w.d.regs);
  }

  /** Exactly when it is right: the glue adds what the peeled iteration takes away, so the array must not move. */
  lemma SubtractingExact(e: NExpr, n: nat, s0: State)
    requires n >= 2 && Stable(e)
    ensures Differenced(Subtracting(e), n, s0).scl(0) == Run(Subtracting(e), n, 3, s0).scl(0) <==> Eval(e, n, 0) == Eval(e, n - 1, 0)
  {
    hide StaticOk, Run, Differenced, GenUpTo, WorldAt, WrittenFrom, WrittenBefore, Stable, Related, ScalarRight, Missed, SumOf, Settled, CodeState, DiffsOf, Eval, AddendOf, Loads;
    var ps := Subtracting(e);
    var g, w := GenUpTo(ps, 2), WorldAt(ps, n, 2, s0);
    SubtractingStatic(e);
    assert InBounds(ps, n - 1);
    SubtractingAt(e, n, s0);
    SubtractingReady(e, n, s0);
    ArrayAddend(0, 0, true);
    PhaseReady(ps, n, s0, 2);
    AccumStep(g, w, ps[2]);
    SubtractedMissed(g, w);
    DifferencingExact(ps, n, s0, 2);
    assert ValueOk(g, w, ps[2]) <==> ScalarRight(g, w, ps[2]);
  }

  lemma SubtractingReady(e: NExpr, n: nat, s0: State)
    requires n >= 2 && Stable(e)
    ensures ValuesOk(Subtracting(e), n, s0, 2)
  {
    hide StaticOk, Tight, FewDiffs, GenUpTo, WorldAt, KeptTight, Stable, ValueOk;
    var ps := Subtracting(e);
    SubtractingStatic(e);
    forall i | 0 <= i < 2 ensures FewDiffs(GenUpTo(ps, i), ps[i]) { SubtractingEarly(e, GenUpTo(ps, i)); }
    assert InBounds(ps, n - 1);
    AllKeptTight(ps, n, s0, 2);
  }

  lemma KeptIs(ps: seq<Phase>, n: nat, s0: State, j: nat)
    requires j <= |ps| && n >= 1
    ensures Kept(ps, n, s0, j) <==> Related(GenUpTo(ps, j), WorldAt(ps, n, j, s0))
  {
    hide Related, GenUpTo, WorldAt;
  }

  lemma SubtractedMissed(g: Gen, w: World)
    requires Related(g, w)
    ensures Missed(g, w, MinusEq(0, A)) == -2 * (w.n - 1) * SumOf(g, Arr(0), w)
  {
    hide Related, SumOf;
    ArrayAddend(0, 0, true);
    SignedMissed(g, w, MinusEq(0, A));
    assert Loads(A) == [Arr(0)] && CollectRec(A) == None;
    NoneRecorded(w);
    assert ScalarSum(g, w, [Arr(0)]) == 0 by { assert [Arr(0)][..0] == []; }
    assert Negated(g, w, A, true) == SumOf(g, Arr(0), w);
    assert (w.n - 1) * (-2 * SumOf(g, Arr(0), w)) == -2 * (w.n - 1) * SumOf(g, Arr(0), w);
  }

  /** An array filled with N: wrong at every size; one filled with a constant: right at every size. */
  lemma SubtractionWrong(n: nat, s0: State, c: int)
    requires n >= 2
    ensures Differenced(Subtracting(Size), n, s0).scl(0) != Run(Subtracting(Size), n, 3, s0).scl(0)
    ensures Differenced(Subtracting(Lit(c)), n, s0).scl(0) == Run(Subtracting(Lit(c)), n, 3, s0).scl(0)
  {
    hide Differenced, Run;
    assert Stable(Size) && Stable(Lit(c));
    SubtractingExact(Size, n, s0);
    SubtractingExact(Lit(c), n, s0);
  }

  /** a[i] = N; b[i] = t, where t reads a. */
  function Derived(t: Term): seq<Phase> { [ArrLoop(0, Leaf(Size)), ArrLoop(1, t)] }

  lemma DerivedStatic(t: Term)
    requires forall v | v in Loads(t) :: v == Arr(0)
    ensures StaticOk(Derived(t), 0) && StaticOk(Derived(t), 1) && Tight(Derived(t), 0) && FewDiffs(START, Derived(t)[0])
    ensures GenUpTo(Derived(t), 0) == START && Derived(t)[1] == ArrLoop(1, t)
  {
    StaticValues(START);
  }

  lemma DerivedDiffs(t: Term)
    ensures DiffsOf(GenUpTo(Derived(t), 1), Arr(0)) == [OfExpr(DiffExpr(Size))]
  {
    assert GenUpTo(Derived(t), 0) == START;
    assert GenUpTo(Derived(t), 1) == GenPhase(Derived(t)[0], START);
  }

  /** The record of `b` is right exactly when the value's movement is what the loads alone add up to. */
  lemma DerivedExact(t: Term, n: nat, s0: State)
    requires n >= 2 && Linear(t) && forall v | v in Loads(t) :: v == Arr(0)
    ensures var g, w := GenUpTo(Derived(t), 1), WorldAt(Derived(t), n, 1, s0);
            && SumOf(g, Arr(0), w) == 1
            && (CellsApart(Run(Derived(t), n, 2, s0), Run(Derived(t), n - 1, 2, s0), 1, n, SumOf(GenUpTo(Derived(t), 2), Arr(1), WorldAt(Derived(t), n, 2, s0)))
                <==> LMove(g, w, t) == ArrRec(g, w, t))
  {
    hide StaticOk, Tight, FewDiffs, Run, GenUpTo, WorldAt, WrittenFrom, Kept, Missing, Related, ValueRecorded, CellsApart, LMove, ArrRec, Linear, DiffExpr;
    var ps := Derived(t);
    var g, w := GenUpTo(ps, 1), WorldAt(ps, n, 1, s0);
    DerivedStatic(t);
    assert InBounds(ps, n - 1);
    AllKeptTight(ps, n, s0, 1);
    KeptIs(ps, n, s0, 1);
    WorldBasics(ps, n, s0, 1);
    DerivedDiffs(t);
    SumOne(OfExpr(DiffExpr(Size)), n, w.d.regs);
    DiffMeans(Size, n, 0);
    NothingAfter(ps, Arr(1));
    LinearRecorded(g, w, t);
    RecordExact(ps, n, s0, 1);
  }

  /** b[i] = a[i] - a[i] does not move and b[i] = 2 * a[i] moves by 2, but 2 and 1 are recorded. */
  lemma DerivedWrong(t: Term, n: nat, s0: State)
    requires n >= 2 && (t == Bin(Sub, A, A) || t == Bin(Mul, Num(2), A))
    ensures !CellsApart(Run(Derived(t), n, 2, s0), Run(Derived(t), n - 1, 2, s0), 1, n, SumOf(GenUpTo(Derived(t), 2), Arr(1), WorldAt(Derived(t), n, 2, s0)))
  {
    hide Run, GenUpTo, WorldAt, CellsApart, SumOf, ArrRec, Linear;
    DerivedShape(t);
    DerivedExact(t, n, s0);
    var g, w := GenUpTo(Derived(t), 1), WorldAt(Derived(t), n, 1, s0);
    DerivedRecord(g, w, t);
    assert LMove(g, w, A) == SumOf(g, Arr(0), w) == 1;
    assert LMove(g, w, t) == if t.op.Sub? then 0 else 2;
  }

  lemma TwoRestsShape()
    ensures Linear(TWO_RESTS) && Loads(TWO_RESTS) == [Arr(0), Arr(0)] && RecOf(TWO_RESTS) == None
  {
    assert Stable(Size) && Stable(Lit(1));
    assert AsPure(A) == None && Loads(A) == [Arr(0)] && Linear(A) && CollectRec(A) == None;
    assert AsPure(Bin(Add, A, Num(1))) == None && AsPure(Bin(Add, A, Leaf(Size))) == None;
    assert Loads(Bin(Add, A, Num(1))) == [Arr(0)] && Loads(Bin(Add, A, Leaf(Size))) == [Arr(0)];
    assert Linear(Num(1)) && Linear(Leaf(Size));
    assert Linear(Bin(Add, A, Num(1))) && Linear(Bin(Add, A, Leaf(Size)));
    assert CollectRec(Bin(Add, A, Num(1))) == Some(Num(1)) && CollectRec(Bin(Add, A, Leaf(Size))) == Some(Leaf(Size));
  }

  /** It moves by 3 where 2 are recorded. */
  lemma TwoRestsWrong(n: nat, s0: State)
    requires n >= 2
    ensures !CellsApart(Run(Derived(TWO_RESTS), n, 2, s0), Run(Derived(TWO_RESTS), n - 1, 2, s0), 1, n,
                        SumOf(GenUpTo(Derived(TWO_RESTS), 2), Arr(1), WorldAt(Derived(TWO_RESTS), n, 2, s0)))
  {
    hide Run, GenUpTo, WorldAt, CellsApart, SumOf, Linear, DiffSum;
    TwoRestsShape();
    DerivedExact(TWO_RESTS, n, s0);
    var g, w := GenUpTo(Derived(TWO_RESTS), 1), WorldAt(Derived(TWO_RESTS), n, 1, s0);
    WorldBasics(Derived(TWO_RESTS), n, s0, 1);
    NoneRecorded(w);
    OneDiff(g, w, Arr(0));
    assert [Arr(0), Arr(0)] == [Arr(0)] + [Arr(0)];
    DiffSumAppend(g, w, [Arr(0)], [Arr(0)]);
    assert AsPure(A) == None && LMove(g, w, A) == SumOf(g, Arr(0), w) == 1;
    assert LMove(g, w, Num(1)) == 0 && LMove(g, w, Leaf(Size)) == 1;
    assert LMove(g, w, Bin(Add, A, Num(1))) == 1 && LMove(g, w, Bin(Add, A, Leaf(Size))) == 2;
    assert LMove(g, w, TWO_RESTS) == 3;
  }

  lemma DerivedShape(t: Term)
    requires t == Bin(Sub, A, A) || t == Bin(Mul, Num(2), A)
    ensures Linear(t) && Loads(t) == if t.op.Sub? then [Arr(0), Arr(0)] else [Arr(0)]
  {
    assert Loads(A) == [Arr(0)] && Linear(A);
  }

  lemma DerivedRecord(g: Gen, w: World, t: Term)
    requires (t == Bin(Sub, A, A) || t == Bin(Mul, Num(2), A)) && SumOf(g, Arr(0), w) == 1
    ensures ArrRec(g, w, t) == if t.op.Sub? then 2 else 1
  {
    hide SumOf, DiffSum, SumD, Linear, Loads;
    DerivedShape(t);
    DerivedRest(t);
    NoneRecorded(w);
    OneDiff(g, w, Arr(0));
    if t.op.Sub? {
      assert [Arr(0), Arr(0)] == [Arr(0)] + [Arr(0)];
      DiffSumAppend(g, w, [Arr(0)], [Arr(0)]);
    }
  }

  lemma DerivedRest(t: Term)
    requires t == Bin(Sub, A, A) || t == Bin(Mul, Num(2), A)
    ensures RecDiffs(RecOf(t)) == []
  {
    assert CollectRec(A) == None;
  }

  // ----- scalars in loops, copies, cells outside loops -----

  /** x = N; y += x. */
  const SCALAR_SUM := [OuterSet(0, Size), OuterSet(1, Lit(0)), PlusEq(1, Load(Scl(0)))]

  lemma ScalarSumStatic()
    ensures forall j | 0 <= j < 3 :: StaticOk(SCALAR_SUM, j)
    ensures forall j | 0 <= j < 2 :: Tight(SCALAR_SUM, j) && forall g :: FewDiffs(g, SCALAR_SUM[j])
    ensures !Loose(SCALAR_SUM, 2, 0) && Loads(Load(Scl(0))) == [Scl(0)]
    ensures AddendOf(1, SCALAR_SUM[2].t) == Some(Addend(false, Load(Scl(0)))) && Linear(Load(Scl(0))) && Sums(Load(Scl(0)))
  {
    assert Loads(Load(Scl(0))) == [Scl(0)] && Loads(SCALAR_SUM[2].t) == [Scl(1), Scl(0)];
    NeverLoose(SCALAR_SUM, 2, 0);
  }

  lemma ScalarSumDiffs()
    ensures DiffsOf(GenUpTo(SCALAR_SUM, 2), Scl(0)) == [OfExpr(DiffExpr(Size))]
  {
    var g1 := GenUpTo(SCALAR_SUM, 1);
    assert GenUpTo(SCALAR_SUM, 0) == START;
    assert g1 == GenPhase(SCALAR_SUM[0], START);
    assert DiffsOf(g1, Scl(0)) == [OfExpr(DiffExpr(Size))];
    assert GenUpTo(SCALAR_SUM, 2) == GenPhase(SCALAR_SUM[1], g1);
  }

  lemma OneScalar(g: Gen, w: World)
    ensures ScalarSum(g, w, [Scl(0)]) == SumOf(g, Scl(0), w) && SDrift(g, w, Load(Scl(0))) == Missing(g, w, 0)
    ensures LeafMove(w, Load(Scl(0))) == 0 && Negated(g, w, Load(Scl(0)), false) == 0 && RecSum(w, Load(Scl(0))) == 0
  {
    hide SumOf, Missing;
    assert [Scl(0)][..0] == [];
    NoneRecorded(w);
  }

  lemma ScalarSumAt(n: nat, s0: State)
    requires n >= 2
    ensures var g, w := GenUpTo(SCALAR_SUM, 2), WorldAt(SCALAR_SUM, n, 2, s0);
            Related(g, w) && w.n == n && SumOf(g, Scl(0), w) == 1 && Missing(g, w, 0) == 0 && ValuesOk(SCALAR_SUM, n, s0, 2)
  {
    hide StaticOk, Tight, FewDiffs, Loose, GenUpTo, WorldAt, DiffExpr, Kept, Missing, Related, ValueOk;
    var w := WorldAt(SCALAR_SUM, n, 2, s0);
    ScalarSumStatic();
    assert InBounds(SCALAR_SUM, n - 1);
    AllKeptTight(SCALAR_SUM, n, s0, 2);
    KeptIs(SCALAR_SUM, n, s0, 2);
    WorldBasics(SCALAR_SUM, n, s0, 2);
    ScalarSumDiffs();
    SumOne(OfExpr(DiffExpr(Size)), n, w.d.regs);
    DiffMeans(Size, n, 0);
    assert Tracked(GenUpTo(SCALAR_SUM, 2), w, 0);
  }

  lemma ScalarSumMissed(g: Gen, w: World)
    requires Related(g, w) && SumOf(g, Scl(0), w) == 1 && Missing(g, w, 0) == 0
    ensures Missed(g, w, SCALAR_SUM[2]) == w.n - 2
  {
    hide Related, SumOf, Missing, Missed, SDrift, ScalarSum, Negated, LeafMove, RecSum, Linear, AddendOf;
    ScalarSumStatic();
    SignedMissed(g, w, SCALAR_SUM[2]);
    OneScalar(g, w);
  }

  /** A scalar read in a loop contributes its difference once instead of N-1 times: from size 3 on the sum of
      a moving scalar is wrong, at size 2 it happens to be right. */
  lemma ScalarAccumulationWrong(n: nat, s0: State)
    requires n >= 2
    ensures Differenced(SCALAR_SUM, n, s0).scl(1) == Run(SCALAR_SUM, n, 3, s0).scl(1) <==> n == 2
  {
    hide StaticOk, Run, Differenced, GenUpTo, WorldAt, WrittenFrom, Missing, Related, ScalarRight, Missed, SumOf, Settled, CodeState, AddendOf, Linear, Loads, Tight, FewDiffs, Loose, DiffsOf, ValuesOk;
    var g, w := GenUpTo(SCALAR_SUM, 2), WorldAt(SCALAR_SUM, n, 2, s0);
    ScalarSumStatic();
    NothingAfter(SCALAR_SUM, Scl(1));
    assert InBounds(SCALAR_SUM, n - 1);
    ScalarSumAt(n, s0);
    ScalarSumMissed(g, w);
    PhaseReady(SCALAR_SUM, n, s0, 2);
    AccumStep(g, w, SCALAR_SUM[2]);
    DifferencingExact(SCALAR_SUM, n, s0, 2);
    assert ValueOk(g, w, SCALAR_SUM[2]) <==> ScalarRight(g, w, SCALAR_SUM[2]);
  }

  /** a[i] = N; x += a[i]; y = x. */
  const COPIED_SUM := [ArrLoop(0, Leaf(Size)), OuterSet(0, Lit(0)), PlusEq(0, A), Copy(1, 0)]

  lemma CopiedSumStatic()
    ensures forall j | 0 <= j < 4 :: StaticOk(COPIED_SUM, j)
    ensures forall j | 0 <= j < 3 :: Tight(COPIED_SUM, j) && forall g :: FewDiffs(g, COPIED_SUM[j])
    ensures !Loose(COPIED_SUM, 3, 0)
  {
    hide StaticTerm, AddsArrays, FreshReset, Loose;
    assert !WrittenBefore(COPIED_SUM, 3, Scl(1));
    assert Loads(A) == [Arr(0)] && Loads(COPIED_SUM[2].t) == [Scl(0), Arr(0)];
    ArrayAddend(0, 0, false);
    AddsArray(0, 0);
    NeverLoose(COPIED_SUM, 3, 0);
    forall g ensures StaticTerm(g, A, false) && StaticTerm(g, Leaf(Size), false) { StaticValues(g); }
  }

  lemma CopiedSumDiffs()
    ensures DiffsOf(GenUpTo(COPIED_SUM, 3), Scl(0)) == [Scaled(OfExpr(DiffExpr(Size))), Reg(0)]
  {
    hide DiffExpr;
    var g1, g2 := GenUpTo(COPIED_SUM, 1), GenUpTo(COPIED_SUM, 2);
    assert GenUpTo(COPIED_SUM, 0) == START;
    assert g1 == GenPhase(COPIED_SUM[0], START);
    assert RecOf(Leaf(Size)) == Some(Size) && Loads(Leaf(Size)) == [];
    assert DiffsOf(g1, Arr(0)) == [OfExpr(DiffExpr(Size))] && DiffsOf(g1, Scl(0)) == [] && g1.regs == 0;
    assert g2 == GenPhase(COPIED_SUM[1], g1);
    assert g2 == g1;
    assert GenUpTo(COPIED_SUM, 3) == GenPhase(COPIED_SUM[2], g2);
    AccumTable(g2, COPIED_SUM[2]);
    SumTable(g2);
  }

  lemma SumTable(g: Gen)
    requires g.regs == 0 && DiffsOf(g, Arr(0)) == [OfExpr(DiffExpr(Size))]
    ensures AccumDiffs(g, PlusEq(0, A)) == [Scaled(OfExpr(DiffExpr(Size))), Reg(0)]
  {
    hide DiffExpr;
    var ph := PlusEq(0, A);
    var loads := [Scl(0)] + [Arr(0)];
    assert Loads(Load(Scl(0))) == [Scl(0)] && Loads(A) == [Arr(0)] && Loads(ph.t) == loads;
    assert RecOf(ph.t) == None by { assert CollectRec(Load(Scl(0))) == None && CollectRec(A) == None; }
    OwnLoadFirst(g, 0, [Arr(0)], None);
    assert [Arr(0)][..0] == [];
    assert FromLoads(g, 0, [Arr(0)]) == ScaleAll([OfExpr(DiffExpr(Size))]) == [Scaled(OfExpr(DiffExpr(Size)))];
    assert loads[..1] == [Scl(0)] && [Scl(0)][..0] == [];
    assert CountArr(loads) == 1 && RegList(0, 1) == [Reg(0)];
    assert TermDiffs(ph) == [];
  }

  lemma AccumTable(g: Gen, ph: Phase)
    requires ph.Accum?
    ensures DiffsOf(GenPhase(ph, g), Scl(ph.x)) == DiffsOf(g, Scl(ph.x)) + AccumDiffs(g, ph)
  {
    hide Record, DiffsOf, FromLoads, CountArr, TermDiffs, GlueVals, Loads, RecOf;
    var g1 := if Glued(g, ph) == [] then g else EmitD(g, Glue(ph.x, Glued(g, ph)));
    var g2 := EmitD(g1, Peel(ph)).(regs := g.regs + CountArr(Loads(ph.t)));
    SameDiffs(g, g2);
    RecordThrice(g2, Scl(ph.x), TermDiffs(ph), FromLoads(g, ph.x, Loads(ph.t)), RegList(g.regs, CountArr(Loads(ph.t))));
  }

  /** A copy takes over the last difference of its source only: the copied sum is wrong at every size. */
  lemma CopyWrong(n: nat, s0: State)
    requires n >= 2
    ensures Differenced(COPIED_SUM, n, s0).scl(1) != Run(COPIED_SUM, n, 4, s0).scl(1)
  {
    hide StaticOk, Tight, FewDiffs, Loose, Run, Differenced, GenUpTo, WorldAt, DiffExpr, WrittenFrom, Kept;
    var g, w := GenUpTo(COPIED_SUM, 3), WorldAt(COPIED_SUM, n, 3, s0);
    CopiedSumStatic();
    NothingAfter(COPIED_SUM, Scl(1));
    WorldBasics(COPIED_SUM, n, s0, 3);
    CopiedSumDiffs();
    var ds := [Scaled(OfExpr(DiffExpr(Size))), Reg(0)];
    SumAppend([ds[0]], [ds[1]], n, w.d.regs);
    assert ds == [ds[0]] + [ds[1]];
    SumOne(ds[0], n, w.d.regs);
    SumOne(ds[1], n, w.d.regs);
    DiffMeans(Size, n, 0);
    assert SumD(ds, n, w.d.regs) == (n - 1) + EvalD(Reg(0), n, w.d.regs);
    assert COPIED_SUM[3] == Copy(1, 0);
    assert InBounds(COPIED_SUM, n - 1);
    AllKeptTight(COPIED_SUM, n, s0, 3);
    assert Tracked(g, w, 0);
    DifferencingExact(COPIED_SUM, n, s0, 3);
  }

  /** x += 1; a[i] = x.  The counter's own step is not among its differences, so the array's cells move although
      nothing is recorded for it. */
  const COUNTED := [OuterSet(0, Lit(0)), PlusEq(0, Num(1)), ArrLoop(0, Load(Scl(0)))]

  lemma CountedStatic()
    ensures forall j | 0 <= j < 3 :: StaticOk(COUNTED, j)
    ensures forall j | 0 <= j < 2 :: Tight(COUNTED, j) && forall g :: FewDiffs(g, COUNTED[j])
    ensures !Loose(COUNTED, 1, 0) && COUNTED[1] == PlusEq(0, Num(1)) && COUNTED[2] == ArrLoop(0, Load(Scl(0)))
    ensures AddendOf(0, COUNTED[1].t) == Some(Addend(false, Num(1)))
  {
    assert Loads(Load(Scl(0))) == [Scl(0)] && Loads(COUNTED[1].t) == [Scl(0)];
    NeverLoose(COUNTED, 1, 0);
  }

  /** After the accumulation the counter's record is one short, at every size. */
  lemma CounterMissing(n: nat, s0: State)
    requires n >= 2
    ensures Missing(GenUpTo(COUNTED, 2), WorldAt(COUNTED, n, 2, s0), 0) == 1
  {
    hide StaticOk, Tight, FewDiffs, Loose, GenUpTo, WorldAt, Missing, Related, Missed, CodeState, GenPhase, NextWorld, Kept, StaticTerm;
    CountedStatic();
    assert InBounds(COUNTED, n - 1);
    AllKeptTight(COUNTED, n, s0, 1);
    KeptIs(COUNTED, n, s0, 1);
    NextWorldIs(COUNTED, n, 1, s0);
    WorldBasics(COUNTED, n, s0, 1);
    PhaseReady(COUNTED, n, s0, 1);
    var g, w := GenUpTo(COUNTED, 1), WorldAt(COUNTED, n, 1, s0);
    StaticValues(g);
    assert Loads(Num(1)) == [] && TVal(w.big, Num(1), n, n - 1) == 1 && ArrSum(w.big, [], n - 1) == 0;
    StaticMissed(g, w, COUNTED[1]);
    AccumMissing(g, w, COUNTED[1]);
    assert Tracked(g, w, 0);
  }

  /** So the array loop's values do not allow it, and its record is wrong at every size. */
  lemma CounterMovesUnrecorded(n: nat, s0: State)
    requires n >= 2
    ensures !CellsApart(Run(COUNTED, n, 3, s0), Run(COUNTED, n - 1, 3, s0), 0, n, SumOf(GenUpTo(COUNTED, 3), Arr(0), WorldAt(COUNTED, n, 3, s0)))
  {
    hide StaticOk, Tight, FewDiffs, GenUpTo, WorldAt, Run, Missing, Related, WrittenFrom, CellsApart, SumOf, Kept, ValueRecorded, SDrift, LeafMove, Negated, RecSum;
    CountedStatic();
    assert InBounds(COUNTED, n - 1);
    AllKeptTight(COUNTED, n, s0, 2);
    KeptIs(COUNTED, n, s0, 2);
    CounterMissing(n, s0);
    NothingAfter(COUNTED, Arr(0));
    var g, w := GenUpTo(COUNTED, 2), WorldAt(COUNTED, n, 2, s0);
    OneScalar(g, w);
    SignedRecorded(g, w, Load(Scl(0)));
    RecordExact(COUNTED, n, s0, 2);
  }

  /** a[0] = N outside loops: recorded for all cells, so the record is right at size 2 only. */
  const FIRST_CELL := [OuterCell(0, 0, Size)]

  lemma FirstCellWrong(n: nat, s0: State)
    requires n >= 2
    ensures CellsApart(Run(FIRST_CELL, n, 1, s0), Run(FIRST_CELL, n - 1, 1, s0), 0, n, SumOf(GenUpTo(FIRST_CELL, 1), Arr(0), WorldAt(FIRST_CELL, n, 1, s0))) <==> n == 2
  {
    hide GenUpTo, WorldAt, Run, CellsApart, SumOf, WrittenFrom;
    NothingAfter(FIRST_CELL, Arr(0));
    WorldBasics(FIRST_CELL, n, s0, 0);
    assert StaticOk(FIRST_CELL, 0) && InBounds(FIRST_CELL, n - 1) && ValuesOk(FIRST_CELL, n, s0, 0);
    assert Eval(Size, n, 0) == n && Eval(Size, n - 1, 0) == n - 1;
    RecordExact(FIRST_CELL, n, s0, 0);
  }
}
