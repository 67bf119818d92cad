/** Differencing, one phase at a time: what each phase keeps between the sizes N-1 and N and the generated code, and
    exactly when. */
module DiffSound {
  import opened DiffSpec

  // ----- expressions -----

  lemma {:induction false} SubstEval(e: NExpr, size: NExpr, ctr: NExpr, n: int, i: int)
    ensures Eval(Subst(e, size, ctr), n, i) == Eval(e, Eval(size, n, i), Eval(ctr, n, i))
  {
    match e
    case Plus(l, r) => SubstEval(l, size, ctr, n, i); SubstEval(r, size, ctr, n, i);
    case Minus(l, r) => SubstEval(l, size, ctr, n, i); SubstEval(r, size, ctr, n, i);
    case Times(l, r) => SubstEval(l, size, ctr, n, i); SubstEval(r, size, ctr, n, i);
    case _ =>
  }

  lemma DiffMeans(e: NExpr, n: int, i: int)
    ensures Eval(DiffExpr(e), n, i) == Eval(e, n, n) - Eval(e, n - 1, n)
  {
    hide Subst;
    var f := Minus(e, Subst(e, SIZE_BEFORE, Ctr));
    SubstEval(f, Size, Size, n, i);
    SubstEval(e, SIZE_BEFORE, Ctr, n, n);
  }

  lemma {:induction false} NoSize(e: NExpr, n: int, m: int, i: int)
    requires !HasSize(e)
    ensures Eval(e, n, i) == Eval(e, m, i)
  {
    match e
    case Plus(l, r) => NoSize(l, n, m, i); NoSize(r, n, m, i);
    case Minus(l, r) => NoSize(l, n, m, i); NoSize(r, n, m, i);
    case Times(l, r) => NoSize(l, n, m, i); NoSize(r, n, m, i);
    case _ =>
  }

  lemma {:induction false} NoCtr(e: NExpr, n: int, i: int, j: int)
    requires !HasCtr(e)
    ensures Eval(e, n, i) == Eval(e, n, j)
  {
    match e
    case Plus(l, r) => NoCtr(l, n, i, j); NoCtr(r, n, i, j);
    case Minus(l, r) => NoCtr(l, n, i, j); NoCtr(r, n, i, j);
    case Times(l, r) => NoCtr(l, n, i, j); NoCtr(r, n, i, j);
    case _ =>
  }

  /** The change from size N-1 to N does not depend on the counter. */
  ghost predicate Stable(e: NExpr) {
    forall n, i, j :: Eval(e, n, i) - Eval(e, n - 1, i) == Eval(e, n, j) - Eval(e, n - 1, j)
  }

  lemma RecDiffMeans(rec: Option<NExpr>, n: int, i: int, regs: seq<int>)
    requires rec.Some? ==> Stable(rec.value)
    ensures SumD(RecDiffs(rec), n, regs) == if rec.Some? then Eval(rec.value, n, i) - Eval(rec.value, n - 1, i) else 0
  {
    hide DiffExpr, HasSize, Eval;
    if rec.Some? {
      if HasSize(rec.value) {
        DiffMeans(rec.value, n, 0);
        SumOne(OfExpr(DiffExpr(rec.value)), n, regs);
      } else {
        NoSize(rec.value, n, n - 1, i);
      }
    }
  }

  /** What is collected from a value without loads is worth what the value is worth. */
  lemma {:induction false} PureMeans(s: State, t: Term, n: int, i: int)
    requires AsPure(t).Some?
    ensures Eval(AsPure(t).value, n, i) == TVal(s, t, n, i)
  {
    match t
    case Bin(_, l, r) =>
      PureMeans(s, l, n, i);
      PureMeans(s, r, n, i);
    case _ =>
  }

  /** The whole of such a value is its rest, and it has no loads. */
  lemma {:induction false} PureRest(t: Term)
    requires AsPure(t).Some?
    ensures CollectRec(t) == Some(t) && RecOf(t) == AsPure(t) && Loads(t) == []
  {
    match t
    case Bin(_, l, r) =>
      PureRest(l);
      PureRest(r);
    case _ =>
  }

  // ----- sums of differences -----

  lemma SumOne(v: DVal, n: int, regs: seq<int>)
    ensures SumD([v], n, regs) == EvalD(v, n, regs)
  {
    assert [v][..0] == [];
  }

  lemma {:induction false} SumAppend(xs: seq<DVal>, ys: seq<DVal>, n: int, regs: seq<int>)
    ensures SumD(xs + ys, n, regs) == SumD(xs, n, regs) + SumD(ys, n, regs)
  {
    if |ys| == 0 {
      assert xs + ys == xs;
    } else {
      assert (xs + ys)[..|xs + ys| - 1] == xs + ys[..|ys| - 1];
      SumAppend(xs, ys[..|ys| - 1], n, regs);
    }
  }

  lemma {:induction false} SumScaled(ds: seq<DVal>, n: int, regs: seq<int>)
    ensures SumD(ScaleAll(ds), n, regs) == (n - 1) * SumD(ds, n, regs)
  {
    if |ds| > 0 {
      assert ScaleAll(ds)[..|ds| - 1] == ScaleAll(ds[..|ds| - 1]);
      SumScaled(ds[..|ds| - 1], n, regs);
    }
  }

  /** Only registers already defined. */
  predicate Defined(v: DVal, k: nat) {
    match v
    case OfExpr(_) => true
    case Reg(r) => r < k
    case Scaled(w) => Defined(w, k)
  }

  predicate AllDefined(ds: seq<DVal>, k: nat) { forall i | 0 <= i < |ds| :: Defined(ds[i], k) }

  lemma {:induction false} EvalStays(v: DVal, n: int, regs: seq<int>, more: seq<int>)
    requires Defined(v, |regs|)
    ensures EvalD(v, n, regs + more) == EvalD(v, n, regs)
  {
    match v
    case Scaled(w) => EvalStays(w, n, regs, more);
    case _ =>
  }

  lemma {:induction false} SumStays(ds: seq<DVal>, n: int, regs: seq<int>, more: seq<int>)
    requires AllDefined(ds, |regs|)
    ensures SumD(ds, n, regs + more) == SumD(ds, n, regs)
  {
    if |ds| > 0 {
      SumStays(ds[..|ds| - 1], n, regs, more);
      EvalStays(ds[|ds| - 1], n, regs, more);
    }
  }

  lemma {:induction false} DefinedMore(v: DVal, k: nat, k': nat)
    requires Defined(v, k) && k <= k'
    ensures Defined(v, k')
  {
    match v
    case Scaled(w) => DefinedMore(w, k, k');
    case _ =>
  }

  // ----- loops in closed form -----

  lemma {:induction false} TValSame(t: Term, s: State, r: State, n: int, i: int)
    requires forall v | v in Loads(t) :: LoadVal(s, v, i) == LoadVal(r, v, i)
    ensures TVal(s, t, n, i) == TVal(r, t, n, i)
  {
    match t
    case Load(v) => assert v in Loads(t);
    case Bin(_, l, u) =>
      assert forall v | v in Loads(l) || v in Loads(u) :: v in Loads(t);
      TValSame(l, s, r, n, i);
      TValSame(u, s, r, n, i);
    case _ =>
  }

  /** An array loop writes its cells below the bound and nothing else. */
  lemma {:induction false} ArrLoopAt(ph: Phase, n: int, k: nat, s: State)
    requires ph.ArrLoop?
    ensures Loop(ph, n, k, s).scl == s.scl
    ensures forall b: nat, i: int :: Loop(ph, n, k, s).arr(b, i) == if b == ph.a && 0 <= i < k then TVal(s, ph.t, n, i) else s.arr(b, i)
  {
    if k > 0 {
      var t := Loop(ph, n, k - 1, s);
      ArrLoopAt(ph, n, k - 1, s);
      TValSame(ph.t, t, s, n, k - 1);
    }
  }

  /** The scalar after `k` iterations. */
  function Fold(s: State, x: nat, t: Term, n: int, k: nat): int {
    if k == 0 then s.scl(x) else TVal(SetScl(s, x, Fold(s, x, t, n, k - 1)), t, n, k - 1)
  }

  lemma {:induction false} AccumAt(ph: Phase, n: int, k: nat, s: State)
    requires ph.Accum?
    ensures Loop(ph, n, k, s).arr == s.arr
    ensures forall y: nat :: Loop(ph, n, k, s).scl(y) == if y == ph.x then Fold(s, ph.x, ph.t, n, k) else s.scl(y)
  {
    if k > 0 {
      var t := Loop(ph, n, k - 1, s);
      AccumAt(ph, n, k - 1, s);
      TValSame(ph.t, t, SetScl(s, ph.x, Fold(s, ph.x, ph.t, n, k - 1)), n, k - 1);
    }
  }

  // ----- which variables a phase writes -----

  function Target(ph: Phase): Var {
    match ph
    case ArrLoop(a, _) => Arr(a)
    case Accum(x, _) => Scl(x)
    case OuterSet(x, _) => Scl(x)
    case Copy(x, _) => Scl(x)
    case OuterCell(a, _, _) => Arr(a)
  }

  ghost predicate WrittenBefore(ps: seq<Phase>, j: nat, v: Var)
    requires j <= |ps|
  {
    exists i :: 0 <= i < j && Target(ps[i]) == v
  }

  ghost predicate WrittenFrom(ps: seq<Phase>, j: nat, v: Var) { exists i :: j <= i < |ps| && Target(ps[i]) == v }

  /** Cells stored outside loops exist at size `n`. */
  ghost predicate InBounds(ps: seq<Phase>, n: int) { forall j | 0 <= j < |ps| && ps[j].OuterCell? :: 0 <= ps[j].c < n }

  lemma {:induction false} LoopFrame(ph: Phase, n: int, k: nat, s: State)
    ensures forall y: nat :: Scl(y) != Target(ph) ==> Loop(ph, n, k, s).scl(y) == s.scl(y)
    ensures forall a: nat, i: int :: Arr(a) != Target(ph) || i < 0 || i >= k ==> Loop(ph, n, k, s).arr(a, i) == s.arr(a, i)
  {
    if k > 0 { LoopFrame(ph, n, k - 1, s); }
  }

  lemma ExecFrame(ph: Phase, n: nat, s: State)
    ensures forall y: nat :: Scl(y) != Target(ph) ==> Exec(ph, n, s).scl(y) == s.scl(y)
    ensures forall a: nat, i: int :: Arr(a) != Target(ph) || ((ph.OuterCell? ==> 0 <= ph.c < n) && (i < 0 || i >= n)) ==> Exec(ph, n, s).arr(a, i) == s.arr(a, i)
  {
    LoopFrame(ph, n, n, s);
  }

  /** Cells outside `0..n-1` are never touched at size `n`. */
  lemma {:induction false} RunOutside(ps: seq<Phase>, n: nat, j: nat, s: State, a: nat, i: int)
    requires j <= |ps| && (i < 0 || i >= n) && InBounds(ps, n)
    ensures Run(ps, n, j, s).arr(a, i) == s.arr(a, i)
  {
    if j > 0 {
      RunOutside(ps, n, j - 1, s, a, i);
      ExecFrame(ps[j - 1], n, Run(ps, n, j - 1, s));
    }
  }

  /** A scalar no later phase writes has its final value. */
  lemma {:induction false} ScalarFinal(ps: seq<Phase>, n: nat, j: nat, m: nat, s: State, y: nat)
    requires j <= m <= |ps| && !WrittenFrom(ps, j, Scl(y))
    ensures Run(ps, n, m, s).scl(y) == Run(ps, n, j, s).scl(y)
    decreases m
  {
    hide Exec;
    if j < m {
      ScalarFinal(ps, n, j, m - 1, s, y);
      ExecFrame(ps[m - 1], n, Run(ps, n, m - 1, s));
      assert Target(ps[m - 1]) != Scl(y);
    }
  }

  // ----- the relation kept from phase to phase -----

  /** Sizes N-1 and N after the same phases, the final state at size N-1, and the generated code's state. */
  datatype World = World(n: nat, small: State, big: State, last: State, d: DState)

  function SumOf(g: Gen, v: Var, w: World): int { SumD(DiffsOf(g, v), w.n, w.d.regs) }

  ghost predicate ScalarsRelated(w: World) {
    forall x: nat :: w.d.s.scl(x) == w.last.scl(x) + w.big.scl(x) - w.small.scl(x)
  }

  ghost predicate CellsRelated(w: World) {
    forall a: nat, k: int :: w.d.s.arr(a, k) == if k == w.n - 1 then w.big.arr(a, k) else w.last.arr(a, k)
  }

  /** DIFFERENCE INVARIANT: below N-1 each cell has moved by the recorded differences of its array. */
  ghost predicate CellsMoved(g: Gen, w: World) {
    forall a: nat, k: int | 0 <= k < w.n - 1 :: w.big.arr(a, k) == w.small.arr(a, k) + SumOf(g, Arr(a), w)
  }

  /** How far a scalar moved beyond its recorded differences. */
  function Missing(g: Gen, w: World, x: nat): int { w.big.scl(x) - w.small.scl(x) - SumOf(g, Scl(x), w) }

  /** A scalar's recorded differences add up to how far it moved. */
  ghost predicate Tracked(g: Gen, w: World, x: nat) { Missing(g, w, x) == 0 }

  /** How far a cell moved beyond its array's recorded differences. */
  function CellMissing(g: Gen, w: World, a: nat, k: int): int { w.big.arr(a, k) - w.small.arr(a, k) - SumOf(g, Arr(a), w) }

  ghost predicate RegsKnown(g: Gen, w: World) {
    |w.d.regs| == g.regs && forall v | v in g.diffs :: AllDefined(g.diffs[v], g.regs)
  }

  ghost predicate Related(g: Gen, w: World) {
    w.n >= 2 && ScalarsRelated(w) && CellsRelated(w) && CellsMoved(g, w) && RegsKnown(g, w)
  }

  // ----- one phase: loads -----

  /** The scalars read, other than `x`, have their final value, so that the peeled iteration reads them right. */
  ghost predicate Settled(w: World, x: Option<nat>, loads: seq<Var>) {
    forall v | v in loads && v.Scl? && Some(v.id) != x :: w.last.scl(v.id) == w.small.scl(v.id)
  }

  function DiffSum(g: Gen, w: World, loads: seq<Var>): int {
    if |loads| == 0 then 0 else DiffSum(g, w, loads[..|loads| - 1]) + SumOf(g, loads[|loads| - 1], w)
  }

  lemma OneMoved(g: Gen, w: World, v: Var, i: int)
    requires Related(g, w) && 0 <= i < w.n - 1
    ensures LoadVal(w.big, v, i) == LoadVal(w.small, v, i) + SumOf(g, v, w) + if v.Scl? then Missing(g, w, v.id) else 0
  {
    hide SumOf;
  }

  lemma PeelReads(g: Gen, w: World, x: Option<nat>, loads: seq<Var>)
    requires Related(g, w) && Settled(w, x, loads)
    ensures forall v | v in loads && (v.Scl? ==> Some(v.id) != x) :: LoadVal(w.d.s, v, w.n - 1) == LoadVal(w.big, v, w.n - 1)
  {
    hide SumOf;
  }

  /** How a value moves from size N-1 to N in iteration `k`. */
  function Moves(w: World, t: Term, k: int): int { TVal(w.big, t, w.n, k) - TVal(w.small, t, w.n - 1, k) }

  lemma {:induction false} CellSum(g: Gen, w: World, a: nat, loads: seq<Var>)
    requires DiffsOf(g, Arr(a)) == []
    ensures SumD(CellDiffs(g, a, loads), w.n, w.d.regs) == DiffSum(g, w, loads) && OwnDiffs(g, a, loads) == []
  {
    if |loads| > 0 {
      var front := loads[..|loads| - 1];
      CellSum(g, w, a, front);
      var ds := if loads[|loads| - 1] == Arr(a) then [] else DiffsOf(g, loads[|loads| - 1]);
      SumAppend(CellDiffs(g, a, front), ds, w.n, w.d.regs);
    }
  }

  lemma Distribute(k: int, x: int, y: int)
    ensures k * (x + y) == k * x + k * y
  {
  }

  /** The array loads together: what the peeled registers hold. */
  function ArrSum(s: State, loads: seq<Var>, i: int): int {
    if |loads| == 0 then 0
    else ArrSum(s, loads[..|loads| - 1], i) + if loads[|loads| - 1].Arr? then LoadVal(s, loads[|loads| - 1], i) else 0
  }

  lemma {:induction false} ArrSumSame(s: State, r: State, loads: seq<Var>, i: int)
    requires forall v | v in loads && v.Arr? :: LoadVal(s, v, i) == LoadVal(r, v, i)
    ensures ArrSum(s, loads, i) == ArrSum(r, loads, i)
  {
    if |loads| > 0 {
      ArrSumSame(s, r, loads[..|loads| - 1], i);
      assert loads[|loads| - 1] in loads;
    }
  }

  lemma {:induction false} PeeledSum(s: State, loads: seq<Var>, i: int, regs: seq<int>, n: int)
    ensures |PeeledLoads(s, loads, i)| == CountArr(loads)
    ensures SumD(RegList(|regs|, CountArr(loads)), n, regs + PeeledLoads(s, loads, i)) == ArrSum(s, loads, i)
  {
    if |loads| > 0 {
      var front, v := loads[..|loads| - 1], loads[|loads| - 1];
      PeeledSum(s, front, i, regs, n);
      if v.Arr? {
        var k := CountArr(front);
        assert RegList(|regs|, k + 1)[..k] == RegList(|regs|, k);
        assert regs + PeeledLoads(s, loads, i) == (regs + PeeledLoads(s, front, i)) + [LoadVal(s, v, i)];
        RegsDefined(|regs|, k);
        SumStays(RegList(|regs|, k), n, regs + PeeledLoads(s, front, i), [LoadVal(s, v, i)]);
      } else {
        assert PeeledLoads(s, loads, i) == PeeledLoads(s, front, i);
        assert CountArr(loads) == CountArr(front);
      }
    }
  }

  lemma {:induction false} PeeledCount(s: State, loads: seq<Var>, i: int)
    ensures |PeeledLoads(s, loads, i)| == CountArr(loads)
  {
    if |loads| > 0 { PeeledCount(s, loads[..|loads| - 1], i); }
  }

  lemma RegsDefined(from: nat, k: nat)
    ensures AllDefined(RegList(from, k), from + k)
  {
  }

  // ----- one phase: the step -----

  /** The generated code's state, run from the final state at size N-1. */
  function CodeState(g: Gen, w: World): DState
    requires w.n >= 0
  {
    ExecAll(g.code, w.n, w.last, DState(w.last, []))
  }

  function NextWorld(g: Gen, w: World, ph: Phase): World
    requires w.n >= 1
  {
    World(w.n, Exec(ph, w.n - 1, w.small), Exec(ph, w.n, w.big), w.last, CodeState(GenPhase(ph, g), w))
  }

  lemma EmitRuns(g: Gen, w: World, c: DStmt)
    requires w.n >= 0
    ensures CodeState(EmitD(g, c), w) == ExecD(c, w.n, w.last, CodeState(g, w))
  {
    assert (g.code + [c])[..|g.code|] == g.code;
  }

  lemma RecordIs(g: Gen, v: Var, ds: seq<DVal>)
    ensures forall u :: DiffsOf(Record(g, v, ds), u) == if u == v then DiffsOf(g, v) + ds else DiffsOf(g, u)
    ensures Record(g, v, ds).code == g.code && Record(g, v, ds).regs == g.regs
  {
  }

  lemma RecordKnown(g: Gen, v: Var, ds: seq<DVal>, k: nat)
    requires (forall u | u in g.diffs :: AllDefined(g.diffs[u], k)) && AllDefined(ds, k)
    ensures forall u | u in Record(g, v, ds).diffs :: AllDefined(Record(g, v, ds).diffs[u], k)
  {
  }

  lemma RecDefined(rec: Option<NExpr>, k: nat)
    ensures AllDefined(RecDiffs(rec), k) && AllDefined(ScaleAll(RecDiffs(rec)), k)
  {
  }

  lemma {:induction false} CellDiffsDefined(g: Gen, a: nat, loads: seq<Var>, k: nat)
    requires forall v | v in g.diffs :: AllDefined(g.diffs[v], k)
    ensures AllDefined(CellDiffs(g, a, loads), k)
  {
    if |loads| > 0 { CellDiffsDefined(g, a, loads[..|loads| - 1], k); }
  }

  lemma {:induction false} FromLoadsDefined(g: Gen, x: nat, loads: seq<Var>, k: nat)
    requires forall v | v in g.diffs :: AllDefined(g.diffs[v], k)
    ensures AllDefined(FromLoads(g, x, loads), k)
  {
    if |loads| > 0 { FromLoadsDefined(g, x, loads[..|loads| - 1], k); }
  }

  lemma {:induction false} OwnTermDefined(x: nat, loads: seq<Var>, rec: Option<NExpr>, k: nat)
    ensures AllDefined(OwnTerm(x, loads, rec), k)
  {
    hide DiffExpr, HasSize;
    if |loads| > 0 {
      OwnTermDefined(x, loads[..|loads| - 1], rec, k);
      RecDefined(rec, k);
    }
  }

  /** Where the array step leaves the generator and its code. */
  lemma ArrGen(g: Gen, w: World, ph: Phase)
    requires ph.ArrLoop? && w.n >= 2 && w.d == CodeState(g, w) && DiffsOf(g, Arr(ph.a)) == []
    ensures var g' := GenPhase(ph, g); var d' := NextWorld(g, w, ph).d;
            && d' == DState(Body(ph, w.n, w.n - 1, w.d.s), w.d.regs) && g'.regs == g.regs
            && (forall v :: DiffsOf(g', v) == if v == Arr(ph.a) then RecDiffs(RecOf(ph.t)) + CellDiffs(g, ph.a, Loads(ph.t)) else DiffsOf(g, v))
  {
    hide ExecAll, Body, Exec, CellDiffs, RecDiffs, CodeState, Record, DiffsOf, OwnDiffs, Loads, RecOf;
    CellSum(g, w, ph.a, Loads(ph.t));
    EmitRuns(g, w, Peel(ph));
    var g1 := EmitD(g, Peel(ph));
    RecordTwice(g1, Arr(ph.a), RecDiffs(RecOf(ph.t)), CellDiffs(g, ph.a, Loads(ph.t)));
    SameDiffs(g, g1);
    SameCode(g1, GenPhase(ph, g), w);
    NoPeeled(ph, w);
  }

  lemma NoPeeled(ph: Phase, w: World)
    requires ph.ArrLoop? && w.n >= 2
    ensures ExecD(Peel(ph), w.n, w.last, w.d) == DState(Body(ph, w.n, w.n - 1, w.d.s), w.d.regs)
  {
    hide Body;
  }

  lemma SameCode(g: Gen, g': Gen, w: World)
    requires g'.code == g.code && w.n >= 0
    ensures CodeState(g', w) == CodeState(g, w)
  {
  }

  lemma SameDiffs(g: Gen, g': Gen)
    requires g'.diffs == g.diffs
    ensures forall v :: DiffsOf(g', v) == DiffsOf(g, v)
  {
  }

  lemma RecordTwice(g: Gen, v: Var, xs: seq<DVal>, ys: seq<DVal>)
    ensures var g' := Record(Record(g, v, xs), v, ys);
            && g'.code == g.code && g'.regs == g.regs
            && forall u :: DiffsOf(g', u) == if u == v then DiffsOf(g, v) + (xs + ys) else DiffsOf(g, u)
  {
    hide Record, DiffsOf;
    RecordIs(g, v, xs);
    RecordIs(Record(g, v, xs), v, ys);
    assert DiffsOf(g, v) + xs + ys == DiffsOf(g, v) + (xs + ys);
  }

  lemma ArrKnown(g: Gen, w: World, ph: Phase)
    requires ph.ArrLoop? && RegsKnown(g, w) && w.n >= 2 && w.d == CodeState(g, w) && DiffsOf(g, Arr(ph.a)) == []
    ensures RegsKnown(GenPhase(ph, g), NextWorld(g, w, ph))
  {
    hide Body, CellDiffs, RecDiffs, Loads, RecOf;
    var rec, loads := RecOf(ph.t), Loads(ph.t);
    ArrGen(g, w, ph);
    CellSum(g, w, ph.a, loads);
    RecDefined(rec, g.regs);
    CellDiffsDefined(g, ph.a, loads, g.regs);
    var g1 := EmitD(g, Peel(ph));
    RecordKnown(g1, Arr(ph.a), RecDiffs(rec), g.regs);
    RecordKnown(Record(g1, Arr(ph.a), RecDiffs(rec)), Arr(ph.a), CellDiffs(g, ph.a, loads), g.regs);
  }

  /** The cells of `a` below N-1 move by its recorded differences. */
  ghost predicate CellsOf(g: Gen, w: World, a: nat) { forall k: int | 0 <= k < w.n - 1 :: CellMissing(g, w, a, k) == 0 }

  lemma CellsMovedIs(g: Gen, w: World)
    ensures CellsMoved(g, w) <==> forall a: nat :: CellsOf(g, w, a)
  {
    hide SumOf;
    if CellsMoved(g, w) {
      forall a: nat, k: int | 0 <= k < w.n - 1 ensures CellMissing(g, w, a, k) == 0 {
        assert w.big.arr(a, k) == w.small.arr(a, k) + SumOf(g, Arr(a), w);
      }
    } else {
      var a: nat, k: int :| 0 <= k < w.n - 1 && w.big.arr(a, k) != w.small.arr(a, k) + SumOf(g, Arr(a), w);
      assert CellMissing(g, w, a, k) != 0;
      assert !CellsOf(g, w, a);
    }
  }

  /** What an array loop records: its own term's difference and those of all loads, added up. */
  function ArrRec(g: Gen, w: World, t: Term): int { SumD(RecDiffs(RecOf(t)), w.n, w.d.regs) + DiffSum(g, w, Loads(t)) }

  /** In every iteration that both sizes have, the stored value moves by what is recorded. */
  ghost predicate ValueRecorded(g: Gen, w: World, t: Term) { forall k: int | 0 <= k < w.n - 1 :: Moves(w, t, k) == ArrRec(g, w, t) }

  lemma CellsOfIf(g: Gen, w: World, a: nat, g0: Gen, w0: World, t: Term)
    requires w.n == w0.n && forall k: int | 0 <= k < w.n - 1 :: CellMissing(g, w, a, k) == Moves(w0, t, k) - ArrRec(g0, w0, t)
    ensures CellsOf(g, w, a) <==> ValueRecorded(g0, w0, t)
  {
    hide CellMissing, Moves, ArrRec;
    if CellsOf(g, w, a) {
      forall k: int | 0 <= k < w.n - 1 ensures Moves(w0, t, k) == ArrRec(g0, w0, t) { assert CellMissing(g, w, a, k) == 0; }
    } else {
      var k: int :| 0 <= k < w.n - 1 && CellMissing(g, w, a, k) != 0;
      assert Moves(w0, t, k) != ArrRec(g0, w0, t);
    }
  }

  /** EXACTLY WHEN an array loop keeps the relation: the stored value moves by what is recorded.  Scalars and the peeled
      cells are right in any case, whatever the operators. */
  lemma ArrStep(g: Gen, w: World, ph: Phase)
    requires ph.ArrLoop? && Related(g, w) && w.d == CodeState(g, w)
    requires DiffsOf(g, Arr(ph.a)) == [] && Settled(w, None, Loads(ph.t))
    ensures Related(GenPhase(ph, g), NextWorld(g, w, ph)) <==> ValueRecorded(g, w, ph.t)
    ensures CellsOf(GenPhase(ph, g), NextWorld(g, w, ph), ph.a) <==> ValueRecorded(g, w, ph.t)
    ensures RegsKnown(GenPhase(ph, g), NextWorld(g, w, ph))
    ensures forall x: nat :: Missing(GenPhase(ph, g), NextWorld(g, w, ph), x) == Missing(g, w, x)
  {
    hide CodeState, GenPhase, RegsKnown, TVal, SumD, Settled, Loads, RecOf, CellsMoved, CellsOf, ValueRecorded;
    var g', w' := GenPhase(ph, g), NextWorld(g, w, ph);
    ArrGen(g, w, ph);
    ArrKnown(g, w, ph);
    ArrLoopAt(ph, w.n - 1, w.n - 1, w.small);
    ArrLoopAt(ph, w.n, w.n, w.big);
    PeelReads(g, w, None, Loads(ph.t));
    TValSame(ph.t, w.d.s, w.big, w.n, w.n - 1);
    CellSum(g, w, ph.a, Loads(ph.t));
    SumAppend(RecDiffs(RecOf(ph.t)), CellDiffs(g, ph.a, Loads(ph.t)), w.n, w.d.regs);
    ArrElsewhere(g, w, g', w', ph.a);
    CellsOfIf(g', w', ph.a, g, w, ph.t);
  }

  /** Only `a` changes: the relation of all arrays is that of `a`. */
  lemma ArrElsewhere(g: Gen, w: World, g': Gen, w': World, a: nat)
    requires CellsMoved(g, w) && w'.n == w.n && w'.d.regs == w.d.regs
    requires forall b: nat, k: int | b != a && 0 <= k < w.n - 1 :: w'.big.arr(b, k) == w.big.arr(b, k) && w'.small.arr(b, k) == w.small.arr(b, k)
    requires forall b: nat | b != a :: DiffsOf(g', Arr(b)) == DiffsOf(g, Arr(b))
    ensures CellsMoved(g', w') <==> CellsOf(g', w', a)
  {
    hide SumD, DiffsOf;
    CellsMovedIs(g, w);
    CellsMovedIs(g', w');
    forall b: nat | b != a ensures CellsOf(g', w', b) {
      assert CellsOf(g, w, b);
      forall k: int | 0 <= k < w.n - 1 ensures CellMissing(g', w', b, k) == 0 { assert CellMissing(g, w, b, k) == 0; }
    }
  }

  /** A cell stored outside loops: its difference is recorded for the whole array. */
  lemma CellGen(g: Gen, w: World, ph: Phase)
    requires ph.OuterCell? && w.n >= 2 && w.d == CodeState(g, w)
    ensures var g' := GenPhase(ph, g);
            && g'.regs == g.regs && NextWorld(g, w, ph).d == w.d
            && (forall v :: DiffsOf(g', v) == if v == Arr(ph.a) && HasSize(ph.e) then DiffsOf(g, v) + [OfExpr(DiffExpr(ph.e))] else DiffsOf(g, v))
            && (RegsKnown(g, w) ==> RegsKnown(g', NextWorld(g, w, ph)))
  {
    hide CodeState, Record, DiffExpr, DiffsOf, AllDefined, Exec;
    var v := OfExpr(DiffExpr(ph.e));
    if HasSize(ph.e) {
      RecordIs(g, Arr(ph.a), [v]);
      SameCode(g, GenPhase(ph, g), w);
      OneDefined(v, g.regs);
      if RegsKnown(g, w) { RecordKnown(g, Arr(ph.a), [v], g.regs); }
    }
  }

  /** EXACTLY WHEN a store to a cell outside loops keeps the relation: its value does not move with N, or there is no
      other cell. */
  ghost predicate CellFine(w: World, e: NExpr) { Eval(e, w.n, 0) == Eval(e, w.n - 1, 0) || w.n == 2 }

  lemma CellStep(g: Gen, w: World, ph: Phase)
    requires ph.OuterCell? && Related(g, w) && w.d == CodeState(g, w) && !HasCtr(ph.e)
    requires DiffsOf(g, Arr(ph.a)) == [] && 0 <= ph.c < w.n - 1
    ensures Related(GenPhase(ph, g), NextWorld(g, w, ph)) <==> CellFine(w, ph.e)
    ensures CellsOf(GenPhase(ph, g), NextWorld(g, w, ph), ph.a) <==> CellFine(w, ph.e)
    ensures RegsKnown(GenPhase(ph, g), NextWorld(g, w, ph))
    ensures forall x: nat :: Missing(GenPhase(ph, g), NextWorld(g, w, ph), x) == Missing(g, w, x)
  {
    hide CodeState, GenPhase, RegsKnown, DiffExpr, SumD, CellsMoved, CellsOf, DiffsOf;
    var g', w', z := GenPhase(ph, g), NextWorld(g, w, ph), Eval(ph.e, w.n, 0) - Eval(ph.e, w.n - 1, 0);
    CellGen(g, w, ph);
    DiffMeans(ph.e, w.n, 0);
    NoCtr(ph.e, w.n, w.n, 0);
    NoCtr(ph.e, w.n - 1, w.n, 0);
    SumOne(OfExpr(DiffExpr(ph.e)), w.n, w.d.regs);
    NoneRecorded(w);
    if !HasSize(ph.e) { NoSize(ph.e, w.n, w.n - 1, 0); }
    assert [] + [OfExpr(DiffExpr(ph.e))] == [OfExpr(DiffExpr(ph.e))];
    ArrElsewhere(g, w, g', w', ph.a);
    CellsMovedIs(g, w);
    assert CellsOf(g, w, ph.a);
    StoredCell(g, w, g', w', ph.a, ph.c, z);
  }

  lemma StoredCell(g: Gen, w: World, g': Gen, w': World, a: nat, c: int, z: int)
    requires w'.n == w.n >= 2 && 0 <= c < w.n - 1 && CellsOf(g, w, a) && SumOf(g, Arr(a), w) == 0 && SumOf(g', Arr(a), w') == z
    requires w'.big.arr(a, c) - w'.small.arr(a, c) == z
    requires forall k: int | k != c :: w'.big.arr(a, k) == w.big.arr(a, k) && w'.small.arr(a, k) == w.small.arr(a, k)
    ensures CellsOf(g', w', a) <==> z == 0 || w.n == 2
  {
    hide SumOf;
    forall k: int | 0 <= k < w.n - 1 ensures CellMissing(g', w', a, k) == if k == c then 0 else -z {
      assert CellMissing(g, w, a, k) == 0;
    }
    if w.n > 2 {
      var k := if c == 0 then 1 else 0;
      assert CellMissing(g', w', a, k) == -z;
    }
  }

  // ----- one phase: scalar loops -----

  /** Everything a scalar loop records. */
  function AccumDiffs(g: Gen, ph: Phase): seq<DVal>
    requires ph.Accum?
  {
    TermDiffs(ph) + (FromLoads(g, ph.x, Loads(ph.t)) + RegList(g.regs, CountArr(Loads(ph.t))))
  }

  function Glued(g: Gen, ph: Phase): seq<DVal>
    requires ph.Accum?
  {
    GlueVals(g, ph.x, Loads(ph.t), RecOf(ph.t))
  }

  function GlueOf(g: Gen, w: World, ph: Phase): int
    requires ph.Accum?
  {
    SumD(Glued(g, ph), w.n, w.d.regs)
  }

  /** The state in which the loop's peeled iteration runs. */
  ghost predicate AfterGlue(g: Gen, w: World, ph: Phase, s1: State)
    requires ph.Accum?
  {
    s1.arr == w.d.s.arr && forall y: nat :: s1.scl(y) == w.d.s.scl(y) + if y == ph.x then GlueOf(g, w, ph) else 0
  }

  lemma RecordThrice(g: Gen, v: Var, xs: seq<DVal>, ys: seq<DVal>, zs: seq<DVal>)
    ensures var g' := Record(Record(Record(g, v, xs), v, ys), v, zs);
            && g'.code == g.code && g'.regs == g.regs
            && forall u :: DiffsOf(g', u) == if u == v then DiffsOf(g, v) + (xs + (ys + zs)) else DiffsOf(g, u)
  {
    hide Record, DiffsOf;
    RecordTwice(g, v, xs, ys);
    RecordIs(Record(Record(g, v, xs), v, ys), v, zs);
    assert DiffsOf(g, v) + (xs + ys) + zs == DiffsOf(g, v) + (xs + (ys + zs));
  }

  lemma AccumGen(g: Gen, w: World, ph: Phase) returns (s1: State)
    requires ph.Accum? && w.n >= 2 && w.d == CodeState(g, w)
    ensures AfterGlue(g, w, ph, s1)
    ensures var g' := GenPhase(ph, g); var d' := NextWorld(g, w, ph).d;
            && d' == DState(Body(ph, w.n, w.n - 1, s1), w.d.regs + PeeledLoads(s1, Loads(ph.t), w.n - 1))
            && g'.regs == g.regs + CountArr(Loads(ph.t))
            && (forall v :: DiffsOf(g', v) == if v == Scl(ph.x) then DiffsOf(g, v) + AccumDiffs(g, ph) else DiffsOf(g, v))
  {
    hide ExecAll, Body, Exec, FromLoads, GlueVals, TermDiffs, Loads, RecOf, CountArr, CodeState, Record, DiffsOf;
    var vals, loads := Glued(g, ph), Loads(ph.t);
    var g1 := if vals == [] then g else EmitD(g, Glue(ph.x, vals));
    var g2 := EmitD(g1, Peel(ph)).(regs := g.regs + CountArr(loads));
    s1 := GlueRuns(g, w, ph);
    EmitRuns(g1, w, Peel(ph));
    PeelRuns(ph, w, DState(s1, w.d.regs));
    SameCode(EmitD(g1, Peel(ph)), g2, w);
    RecordThrice(g2, Scl(ph.x), TermDiffs(ph), FromLoads(g, ph.x, loads), RegList(g.regs, CountArr(loads)));
    SameCode(g2, GenPhase(ph, g), w);
    SameDiffs(g, g2);
  }

  lemma PeelRuns(ph: Phase, w: World, d: DState)
    requires ph.Accum? && w.n >= 2
    ensures ExecD(Peel(ph), w.n, w.last, d) == DState(Body(ph, w.n, w.n - 1, d.s), d.regs + PeeledLoads(d.s, Loads(ph.t), w.n - 1))
  {
    hide Body;
  }

  lemma GlueRuns(g: Gen, w: World, ph: Phase) returns (s1: State)
    requires ph.Accum? && w.n >= 2 && w.d == CodeState(g, w)
    ensures AfterGlue(g, w, ph, s1)
    ensures CodeState(if Glued(g, ph) == [] then g else EmitD(g, Glue(ph.x, Glued(g, ph))), w) == DState(s1, w.d.regs)
  {
    hide ExecAll, Glued, CodeState;
    if Glued(g, ph) == [] {
      s1 := w.d.s;
    } else {
      EmitRuns(g, w, Glue(ph.x, Glued(g, ph)));
      s1 := ExecD(Glue(ph.x, Glued(g, ph)), w.n, w.last, w.d).s;
    }
  }

  /** The peeled iteration reads what the last iteration at size N reads, but for the scalar itself. */
  lemma GlueReads(g: Gen, w: World, ph: Phase, s1: State)
    requires ph.Accum? && Related(g, w) && Settled(w, Some(ph.x), Loads(ph.t)) && AfterGlue(g, w, ph, s1)
    ensures TVal(s1, ph.t, w.n, w.n - 1) == TVal(SetScl(w.big, ph.x, w.d.s.scl(ph.x) + GlueOf(g, w, ph)), ph.t, w.n, w.n - 1)
    ensures ArrSum(s1, Loads(ph.t), w.n - 1) == ArrSum(w.big, Loads(ph.t), w.n - 1)
  {
    hide Related, Settled, GlueOf, Loads;
    PeelReads(g, w, Some(ph.x), Loads(ph.t));
    var r := SetScl(w.big, ph.x, s1.scl(ph.x));
    forall v | v in Loads(ph.t) ensures LoadVal(s1, v, w.n - 1) == LoadVal(r, v, w.n - 1) {
      if v != Scl(ph.x) { assert LoadVal(w.d.s, v, w.n - 1) == LoadVal(w.big, v, w.n - 1); }
    }
    TValSame(ph.t, s1, r, w.n, w.n - 1);
    ArrSumSame(s1, w.big, Loads(ph.t), w.n - 1);
  }

  /** The scalar at the end of the loop at size N, at size N-1, and after the generated code. */
  function FoldBig(w: World, ph: Phase): int
    requires ph.Accum? && w.n >= 1
  {
    Fold(w.big, ph.x, ph.t, w.n, w.n)
  }

  function FoldSmall(w: World, ph: Phase): int
    requires ph.Accum? && w.n >= 1
  {
    Fold(w.small, ph.x, ph.t, w.n - 1, w.n - 1)
  }

  function Coded(g: Gen, w: World, ph: Phase): int
    requires ph.Accum?
  {
    TVal(SetScl(w.big, ph.x, w.d.s.scl(ph.x) + GlueOf(g, w, ph)), ph.t, w.n, w.n - 1)
  }

  /** One more iteration on the glued value gives what the scalar needs. */
  ghost predicate ScalarRight(g: Gen, w: World, ph: Phase)
    requires ph.Accum? && w.n >= 1
  {
    Coded(g, w, ph) == w.last.scl(ph.x) + FoldBig(w, ph) - FoldSmall(w, ph)
  }

  lemma AccumValues(g: Gen, w: World, ph: Phase)
    requires ph.Accum? && Related(g, w) && w.d == CodeState(g, w) && Settled(w, Some(ph.x), Loads(ph.t))
    ensures var w' := NextWorld(g, w, ph);
            w'.big.scl(ph.x) == FoldBig(w, ph) && w'.small.scl(ph.x) == FoldSmall(w, ph) && w'.d.s.scl(ph.x) == Coded(g, w, ph)
  {
    hide Related, Settled, GlueOf, Fold, TVal, CodeState, GenPhase, RegsKnown, Loads;
    RelatedKnown(g, w);
    AccumAt(ph, w.n - 1, w.n - 1, w.small);
    AccumAt(ph, w.n, w.n, w.big);
    var s1 := AccumGen(g, w, ph);
    GlueReads(g, w, ph, s1);
  }

  lemma AccumElsewhere(g: Gen, w: World, ph: Phase)
    requires ph.Accum? && w.n >= 2 && w.d == CodeState(g, w)
    ensures var w' := NextWorld(g, w, ph);
            && w'.big.arr == w.big.arr && w'.small.arr == w.small.arr && w'.d.s.arr == w.d.s.arr
            && (forall y: nat | y != ph.x :: w'.big.scl(y) == w.big.scl(y) && w'.small.scl(y) == w.small.scl(y) && w'.d.s.scl(y) == w.d.s.scl(y))
            && exists more :: w'.d.regs == w.d.regs + more && |more| == CountArr(Loads(ph.t))
  {
    hide GlueOf, CodeState, GenPhase, TVal, Fold, Loads;
    AccumAt(ph, w.n - 1, w.n - 1, w.small);
    AccumAt(ph, w.n, w.n, w.big);
    var s1 := AccumGen(g, w, ph);
    PeeledCount(s1, Loads(ph.t), w.n - 1);
  }

  lemma AccumKnown(g: Gen, w: World, ph: Phase)
    requires ph.Accum? && RegsKnown(g, w) && w.n >= 2 && w.d == CodeState(g, w)
    ensures RegsKnown(GenPhase(ph, g), NextWorld(g, w, ph))
  {
    hide GenPhase, NextWorld, FromLoads, OwnTerm, RecDiffs, RecOf, Loads, CodeState, AllDefined, CountArr, RegList;
    AccumElsewhere(g, w, ph);
    AccumRegs(g, w, ph);
    var k := g.regs + CountArr(Loads(ph.t));
    forall v | v in g.diffs ensures AllDefined(g.diffs[v], k) { MoreDefined(g.diffs[v], g.regs, k); }
    RecDefined(RecOf(ph.t), k);
    OwnTermDefined(ph.x, Loads(ph.t), RecOf(ph.t), k);
    FromLoadsDefined(g, ph.x, Loads(ph.t), k);
    RegsDefined(g.regs, CountArr(Loads(ph.t)));
    AccumRecords(g, ph, k);
  }

  lemma AccumRegs(g: Gen, w: World, ph: Phase)
    requires ph.Accum? && w.n >= 2 && w.d == CodeState(g, w)
    ensures GenPhase(ph, g).regs == g.regs + CountArr(Loads(ph.t))
  {
    hide CodeState, GenPhase;
    var s1 := AccumGen(g, w, ph);
  }

  lemma MoreDefined(ds: seq<DVal>, k: nat, k': nat)
    requires AllDefined(ds, k) && k <= k'
    ensures AllDefined(ds, k')
  {
    forall i | 0 <= i < |ds| ensures Defined(ds[i], k') { DefinedMore(ds[i], k, k'); }
  }

  lemma AccumRecords(g: Gen, ph: Phase, k: nat)
    requires ph.Accum? && (forall u | u in g.diffs :: AllDefined(g.diffs[u], k))
    requires AllDefined(TermDiffs(ph), k) && AllDefined(FromLoads(g, ph.x, Loads(ph.t)), k) && AllDefined(RegList(g.regs, CountArr(Loads(ph.t))), k)
    ensures forall u | u in GenPhase(ph, g).diffs :: AllDefined(GenPhase(ph, g).diffs[u], k)
  {
    hide FromLoads, TermDiffs, GlueVals, Loads, RecOf, AllDefined, Record, CountArr;
    var own, taken, peeled := TermDiffs(ph), FromLoads(g, ph.x, Loads(ph.t)), RegList(g.regs, CountArr(Loads(ph.t)));
    var g1 := if Glued(g, ph) == [] then g else EmitD(g, Glue(ph.x, Glued(g, ph)));
    var g2 := EmitD(g1, Peel(ph)).(regs := g.regs + CountArr(Loads(ph.t)));
    RecordKnown(g2, Scl(ph.x), own, k);
    RecordKnown(Record(g2, Scl(ph.x), own), Scl(ph.x), taken, k);
    RecordKnown(Record(Record(g2, Scl(ph.x), own), Scl(ph.x), taken), Scl(ph.x), peeled, k);
  }

  /** EXACTLY WHEN a scalar loop keeps the relation, whatever its operators: the code's one iteration is right. */
  lemma ScalarStep(g: Gen, w: World, ph: Phase)
    requires ph.Accum? && Related(g, w) && w.d == CodeState(g, w) && Settled(w, Some(ph.x), Loads(ph.t))
    ensures Related(GenPhase(ph, g), NextWorld(g, w, ph)) <==> ScalarRight(g, w, ph)
    ensures forall y: nat | y != ph.x :: Missing(GenPhase(ph, g), NextWorld(g, w, ph), y) == Missing(g, w, y)
  {
    hide Settled, SumD, GlueOf, Fold, TVal, CodeState, GenPhase, NextWorld, Loads, RegsKnown;
    var g', w' := GenPhase(ph, g), NextWorld(g, w, ph);
    RelatedKnown(g, w);
    NextIs(g, w, ph);
    AccumValues(g, w, ph);
    AccumElsewhere(g, w, ph);
    AccumKnown(g, w, ph);
    AccumOthers(g, w, ph);
  }

  lemma NextIs(g: Gen, w: World, ph: Phase)
    requires w.n >= 1
    ensures NextWorld(g, w, ph).n == w.n && NextWorld(g, w, ph).last == w.last
  {
  }

  /** Differences recorded earlier keep their value. */
  lemma AccumOthers(g: Gen, w: World, ph: Phase)
    requires ph.Accum? && RegsKnown(g, w) && w.n >= 2 && w.d == CodeState(g, w)
    ensures forall v | v != Scl(ph.x) :: SumOf(GenPhase(ph, g), v, NextWorld(g, w, ph)) == SumOf(g, v, w)
  {
    hide SumD, CodeState, GenPhase, NextWorld, AccumDiffs, Loads;
    NextIs(g, w, ph);
    AccumElsewhere(g, w, ph);
    var s1 := AccumGen(g, w, ph);
    var w' := NextWorld(g, w, ph);
    var more :| w'.d.regs == w.d.regs + more;
    forall v | v != Scl(ph.x) ensures SumOf(GenPhase(ph, g), v, w') == SumOf(g, v, w) {
      SumStays(DiffsOf(g, v), w.n, w.d.regs, more);
    }
  }

  /** What a scalar loop records is worth. */
  function AccumRec(g: Gen, w: World, ph: Phase): int
    requires ph.Accum?
  {
    SumD(TermDiffs(ph), w.n, w.d.regs) + SumD(FromLoads(g, ph.x, Loads(ph.t)), w.n, w.d.regs) + ArrSum(w.big, Loads(ph.t), w.n - 1)
  }

  lemma AccumRecorded(g: Gen, w: World, ph: Phase, s1: State)
    requires ph.Accum? && w.n >= 2 && RegsKnown(g, w) && ArrSum(s1, Loads(ph.t), w.n - 1) == ArrSum(w.big, Loads(ph.t), w.n - 1)
    ensures SumD(DiffsOf(g, Scl(ph.x)) + AccumDiffs(g, ph), w.n, w.d.regs + PeeledLoads(s1, Loads(ph.t), w.n - 1)) ==
            SumOf(g, Scl(ph.x), w) + AccumRec(g, w, ph)
  {
    hide SumD, ArrSum, PeeledLoads, FromLoads, AllDefined, RegList, RecDiffs, OwnTerm, Loads, RecOf;
    var loads := Loads(ph.t);
    var more := PeeledLoads(s1, loads, w.n - 1);
    var before, own, taken, peeled := DiffsOf(g, Scl(ph.x)), TermDiffs(ph), FromLoads(g, ph.x, loads), RegList(g.regs, CountArr(loads));
    PeeledSum(s1, loads, w.n - 1, w.d.regs, w.n);
    RecDefined(RecOf(ph.t), g.regs);
    OwnTermDefined(ph.x, loads, RecOf(ph.t), g.regs);
    FromLoadsDefined(g, ph.x, loads, g.regs);
    assert AllDefined(before, g.regs) by { NothingDefined(g.regs); }
    SumStays(before, w.n, w.d.regs, more);
    SumStays(own, w.n, w.d.regs, more);
    SumStays(taken, w.n, w.d.regs, more);
    SumAppend(before, own + (taken + peeled), w.n, w.d.regs + more);
    SumAppend(own, taken + peeled, w.n, w.d.regs + more);
    SumAppend(taken, peeled, w.n, w.d.regs + more);
  }

  lemma NothingDefined(k: nat)
    ensures AllDefined([], k)
  {
  }

  /** EXACTLY WHAT a scalar's records are short of after a loop that writes it, whatever the operators. */
  lemma ScalarMissing(g: Gen, w: World, ph: Phase)
    requires ph.Accum? && Related(g, w) && w.d == CodeState(g, w) && Settled(w, Some(ph.x), Loads(ph.t))
    ensures Missing(GenPhase(ph, g), NextWorld(g, w, ph), ph.x) ==
            FoldBig(w, ph) - FoldSmall(w, ph) - SumOf(g, Scl(ph.x), w) - AccumRec(g, w, ph)
  {
    hide Related, SumD, Fold, TVal, ArrSum, CodeState, GenPhase, NextWorld, PeeledLoads, AccumDiffs, AccumRec, GlueOf, RegsKnown, Settled, CountArr, Loads;
    RelatedKnown(g, w);
    NextIs(g, w, ph);
    AccumValues(g, w, ph);
    var s1 := AccumGen(g, w, ph);
    GlueReads(g, w, ph, s1);
    AccumRecorded(g, w, ph, s1);
  }

  /** A RESET, exactly: a scalar set to a value without loads ends right if and only if nothing later moves it, and its
      records are short of the change of the value between the last iterations, less the change recorded, which is that
      at counter N, and less what was recorded for the scalar before. */
  lemma ResetMissing(g: Gen, w: World, ph: Phase)
    requires ph.Accum? && AsPure(ph.t).Some? && Related(g, w) && w.d == CodeState(g, w) && Settled(w, Some(ph.x), Loads(ph.t))
    ensures var e, n := AsPure(ph.t).value, w.n;
            && (ScalarRight(g, w, ph) <==> w.last.scl(ph.x) == Eval(e, n - 1, n - 2))
            && Missing(GenPhase(ph, g), NextWorld(g, w, ph), ph.x) ==
               Eval(e, n, n - 1) - Eval(e, n - 1, n - 2) - (Eval(e, n, n) - Eval(e, n - 1, n)) - SumOf(g, Scl(ph.x), w)
            && (!HasCtr(e) ==> Missing(GenPhase(ph, g), NextWorld(g, w, ph), ph.x) == -SumOf(g, Scl(ph.x), w))
  {
    hide Related, SumOf, CodeState, GenPhase, NextWorld, Settled, GlueOf, AsPure, Loads, CollectRec, Missing, SumD, DiffExpr, AccumRec, HasSize, Eval, TVal;
    RelatedKnown(g, w);
    var e, n := AsPure(ph.t).value, w.n;
    ScalarMissing(g, w, ph);
    PureRest(ph.t);
    PureMeans(SetScl(w.big, ph.x, Fold(w.big, ph.x, ph.t, n, n - 1)), ph.t, n, n - 1);
    PureMeans(SetScl(w.small, ph.x, Fold(w.small, ph.x, ph.t, n - 1, n - 2)), ph.t, n - 1, n - 2);
    PureMeans(SetScl(w.big, ph.x, w.d.s.scl(ph.x) + GlueOf(g, w, ph)), ph.t, n, n - 1);
    ResetRecord(g, w, ph);
    if !HasCtr(e) {
      NoCtr(e, n, n - 1, n);
      NoCtr(e, n - 1, n - 2, n);
    }
  }

  lemma ResetRecord(g: Gen, w: World, ph: Phase)
    requires ph.Accum? && AsPure(ph.t).Some?
    ensures AccumRec(g, w, ph) == Eval(AsPure(ph.t).value, w.n, w.n) - Eval(AsPure(ph.t).value, w.n - 1, w.n)
  {
    hide AsPure, DiffExpr, HasSize, Eval, CollectRec;
    var e := AsPure(ph.t).value;
    PureRest(ph.t);
    NoneRecorded(w);
    if HasSize(e) {
      SumOne(OfExpr(DiffExpr(e)), w.n, w.d.regs);
      DiffMeans(e, w.n, 0);
    } else {
      NoSize(e, w.n, w.n - 1, w.n);
    }
  }

  lemma RelatedKnown(g: Gen, w: World)
    requires Related(g, w)
    ensures RegsKnown(g, w) && w.n >= 2
  {
  }

  // ----- accumulations -----

  /** `x = x + u`, `x = u + x` or `x = x - u`. */
  datatype Addend = Addend(neg: bool, u: Term)

  function AddendOf(x: nat, t: Term): Option<Addend> {
    match t
    case Bin(Add, l, r) =>
      if l == Load(Scl(x)) && Scl(x) !in Loads(r) then Some(Addend(false, r))
      else if r == Load(Scl(x)) && Scl(x) !in Loads(l) then Some(Addend(false, l)) else None
    case Bin(Sub, l, r) => if l == Load(Scl(x)) && Scl(x) !in Loads(r) then Some(Addend(true, r)) else None
    case _ => None
  }

  function Sgn(neg: bool, x: int): int { if neg then -x else x }

  /** What `k` iterations add, before the sign. */
  function Total(s: State, u: Term, n: int, k: nat): int { if k == 0 then 0 else Total(s, u, n, k - 1) + TVal(s, u, n, k - 1) }

  lemma AddendVal(s: State, x: nat, t: Term, n: int, i: int, y: int)
    requires AddendOf(x, t).Some?
    ensures var a := AddendOf(x, t).value; TVal(SetScl(s, x, y), t, n, i) == y + Sgn(a.neg, TVal(s, a.u, n, i))
  {
    var a := AddendOf(x, t).value;
    assert Scl(x) !in Loads(a.u);
    TValSame(a.u, s, SetScl(s, x, y), n, i);
    assert TVal(SetScl(s, x, y), Load(Scl(x)), n, i) == y;
  }

  lemma {:induction false} FoldAdds(s: State, x: nat, t: Term, n: int, k: nat)
    requires AddendOf(x, t).Some?
    ensures var a := AddendOf(x, t).value; Fold(s, x, t, n, k) == s.scl(x) + Sgn(a.neg, Total(s, a.u, n, k))
  {
    hide AddendOf, TVal, SetScl;
    if k > 0 {
      FoldAdds(s, x, t, n, k - 1);
      AddendVal(s, x, t, n, k - 1, Fold(s, x, t, n, k - 1));
    }
  }

  /** How far the totals of the iterations that both sizes have are apart. */
  function Apart(w: World, u: Term): int
    requires w.n >= 1
  {
    Total(w.big, u, w.n, w.n - 1) - Total(w.small, u, w.n - 1, w.n - 1)
  }

  /** What the glue misses of an accumulation. */
  function Missed(g: Gen, w: World, ph: Phase): int
    requires ph.Accum? && AddendOf(ph.x, ph.t).Some? && w.n >= 1
  {
    Sgn(AddendOf(ph.x, ph.t).value.neg, Apart(w, AddendOf(ph.x, ph.t).value.u)) - GlueOf(g, w, ph)
  }

  /** EXACTLY WHEN an accumulation keeps the relation: the glue is how far the totals are apart. */
  lemma AccumStep(g: Gen, w: World, ph: Phase)
    requires ph.Accum? && AddendOf(ph.x, ph.t).Some? && Related(g, w) && w.d == CodeState(g, w) && Settled(w, Some(ph.x), Loads(ph.t))
    ensures Related(GenPhase(ph, g), NextWorld(g, w, ph)) <==> Missed(g, w, ph) == 0
    ensures ScalarRight(g, w, ph) <==> Missed(g, w, ph) == 0
  {
    hide Settled, GlueOf, TVal, CodeState, GenPhase, NextWorld, Loads, AddendOf, RegsKnown, CellsMoved, CellsRelated;
    ScalarStep(g, w, ph);
    FoldAdds(w.big, ph.x, ph.t, w.n, w.n);
    FoldAdds(w.small, ph.x, ph.t, w.n - 1, w.n - 1);
    AddendVal(w.big, ph.x, ph.t, w.n, w.n - 1, w.d.s.scl(ph.x) + GlueOf(g, w, ph));
  }

  /** EXACTLY WHAT an accumulator's records are short of afterwards: besides what the glue misses, the difference between
      the value added in the peeled iteration and the array loads recorded for it. */
  lemma AccumMissing(g: Gen, w: World, ph: Phase)
    requires ph.Accum? && AddendOf(ph.x, ph.t).Some? && Related(g, w) && w.d == CodeState(g, w) && Settled(w, Some(ph.x), Loads(ph.t))
    ensures var a := AddendOf(ph.x, ph.t).value;
            Missing(GenPhase(ph, g), NextWorld(g, w, ph), ph.x) ==
            Missing(g, w, ph.x) + Missed(g, w, ph) + Sgn(a.neg, TVal(w.big, a.u, w.n, w.n - 1)) - ArrSum(w.big, Loads(a.u), w.n - 1)
  {
    hide Settled, TVal, CodeState, GenPhase, NextWorld, AddendOf, RegsKnown, CellsMoved, CellsRelated, ScalarsRelated, ArrSum, SumD, Loads, TermDiffs, FromLoads, GlueVals;
    ScalarMissing(g, w, ph);
    FoldAdds(w.big, ph.x, ph.t, w.n, w.n);
    FoldAdds(w.small, ph.x, ph.t, w.n - 1, w.n - 1);
    GlueParts(g, w, ph);
    AddendArrays(ph.x, ph.t, w.big, w.n - 1);
  }

  lemma {:induction false} ArrSumAppend(s: State, xs: seq<Var>, ys: seq<Var>, i: int)
    ensures ArrSum(s, xs + ys, i) == ArrSum(s, xs, i) + ArrSum(s, ys, i)
  {
    if |ys| == 0 {
      assert xs + ys == xs;
    } else {
      assert (xs + ys)[..|xs + ys| - 1] == xs + ys[..|ys| - 1];
      ArrSumAppend(s, xs, ys[..|ys| - 1], i);
    }
  }

  lemma AddendArrays(x: nat, t: Term, s: State, i: int)
    requires AddendOf(x, t).Some?
    ensures ArrSum(s, Loads(t), i) == ArrSum(s, Loads(AddendOf(x, t).value.u), i)
  {
    ArrSumAppend(s, Loads(t.l), Loads(t.r), i);
    assert [Scl(x)][..0] == [];
    assert ArrSum(s, [Scl(x)], i) == 0;
  }

  /** The glue is what the term records and what is taken over from the loads. */
  lemma {:induction false} GlueSplit(g: Gen, w: World, x: nat, loads: seq<Var>, rec: Option<NExpr>)
    ensures SumD(GlueVals(g, x, loads, rec), w.n, w.d.regs) == SumD(OwnTerm(x, loads, rec), w.n, w.d.regs) + SumD(FromLoads(g, x, loads), w.n, w.d.regs)
  {
    hide RecDiffs, FromLoad;
    if |loads| > 0 {
      var front, v := loads[..|loads| - 1], loads[|loads| - 1];
      GlueSplit(g, w, x, front, rec);
      var own := if v == Scl(x) then ScaleAll(RecDiffs(rec)) else [];
      var taken := if v == Scl(x) then [] else FromLoad(g, v);
      assert GlueVals(g, x, loads, rec) == GlueVals(g, x, front, rec) + (own + taken) by { assert own + taken == if v == Scl(x) then own else taken; }
      SumAppend(GlueVals(g, x, front, rec), own + taken, w.n, w.d.regs);
      SumAppend(own, taken, w.n, w.d.regs);
      SumAppend(OwnTerm(x, front, rec), own, w.n, w.d.regs);
      SumAppend(FromLoads(g, x, front), taken, w.n, w.d.regs);
    }
  }

  lemma GlueParts(g: Gen, w: World, ph: Phase)
    requires ph.Accum? && AddendOf(ph.x, ph.t).Some?
    ensures GlueOf(g, w, ph) == SumD(TermDiffs(ph), w.n, w.d.regs) + SumD(FromLoads(g, ph.x, Loads(ph.t)), w.n, w.d.regs)
  {
    hide GlueVals, OwnTerm, FromLoads, RecDiffs, SumD, RecOf;
    assert Scl(ph.x) in Loads(ph.t) by { assert Loads(ph.t) == Loads(ph.t.l) + Loads(ph.t.r) && Loads(Load(Scl(ph.x))) == [Scl(ph.x)]; }
    assert Loads(ph.t) != [];
    GlueSplit(g, w, ph.x, Loads(ph.t), RecOf(ph.t));
  }

  // ----- phases outside loops -----

  lemma OuterGen(g: Gen, w: World, ph: Phase)
    requires ph.OuterSet? && w.n >= 2 && w.d == CodeState(g, w)
    ensures var g' := GenPhase(ph, g); var d' := NextWorld(g, w, ph).d;
            && g'.regs == g.regs && d'.regs == w.d.regs && d'.s.arr == w.d.s.arr
            && (forall y: nat :: d'.s.scl(y) == if y == ph.x && HasSize(ph.e) then w.last.scl(y) + Eval(DiffExpr(ph.e), w.n, 0) else w.d.s.scl(y))
            && (forall v :: DiffsOf(g', v) == if v == Scl(ph.x) && HasSize(ph.e) then DiffsOf(g, v) + [OfExpr(DiffExpr(ph.e))] else DiffsOf(g, v))
            && (RegsKnown(g, w) ==> RegsKnown(g', NextWorld(g, w, ph)))
  {
    hide CodeState, Record, DiffExpr, DiffsOf, AllDefined, Exec;
    var v := OfExpr(DiffExpr(ph.e));
    if HasSize(ph.e) {
      EmitRuns(g, w, Restore(ph.x, v));
      RecordIs(EmitD(g, Restore(ph.x, v)), Scl(ph.x), [v]);
      SameDiffs(g, EmitD(g, Restore(ph.x, v)));
      SameCode(EmitD(g, Restore(ph.x, v)), GenPhase(ph, g), w);
      OneDefined(v, g.regs);
      if RegsKnown(g, w) { RecordKnown(EmitD(g, Restore(ph.x, v)), Scl(ph.x), [v], g.regs); }
    }
  }

  lemma OneDefined(v: DVal, k: nat)
    requires Defined(v, k)
    ensures AllDefined([v], k)
  {
  }

  /** Setting a scalar to an expression of `N` keeps the relation and is tracked. */
  lemma OuterStep(g: Gen, w: World, ph: Phase)
    requires ph.OuterSet? && Related(g, w) && w.d == CodeState(g, w) && !HasCtr(ph.e)
    requires w.big.scl(ph.x) == w.small.scl(ph.x) && DiffsOf(g, Scl(ph.x)) == []
    ensures Related(GenPhase(ph, g), NextWorld(g, w, ph)) && Tracked(GenPhase(ph, g), NextWorld(g, w, ph), ph.x)
    ensures forall y: nat | y != ph.x :: Missing(GenPhase(ph, g), NextWorld(g, w, ph), y) == Missing(g, w, y)
  {
    hide CodeState, GenPhase, RegsKnown, DiffExpr, DiffsOf, SumD;
    OuterGen(g, w, ph);
    DiffMeans(ph.e, w.n, 0);
    NoCtr(ph.e, w.n, w.n, 0);
    NoCtr(ph.e, w.n - 1, w.n, 0);
    SumOne(OfExpr(DiffExpr(ph.e)), w.n, w.d.regs);
    if !HasSize(ph.e) { NoSize(ph.e, w.n, w.n - 1, 0); }
    assert [] + [OfExpr(DiffExpr(ph.e))] == [OfExpr(DiffExpr(ph.e))];
    NoneRecorded(w);
  }

  lemma NoneRecorded(w: World)
    ensures SumD([], w.n, w.d.regs) == 0
  {
  }

  function LastOf(ds: seq<DVal>, w: World): int { if ds == [] then 0 else EvalD(ds[|ds| - 1], w.n, w.d.regs) }

  lemma CopyGen(g: Gen, w: World, ph: Phase)
    requires ph.Copy? && w.n >= 2 && w.d == CodeState(g, w)
    ensures var g' := GenPhase(ph, g); var d' := NextWorld(g, w, ph).d; var ds := DiffsOf(g, Scl(ph.y));
            && g'.regs == g.regs && d'.regs == w.d.regs && d'.s.arr == w.d.s.arr
            && (forall y: nat :: d'.s.scl(y) == w.d.s.scl(y) + if y == ph.x then LastOf(ds, w) else 0)
            && (forall v :: DiffsOf(g', v) == if v == Scl(ph.x) && ds != [] then DiffsOf(g, v) + [ds[|ds| - 1]] else DiffsOf(g, v))
  {
    hide CodeState, Record, DiffsOf, Exec, EvalD;
    var ds := DiffsOf(g, Scl(ph.y));
    if ds != [] {
      var v := ds[|ds| - 1];
      EmitRuns(g, w, Bump(ph.x, v));
      RecordIs(EmitD(g, Bump(ph.x, v)), Scl(ph.x), [v]);
      SameDiffs(g, EmitD(g, Bump(ph.x, v)));
      SameCode(EmitD(g, Bump(ph.x, v)), GenPhase(ph, g), w);
    }
  }

  lemma CopyKnown(g: Gen, w: World, ph: Phase)
    requires ph.Copy? && w.n >= 2 && w.d == CodeState(g, w) && RegsKnown(g, w)
    ensures RegsKnown(GenPhase(ph, g), NextWorld(g, w, ph))
  {
    hide CodeState, Exec, Defined;
    CopyGen(g, w, ph);
    var ds := DiffsOf(g, Scl(ph.y));
    if ds != [] {
      OneDefined(ds[|ds| - 1], g.regs);
      RecordKnown(EmitD(g, Bump(ph.x, ds[|ds| - 1])), Scl(ph.x), [ds[|ds| - 1]], g.regs);
    }
  }

  /** EXACTLY WHEN a copy is right: only the source's last difference is taken over, so the generated code is
      right if and only if that is how far the source moved. */
  lemma CopyStep(g: Gen, w: World, ph: Phase)
    requires ph.Copy? && Related(g, w) && w.d == CodeState(g, w)
    requires w.big.scl(ph.x) == w.small.scl(ph.x) && DiffsOf(g, Scl(ph.x)) == []
    ensures var fine := LastOf(DiffsOf(g, Scl(ph.y)), w) == w.big.scl(ph.y) - w.small.scl(ph.y);
            && (Related(GenPhase(ph, g), NextWorld(g, w, ph)) <==> fine)
            && (Tracked(GenPhase(ph, g), NextWorld(g, w, ph), ph.x) <==> fine)
    ensures forall y: nat | y != ph.x :: Missing(GenPhase(ph, g), NextWorld(g, w, ph), y) == Missing(g, w, y)
  {
    hide CodeState, GenPhase, RegsKnown, DiffsOf, SumD, EvalD;
    CopyGen(g, w, ph);
    CopyKnown(g, w, ph);
    var ds := DiffsOf(g, Scl(ph.y));
    NoneRecorded(w);
    if ds != [] {
      SumOne(ds[|ds| - 1], w.n, w.d.regs);
      assert [] + [ds[|ds| - 1]] == [ds[|ds| - 1]];
    }
  }
}
