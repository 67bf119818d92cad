/** Differencing preserves meaning: the generated code turns the final state at size N-1 into the one at size N. */
module DiffProgram {
  import opened DiffSpec
  import opened DiffSound
  import opened DiffSums

  // ----- whole programs -----

  function WorldAt(ps: seq<Phase>, n: nat, j: nat, s0: State): World
    requires j <= |ps| && n >= 1
  {
    var last := Run(ps, n - 1, |ps|, s0);
    World(n, Run(ps, n - 1, j, s0), Run(ps, n, j, s0), last, ExecAll(GenUpTo(ps, j).code, n, last, DState(last, [])))
  }

  /** Scalars whose record may be short of their movement: written by a loop that does more than add arrays, unless a
      fresh reset follows. */
  predicate Loose(ps: seq<Phase>, j: nat, x: nat)
    requires j <= |ps|
  {
    j > 0 && !FreshReset(GenUpTo(ps, j - 1), ps[j - 1], x) && (LooseAccum(ps[j - 1], x) || Loose(ps, j - 1, x))
  }

  predicate LooseAccum(ph: Phase, x: nat) { ph.Accum? && ph.x == x && !AddsArrays(ph) }

  /** The scalar is set to an expression of `N`, and nothing is recorded for it yet. */
  predicate FreshReset(g: Gen, ph: Phase, x: nat) {
    ph.Accum? && ph.x == x && AsPure(ph.t).Some? && !HasCtr(AsPure(ph.t).value) && DiffsOf(g, Scl(x)) == []
  }

  lemma {:induction false} NeverLoose(ps: seq<Phase>, j: nat, x: nat)
    requires j <= |ps| && forall i | 0 <= i < j :: !LooseAccum(ps[i], x)
    ensures !Loose(ps, j, x)
  {
    hide LooseAccum, FreshReset;
    if j > 0 { NeverLoose(ps, j - 1, x); }
  }

  ghost predicate LoadsFinal(ps: seq<Phase>, j: nat, x: Option<nat>, loads: seq<Var>) {
    forall v | v in loads && v.Scl? && Some(v.id) != x :: !WrittenFrom(ps, j, v)
  }

  /** The fragment, phase by phase: array SSA, and loads of scalars no later phase writes. */
  ghost predicate StaticOk(ps: seq<Phase>, j: nat)
    requires j < |ps|
  {
    match ps[j]
    case ArrLoop(a, t) => !WrittenBefore(ps, j, Arr(a)) && LoadsFinal(ps, j, None, Loads(t))
    case Accum(x, t) => LoadsFinal(ps, j, Some(x), Loads(t))
    case OuterSet(x, e) => !WrittenBefore(ps, j, Scl(x)) && !HasCtr(e)
    case Copy(x, y) => !WrittenBefore(ps, j, Scl(x))
    case OuterCell(a, c, e) => !WrittenBefore(ps, j, Arr(a)) && !HasCtr(e)
  }

  /** Where the generated code is right: see `ArrStep`, `ScalarStep`, `CopyStep` and `CellStep`. */
  ghost predicate ValueOk(g: Gen, w: World, ph: Phase)
    requires w.n >= 1
  {
    match ph
    case ArrLoop(_, t) => ValueRecorded(g, w, t)
    case Accum(_, _) => ScalarRight(g, w, ph)
    case Copy(_, y) => LastOf(DiffsOf(g, Scl(y)), w) == w.big.scl(y) - w.small.scl(y)
    case OuterSet(_, _) => true
    case OuterCell(_, _, e) => CellFine(w, e)
  }

  ghost predicate ValuesOk(ps: seq<Phase>, n: nat, s0: State, j: nat)
    requires j <= |ps| && n >= 1
  {
    forall i | 0 <= i < j :: ValueOk(GenUpTo(ps, i), WorldAt(ps, n, i, s0), ps[i])
  }

  /** No phase reads a scalar that records less than it moves, and what is set to a value without loads stays so. */
  ghost predicate Tight(ps: seq<Phase>, j: nat)
    requires j < |ps|
  {
    match ps[j]
    case ArrLoop(_, t) => forall v | v in Loads(t) && v.Scl? :: !Loose(ps, j, v.id)
    case Accum(x, t) =>
      && (forall v | v in Loads(t) && v.Scl? && v != Scl(x) :: !Loose(ps, j, v.id))
      && (AsPure(t).Some? ==> !WrittenFrom(ps, j + 1, Scl(x)))
    case Copy(_, y) => !Loose(ps, j, y)
    case OuterSet(_, _) => true
    case OuterCell(_, _, _) => true
  }

  /** With that, a static reason for `ValueOk`: values are sums whose subtracted loads do not move and whose expressions
      are recorded, accumulations read only scalars without recorded differences or none at all, copies only ones with at
      most one, and cells stored outside loops do not depend on N. */
  ghost predicate FewDiffs(g: Gen, ph: Phase) {
    match ph
    case ArrLoop(_, t) => StaticTerm(g, t, false)
    case Accum(x, t) =>
      || AsPure(t).Some?
      || (&& AddendOf(x, t).Some? && StaticTerm(g, AddendOf(x, t).value.u, AddendOf(x, t).value.neg)
          && forall v | v in Loads(AddendOf(x, t).value.u) && v.Scl? :: DiffsOf(g, v) == [])
    case Copy(_, y) => |DiffsOf(g, Scl(y))| <= 1
    case OuterSet(_, _) => true
    case OuterCell(_, _, e) => !HasSize(e)
  }

  ghost predicate ReadsTracked(g: Gen, w: World, ph: Phase) {
    match ph
    case ArrLoop(_, t) => forall v | v in Loads(t) && v.Scl? :: Tracked(g, w, v.id)
    case Accum(x, t) => forall v | v in Loads(t) && v.Scl? && v != Scl(x) :: Tracked(g, w, v.id)
    case Copy(_, y) => Tracked(g, w, y)
    case OuterSet(_, _) => true
    case OuterCell(_, _, _) => true
  }

  /** The final state at size N-1 has the value the scalar is set to. */
  predicate ResetStays(w: World, ph: Phase)
    requires ph.Accum? && AsPure(ph.t).Some?
  {
    w.last.scl(ph.x) == Eval(AsPure(ph.t).value, w.n - 1, w.n - 2)
  }

  lemma ResetFinal(ps: seq<Phase>, n: nat, s0: State, j: nat)
    requires j < |ps| && n >= 2 && ps[j].Accum? && AsPure(ps[j].t).Some? && !WrittenFrom(ps, j + 1, Scl(ps[j].x))
    ensures ResetStays(WorldAt(ps, n, j, s0), ps[j])
  {
    hide AsPure, Eval, GenUpTo, ExecAll, WrittenFrom, TVal;
    var s, ph := Run(ps, n - 1, j, s0), ps[j];
    ScalarFinal(ps, n - 1, j + 1, |ps|, s0, ph.x);
    assert Run(ps, n - 1, j + 1, s0) == Exec(ph, n - 1, s);
    AccumAt(ph, n - 1, n - 1, s);
    PureMeans(SetScl(s, ph.x, Fold(s, ph.x, ph.t, n - 1, n - 2)), ph.t, n - 1, n - 2);
  }

  lemma FewDiffsAreOk(g: Gen, w: World, ph: Phase)
    requires FewDiffs(g, ph) && ReadsTracked(g, w, ph) && Related(g, w) && w.d == CodeState(g, w)
    requires ph.Accum? ==> Settled(w, Some(ph.x), Loads(ph.t)) && (AsPure(ph.t).Some? ==> ResetStays(w, ph))
    ensures ValueOk(g, w, ph)
  {
    hide AsPure, DiffsOf, CodeState, Related, StaticTerm, ValueRecorded, Missed, Missing, Settled, ScalarRight;
    RelatedKnown(g, w);
    match ph
    case ArrLoop(_, t) => StaticRecorded(g, w, t);
    case Accum(x, t) =>
      if AsPure(t).Some? {
        ResetMissing(g, w, ph);
      } else {
        AddendReads(x, t);
        StaticMissed(g, w, ph);
        AccumStep(g, w, ph);
      }
    case Copy(_, y) =>
      CopyFew(w, DiffsOf(g, Scl(y)));
      MissingIs(g, w, y);
    case OuterSet(_, _) =>
    case OuterCell(_, _, e) => NoSize(e, w.n, w.n - 1, 0);
  }

  lemma MissingIs(g: Gen, w: World, y: nat)
    ensures Missing(g, w, y) == w.big.scl(y) - w.small.scl(y) - SumD(DiffsOf(g, Scl(y)), w.n, w.d.regs)
  {
  }

  lemma CopyFew(w: World, ds: seq<DVal>)
    requires |ds| <= 1
    ensures LastOf(ds, w) == SumD(ds, w.n, w.d.regs)
  {
    if ds != [] {
      assert ds == [ds[0]];
      SumOne(ds[0], w.n, w.d.regs);
    }
  }

  lemma AddendReads(x: nat, t: Term)
    requires AddendOf(x, t).Some?
    ensures forall v | v in Loads(AddendOf(x, t).value.u) :: v in Loads(t) && v != Scl(x)
  {
  }

  lemma {:induction false} Untouched(ps: seq<Phase>, n: nat, j: nat, s0: State, v: Var)
    requires j <= |ps| && !WrittenBefore(ps, j, v)
    ensures v.Scl? ==> Run(ps, n, j, s0).scl(v.id) == s0.scl(v.id)
    ensures DiffsOf(GenUpTo(ps, j), v) == []
  {
    hide Exec, GenPhase;
    if j > 0 {
      assert forall i | 0 <= i < j - 1 :: Target(ps[i]) != v;
      assert Target(ps[j - 1]) != v;
      Untouched(ps, n, j - 1, s0, v);
      ExecFrame(ps[j - 1], n, Run(ps, n, j - 1, s0));
      GenFrame(ps[j - 1], GenUpTo(ps, j - 1), v);
    }
  }

  lemma GenFrame(ph: Phase, g: Gen, v: Var)
    requires Target(ph) != v
    ensures DiffsOf(GenPhase(ph, g), v) == DiffsOf(g, v)
  {
    hide OwnDiffs, CellDiffs, RecDiffs, FromLoads, CountArr, Loads, RecOf, GlueVals, TermDiffs;
  }

  lemma NextWorldIs(ps: seq<Phase>, n: nat, j: nat, s0: State)
    requires j < |ps| && n >= 1
    ensures NextWorld(GenUpTo(ps, j), WorldAt(ps, n, j, s0), ps[j]) == WorldAt(ps, n, j + 1, s0)
    ensures WorldAt(ps, n, j, s0).d == CodeState(GenUpTo(ps, j), WorldAt(ps, n, j, s0))
    ensures GenUpTo(ps, j + 1) == GenPhase(ps[j], GenUpTo(ps, j))
  {
    hide Exec, GenPhase, ExecAll;
  }

  lemma StartRelated(ps: seq<Phase>, n: nat, s0: State)
    requires n >= 2 && InBounds(ps, n - 1)
    ensures Related(START, WorldAt(ps, n, 0, s0)) && forall x: nat :: Tracked(START, WorldAt(ps, n, 0, s0), x)
  {
    forall a: nat, k: int | k >= n - 1 ensures Run(ps, n - 1, |ps|, s0).arr(a, k) == s0.arr(a, k) {
      RunOutside(ps, n - 1, |ps|, s0, a, k);
    }
  }

  /** What the induction over the phases keeps. */
  ghost predicate Kept(ps: seq<Phase>, n: nat, s0: State, j: nat)
    requires j <= |ps| && n >= 1
  {
    Related(GenUpTo(ps, j), WorldAt(ps, n, j, s0))
  }

  /** And, as long as no phase reads a loose scalar: all others are tracked. */
  ghost predicate KeptTight(ps: seq<Phase>, n: nat, s0: State, j: nat)
    requires j <= |ps| && n >= 1
  {
    Kept(ps, n, s0, j) && forall x: nat | !Loose(ps, j, x) :: Tracked(GenUpTo(ps, j), WorldAt(ps, n, j, s0), x)
  }

  lemma LoadsSettled(ps: seq<Phase>, n: nat, s0: State, j: nat, x: Option<nat>, loads: seq<Var>)
    requires j <= |ps| && n >= 1 && LoadsFinal(ps, j, x, loads)
    ensures Settled(WorldAt(ps, n, j, s0), x, loads)
  {
    hide GenUpTo, Run, ExecAll, WrittenFrom;
    forall v | v in loads && v.Scl? && Some(v.id) != x ensures WorldAt(ps, n, j, s0).last.scl(v.id) == WorldAt(ps, n, j, s0).small.scl(v.id) {
      ScalarFinal(ps, n - 1, j, |ps|, s0, v.id);
    }
  }

  /** What the phase lemmas ask for. */
  lemma PhaseReady(ps: seq<Phase>, n: nat, s0: State, j: nat)
    requires j < |ps| && n >= 2 && StaticOk(ps, j) && InBounds(ps, n - 1)
    ensures var g, w, ph := GenUpTo(ps, j), WorldAt(ps, n, j, s0), ps[j];
            && w.n == n && w.d == CodeState(g, w)
            && (ph.ArrLoop? ==> DiffsOf(g, Arr(ph.a)) == [] && Settled(w, None, Loads(ph.t)))
            && (ph.Accum? ==> Settled(w, Some(ph.x), Loads(ph.t)))
            && (ph.OuterSet? || ph.Copy? ==> w.big.scl(ph.x) == w.small.scl(ph.x) && DiffsOf(g, Scl(ph.x)) == [])
            && (ph.OuterCell? ==> DiffsOf(g, Arr(ph.a)) == [] && 0 <= ph.c < n - 1)
  {
    hide GenUpTo, WrittenBefore, Settled, CodeState, DiffsOf, WorldAt, LoadsFinal;
    NextWorldIs(ps, n, j, s0);
    WorldBasics(ps, n, s0, j);
    match ps[j]
    case ArrLoop(a, t) =>
      LoadsSettled(ps, n, s0, j, None, Loads(t));
      Untouched(ps, n, j, s0, Arr(a));
    case Accum(x, t) => LoadsSettled(ps, n, s0, j, Some(x), Loads(t));
    case OuterSet(x, _) => UntouchedBoth(ps, n, j, s0, x);
    case Copy(x, _) => UntouchedBoth(ps, n, j, s0, x);
    case OuterCell(a, _, _) => Untouched(ps, n, j, s0, Arr(a));
  }

  /** One phase keeps the relation exactly when its values allow it; other scalars miss what they did. */
  lemma PhaseStep(g: Gen, w: World, ph: Phase)
    requires Related(g, w) && w.d == CodeState(g, w)
    requires ph.ArrLoop? ==> DiffsOf(g, Arr(ph.a)) == [] && Settled(w, None, Loads(ph.t))
    requires ph.Accum? ==> Settled(w, Some(ph.x), Loads(ph.t))
    requires ph.OuterSet? || ph.Copy? ==> w.big.scl(ph.x) == w.small.scl(ph.x) && DiffsOf(g, Scl(ph.x)) == []
    requires ph.OuterCell? ==> DiffsOf(g, Arr(ph.a)) == [] && 0 <= ph.c < w.n - 1
    requires ph.OuterSet? || ph.OuterCell? ==> !HasCtr(ph.e)
    ensures w.n >= 2 && (Related(GenPhase(ph, g), NextWorld(g, w, ph)) <==> ValueOk(g, w, ph))
    ensures forall y: nat | Scl(y) != Target(ph) :: Missing(GenPhase(ph, g), NextWorld(g, w, ph), y) == Missing(g, w, y)
    ensures (ph.OuterSet? || ph.Copy?) && ValueOk(g, w, ph) ==> Tracked(GenPhase(ph, g), NextWorld(g, w, ph), ph.x)
    ensures ph.Accum? && AddsArrays(ph) && ValueOk(g, w, ph) && Tracked(g, w, ph.x) ==> Tracked(GenPhase(ph, g), NextWorld(g, w, ph), ph.x)
    ensures ph.Accum? && FreshReset(g, ph, ph.x) ==> Tracked(GenPhase(ph, g), NextWorld(g, w, ph), ph.x)
  {
    hide AsPure, HasCtr, Related, Missing, Settled, GenPhase, NextWorld, CodeState, LastOf, Missed, ValueRecorded, ScalarRight, CellFine, DiffsOf;
    RelatedKnown(g, w);
    match ph
    case ArrLoop(_, _) => ArrStep(g, w, ph);
    case Accum(_, _) =>
      ScalarStep(g, w, ph);
      if AddsArrays(ph) && ValueOk(g, w, ph) && Tracked(g, w, ph.x) {
        AccumStep(g, w, ph);
        AccumTracked(g, w, ph);
      }
      if FreshReset(g, ph, ph.x) {
        ResetMissing(g, w, ph);
        NoneRecorded(w);
      }
    case OuterSet(_, _) => OuterStep(g, w, ph);
    case Copy(_, _) => CopyStep(g, w, ph);
    case OuterCell(_, _, _) => CellStep(g, w, ph);
  }

  lemma PhaseKeeps(ps: seq<Phase>, n: nat, s0: State, j: nat)
    requires j < |ps| && n >= 2 && Kept(ps, n, s0, j) && StaticOk(ps, j) && InBounds(ps, n - 1)
    ensures Kept(ps, n, s0, j + 1) <==> ValueOk(GenUpTo(ps, j), WorldAt(ps, n, j, s0), ps[j])
  {
    hide Related, GenUpTo, Settled, GenPhase, NextWorld, CodeState, WorldAt, ValueOk, DiffsOf, WrittenBefore, LoadsFinal;
    NextWorldIs(ps, n, j, s0);
    PhaseReady(ps, n, s0, j);
    PhaseStep(GenUpTo(ps, j), WorldAt(ps, n, j, s0), ps[j]);
  }

  lemma LooseNext(ps: seq<Phase>, j: nat, x: nat)
    requires j < |ps|
    ensures Loose(ps, j + 1, x) <==> !FreshReset(GenUpTo(ps, j), ps[j], x) && (LooseAccum(ps[j], x) || Loose(ps, j, x))
  {
    hide FreshReset, LooseAccum;
  }

  /** A phase that reads no loose scalar. */
  lemma TightKeeps(ps: seq<Phase>, n: nat, s0: State, j: nat)
    requires j < |ps| && n >= 2 && KeptTight(ps, n, s0, j) && StaticOk(ps, j) && Tight(ps, j) && FewDiffs(GenUpTo(ps, j), ps[j]) && InBounds(ps, n - 1)
    ensures ValueOk(GenUpTo(ps, j), WorldAt(ps, n, j, s0), ps[j]) && KeptTight(ps, n, s0, j + 1)
  {
    hide AsPure, HasCtr, Loose, Related, Missing, GenUpTo, WorldAt, Settled, ResetStays, Loads, WrittenFrom, GenPhase, NextWorld, CodeState, ValueOk, DiffsOf, FewDiffs, WrittenBefore, LoadsFinal, AddsArrays;
    var g, w, ph := GenUpTo(ps, j), WorldAt(ps, n, j, s0), ps[j];
    NextWorldIs(ps, n, j, s0);
    PhaseReady(ps, n, s0, j);
    assert ReadsTracked(g, w, ph);
    if ph.Accum? && AsPure(ph.t).Some? { ResetFinal(ps, n, s0, j); }
    FewDiffsAreOk(g, w, ph);
    PhaseStep(g, w, ph);
    var g', w' := GenUpTo(ps, j + 1), WorldAt(ps, n, j + 1, s0);
    forall x: nat | !Loose(ps, j + 1, x) ensures Tracked(g', w', x) {
      LooseNext(ps, j, x);
      if Scl(x) == Target(ph) { assert ph.OuterSet? || ph.Copy? || ph.Accum?; }
    }
  }

  lemma {:induction false} AllKeptTight(ps: seq<Phase>, n: nat, s0: State, j: nat)
    requires j <= |ps| && n >= 2 && InBounds(ps, n - 1)
    requires forall i | 0 <= i < j :: StaticOk(ps, i) && Tight(ps, i) && FewDiffs(GenUpTo(ps, i), ps[i])
    ensures KeptTight(ps, n, s0, j) && ValuesOk(ps, n, s0, j)
  {
    hide StaticOk, ValueOk, Related, Tracked, Tight, FewDiffs, WorldAt, GenUpTo;
    if j == 0 {
      assert GenUpTo(ps, 0) == START by { NothingYet(ps); }
      StartRelated(ps, n, s0);
    } else {
      AllKeptTight(ps, n, s0, j - 1);
      TightKeeps(ps, n, s0, j - 1);
    }
  }

  lemma NothingYet(ps: seq<Phase>)
    ensures GenUpTo(ps, 0) == START
  {
  }

  lemma UntouchedBoth(ps: seq<Phase>, n: nat, j: nat, s0: State, x: nat)
    requires j <= |ps| && n >= 2 && !WrittenBefore(ps, j, Scl(x))
    ensures var w := WorldAt(ps, n, j, s0); w.big.scl(x) == w.small.scl(x) && DiffsOf(GenUpTo(ps, j), Scl(x)) == []
  {
    hide GenUpTo, Run, ExecAll, WrittenBefore;
    Untouched(ps, n, j, s0, Scl(x));
    Untouched(ps, n - 1, j, s0, Scl(x));
  }

  lemma WorldBasics(ps: seq<Phase>, n: nat, s0: State, j: nat)
    requires j <= |ps| && n >= 1
    ensures WorldAt(ps, n, j, s0).n == n
  {
  }

  lemma {:induction false} AllKept(ps: seq<Phase>, n: nat, s0: State, j: nat)
    requires j <= |ps| && n >= 2 && InBounds(ps, n - 1) && (forall i | 0 <= i < j :: StaticOk(ps, i)) && ValuesOk(ps, n, s0, j)
    ensures Kept(ps, n, s0, j)
  {
    hide StaticOk, ValueOk, Related, InBounds, WorldAt, GenUpTo;
    if j == 0 {
      assert GenUpTo(ps, 0) == START by { NothingYet(ps); }
      StartRelated(ps, n, s0);
    } else {
      AllKept(ps, n, s0, j - 1);
      PhaseKeeps(ps, n, s0, j - 1);
    }
  }

  /** The generated code, run on the final state at size N-1. */
  function Differenced(ps: seq<Phase>, n: nat, s0: State): State
    requires n >= 1
  {
    WorldAt(ps, n, |ps|, s0).d.s
  }

  /** DIFFERENCING IS CORRECT: after the generated code every scalar has its value at size N, every array its
      cell N-1, and the other cells differ from size N-1 by the recorded differences. */
  lemma DifferencingCorrect(ps: seq<Phase>, n: nat, s0: State)
    requires n >= 2 && InBounds(ps, n - 1) && (forall i | 0 <= i < |ps| :: StaticOk(ps, i)) && ValuesOk(ps, n, s0, |ps|)
    ensures forall x: nat :: Differenced(ps, n, s0).scl(x) == Run(ps, n, |ps|, s0).scl(x)
    ensures forall a: nat, k: int :: Differenced(ps, n, s0).arr(a, k) == Run(ps, if k == n - 1 then n else n - 1, |ps|, s0).arr(a, k)
    ensures forall a: nat, k: int | 0 <= k < n - 1 ::
              Run(ps, n, |ps|, s0).arr(a, k) == Run(ps, n - 1, |ps|, s0).arr(a, k) + SumOf(GenUpTo(ps, |ps|), Arr(a), WorldAt(ps, n, |ps|, s0))
  {
    hide StaticOk, ValueOk, GenUpTo, Run, ExecAll, RegsKnown, SumOf;
    AllKept(ps, n, s0, |ps|);
  }

  // ----- the condition is exact -----

  lemma DFrame(c: DStmt, n: nat, last: State, d: DState, x: nat)
    requires n >= 1
    requires match c case Glue(y, _) => y != x case Restore(y, _) => y != x case Bump(y, _) => y != x case Peel(ph) => Target(ph) != Scl(x) case GlueCell(_, _) => true
    ensures ExecD(c, n, last, d).s.scl(x) == d.s.scl(x)
  {
    hide SumD, TVal, EvalD;
  }

  /** A phase with another target generates no code that touches the scalar. */
  lemma GenScalarFrame(g: Gen, w: World, ph: Phase, x: nat)
    requires w.n >= 1 && Target(ph) != Scl(x)
    ensures CodeState(GenPhase(ph, g), w).s.scl(x) == CodeState(g, w).s.scl(x)
  {
    hide CodeState, ExecD, Record, DiffsOf, RecDiffs, FromLoads, OwnDiffs, CellDiffs, CountArr, Loads, RecOf, TermDiffs, GlueVals;
    var d := CodeState(g, w);
    match ph
    case ArrLoop(a, t) =>
      var own := OwnDiffs(g, a, Loads(t));
      var g1 := EmitD(g, Peel(ph));
      var g2 := if own == [] then g1 else EmitD(g1, GlueCell(a, own));
      EmitRuns(g, w, Peel(ph));
      DFrame(Peel(ph), w.n, w.last, d, x);
      EmitRuns(g1, w, GlueCell(a, own));
      DFrame(GlueCell(a, own), w.n, w.last, CodeState(g1, w), x);
      RecordTwice(g2, Arr(a), RecDiffs(RecOf(t)), CellDiffs(g, a, Loads(t)));
      SameCode(g2, GenPhase(ph, g), w);
    case Accum(y, t) =>
      var glue := Glued(g, ph);
      var g1 := if glue == [] then g else EmitD(g, Glue(y, glue));
      var g2 := EmitD(g1, Peel(ph)).(regs := g.regs + CountArr(Loads(t)));
      EmitRuns(g, w, Glue(y, glue));
      DFrame(Glue(y, glue), w.n, w.last, d, x);
      EmitRuns(g1, w, Peel(ph));
      DFrame(Peel(ph), w.n, w.last, CodeState(g1, w), x);
      SameCode(EmitD(g1, Peel(ph)), g2, w);
      RecordThrice(g2, Scl(y), TermDiffs(ph), FromLoads(g, y, Loads(t)), RegList(g.regs, CountArr(Loads(t))));
      SameCode(g2, GenPhase(ph, g), w);
    case OuterSet(y, e) =>
      var v := OfExpr(DiffExpr(e));
      EmitRuns(g, w, Restore(y, v));
      DFrame(Restore(y, v), w.n, w.last, d, x);
      RecordIs(EmitD(g, Restore(y, v)), Scl(y), [v]);
      if HasSize(e) { SameCode(EmitD(g, Restore(y, v)), GenPhase(ph, g), w); }
    case Copy(y, z) =>
      var ds := DiffsOf(g, Scl(z));
      if ds != [] {
        var v := ds[|ds| - 1];
        EmitRuns(g, w, Bump(y, v));
        DFrame(Bump(y, v), w.n, w.last, d, x);
        RecordIs(EmitD(g, Bump(y, v)), Scl(y), [v]);
        SameCode(EmitD(g, Bump(y, v)), GenPhase(ph, g), w);
      }
    case OuterCell(a, _, e) =>
      RecordIs(g, Arr(a), [OfExpr(DiffExpr(e))]);
      SameCode(g, GenPhase(ph, g), w);
  }

  lemma {:induction false} CodeScalarFinal(ps: seq<Phase>, n: nat, s0: State, j: nat, m: nat, x: nat)
    requires j <= m <= |ps| && n >= 1 && !WrittenFrom(ps, j, Scl(x))
    ensures WorldAt(ps, n, m, s0).d.s.scl(x) == WorldAt(ps, n, j, s0).d.s.scl(x)
    decreases m
  {
    hide WorldAt, GenUpTo, GenPhase, CodeState, NextWorld;
    if j < m {
      CodeScalarFinal(ps, n, s0, j, m - 1, x);
      assert Target(ps[m - 1]) != Scl(x);
      NextWorldIs(ps, n, m - 1, s0);
      WorldBasics(ps, n, s0, m - 1);
      GenScalarFrame(GenUpTo(ps, m - 1), WorldAt(ps, n, m - 1, s0), ps[m - 1], x);
      NextWorldCode(GenUpTo(ps, m - 1), WorldAt(ps, n, m - 1, s0), ps[m - 1]);
    }
  }

  lemma NextWorldCode(g: Gen, w: World, ph: Phase)
    requires w.n >= 1
    ensures NextWorld(g, w, ph).d == CodeState(GenPhase(ph, g), w)
  {
  }

  /** A phase whose values do not allow it puts its own target wrong, and nothing else. */
  lemma BadTarget(g: Gen, w: World, ph: Phase)
    requires Related(g, w) && w.d == CodeState(g, w) && (ph.Accum? || ph.Copy?)
    requires ph.Accum? ==> Settled(w, Some(ph.x), Loads(ph.t))
    requires ph.Copy? ==> w.big.scl(ph.x) == w.small.scl(ph.x) && DiffsOf(g, Scl(ph.x)) == []
    ensures var w' := NextWorld(g, w, ph); w'.d.s.scl(ph.x) == w'.last.scl(ph.x) + w'.big.scl(ph.x) - w'.small.scl(ph.x) <==> ValueOk(g, w, ph)
  {
    hide Settled, GlueOf, Fold, TVal, CodeState, GenPhase, RegsKnown, CellsMoved, CellsRelated, DiffsOf, EvalD, Loads;
    if ph.Accum? { AccumValues(g, w, ph); } else { CopyGen(g, w, ph); }
  }

  lemma TargetAfter(ps: seq<Phase>, n: nat, s0: State, j: nat)
    requires n >= 2 && j < |ps| && InBounds(ps, n - 1) && (forall i | 0 <= i <= j :: StaticOk(ps, i)) && ValuesOk(ps, n, s0, j) && (ps[j].Accum? || ps[j].Copy?)
    ensures var w', x := WorldAt(ps, n, j + 1, s0), ps[j].x;
            w'.d.s.scl(x) == w'.last.scl(x) + w'.big.scl(x) - w'.small.scl(x) <==> ValueOk(GenUpTo(ps, j), WorldAt(ps, n, j, s0), ps[j])
  {
    hide ValueOk, StaticOk, Related, GenUpTo, Settled, CodeState, DiffsOf, NextWorld, WorldAt;
    AllKept(ps, n, s0, j);
    assert StaticOk(ps, j);
    PhaseReady(ps, n, s0, j);
    BadTarget(GenUpTo(ps, j), WorldAt(ps, n, j, s0), ps[j]);
    NextWorldIs(ps, n, j, s0);
  }

  lemma WorldParts(ps: seq<Phase>, n: nat, j: nat, s0: State)
    requires j <= |ps| && n >= 1
    ensures var w := WorldAt(ps, n, j, s0);
            w.small == Run(ps, n - 1, j, s0) && w.big == Run(ps, n, j, s0) && w.last == Run(ps, n - 1, |ps|, s0)
    ensures WorldAt(ps, n, |ps|, s0).d.s == Differenced(ps, n, s0)
  {
    hide Run, GenUpTo, ExecAll;
  }

  /** DIFFERENCING IS EXACT: when the first doubtful phase has values that do not allow it, and no later phase
      writes its target, that scalar really ends up wrong. */
  lemma DifferencingExact(ps: seq<Phase>, n: nat, s0: State, j: nat)
    requires n >= 2 && j < |ps| && InBounds(ps, n - 1) && (forall i | 0 <= i <= j :: StaticOk(ps, i)) && ValuesOk(ps, n, s0, j)
    requires (ps[j].Accum? || ps[j].Copy?) && !WrittenFrom(ps, j + 1, Scl(ps[j].x))
    ensures Differenced(ps, n, s0).scl(ps[j].x) == Run(ps, n, |ps|, s0).scl(ps[j].x) <==>
            ValueOk(GenUpTo(ps, j), WorldAt(ps, n, j, s0), ps[j])
  {
    hide ValueOk, StaticOk, GenUpTo, WorldAt, Run, WrittenFrom, Differenced, ValuesOk;
    var x := ps[j].x;
    TargetAfter(ps, n, s0, j);
    WorldParts(ps, n, j + 1, s0);
    CodeScalarFinal(ps, n, s0, j + 1, |ps|, x);
    ScalarFinal(ps, n, j + 1, |ps|, s0, x);
    ScalarFinal(ps, n - 1, j + 1, |ps|, s0, x);
  }

  // ----- and so is the record of an array -----

  lemma {:induction false} ArrayFinal(ps: seq<Phase>, n: nat, j: nat, m: nat, s: State, a: nat)
    requires j <= m <= |ps| && !WrittenFrom(ps, j, Arr(a))
    ensures forall k: int :: Run(ps, n, m, s).arr(a, k) == Run(ps, n, j, s).arr(a, k)
    decreases m
  {
    hide Exec;
    if j < m {
      ArrayFinal(ps, n, j, m - 1, s, a);
      ExecFrame(ps[m - 1], n, Run(ps, n, m - 1, s));
      assert Target(ps[m - 1]) != Arr(a);
    }
  }

  lemma {:induction false} RegsGrow(code: seq<DStmt>, more: seq<DStmt>, n: nat, last: State, d: DState)
    requires n >= 1
    ensures ExecAll(code, n, last, d).regs <= ExecAll(code + more, n, last, d).regs
  {
    if |more| == 0 {
      assert code + more == code;
    } else {
      assert (code + more)[..|code + more| - 1] == code + more[..|more| - 1];
      RegsGrow(code, more[..|more| - 1], n, last, d);
    }
  }

  lemma CodeGrows(ph: Phase, g: Gen)
    ensures g.code <= GenPhase(ph, g).code
  {
    hide DiffsOf, RecDiffs, FromLoads, OwnDiffs, CellDiffs, CountArr, Loads, RecOf, GlueVals, TermDiffs;
  }

  /** What is recorded for an array stays recorded, and keeps its value. */
  lemma {:induction false} RecordFinal(ps: seq<Phase>, j: nat, m: nat, v: Var)
    requires j <= m <= |ps| && !WrittenFrom(ps, j, v)
    ensures DiffsOf(GenUpTo(ps, m), v) == DiffsOf(GenUpTo(ps, j), v) && GenUpTo(ps, j).code <= GenUpTo(ps, m).code
    decreases m
  {
    hide GenPhase, DiffsOf;
    if j < m {
      RecordFinal(ps, j, m - 1, v);
      assert Target(ps[m - 1]) != v;
      GenFrame(ps[m - 1], GenUpTo(ps, m - 1), v);
      CodeGrows(ps[m - 1], GenUpTo(ps, m - 1));
    }
  }

  lemma SumFinal(ps: seq<Phase>, n: nat, s0: State, j: nat, v: Var)
    requires j <= |ps| && n >= 1 && !WrittenFrom(ps, j, v) && RegsKnown(GenUpTo(ps, j), WorldAt(ps, n, j, s0))
    ensures SumOf(GenUpTo(ps, |ps|), v, WorldAt(ps, n, |ps|, s0)) == SumOf(GenUpTo(ps, j), v, WorldAt(ps, n, j, s0))
  {
    hide SumD, GenUpTo, Run, ExecAll, WrittenFrom;
    RecordFinal(ps, j, |ps|, v);
    var code, all := GenUpTo(ps, j).code, GenUpTo(ps, |ps|).code;
    var last := Run(ps, n - 1, |ps|, s0);
    RegsGrow(code, all[|code|..], n, last, DState(last, []));
    assert code + all[|code|..] == all;
    var regs, more := WorldAt(ps, n, j, s0).d.regs, WorldAt(ps, n, |ps|, s0).d.regs[|WorldAt(ps, n, j, s0).d.regs|..];
    assert WorldAt(ps, n, |ps|, s0).d.regs == regs + more;
    assert AllDefined([], |regs|) by { NothingDefined(|regs|); }
    SumStays(DiffsOf(GenUpTo(ps, j), v), n, regs, more);
  }

  /** Below N-1 the cells of `a` differ between the sizes by `sum`. */
  ghost predicate CellsApart(big: State, small: State, a: nat, n: nat, sum: int) {
    forall k: int | 0 <= k < n - 1 :: big.arr(a, k) == small.arr(a, k) + sum
  }

  lemma CellsApartIs(g: Gen, w: World, a: nat)
    requires w.n >= 0
    ensures CellsApart(w.big, w.small, a, w.n, SumOf(g, Arr(a), w)) <==> CellsOf(g, w, a)
  {
    hide SumOf;
    if CellsOf(g, w, a) {
      forall k: int | 0 <= k < w.n - 1 ensures w.big.arr(a, k) == w.small.arr(a, k) + SumOf(g, Arr(a), w) { assert CellMissing(g, w, a, k) == 0; }
    } else {
      var k: int :| 0 <= k < w.n - 1 && CellMissing(g, w, a, k) != 0;
      assert w.big.arr(a, k) != w.small.arr(a, k) + SumOf(g, Arr(a), w);
    }
  }

  lemma CellsApartSame(big: State, small: State, big': State, small': State, a: nat, n: nat, sum: int)
    requires forall k: int :: big.arr(a, k) == big'.arr(a, k) && small.arr(a, k) == small'.arr(a, k)
    ensures CellsApart(big, small, a, n, sum) <==> CellsApart(big', small', a, n, sum)
  {
  }

  /** THE RECORD IS EXACT: when the first doubtful phase writes an array that no later phase overwrites, the array's
      cells below N-1 move by its recorded differences if and only if the phase's values allow it. */
  lemma RecordExact(ps: seq<Phase>, n: nat, s0: State, j: nat)
    requires n >= 2 && j < |ps| && InBounds(ps, n - 1) && (forall i | 0 <= i <= j :: StaticOk(ps, i)) && ValuesOk(ps, n, s0, j)
    requires (ps[j].ArrLoop? || ps[j].OuterCell?) && !WrittenFrom(ps, j + 1, Arr(ps[j].a))
    ensures CellsApart(Run(ps, n, |ps|, s0), Run(ps, n - 1, |ps|, s0), ps[j].a, n, SumOf(GenUpTo(ps, |ps|), Arr(ps[j].a), WorldAt(ps, n, |ps|, s0)))
            <==> ValueOk(GenUpTo(ps, j), WorldAt(ps, n, j, s0), ps[j])
  {
    hide GenUpTo, WorldAt, Run, WrittenFrom, WrittenBefore, ValuesOk, Related, Settled, LoadsFinal, GenPhase, NextWorld, CodeState, SumOf, RegsKnown, CellsOf, ValueRecorded, Missing, CellsApart, DiffsOf;
    var g, w, a := GenUpTo(ps, j), WorldAt(ps, n, j, s0), ps[j].a;
    AllKept(ps, n, s0, j);
    assert StaticOk(ps, j);
    PhaseReady(ps, n, s0, j);
    NextWorldIs(ps, n, j, s0);
    if ps[j].ArrLoop? { ArrStep(g, w, ps[j]); } else { CellStep(g, w, ps[j]); }
    var g', w' := GenUpTo(ps, j + 1), WorldAt(ps, n, j + 1, s0);
    WorldBasics(ps, n, s0, j + 1);
    WorldParts(ps, n, j + 1, s0);
    CellsApartIs(g', w', a);
    SumFinal(ps, n, s0, j + 1, Arr(a));
    ArrayFinal(ps, n, j + 1, |ps|, s0, a);
    ArrayFinal(ps, n - 1, j + 1, |ps|, s0, a);
    CellsApartSame(w'.big, w'.small, Run(ps, n, |ps|, s0), Run(ps, n - 1, |ps|, s0), a, n, SumOf(g', Arr(a), w'));
  }

  /** The fragment a reader can check on the program alone: correct at every size from 2 on. */
  lemma StaticallyCorrect(ps: seq<Phase>, n: nat, s0: State)
    requires n >= 2 && InBounds(ps, n - 1) && (forall i | 0 <= i < |ps| :: StaticOk(ps, i) && Tight(ps, i) && FewDiffs(GenUpTo(ps, i), ps[i]))
    ensures forall x: nat :: Differenced(ps, n, s0).scl(x) == Run(ps, n, |ps|, s0).scl(x)
    ensures forall a: nat, k: int :: Differenced(ps, n, s0).arr(a, k) == Run(ps, if k == n - 1 then n else n - 1, |ps|, s0).arr(a, k)
  {
    hide StaticOk, Tight, FewDiffs, ValueOk, Differenced, Run, WorldAt, GenUpTo, KeptTight;
    AllKeptTight(ps, n, s0, |ps|);
    DifferencingCorrect(ps, n, s0);
  }
}
