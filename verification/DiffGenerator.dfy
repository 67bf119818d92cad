/** The differencing pass as it runs: one object that walks the phases, emits code and fills `diff_val_map`. */
module DiffGenerator {
  import opened DiffSpec
  import opened DiffSound
  import opened DiffProgram

  class DiffPreds {
    var diffs: map<Var, seq<DVal>>
    var code: seq<DStmt>
    var regs: nat

    ghost function Abs(): Gen
      reads this
    {
      Gen(diffs, code, regs)
    }

    constructor ()
      ensures Abs() == START
    {
      diffs, code, regs := map[], [], 0;
    }

    /** `add_diff_val`. */
    method AddDiffVal(v: Var, d: DVal)
      modifies this`diffs
      ensures Abs() == Record(old(Abs()), v, [d])
    {
      diffs := diffs[v := (if v in diffs then diffs[v] else []) + [d]];
    }

    method AddDiffVals(v: Var, ds: seq<DVal>)
      modifies this`diffs
      ensures Abs() == Record(old(Abs()), v, ds)
    {
      hide Record;
      NoRecord(Abs(), v);
      ghost var g := Abs();
      for i := 0 to |ds|
        invariant Abs() == Record(g, v, ds[..i])
      {
        AddDiffVal(v, ds[i]);
        RecordMore(g, v, ds[..i], ds[i]);
        assert ds[..i + 1] == ds[..i] + [ds[i]];
      }
      assert ds[..|ds|] == ds;
    }

    /** The array's own differences and the ones it takes over, load by load. */
    method CollectForArray(a: nat, loads: seq<Var>) returns (own: seq<DVal>, taken: seq<DVal>)
      ensures own == OwnDiffs(Abs(), a, loads) && taken == CellDiffs(Abs(), a, loads)
    {
      own, taken := [], [];
      for i := 0 to |loads|
        invariant own == OwnDiffs(Abs(), a, loads[..i]) && taken == CellDiffs(Abs(), a, loads[..i])
      {
        var ds := if loads[i] in diffs then diffs[loads[i]] else [];
        ghost var own0, taken0 := own, taken;
        for j := 0 to |ds|
          invariant own == own0 + (if loads[i] == Arr(a) then ds[..j] else [])
          invariant taken == taken0 + (if loads[i] == Arr(a) then [] else ds[..j])
        {
          if loads[i] == Arr(a) { own := own + [ds[j]]; } else { taken := taken + [ds[j]]; }
        }
        assert loads[..i + 1][..i] == loads[..i];
      }
      assert loads[..|loads|] == loads;
    }

    /** Load by load, what is added in front of the peeled iteration: for a load of the scalar itself its own term's
        difference times `N-1`, for another array its differences times `N-1`, for another scalar its differences. */
    method CollectForScalar(x: nat, loads: seq<Var>, rec: Option<NExpr>) returns (glue: seq<DVal>, own: seq<DVal>, taken: seq<DVal>)
      ensures glue == GlueVals(Abs(), x, loads, rec) && own == OwnTerm(x, loads, rec) && taken == FromLoads(Abs(), x, loads)
    {
      hide DiffExpr, HasSize;
      glue, own, taken := [], [], [];
      for i := 0 to |loads|
        invariant glue == GlueVals(Abs(), x, loads[..i], rec) && own == OwnTerm(x, loads[..i], rec) && taken == FromLoads(Abs(), x, loads[..i])
      {
        assert loads[..i + 1][..i] == loads[..i];
        if loads[i] == Scl(x) {
          var ds := OwnDiff(rec);
          glue, own := glue + ds, own + ds;
        } else {
          var ds := TakeOver(loads[i]);
          glue, taken := glue + ds, taken + ds;
        }
      }
      assert loads[..|loads|] == loads;
    }

    static method OwnDiff(rec: Option<NExpr>) returns (ds: seq<DVal>)
      ensures ds == ScaleAll(RecDiffs(rec))
    {
      ds := [];
      if rec.Some? && HasSize(rec.value) { ds := [Scaled(OfExpr(DiffExpr(rec.value)))]; }
    }

    /** The differences of one load: array differences times `N-1`, scalar ones as they are. */
    method TakeOver(v: Var) returns (taken: seq<DVal>)
      ensures taken == FromLoad(Abs(), v)
    {
      taken := [];
      var ds := if v in diffs then diffs[v] else [];
      for j := 0 to |ds|
        invariant taken == if v.Arr? then ScaleAll(ds)[..j] else ds[..j]
      {
        taken := taken + [if v.Arr? then Scaled(ds[j]) else ds[j]];
      }
      assert ScaleAll(ds)[..|ds|] == ScaleAll(ds) && ds[..|ds|] == ds;
    }

    /** `additional_record`: the peeled value of every array load. */
    method AdditionalRecord(x: nat, loads: seq<Var>) returns (peeled: seq<DVal>)
      modifies this`regs
      ensures peeled == RegList(old(regs), CountArr(loads)) && regs == old(regs) + CountArr(loads)
    {
      peeled := [];
      for i := 0 to |loads|
        invariant regs == old(regs) + CountArr(loads[..i]) && peeled == RegList(old(regs), CountArr(loads[..i]))
      {
        assert loads[..i + 1][..i] == loads[..i];
        if loads[i].Arr? {
          peeled := peeled + [Reg(regs)];
          regs := regs + 1;
        }
      }
      assert loads[..|loads|] == loads;
    }

    /** `peel_loop` on a loop that writes an array. */
    method PeelArrayLoop(ph: Phase)
      requires ph.ArrLoop?
      modifies this
      ensures Abs() == GenArr(ph, old(Abs()))
    {
      hide OwnDiffs, CellDiffs, DiffExpr, HasSize, Loads, RecOf;
      var loads, rec := Loads(ph.t), RecOf(ph.t);
      var own, taken := CollectForArray(ph.a, loads);
      code := code + [Peel(ph)];
      if own != [] { code := code + [GlueCell(ph.a, own)]; }
      if rec.Some? && HasSize(rec.value) { AddDiffVal(Arr(ph.a), OfExpr(DiffExpr(rec.value))); }
      AddDiffVals(Arr(ph.a), taken);
    }

    /** `peel_loop` on a loop that writes a scalar; a value without loads is recorded but needs no glue. */
    method PeelScalarLoop(ph: Phase)
      requires ph.Accum?
      modifies this
      ensures Abs() == GenAccum(ph, old(Abs()))
    {
      hide FromLoads, GlueVals, OwnTerm, CountArr, DiffExpr, HasSize, RegList, Record, Loads, RecOf;
      var loads, rec := Loads(ph.t), RecOf(ph.t);
      var glue, own, taken := CollectForScalar(ph.x, loads, rec);
      if loads == [] {
        own := [];
        if rec.Some? && HasSize(rec.value) { own := [OfExpr(DiffExpr(rec.value))]; }
      }
      assert own == TermDiffs(ph);
      if glue != [] { code := code + [Glue(ph.x, glue)]; }
      code := code + [Peel(ph)];
      var peeled := AdditionalRecord(ph.x, loads);
      AddDiffVals(Scl(ph.x), own);
      AddDiffVals(Scl(ph.x), taken);
      AddDiffVals(Scl(ph.x), peeled);
    }

    /** `peel_outer_block`: a scalar set to an expression of `N` is restored and moved, a constant store vanishes. */
    method PeelOuterSet(x: nat, e: NExpr)
      modifies this
      ensures Abs() == GenOuter(x, e, old(Abs()))
    {
      if HasSize(e) {
        var d := OfExpr(DiffExpr(e));
        code := code + [Restore(x, d)];
        AddDiffVal(Scl(x), d);
      }
    }

    /** `peel_outer_block` on a copy: the loop over the source's differences keeps the last one. */
    method PeelOuterCopy(x: nat, y: nat)
      modifies this
      ensures Abs() == GenCopy(x, y, old(Abs()))
    {
      var ds := if Scl(y) in diffs then diffs[Scl(y)] else [];
      var found: Option<DVal> := None;
      for i := 0 to |ds|
        invariant found == if i == 0 then None else Some(ds[i - 1])
      {
        found := Some(ds[i]);
      }
      if found.Some? {
        code := code + [Bump(x, found.value)];
        AddDiffVal(Scl(x), found.value);
      }
    }

    /** `peel_outer_block` on a store to a cell of an array: dropped, its difference recorded for the array. */
    method PeelOuterCell(a: nat, e: NExpr)
      modifies this
      ensures Abs() == GenCell(a, e, old(Abs()))
    {
      if HasSize(e) { AddDiffVal(Arr(a), OfExpr(DiffExpr(e))); }
    }

    /** `peel_function`: all phases in order.  Run on any final state at size N-1, the code emitted leaves scalars and
        cells N-1 as at size N, whenever the program is in the fragment and its values allow it. */
    method PeelFunction(ps: seq<Phase>)
      requires Abs() == START
      modifies this
      ensures Abs() == GenUpTo(ps, |ps|)
      ensures forall n: nat, s0: State | n >= 2 && InFragment(ps, n, s0) :: AtSize(ps, n, s0, CodeEnd(ps, code, n, s0))
    {
      hide GenArr, GenAccum, GenOuter, GenCopy, GenCell, InFragment, AtSize, CodeEnd;
      for j := 0 to |ps|
        invariant Abs() == GenUpTo(ps, j)
      {
        match ps[j]
        case ArrLoop(_, _) => PeelArrayLoop(ps[j]);
        case Accum(_, _) => PeelScalarLoop(ps[j]);
        case OuterSet(x, e) => PeelOuterSet(x, e);
        case Copy(x, y) => PeelOuterCopy(x, y);
        case OuterCell(a, _, e) => PeelOuterCell(a, e);
      }
      forall n: nat, s0: State | n >= 2 && InFragment(ps, n, s0) ensures AtSize(ps, n, s0, CodeEnd(ps, code, n, s0)) {
        CodeRight(ps, n, s0);
      }
    }
  }

  ghost predicate InFragment(ps: seq<Phase>, n: nat, s0: State)
    requires n >= 1
  {
    InBounds(ps, n - 1) && (forall i | 0 <= i < |ps| :: StaticOk(ps, i)) && ValuesOk(ps, n, s0, |ps|)
  }

  /** A state with the scalars and cells N-1 of size N, and the other cells of size N-1. */
  ghost predicate AtSize(ps: seq<Phase>, n: nat, s0: State, s: State)
    requires n >= 1
  {
    && (forall x: nat :: s.scl(x) == Run(ps, n, |ps|, s0).scl(x))
    && (forall a: nat, k: int :: s.arr(a, k) == Run(ps, if k == n - 1 then n else n - 1, |ps|, s0).arr(a, k))
  }

  /** Where the code ends, run on the final state at size N-1. */
  function CodeEnd(ps: seq<Phase>, code: seq<DStmt>, n: nat, s0: State): State
    requires n >= 1
  {
    var last := Run(ps, n - 1, |ps|, s0);
    ExecAll(code, n, last, DState(last, [])).s
  }

  lemma CodeRight(ps: seq<Phase>, n: nat, s0: State)
    requires n >= 2 && InFragment(ps, n, s0)
    ensures AtSize(ps, n, s0, CodeEnd(ps, GenUpTo(ps, |ps|).code, n, s0))
  {
    hide StaticOk, ValuesOk, Run, Differenced, WorldAt, GenUpTo;
    DifferencingCorrect(ps, n, s0);
    EndIs(ps, n, s0);
  }

  lemma EndIs(ps: seq<Phase>, n: nat, s0: State)
    requires n >= 1
    ensures CodeEnd(ps, GenUpTo(ps, |ps|).code, n, s0) == Differenced(ps, n, s0)
  {
    hide Run, ExecAll, GenUpTo;
  }

  lemma NoRecord(g: Gen, v: Var)
    ensures Record(g, v, []) == g
  {
  }

  lemma RecordMore(g: Gen, v: Var, xs: seq<DVal>, d: DVal)
    ensures Record(Record(g, v, xs), v, [d]) == Record(g, v, xs + [d])
  {
    var before := DiffsOf(g, v);
    assert before + xs + [d] == before + (xs + [d]);
    if xs == [] {
      assert xs + [d] == [d];
    } else {
      assert g.diffs[v := before + xs][v := before + xs + [d]] == g.diffs[v := before + (xs + [d])];
    }
  }
}
