/** The scope test and the choice of the multiple as the pass makes them, step by step. */
module NestPass {
  import opened NestSpec
  import opened NestRaw
  import opened NestScope
  import opened NestSound
  import opened NestSelf

  /** The operands of a stored sum or difference: is one of them the stored cell, and what is the other. */
  method FindTerm(st: Store) returns (rec: bool, term: Option<Term>)
    ensures rec == Recognised(st).rec && term == Recognised(st).term
  {
    rec, term := false, None;
    if st.value.Upd? {
      var op0, op1 := st.value.l, st.value.r;
      if op0.Load? {
        if op0.v == st.v {
          if op0.idx == st.idx { rec := true; }
        } else {
          term := Some(op0);
        }
      } else {
        term := Some(op0);
      }
      if op1.Load? && !rec {
        if op1.v == st.v {
          if op1.idx == st.idx { rec := true; }
        } else {
          term := Some(op1);
        }
      } else {
        term := Some(op1);
      }
    }
  }

  /** The tests before the one of the term. */
  method EarlyTests(statics: set<nat>, s: Shape, w: RawNest, rec: bool) returns (inScope: bool)
    requires rec == Recognised(w.st).rec
    ensures inScope == Early(statics, s, w)
  {
    hide Recognised;
    inScope := true;
    if !s.firstSubLoop { inScope := false; }
    if !s.singleExit { inScope := false; }
    if s.conditional { inScope := false; }
    if s.arraysWritten != 1 { inScope := false; }
    if s.stores != 1 { inScope := false; }
    if s.outerStores != (if w.last.Some? then 1 else 0) { inScope := false; }
    if w.last.Some? {
      if w.last.value.v != w.st.v { inScope := false; }
      if w.last.value.v !in statics && !w.last.value.idx.OuterIdx? { inScope := false; }
    }
    if w.st.v !in statics {
      if !(w.st.idx.OuterIdx? || w.st.idx.InnerIdx?) { inScope := false; }
    }
    if !rec { inScope := false; }
  }

  /** The multiple, from the kind of store and the bounds of the inner loop. */
  method Multiple(statics: set<nat>, w: RawNest, column: bool) returns (mult: Mult)
    requires Recognised(w.st).term.Some? && (w.last.Some? ==> Recognised(w.last.value).term.Some?)
    requires column <==> !(w.st.v in statics || w.st.idx.OuterIdx?)
    ensures mult == MultOf(statics, Taken(statics, w))
  {
    hide Recognised;
    var clExit := if w.strict then w.exit else BPlus(w.exit, 1);
    if !column {
      if !w.init.BNum? || w.init.c > 0 {
        mult := Diff(clExit, w.init);
      } else {
        mult := Bounded(clExit);
      }
    } else if !w.init.BNum? {
      if w.init == BOuter && clExit == BSize {
        mult := OuterPlusOne;
      } else {
        mult := Bounded(w.init);
      }
    } else if w.init.c > 0 {
      mult := Diff(clExit, w.init);
    } else if clExit == BSize {
      mult := Bounded(clExit);
    } else {
      mult := SizeMinus(clExit);
    }
  }

  /** `process_nl` for one inner loop: `None` where the tool gives up.  The test of the term replaces the outcome of the
      tests before it, as in the tool; `AcceptedAnyway` shows what that lets through. */
  method ProcessNl(statics: set<nat>, stores: seq<seq<(nat, Term)>>, l: nat, s: Shape, w: RawNest) returns (r: Option<(Nest, Mult)>)
    ensures r.Some? <==> Passes(statics, stores, l, s, w)
    ensures r.Some? ==> r.value == (Taken(statics, w), MultOf(statics, Taken(statics, w)))
    ensures r.Some? && Understood(statics, w) ==> Replaces(statics, w, r.value.0, r.value.1)
  {
    hide InScope, Early, Recognised, Accumulates, MultOf, Replaces;
    r := None;
    var rec, term := FindTerm(w.st);
    var inScope := EarlyTests(statics, s, w, rec);
    if term.None? { return; }
    if term.value != OuterCtr { inScope := InScope(statics, stores, term.value, l); }
    if term.value.Load? {
      if term.value.v == w.st.v { inScope := false; }
    }
    if w.last.Some? {
      var lastRec, lastTerm := FindTerm(w.last.value);
      if !lastRec || lastTerm.None? { return; }
    }
    var column := w.st.v !in statics && !w.st.idx.OuterIdx?;
    if column && term.value == OuterCtr { inScope := false; }
    var mult := Multiple(statics, w, column);
    if inScope {
      r := Some((Taken(statics, w), mult));
      if Understood(statics, w) { TakenReplaces(statics, stores, l, w, mult); }
    }
  }

  /** What the new loop is worth: equal to the loops it replaces exactly under the condition of their shape, and over
      constant arrays, thanks to the scope test, exactly when the term is zero or the multiple counts its updates. */
  ghost predicate Replaces(statics: set<nat>, w: RawNest, q: Nest, mu: Mult)
    requires Understood(statics, w) && q == Taken(statics, w)
  {
    && (Separate(q) ==> forall n: nat, m: Mem :: RawSame(statics, w, mu, n, m) <==> Right(q, mu, n, m))
    && (SelfReading(q) ==> forall n: nat, m: Mem :: RawSame(statics, w, mu, n, m) <==> SelfRight(q, mu, n, m))
    && (mu == MultOf(statics, q) ==> forall n: nat, m: Mem | Sound(statics, q, n) :: RawSame(statics, w, mu, n, m))
    && (Separate(q) && q.term != OuterCtr ==>
          forall n: nat, m: Mem | Uniform(q.term, m) :: RawSame(statics, w, mu, n, m) <==> Val(q.term, n, 0, 0, m) == 0 || MultipleCounts(q, mu, n))
  }

  lemma TakenReplaces(statics: set<nat>, stores: seq<seq<(nat, Term)>>, l: nat, w: RawNest, mu: Mult)
    requires Understood(statics, w) && (Taken(statics, w).term == OuterCtr || InScope(statics, stores, Taken(statics, w).term, l))
    ensures Replaces(statics, w, Taken(statics, w), mu)
  {
    hide SameResult, RawSame, Right, SelfRight, OwnOnly, Coef, PlainLast, Sound, Separate, Taken, MultOf, InScope, Uniform, MultipleCounts, Val;
    UnderstoodKnown(statics, w);
    var q := Taken(statics, w);
    forall n: nat, m: Mem
      ensures Separate(q) ==> (RawSame(statics, w, mu, n, m) <==> Right(q, mu, n, m))
      ensures SelfReading(q) ==> (RawSame(statics, w, mu, n, m) <==> SelfRight(q, mu, n, m))
      ensures mu == MultOf(statics, q) && Sound(statics, q, n) ==> RawSame(statics, w, mu, n, m)
      ensures Separate(q) && q.term != OuterCtr && Uniform(q.term, m) ==>
                (RawSame(statics, w, mu, n, m) <==> Val(q.term, n, 0, 0, m) == 0 || MultipleCounts(q, mu, n))
    {
      UnderstoodExact(statics, w, mu, n, m);
      if Separate(q) { EliminationExact(q, mu, n, m); }
      if SelfReading(q) { SelfExact(q, mu, n, m); }
      if mu == MultOf(statics, q) && Sound(statics, q, n) { EliminationSound(statics, q, n, m); }
      if Separate(q) && q.term != OuterCtr && Uniform(q.term, m) { InScopeExact(statics, stores, l, q, mu, n, m); }
    }
  }

  lemma UnderstoodKnown(statics: set<nat>, w: RawNest)
    requires Understood(statics, w)
    ensures Recognised(w.st).term.Some? && (w.last.Some? ==> Recognised(w.last.value).term.Some?)
  {
  }

  /** When the single loop equals the nest, shape by shape. */
  ghost predicate Right(q: Nest, mu: Mult, n: nat, m: Mem) {
    match q.idx
    case OuterIdx => forall i: nat | i < n :: RowTotal(q, n, i, m) == MVal(mu, n, i) * Val(q.term, n, i, i, m)
    case InnerIdx => forall x: int :: ColSum(q, n, n, x, m) == ColMultiple(q, mu, n, x, m)
    case Const(_) => Summed(q, n, n, m) == Multiplied(q, mu, n, n, m)
  }

  /** ELIMINATION, exactly, for every nest whose terms do not read the updated variable. */
  lemma EliminationExact(q: Nest, mu: Mult, n: nat, m: Mem)
    requires Separate(q)
    ensures SameResult(q, mu, n, m) <==> Right(q, mu, n, m)
  {
    hide SameResult, Separate, RowTotal, ColSum, ColMultiple, MVal, Val;
    match q.idx
    case OuterIdx => RowExact(q, mu, n, m);
    case InnerIdx => ColumnExact(q, mu, n, m);
    case Const(_) => ScalarExact(q, mu, n, m);
  }

  /** A nest whose term reads the updated variable in the cell it updates only, linearly, and otherwise looks at the
      counter that stays; a column has no trailing update. */
  predicate SelfReading(q: Nest) {
    && OwnOnly(q.term, q.v, q.idx) && PlainLast(q) && Coef(q.term, q.v).Some?
    && if q.idx.InnerIdx? then OuterFree(q.term) && q.last.None? else InnerFree(q.term)
  }

  /** When the single loop equals such a nest: the multiple is a geometric sum of the term's factor. */
  ghost predicate SelfRight(q: Nest, mu: Mult, n: nat, m: Mem)
    requires Coef(q.term, q.v).Some?
  {
    match q.idx
    case OuterIdx => forall i: nat | i < n :: Val(q.term, n, i, i, m) == 0 || Geo(Base(q), Trips(q, n, i)) == MVal(mu, n, i)
    case InnerIdx =>
      forall x: int :: Val(q.term, n, x, x, m) == 0 || Geo(Base(q), Visits(q, n, n, x)) == if 0 <= x < n then MVal(mu, n, x) else 0
    case Const(_) => Gap(q, mu, n, n, m) == 0
  }

  /** ELIMINATION, exactly, for those. */
  lemma SelfExact(q: Nest, mu: Mult, n: nat, m: Mem)
    requires SelfReading(q)
    ensures SameResult(q, mu, n, m) <==> SelfRight(q, mu, n, m)
  {
    hide SameResult, OwnOnly, Coef, MVal, Val, Geo, Base, Visits, Trips, Gap, InnerFree, OuterFree;
    match q.idx
    case OuterIdx => SelfLinearExact(q, mu, n, m);
    case InnerIdx => SelfLinearColumnExact(q, mu, n, m);
    case Const(_) => SelfLinearScalarExact(q, mu, n, m);
  }

  /** Which accepted nests the tool may replace: rows and scalars over ranges that are never inverted, columns over
      the three ranges; the term looks only at the counter that stays. */
  ghost predicate Sound(statics: set<nat>, q: Nest, n: nat) {
    && Separate(q)
    && if IsColumn(statics, q) then OuterFree(q.term) && GoodRange(q)
       else !q.idx.InnerIdx? && InnerFree(q.term) && (q.init.BNum? ==> q.init.c >= 0)
            && forall i: nat | i < n :: BVal(ExitOf(q), n, i) >= BVal(q.init, n, i)
  }

  /** For these the chosen multiple preserves the meaning of the nest, whatever the memory. */
  lemma EliminationSound(statics: set<nat>, q: Nest, n: nat, m: Mem)
    requires Sound(statics, q, n)
    ensures SameResult(q, MultOf(statics, q), n, m)
  {
    hide SameResult, Separate, OuterFree, InnerFree;
    if IsColumn(statics, q) { ColumnElimination(statics, q, n, m); } else { RowElimination(statics, q, n, m); }
  }
}
