/** Nests as the pass finds them, before it has recognised an accumulation in the stores: what it takes them for, when it
    accepts them, and what its order of tests lets through. */
module NestRaw {
  import opened NestSpec
  import opened NestSound

  /** A stored value: a sum or difference, or anything else. */
  datatype Value = Upd(op: Op, l: Term, r: Term) | Other(t: Term)

  datatype Store = Store(v: nat, idx: Index, value: Value)

  /** `for i in 0..N-1 { for j in init..exit { st }  last }`. */
  datatype RawNest = RawNest(st: Store, init: Bound, exit: Bound, strict: bool, last: Option<Store>)

  /** What the pass reads off the loop structure before it looks at the stores. */
  datatype Shape = Shape(firstSubLoop: bool, singleExit: bool, conditional: bool, arraysWritten: nat, stores: nat, outerStores: nat)

  // ----- execution -----

  function RVal(x: Value, n: int, i: int, j: int, m: Mem): int {
    match x
    case Upd(op, l, r) => Up(op, Val(l, n, i, j, m), Val(r, n, i, j, m))
    case Other(t) => Val(t, n, i, j, m)
  }

  function RStore(st: Store, n: int, i: int, j: int, m: Mem): Mem { Put(m, st.v, CellOf(st.idx, i, j), RVal(st.value, n, i, j, m)) }

  function RawExit(w: RawNest): Bound { if w.strict then w.exit else BPlus(w.exit, 1) }

  function RawTrips(w: RawNest, n: int, i: int): nat {
    var k := BVal(RawExit(w), n, i) - BVal(w.init, n, i);
    if k < 0 then 0 else k
  }

  function RawInner(w: RawNest, n: int, i: int, lo: int, k: nat, m: Mem): Mem {
    if k == 0 then m else RStore(w.st, n, i, lo + k - 1, RawInner(w, n, i, lo, k - 1, m))
  }

  function RawBody(w: RawNest, n: int, i: int, m: Mem): Mem {
    var b := RawInner(w, n, i, BVal(w.init, n, i), RawTrips(w, n, i), m);
    if w.last.None? then b else RStore(w.last.value, n, i, i, b)
  }

  function RawNested(w: RawNest, n: int, k: nat, m: Mem): Mem {
    if k == 0 then m else RawBody(w, n, k - 1, RawNested(w, n, k - 1, m))
  }

  // ----- the pass -----

  /** `rec`: a load of the stored cell was found; `term`: the other operand. */
  datatype Found = Found(rec: bool, term: Option<Term>)

  /** The left operand is looked at first; loads of other cells of the stored variable are no term. */
  function Recognised(st: Store): Found {
    match st.value
    case Other(_) => Found(false, None)
    case Upd(_, l, r) =>
      var own := Load(st.v, st.idx);
      var left := if l == own then Found(true, None) else if l.Load? && l.v == st.v then Found(false, None) else Found(false, Some(l));
      if left.rec || !r.Load? || r.v != st.v then Found(left.rec, Some(r))
      else if r == own then Found(true, left.term) else left
  }

  /** The tests before the one of the term. */
  predicate Early(statics: set<nat>, s: Shape, w: RawNest) {
    && s.firstSubLoop && s.singleExit && !s.conditional && s.arraysWritten == 1 && s.stores == 1
    && s.outerStores == (if w.last.Some? then 1 else 0)
    && (w.last.Some? ==> w.last.value.v == w.st.v && (w.last.value.v in statics || w.last.value.idx.OuterIdx?))
    && (w.st.v in statics || w.st.idx.OuterIdx? || w.st.idx.InnerIdx?)
    && Recognised(w.st).rec
  }

  /** When the pass goes on.  The test of the term replaces the outcome of the tests before it, except for a term that
      is the outer counter. */
  predicate Passes(statics: set<nat>, stores: seq<seq<(nat, Term)>>, l: nat, s: Shape, w: RawNest) {
    var term := Recognised(w.st).term;
    && term.Some?
    && (if term.value == OuterCtr then Early(statics, s, w) else InScope(statics, stores, term.value, l))
    && !(term.value.Load? && term.value.v == w.st.v)
    && (w.last.Some? ==> Recognised(w.last.value).rec && Recognised(w.last.value).term.Some?)
    && (term.value == OuterCtr ==> w.st.v in statics || w.st.idx.OuterIdx?)
  }

  /** What the pass takes the loops for: an accumulation of the term found, in a row, a column, or a scalar. */
  function Taken(statics: set<nat>, w: RawNest): Nest
    requires Recognised(w.st).term.Some? && (w.last.Some? ==> Recognised(w.last.value).term.Some?)
  {
    var idx := if w.st.v in statics || w.st.idx.OuterIdx? then w.st.idx else InnerIdx;
    Nest(w.st.v, idx, w.st.value.op, Recognised(w.st).term.value, w.init, w.exit, w.strict,
         if w.last.None? then None else Some((w.last.value.value.op, Recognised(w.last.value).term.value)))
  }

  /** The loops and what replaces them end in the same memory. */
  ghost predicate RawSame(statics: set<nat>, w: RawNest, mu: Mult, n: nat, m: Mem)
    requires Recognised(w.st).term.Some? && (w.last.Some? ==> Recognised(w.last.value).term.Some?)
  {
    forall u: nat, x: int :: RawNested(w, n, n, m)(u, x) == Single(Taken(statics, w), mu, n, n, m)(u, x)
  }

  // ----- what it takes for an accumulation and is one -----

  /** The stored cell is the left operand, or an operand of a sum. */
  predicate Accumulates(st: Store) { Recognised(st).rec && Recognised(st).term.Some? && (st.value.l == Load(st.v, st.idx) || st.value.op.Add?) }

  /** The loops are what the pass takes them for. */
  predicate Understood(statics: set<nat>, w: RawNest) {
    && Accumulates(w.st) && (if w.st.v in statics then w.st.idx.Const? else !w.st.idx.Const?)
    && (w.last.Some? ==> Accumulates(w.last.value) && w.last.value.v == w.st.v
                         && w.last.value.idx == if w.st.v in statics then w.st.idx else OuterIdx)
  }

  lemma ValueIs(st: Store, n: int, i: int, j: int, m: Mem)
    requires Accumulates(st)
    ensures RVal(st.value, n, i, j, m) == Up(st.value.op, m(st.v, CellOf(st.idx, i, j)), Val(Recognised(st).term.value, n, i, j, m))
  {
    assert Val(Load(st.v, st.idx), n, i, j, m) == m(st.v, CellOf(st.idx, i, j));
  }

  lemma {:induction false} InnerIs(statics: set<nat>, w: RawNest, n: int, i: int, lo: int, k: nat, m: Mem)
    requires Understood(statics, w)
    ensures RawInner(w, n, i, lo, k, m) == Inner(Taken(statics, w), n, i, lo, k, m)
  {
    hide Recognised, RVal, Val;
    if k > 0 {
      InnerIs(statics, w, n, i, lo, k - 1, m);
      ValueIs(w.st, n, i, lo + k - 1, RawInner(w, n, i, lo, k - 1, m));
    }
  }

  lemma {:induction false} NestedIs(statics: set<nat>, w: RawNest, n: int, k: nat, m: Mem)
    requires Understood(statics, w)
    ensures RawNested(w, n, k, m) == Nested(Taken(statics, w), n, k, m)
  {
    hide Recognised, RVal, Val, BVal;
    if k > 0 {
      var b := RawNested(w, n, k - 1, m);
      NestedIs(statics, w, n, k - 1, m);
      InnerIs(statics, w, n, k - 1, BVal(w.init, n, k - 1), RawTrips(w, n, k - 1), b);
      if w.last.Some? { ValueIs(w.last.value, n, k - 1, k - 1, RawInner(w, n, k - 1, BVal(w.init, n, k - 1), RawTrips(w, n, k - 1), b)); }
    }
  }

  /** UNDERSTOOD LOOPS are replaced rightly exactly when the nest they are taken for is. */
  lemma UnderstoodExact(statics: set<nat>, w: RawNest, mu: Mult, n: nat, m: Mem)
    requires Understood(statics, w)
    ensures RawSame(statics, w, mu, n, m) <==> SameResult(Taken(statics, w), mu, n, m)
  {
    hide Recognised, Taken, RawNested, Nested, Single;
    NestedIs(statics, w, n, n, m);
  }

  // ----- a nest, written out -----

  /** The loops of an accumulation, the cell as left operand. */
  function RawOf(q: Nest): RawNest {
    var own := if q.idx.Const? then q.idx else OuterIdx;
    RawNest(Store(q.v, q.idx, Upd(q.op, Load(q.v, q.idx), q.term)), q.init, q.exit, q.strict,
            if q.last.None? then None else Some(Store(q.v, own, Upd(q.last.value.0, Load(q.v, own), q.last.value.1))))
  }

  const FIRST := Shape(true, true, false, 1, 1, 0)
  const TRAILED := Shape(true, true, false, 1, 1, 1)

  /** On such loops the order of the tests does not matter. */
  lemma RawOfPasses(statics: set<nat>, stores: seq<seq<(nat, Term)>>, l: nat, q: Nest)
    requires if q.v in statics then q.idx.Const? else !q.idx.Const?
    ensures Passes(statics, stores, l, if q.last.Some? then TRAILED else FIRST, RawOf(q)) <==> Accepted(statics, stores, l, q)
    ensures Understood(statics, RawOf(q)) && Taken(statics, RawOf(q)) == q
  {
    hide InScope;
  }

  // ----- accepted because a later test replaces the outcome of an earlier one -----

  /** for i in 0..N { for j in 0..N { a[i] = c[i] + 1 } }: no accumulation, but the term 1 is in scope. */
  const ASSIGNMENT := RawNest(Store(0, OuterIdx, Upd(Add, Load(1, OuterIdx), Num(1))), BNum(0), BSize, true, None)

  /** for i in 0..N { for j in 0..N { a[0] = a[0] + 1 } }: one cell, taken for a column. */
  const ONE_CELL := RawNest(Store(0, Const(0), Upd(Add, Load(0, Const(0)), Num(1))), BNum(0), BSize, true, None)

  /** for i in 0..N { for j in 0..N { a[i] = 1 - a[i] } }: the cell is subtracted. */
  const FLIP := RawNest(Store(0, OuterIdx, Upd(Sub, Num(1), Load(0, OuterIdx))), BNum(0), BSize, true, None)

  /** Whatever the other tests say. */
  lemma AcceptedAnyway(stores: seq<seq<(nat, Term)>>, l: nat, s: Shape)
    ensures Passes({}, stores, l, s, ASSIGNMENT) && !Early({}, s, ASSIGNMENT)
    ensures Passes({}, stores, l, s, ONE_CELL) && !Early({}, s, ONE_CELL)
    ensures Passes({}, stores, l, s, FLIP)
  {
  }

  lemma {:induction false} Assigned(n: int, i: int, lo: int, k: nat, m: Mem)
    ensures forall u: nat, x: int :: RawInner(ASSIGNMENT, n, i, lo, k, m)(u, x) == if u == 0 && x == i && k > 0 then m(1, i) + 1 else m(u, x)
  {
    if k > 0 {
      var b := RawInner(ASSIGNMENT, n, i, lo, k - 1, m);
      Assigned(n, i, lo, k - 1, m);
      assert Val(Load(1, OuterIdx), n, i, lo + k - 1, b) == b(1, i) == m(1, i) && Val(Num(1), n, i, lo + k - 1, b) == 1;
    }
  }

  lemma {:induction false} AllAssigned(n: nat, k: nat, m: Mem)
    requires n > 0
    ensures forall u: nat, x: int :: RawNested(ASSIGNMENT, n, k, m)(u, x) == if u == 0 && 0 <= x < k then m(1, x) + 1 else m(u, x)
  {
    hide RawInner;
    if k > 0 {
      AllAssigned(n, k - 1, m);
      Assigned(n, k - 1, 0, n, RawNested(ASSIGNMENT, n, k - 1, m));
    }
  }

  /** What the single loop does to a row or column of ones, with the multiple N. */
  lemma OnesSingle(q: Nest, mu: Mult, n: nat, m: Mem)
    requires !q.idx.Const? && q.term == Num(1) && q.last.None? && mu == Bounded(BSize)
    ensures forall u: nat, x: int :: Single(q, mu, n, n, m)(u, x) == m(u, x) + if u == q.v && 0 <= x < n then Sign(q.op) * n else 0
  {
    hide Single, SingleSum;
    assert Separate(q);
    forall u: nat, x: int ensures Single(q, mu, n, n, m)(u, x) == m(u, x) + if u == q.v && 0 <= x < n then Sign(q.op) * n else 0 {
      SingleAt(q, mu, n, n, m, x);
      if q.idx.OuterIdx? { RowGains(q, mu, n, n, x, m); } else { ColumnGains(q, mu, n, n, x, m); }
      assert SingleGain(q, mu, n, x, x, m) == Sign(q.op) * n by { assert MVal(mu, n, x) == n && Val(Num(1), n, x, x, m) == 1; }
    }
  }

  lemma AllOnes()
    ensures var q := Taken({}, ASSIGNMENT); q == Nest(0, OuterIdx, Add, Num(1), BNum(0), BSize, true, None) && MultOf({}, q) == Bounded(BSize)
    ensures var q := Taken({}, ONE_CELL); q == Nest(0, InnerIdx, Add, Num(1), BNum(0), BSize, true, None) && MultOf({}, q) == Bounded(BSize)
    ensures var q := Taken({}, FLIP); q == Nest(0, OuterIdx, Sub, Num(1), BNum(0), BSize, true, None) && MultOf({}, q) == Bounded(BSize)
  {
  }

  /** An assignment is accepted and replaced by an accumulation: right exactly where the two happen to agree. */
  lemma AcceptedAssignment(n: nat, m: Mem)
    ensures RawSame({}, ASSIGNMENT, MultOf({}, Taken({}, ASSIGNMENT)), n, m) <==> forall x: nat | x < n :: m(1, x) + 1 == m(0, x) + n
  {
    hide Single, RawNested, Taken, MultOf;
    var q, mu := Taken({}, ASSIGNMENT), Bounded(BSize);
    AllOnes();
    OnesSingle(q, mu, n, m);
    if n > 0 {
      AllAssigned(n, n, m);
      if RawSame({}, ASSIGNMENT, mu, n, m) {
        forall x: nat | x < n ensures m(1, x) + 1 == m(0, x) + n { assert RawNested(ASSIGNMENT, n, n, m)(0, x) == Single(q, mu, n, n, m)(0, x); }
      }
    } else {
      NoRounds(ASSIGNMENT, n, m);
    }
  }

  lemma NoRounds(w: RawNest, n: int, m: Mem)
    ensures RawNested(w, n, 0, m) == m
  {
  }

  lemma {:induction false} OneInner(n: int, i: int, lo: int, k: nat, m: Mem)
    ensures forall u: nat, x: int :: RawInner(ONE_CELL, n, i, lo, k, m)(u, x) == m(u, x) + if u == 0 && x == 0 then k else 0
  {
    if k > 0 {
      var b := RawInner(ONE_CELL, n, i, lo, k - 1, m);
      OneInner(n, i, lo, k - 1, m);
      assert Val(Load(0, Const(0)), n, i, lo + k - 1, b) == b(0, 0) && Val(Num(1), n, i, lo + k - 1, b) == 1;
    }
  }

  lemma {:induction false} OneNested(n: nat, k: nat, m: Mem)
    ensures forall u: nat, x: int :: RawNested(ONE_CELL, n, k, m)(u, x) == m(u, x) + if u == 0 && x == 0 then k * n else 0
  {
    hide RawInner;
    if k > 0 {
      OneNested(n, k - 1, m);
      OneInner(n, k - 1, 0, n, RawNested(ONE_CELL, n, k - 1, m));
      Times1(k - 1, n);
    }
  }

  /** One cell of an array is accepted and replaced by all cells: wrong from size 2 on. */
  lemma AcceptedOneCell(n: nat, m: Mem)
    ensures RawSame({}, ONE_CELL, MultOf({}, Taken({}, ONE_CELL)), n, m) <==> n <= 1
  {
    hide Single, RawNested, Taken, MultOf;
    var q, mu := Taken({}, ONE_CELL), Bounded(BSize);
    AllOnes();
    OnesSingle(q, mu, n, m);
    OneNested(n, n, m);
    if n > 1 { assert RawNested(ONE_CELL, n, n, m)(0, 1) != Single(q, mu, n, n, m)(0, 1); }
  }

  lemma {:induction false} FlipInner(n: int, i: int, lo: int, k: nat, m: Mem)
    ensures forall u: nat, x: int :: RawInner(FLIP, n, i, lo, k, m)(u, x) == if u == 0 && x == i && k % 2 == 1 then 1 - m(0, i) else m(u, x)
  {
    if k > 0 {
      var b := RawInner(FLIP, n, i, lo, k - 1, m);
      FlipInner(n, i, lo, k - 1, m);
      assert Val(Load(0, OuterIdx), n, i, lo + k - 1, b) == b(0, i) && Val(Num(1), n, i, lo + k - 1, b) == 1;
    }
  }

  lemma {:induction false} FlipNested(n: nat, k: nat, m: Mem)
    ensures forall u: nat, x: int :: RawNested(FLIP, n, k, m)(u, x) == if u == 0 && 0 <= x < k && n % 2 == 1 then 1 - m(0, x) else m(u, x)
  {
    hide RawInner;
    if k > 0 {
      FlipNested(n, k - 1, m);
      FlipInner(n, k - 1, 0, n, RawNested(FLIP, n, k - 1, m));
    }
  }

  /** A cell subtracted from 1 is accepted and replaced by subtracting N from it: right at odd sizes only, on cells
      that hold half of N + 1. */
  lemma AcceptedFlip(n: nat, m: Mem)
    ensures RawSame({}, FLIP, MultOf({}, Taken({}, FLIP)), n, m) <==> n == 0 || (n % 2 == 1 && forall x: nat | x < n :: 2 * m(0, x) == n + 1)
  {
    hide Single, RawNested, Taken, MultOf;
    var q, mu := Taken({}, FLIP), Bounded(BSize);
    AllOnes();
    OnesSingle(q, mu, n, m);
    FlipNested(n, n, m);
    if RawSame({}, FLIP, mu, n, m) && n > 0 {
      forall x: nat | x < n ensures n % 2 == 1 && 2 * m(0, x) == n + 1 { assert RawNested(FLIP, n, n, m)(0, x) == Single(q, mu, n, n, m)(0, x); }
      assert RawNested(FLIP, n, n, m)(0, 0) == Single(q, mu, n, n, m)(0, 0);
    }
  }
}
