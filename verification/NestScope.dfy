/** What the scope test of the nested-loop pass buys: which terms pass it, and when an accepted nest is eliminated
    rightly on memories whose arrays are constant. */
module NestScope {
  import opened NestSpec
  import opened NestSound

  // ----- which terms are in scope -----

  /** A loop counter occurs as a value. */
  predicate HasCounter(t: Term) {
    match t
    case OuterCtr => true
    case InnerCtr => true
    case Bin(_, l, r) => HasCounter(l) || HasCounter(r)
    case _ => false
  }

  predicate LoadsOnly(statics: set<nat>, t: Term) {
    match t
    case Load(v, _) => v in statics
    case Bin(_, l, r) => LoadsOnly(statics, l) && LoadsOnly(statics, r)
    case _ => true
  }

  lemma {:induction false} ScopeNoCounter(statics: set<nat>, stores: seq<seq<(nat, Term)>>, t: Term, l: nat)
    requires InScope(statics, stores, t, l)
    ensures !HasCounter(t)
  {
    match t
    case Bin(_, x, y) =>
      ScopeNoCounter(statics, stores, x, l);
      ScopeNoCounter(statics, stores, y, l);
    case _ =>
  }

  /** TERMS OVER SCALARS are in scope if and only if no loop counter occurs in them. */
  lemma {:induction false} StaticScope(statics: set<nat>, stores: seq<seq<(nat, Term)>>, t: Term, l: nat)
    requires LoadsOnly(statics, t)
    ensures InScope(statics, stores, t, l) <==> !HasCounter(t)
  {
    match t
    case Bin(_, x, y) =>
      StaticScope(statics, stores, x, l);
      StaticScope(statics, stores, y, l);
    case _ =>
  }

  /** Loop `p` fills array `v` with `t`. */
  predicate Fills(stores: seq<seq<(nat, Term)>>, p: nat, k: nat, v: nat, t: Term) {
    p < |stores| && k < |stores[p]| && stores[p][k] == (v, t)
  }

  lemma {:induction false} FilledMeans(statics: set<nat>, stores: seq<seq<(nat, Term)>>, v: nat, l: nat)
    ensures FilledInScope(statics, stores, v, l) <==>
            forall p: nat, k: nat, t | p >= l && Fills(stores, p, k, v, t) :: InScope(statics, stores, t, p)
    decreases if l < |stores| then |stores| - l else 0
  {
    hide InScope;
    if l < |stores| {
      FilledMeans(statics, stores, v, l + 1);
      if FilledInScope(statics, stores, v, l) {
        forall p: nat, k: nat, t | p >= l && Fills(stores, p, k, v, t) ensures InScope(statics, stores, t, p) {
          assert p == l ==> stores[l][k].0 == v;
        }
      }
      if forall p: nat, k: nat, t | p >= l && Fills(stores, p, k, v, t) :: InScope(statics, stores, t, p) {
        forall k | 0 <= k < |stores[l]| && stores[l][k].0 == v ensures InScope(statics, stores, stores[l][k].1, l) {
          assert Fills(stores, l, k, v, stores[l][k].1);
        }
      }
    }
  }

  /** LOADS OF ARRAYS are in scope if and only if every other loop listed behind the current one fills the array with
      terms in scope: an array none of them fills always is, one filled with a loop counter never is. */
  lemma ArrayScope(statics: set<nat>, stores: seq<seq<(nat, Term)>>, v: nat, idx: Index, l: nat)
    requires v !in statics
    ensures InScope(statics, stores, Load(v, idx), l) <==>
            forall p: nat, k: nat, t | p > l && Fills(stores, p, k, v, t) :: InScope(statics, stores, t, p)
    ensures (forall p: nat, k: nat, t | p > l :: !Fills(stores, p, k, v, t)) ==> InScope(statics, stores, Load(v, idx), l)
    ensures (exists p: nat, k: nat, t :: p > l && Fills(stores, p, k, v, t) && HasCounter(t)) ==> !InScope(statics, stores, Load(v, idx), l)
  {
    FilledMeans(statics, stores, v, l + 1);
    if exists p: nat, k: nat, t :: p > l && Fills(stores, p, k, v, t) && HasCounter(t) {
      var p: nat, k: nat, t :| p > l && Fills(stores, p, k, v, t) && HasCounter(t);
      if InScope(statics, stores, t, p) { ScopeNoCounter(statics, stores, t, p); }
    }
  }

  // ----- what that is good for -----

  /** Every array the term reads at a counter holds one value in all its cells. */
  ghost predicate Uniform(t: Term, m: Mem) {
    match t
    case Load(v, idx) => idx.Const? || forall k: int, l: int :: m(v, k) == m(v, l)
    case Bin(_, l, r) => Uniform(l, m) && Uniform(r, m)
    case _ => true
  }

  /** A term in scope over constant arrays has one value, whatever the counters. */
  lemma {:induction false} ScopeConstant(statics: set<nat>, stores: seq<seq<(nat, Term)>>, t: Term, l: nat, n: int, i: int, j: int, i': int, j': int, m: Mem)
    requires InScope(statics, stores, t, l) && Uniform(t, m)
    ensures Val(t, n, i, j, m) == Val(t, n, i', j', m)
  {
    match t
    case Bin(_, x, y) =>
      ScopeConstant(statics, stores, x, l, n, i, j, i', j', m);
      ScopeConstant(statics, stores, y, l, n, i, j, i', j', m);
    case _ =>
  }

  /** The term has the value `z` throughout. */
  ghost predicate AlwaysIs(t: Term, n: int, m: Mem, z: int) { forall i: int, j: int :: Val(t, n, i, j, m) == z }

  lemma {:induction false} ConstantInner(q: Nest, n: int, i: int, lo: int, k: nat, m: Mem, z: int)
    requires AlwaysIs(q.term, n, m, z)
    ensures InnerSum(q, n, i, lo, k, m) == k * z
  {
    hide Val;
    if k > 0 {
      ConstantInner(q, n, i, lo, k - 1, m, z);
      Times1(k - 1, z);
    }
  }

  /** Inner iterations, and what the multiples count, in the first `k` outer iterations. */
  function TripSum(q: Nest, n: int, k: nat): nat { if k == 0 then 0 else TripSum(q, n, k - 1) + Trips(q, n, k - 1) }
  function MultSum(mu: Mult, n: int, k: nat): int { if k == 0 then 0 else MultSum(mu, n, k - 1) + MVal(mu, n, k - 1) }

  lemma {:induction false} ConstantTotals(q: Nest, mu: Mult, n: int, k: nat, m: Mem, z: int)
    requires AlwaysIs(q.term, n, m, z)
    ensures Summed(q, n, k, m) == TripSum(q, n, k) * z && Multiplied(q, mu, n, k, m) == MultSum(mu, n, k) * z
  {
    hide Val, MVal, Trips, BVal, InnerSum;
    if k > 0 {
      ConstantTotals(q, mu, n, k - 1, m, z);
      ConstantInner(q, n, k - 1, BVal(q.init, n, k - 1), Trips(q, n, k - 1), m, z);
      TimesSum(TripSum(q, n, k - 1), Trips(q, n, k - 1), z);
      TimesSum(MultSum(mu, n, k - 1), MVal(mu, n, k - 1), z);
    }
  }

  lemma TimesSum(a: int, b: int, z: int)
    ensures (a + b) * z == a * z + b * z
  {
  }

  lemma {:induction false} ConstantVisits(q: Nest, n: int, k: nat, x: int, m: Mem, z: int)
    requires AlwaysIs(q.term, n, m, z)
    ensures ColSum(q, n, k, x, m) == Visits(q, n, k, x) * z
  {
    hide Val, BVal, ExitOf;
    if k > 0 {
      ConstantVisits(q, n, k - 1, x, m, z);
      Times1(Visits(q, n, k - 1, x), z);
    }
  }

  /** The multiple counts the updates: of each row, of each column, of the scalar. */
  ghost predicate MultipleCounts(q: Nest, mu: Mult, n: nat) {
    match q.idx
    case OuterIdx => forall i: nat | i < n :: Trips(q, n, i) == MVal(mu, n, i)
    case InnerIdx => forall x: int :: Visits(q, n, n, x) == if 0 <= x < n then MVal(mu, n, x) else 0
    case Const(_) => TripSum(q, n, n) == MultSum(mu, n, n)
  }

  lemma SameTimes(a: int, b: int, z: int)
    ensures a * z == b * z <==> z == 0 || a == b
  {
    if a * z == b * z && z != 0 { Cancel(a, b, z); }
  }

  lemma ConstantExact(q: Nest, mu: Mult, n: nat, m: Mem, z: int)
    requires Separate(q) && AlwaysIs(q.term, n, m, z)
    ensures SameResult(q, mu, n, m) <==> z == 0 || MultipleCounts(q, mu, n)
  {
    hide SameResult, Separate, InnerSum, ColSum, Summed, Multiplied, TripSum, MultSum, Val, MVal, Trips, Visits, BVal, RowTotal;
    match q.idx
    case OuterIdx =>
      RowExact(q, mu, n, m);
      forall i: nat ensures RowTotal(q, n, i, m) == MVal(mu, n, i) * Val(q.term, n, i, i, m) <==> z == 0 || Trips(q, n, i) == MVal(mu, n, i) {
        RowConstant(q, mu, n, i, m, z);
      }
    case InnerIdx =>
      ColumnExact(q, mu, n, m);
      forall x: int ensures ColSum(q, n, n, x, m) == ColMultiple(q, mu, n, x, m) <==> z == 0 || Visits(q, n, n, x) == if 0 <= x < n then MVal(mu, n, x) else 0 {
        ConstantVisits(q, n, n, x, m, z);
        SameTimes(Visits(q, n, n, x), if 0 <= x < n then MVal(mu, n, x) else 0, z);
      }
    case Const(_) =>
      ScalarExact(q, mu, n, m);
      ConstantTotals(q, mu, n, n, m, z);
      SameTimes(TripSum(q, n, n), MultSum(mu, n, n), z);
  }

  lemma RowConstant(q: Nest, mu: Mult, n: int, i: int, m: Mem, z: int)
    requires AlwaysIs(q.term, n, m, z)
    ensures RowTotal(q, n, i, m) == MVal(mu, n, i) * Val(q.term, n, i, i, m) <==> z == 0 || Trips(q, n, i) == MVal(mu, n, i)
  {
    hide Val, MVal, Trips, BVal, InnerSum;
    ConstantInner(q, n, i, BVal(q.init, n, i), Trips(q, n, i), m, z);
    SameTimes(Trips(q, n, i), MVal(mu, n, i), z);
  }

  /** WHAT ACCEPTANCE IS WORTH: on memories whose arrays are constant, an accepted nest over a term in scope is
      eliminated rightly if and only if its term is zero or the multiple counts its updates, for any memory alike. */
  lemma InScopeExact(statics: set<nat>, stores: seq<seq<(nat, Term)>>, l: nat, q: Nest, mu: Mult, n: nat, m: Mem)
    requires Separate(q) && InScope(statics, stores, q.term, l) && Uniform(q.term, m)
    ensures SameResult(q, mu, n, m) <==> Val(q.term, n, 0, 0, m) == 0 || MultipleCounts(q, mu, n)
  {
    hide Val, SameResult, Separate, InScope, Uniform, MultipleCounts;
    forall i: int, j: int ensures Val(q.term, n, i, j, m) == Val(q.term, n, 0, 0, m) { ScopeConstant(statics, stores, q.term, l, n, i, j, 0, 0, m); }
    ConstantExact(q, mu, n, m, Val(q.term, n, 0, 0, m));
  }

  // ----- rejected, and rightly so -----

  /** for i in 0..N { for j in 0..N { a[i] += j } } and { a[j] += i }. */
  const INNER_COUNTER := Nest(0, OuterIdx, Add, InnerCtr, BNum(0), BSize, true, None)
  const OUTER_COLUMN := Nest(0, InnerIdx, Add, OuterCtr, BNum(0), BSize, true, None)

  /** The sum of 0..k-1. */
  function Counters(k: nat): nat { if k == 0 then 0 else Counters(k - 1) + (k - 1) }

  lemma {:induction false} CountersGrow(k: nat)
    ensures Counters(k) == 0 <==> k <= 1
  {
    if k > 1 {
      CountersGrow(k - 1);
    } else if k == 1 {
      assert Counters(1) == Counters(0) + 0;
    }
  }

  lemma {:induction false} InnerCounters(n: int, i: int, k: nat, m: Mem)
    ensures InnerSum(INNER_COUNTER, n, i, 0, k, m) == Counters(k)
  {
    if k > 0 { InnerCounters(n, i, k - 1, m); }
  }

  lemma {:induction false} OuterCounters(n: nat, k: nat, x: int, m: Mem)
    ensures ColSum(OUTER_COLUMN, n, k, x, m) == if 0 <= x < n then Counters(k) else 0
  {
    if k > 0 { OuterCounters(n, k - 1, x, m); }
  }

  /** Rows of inner counters are rejected; their multiple would be right up to size 1 only. */
  lemma RejectedInnerCounter(statics: set<nat>, stores: seq<seq<(nat, Term)>>, l: nat, n: nat, m: Mem)
    ensures !Accepted(statics, stores, l, INNER_COUNTER)
    ensures SameResult(INNER_COUNTER, Bounded(BSize), n, m) <==> n <= 1
  {
    hide SameResult, Separate, InnerSum;
    var q, mu := INNER_COUNTER, Bounded(BSize);
    assert Separate(q) by { CountersSeparate(); }
    RowExact(q, mu, n, m);
    CountersGrow(n);
    forall i: nat ensures RowTotal(q, n, i, m) == Counters(n) && MVal(mu, n, i) * Val(q.term, n, i, i, m) == n * i { InnerCounters(n, i, n, m); }
    if n > 0 {
      assert RowTotal(q, n, 0, m) == Counters(n) && n * 0 == 0;
      if n == 1 {
        forall i: nat | i < n ensures RowTotal(q, n, i, m) == MVal(mu, n, i) * Val(q.term, n, i, i, m) { assert i == 0; }
      }
    }
  }

  lemma CountersSeparate()
    ensures Separate(INNER_COUNTER) && Separate(OUTER_COLUMN)
  {
  }

  /** And so are columns of outer counters. */
  lemma RejectedOuterColumn(statics: set<nat>, stores: seq<seq<(nat, Term)>>, l: nat, n: nat, m: Mem)
    requires OUTER_COLUMN.v !in statics
    ensures !Accepted(statics, stores, l, OUTER_COLUMN)
    ensures SameResult(OUTER_COLUMN, Bounded(BSize), n, m) <==> n <= 1
  {
    hide SameResult, Separate, ColSum;
    var q, mu := OUTER_COLUMN, Bounded(BSize);
    assert Separate(q) by { CountersSeparate(); }
    ColumnExact(q, mu, n, m);
    CountersGrow(n);
    forall x: int ensures ColSum(q, n, n, x, m) == (if 0 <= x < n then Counters(n) else 0) && ColMultiple(q, mu, n, x, m) == if 0 <= x < n then n * x else 0 {
      OuterCounters(n, n, x, m);
    }
    if n > 1 { assert ColSum(q, n, n, 0, m) != ColMultiple(q, mu, n, 0, m); }
  }

  // ----- the multiples of other column ranges -----

  /** for i in 0..N { for j in c..N { a[j] += 1 } } and for j in i..i+1. */
  function LateColumn(c: int): Nest { Nest(0, InnerIdx, Add, Num(1), BNum(c), BSize, true, None) }
  const UNIT_COLUMN := Nest(0, InnerIdx, Add, Num(1), BOuter, BPlus(BOuter, 1), true, None)

  lemma {:induction false} LateVisits(c: int, n: nat, k: nat, x: int)
    ensures Visits(LateColumn(c), n, k, x) == if c <= x < n then k else 0
  {
    if k > 0 {
      LateVisits(c, n, k - 1, x);
      assert BVal(BNum(c), n, k - 1) == c && BVal(BSize, n, k - 1) == n;
    }
  }

  lemma {:induction false} UnitVisits(n: int, k: nat, x: int)
    ensures Visits(UNIT_COLUMN, n, k, x) == if 0 <= x < k then 1 else 0
  {
    if k > 0 {
      UnitVisits(n, k - 1, x);
      RangeBounds(n, k - 1);
    }
  }

  /** A column that starts at c > 0 is visited N times from c on, but every cell gets the multiple N - c. */
  lemma AcceptedLateColumn(c: int, n: nat, m: Mem)
    requires c > 0
    ensures Accepted({}, [], 0, LateColumn(c))
    ensures SameResult(LateColumn(c), MultOf({}, LateColumn(c)), n, m) <==> n == 0 || n == c
  {
    hide SameResult, Visits, ColumnCounts;
    var q, mu := LateColumn(c), MultOf({}, LateColumn(c));
    assert mu == Diff(BSize, BNum(c));
    ColumnCounted(q, mu, n, m);
    forall x: int ensures ColumnCounts(q, mu, n, x, m) <==> (0 <= x < n ==> (if c <= x then n == n - c else n == c)) { LateCounts(c, n, x, m); }
    if n > 0 && n != c { assert !ColumnCounts(q, mu, n, 0, m); }
  }

  lemma LateCounts(c: int, n: nat, x: int, m: Mem)
    requires c > 0
    ensures ColumnCounts(LateColumn(c), Diff(BSize, BNum(c)), n, x, m) <==> (0 <= x < n ==> if c <= x then n == n - c else n == c)
  {
    LateVisits(c, n, n, x);
    assert BVal(BNum(c), n, x) == c && BVal(BSize, n, x) == n;
  }

  /** A column that visits only the outer counter's cell gets the counter as multiple. */
  lemma AcceptedUnitColumn(n: nat, m: Mem)
    ensures Accepted({}, [], 0, UNIT_COLUMN)
    ensures SameResult(UNIT_COLUMN, MultOf({}, UNIT_COLUMN), n, m) <==> n == 0
  {
    hide SameResult, Visits;
    var q, mu := UNIT_COLUMN, MultOf({}, UNIT_COLUMN);
    assert mu == Bounded(BOuter);
    ColumnCounted(q, mu, n, m);
    forall x: int ensures Visits(q, n, n, x) == if 0 <= x < n then 1 else 0 { UnitVisits(n, n, x); }
    if n > 0 { assert !ColumnCounts(q, mu, n, 0, m); }
  }
}
