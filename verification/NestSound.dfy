/** Nested-loop elimination: what both loops compute, exactly when they agree, and the shapes for which they do. */
module NestSound {
  import opened NestSpec

  // ----- terms do not see the updated variable -----

  predicate Reads(t: Term, v: nat) {
    match t
    case Load(u, _) => u == v
    case Bin(_, l, r) => Reads(l, v) || Reads(r, v)
    case _ => false
  }

  /** Memories that differ in `v` only. */
  ghost predicate SameBut(v: nat, m: Mem, r: Mem) { forall u: nat, k: int | u != v :: m(u, k) == r(u, k) }

  lemma {:induction false} ValSame(t: Term, v: nat, n: int, i: int, j: int, m: Mem, r: Mem)
    requires !Reads(t, v) && SameBut(v, m, r)
    ensures Val(t, n, i, j, m) == Val(t, n, i, j, r)
  {
    match t
    case Bin(_, l, r') => ValSame(l, v, n, i, j, m, r); ValSame(r', v, n, i, j, m, r);
    case _ =>
  }

  /** Cloning reads every counter as the outer one. */
  lemma {:induction false} CloneVal(t: Term, n: int, i: int, m: Mem)
    ensures Val(Clone(t), n, i, i, m) == Val(t, n, i, i, m)
  {
    match t
    case Bin(_, l, r) => CloneVal(l, n, i, m); CloneVal(r, n, i, m);
    case _ =>
  }

  function Sign(op: Op): int { if op.Add? then 1 else -1 }

  function LastVal(q: Nest, n: int, i: int, m: Mem): int {
    if q.last.None? then 0 else Sign(q.last.value.0) * Val(q.last.value.1, n, i, i, m)
  }

  /** A nest whose terms do not read the variable it updates. */
  predicate Separate(q: Nest) { !Reads(q.term, q.v) && (q.last.Some? ==> !Reads(q.last.value.1, q.v)) }

  // ----- what one iteration adds to a cell -----

  function InnerSum(q: Nest, n: int, i: int, lo: int, k: nat, m: Mem): int {
    if k == 0 then 0 else InnerSum(q, n, i, lo, k - 1, m) + Val(q.term, n, i, lo + k - 1, m)
  }

  /** What the first `k` inner iterations of outer iteration `i` add to cell `x`, before the sign. */
  function InnerGain(q: Nest, n: int, i: int, lo: int, k: nat, x: int, m: Mem): int {
    if q.idx.InnerIdx? then (if lo <= x < lo + k then Val(q.term, n, i, x, m) else 0)
    else if x == CellOf(q.idx, i, 0) then InnerSum(q, n, i, lo, k, m) else 0
  }

  lemma {:induction false} InnerAt(q: Nest, n: int, i: int, lo: int, k: nat, m: Mem)
    requires Separate(q)
    ensures SameBut(q.v, m, Inner(q, n, i, lo, k, m))
    ensures forall x: int :: Inner(q, n, i, lo, k, m)(q.v, x) == m(q.v, x) + Sign(q.op) * InnerGain(q, n, i, lo, k, x, m)
  {
    if k > 0 {
      InnerAt(q, n, i, lo, k - 1, m);
      ValSame(q.term, q.v, n, i, lo + k - 1, m, Inner(q, n, i, lo, k - 1, m));
    }
  }

  /** What outer iteration `i` adds to cell `x`. */
  function Gain(q: Nest, n: int, i: int, x: int, m: Mem): int {
    Sign(q.op) * InnerGain(q, n, i, BVal(q.init, n, i), Trips(q, n, i), x, m) + if x == OwnCell(q, i) then LastVal(q, n, i, m) else 0
  }

  function SingleGain(q: Nest, mu: Mult, n: int, i: int, x: int, m: Mem): int {
    if x == OwnCell(q, i) then Sign(q.op) * (MVal(mu, n, i) * Val(q.term, n, i, i, m)) + LastVal(q, n, i, m) else 0
  }

  function GainSum(q: Nest, n: int, k: nat, x: int, m: Mem): int {
    if k == 0 then 0 else GainSum(q, n, k - 1, x, m) + Gain(q, n, k - 1, x, m)
  }

  function SingleSum(q: Nest, mu: Mult, n: int, k: nat, x: int, m: Mem): int {
    if k == 0 then 0 else SingleSum(q, mu, n, k - 1, x, m) + SingleGain(q, mu, n, k - 1, x, m)
  }

  lemma {:induction false} GainSame(q: Nest, n: int, i: int, lo: int, k: nat, x: int, m: Mem, r: Mem)
    requires Separate(q) && SameBut(q.v, m, r)
    ensures InnerGain(q, n, i, lo, k, x, m) == InnerGain(q, n, i, lo, k, x, r) && InnerSum(q, n, i, lo, k, m) == InnerSum(q, n, i, lo, k, r)
  {
    ValSame(q.term, q.v, n, i, x, m, r);
    if k > 0 {
      GainSame(q, n, i, lo, k - 1, x, m, r);
      ValSame(q.term, q.v, n, i, lo + k - 1, m, r);
    }
  }

  lemma LastAt(q: Nest, n: int, i: int, m: Mem)
    requires Separate(q)
    ensures SameBut(q.v, m, Last(q, n, i, m))
    ensures forall x: int :: Last(q, n, i, m)(q.v, x) == m(q.v, x) + if x == OwnCell(q, i) then LastVal(q, n, i, m) else 0
  {
  }

  lemma LastSame(q: Nest, n: int, i: int, m: Mem, r: Mem)
    requires Separate(q) && SameBut(q.v, m, r)
    ensures LastVal(q, n, i, m) == LastVal(q, n, i, r)
  {
    if q.last.Some? { ValSame(q.last.value.1, q.v, n, i, i, m, r); }
  }

  lemma BodyAt(q: Nest, n: int, i: int, m: Mem, x: int)
    requires Separate(q)
    ensures SameBut(q.v, m, OuterBody(q, n, i, m)) && OuterBody(q, n, i, m)(q.v, x) == m(q.v, x) + Gain(q, n, i, x, m)
  {
    hide Inner, Last, InnerGain, LastVal;
    var r := Inner(q, n, i, BVal(q.init, n, i), Trips(q, n, i), m);
    InnerAt(q, n, i, BVal(q.init, n, i), Trips(q, n, i), m);
    LastAt(q, n, i, r);
    LastSame(q, n, i, m, r);
  }

  /** The nested loop, cell by cell. */
  lemma {:induction false} NestedAt(q: Nest, n: int, k: nat, m: Mem, x: int)
    requires Separate(q)
    ensures SameBut(q.v, m, Nested(q, n, k, m)) && Nested(q, n, k, m)(q.v, x) == m(q.v, x) + GainSum(q, n, k, x, m)
  {
    hide OuterBody, InnerGain, LastVal, Separate;
    if k > 0 {
      var r := Nested(q, n, k - 1, m);
      NestedAt(q, n, k - 1, m, x);
      BodyAt(q, n, k - 1, r, x);
      GainSame(q, n, k - 1, BVal(q.init, n, k - 1), Trips(q, n, k - 1), x, m, r);
      LastSame(q, n, k - 1, m, r);
    }
  }

  lemma SingleBodyAt(q: Nest, mu: Mult, n: int, i: int, m: Mem, x: int)
    requires Separate(q)
    ensures SameBut(q.v, m, SingleBody(q, mu, n, i, m)) && SingleBody(q, mu, n, i, m)(q.v, x) == m(q.v, x) + SingleGain(q, mu, n, i, x, m)
  {
    hide MVal, Val, Clone;
    CloneVal(q.term, n, i, m);
    if q.last.Some? { CloneVal(q.last.value.1, n, i, m); }
  }

  /** The single loop, cell by cell. */
  lemma {:induction false} SingleAt(q: Nest, mu: Mult, n: int, k: nat, m: Mem, x: int)
    requires Separate(q)
    ensures SameBut(q.v, m, Single(q, mu, n, k, m)) && Single(q, mu, n, k, m)(q.v, x) == m(q.v, x) + SingleSum(q, mu, n, k, x, m)
  {
    hide SingleBody, LastVal, MVal, Val;
    if k > 0 {
      var r := Single(q, mu, n, k - 1, m);
      SingleAt(q, mu, n, k - 1, m, x);
      SingleBodyAt(q, mu, n, k - 1, r, x);
      SeparateTerm(q, n, k - 1, m, r);
      LastSame(q, n, k - 1, m, r);
    }
  }

  lemma SeparateTerm(q: Nest, n: int, i: int, m: Mem, r: Mem)
    requires Separate(q) && SameBut(q.v, m, r)
    ensures Val(q.term, n, i, i, m) == Val(q.term, n, i, i, r)
  {
    ValSame(q.term, q.v, n, i, i, m, r);
  }

  // ----- exactly when the loops agree -----

  ghost predicate SameResult(q: Nest, mu: Mult, n: nat, m: Mem) {
    forall u: nat, x: int :: Nested(q, n, n, m)(u, x) == Single(q, mu, n, n, m)(u, x)
  }

  lemma SameResultMeans(q: Nest, mu: Mult, n: nat, m: Mem)
    requires Separate(q)
    ensures SameResult(q, mu, n, m) <==> forall x: int :: GainSum(q, n, n, x, m) == SingleSum(q, mu, n, n, x, m)
  {
    hide Nested, Single, GainSum, SingleSum, Separate;
    forall x: int
      ensures Nested(q, n, n, m)(q.v, x) == m(q.v, x) + GainSum(q, n, n, x, m) && Single(q, mu, n, n, m)(q.v, x) == m(q.v, x) + SingleSum(q, mu, n, n, x, m)
      ensures SameBut(q.v, m, Nested(q, n, n, m)) && SameBut(q.v, m, Single(q, mu, n, n, m))
    {
      NestedAt(q, n, n, m, x);
      SingleAt(q, mu, n, n, m, x);
    }
    if forall x: int :: GainSum(q, n, n, x, m) == SingleSum(q, mu, n, n, x, m) {
      forall u: nat, x: int ensures Nested(q, n, n, m)(u, x) == Single(q, mu, n, n, m)(u, x) {
        NestedAt(q, n, n, m, x);
        SingleAt(q, mu, n, n, m, x);
        if u == q.v { assert GainSum(q, n, n, x, m) == SingleSum(q, mu, n, n, x, m); }
      }
    } else {
      var x: int :| GainSum(q, n, n, x, m) != SingleSum(q, mu, n, n, x, m);
      NestedAt(q, n, n, m, x);
      SingleAt(q, mu, n, n, m, x);
      assert Nested(q, n, n, m)(q.v, x) != Single(q, mu, n, n, m)(q.v, x);
    }
  }

  lemma SameAt(q: Nest, mu: Mult, n: nat, m: Mem, x: int)
    requires Separate(q) && SameResult(q, mu, n, m)
    ensures GainSum(q, n, n, x, m) == SingleSum(q, mu, n, n, x, m)
  {
    hide Nested, Single, GainSum, SingleSum, Separate;
    NestedAt(q, n, n, m, x);
    SingleAt(q, mu, n, n, m, x);
    assert Nested(q, n, n, m)(q.v, x) == Single(q, mu, n, n, m)(q.v, x);
  }

  /** A term that never looks at the inner counter. */
  predicate InnerFree(t: Term) {
    match t
    case InnerCtr => false
    case Load(_, idx) => !idx.InnerIdx?
    case Bin(_, l, r) => InnerFree(l) && InnerFree(r)
    case _ => true
  }

  predicate OuterFree(t: Term) {
    match t
    case OuterCtr => false
    case Load(_, idx) => !idx.OuterIdx?
    case Bin(_, l, r) => OuterFree(l) && OuterFree(r)
    case _ => true
  }

  lemma {:induction false} InnerFreeVal(t: Term, n: int, i: int, j: int, j': int, m: Mem)
    requires InnerFree(t)
    ensures Val(t, n, i, j, m) == Val(t, n, i, j', m)
  {
    match t
    case Bin(_, l, r) => InnerFreeVal(l, n, i, j, j', m); InnerFreeVal(r, n, i, j, j', m);
    case _ =>
  }

  lemma {:induction false} OuterFreeVal(t: Term, n: int, i: int, i': int, j: int, m: Mem)
    requires OuterFree(t)
    ensures Val(t, n, i, j, m) == Val(t, n, i', j, m)
  {
    match t
    case Bin(_, l, r) => OuterFreeVal(l, n, i, i', j, m); OuterFreeVal(r, n, i, i', j, m);
    case _ =>
  }

  lemma {:induction false} RowSum(q: Nest, n: int, i: int, lo: int, k: nat, m: Mem)
    requires InnerFree(q.term)
    ensures InnerSum(q, n, i, lo, k, m) == k * Val(q.term, n, i, i, m)
  {
    if k > 0 {
      RowSum(q, n, i, lo, k - 1, m);
      InnerFreeVal(q.term, n, i, lo + k - 1, i, m);
      Times1(k - 1, Val(q.term, n, i, i, m));
    }
  }

  lemma Times1(k: int, z: int)
    ensures (k + 1) * z == k * z + z
  {
  }

  // ----- rows -----

  /** Row updates touch each cell in one outer iteration only. */
  lemma {:induction false} RowGains(q: Nest, mu: Mult, n: int, k: nat, x: int, m: Mem)
    requires q.idx.OuterIdx?
    ensures GainSum(q, n, k, x, m) == if 0 <= x < k then Gain(q, n, x, x, m) else 0
    ensures SingleSum(q, mu, n, k, x, m) == if 0 <= x < k then SingleGain(q, mu, n, x, x, m) else 0
  {
    hide InnerSum, LastVal, MVal, Val;
    if k > 0 { RowGains(q, mu, n, k - 1, x, m); }
  }

  /** The multiple is right in iteration `i`, or does not matter. */
  ghost predicate Counts(q: Nest, mu: Mult, n: int, i: int, m: Mem) {
    Val(q.term, n, i, i, m) == 0 || MVal(mu, n, i) == Trips(q, n, i)
  }

  lemma CountsMeans(q: Nest, mu: Mult, n: int, i: int, m: Mem)
    ensures Counts(q, mu, n, i, m) <==> Trips(q, n, i) * Val(q.term, n, i, i, m) == MVal(mu, n, i) * Val(q.term, n, i, i, m)
  {
    hide Val, MVal, Trips;
    var z, a, b := Val(q.term, n, i, i, m), Trips(q, n, i), MVal(mu, n, i);
    if a * z == b * z && z != 0 { Cancel(a, b, z); }
  }

  lemma Cancel(a: int, b: int, z: int)
    requires a * z == b * z && z != 0
    ensures a == b
  {
    assert (a - b) * z == 0;
  }

  /** What the inner loop of outer iteration `i` sums up, before the sign. */
  function RowTotal(q: Nest, n: int, i: int, m: Mem): int { InnerSum(q, n, i, BVal(q.init, n, i), Trips(q, n, i), m) }

  /** ROW ELIMINATION, exactly: the loops agree if and only if in every iteration the inner loop's sum is the multiple
      of the one term the single loop evaluates. */
  lemma RowExact(q: Nest, mu: Mult, n: nat, m: Mem)
    requires Separate(q) && q.idx.OuterIdx?
    ensures SameResult(q, mu, n, m) <==> forall i: nat | i < n :: RowTotal(q, n, i, m) == MVal(mu, n, i) * Val(q.term, n, i, i, m)
  {
    hide SameResult, GainSum, SingleSum, InnerSum, Val, MVal, Trips, BVal, Separate, LastVal;
    SameResultMeans(q, mu, n, m);
    forall x: int
      ensures (GainSum(q, n, n, x, m) == SingleSum(q, mu, n, n, x, m)) <==> (0 <= x < n ==> RowTotal(q, n, x, m) == MVal(mu, n, x) * Val(q.term, n, x, x, m))
    {
      RowGains(q, mu, n, n, x, m);
    }
    if forall i: nat | i < n :: RowTotal(q, n, i, m) == MVal(mu, n, i) * Val(q.term, n, i, i, m) {
      forall x: int ensures GainSum(q, n, n, x, m) == SingleSum(q, mu, n, n, x, m) {}
    } else {
      var i: nat :| i < n && RowTotal(q, n, i, m) != MVal(mu, n, i) * Val(q.term, n, i, i, m);
      if SameResult(q, mu, n, m) { SameAt(q, mu, n, m, i); }
    }
  }

  /** For a term that does not look at the inner counter: in every iteration the term is zero or the multiple is the
      number of inner iterations, which is zero and never negative when the inner range is empty. */
  lemma RowCounts(q: Nest, mu: Mult, n: nat, m: Mem)
    requires Separate(q) && q.idx.OuterIdx? && InnerFree(q.term)
    ensures SameResult(q, mu, n, m) <==> forall i: nat | i < n :: Counts(q, mu, n, i, m)
  {
    hide SameResult, Counts, InnerSum, Val, MVal, Trips, BVal, Separate, InnerFree;
    RowExact(q, mu, n, m);
    forall i: nat ensures Counts(q, mu, n, i, m) <==> RowTotal(q, n, i, m) == MVal(mu, n, i) * Val(q.term, n, i, i, m) {
      RowSum(q, n, i, BVal(q.init, n, i), Trips(q, n, i), m);
      CountsMeans(q, mu, n, i, m);
    }
  }

  // ----- scalars -----

  /** Both loops' contributions to the scalar so far, without the trailing updates. */
  function Summed(q: Nest, n: int, k: nat, m: Mem): int {
    if k == 0 then 0 else Summed(q, n, k - 1, m) + RowTotal(q, n, k - 1, m)
  }

  function Multiplied(q: Nest, mu: Mult, n: int, k: nat, m: Mem): int {
    if k == 0 then 0 else Multiplied(q, mu, n, k - 1, m) + MVal(mu, n, k - 1) * Val(q.term, n, k - 1, k - 1, m)
  }

  function Lasts(q: Nest, n: int, k: nat, m: Mem): int {
    if k == 0 then 0 else Lasts(q, n, k - 1, m) + LastVal(q, n, k - 1, m)
  }

  lemma {:induction false} ScalarGains(q: Nest, mu: Mult, n: int, k: nat, x: int, m: Mem)
    requires q.idx.Const?
    ensures GainSum(q, n, k, x, m) == if x == q.idx.c then Sign(q.op) * Summed(q, n, k, m) + Lasts(q, n, k, m) else 0
    ensures SingleSum(q, mu, n, k, x, m) == if x == q.idx.c then Sign(q.op) * Multiplied(q, mu, n, k, m) + Lasts(q, n, k, m) else 0
  {
    hide InnerSum, LastVal, MVal, Val, Trips;
    if k > 0 { ScalarGains(q, mu, n, k - 1, x, m); }
  }

  /** SCALAR ELIMINATION, exactly: all inner sums together are all multiples together. */
  lemma ScalarExact(q: Nest, mu: Mult, n: nat, m: Mem)
    requires Separate(q) && q.idx.Const?
    ensures SameResult(q, mu, n, m) <==> Summed(q, n, n, m) == Multiplied(q, mu, n, n, m)
  {
    hide SameResult, GainSum, SingleSum, Summed, Multiplied, Lasts, Separate;
    SameResultMeans(q, mu, n, m);
    forall x: int
      ensures GainSum(q, n, n, x, m) == SingleSum(q, mu, n, n, x, m) <==> (x == q.idx.c ==> Summed(q, n, n, m) == Multiplied(q, mu, n, n, m))
    {
      ScalarGains(q, mu, n, n, x, m);
    }
    if Summed(q, n, n, m) == Multiplied(q, mu, n, n, m) {
      forall x: int ensures GainSum(q, n, n, x, m) == SingleSum(q, mu, n, n, x, m) {}
    } else {
      assert GainSum(q, n, n, q.idx.c, m) != SingleSum(q, mu, n, n, q.idx.c, m);
    }
  }

  /** A multiple that counts in every iteration makes the two totals equal. */
  lemma {:induction false} AllCount(q: Nest, mu: Mult, n: int, k: nat, m: Mem)
    requires InnerFree(q.term) && forall i: nat | i < k :: Counts(q, mu, n, i, m)
    ensures Summed(q, n, k, m) == Multiplied(q, mu, n, k, m)
  {
    hide Counts, Val, MVal, Trips, InnerSum, BVal, InnerFree;
    if k > 0 {
      AllCount(q, mu, n, k - 1, m);
      RowSum(q, n, k - 1, BVal(q.init, n, k - 1), Trips(q, n, k - 1), m);
      CountsMeans(q, mu, n, k - 1, m);
    }
  }

  /** For rows and scalars the pass's multiple is the trip count exactly when the inner range is not inverted and a
      constant start is not negative. */
  lemma RowMultiple(statics: set<nat>, q: Nest, n: int, i: int)
    requires !IsColumn(statics, q)
    ensures MVal(MultOf(statics, q), n, i) == Trips(q, n, i) <==>
            BVal(ExitOf(q), n, i) >= BVal(q.init, n, i) && (q.init.BNum? ==> q.init.c >= 0)
  {
  }

  // ----- columns -----

  /** Outer iterations among the first `k` whose inner loop visits cell `x`. */
  function Visits(q: Nest, n: int, k: nat, x: int): nat {
    if k == 0 then 0
    else Visits(q, n, k - 1, x) + if BVal(q.init, n, k - 1) <= x < BVal(ExitOf(q), n, k - 1) then 1 else 0
  }

  /** What the first `k` outer iterations add to cell `x`, before the sign: the term of each iteration that visits it. */
  function ColSum(q: Nest, n: int, k: nat, x: int, m: Mem): int {
    if k == 0 then 0
    else ColSum(q, n, k - 1, x, m) + if BVal(q.init, n, k - 1) <= x < BVal(ExitOf(q), n, k - 1) then Val(q.term, n, k - 1, x, m) else 0
  }

  lemma ColumnGain(q: Nest, n: int, i: int, x: int, m: Mem)
    requires q.idx.InnerIdx?
    ensures Gain(q, n, i, x, m) ==
            Sign(q.op) * (if BVal(q.init, n, i) <= x < BVal(ExitOf(q), n, i) then Val(q.term, n, i, x, m) else 0) + if x == i then LastVal(q, n, i, m) else 0
  {
    hide LastVal, Val, BVal, InnerSum, ExitOf;
  }

  lemma {:induction false} ColumnGains(q: Nest, mu: Mult, n: int, k: nat, x: int, m: Mem)
    requires q.idx.InnerIdx?
    ensures GainSum(q, n, k, x, m) == Sign(q.op) * ColSum(q, n, k, x, m) + if 0 <= x < k then LastVal(q, n, x, m) else 0
    ensures SingleSum(q, mu, n, k, x, m) == if 0 <= x < k then SingleGain(q, mu, n, x, x, m) else 0
  {
    hide LastVal, MVal, Val, BVal, Gain, ExitOf;
    if k > 0 {
      ColumnGains(q, mu, n, k - 1, x, m);
      ColumnGain(q, n, k - 1, x, m);
    }
  }

  /** What the single loop adds to cell `x`, before the sign. */
  function ColMultiple(q: Nest, mu: Mult, n: nat, x: int, m: Mem): int {
    if 0 <= x < n then MVal(mu, n, x) * Val(q.term, n, x, x, m) else 0
  }

  /** COLUMN ELIMINATION, exactly: the loops agree if and only if in each cell the terms of the visiting iterations
      add up to the multiple of the one term the single loop evaluates; cells outside get nothing. */
  lemma ColumnExact(q: Nest, mu: Mult, n: nat, m: Mem)
    requires Separate(q) && q.idx.InnerIdx?
    ensures SameResult(q, mu, n, m) <==> forall x: int :: ColSum(q, n, n, x, m) == ColMultiple(q, mu, n, x, m)
  {
    hide SameResult, GainSum, SingleSum, Val, MVal, ColSum, Separate, LastVal;
    SameResultMeans(q, mu, n, m);
    forall x: int
      ensures (GainSum(q, n, n, x, m) == SingleSum(q, mu, n, n, x, m)) <==> ColSum(q, n, n, x, m) == ColMultiple(q, mu, n, x, m)
    {
      ColumnGains(q, mu, n, n, x, m);
    }
    if forall x: int :: ColSum(q, n, n, x, m) == ColMultiple(q, mu, n, x, m) {
      forall x: int ensures GainSum(q, n, n, x, m) == SingleSum(q, mu, n, n, x, m) { assert ColSum(q, n, n, x, m) == ColMultiple(q, mu, n, x, m); }
    } else {
      var x: int :| ColSum(q, n, n, x, m) != ColMultiple(q, mu, n, x, m);
      if SameResult(q, mu, n, m) { SameAt(q, mu, n, m, x); }
    }
  }

  /** A term that does not look at the outer counter is added once per visit. */
  lemma {:induction false} VisitSum(q: Nest, n: int, k: nat, x: int, m: Mem)
    requires OuterFree(q.term)
    ensures ColSum(q, n, k, x, m) == Visits(q, n, k, x) * Val(q.term, n, x, x, m)
  {
    hide Val, BVal, OuterFree, ExitOf;
    if k > 0 {
      VisitSum(q, n, k - 1, x, m);
      OuterFreeVal(q.term, n, k - 1, x, x, m);
      Times1(Visits(q, n, k - 1, x), Val(q.term, n, x, x, m));
    }
  }

  /** The multiple of cell `x` is the number of visits, or its term is zero; cells outside are not visited. */
  ghost predicate ColumnCounts(q: Nest, mu: Mult, n: nat, x: int, m: Mem) {
    Val(q.term, n, x, x, m) == 0 || Visits(q, n, n, x) == if 0 <= x < n then MVal(mu, n, x) else 0
  }

  lemma ColumnCountsMeans(q: Nest, mu: Mult, n: nat, x: int, m: Mem)
    ensures ColumnCounts(q, mu, n, x, m) <==>
            Visits(q, n, n, x) * Val(q.term, n, x, x, m) == (if 0 <= x < n then MVal(mu, n, x) * Val(q.term, n, x, x, m) else 0)
  {
    hide Val, MVal, Visits;
    var z, a, b := Val(q.term, n, x, x, m), Visits(q, n, n, x), if 0 <= x < n then MVal(mu, n, x) else 0;
    assert (if 0 <= x < n then MVal(mu, n, x) * z else 0) == b * z;
    if a * z == b * z && z != 0 { Cancel(a, b, z); }
  }

  /** For such a term: each cell's multiple is the number of outer iterations that visit it, or its term is zero. */
  lemma ColumnCounted(q: Nest, mu: Mult, n: nat, m: Mem)
    requires Separate(q) && q.idx.InnerIdx? && OuterFree(q.term)
    ensures SameResult(q, mu, n, m) <==> forall x: int :: ColumnCounts(q, mu, n, x, m)
  {
    hide SameResult, Val, MVal, Visits, ColSum, Separate, OuterFree, ColumnCounts;
    ColumnExact(q, mu, n, m);
    forall x: int ensures ColumnCounts(q, mu, n, x, m) <==> ColSum(q, n, n, x, m) == ColMultiple(q, mu, n, x, m) {
      VisitSum(q, n, n, x, m);
      ColumnCountsMeans(q, mu, n, x, m);
    }
  }

  /** The three column ranges of the benchmarks: [0, N), [i, N) and [0, i+1). */
  predicate GoodRange(q: Nest) {
    || (q.init == BNum(0) && ExitOf(q) == BSize)
    || (q.init == BOuter && ExitOf(q) == BSize)
    || (q.init == BNum(0) && ExitOf(q) == BPlus(BOuter, 1))
  }

  lemma RangeBounds(n: int, i: int)
    ensures BVal(BNum(0), n, i) == 0 && BVal(BOuter, n, i) == i && BVal(BSize, n, i) == n && BVal(BPlus(BOuter, 1), n, i) == i + 1
  {
    assert BVal(BOuter, n, i) == i;
  }

  lemma {:induction false} RangeVisits(q: Nest, n: nat, k: nat, x: int)
    requires GoodRange(q) && k <= n
    ensures Visits(q, n, k, x) ==
            if !(0 <= x < n) then 0
            else if q.init == BNum(0) && ExitOf(q) == BSize then k
            else if q.init == BOuter then (if x < k then x + 1 else k)
            else (if x < k then k - x else 0)
  {
    if k > 0 {
      RangeBounds(n, k - 1);
      RangeVisits(q, n, k - 1, x);
    }
  }

  /** COLUMN ELIMINATION is right on these ranges, for any initial array: multiplicities N, i+1 and N-i. */
  lemma ColumnElimination(statics: set<nat>, q: Nest, n: nat, m: Mem)
    requires IsColumn(statics, q) && Separate(q) && OuterFree(q.term) && GoodRange(q)
    ensures SameResult(q, MultOf(statics, q), n, m)
    ensures forall x: int | 0 <= x < n :: MVal(MultOf(statics, q), n, x) ==
              if q.init == BOuter then x + 1 else if ExitOf(q) == BSize then n as int else n - x
  {
    hide SameResult, Separate, OuterFree, Visits;
    forall x: int ensures BVal(ExitOf(q), n, x) == if ExitOf(q) == BSize then n as int else x + 1 { RangeBounds(n, x); }
    forall x: int ensures ColumnCounts(q, MultOf(statics, q), n, x, m) {
      RangeVisits(q, n, n, x);
    }
    ColumnCounted(q, MultOf(statics, q), n, m);
  }

  /** ROW AND SCALAR ELIMINATION is right whenever no inner range is inverted and a constant start is not negative,
      empty inner loops included. */
  lemma RowElimination(statics: set<nat>, q: Nest, n: nat, m: Mem)
    requires !IsColumn(statics, q) && !q.idx.InnerIdx? && Separate(q) && InnerFree(q.term) && (q.init.BNum? ==> q.init.c >= 0)
    requires forall i: nat | i < n :: BVal(ExitOf(q), n, i) >= BVal(q.init, n, i)
    ensures SameResult(q, MultOf(statics, q), n, m)
  {
    hide SameResult, Separate, InnerFree;
    var mu := MultOf(statics, q);
    forall i: nat | i < n ensures Counts(q, mu, n, i, m) { RowMultiple(statics, q, n, i); }
    if q.idx.OuterIdx? {
      RowCounts(q, mu, n, m);
    } else {
      AllCount(q, mu, n, n, m);
      ScalarExact(q, mu, n, m);
    }
  }

  // ----- accepted and wrong -----

  /** for i in 0..N { for j in 2..i { a[i] += 1 } }: an inverted range subtracts. */
  const INVERTED := Nest(0, OuterIdx, Add, Num(1), BNum(2), BOuter, true, None)

  /** for i in 0..N { for j in 0..i { a[j] += 1 } }: the column multiple is one too large. */
  const STRICT_COLUMN := Nest(0, InnerIdx, Add, Num(1), BNum(0), BOuter, true, None)

  /** for i in 0..N { for j in 0..N { a[j] += c[i] } }: the clone reads `c` at the wrong counter. */
  const OUTER_TERM := Nest(0, InnerIdx, Add, Load(1, OuterIdx), BNum(0), BSize, true, None)

  lemma AcceptedInverted(n: nat, m: Mem)
    ensures Accepted({}, [], 0, INVERTED)
    ensures SameResult(INVERTED, MultOf({}, INVERTED), n, m) <==> n == 0
  {
    var q := INVERTED;
    RowCounts(q, MultOf({}, q), n, m);
    if n > 0 { assert !Counts(q, MultOf({}, q), n, 0, m); }
  }

  lemma AcceptedStrictColumn(n: nat, m: Mem)
    ensures Accepted({}, [], 0, STRICT_COLUMN)
    ensures SameResult(STRICT_COLUMN, MultOf({}, STRICT_COLUMN), n, m) <==> n == 0
  {
    var q := STRICT_COLUMN;
    ColumnCounted(q, MultOf({}, q), n, m);
    forall x: int ensures Visits(q, n, n, x) == if 0 <= x < n then n - 1 - x else 0 { StrictVisits(n, n, x); }
    if n > 0 { assert !ColumnCounts(q, MultOf({}, q), n, 0, m); }
  }

  lemma {:induction false} StrictVisits(n: int, k: nat, x: int)
    ensures Visits(STRICT_COLUMN, n, k, x) == if 0 <= x < k then k - 1 - x else 0
  {
    if k > 0 { StrictVisits(n, k - 1, x); }
  }

  /** The sum of `c[0..n-1]`. */
  function SumOf(m: Mem, c: nat, n: nat): int { if n == 0 then 0 else SumOf(m, c, n - 1) + m(c, n - 1) }

  /** Every cell gets the sum of `c` over the outer loop, but the single loop adds `N * c[i]` to cell `i`: right at
      size n if and only if `n * c[x]` is the sum of `c`, whichever x. */
  lemma AcceptedOuterTerm(n: nat, m: Mem)
    ensures Accepted({}, [], 0, OUTER_TERM)
    ensures SameResult(OUTER_TERM, MultOf({}, OUTER_TERM), n, m) <==> forall x: nat | x < n :: n * m(1, x) == SumOf(m, 1, n)
  {
    var q, mu := OUTER_TERM, MultOf({}, OUTER_TERM);
    hide SameResult, ColSum, Separate;
    assert Separate(q) by { OuterTermSeparate(); }
    ColumnExact(q, mu, n, m);
    forall x: int ensures ColSum(q, n, n, x, m) == if 0 <= x < n then SumOf(m, 1, n) else 0 { OuterTermSum(n, n, x, m); }
    if SameResult(q, mu, n, m) {
      forall x: nat | x < n ensures n * m(1, x) == SumOf(m, 1, n) { assert ColSum(q, n, n, x, m) == ColMultiple(q, mu, n, x, m); }
    }
  }

  lemma OuterTermSeparate()
    ensures Separate(OUTER_TERM) && Separate(INNER_TERM)
  {
  }

  lemma {:induction false} OuterTermSum(n: nat, k: nat, x: int, m: Mem)
    ensures ColSum(OUTER_TERM, n, k, x, m) == if 0 <= x < n then SumOf(m, 1, k) else 0
  {
    if k > 0 { OuterTermSum(n, k - 1, x, m); }
  }

  /** for i in 0..N { for j in 0..N { a[i] += c[j] } }: the clone reads `c` at the outer counter. */
  const INNER_TERM := Nest(0, OuterIdx, Add, Load(1, InnerIdx), BNum(0), BSize, true, None)

  /** The row analogue, under the same condition. */
  lemma AcceptedInnerTerm(n: nat, m: Mem)
    ensures Accepted({}, [], 0, INNER_TERM)
    ensures SameResult(INNER_TERM, MultOf({}, INNER_TERM), n, m) <==> forall x: nat | x < n :: n * m(1, x) == SumOf(m, 1, n)
  {
    var q := INNER_TERM;
    hide SameResult, InnerSum, Separate;
    OuterTermSeparate();
    RowExact(q, MultOf({}, q), n, m);
    var mu := MultOf({}, q);
    forall i: nat ensures RowTotal(q, n, i, m) == SumOf(m, 1, n) && MVal(mu, n, i) * Val(q.term, n, i, i, m) == n * m(1, i) {
      InnerTermSum(n, i, n, m);
    }
    if forall x: nat | x < n :: n * m(1, x) == SumOf(m, 1, n) {
      forall i: nat | i < n ensures RowTotal(q, n, i, m) == MVal(mu, n, i) * Val(q.term, n, i, i, m) {}
    } else {
      var x: nat :| x < n && n * m(1, x) != SumOf(m, 1, n);
      assert RowTotal(q, n, x, m) != MVal(mu, n, x) * Val(q.term, n, x, x, m);
    }
  }

  lemma {:induction false} InnerTermSum(n: nat, i: int, k: nat, m: Mem)
    ensures InnerSum(INNER_TERM, n, i, 0, k, m) == SumOf(m, 1, k)
  {
    if k > 0 { InnerTermSum(n, i, k - 1, m); }
  }
}
