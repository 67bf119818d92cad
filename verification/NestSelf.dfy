/** Nested-loop elimination where the term reads the cell it updates: the tool rejects only terms that are such a load,
    so a larger expression with one in it is accepted. */
module NestSelf {
  import opened NestSpec
  import opened NestSound

  /** How a term reads the updated variable: only at index `own`. */
  predicate OwnOnly(t: Term, v: nat, own: Index) {
    match t
    case Load(u, idx) => u == v ==> idx == own
    case Bin(_, l, r) => OwnOnly(l, v, own) && OwnOnly(r, v, own)
    case _ => true
  }

  /** The trailing update does not read the updated variable. */
  predicate PlainLast(q: Nest) { q.last.Some? ==> !Reads(q.last.value.1, q.v) }

  lemma {:induction false} OwnVal(t: Term, v: nat, own: Index, n: int, i: int, j: int, m: Mem, r: Mem)
    requires OwnOnly(t, v, own) && SameBut(v, m, r) && m(v, CellOf(own, i, j)) == r(v, CellOf(own, i, j))
    ensures Val(t, n, i, j, m) == Val(t, n, i, j, r)
  {
    match t
    case Bin(_, x, y) => OwnVal(x, v, own, n, i, j, m, r); OwnVal(y, v, own, n, i, j, m, r);
    case _ =>
  }

  lemma PlainSame(q: Nest, n: int, i: int, m: Mem, r: Mem)
    requires PlainLast(q) && SameBut(q.v, m, r)
    ensures LastVal(q, n, i, m) == LastVal(q, n, i, r)
  {
    if q.last.Some? { ValSame(q.last.value.1, q.v, n, i, i, m, r); }
  }

  /** One update, at counters `i` and `j`, of a cell holding `x`. */
  function Update(q: Nest, n: int, i: int, j: int, x: int, m: Mem): int {
    Up(q.op, x, Val(q.term, n, i, j, Put(m, q.v, CellOf(q.idx, i, j), x)))
  }

  lemma UpdateSame(q: Nest, n: int, i: int, j: int, x: int, m: Mem, r: Mem)
    requires OwnOnly(q.term, q.v, q.idx) && SameBut(q.v, m, r)
    ensures Update(q, n, i, j, x, m) == Update(q, n, i, j, x, r)
    ensures r(q.v, CellOf(q.idx, i, j)) == x ==> Update(q, n, i, j, x, m) == Up(q.op, x, Val(q.term, n, i, j, r))
  {
    var c := CellOf(q.idx, i, j);
    OwnVal(q.term, q.v, q.idx, n, i, j, Put(m, q.v, c, x), Put(r, q.v, c, x));
    if r(q.v, c) == x { OwnVal(q.term, q.v, q.idx, n, i, j, Put(m, q.v, c, x), r); }
  }

  /** The single loop's one update of its cell, from `x`, and the trailing one. */
  function Once(q: Nest, mu: Mult, n: int, i: int, x: int, m: Mem): int {
    Up(q.op, x, MVal(mu, n, i) * Val(q.term, n, i, i, Put(m, q.v, OwnCell(q, i), x))) + LastVal(q, n, i, m)
  }

  lemma SingleBodyUpdates(q: Nest, mu: Mult, n: int, i: int, m: Mem, r: Mem)
    requires OwnOnly(q.term, q.v, q.idx) && PlainLast(q) && SameBut(q.v, m, r)
    ensures SameBut(q.v, m, SingleBody(q, mu, n, i, r))
    ensures forall x: int :: SingleBody(q, mu, n, i, r)(q.v, x) == if x == OwnCell(q, i) then Once(q, mu, n, i, r(q.v, x), m) else r(q.v, x)
  {
    hide Val, OwnOnly, MVal, Clone, LastVal, Up, Reads;
    var c := OwnCell(q, i);
    assert c == CellOf(q.idx, i, i);
    CloneVal(q.term, n, i, r);
    OwnVal(q.term, q.v, q.idx, n, i, i, r, Put(m, q.v, c, r(q.v, c)));
    PlainSame(q, n, i, m, r);
    SingleLast(q, n, i, Up(q.op, r(q.v, c), MVal(mu, n, i) * Val(Clone(q.term), n, i, i, r)), r);
  }

  lemma SingleLast(q: Nest, n: int, i: int, x: int, m: Mem)
    ensures (if q.last.Some? then Up(q.last.value.0, x, Val(Clone(q.last.value.1), n, i, i, m)) else x) == x + LastVal(q, n, i, m)
  {
    if q.last.Some? {
      CloneVal(q.last.value.1, n, i, m);
      UpAdds(q.last.value.0, x, Val(q.last.value.1, n, i, i, m));
    }
  }

  lemma UpAdds(op: Op, x: int, y: int)
    ensures Up(op, x, y) == x + Sign(op) * y
  {
  }

  lemma LastAdds(q: Nest, n: int, i: int, m: Mem, r: Mem)
    requires PlainLast(q) && SameBut(q.v, m, r)
    ensures SameBut(q.v, m, Last(q, n, i, r))
    ensures forall x: int :: Last(q, n, i, r)(q.v, x) == r(q.v, x) + if x == OwnCell(q, i) then LastVal(q, n, i, m) else 0
  {
    PlainSame(q, n, i, m, r);
  }

  /** Rows and columns: the single loop updates each cell once. */
  lemma {:induction false} SingleUpdates(q: Nest, mu: Mult, n: int, k: nat, m: Mem)
    requires OwnOnly(q.term, q.v, q.idx) && PlainLast(q) && !q.idx.Const?
    ensures var r := Single(q, mu, n, k, m);
            SameBut(q.v, m, r) && forall x: int :: r(q.v, x) == if 0 <= x < k then Once(q, mu, n, x, m(q.v, x), m) else m(q.v, x)
  {
    hide SingleBody, Once, OwnOnly;
    if k > 0 {
      SingleUpdates(q, mu, n, k - 1, m);
      SingleBodyUpdates(q, mu, n, k - 1, m, Single(q, mu, n, k - 1, m));
    }
  }

  // ----- rows and scalars: one cell per outer iteration -----

  /** `k` updates of a cell, from counter `lo`: each reads what the previous one stored. */
  function Rerun(q: Nest, n: int, i: int, lo: int, k: nat, x: int, m: Mem): int {
    if k == 0 then x else Update(q, n, i, lo + k - 1, Rerun(q, n, i, lo, k - 1, x, m), m)
  }

  lemma {:induction false} InnerReruns(q: Nest, n: int, i: int, lo: int, k: nat, m: Mem, r: Mem)
    requires OwnOnly(q.term, q.v, q.idx) && !q.idx.InnerIdx? && SameBut(q.v, m, r)
    ensures var s := Inner(q, n, i, lo, k, r); var c := CellOf(q.idx, i, 0);
            SameBut(q.v, m, s) && forall x: int :: s(q.v, x) == if x == c then Rerun(q, n, i, lo, k, r(q.v, c), m) else r(q.v, x)
  {
    hide Val, OwnOnly, Update;
    if k > 0 {
      InnerReruns(q, n, i, lo, k - 1, m, r);
      var b, j := Inner(q, n, i, lo, k - 1, r), lo + k - 1;
      assert CellOf(q.idx, i, j) == CellOf(q.idx, i, 0);
      UpdateSame(q, n, i, j, b(q.v, CellOf(q.idx, i, 0)), m, b);
    }
  }

  /** What outer iteration `i` makes of its cell. */
  function RowRun(q: Nest, n: int, i: int, x: int, m: Mem): int {
    Rerun(q, n, i, BVal(q.init, n, i), Trips(q, n, i), x, m) + LastVal(q, n, i, m)
  }

  lemma BodyReruns(q: Nest, n: int, i: int, m: Mem, r: Mem)
    requires OwnOnly(q.term, q.v, q.idx) && !q.idx.InnerIdx? && PlainLast(q) && SameBut(q.v, m, r)
    ensures SameBut(q.v, m, OuterBody(q, n, i, r))
    ensures forall x: int :: OuterBody(q, n, i, r)(q.v, x) == if x == OwnCell(q, i) then RowRun(q, n, i, r(q.v, x), m) else r(q.v, x)
  {
    hide Inner, Last, Rerun, OwnOnly, LastVal;
    var s := Inner(q, n, i, BVal(q.init, n, i), Trips(q, n, i), r);
    InnerReruns(q, n, i, BVal(q.init, n, i), Trips(q, n, i), m, r);
    LastAdds(q, n, i, m, s);
  }

  lemma {:induction false} NestedReruns(q: Nest, n: int, k: nat, m: Mem)
    requires OwnOnly(q.term, q.v, q.idx) && q.idx.OuterIdx? && PlainLast(q)
    ensures var r := Nested(q, n, k, m);
            SameBut(q.v, m, r) && forall x: int :: r(q.v, x) == if 0 <= x < k then RowRun(q, n, x, m(q.v, x), m) else m(q.v, x)
  {
    hide OuterBody, RowRun, OwnOnly;
    if k > 0 {
      NestedReruns(q, n, k - 1, m);
      BodyReruns(q, n, k - 1, m, Nested(q, n, k - 1, m));
    }
  }

  /** SELF-READING ROWS: in every row as many updates as the inner loop has iterations give what one update by the
      multiple gives. */
  lemma SelfRowExact(q: Nest, mu: Mult, n: nat, m: Mem)
    requires OwnOnly(q.term, q.v, q.idx) && q.idx.OuterIdx? && PlainLast(q)
    ensures SameResult(q, mu, n, m) <==> forall i: nat | i < n :: RowRun(q, n, i, m(q.v, i), m) == Once(q, mu, n, i, m(q.v, i), m)
  {
    hide Nested, Single, RowRun, Once, OwnOnly;
    NestedReruns(q, n, n, m);
    SingleUpdates(q, mu, n, n, m);
    if SameResult(q, mu, n, m) {
      forall i: nat | i < n ensures RowRun(q, n, i, m(q.v, i), m) == Once(q, mu, n, i, m(q.v, i), m) {
        assert Nested(q, n, n, m)(q.v, i) == Single(q, mu, n, n, m)(q.v, i);
      }
    }
  }

  // ----- terms linear in their own cell -----

  /** The factor with which a term depends on the updated variable, if it is a constant. */
  function Coef(t: Term, v: nat): Option<int> {
    match t
    case Load(u, _) => Some(if u == v then 1 else 0)
    case Bin(op, l, r) =>
      if !Reads(l, v) && !Reads(r, v) then Some(0)
      else if op.Times? then
        if l.Num? && Coef(r, v).Some? then Some(l.c * Coef(r, v).value)
        else if r.Num? && Coef(l, v).Some? then Some(r.c * Coef(l, v).value) else None
      else if Coef(l, v).Some? && Coef(r, v).Some? then Some(ApplyBin(op, Coef(l, v).value, Coef(r, v).value)) else None
    case _ => Some(0)
  }

  lemma MulApart(c: int, x: int, y: int, e: int, d: int)
    requires x == y + e * d
    ensures c * x == c * y + (c * e) * d
  {
    assert c * (y + e * d) == c * y + c * (e * d);
    assert c * (e * d) == (c * e) * d;
  }

  lemma SumApart(op: BinOp, x: int, y: int, e: int, x': int, y': int, e': int, d: int)
    requires !op.Times? && x == y + e * d && x' == y' + e' * d
    ensures ApplyBin(op, x, x') == ApplyBin(op, y, y') + ApplyBin(op, e, e') * d
  {
    assert (e + e') * d == e * d + e' * d && (e - e') * d == e * d - e' * d;
  }

  /** Raising the cell by `d` raises the term by `Coef * d`. */
  lemma {:induction false} CoefMeans(t: Term, v: nat, own: Index, n: int, i: int, j: int, x: int, d: int, m: Mem)
    requires OwnOnly(t, v, own) && Coef(t, v).Some?
    ensures var k := CellOf(own, i, j);
            Val(t, n, i, j, Put(m, v, k, x + d)) == Val(t, n, i, j, Put(m, v, k, x)) + Coef(t, v).value * d
  {
    hide ApplyBin, Reads;
    var k := CellOf(own, i, j);
    var a, b := Put(m, v, k, x + d), Put(m, v, k, x);
    match t
    case Bin(op, l, r) =>
      if !Reads(l, v) && !Reads(r, v) {
        ValSame(l, v, n, i, j, a, b);
        ValSame(r, v, n, i, j, a, b);
      } else if op.Times? {
        var scaled := if l.Num? && Coef(r, v).Some? then r else l;
        CoefMeans(scaled, v, own, n, i, j, x, d, m);
        ScaledApart(t, v, n, i, j, d, a, b);
      } else {
        CoefMeans(l, v, own, n, i, j, x, d, m);
        CoefMeans(r, v, own, n, i, j, x, d, m);
        SumApart(op, Val(l, n, i, j, a), Val(l, n, i, j, b), Coef(l, v).value, Val(r, n, i, j, a), Val(r, n, i, j, b), Coef(r, v).value, d);
      }
    case _ =>
  }

  lemma ScaledApart(t: Term, v: nat, n: int, i: int, j: int, d: int, a: Mem, b: Mem)
    requires t.Bin? && t.op.Times? && (Reads(t.l, v) || Reads(t.r, v)) && Coef(t, v).Some?
    requires var u := if t.l.Num? && Coef(t.r, v).Some? then t.r else t.l;
             Coef(u, v).Some? ==> Val(u, n, i, j, a) == Val(u, n, i, j, b) + Coef(u, v).value * d
    ensures Val(t, n, i, j, a) == Val(t, n, i, j, b) + Coef(t, v).value * d
  {
    hide Reads, Coef;
    CoefTimes(t, v);
    var left := t.l.Num? && Coef(t.r, v).Some?;
    var u, c := if left then t.r else t.l, if left then t.l.c else t.r.c;
    MulApart(c, Val(u, n, i, j, a), Val(u, n, i, j, b), Coef(u, v).value, d);
    ProductIs(t, n, i, j, a);
    ProductIs(t, n, i, j, b);
    assert left ==> Val(t.l, n, i, j, a) == c == Val(t.l, n, i, j, b);
    assert !left ==> Val(t.r, n, i, j, a) == c == Val(t.r, n, i, j, b);
  }

  lemma CoefTimes(t: Term, v: nat)
    requires t.Bin? && t.op.Times? && (Reads(t.l, v) || Reads(t.r, v)) && Coef(t, v).Some?
    ensures if t.l.Num? && Coef(t.r, v).Some? then Coef(t, v).value == t.l.c * Coef(t.r, v).value
            else t.r.Num? && Coef(t.l, v).Some? && Coef(t, v).value == t.r.c * Coef(t.l, v).value
  {
  }

  lemma ProductIs(t: Term, n: int, i: int, j: int, m: Mem)
    requires t.Bin? && t.op.Times?
    ensures Val(t, n, i, j, m) == Val(t.l, n, i, j, m) * Val(t.r, n, i, j, m) == Val(t.r, n, i, j, m) * Val(t.l, n, i, j, m)
  {
  }

  /** 1 + b + ... + b^(k-1). */
  function Geo(b: int, k: nat): int { if k == 0 then 0 else 1 + b * Geo(b, k - 1) }

  function Base(q: Nest): int
    requires Coef(q.term, q.v).Some?
  {
    1 + Sign(q.op) * Coef(q.term, q.v).value
  }

  /** A cell that holds `x` and has moved by `d` from where the term was worth `z`: the next move. */
  lemma UpdateMoves(q: Nest, n: int, i: int, j: int, x: int, d: int, m: Mem)
    requires OwnOnly(q.term, q.v, q.idx) && Coef(q.term, q.v).Some?
    ensures var z := Val(q.term, n, i, j, Put(m, q.v, CellOf(q.idx, i, j), x));
            Update(q, n, i, j, x + d, m) == x + Sign(q.op) * z + Base(q) * d
  {
    hide Val, OwnOnly, Coef, Up;
    CoefMeans(q.term, q.v, q.idx, n, i, j, x, d, m);
    var z, c := Val(q.term, n, i, j, Put(m, q.v, CellOf(q.idx, i, j), x)), Coef(q.term, q.v).value;
    UpAdds(q.op, x + d, z + c * d);
    SignedStep(Sign(q.op), c, d, z);
  }

  lemma SignedStep(s: int, c: int, d: int, z: int)
    ensures d + s * (z + c * d) == s * z + (1 + s * c) * d
  {
    assert s * (z + c * d) == s * z + s * (c * d);
    assert s * (c * d) == (s * c) * d;
  }

  lemma NextGeo(b: int, s: int, z: int, g: int)
    ensures s * z + b * (s * z * g) == s * z * (1 + b * g)
  {
    assert b * (s * z * g) == s * z * (b * g);
  }

  /** A term that does not look at the inner counter, linear in its own cell: `k` updates move by the geometric sum. */
  lemma {:induction false} RerunGeo(q: Nest, n: int, i: int, lo: int, k: nat, x: int, m: Mem)
    requires OwnOnly(q.term, q.v, q.idx) && !q.idx.InnerIdx? && InnerFree(q.term) && Coef(q.term, q.v).Some?
    ensures Rerun(q, n, i, lo, k, x, m) == x + Sign(q.op) * Val(q.term, n, i, i, Put(m, q.v, OwnCell(q, i), x)) * Geo(Base(q), k)
  {
    hide Val, Update, OwnOnly, InnerFree, Base, Coef;
    if k > 0 {
      RerunGeo(q, n, i, lo, k - 1, x, m);
      var z, s, g, j := Val(q.term, n, i, i, Put(m, q.v, OwnCell(q, i), x)), Sign(q.op), Geo(Base(q), k - 1), lo + k - 1;
      assert CellOf(q.idx, i, j) == OwnCell(q, i);
      InnerFreeVal(q.term, n, i, j, i, Put(m, q.v, OwnCell(q, i), x));
      UpdateMoves(q, n, i, j, x, s * z * g, m);
      NextGeo(Base(q), s, z, g);
    }
  }

  lemma FactorsAgree(s: int, z: int, a: int, b: int)
    requires s == 1 || s == -1
    ensures s * z * a == s * (b * z) <==> z == 0 || a == b
  {
    assert s * z * a == s * (z * a);
    assert b * z == z * b;
    if s * z * a == s * (b * z) && z != 0 { Cancel(a, b, z); }
  }

  /** SELF-READING LINEAR ROWS, exactly: in every row the term is zero, or the geometric sum of its factor over the inner
      iterations is the multiple. */
  lemma SelfLinearExact(q: Nest, mu: Mult, n: nat, m: Mem)
    requires OwnOnly(q.term, q.v, q.idx) && q.idx.OuterIdx? && PlainLast(q) && InnerFree(q.term) && Coef(q.term, q.v).Some?
    ensures SameResult(q, mu, n, m) <==>
            forall i: nat | i < n :: Val(q.term, n, i, i, m) == 0 || Geo(Base(q), Trips(q, n, i)) == MVal(mu, n, i)
  {
    hide SameResult, Rerun, OwnOnly, InnerFree, Coef, Base, Geo, Val, MVal, Trips, LastVal;
    SelfRowExact(q, mu, n, m);
    forall i: nat
      ensures RowRun(q, n, i, m(q.v, i), m) == Once(q, mu, n, i, m(q.v, i), m) <==> Val(q.term, n, i, i, m) == 0 || Geo(Base(q), Trips(q, n, i)) == MVal(mu, n, i)
    {
      RowFactor(q, mu, n, i, m(q.v, i), m);
      OwnVal(q.term, q.v, q.idx, n, i, i, Put(m, q.v, i, m(q.v, i)), m);
    }
  }

  /** One outer iteration and the single loop's, on the same value of the cell. */
  lemma RowFactor(q: Nest, mu: Mult, n: int, i: int, x: int, m: Mem)
    requires OwnOnly(q.term, q.v, q.idx) && !q.idx.InnerIdx? && InnerFree(q.term) && Coef(q.term, q.v).Some?
    ensures RowRun(q, n, i, x, m) == Once(q, mu, n, i, x, m) <==>
            Val(q.term, n, i, i, Put(m, q.v, OwnCell(q, i), x)) == 0 || Geo(Base(q), Trips(q, n, i)) == MVal(mu, n, i)
  {
    hide Rerun, OwnOnly, InnerFree, Coef, Base, Geo, Val, MVal, Trips, LastVal, BVal;
    RerunGeo(q, n, i, BVal(q.init, n, i), Trips(q, n, i), x, m);
    var z := Val(q.term, n, i, i, Put(m, q.v, OwnCell(q, i), x));
    FactorsAgree(Sign(q.op), z, Geo(Base(q), Trips(q, n, i)), MVal(mu, n, i));
    assert Up(q.op, x, MVal(mu, n, i) * z) == x + Sign(q.op) * (MVal(mu, n, i) * z);
  }

  // ----- scalars -----

  /** The scalar after `k` outer iterations. */
  function ScalarNest(q: Nest, n: int, k: nat, m: Mem): int
    requires q.idx.Const?
  {
    if k == 0 then m(q.v, q.idx.c) else RowRun(q, n, k - 1, ScalarNest(q, n, k - 1, m), m)
  }

  function ScalarOnce(q: Nest, mu: Mult, n: int, k: nat, m: Mem): int
    requires q.idx.Const?
  {
    if k == 0 then m(q.v, q.idx.c) else Once(q, mu, n, k - 1, ScalarOnce(q, mu, n, k - 1, m), m)
  }

  lemma {:induction false} ScalarRuns(q: Nest, mu: Mult, n: int, k: nat, m: Mem)
    requires OwnOnly(q.term, q.v, q.idx) && q.idx.Const? && PlainLast(q)
    ensures var r := Nested(q, n, k, m); SameBut(q.v, m, r) && forall x: int :: r(q.v, x) == if x == q.idx.c then ScalarNest(q, n, k, m) else m(q.v, x)
    ensures var r := Single(q, mu, n, k, m); SameBut(q.v, m, r) && forall x: int :: r(q.v, x) == if x == q.idx.c then ScalarOnce(q, mu, n, k, m) else m(q.v, x)
  {
    hide OuterBody, SingleBody, RowRun, Once, OwnOnly;
    if k > 0 {
      ScalarRuns(q, mu, n, k - 1, m);
      BodyReruns(q, n, k - 1, m, Nested(q, n, k - 1, m));
      SingleBodyUpdates(q, mu, n, k - 1, m, Single(q, mu, n, k - 1, m));
    }
  }

  /** SELF-READING SCALARS: the two chains of updates end in the same value. */
  lemma SelfScalarExact(q: Nest, mu: Mult, n: nat, m: Mem)
    requires OwnOnly(q.term, q.v, q.idx) && q.idx.Const? && PlainLast(q)
    ensures SameResult(q, mu, n, m) <==> ScalarNest(q, n, n, m) == ScalarOnce(q, mu, n, n, m)
  {
    hide Nested, Single, ScalarNest, ScalarOnce, OwnOnly;
    ScalarRuns(q, mu, n, n, m);
    if SameResult(q, mu, n, m) { assert Nested(q, n, n, m)(q.v, q.idx.c) == Single(q, mu, n, n, m)(q.v, q.idx.c); }
  }

  /** The factors with which outer iteration `i` and the single loop's multiply a value that differs by `d`. */
  function NestFactor(q: Nest, n: int, i: int): int
    requires Coef(q.term, q.v).Some?
  {
    1 + Sign(q.op) * Coef(q.term, q.v).value * Geo(Base(q), Trips(q, n, i))
  }

  /** The gap between the two chains, iteration by iteration: it is multiplied by the nest's factor, and grows by the term
      times what the geometric sum exceeds the multiple by. */
  function Gap(q: Nest, mu: Mult, n: int, k: nat, m: Mem): int
    requires q.idx.Const? && Coef(q.term, q.v).Some?
  {
    if k == 0 then 0
    else
      var z := Val(q.term, n, k - 1, k - 1, Put(m, q.v, q.idx.c, ScalarOnce(q, mu, n, k - 1, m)));
      NestFactor(q, n, k - 1) * Gap(q, mu, n, k - 1, m) + Sign(q.op) * z * (Geo(Base(q), Trips(q, n, k - 1)) - MVal(mu, n, k - 1))
  }

  lemma {:induction false} GapMeans(q: Nest, mu: Mult, n: int, k: nat, m: Mem)
    requires OwnOnly(q.term, q.v, q.idx) && q.idx.Const? && InnerFree(q.term) && Coef(q.term, q.v).Some?
    ensures ScalarNest(q, n, k, m) == ScalarOnce(q, mu, n, k, m) + Gap(q, mu, n, k, m)
  {
    hide RowRun, Once, OwnOnly, InnerFree, Coef, Base, Geo, Val, MVal, Trips, NestFactor;
    if k > 0 {
      GapMeans(q, mu, n, k - 1, m);
      OneGap(q, mu, n, k - 1, ScalarOnce(q, mu, n, k - 1, m), Gap(q, mu, n, k - 1, m), m);
    }
  }

  lemma OneGap(q: Nest, mu: Mult, n: int, i: int, x: int, d: int, m: Mem)
    requires OwnOnly(q.term, q.v, q.idx) && q.idx.Const? && InnerFree(q.term) && Coef(q.term, q.v).Some?
    ensures var z := Val(q.term, n, i, i, Put(m, q.v, q.idx.c, x));
            RowRun(q, n, i, x + d, m) ==
            Once(q, mu, n, i, x, m) + (NestFactor(q, n, i) * d + Sign(q.op) * z * (Geo(Base(q), Trips(q, n, i)) - MVal(mu, n, i)))
  {
    hide Rerun, OwnOnly, InnerFree, Coef, Base, Geo, Val, MVal, Trips, LastVal, BVal, Up, Sign;
    var g, c, s := Geo(Base(q), Trips(q, n, i)), Coef(q.term, q.v).value, Sign(q.op);
    var z := Val(q.term, n, i, i, Put(m, q.v, q.idx.c, x));
    RerunGeo(q, n, i, BVal(q.init, n, i), Trips(q, n, i), x + d, m);
    CoefMeans(q.term, q.v, q.idx, n, i, i, x, d, m);
    UpAdds(q.op, x, MVal(mu, n, i) * z);
    GapStep(x, d, s, z, c, g, MVal(mu, n, i));
  }

  lemma GapStep(x: int, d: int, s: int, z: int, c: int, g: int, mult: int)
    ensures x + d + s * (z + c * d) * g == (x + s * (mult * z)) + ((1 + s * c * g) * d + s * z * (g - mult))
  {
    var e := s * g;
    assert s * (z + c * d) * g == e * (z + c * d) == e * z + e * (c * d);
    assert (s * c * g) * d == e * (c * d);
    assert (1 + s * c * g) * d == d + (s * c * g) * d;
    assert s * z * (g - mult) == s * z * g - s * z * mult;
    assert s * z * g == e * z && s * z * mult == s * (mult * z);
  }

  /** SELF-READING LINEAR SCALARS, exactly: the gap closes; in particular when each multiple is the geometric sum. */
  lemma SelfLinearScalarExact(q: Nest, mu: Mult, n: nat, m: Mem)
    requires OwnOnly(q.term, q.v, q.idx) && q.idx.Const? && PlainLast(q) && InnerFree(q.term) && Coef(q.term, q.v).Some?
    ensures SameResult(q, mu, n, m) <==> Gap(q, mu, n, n, m) == 0
    ensures (forall i: nat | i < n :: Geo(Base(q), Trips(q, n, i)) == MVal(mu, n, i)) ==> SameResult(q, mu, n, m)
  {
    hide SameResult, OwnOnly, InnerFree, Coef, Gap, ScalarNest, ScalarOnce;
    SelfScalarExact(q, mu, n, m);
    GapMeans(q, mu, n, n, m);
    if forall i: nat | i < n :: Geo(Base(q), Trips(q, n, i)) == MVal(mu, n, i) { NoGap(q, mu, n, n, m); }
  }

  lemma {:induction false} NoGap(q: Nest, mu: Mult, n: int, k: nat, m: Mem)
    requires q.idx.Const? && Coef(q.term, q.v).Some? && forall i: nat | i < k :: Geo(Base(q), Trips(q, n, i)) == MVal(mu, n, i)
    ensures Gap(q, mu, n, k, m) == 0
  {
    hide Val, ScalarOnce, NestFactor, Geo, Base, MVal, Trips;
    if k > 0 { NoGap(q, mu, n, k - 1, m); }
  }

  // ----- columns -----

  predicate Visited(q: Nest, n: int, i: int, x: int) { BVal(q.init, n, i) <= x < BVal(ExitOf(q), n, i) }

  /** Cell `x` after `k` outer iterations: one update in each that visits it, and the trailing update in its own. */
  function Fold(q: Nest, n: int, k: nat, x: int, y: int, m: Mem): int {
    if k == 0 then y
    else
      var b := Fold(q, n, k - 1, x, y, m);
      (if Visited(q, n, k - 1, x) then Update(q, n, k - 1, x, b, m) else b) + if x == k - 1 then LastVal(q, n, x, m) else 0
  }

  lemma {:induction false} InnerVisits(q: Nest, n: int, i: int, lo: int, k: nat, m: Mem, r: Mem)
    requires OwnOnly(q.term, q.v, q.idx) && q.idx.InnerIdx? && SameBut(q.v, m, r)
    ensures var s := Inner(q, n, i, lo, k, r);
            SameBut(q.v, m, s) && forall x: int :: s(q.v, x) == if lo <= x < lo + k then Update(q, n, i, x, r(q.v, x), m) else r(q.v, x)
  {
    hide Val, OwnOnly, Update;
    if k > 0 {
      InnerVisits(q, n, i, lo, k - 1, m, r);
      var b, j := Inner(q, n, i, lo, k - 1, r), lo + k - 1;
      UpdateSame(q, n, i, j, b(q.v, j), m, b);
    }
  }

  lemma {:induction false} NestedFolds(q: Nest, n: int, k: nat, m: Mem)
    requires OwnOnly(q.term, q.v, q.idx) && q.idx.InnerIdx? && PlainLast(q)
    ensures var r := Nested(q, n, k, m); SameBut(q.v, m, r) && forall x: int :: r(q.v, x) == Fold(q, n, k, x, m(q.v, x), m)
  {
    hide Inner, Last, LastVal, Update, OwnOnly, BVal;
    if k > 0 {
      var r, i := Nested(q, n, k - 1, m), k - 1;
      NestedFolds(q, n, k - 1, m);
      InnerVisits(q, n, i, BVal(q.init, n, i), Trips(q, n, i), m, r);
      LastAdds(q, n, i, m, Inner(q, n, i, BVal(q.init, n, i), Trips(q, n, i), r));
    }
  }

  /** SELF-READING COLUMNS, exactly: one update per visiting iteration gives what the single update gives, or nothing
      outside 0..n-1. */
  lemma SelfColumnExact(q: Nest, mu: Mult, n: nat, m: Mem)
    requires OwnOnly(q.term, q.v, q.idx) && q.idx.InnerIdx? && PlainLast(q)
    ensures SameResult(q, mu, n, m) <==>
            forall x: int :: Fold(q, n, n, x, m(q.v, x), m) == if 0 <= x < n then Once(q, mu, n, x, m(q.v, x), m) else m(q.v, x)
  {
    hide Nested, Single, Fold, Once, OwnOnly;
    NestedFolds(q, n, n, m);
    SingleUpdates(q, mu, n, n, m);
    if SameResult(q, mu, n, m) {
      forall x: int ensures Fold(q, n, n, x, m(q.v, x), m) == if 0 <= x < n then Once(q, mu, n, x, m(q.v, x), m) else m(q.v, x) {
        assert Nested(q, n, n, m)(q.v, x) == Single(q, mu, n, n, m)(q.v, x);
      }
    }
  }

  /** A term that does not look at the outer counter, linear in its own cell: the visits make a geometric sum. */
  lemma {:induction false} FoldGeo(q: Nest, n: int, k: nat, x: int, y: int, m: Mem)
    requires OwnOnly(q.term, q.v, q.idx) && q.idx.InnerIdx? && OuterFree(q.term) && Coef(q.term, q.v).Some? && q.last.None?
    ensures Fold(q, n, k, x, y, m) == y + Sign(q.op) * Val(q.term, n, x, x, Put(m, q.v, x, y)) * Geo(Base(q), Visits(q, n, k, x))
  {
    hide Val, Update, OwnOnly, OuterFree, Base, Coef, BVal;
    if k > 0 {
      FoldGeo(q, n, k - 1, x, y, m);
      var z, s, g, i := Val(q.term, n, x, x, Put(m, q.v, x, y)), Sign(q.op), Geo(Base(q), Visits(q, n, k - 1, x)), k - 1;
      OuterFreeVal(q.term, n, i, x, x, Put(m, q.v, x, y));
      UpdateMoves(q, n, i, x, y, s * z * g, m);
      NextGeo(Base(q), s, z, g);
    }
  }

  /** SELF-READING LINEAR COLUMNS, exactly: in every cell the term is zero, or the geometric sum over its visits is the
      multiple. */
  lemma SelfLinearColumnExact(q: Nest, mu: Mult, n: nat, m: Mem)
    requires OwnOnly(q.term, q.v, q.idx) && q.idx.InnerIdx? && OuterFree(q.term) && Coef(q.term, q.v).Some? && q.last.None?
    ensures SameResult(q, mu, n, m) <==>
            forall x: int :: Val(q.term, n, x, x, m) == 0 || Geo(Base(q), Visits(q, n, n, x)) == if 0 <= x < n then MVal(mu, n, x) else 0
  {
    hide SameResult, Fold, OwnOnly, OuterFree, Coef, Base, Geo, Val, MVal, Visits;
    SelfColumnExact(q, mu, n, m);
    forall x: int
      ensures (Fold(q, n, n, x, m(q.v, x), m) == if 0 <= x < n then Once(q, mu, n, x, m(q.v, x), m) else m(q.v, x)) <==>
              Val(q.term, n, x, x, m) == 0 || Geo(Base(q), Visits(q, n, n, x)) == if 0 <= x < n then MVal(mu, n, x) else 0
    {
      FoldGeo(q, n, n, x, m(q.v, x), m);
      OwnVal(q.term, q.v, q.idx, n, x, x, Put(m, q.v, x, m(q.v, x)), m);
      var z, s := Val(q.term, n, x, x, m), Sign(q.op);
      FactorsAgree(s, z, Geo(Base(q), Visits(q, n, n, x)), if 0 <= x < n then MVal(mu, n, x) else 0);
      if 0 <= x < n { assert Up(q.op, m(q.v, x), MVal(mu, n, x) * z) == m(q.v, x) + s * (MVal(mu, n, x) * z); }
    }
  }

  // ----- doubling: accepted in all three shapes -----

  /** for i in 0..N { for j in 0..N { v[idx] += v[idx] + 1 } }. */
  function Doubling(idx: Index): Nest { Nest(0, idx, Add, Bin(Plus, Load(0, idx), Num(1)), BNum(0), BSize, true, None) }

  function Pow(b: int, k: nat): int { if k == 0 then 1 else b * Pow(b, k - 1) }

  lemma {:induction false} GeoOfTwo(k: nat)
    ensures Geo(2, k) == Pow(2, k) - 1 && Pow(2, k) >= k + 1 && (k >= 2 ==> Pow(2, k) > k + 1)
  {
    if k > 0 { GeoOfTwo(k - 1); }
  }

  lemma DoublingShape(idx: Index)
    ensures var q := Doubling(idx); OwnOnly(q.term, q.v, q.idx) && PlainLast(q) && Coef(q.term, q.v) == Some(1) && Base(q) == 2
    ensures idx.OuterIdx? || idx.Const? ==> InnerFree(Doubling(idx).term)
    ensures idx.InnerIdx? || idx.Const? ==> OuterFree(Doubling(idx).term)
    ensures forall n: int, i: int :: Trips(Doubling(idx), n, i) == if n < 0 then 0 else n
  {
    assert Coef(Load(0, idx), 0) == Some(1) && Coef(Num(1), 0) == Some(0);
  }

  lemma DoublingVal(idx: Index, n: int, i: int, j: int, m: Mem)
    ensures Val(Doubling(idx).term, n, i, j, m) == m(0, CellOf(idx, i, j)) + 1
  {
    assert Val(Load(0, idx), n, i, j, m) == m(0, CellOf(idx, i, j)) && Val(Num(1), n, i, j, m) == 1;
  }

  /** Rows: right exactly up to size 1 and on cells that hold -1. */
  lemma AcceptedDoublingRow(n: nat, m: Mem)
    ensures Accepted({}, [], 0, Doubling(OuterIdx))
    ensures SameResult(Doubling(OuterIdx), MultOf({}, Doubling(OuterIdx)), n, m) <==> n <= 1 || forall i: nat | i < n :: m(0, i) == -1
  {
    hide SameResult, OwnOnly, Coef, Geo, Pow, Base, InnerFree;
    var q, mu := Doubling(OuterIdx), MultOf({}, Doubling(OuterIdx));
    DoublingShape(OuterIdx);
    SelfLinearExact(q, mu, n, m);
    GeoOfTwo(n);
    SmallGeo();
    forall i: nat ensures (Val(q.term, n, i, i, m) == 0 || Geo(Base(q), Trips(q, n, i)) == MVal(mu, n, i)) <==> m(0, i) == -1 || n <= 1 {
      DoublingVal(OuterIdx, n, i, i, m);
    }
  }

  lemma SmallGeo()
    ensures Geo(2, 0) == 0 && Geo(2, 1) == 1
  {
    assert Geo(2, 0) == 0;
  }

  lemma {:induction false} DoublingVisits(n: nat, k: nat, x: int)
    ensures Visits(Doubling(InnerIdx), n, k, x) == if 0 <= x < n then k else 0
  {
    if k > 0 { DoublingVisits(n, k - 1, x); }
  }

  /** Columns: under the same condition. */
  lemma AcceptedDoublingColumn(n: nat, m: Mem)
    ensures Accepted({}, [], 0, Doubling(InnerIdx))
    ensures SameResult(Doubling(InnerIdx), MultOf({}, Doubling(InnerIdx)), n, m) <==> n <= 1 || forall i: nat | i < n :: m(0, i) == -1
  {
    hide SameResult, OwnOnly, Coef, Geo, Pow, Base, OuterFree, Visits;
    var q, mu := Doubling(InnerIdx), MultOf({}, Doubling(InnerIdx));
    DoublingShape(InnerIdx);
    SelfLinearColumnExact(q, mu, n, m);
    GeoOfTwo(n);
    SmallGeo();
    forall x: int
      ensures (Val(q.term, n, x, x, m) == 0 || Geo(Base(q), Visits(q, n, n, x)) == if 0 <= x < n then MVal(mu, n, x) else 0) <==>
              !(0 <= x < n) || m(0, x) == -1 || n <= 1
    {
      DoublingVal(InnerIdx, n, x, x, m);
      DoublingVisits(n, n, x);
    }
  }

  lemma {:induction false} PowAbove(a: int, b: int, k: nat)
    requires a > b >= 1
    ensures Pow(a, k) >= Pow(b, k) >= 1 && (k > 0 ==> Pow(a, k) > Pow(b, k))
  {
    if k > 0 {
      PowAbove(a, b, k - 1);
      ProductAbove(a, b, Pow(a, k - 1), Pow(b, k - 1));
    }
  }

  lemma ProductAbove(a: int, b: int, p: int, r: int)
    requires a > b >= 1 && p >= r >= 1
    ensures a * p > b * r >= 1
  {
    assert a * (p - r) >= 0;
    assert (a - b) * r > 0;
    assert (b - 1) * r >= 0;
    assert a * p - b * r == a * (p - r) + (a - b) * r;
  }

  lemma DoublingNest(n: nat, i: nat, a: int, m: Mem)
    ensures RowRun(Doubling(Const(0)), n, i, a, m) == a + (a + 1) * (Pow(2, n) - 1)
    ensures Once(Doubling(Const(0)), Bounded(BSize), n, i, a, m) == a + (a + 1) * n
  {
    hide OwnOnly, Coef, Geo, Base, Rerun, Val, InnerFree, Pow;
    DoublingShape(Const(0));
    GeoOfTwo(n);
    RerunGeo(Doubling(Const(0)), n, i, 0, n, a, m);
    DoublingVal(Const(0), n, i, i, Put(m, 0, 0, a));
  }

  /** The two chains of a scalar: multiplied by 2^n, and by n+1, in each outer iteration. */
  lemma {:induction false} DoublingChains(n: nat, k: nat, m: Mem)
    ensures ScalarNest(Doubling(Const(0)), n, k, m) == Pow(Pow(2, n), k) * (m(0, 0) + 1) - 1
    ensures ScalarOnce(Doubling(Const(0)), Bounded(BSize), n, k, m) == Pow(n + 1, k) * (m(0, 0) + 1) - 1
  {
    hide RowRun, Once;
    if k > 0 {
      var q, y := Doubling(Const(0)), m(0, 0) + 1;
      DoublingChains(n, k - 1, m);
      DoublingNest(n, k - 1, ScalarNest(q, n, k - 1, m), m);
      DoublingNest(n, k - 1, ScalarOnce(q, Bounded(BSize), n, k - 1, m), m);
      Folded(Pow(2, n), Pow(Pow(2, n), k - 1), y, ScalarNest(q, n, k - 1, m));
      Folded(n + 1, Pow(n + 1, k - 1), y, ScalarOnce(q, Bounded(BSize), n, k - 1, m));
    } else {
      assert 1 * (m(0, 0) + 1) - 1 == m(0, 0);
    }
  }

  lemma Folded(f: int, p: int, y: int, a: int)
    requires a == p * y - 1
    ensures a + (a + 1) * (f - 1) == f * p * y - 1
  {
    var w := p * y;
    assert w * (f - 1) == w * f - w;
    assert w * f == f * p * y;
  }

  /** Scalars: under the same condition. */
  lemma AcceptedDoublingScalar(n: nat, m: Mem)
    ensures Accepted({0}, [], 0, Doubling(Const(0)))
    ensures SameResult(Doubling(Const(0)), MultOf({0}, Doubling(Const(0))), n, m) <==> n <= 1 || m(0, 0) == -1
  {
    hide SameResult, OwnOnly, Coef, ScalarNest, ScalarOnce, Pow, Base;
    var q := Doubling(Const(0));
    assert Accepted({0}, [], 0, q) by { assert InScope({0}, [], Load(0, Const(0)), 0) && InScope({0}, [], Num(1), 0); }
    DoublingShape(Const(0));
    SelfScalarExact(q, MultOf({0}, q), n, m);
    DoublingChains(n, n, m);
    GeoOfTwo(n);
    ScalarPowers(n);
    var a, b, y := Pow(Pow(2, n), n), Pow(n + 1, n), m(0, 0) + 1;
    if a * y == b * y && y != 0 { Cancel(a, b, y); }
  }

  lemma ScalarPowers(n: nat)
    ensures Pow(Pow(2, n), n) == Pow(n + 1, n) <==> n <= 1
  {
    hide Pow;
    GeoOfTwo(n);
    if n >= 2 { PowAbove(Pow(2, n), n + 1, n); } else { FirstPowers(n); }
  }

  lemma FirstPowers(n: nat)
    requires n <= 1
    ensures Pow(Pow(2, n), n) == Pow(n + 1, n)
  {
    assert Pow(2, 0) == 1 && Pow(2, 1) == 2;
  }

  /** for i in 0..N { for j in 0..N { a[i] += a[i] } }: such a load alone is rejected, and its multiple would be right up
      to size 1 and on zero cells only. */
  const DOUBLED := Nest(0, OuterIdx, Add, Load(0, OuterIdx), BNum(0), BSize, true, None)

  lemma RejectedSelfLoad(statics: set<nat>, stores: seq<seq<(nat, Term)>>, l: nat, n: nat, m: Mem)
    ensures !Accepted(statics, stores, l, DOUBLED)
    ensures SameResult(DOUBLED, Bounded(BSize), n, m) <==> n <= 1 || forall i: nat | i < n :: m(0, i) == 0
  {
    hide SameResult, Geo, Pow;
    var q, mu := DOUBLED, Bounded(BSize);
    assert Coef(q.term, 0) == Some(1) && Base(q) == 2;
    SelfLinearExact(q, mu, n, m);
    GeoOfTwo(n);
    SmallGeo();
    forall i: nat ensures (Val(q.term, n, i, i, m) == 0 || Geo(Base(q), Trips(q, n, i)) == MVal(mu, n, i)) <==> m(0, i) == 0 || n <= 1 {
      assert Val(q.term, n, i, i, m) == m(0, i) && Trips(q, n, i) == n;
    }
  }
}
