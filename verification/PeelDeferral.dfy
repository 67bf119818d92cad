/** Moving the peeled last iterations of all loops behind the loops, with later loads of peeled scalars replaced by
    what the peel stores. */
module PeelDeferral {
  import opened SsaSpec

  // ----- the two programs -----

  /** Loops of one store each, in order; `statics` are the scalars. */
  datatype Loops = Loops(statics: set<nat>, stores: seq<Stmt>)

  /** Each loop runs all its `n` iterations, the last one being its peel, before the next loop starts. */
  function InPlace(p: Loops, j: nat, n: nat, m: Mem): Mem
    requires j <= |p.stores|
  {
    if j == 0 then m else Iterate([p.stores[j - 1]], n, InPlace(p, j - 1, n, m))
  }

  /** The expression at the last counter value: the form it has in the peel. */
  function AtLast(e: Expr, n: int): Expr {
    match e
    case Lit(_) => e
    case Ctr => Lit(n - 1)
    case Read(v, idx) => Read(v, Fixed(At(idx, n - 1)))
    case Bin(op, l, r) => Bin(op, AtLast(l, n), AtLast(r, n))
    case IfGe(k, l, r) => if n - 1 >= k then AtLast(l, n) else AtLast(r, n)
  }

  /** The loop before `j` that writes `v`, or `j` if there is none. */
  function Writer(p: Loops, j: nat, v: nat): (i: nat)
    requires j <= |p.stores|
    ensures i <= j && (i < j ==> p.stores[i].v == v)
    ensures i == j ==> forall h | 0 <= h < j :: p.stores[h].v != v
  {
    if j == 0 then 0
    else if p.stores[j - 1].v == v then j - 1
    else var i := Writer(p, j - 1, v); if i == j - 1 then j else i
  }

  /** `propagatePeelEffects`: a load of a scalar that an earlier peel writes becomes the value that peel stores. */
  function Propagate(p: Loops, j: nat, n: int, e: Expr): Expr
    requires j <= |p.stores|
  {
    match e
    case Read(v, _) => if v in p.statics && Writer(p, j, v) < j then AtLast(p.stores[Writer(p, j, v)].e, n) else e
    case Bin(op, l, r) => Bin(op, Propagate(p, j, n, l), Propagate(p, j, n, r))
    case IfGe(k, l, r) => IfGe(k, Propagate(p, j, n, l), Propagate(p, j, n, r))
    case _ => e
  }

  function Propagated(p: Loops, j: nat, n: int): Stmt
    requires j < |p.stores|
  {
    p.stores[j].(e := Propagate(p, j, n, p.stores[j].e))
  }

  /** The loops alone, without their last iterations. */
  function LoopsOnly(p: Loops, j: nat, n: nat, m: Mem): Mem
    requires j <= |p.stores| && n >= 1
  {
    if j == 0 then m else Iterate([Propagated(p, j - 1, n)], n - 1, LoopsOnly(p, j - 1, n, m))
  }

  /** The first `h` peels, in the order of their loops. */
  function Peels(p: Loops, h: nat, n: nat, m: Mem): Mem
    requires h <= |p.stores|
  {
    if h == 0 then m else Step(p.stores[h - 1], n - 1, Peels(p, h - 1, n, m))
  }

  function Deferred(p: Loops, n: nat, m: Mem): Mem
    requires n >= 1
  {
    Peels(p, |p.stores|, n, LoopsOnly(p, |p.stores|, n, m))
  }

  // ----- the fragment -----

  /** The cells an expression reads at counter value `i`. */
  function Cells(e: Expr, i: int): set<(nat, int)> {
    match e
    case Read(v, idx) => {(v, At(idx, i))}
    case Bin(_, l, r) => Cells(l, i) + Cells(r, i)
    case IfGe(k, l, r) => if i >= k then Cells(l, i) else Cells(r, i)
    case _ => {}
  }

  /** The cell that loop `h`'s peel writes. */
  function Target(p: Loops, h: nat, n: int): (nat, int)
    requires h < |p.stores|
  {
    (p.stores[h].v, At(p.stores[h].idx, n - 1))
  }

  ghost predicate IsTarget(p: Loops, j: nat, n: int, c: (nat, int))
    requires j <= |p.stores|
  {
    exists h :: 0 <= h < j && c == Target(p, h, n)
  }

  /** One loop per variable, arrays written at the counter, scalars in their cell. */
  ghost predicate Formed(p: Loops) {
    && (forall i, j | 0 <= i < j < |p.stores| :: p.stores[i].v != p.stores[j].v)
    && (forall j | 0 <= j < |p.stores| :: p.stores[j].idx == if p.stores[j].v in p.statics then Fixed(0) else Offset(0))
  }

  /** A peel's operands are not written by later loops. */
  ghost predicate OperandsKept(p: Loops) {
    forall h, j, i: int, c | 0 <= h < j < |p.stores| && c in Cells(p.stores[h].e, i) :: c.0 != p.stores[j].v
  }

  /** The operands of peel `i` are no earlier peel's target. */
  ghost predicate Clean(p: Loops, i: nat, n: int)
    requires i < |p.stores|
  {
    forall c | c in Cells(p.stores[i].e, n - 1) :: !IsTarget(p, i, n, c)
  }

  /** Before its last iteration loop `j` meets earlier peels only through scalars, whose peels are clean. */
  ghost predicate LoopOk(p: Loops, j: nat, n: int)
    requires j < |p.stores|
  {
    forall i: int, c | 0 <= i < n - 1 && c in Cells(p.stores[j].e, i) && IsTarget(p, j, n, c) ::
      c.0 in p.statics && Clean(p, Writer(p, j, c.0), n)
  }

  /** Scalars are read in their own cell. */
  ghost predicate ScalarReads(p: Loops) {
    forall j, i: int, c | 0 <= j < |p.stores| && c in Cells(p.stores[j].e, i) && c.0 in p.statics :: c.1 == 0
  }

  /** The first `k` loops. */
  ghost predicate DeferrableUpTo(p: Loops, k: nat, n: nat)
    requires k <= |p.stores|
  {
    Formed(p) && OperandsKept(p) && ScalarReads(p) && forall j | 0 <= j < k :: LoopOk(p, j, n)
  }

  ghost predicate Deferrable(p: Loops, n: nat) { DeferrableUpTo(p, |p.stores|, n) }

  // ----- expressions -----

  lemma {:induction false} AtLastEval(e: Expr, n: int, i: int, m: Mem)
    ensures Eval(AtLast(e, n), i, m) == Eval(e, n - 1, m)
  {
    match e
    case Bin(_, l, r) => AtLastEval(l, n, i, m); AtLastEval(r, n, i, m);
    case IfGe(k, l, r) => if n - 1 >= k { AtLastEval(l, n, i, m); } else { AtLastEval(r, n, i, m); }
    case _ =>
  }

  lemma {:induction false} EvalSame(e: Expr, i: int, m: Mem, r: Mem)
    requires forall c | c in Cells(e, i) :: m(c.0, c.1) == r(c.0, c.1)
    ensures Eval(e, i, m) == Eval(e, i, r)
  {
    match e
    case Read(v, idx) => assert (v, At(idx, i)) in Cells(e, i);
    case Bin(_, l, r') => EvalSame(l, i, m, r); EvalSame(r', i, m, r);
    case IfGe(k, l, r') => if i >= k { EvalSame(l, i, m, r); } else { EvalSame(r', i, m, r); }
    case _ =>
  }

  // ----- one loop writes its variable only -----

  lemma OneStep(st: Stmt, i: nat, m: Mem)
    ensures Iterate([st], i + 1, m) == Step(st, i, Iterate([st], i, m))
  {
    assert Steps([st], 0, i, Iterate([st], i, m)) == Iterate([st], i, m);
  }

  lemma {:induction false} IterateFrame(st: Stmt, i: nat, m: Mem, v: nat, k: int)
    requires v != st.v
    ensures Iterate([st], i, m)(v, k) == m(v, k)
  {
    if i > 0 {
      OneStep(st, i - 1, m);
      IterateFrame(st, i - 1, m, v, k);
    }
  }

  lemma {:induction false} InPlaceFrame(p: Loops, i: nat, j: nat, n: nat, m: Mem, v: nat, k: int)
    requires i <= j <= |p.stores| && forall h | i <= h < j :: p.stores[h].v != v
    ensures InPlace(p, j, n, m)(v, k) == InPlace(p, i, n, m)(v, k)
    decreases j
  {
    hide Iterate;
    if i < j {
      InPlaceFrame(p, i, j - 1, n, m, v, k);
      IterateFrame(p.stores[j - 1], n, InPlace(p, j - 1, n, m), v, k);
    }
  }

  lemma {:induction false} LoopsFrame(p: Loops, i: nat, j: nat, n: nat, m: Mem, v: nat, k: int)
    requires i <= j <= |p.stores| && n >= 1 && forall h | i <= h < j :: p.stores[h].v != v
    ensures LoopsOnly(p, j, n, m)(v, k) == LoopsOnly(p, i, n, m)(v, k)
    decreases j
  {
    hide Iterate, Propagate;
    if i < j {
      LoopsFrame(p, i, j - 1, n, m, v, k);
      IterateFrame(Propagated(p, j - 1, n), n - 1, LoopsOnly(p, j - 1, n, m), v, k);
    }
  }

  // ----- the loops -----

  /** The deferred memory agrees off the peels' targets; the value a clean scalar peel stored can be computed from it. */
  ghost predicate Lagging(p: Loops, j: nat, n: nat, d: Mem, o: Mem)
    requires j <= |p.stores|
  {
    && (forall c: (nat, int) | !IsTarget(p, j, n, c) :: d(c.0, c.1) == o(c.0, c.1))
    && (forall i | 0 <= i < j && p.stores[i].v in p.statics && Clean(p, i, n) :: o(p.stores[i].v, 0) == Eval(p.stores[i].e, n - 1, d))
  }

  lemma {:induction false} PropagateEval(p: Loops, j: nat, n: nat, e: Expr, i: int, d: Mem, o: Mem)
    requires j < |p.stores| && Formed(p) && Lagging(p, j, n, d, o)
    requires forall c | c in Cells(e, i) && c.0 in p.statics :: c.1 == 0
    requires forall c | c in Cells(e, i) && IsTarget(p, j, n, c) :: c.0 in p.statics && Clean(p, Writer(p, j, c.0), n)
    ensures Eval(Propagate(p, j, n, e), i, d) == Eval(e, i, o)
  {
    hide Clean, AtLast;
    match e
    case Read(v, idx) =>
      var c := (v, At(idx, i));
      assert c in Cells(e, i);
      var w := Writer(p, j, v);
      if v in p.statics && w < j {
        assert c == Target(p, w, n);
        AtLastEval(p.stores[w].e, n, i, d);
      } else {
        if IsTarget(p, j, n, c) { assert false; }
      }
    case Bin(_, l, r) => PropagateEval(p, j, n, l, i, d, o); PropagateEval(p, j, n, r, i, d, o);
    case IfGe(k, l, r) => if i >= k { PropagateEval(p, j, n, l, i, d, o); } else { PropagateEval(p, j, n, r, i, d, o); }
    case _ =>
  }

  /** Storing to a variable no earlier loop writes, and no earlier peel reads, keeps the lag. */
  lemma LagStep(p: Loops, j: nat, n: nat, d: Mem, o: Mem, k: int, x: int)
    requires j < |p.stores| && Formed(p) && OperandsKept(p) && Lagging(p, j, n, d, o)
    ensures Lagging(p, j, n, Put(d, p.stores[j].v, k, x), Put(o, p.stores[j].v, k, x))
  {
    hide Clean, IsTarget;
    var v := p.stores[j].v;
    forall i | 0 <= i < j && p.stores[i].v in p.statics && Clean(p, i, n)
      ensures Put(o, v, k, x)(p.stores[i].v, 0) == Eval(p.stores[i].e, n - 1, Put(d, v, k, x))
    {
      EvalSame(p.stores[i].e, n - 1, d, Put(d, v, k, x));
    }
  }

  /** A loop without its last iteration, on both sides. */
  lemma {:induction false} LoopLags(p: Loops, j: nat, n: nat, i: nat, d: Mem, o: Mem)
    requires j < |p.stores| && n >= 1 && i <= n - 1 && DeferrableUpTo(p, j + 1, n) && Lagging(p, j, n, d, o)
    ensures Lagging(p, j, n, Iterate([Propagated(p, j, n)], i, d), Iterate([p.stores[j]], i, o))
  {
    hide Iterate, Propagate, Lagging, Formed, OperandsKept, Clean;
    if i == 0 {
      NoIteration(Propagated(p, j, n), d);
      NoIteration(p.stores[j], o);
    } else {
      LoopLags(p, j, n, i - 1, d, o);
      var d1, o1, st := Iterate([Propagated(p, j, n)], i - 1, d), Iterate([p.stores[j]], i - 1, o), p.stores[j];
      OneStep(Propagated(p, j, n), i - 1, d);
      OneStep(st, i - 1, o);
      assert LoopOk(p, j, n);
      PropagateEval(p, j, n, st.e, i - 1, d1, o1);
      LagStep(p, j, n, d1, o1, At(st.idx, i - 1), Eval(st.e, i - 1, o1));
    }
  }

  lemma NoIteration(st: Stmt, m: Mem)
    ensures Iterate([st], 0, m) == m
  {
  }

  /** The peel puts its target ahead of the deferred memory, and nothing else. */
  lemma PeelLags(p: Loops, j: nat, n: nat, d: Mem, o: Mem)
    requires j < |p.stores| && n >= 1 && Formed(p) && OperandsKept(p) && Lagging(p, j, n, d, o)
    ensures Lagging(p, j + 1, n, d, Step(p.stores[j], n - 1, o))
  {
    hide Clean, IsTarget, OperandsKept;
    var st, o' := p.stores[j], Step(p.stores[j], n - 1, o);
    forall c: (nat, int) | !IsTarget(p, j + 1, n, c) ensures d(c.0, c.1) == o'(c.0, c.1) {
      NextTarget(p, j, n, c);
      assert c == (c.0, c.1) && Target(p, j, n) == (st.v, At(st.idx, n - 1));
    }
    forall i | 0 <= i < j + 1 && p.stores[i].v in p.statics && Clean(p, i, n)
      ensures o'(p.stores[i].v, 0) == Eval(p.stores[i].e, n - 1, d)
    {
      if i == j { CleanEval(p, j, n, d, o); } else { assert p.stores[i].v != st.v; }
    }
  }

  lemma NextTarget(p: Loops, j: nat, n: nat, c: (nat, int))
    requires j < |p.stores|
    ensures IsTarget(p, j + 1, n, c) <==> IsTarget(p, j, n, c) || c == Target(p, j, n)
  {
    if c == Target(p, j, n) { assert IsTarget(p, j + 1, n, c); }
  }

  lemma CleanEval(p: Loops, j: nat, n: nat, d: Mem, o: Mem)
    requires j < |p.stores| && Lagging(p, j, n, d, o) && Clean(p, j, n)
    ensures Eval(p.stores[j].e, n - 1, d) == Eval(p.stores[j].e, n - 1, o)
  {
    EvalSame(p.stores[j].e, n - 1, d, o);
  }

  lemma {:induction false} AllLag(p: Loops, j: nat, n: nat, m: Mem)
    requires j <= |p.stores| && n >= 1 && DeferrableUpTo(p, j, n)
    ensures Lagging(p, j, n, LoopsOnly(p, j, n, m), InPlace(p, j, n, m))
  {
    hide Iterate, Propagate, Lagging, DeferrableUpTo;
    if j == 0 {
      NoLag(p, n, m);
    } else {
      DeferrableParts(p, j, n);
      AllLag(p, j - 1, n, m);
      var d, o, st := LoopsOnly(p, j - 1, n, m), InPlace(p, j - 1, n, m), p.stores[j - 1];
      LoopLags(p, j - 1, n, n - 1, d, o);
      OneStep(st, n - 1, o);
      PeelLags(p, j - 1, n, Iterate([Propagated(p, j - 1, n)], n - 1, d), Iterate([st], n - 1, o));
    }
  }

  lemma NoLag(p: Loops, n: nat, m: Mem)
    ensures Lagging(p, 0, n, m, m)
  {
  }

  lemma DeferrableParts(p: Loops, k: nat, n: nat)
    requires k <= |p.stores| && DeferrableUpTo(p, k, n)
    ensures Formed(p) && OperandsKept(p) && forall j: nat | j <= k :: DeferrableUpTo(p, j, n)
  {
  }

  // ----- the peels -----

  /** After the first `h` deferred peels: their targets have caught up, the other targets still lag. */
  ghost predicate CaughtUp(p: Loops, h: nat, n: nat, m: Mem, q: Mem)
    requires h <= |p.stores| && n >= 1
  {
    var k := |p.stores|;
    forall c: (nat, int) ::
      q(c.0, c.1) == if IsTarget(p, h, n, c) || !IsTarget(p, k, n, c) then InPlace(p, k, n, m)(c.0, c.1) else LoopsOnly(p, k, n, m)(c.0, c.1)
  }

  /** Where peel `h` stood originally. */
  function BeforePeel(p: Loops, h: nat, n: nat, m: Mem): Mem
    requires h < |p.stores| && n >= 1
  {
    Iterate([p.stores[h]], n - 1, InPlace(p, h, n, m))
  }

  lemma PeelInPlace(p: Loops, h: nat, n: nat, m: Mem)
    requires h < |p.stores| && n >= 1
    ensures InPlace(p, h + 1, n, m) == Step(p.stores[h], n - 1, BeforePeel(p, h, n, m))
  {
    hide Step, Iterate;
    OneStep(p.stores[h], n - 1, InPlace(p, h, n, m));
  }

  /** Each operand of the deferred peel has the value it had where the peel stood. */
  lemma OperandRight(p: Loops, h: nat, n: nat, m: Mem, q: Mem, c: (nat, int))
    requires h < |p.stores| && n >= 1 && Deferrable(p, n) && CaughtUp(p, h, n, m, q) && c in Cells(p.stores[h].e, n - 1)
    ensures q(c.0, c.1) == BeforePeel(p, h, n, m)(c.0, c.1)
  {
    hide Iterate, Propagate, LoopOk, ScalarReads, IsTarget;
    var k, v := |p.stores|, c.0;
    assert forall j | h < j < k :: p.stores[j].v != v;
    InPlaceFrame(p, h + 1, k, n, m, v, c.1);
    LoopsFrame(p, h + 1, k, n, m, v, c.1);
    PeelInPlace(p, h, n, m);
    TargetsOf(p, h, n, c);
    if v == p.stores[h].v {
      if c == Target(p, h, n) {
        AllLag(p, h, n, m);
        LoopLags(p, h, n, n - 1, LoopsOnly(p, h, n, m), InPlace(p, h, n, m));
        LagAt(p, h, n, LoopsOnly(p, h + 1, n, m), BeforePeel(p, h, n, m), c);
      }
    } else {
      IterateFrame(p.stores[h], n - 1, InPlace(p, h, n, m), v, c.1);
      IterateFrame(p.stores[h], n, InPlace(p, h, n, m), v, c.1);
    }
  }

  lemma LagAt(p: Loops, j: nat, n: nat, d: Mem, o: Mem, c: (nat, int))
    requires j <= |p.stores| && Lagging(p, j, n, d, o) && !IsTarget(p, j, n, c)
    ensures d(c.0, c.1) == o(c.0, c.1)
  {
  }

  /** Which targets a cell that only loops up to `h` can write belongs to. */
  lemma TargetsOf(p: Loops, h: nat, n: nat, c: (nat, int))
    requires h < |p.stores| && Formed(p) && forall j | h < j < |p.stores| :: p.stores[j].v != c.0
    ensures IsTarget(p, |p.stores|, n, c) <==> IsTarget(p, h, n, c) || c == Target(p, h, n)
    ensures c.0 == p.stores[h].v ==> !IsTarget(p, h, n, c)
  {
    if c == Target(p, h, n) { assert IsTarget(p, |p.stores|, n, c); }
    if IsTarget(p, h, n, c) {
      var i :| 0 <= i < h && c == Target(p, i, n);
      assert IsTarget(p, |p.stores|, n, c);
    }
  }

  lemma PeelCatchesUp(p: Loops, h: nat, n: nat, m: Mem, q: Mem)
    requires h < |p.stores| && n >= 1 && Deferrable(p, n) && CaughtUp(p, h, n, m, q)
    ensures CaughtUp(p, h + 1, n, m, Step(p.stores[h], n - 1, q))
  {
    hide Iterate, Propagate, LoopOk, ScalarReads, InPlace, LoopsOnly, BeforePeel, OperandsKept, Formed;
    var st, b := p.stores[h], BeforePeel(p, h, n, m);
    forall c | c in Cells(st.e, n - 1) ensures q(c.0, c.1) == b(c.0, c.1) { OperandRight(p, h, n, m, q, c); }
    EvalSame(st.e, n - 1, q, b);
    PeelInPlace(p, h, n, m);
    var t := Target(p, h, n);
    LaterApart(p, h);
    InPlaceFrame(p, h + 1, |p.stores|, n, m, t.0, t.1);
    forall c: (nat, int) ensures IsTarget(p, h + 1, n, c) <==> IsTarget(p, h, n, c) || c == t { NextTarget(p, h, n, c); }
  }

  lemma LaterApart(p: Loops, h: nat)
    requires h < |p.stores| && Formed(p)
    ensures forall j | h + 1 <= j < |p.stores| :: p.stores[j].v != p.stores[h].v
  {
  }

  lemma {:induction false} PeelsCatchUp(p: Loops, h: nat, n: nat, m: Mem)
    requires h <= |p.stores| && n >= 1 && Deferrable(p, n)
    ensures CaughtUp(p, h, n, m, Peels(p, h, n, LoopsOnly(p, |p.stores|, n, m)))
  {
    hide Step, CaughtUp, Deferrable, LoopsOnly;
    if h == 0 {
      FirstCaughtUp(p, n, m);
    } else {
      PeelsCatchUp(p, h - 1, n, m);
      PeelCatchesUp(p, h - 1, n, m, Peels(p, h - 1, n, LoopsOnly(p, |p.stores|, n, m)));
    }
  }

  lemma FirstCaughtUp(p: Loops, n: nat, m: Mem)
    requires n >= 1 && Deferrable(p, n)
    ensures CaughtUp(p, 0, n, m, LoopsOnly(p, |p.stores|, n, m))
  {
    hide LoopsOnly, InPlace, DeferrableUpTo, Clean;
    AllLag(p, |p.stores|, n, m);
  }

  /** PEEL DEFERRAL PRESERVES MEANING: running all loops with the propagated loads, and then all peels in order,
      ends in the memory that running each peel right after its loop ends in. */
  lemma DeferralCorrect(p: Loops, n: nat, m: Mem, v: nat, k: int)
    requires n >= 1 && Deferrable(p, n)
    ensures Deferred(p, n, m)(v, k) == InPlace(p, |p.stores|, n, m)(v, k)
  {
    hide Deferrable, Peels, LoopsOnly, InPlace, IsTarget;
    PeelsCatchUp(p, |p.stores|, n, m);
    assert var c := (v, k); Deferred(p, n, m)(c.0, c.1) == InPlace(p, |p.stores|, n, m)(c.0, c.1);
  }

  // ----- why clean operands are needed -----

  /** Sums and differences. */
  predicate Linear(e: Expr) {
    match e
    case Bin(op, l, r) => !op.Mul? && Linear(l) && Linear(r)
    case IfGe(_, l, r) => Linear(l) && Linear(r)
    case _ => true
  }

  /** What the deferred memory is short of in an expression: only operands that are earlier peels' targets count. */
  ghost function Short(p: Loops, w: nat, n: int, e: Expr, d: Mem, o: Mem): int
    requires w <= |p.stores|
  {
    match e
    case Read(v, idx) => if IsTarget(p, w, n, (v, At(idx, n - 1))) then o(v, At(idx, n - 1)) - d(v, At(idx, n - 1)) else 0
    case Bin(Add, l, r) => Short(p, w, n, l, d, o) + Short(p, w, n, r, d, o)
    case Bin(Sub, l, r) => Short(p, w, n, l, d, o) - Short(p, w, n, r, d, o)
    case IfGe(k, l, r) => if n - 1 >= k then Short(p, w, n, l, d, o) else Short(p, w, n, r, d, o)
    case _ => 0
  }

  lemma {:induction false} ShortMeans(p: Loops, w: nat, n: int, e: Expr, d: Mem, o: Mem)
    requires w <= |p.stores| && Linear(e) && forall c: (nat, int) | !IsTarget(p, w, n, c) :: d(c.0, c.1) == o(c.0, c.1)
    ensures Eval(e, n - 1, o) == Eval(e, n - 1, d) + Short(p, w, n, e, d, o)
  {
    hide IsTarget;
    match e
    case Read(v, idx) =>
      var c := (v, At(idx, n - 1));
      assert !IsTarget(p, w, n, c) ==> d(c.0, c.1) == o(c.0, c.1);
    case Bin(_, l, r) => ShortMeans(p, w, n, l, d, o); ShortMeans(p, w, n, r, d, o);
    case IfGe(k, l, r) => if n - 1 >= k { ShortMeans(p, w, n, l, d, o); } else { ShortMeans(p, w, n, r, d, o); }
    case _ =>
  }

  /** The memories of the two programs at peel `w`: what the value cloned from it is short of. */
  ghost function PeelShort(p: Loops, w: nat, n: nat, m: Mem): int
    requires w < |p.stores| && n >= 1
  {
    Short(p, w, n, p.stores[w].e, LoopsOnly(p, w + 1, n, m), BeforePeel(p, w, n, m))
  }

  lemma PeelLagging(p: Loops, w: nat, n: nat, m: Mem)
    requires w < |p.stores| && n >= 1 && DeferrableUpTo(p, w + 1, n)
    ensures Lagging(p, w, n, LoopsOnly(p, w + 1, n, m), BeforePeel(p, w, n, m))
  {
    hide Iterate, Propagate, Lagging, DeferrableUpTo;
    DeferrableParts(p, w + 1, n);
    AllLag(p, w, n, m);
    LoopLags(p, w, n, n - 1, LoopsOnly(p, w, n, m), InPlace(p, w, n, m));
  }

  /** THE PROPAGATED VALUE: computed at loop `j` of the deferred program it is short of what peel `w` stored by exactly
      that much. */
  lemma PropagatedShort(p: Loops, w: nat, j: nat, n: nat, i: int, m: Mem)
    requires w < j <= |p.stores| && n >= 1 && DeferrableUpTo(p, w + 1, n) && Linear(p.stores[w].e)
    ensures var t := Target(p, w, n);
            InPlace(p, j, n, m)(t.0, t.1) == Eval(AtLast(p.stores[w].e, n), i, LoopsOnly(p, j, n, m)) + PeelShort(p, w, n, m)
    ensures Clean(p, w, n) ==> PeelShort(p, w, n, m) == 0
  {
    hide Iterate, Propagate, Short, Linear, LoopOk, ScalarReads, BeforePeel;
    var e, t, d, o := p.stores[w].e, Target(p, w, n), LoopsOnly(p, w + 1, n, m), BeforePeel(p, w, n, m);
    PeelLagging(p, w, n, m);
    ShortMeans(p, w, n, e, d, o);
    AtLastEval(e, n, i, LoopsOnly(p, j, n, m));
    forall c | c in Cells(e, n - 1) ensures LoopsOnly(p, j, n, m)(c.0, c.1) == d(c.0, c.1) {
      LoopsFrame(p, w + 1, j, n, m, c.0, c.1);
    }
    EvalSame(e, n - 1, LoopsOnly(p, j, n, m), d);
    PeelInPlace(p, w, n, m);
    InPlaceFrame(p, w + 1, j, n, m, t.0, t.1);
    if Clean(p, w, n) { CleanEval(p, w, n, d, o); }
  }

  /** An operand of peel `w` that is an array cell written by the earlier peel `h` lags by what that peel stored over the
      cell's initial value. */
  lemma ArrayOperandLag(p: Loops, h: nat, w: nat, n: nat, m: Mem)
    requires h < w < |p.stores| && n >= 1 && Formed(p) && p.stores[h].v !in p.statics
    ensures var v := p.stores[h].v;
            BeforePeel(p, w, n, m)(v, n - 1) - LoopsOnly(p, w + 1, n, m)(v, n - 1) == InPlace(p, h + 1, n, m)(v, n - 1) - m(v, n - 1)
  {
    hide Iterate, Propagate;
    var v := p.stores[h].v;
    InPlaceFrame(p, h + 1, w, n, m, v, n - 1);
    IterateFrame(p.stores[w], n - 1, InPlace(p, w, n, m), v, n - 1);
    LoopsFrame(p, h + 1, w + 1, n, m, v, n - 1);
    LoopsFrame(p, 0, h, n, m, v, n - 1);
    NoIteration(p.stores[h], m);
    LastUnwritten(Propagated(p, h, n), n - 1, LoopsOnly(p, h, n, m), n - 1);
  }

  /** A loop over the counter leaves the cells from its bound on alone. */
  lemma {:induction false} LastUnwritten(st: Stmt, i: nat, m: Mem, k: int)
    requires st.idx == Offset(0) && k >= i
    ensures Iterate([st], i, m)(st.v, k) == m(st.v, k)
  {
    if i > 0 {
      OneStep(st, i - 1, m);
      LastUnwritten(st, i - 1, m, k);
    }
  }

  /** What loop `j` reads: of its own array cells it has not stored yet, of earlier peels' targets scalars only. */
  ghost predicate ReadsAhead(p: Loops, j: nat, n: int)
    requires j < |p.stores|
  {
    forall i: int, c | 0 <= i < n - 1 && c in Cells(p.stores[j].e, i) ::
      (c.0 == p.stores[j].v ==> c.1 >= i) && (IsTarget(p, j, n, c) ==> c.0 in p.statics && Linear(p.stores[Writer(p, j, c.0)].e))
  }

  /** What the propagated loads of an expression are short of, all together. */
  ghost function PropLag(p: Loops, j: nat, n: nat, m: Mem, e: Expr, i: int): int
    requires j < |p.stores| && n >= 1
  {
    match e
    case Read(v, _) => if v in p.statics && Writer(p, j, v) < j then PeelShort(p, Writer(p, j, v), n, m) else 0
    case Bin(Add, l, r) => PropLag(p, j, n, m, l, i) + PropLag(p, j, n, m, r, i)
    case Bin(Sub, l, r) => PropLag(p, j, n, m, l, i) - PropLag(p, j, n, m, r, i)
    case IfGe(k, l, r) => if i >= k then PropLag(p, j, n, m, l, i) else PropLag(p, j, n, m, r, i)
    case _ => 0
  }

  lemma {:induction false} PropLagMeans(p: Loops, j: nat, n: nat, m: Mem, e: Expr, i: int)
    requires j < |p.stores| && n >= 1 && DeferrableUpTo(p, j, n) && Linear(e)
    requires forall c | c in Cells(e, i) && c.0 in p.statics :: c.1 == 0
    requires forall c | c in Cells(e, i) && IsTarget(p, j, n, c) :: c.0 in p.statics && Linear(p.stores[Writer(p, j, c.0)].e)
    ensures Eval(e, i, InPlace(p, j, n, m)) == Eval(Propagate(p, j, n, e), i, LoopsOnly(p, j, n, m)) + PropLag(p, j, n, m, e, i)
  {
    hide AtLast, PeelShort, InPlace, LoopsOnly, OperandsKept, ScalarReads, LoopOk;
    match e
    case Read(v, idx) =>
      var c := (v, At(idx, i));
      assert c in Cells(e, i);
      var w := Writer(p, j, v);
      if v in p.statics && w < j {
        assert c == Target(p, w, n);
        assert IsTarget(p, j, n, c);
        DeferrableParts(p, j, n);
        PropagatedShort(p, w, j, n, i, m);
      } else {
        ReadKept(p, j, n, m, c);
      }
    case Bin(_, l, r) => PropLagMeans(p, j, n, m, l, i); PropLagMeans(p, j, n, m, r, i);
    case IfGe(k, l, r) => if i >= k { PropLagMeans(p, j, n, m, l, i); } else { PropLagMeans(p, j, n, m, r, i); }
    case _ =>
  }

  lemma ReadKept(p: Loops, j: nat, n: nat, m: Mem, c: (nat, int))
    requires j < |p.stores| && n >= 1 && DeferrableUpTo(p, j, n) && (IsTarget(p, j, n, c) ==> c.0 in p.statics)
    requires !(c.0 in p.statics && Writer(p, j, c.0) < j)
    ensures LoopsOnly(p, j, n, m)(c.0, c.1) == InPlace(p, j, n, m)(c.0, c.1)
  {
    hide InPlace, LoopsOnly, DeferrableUpTo, Lagging;
    if IsTarget(p, j, n, c) { assert false; }
    AllLag(p, j, n, m);
    LagAt(p, j, n, LoopsOnly(p, j, n, m), InPlace(p, j, n, m), c);
  }

  /** What an array loop leaves in a cell it stores: its value in the memory before the loop, if it reads ahead only. */
  lemma {:induction false} StoredCell(st: Stmt, i: nat, k: nat, m: Mem)
    requires k < i && st.idx == Offset(0) && forall l: int, c | 0 <= l < i && c in Cells(st.e, l) && c.0 == st.v :: c.1 >= l
    ensures Iterate([st], i, m)(st.v, k) == Eval(st.e, k, m)
  {
    OneStep(st, i - 1, m);
    if k < i - 1 {
      StoredCell(st, i - 1, k, m);
    } else {
      var b := Iterate([st], k, m);
      forall c | c in Cells(st.e, k) ensures b(c.0, c.1) == m(c.0, c.1) {
        if c.0 == st.v { LastUnwritten(st, k, m, c.1); } else { IterateFrame(st, k, m, c.0, c.1); }
      }
      EvalSame(st.e, k, b, m);
    }
  }

  /** Propagation reads no cell of the loop's own array but those the loop itself reads. */
  lemma {:induction false} PropagatedCells(p: Loops, j: nat, n: int, e: Expr, i: int, c: (nat, int))
    requires j < |p.stores| && Formed(p) && OperandsKept(p) && c in Cells(Propagate(p, j, n, e), i) && c.0 == p.stores[j].v
    ensures c in Cells(e, i)
  {
    match e
    case Read(v, _) =>
      var w := Writer(p, j, v);
      if v in p.statics && w < j {
        AtLastCells(p.stores[w].e, n, i, c);
        assert false;
      }
    case Bin(_, l, r) =>
      if c in Cells(Propagate(p, j, n, l), i) { PropagatedCells(p, j, n, l, i, c); } else { PropagatedCells(p, j, n, r, i, c); }
    case IfGe(k, l, r) =>
      if i >= k { PropagatedCells(p, j, n, l, i, c); } else { PropagatedCells(p, j, n, r, i, c); }
    case _ =>
  }

  lemma {:induction false} AtLastCells(e: Expr, n: int, i: int, c: (nat, int))
    requires c in Cells(AtLast(e, n), i)
    ensures c in Cells(e, n - 1)
  {
    match e
    case Bin(_, l, r) => if c in Cells(AtLast(l, n), i) { AtLastCells(l, n, i, c); } else { AtLastCells(r, n, i, c); }
    case IfGe(k, l, r) => if n - 1 >= k { AtLastCells(l, n, i, c); } else { AtLastCells(r, n, i, c); }
    case _ =>
  }

  lemma {:induction false} PeelsFrame(p: Loops, h: nat, n: nat, m: Mem, c: (nat, int))
    requires h <= |p.stores| && !IsTarget(p, h, n, c)
    ensures Peels(p, h, n, m)(c.0, c.1) == m(c.0, c.1)
  {
    if h > 0 {
      NextTarget(p, h - 1, n, c);
      PeelsFrame(p, h - 1, n, m, c);
      assert c == (c.0, c.1) && Target(p, h - 1, n) == (p.stores[h - 1].v, At(p.stores[h - 1].idx, n - 1));
    }
  }

  /** The cells of an array before its last, at the end of the two programs. */
  lemma ArrayEnds(p: Loops, j: nat, n: nat, m: Mem, i: nat)
    requires j < |p.stores| && i < n - 1 && DeferrableUpTo(p, j, n) && p.stores[j].v !in p.statics && ReadsAhead(p, j, n)
    ensures Deferred(p, n, m)(p.stores[j].v, i) == Eval(Propagate(p, j, n, p.stores[j].e), i, LoopsOnly(p, j, n, m))
    ensures InPlace(p, |p.stores|, n, m)(p.stores[j].v, i) == Eval(p.stores[j].e, i, InPlace(p, j, n, m))
  {
    hide Iterate, Propagate, Peels, LoopOk, ScalarReads;
    var st, pr, k := p.stores[j], Propagated(p, j, n), |p.stores|;
    DeferrableParts(p, j, n);
    LaterApart(p, j);
    NotATarget(p, j, n, i);
    PeelsFrame(p, k, n, LoopsOnly(p, k, n, m), (st.v, i));
    LoopsFrame(p, j + 1, k, n, m, st.v, i);
    InPlaceFrame(p, j + 1, k, n, m, st.v, i);
    forall l: int, c | 0 <= l < n - 1 && c in Cells(pr.e, l) && c.0 == st.v ensures c.1 >= l { PropagatedCells(p, j, n, st.e, l, c); }
    StoredCell(pr, n - 1, i, LoopsOnly(p, j, n, m));
    StoredCell(st, n - 1, i, InPlace(p, j, n, m));
    OneStep(st, n - 1, InPlace(p, j, n, m));
  }

  lemma NotATarget(p: Loops, j: nat, n: nat, i: nat)
    requires j < |p.stores| && i < n - 1 && Formed(p) && p.stores[j].v !in p.statics
    ensures !IsTarget(p, |p.stores|, n, (p.stores[j].v, i))
  {
    forall h | 0 <= h < |p.stores| ensures (p.stores[j].v, i) != Target(p, h, n) {
      if h == j { assert At(p.stores[j].idx, n - 1) == n - 1; }
    }
  }

  /** The array loop `j` fills ends right, but for its last cell. */
  ghost predicate ArrayRight(p: Loops, j: nat, n: nat, m: Mem)
    requires j < |p.stores| && n >= 1
  {
    forall i: nat | i < n - 1 :: Deferred(p, n, m)(p.stores[j].v, i) == InPlace(p, |p.stores|, n, m)(p.stores[j].v, i)
  }

  /** In every iteration what its propagated loads are short of cancels. */
  ghost predicate LagsCancel(p: Loops, j: nat, n: nat, m: Mem)
    requires j < |p.stores| && n >= 1
  {
    forall i: nat | i < n - 1 :: PropLag(p, j, n, m, p.stores[j].e, i) == 0
  }

  lemma CellExact(p: Loops, j: nat, n: nat, m: Mem, i: nat)
    requires j < |p.stores| && i < n - 1 && DeferrableUpTo(p, j, n) && p.stores[j].v !in p.statics && Linear(p.stores[j].e) && ReadsAhead(p, j, n)
    ensures Deferred(p, n, m)(p.stores[j].v, i) == InPlace(p, |p.stores|, n, m)(p.stores[j].v, i) <==> PropLag(p, j, n, m, p.stores[j].e, i) == 0
  {
    hide Deferred, InPlace, LoopsOnly, Propagate, PropLag, Linear;
    ArrayEnds(p, j, n, m, i);
    PropLagMeans(p, j, n, m, p.stores[j].e, i);
  }

  /** DEFERRAL IS EXACT: behind loops that meet earlier peels rightly, the array a loop fills is right in the deferred
      program if and only if the lags cancel. */
  lemma DeferralExact(p: Loops, j: nat, n: nat, m: Mem)
    requires j < |p.stores| && n >= 1 && DeferrableUpTo(p, j, n) && p.stores[j].v !in p.statics && Linear(p.stores[j].e) && ReadsAhead(p, j, n)
    ensures ArrayRight(p, j, n, m) <==> LagsCancel(p, j, n, m)
  {
    hide Linear, DeferrableUpTo, ReadsAhead;
    if ArrayRight(p, j, n, m) {
      forall i: nat | i < n - 1 ensures PropLag(p, j, n, m, p.stores[j].e, i) == 0 { CellExact(p, j, n, m, i); }
    }
    if LagsCancel(p, j, n, m) {
      forall i: nat | i < n - 1 ensures Deferred(p, n, m)(p.stores[j].v, i) == InPlace(p, |p.stores|, n, m)(p.stores[j].v, i) {
        CellExact(p, j, n, m, i);
      }
    }
  }

  /** a[i] = 1; x += a[i]; b[i] = x: the load of `x` in the third loop becomes `x + a[N-1]`, and `a[N-1]` is the
      target of a peel that has been deferred. */
  const CHAIN := Loops({1}, [
    Store(0, Offset(0), Lit(1)),
    Store(1, Fixed(0), Bin(Add, Read(1, Fixed(0)), Read(0, Offset(0)))),
    Store(2, Offset(0), Read(1, Fixed(0)))])

  lemma ChainCells(i: int)
    ensures Cells(CHAIN.stores[0].e, i) == {} && Cells(CHAIN.stores[1].e, i) == {(1, 0), (0, i)} && Cells(CHAIN.stores[2].e, i) == {(1, 0)}
  {
    assert Cells(Read(1, Fixed(0)), i) == {(1, 0)} && Cells(Read(0, Offset(0)), i) == {(0, i)};
  }

  lemma ChainFormed(n: nat)
    ensures Formed(CHAIN) && OperandsKept(CHAIN) && ScalarReads(CHAIN) && ReadsAhead(CHAIN, 2, n)
    ensures Linear(CHAIN.stores[1].e) && Writer(CHAIN, 2, 1) == 1
  {
    hide OperandsKept, ScalarReads, ReadsAhead;
    assert Writer(CHAIN, 1, 1) == 1;
    ChainLinear();
    ChainKept();
    ChainAhead(n);
  }

  lemma ChainKept()
    ensures OperandsKept(CHAIN)
  {
    hide Cells;
    forall h, j, i: int, c | 0 <= h < j < 3 && c in Cells(CHAIN.stores[h].e, i) ensures c.0 != CHAIN.stores[j].v { ChainCells(i); }
  }

  lemma ChainAhead(n: nat)
    ensures ScalarReads(CHAIN) && ReadsAhead(CHAIN, 2, n)
  {
    hide Cells, Linear, IsTarget;
    forall j, i: int, c | 0 <= j < 3 && c in Cells(CHAIN.stores[j].e, i) && c.0 in CHAIN.statics ensures c.1 == 0 { ChainCells(i); }
    assert Writer(CHAIN, 1, 1) == 1 && Writer(CHAIN, 2, 1) == 1;
    assert Linear(CHAIN.stores[1].e) by { ChainLinear(); }
    forall i: int, c | 0 <= i < n - 1 && c in Cells(CHAIN.stores[2].e, i) ensures c == (1, 0) { ChainCells(i); }
  }

  lemma ChainLinear()
    ensures Linear(CHAIN.stores[1].e)
  {
    assert Linear(Read(1, Fixed(0))) && Linear(Read(0, Offset(0)));
  }

  /** Before its last iteration the accumulation meets no deferred peel. */
  lemma ChainStart(n: nat)
    requires n >= 1
    ensures DeferrableUpTo(CHAIN, 2, n)
  {
    hide Cells;
    ChainFormed(n);
    forall j, i: int, c | 0 <= j < 2 && 0 <= i < n - 1 && c in Cells(CHAIN.stores[j].e, i) ensures !IsTarget(CHAIN, j, n, c) {
      ChainCells(i);
      assert Target(CHAIN, 0, n) == (0, n - 1);
    }
  }

  lemma ChainShort(n: nat, m: Mem)
    requires n >= 1
    ensures PeelShort(CHAIN, 1, n, m) == 1 - m(0, n - 1)
  {
    hide InPlace, LoopsOnly, BeforePeel;
    var p, d, o := CHAIN, LoopsOnly(CHAIN, 2, n, m), BeforePeel(CHAIN, 1, n, m);
    ChainFormed(n);
    ArrayOperandLag(p, 0, 1, n, m);
    ChainFirst(n, m);
    assert Target(p, 0, n) == (0, n - 1);
    assert IsTarget(p, 1, n, (0, n - 1)) && !IsTarget(p, 1, n, (1, 0));
    ChainTerms(n, d, o);
  }

  lemma ChainTerms(n: nat, d: Mem, o: Mem)
    requires n >= 1 && IsTarget(CHAIN, 1, n, (0, n - 1)) && !IsTarget(CHAIN, 1, n, (1, 0))
    ensures Short(CHAIN, 1, n, CHAIN.stores[1].e, d, o) == o(0, n - 1) - d(0, n - 1)
  {
    hide IsTarget;
    assert Short(CHAIN, 1, n, Read(1, Fixed(0)), d, o) == 0;
    assert Short(CHAIN, 1, n, Read(0, Offset(0)), d, o) == o(0, n - 1) - d(0, n - 1);
  }

  lemma ChainFirst(n: nat, m: Mem)
    requires n >= 1
    ensures InPlace(CHAIN, 1, n, m)(0, n - 1) == 1
  {
    hide Iterate;
    assert InPlace(CHAIN, 0, n, m) == m;
    StoredCell(CHAIN.stores[0], n, n - 1, m);
  }

  /** The chain is deferred right exactly when `a[N-1]` held 1 beforehand, at every size from 2 on. */
  lemma ChainExact(n: nat, m: Mem)
    requires n >= 2
    ensures ArrayRight(CHAIN, 2, n, m) <==> m(0, n - 1) == 1
  {
    hide DeferrableUpTo, PeelShort, ReadsAhead, ArrayRight;
    ChainStart(n);
    ChainFormed(n);
    ChainShort(n, m);
    assert CHAIN.stores[2].e == Read(1, Fixed(0)) && Linear(CHAIN.stores[2].e);
    DeferralExact(CHAIN, 2, n, m);
    if LagsCancel(CHAIN, 2, n, m) { assert PropLag(CHAIN, 2, n, m, CHAIN.stores[2].e, 0) == 0; }
  }

  function Zero(): Mem { (v: nat, k: int) => 0 }

  /** So from zeros it is wrong at every size from 2 on. */
  lemma ChainWrong(n: nat)
    requires n >= 2
    ensures !ArrayRight(CHAIN, 2, n, Zero()) && !Clean(CHAIN, 1, n)
  {
    hide ArrayRight, Cells;
    ChainExact(n, Zero());
    ChainCells(n - 1);
    assert Target(CHAIN, 0, n) == (0, n - 1);
    assert IsTarget(CHAIN, 1, n, (0, n - 1));
  }
}
