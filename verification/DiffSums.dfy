/** Differencing on sums: the records add all loads, whatever their signs, so this is when that is right. */
module DiffSums {
  import opened DiffSpec
  import opened DiffSound

  // ----- sums with signs -----

  predicate IsConst(t: Term) { t.Leaf? && t.e.Lit? }

  /** Sums and differences of loads, values without loads whose change does not depend on the counter, and constant
      multiples. */
  ghost predicate Linear(t: Term) {
    if AsPure(t).Some? then Stable(AsPure(t).value)
    else
      match t
      case Bin(op, l, r) =>
        if !op.Mul? then Linear(l) && Linear(r) else if IsConst(l) then Linear(r) else IsConst(r) && Linear(l)
      case _ => true
  }

  /** How such an expression changes from size N-1 to N. */
  function PureMove(w: World, e: NExpr): int { Eval(e, w.n, 0) - Eval(e, w.n - 1, 0) }

  /** How such a value moves, in every iteration alike. */
  function LMove(g: Gen, w: World, t: Term): int {
    if AsPure(t).Some? then PureMove(w, AsPure(t).value)
    else
      match t
      case Load(v) => SumOf(g, v, w) + if v.Scl? then Missing(g, w, v.id) else 0
      case Leaf(_) => 0
      case Bin(op, l, r) =>
        if !op.Mul? then Apply(op, LMove(g, w, l), LMove(g, w, r))
        else if IsConst(l) then l.e.c * LMove(g, w, r) else if IsConst(r) then r.e.c * LMove(g, w, l) else 0
  }

  lemma {:induction false} LinearMoves(g: Gen, w: World, t: Term, k: int)
    requires Related(g, w) && Linear(t) && 0 <= k < w.n - 1
    ensures Moves(w, t, k) == LMove(g, w, t)
  {
    hide Related, SumOf, Missing, Stable;
    if AsPure(t).Some? {
      PureMoves(w, t, k);
      StableMove(AsPure(t).value, w.n, k);
    } else {
      match t
      case Load(v) => OneMoved(g, w, v, k);
      case Bin(op, l, r) =>
        if op.Mul? {
          var c, u := if IsConst(l) then l.e.c else r.e.c, if IsConst(l) then r else l;
          LinearMoves(g, w, u, k);
          ScaledVal(w, t, c, u, k);
        } else {
          LinearMoves(g, w, l, k);
          LinearMoves(g, w, r, k);
        }
    }
  }

  lemma PureMoves(w: World, t: Term, k: int)
    requires AsPure(t).Some?
    ensures Moves(w, t, k) == Eval(AsPure(t).value, w.n, k) - Eval(AsPure(t).value, w.n - 1, k)
  {
    hide AsPure, Eval, TVal;
    PureMeans(w.big, t, w.n, k);
    PureMeans(w.small, t, w.n - 1, k);
  }

  /** VALUES WITHOUT LOADS, exactly: recorded right if and only if their change at every counter is that at counter N. */
  lemma PureExact(g: Gen, w: World, t: Term)
    requires AsPure(t).Some?
    ensures var e := AsPure(t).value;
            ValueRecorded(g, w, t) <==> forall k: int | 0 <= k < w.n - 1 :: Eval(e, w.n, k) - Eval(e, w.n - 1, k) == Eval(e, w.n, w.n) - Eval(e, w.n - 1, w.n)
  {
    hide AsPure, Moves, Eval, ArrRec;
    var e := AsPure(t).value;
    PureArrRec(g, w, t);
    if ValueRecorded(g, w, t) {
      forall k: int | 0 <= k < w.n - 1 ensures Eval(e, w.n, k) - Eval(e, w.n - 1, k) == Eval(e, w.n, w.n) - Eval(e, w.n - 1, w.n) {
        PureMoves(w, t, k);
        assert Moves(w, t, k) == ArrRec(g, w, t);
      }
    } else {
      var k: int :| 0 <= k < w.n - 1 && Moves(w, t, k) != ArrRec(g, w, t);
      PureMoves(w, t, k);
    }
  }

  lemma PureArrRec(g: Gen, w: World, t: Term)
    requires AsPure(t).Some?
    ensures ArrRec(g, w, t) == Eval(AsPure(t).value, w.n, w.n) - Eval(AsPure(t).value, w.n - 1, w.n)
  {
    hide AsPure, Eval, HasSize, DiffExpr, RecOf, Loads;
    var e := AsPure(t).value;
    PureRest(t);
    NoneRecorded(w);
    NoDiff(g, w);
    if HasSize(e) {
      SumOne(OfExpr(DiffExpr(e)), w.n, w.d.regs);
      DiffMeans(e, w.n, 0);
    } else {
      NoSize(e, w.n, w.n - 1, w.n);
    }
  }

  /** In particular where the change does not depend on the counter at all. */
  lemma PureRecorded(g: Gen, w: World, t: Term)
    requires AsPure(t).Some? && Stable(AsPure(t).value)
    ensures ValueRecorded(g, w, t)
  {
    hide AsPure, ValueRecorded, Eval;
    PureExact(g, w, t);
  }

  lemma StableMove(e: NExpr, n: int, k: int)
    requires Stable(e)
    ensures Eval(e, n, k) - Eval(e, n - 1, k) == Eval(e, n, 0) - Eval(e, n - 1, 0)
  {
  }

  lemma ScaledVal(w: World, t: Term, c: int, u: Term, k: int)
    requires t == Bin(Mul, Leaf(Lit(c)), u) || t == Bin(Mul, u, Leaf(Lit(c)))
    ensures Moves(w, t, k) == c * Moves(w, u, k)
  {
    var x, y := TVal(w.big, u, w.n, k), TVal(w.small, u, w.n - 1, k);
    assert TVal(w.big, Leaf(Lit(c)), w.n, k) == c && TVal(w.small, Leaf(Lit(c)), w.n - 1, k) == c;
    Distribute(c, x, -y);
    assert c * x - c * y == c * (x - y);
  }

  /** LINEAR VALUES: an array loop records right if and only if one equation holds. */
  lemma LinearRecorded(g: Gen, w: World, t: Term)
    requires Related(g, w) && Linear(t)
    ensures ValueRecorded(g, w, t) <==> LMove(g, w, t) == ArrRec(g, w, t)
  {
    hide Moves, LMove, ArrRec, Linear, Related;
    RelatedKnown(g, w);
    forall k: int | 0 <= k < w.n - 1 ensures Moves(w, t, k) == LMove(g, w, t) { LinearMoves(g, w, t, k); }
    if ValueRecorded(g, w, t) { assert Moves(w, t, 0) == ArrRec(g, w, t); }
  }

  lemma {:induction false} LinearTotals(g: Gen, w: World, u: Term, k: nat)
    requires Related(g, w) && Linear(u) && k <= w.n - 1
    ensures Total(w.big, u, w.n, k) - Total(w.small, u, w.n - 1, k) == k * LMove(g, w, u)
  {
    hide Related, LMove, TVal, Linear;
    if k > 0 {
      LinearTotals(g, w, u, k - 1);
      LinearMoves(g, w, u, k - 1);
      var z := LMove(g, w, u);
      assert k * z == (k - 1) * z + z;
    }
  }

  function RecSum(w: World, t: Term): int { SumD(RecDiffs(RecOf(t)), w.n, w.d.regs) }

  function ScalarSum(g: Gen, w: World, loads: seq<Var>): int {
    if |loads| == 0 then 0
    else ScalarSum(g, w, loads[..|loads| - 1]) + if loads[|loads| - 1].Scl? then SumOf(g, loads[|loads| - 1], w) else 0
  }

  lemma FromLoadSum(g: Gen, w: World, v: Var)
    ensures SumD(FromLoad(g, v), w.n, w.d.regs) == if v.Arr? then (w.n - 1) * SumOf(g, v, w) else SumOf(g, v, w)
  {
    if v.Arr? { SumScaled(DiffsOf(g, v), w.n, w.d.regs); }
  }

  /** Array differences are taken over `N-1` times, scalar ones once. */
  lemma {:induction false} FromLoadsSum(g: Gen, w: World, x: nat, loads: seq<Var>)
    requires Scl(x) !in loads
    ensures SumD(FromLoads(g, x, loads), w.n, w.d.regs) == (w.n - 1) * DiffSum(g, w, loads) - (w.n - 2) * ScalarSum(g, w, loads)
  {
    hide SumOf, FromLoad;
    if |loads| > 0 {
      var front, v := loads[..|loads| - 1], loads[|loads| - 1];
      FromLoadsSum(g, w, x, front);
      FromLoadSum(g, w, v);
      SumAppend(FromLoads(g, x, front), FromLoad(g, v), w.n, w.d.regs);
      Distribute(w.n - 1, DiffSum(g, w, front), SumOf(g, v, w));
      Distribute(w.n - 2, ScalarSum(g, w, front), if v.Scl? then SumOf(g, v, w) else 0);
      Distribute(w.n - 1, SumOf(g, v, w), -SumOf(g, v, w));
      assert (w.n - 1) * SumOf(g, v, w) - (w.n - 2) * SumOf(g, v, w) == SumOf(g, v, w);
    }
  }

  /** The load of the scalar itself takes nothing over and brings the term in once. */
  lemma {:induction false} OwnLoadFirst(g: Gen, x: nat, loads: seq<Var>, rec: Option<NExpr>)
    requires Scl(x) !in loads
    ensures FromLoads(g, x, [Scl(x)] + loads) == FromLoads(g, x, loads) && OwnTerm(x, [Scl(x)] + loads, rec) == ScaleAll(RecDiffs(rec))
  {
    hide RecDiffs, FromLoad;
    if |loads| == 0 {
      assert [Scl(x)] + loads == [Scl(x)] && [Scl(x)][..0] == [];
    } else {
      assert ([Scl(x)] + loads)[..|loads|] == [Scl(x)] + loads[..|loads| - 1];
      assert ([Scl(x)] + loads)[|loads|] == loads[|loads| - 1] && loads[|loads| - 1] in loads;
      OwnLoadFirst(g, x, loads[..|loads| - 1], rec);
    }
  }

  lemma {:induction false} NoOwnTerm(x: nat, loads: seq<Var>, rec: Option<NExpr>)
    requires Scl(x) !in loads
    ensures OwnTerm(x, loads, rec) == []
  {
    if |loads| > 0 { NoOwnTerm(x, loads[..|loads| - 1], rec); }
  }

  lemma OwnLoadLast(g: Gen, x: nat, loads: seq<Var>, rec: Option<NExpr>)
    requires Scl(x) !in loads
    ensures FromLoads(g, x, loads + [Scl(x)]) == FromLoads(g, x, loads) && OwnTerm(x, loads + [Scl(x)], rec) == ScaleAll(RecDiffs(rec))
  {
    hide RecDiffs, FromLoad;
    NoOwnTerm(x, loads, rec);
    assert (loads + [Scl(x)])[..|loads|] == loads;
  }

  /** What is added in front of the peeled iteration of an accumulation. */
  lemma GlueIs(g: Gen, w: World, ph: Phase)
    requires ph.Accum? && AddendOf(ph.x, ph.t).Some?
    ensures var u := AddendOf(ph.x, ph.t).value.u;
            GlueOf(g, w, ph) == (w.n - 1) * (RecSum(w, u) + DiffSum(g, w, Loads(u))) - (w.n - 2) * ScalarSum(g, w, Loads(u))
  {
    hide GlueOf, OwnTerm, FromLoads, RecDiffs, SumD, DiffSum, ScalarSum;
    var u, loads := AddendOf(ph.x, ph.t).value.u, Loads(AddendOf(ph.x, ph.t).value.u);
    GlueParts(g, w, ph);
    assert Loads(Load(Scl(ph.x))) == [Scl(ph.x)] && CollectRec(Load(Scl(ph.x))) == None;
    assert Loads(ph.t) == [Scl(ph.x)] + loads || Loads(ph.t) == loads + [Scl(ph.x)];
    assert RecOf(ph.t) == RecOf(u);
    OwnLoadFirst(g, ph.x, loads, RecOf(u));
    OwnLoadLast(g, ph.x, loads, RecOf(u));
    SumScaled(RecDiffs(RecOf(u)), w.n, w.d.regs);
    FromLoadsSum(g, w, ph.x, loads);
    Distribute(w.n - 1, RecSum(w, u), DiffSum(g, w, loads));
  }

  // ----- loads of the variable written itself -----

  function Others(v: Var, loads: seq<Var>): (r: seq<Var>)
    ensures v !in r
  {
    if |loads| == 0 then [] else Others(v, loads[..|loads| - 1]) + if loads[|loads| - 1] == v then [] else [loads[|loads| - 1]]
  }

  lemma {:induction false} FromOthers(g: Gen, x: nat, loads: seq<Var>)
    ensures FromLoads(g, x, loads) == FromLoads(g, x, Others(Scl(x), loads))
  {
    hide FromLoad;
    if |loads| > 0 {
      var front, v := Others(Scl(x), loads[..|loads| - 1]), loads[|loads| - 1];
      FromOthers(g, x, loads[..|loads| - 1]);
      if v == Scl(x) {
        assert Others(Scl(x), loads) == front;
      } else {
        assert Others(Scl(x), loads) == front + [v] && (front + [v])[..|front|] == front;
      }
    }
  }

  /** What one load of the scalar itself brings in. */
  function OwnOnce(w: World, rec: Option<NExpr>): int { SumD(ScaleAll(RecDiffs(rec)), w.n, w.d.regs) }

  lemma {:induction false} OwnTermSum(w: World, x: nat, loads: seq<Var>, rec: Option<NExpr>)
    ensures SumD(OwnTerm(x, loads, rec), w.n, w.d.regs) == Product(multiset(loads)[Scl(x)], OwnOnce(w, rec))
  {
    hide RecDiffs, SumD, Product;
    NoneRecorded(w);
    OneTimeMore(0, OwnOnce(w, rec));
    if |loads| > 0 {
      var front, v := loads[..|loads| - 1], loads[|loads| - 1];
      assert multiset(loads)[Scl(x)] == multiset(front)[Scl(x)] + if v == Scl(x) then 1 else 0 by { assert loads == front + [v]; }
      OwnTermSum(w, x, front, rec);
      if v == Scl(x) {
        SumAppend(OwnTerm(x, front, rec), ScaleAll(RecDiffs(rec)), w.n, w.d.regs);
      } else {
        assert OwnTerm(x, loads, rec) == OwnTerm(x, front, rec);
      }
      OneTimeMore(multiset(front)[Scl(x)], OwnOnce(w, rec));
    }
  }

  function Product(k: nat, z: int): int { k * z }

  lemma OneTimeMore(k: nat, z: int)
    ensures Product(0, z) == 0 && Product(k + 1, z) == Product(k, z) + z
  {
  }

  /** THE GLUE of any scalar loop: its own term's difference N-1 times for every load of the scalar itself, array
      differences N-1 times and scalar ones once. */
  lemma GlueTotal(g: Gen, w: World, ph: Phase)
    requires ph.Accum?
    ensures var loads, others := Loads(ph.t), Others(Scl(ph.x), Loads(ph.t));
            GlueOf(g, w, ph) == multiset(loads)[Scl(ph.x)] * ((w.n - 1) * RecSum(w, ph.t)) + (w.n - 1) * DiffSum(g, w, others) - (w.n - 2) * ScalarSum(g, w, others)
  {
    hide GlueVals, OwnTerm, FromLoads, RecDiffs, SumD, DiffSum, ScalarSum, Others, Loads, RecOf;
    GlueSplit(g, w, ph.x, Loads(ph.t), RecOf(ph.t));
    OwnTermSum(w, ph.x, Loads(ph.t), RecOf(ph.t));
    SumScaled(RecDiffs(RecOf(ph.t)), w.n, w.d.regs);
    FromOthers(g, ph.x, Loads(ph.t));
    FromLoadsSum(g, w, ph.x, Others(Scl(ph.x), Loads(ph.t)));
  }

  lemma {:induction false} OwnDiffsSum(g: Gen, w: World, a: nat, loads: seq<Var>)
    ensures SumD(OwnDiffs(g, a, loads), w.n, w.d.regs) == Product(multiset(loads)[Arr(a)], SumOf(g, Arr(a), w))
  {
    hide DiffsOf, SumD, Product;
    NoneRecorded(w);
    OneTimeMore(0, SumOf(g, Arr(a), w));
    if |loads| > 0 {
      var front, v := loads[..|loads| - 1], loads[|loads| - 1];
      assert multiset(loads)[Arr(a)] == multiset(front)[Arr(a)] + if v == Arr(a) then 1 else 0 by { assert loads == front + [v]; }
      OwnDiffsSum(g, w, a, front);
      SumAppend(OwnDiffs(g, a, front), if v == Arr(a) then DiffsOf(g, v) else [], w.n, w.d.regs);
      OneTimeMore(multiset(front)[Arr(a)], SumOf(g, Arr(a), w));
    }
  }

  /** OUTSIDE ARRAY SSA FORM, exactly: an array loop whose array already has recorded differences adds them to the peeled
      cell once for each load of the array, although that cell was at size N before. */
  lemma OwnCellExact(g: Gen, w: World, ph: Phase)
    requires ph.ArrLoop? && Related(g, w) && w.d == CodeState(g, w) && Settled(w, None, Loads(ph.t))
    ensures var w', k := NextWorld(g, w, ph), multiset(Loads(ph.t))[Arr(ph.a)];
            && w'.d.s.arr(ph.a, w.n - 1) == w'.big.arr(ph.a, w.n - 1) + k * SumOf(g, Arr(ph.a), w)
            && (w'.d.s.arr(ph.a, w.n - 1) == w'.big.arr(ph.a, w.n - 1) <==> Arr(ph.a) !in Loads(ph.t) || SumOf(g, Arr(ph.a), w) == 0)
  {
    hide CodeState, RegsKnown, TVal, SumD, Settled, Loads, RecOf, CellsMoved, OwnDiffs, CellDiffs, Record, RecDiffs, DiffsOf;
    var own, t := OwnDiffs(g, ph.a, Loads(ph.t)), ph.t;
    var g1 := EmitD(g, Peel(ph));
    var g2 := if own == [] then g1 else EmitD(g1, GlueCell(ph.a, own));
    EmitRuns(g, w, Peel(ph));
    NoPeeled(ph, w);
    EmitRuns(g1, w, GlueCell(ph.a, own));
    RecordTwice(g2, Arr(ph.a), RecDiffs(RecOf(t)), CellDiffs(g, ph.a, Loads(t)));
    SameCode(g2, GenPhase(ph, g), w);
    ArrLoopAt(ph, w.n, w.n, w.big);
    PeelReads(g, w, None, Loads(t));
    TValSame(t, w.d.s, w.big, w.n, w.n - 1);
    OwnDiffsSum(g, w, ph.a, Loads(t));
    NoneRecorded(w);
    NonZero(multiset(Loads(t))[Arr(ph.a)], SumOf(g, Arr(ph.a), w));
  }

  lemma NonZero(k: nat, z: int)
    ensures k * z == 0 <==> k == 0 || z == 0
  {
  }

  // ----- what is recorded last -----

  function LastArr(loads: seq<Var>): Var
    requires CountArr(loads) > 0
  {
    if loads[|loads| - 1].Arr? then loads[|loads| - 1] else LastArr(loads[..|loads| - 1])
  }

  lemma {:induction false} PeeledLast(s: State, loads: seq<Var>, i: int)
    requires CountArr(loads) > 0
    ensures LastArr(loads) in loads && LastArr(loads).Arr?
    ensures |PeeledLoads(s, loads, i)| == CountArr(loads) && PeeledLoads(s, loads, i)[CountArr(loads) - 1] == LoadVal(s, LastArr(loads), i)
  {
    PeeledCount(s, loads[..|loads| - 1], i);
    if !loads[|loads| - 1].Arr? { PeeledLast(s, loads[..|loads| - 1], i); }
  }

  /** THE LAST RECORD of a scalar loop that reads arrays is the peeled value of its last array load: all that a copy of
      the scalar takes over. */
  lemma LastRecorded(g: Gen, w: World, ph: Phase)
    requires ph.Accum? && Related(g, w) && w.d == CodeState(g, w) && Settled(w, Some(ph.x), Loads(ph.t)) && CountArr(Loads(ph.t)) > 0
    ensures LastOf(DiffsOf(GenPhase(ph, g), Scl(ph.x)), NextWorld(g, w, ph)) == LoadVal(w.big, LastArr(Loads(ph.t)), w.n - 1)
  {
    hide Related, Settled, CodeState, GenPhase, DiffsOf, Loads, CountArr, LastArr, PeeledLoads, TermDiffs, FromLoads, GlueOf, TVal, Exec, Body;
    var loads := Loads(ph.t);
    RelatedKnown(g, w);
    var s1 := AccumGen(g, w, ph);
    PeeledLast(s1, loads, w.n - 1);
    PeelReads(g, w, Some(ph.x), loads);
    var regs := RegList(g.regs, CountArr(loads));
    assert (TermDiffs(ph) + (FromLoads(g, ph.x, loads) + regs))[|TermDiffs(ph)| + |FromLoads(g, ph.x, loads)| + CountArr(loads) - 1] == Reg(g.regs + CountArr(loads) - 1);
  }

  /** Without products: the unrecorded movement of the scalars read, with their signs. */
  function SDrift(g: Gen, w: World, t: Term): int {
    match t
    case Load(v) => if v.Scl? then Missing(g, w, v.id) else 0
    case Leaf(_) => 0
    case Bin(op, l, r) => if op.Mul? then 0 else Apply(op, SDrift(g, w, l), SDrift(g, w, r))
  }

  /** The movement of the size expressions, with their signs. */
  function LeafMove(w: World, t: Term): int {
    if AsPure(t).Some? then PureMove(w, AsPure(t).value)
    else
      match t
      case Bin(op, l, r) => if op.Mul? then 0 else Apply(op, LeafMove(w, l), LeafMove(w, r))
      case _ => 0
  }

  /** The recorded differences of the loads that are subtracted. */
  function Negated(g: Gen, w: World, t: Term, neg: bool): int {
    match t
    case Load(v) => if neg then SumOf(g, v, w) else 0
    case Leaf(_) => 0
    case Bin(op, l, r) => Negated(g, w, l, neg) + Negated(g, w, r, if op.Sub? then !neg else neg)
  }

  predicate Sums(t: Term) { AsPure(t).Some? || t.Load? || (t.Bin? && !t.op.Mul? && Sums(t.l) && Sums(t.r)) }

  lemma {:induction false} PureQuiet(g: Gen, w: World, t: Term, neg: bool)
    requires AsPure(t).Some?
    ensures SDrift(g, w, t) == 0 && Negated(g, w, t, neg) == 0
  {
    match t
    case Bin(op, l, r) =>
      PureQuiet(g, w, l, neg);
      PureQuiet(g, w, r, if op.Sub? then !neg else neg);
    case _ =>
  }

  lemma {:induction false} DiffSumAppend(g: Gen, w: World, xs: seq<Var>, ys: seq<Var>)
    ensures DiffSum(g, w, xs + ys) == DiffSum(g, w, xs) + DiffSum(g, w, ys)
  {
    hide SumOf;
    if |ys| == 0 {
      assert xs + ys == xs;
    } else {
      assert (xs + ys)[..|xs + ys| - 1] == xs + ys[..|ys| - 1];
      DiffSumAppend(g, w, xs, ys[..|ys| - 1]);
    }
  }

  /** The records add what the value may subtract. */
  lemma {:induction false} SignedMove(g: Gen, w: World, t: Term, neg: bool)
    requires Sums(t)
    ensures Sgn(neg, LMove(g, w, t)) == DiffSum(g, w, Loads(t)) - 2 * Negated(g, w, t, neg) + Sgn(neg, SDrift(g, w, t) + LeafMove(w, t))
  {
    hide SumOf, Missing, DiffSum, PureMove;
    if AsPure(t).Some? {
      PureQuiet(g, w, t, neg);
      PureRest(t);
      NoDiff(g, w);
    } else {
      match t
      case Load(v) => assert DiffSum(g, w, [v]) == SumOf(g, v, w) by { OneDiff(g, w, v); }
      case Bin(op, l, r) =>
        SignedMove(g, w, l, neg);
        SignedMove(g, w, r, if op.Sub? then !neg else neg);
        DiffSumAppend(g, w, Loads(l), Loads(r));
    }
  }

  lemma OneDiff(g: Gen, w: World, v: Var)
    ensures DiffSum(g, w, [v]) == SumOf(g, v, w)
  {
    hide SumOf;
    assert [v][..0] == [];
  }

  lemma NoDiff(g: Gen, w: World)
    ensures DiffSum(g, w, []) == 0
  {
  }

  /** SIGNED ARRAY VALUES, exactly: recorded right if and only if the unrecorded movement is twice the recorded
      differences of the subtracted loads. */
  lemma SignedRecorded(g: Gen, w: World, t: Term)
    requires Related(g, w) && Linear(t) && Sums(t)
    ensures ValueRecorded(g, w, t) <==> SDrift(g, w, t) + LeafMove(w, t) - RecSum(w, t) == 2 * Negated(g, w, t, false)
  {
    hide Related, Linear, ValueRecorded, LMove, SDrift, LeafMove, Negated, DiffSum, RecDiffs;
    LinearRecorded(g, w, t);
    SignedMove(g, w, t, false);
  }

  /** SIGNED ACCUMULATIONS, exactly: what the glue misses. */
  lemma SignedMissed(g: Gen, w: World, ph: Phase)
    requires ph.Accum? && AddendOf(ph.x, ph.t).Some? && Related(g, w) && Linear(AddendOf(ph.x, ph.t).value.u) && Sums(AddendOf(ph.x, ph.t).value.u)
    ensures var a := AddendOf(ph.x, ph.t).value;
            Missed(g, w, ph) == (w.n - 1) * (Sgn(a.neg, SDrift(g, w, a.u) + LeafMove(w, a.u)) - RecSum(w, a.u) - 2 * Negated(g, w, a.u, a.neg))
                                + (w.n - 2) * ScalarSum(g, w, Loads(a.u))
  {
    hide Related, Linear, AddendOf, GlueOf, LMove, SDrift, LeafMove, Negated, DiffSum, ScalarSum, RecSum, Loads, Total;
    RelatedKnown(g, w);
    var a := AddendOf(ph.x, ph.t).value;
    LinearTotals(g, w, a.u, w.n - 1);
    GlueIs(g, w, ph);
    SignedMove(g, w, a.u, a.neg);
    var d, s := DiffSum(g, w, Loads(a.u)), Sgn(a.neg, SDrift(g, w, a.u) + LeafMove(w, a.u));
    assert Sgn(a.neg, (w.n - 1) * LMove(g, w, a.u)) == (w.n - 1) * Sgn(a.neg, LMove(g, w, a.u));
    assert Sgn(a.neg, LMove(g, w, a.u)) == (RecSum(w, a.u) + d) + (s - RecSum(w, a.u) - 2 * Negated(g, w, a.u, a.neg));
    Distribute(w.n - 1, RecSum(w, a.u) + d, s - RecSum(w, a.u) - 2 * Negated(g, w, a.u, a.neg));
  }

  // ----- values that are always recorded right -----

  predicate NoSizes(t: Term) {
    match t
    case Load(_) => true
    case Leaf(e) => !HasSize(e)
    case Bin(_, l, r) => NoSizes(l) && NoSizes(r)
  }

  predicate OnlyLoads(t: Term) {
    match t
    case Load(_) => true
    case Leaf(_) => false
    case Bin(_, l, r) => OnlyLoads(l) && OnlyLoads(r)
  }

  /** A sum with one value without loads, of any operators, that is not subtracted. */
  predicate OneLeaf(t: Term) {
    if AsPure(t).Some? then true
    else
      match t
      case Bin(Add, l, r) => (OnlyLoads(l) && OneLeaf(r)) || (OneLeaf(l) && OnlyLoads(r))
      case Bin(Sub, l, r) => OneLeaf(l) && OnlyLoads(r)
      case _ => false
  }

  lemma {:induction false} OnlyLoadsRec(w: World, t: Term)
    requires OnlyLoads(t)
    ensures CollectRec(t) == None && AsPure(t) == None && LeafMove(w, t) == 0 && NoSizes(t)
  {
    match t
    case Bin(_, l, r) => OnlyLoadsRec(w, l); OnlyLoadsRec(w, r);
    case _ =>
  }

  lemma {:induction false} PureNoSize(t: Term)
    requires NoSizes(t)
    ensures AsPure(t).Some? ==> !HasSize(AsPure(t).value)
    ensures CollectRec(t).Some? ==> NoSizes(CollectRec(t).value)
  {
    match t
    case Bin(_, l, r) => PureNoSize(l); PureNoSize(r);
    case _ =>
  }

  lemma {:induction false} NoSizesMove(w: World, t: Term)
    requires NoSizes(t)
    ensures LeafMove(w, t) == 0
  {
    if AsPure(t).Some? {
      PureNoSize(t);
      NoSize(AsPure(t).value, w.n, w.n - 1, 0);
    } else {
      match t
      case Bin(_, l, r) => NoSizesMove(w, l); NoSizesMove(w, r);
      case _ =>
    }
  }

  lemma {:induction false} OneLeafRec(w: World, t: Term)
    requires OneLeaf(t) && Linear(t)
    ensures CollectRec(t).Some? && RecOf(t).Some? && Stable(RecOf(t).value) && LeafMove(w, t) == PureMove(w, RecOf(t).value)
  {
    hide Stable, PureMove;
    if AsPure(t).Some? {
      PureRest(t);
    } else {
      match t
      case Bin(Add, l, r) =>
        if OnlyLoads(l) && OneLeaf(r) {
          OnlyLoadsRec(w, l);
          OneLeafRec(w, r);
        } else {
          OnlyLoadsRec(w, r);
          OneLeafRec(w, l);
        }
      case Bin(Sub, l, r) =>
        OnlyLoadsRec(w, r);
        OneLeafRec(w, l);
    }
  }

  /** The expressions are recorded as they move. */
  lemma LeavesRecorded(w: World, t: Term)
    requires NoSizes(t) || (OneLeaf(t) && Linear(t))
    ensures LeafMove(w, t) == RecSum(w, t)
    ensures NoSizes(t) ==> RecSum(w, t) == 0
  {
    hide Linear, Stable;
    if NoSizes(t) {
      PureNoSize(t);
      if CollectRec(t).Some? { PureNoSize(CollectRec(t).value); }
      NoSizesMove(w, t);
      NoneRecorded(w);
    } else {
      OneLeafRec(w, t);
      RecDiffMeans(RecOf(t), w.n, 0, w.d.regs);
    }
  }

  /** Subtracted loads have no recorded differences. */
  predicate UnmovedNegated(g: Gen, t: Term, neg: bool) {
    match t
    case Load(v) => neg ==> DiffsOf(g, v) == []
    case Leaf(_) => true
    case Bin(op, l, r) => UnmovedNegated(g, l, neg) && UnmovedNegated(g, r, if op.Sub? then !neg else neg)
  }

  lemma {:induction false} NothingNegated(g: Gen, w: World, t: Term, neg: bool)
    requires UnmovedNegated(g, t, neg)
    ensures Negated(g, w, t, neg) == 0
  {
    hide DiffsOf;
    NoneRecorded(w);
    match t
    case Bin(op, l, r) => NothingNegated(g, w, l, neg); NothingNegated(g, w, r, if op.Sub? then !neg else neg);
    case _ =>
  }

  lemma {:induction false} NoDrift(g: Gen, w: World, t: Term)
    requires forall v | v in Loads(t) && v.Scl? :: Tracked(g, w, v.id)
    ensures SDrift(g, w, t) == 0
  {
    hide Missing;
    match t
    case Load(v) => assert v in Loads(t);
    case Bin(_, l, r) =>
      assert forall v | v in Loads(l) || v in Loads(r) :: v in Loads(t);
      NoDrift(g, w, l);
      NoDrift(g, w, r);
    case _ =>
  }

  /** A value of any operators that does not move. */
  predicate Unmoved(g: Gen, t: Term) { NoSizes(t) && forall v | v in Loads(t) :: DiffsOf(g, v) == [] }

  lemma {:induction false} UnmovedVal(g: Gen, w: World, t: Term, k: int)
    requires Related(g, w) && Unmoved(g, t) && 0 <= k < w.n - 1 && forall v | v in Loads(t) && v.Scl? :: Tracked(g, w, v.id)
    ensures Moves(w, t, k) == 0
  {
    hide Related, Missing, DiffsOf;
    match t
    case Load(v) =>
      assert v in Loads(t);
      OneMoved(g, w, v, k);
      NoneRecorded(w);
    case Leaf(e) => NoSize(e, w.n, w.n - 1, k);
    case Bin(_, l, r) =>
      assert forall v | v in Loads(l) || v in Loads(r) :: v in Loads(t);
      UnmovedVal(g, w, l, k);
      UnmovedVal(g, w, r, k);
  }

  lemma {:induction false} UnmovedLoads(g: Gen, w: World, loads: seq<Var>)
    requires forall v | v in loads :: DiffsOf(g, v) == []
    ensures DiffSum(g, w, loads) == 0 && ScalarSum(g, w, loads) == 0
  {
    if |loads| > 0 {
      UnmovedLoads(g, w, loads[..|loads| - 1]);
      assert loads[|loads| - 1] in loads;
    }
  }

  lemma {:induction false} UnmovedTotals(g: Gen, w: World, u: Term, k: nat)
    requires Related(g, w) && Unmoved(g, u) && k <= w.n - 1 && forall v | v in Loads(u) && v.Scl? :: Tracked(g, w, v.id)
    ensures Total(w.big, u, w.n, k) == Total(w.small, u, w.n - 1, k)
  {
    hide Related, TVal, Unmoved, Missing;
    if k > 0 {
      UnmovedTotals(g, w, u, k - 1);
      UnmovedVal(g, w, u, k - 1);
    }
  }

  /** A value a reader can see to be recorded right, as far as it is not subtracted itself. */
  ghost predicate StaticTerm(g: Gen, t: Term, neg: bool) {
    || Unmoved(g, t)
    || (Linear(t) && Sums(t) && UnmovedNegated(g, t, neg) && (NoSizes(t) || (!neg && OneLeaf(t))))
  }

  lemma StaticRecorded(g: Gen, w: World, t: Term)
    requires Related(g, w) && StaticTerm(g, t, false) && forall v | v in Loads(t) && v.Scl? :: Tracked(g, w, v.id)
    ensures ValueRecorded(g, w, t)
  {
    hide Related, Linear, RecSum, LeafMove, SDrift, Negated, UnmovedNegated, Missing, Moves, DiffSum, RecDiffs;
    if Unmoved(g, t) {
      LeavesRecorded(w, t);
      UnmovedLoads(g, w, Loads(t));
      RecSumIs(w, t);
      forall k: int | 0 <= k < w.n - 1 ensures Moves(w, t, k) == ArrRec(g, w, t) { UnmovedVal(g, w, t, k); }
    } else {
      SignedRecorded(g, w, t);
      LeavesRecorded(w, t);
      NothingNegated(g, w, t, false);
      NoDrift(g, w, t);
    }
  }

  lemma RecSumIs(w: World, t: Term)
    ensures RecSum(w, t) == SumD(RecDiffs(RecOf(t)), w.n, w.d.regs)
  {
  }

  lemma {:induction false} UnmovedScalars(g: Gen, w: World, loads: seq<Var>)
    requires forall v | v in loads && v.Scl? :: DiffsOf(g, v) == []
    ensures ScalarSum(g, w, loads) == 0
  {
    if |loads| > 0 {
      UnmovedScalars(g, w, loads[..|loads| - 1]);
      assert loads[|loads| - 1] in loads;
    }
  }

  lemma StaticMissed(g: Gen, w: World, ph: Phase)
    requires ph.Accum? && AddendOf(ph.x, ph.t).Some? && Related(g, w)
    requires var a := AddendOf(ph.x, ph.t).value;
             StaticTerm(g, a.u, a.neg) && forall v | v in Loads(a.u) && v.Scl? :: Tracked(g, w, v.id) && DiffsOf(g, v) == []
    ensures Missed(g, w, ph) == 0
  {
    hide Related, Linear, AddendOf, RecSum, LeafMove, SDrift, Negated, UnmovedNegated, Missing, ScalarSum, DiffSum, DiffsOf, Loads, GlueOf, Total;
    var a := AddendOf(ph.x, ph.t).value;
    RelatedKnown(g, w);
    LeavesRecorded(w, a.u);
    if Unmoved(g, a.u) {
      UnmovedTotals(g, w, a.u, w.n - 1);
      UnmovedLoads(g, w, Loads(a.u));
      GlueIs(g, w, ph);
    } else {
      SignedMissed(g, w, ph);
      NothingNegated(g, w, a.u, a.neg);
      NoDrift(g, w, a.u);
      UnmovedScalars(g, w, Loads(a.u));
    }
  }

  predicate ArraySum(t: Term) {
    match t
    case Load(v) => v.Arr?
    case Bin(Add, l, r) => ArraySum(l) && ArraySum(r)
    case _ => false
  }

  lemma {:induction false} ArraySumIs(s: State, t: Term, n: int, i: int)
    requires ArraySum(t)
    ensures TVal(s, t, n, i) == ArrSum(s, Loads(t), i)
  {
    match t
    case Load(v) => assert [v][..0] == [] && ArrSum(s, [v], i) == LoadVal(s, v, i);
    case Bin(_, l, r) =>
      ArraySumIs(s, l, n, i);
      ArraySumIs(s, r, n, i);
      ArrSumAppend(s, Loads(l), Loads(r), i);
  }

  /** An accumulator that adds arrays only. */
  predicate AddsArrays(ph: Phase)
    requires ph.Accum?
  {
    AddendOf(ph.x, ph.t).Some? && !AddendOf(ph.x, ph.t).value.neg && ArraySum(AddendOf(ph.x, ph.t).value.u)
  }

  /** EXACTLY WHEN a tracked accumulator whose glue misses nothing stays tracked: what it adds in the peeled iteration is
      the sum of the array loads in it. */
  lemma AccumTracked(g: Gen, w: World, ph: Phase)
    requires ph.Accum? && AddendOf(ph.x, ph.t).Some? && Related(g, w) && w.d == CodeState(g, w) && Settled(w, Some(ph.x), Loads(ph.t))
    requires Tracked(g, w, ph.x) && Missed(g, w, ph) == 0
    ensures var a := AddendOf(ph.x, ph.t).value;
            Tracked(GenPhase(ph, g), NextWorld(g, w, ph), ph.x) <==>
            Sgn(a.neg, TVal(w.big, a.u, w.n, w.n - 1)) == ArrSum(w.big, Loads(a.u), w.n - 1)
    ensures AddsArrays(ph) ==> Tracked(GenPhase(ph, g), NextWorld(g, w, ph), ph.x)
  {
    hide Related, Missing, Missed, Settled, CodeState, GenPhase, NextWorld, TVal, ArrSum, AddendOf;
    AccumMissing(g, w, ph);
    if AddsArrays(ph) { ArraySumIs(w.big, AddendOf(ph.x, ph.t).value.u, w.n, w.n - 1); }
  }
}
