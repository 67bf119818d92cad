/** Completeness: any valuation of the constraints so far extends over the fresh names of the next step. */
module EncoderComplete {
  import opened Terms
  import opened Ir
  import opened EncoderSpec
  import opened EncoderFrame
  import opened EncoderKnown
  import opened EncoderSound
  import opened EncoderFits

  /** Only exit names below the total, as in the "one exit is taken" constraints emitted first. */
  function ExitLim(p: Program): Lim { Lim(0, 0, ExitBase(p, |p.blocks|), 0) }

  /** `w` gives the old names their old meaning and leaves the exit bits alone. */
  ghost predicate Extends(p: Program, b: nat, e: Enc, v: Valuation, w: Valuation)
    requires b <= |p.blocks|
  {
    Agree(v, w, Bound(p, b, e)) && Agree(v, w, ExitLim(p))
  }

  /** Constraints that held keep holding. */
  lemma KeepHolding(p: Program, b: nat, base: seq<BoolTerm>, e: Enc, v: Valuation, w: Valuation)
    requires b <= |p.blocks| && Fits(p, b, base, e) && AllWithin(base, ExitLim(p))
    requires AllHold(e.bmcVec, v) && Extends(p, b, e, v, w)
    ensures AllHold(e.bmcVec, w)
  {
    hide Holds, BoolWithin, Agree, TermsFit, PathsFit, NamesFit, ExitsFit;
    var rest := e.bmcVec[|base|..];
    assert e.bmcVec == base + rest;
    SplitHold(base, rest, v);
    AllFrame(base, v, w, ExitLim(p));
    AllFrame(rest, v, w, Bound(p, b, e));
    SplitHold(base, rest, w);
  }

  lemma SplitHold(xs: seq<BoolTerm>, ys: seq<BoolTerm>, v: Valuation)
    ensures AllHold(xs + ys, v) <==> AllHold(xs, v) && AllHold(ys, v)
  {
    hide Holds;
    if AllHold(xs + ys, v) {
      forall i | 0 <= i < |xs| ensures Holds(xs[i], v) { assert (xs + ys)[i] == xs[i]; }
      forall i | 0 <= i < |ys| ensures Holds(ys[i], v) { assert (xs + ys)[|xs| + i] == ys[i]; }
    }
  }

  lemma EmitHolds(e: Enc, c: BoolTerm, v: Valuation)
    requires AllHold(e.bmcVec, v) && Holds(c, v)
    ensures AllHold(Emit(e, c).bmcVec, v)
  {
    hide Holds;
    SplitHold(e.bmcVec, [c], v);
  }

  // ----- giving a fresh name a meaning -----

  function SetIntVar(v: Valuation, x: nat, n: int): Valuation { v.(ints := (y: nat) => if y == x then n else v.ints(y)) }
  function SetBit(v: Valuation, x: nat, t: bool): Valuation {
    v.(bools := y => if y == BitName(x) then t else v.bools(y))
  }
  function SetArr(v: Valuation, x: nat, a: int -> int): Valuation {
    v.(arrs := (y: nat, k: int) => if y == x then a(k) else v.arrs(y, k))
  }

  lemma SetIntExtends(p: Program, b: nat, e: Enc, v: Valuation, x: nat, n: int)
    requires b <= |p.blocks| && x >= e.nextInt
    ensures Extends(p, b, e, v, SetIntVar(v, x, n))
  {
  }

  lemma SetBitExtends(p: Program, b: nat, e: Enc, v: Valuation, x: nat, t: bool)
    requires b <= |p.blocks| && x >= e.nextBit
    ensures Extends(p, b, e, v, SetBit(v, x, t))
  {
  }

  lemma SetArrExtends(p: Program, b: nat, e: Enc, v: Valuation, x: nat, a: int -> int)
    requires b <= |p.blocks| && x >= e.nextArr
    ensures Extends(p, b, e, v, SetArr(v, x, a))
  {
  }

  /** At most one incoming edge of `b` is true. */
  ghost predicate OneEdge(p: Program, e: Enc, b: nat, v: Valuation)
    requires EdgesOk(p) && b < |p.blocks|
  {
    forall q: nat, r: nat | IsPred(p, q, b) && IsPred(p, r, b) && Holds(EdgeCond(p, e, q, b), v) && Holds(EdgeCond(p, e, r, b), v) :: q == r
  }

  lemma OneEdgeStill(p: Program, base: seq<BoolTerm>, e: Enc, e': Enc, d: Regs, b: nat, v: Valuation, w: Valuation)
    requires EdgesOk(p) && b < |p.blocks| && Fits(p, b, base, e) && Continues(b, d, e, e') && Extends(p, b, e, v, w)
    requires OneEdge(p, e, b, v)
    ensures OneEdge(p, e', b, w)
  {
    hide Holds, BoolWithin, Agree, VecFits, TermsFit, NamesFit, MemKept, TermsKept, EdgeCond, EdgesOk;
    EdgesGood(p, b);
    forall q: nat, r: nat | IsPred(p, q, b) && IsPred(p, r, b) && Holds(EdgeCond(p, e', q, b), w) && Holds(EdgeCond(p, e', r, b), w)
      ensures q == r
    {
      EdgeFrame(p, base, e, e', d, q, b, v, w);
      EdgeFrame(p, base, e, e', d, r, b, v, w);
    }
  }

  lemma EdgeFrame(p: Program, base: seq<BoolTerm>, e: Enc, e': Enc, d: Regs, q: nat, b: nat, v: Valuation, w: Valuation)
    requires EdgesOk(p) && b < |p.blocks| && Fits(p, b, base, e) && Continues(b, d, e, e') && Extends(p, b, e, v, w)
    requires IsPred(p, q, b)
    ensures Holds(EdgeCond(p, e', q, b), w) == Holds(EdgeCond(p, e, q, b), v)
  {
    hide Holds, BoolWithin, Agree, VecFits, TermsFit, NamesFit, MemKept, TermsKept, PathsFit, ExitsFit, EdgesOk;
    EdgeFits(p, e, q, b, Bound(p, b, e));
    assert EdgeCond(p, e', q, b) == EdgeCond(p, e, q, b);
    BoolFrame(EdgeCond(p, e, q, b), v, w, Bound(p, b, e));
  }

  lemma EdgesGood(p: Program, b: nat)
    requires EdgesOk(p)
    ensures forall q: nat | IsPred(p, q, b) :: q < b < |p.blocks| && b in Succs(p.blocks[q].term)
  {
  }

  // ----- phis -----

  lemma {:induction false} PhiIntConsHold(p: Program, e: Enc, b: nat, x: nat, ins: seq<(nat, IntOperand)>, k: nat, v: Valuation)
    requires EdgesOk(p) && b < |p.blocks| && k <= |ins|
    requires forall j | 0 <= j < k && IsPred(p, ins[j].0, b) && Holds(EdgeCond(p, e, ins[j].0, b), v) ::
               v.ints(x) == IntVal(EarlierInt(e, ins[j].1), v)
    ensures AllHold(PhiIntCons(p, e, b, x, ins, k), v)
  {
    hide EdgesOk, EdgeCond, EarlierInt;
    if k > 0 {
      PhiIntConsHold(p, e, b, x, ins, k - 1, v);
      var q, o := ins[k - 1].0, ins[k - 1].1;
      EdgesGood(p, b);
      if IsPred(p, q, b) {
        assert Holds(Implies(EdgeCond(p, e, q, b), Compare(Eq, IntVar(x), EarlierInt(e, o))), v);
      }
    }
  }

  lemma {:induction false} PhiBoolConsHold(p: Program, e: Enc, b: nat, x: nat, ins: seq<(nat, BoolOperand)>, k: nat, v: Valuation)
    requires EdgesOk(p) && b < |p.blocks| && k <= |ins|
    requires forall j | 0 <= j < k && IsPred(p, ins[j].0, b) && Holds(EdgeCond(p, e, ins[j].0, b), v) ::
               v.bools(BitName(x)) == Holds(EarlierBool(e, ins[j].1), v)
    ensures AllHold(PhiBoolCons(p, e, b, x, ins, k), v)
  {
    hide EdgesOk, EdgeCond, EarlierBool;
    if k > 0 {
      PhiBoolConsHold(p, e, b, x, ins, k - 1, v);
      var q, o := ins[k - 1].0, ins[k - 1].1;
      EdgesGood(p, b);
      if IsPred(p, q, b) {
        ImpliesMeaning(EdgeCond(p, e, q, b), Iff(BoolVar(BitName(x)), EarlierBool(e, o)), v);
        IffMeaning(BoolVar(BitName(x)), EarlierBool(e, o), v);
      }
    }
  }

  /** The value a phi's fresh name needs: that of the entry whose edge is true, if any. */
  lemma PhiIntPickValue(p: Program, b: nat, ins: seq<(nat, IntOperand)>, e: Enc, v: Valuation) returns (n: int)
    requires EdgesOk(p) && b < |p.blocks| && OneEdge(p, e, b, v)
    requires forall j, l | 0 <= j < l < |ins| :: ins[j].0 != ins[l].0
    ensures forall j | 0 <= j < |ins| && IsPred(p, ins[j].0, b) && Holds(EdgeCond(p, e, ins[j].0, b), v) ::
              n == IntVal(EarlierInt(e, ins[j].1), v)
  {
    hide EdgesOk, EdgeCond, Holds, IntVal, EarlierInt;
    EdgesGood(p, b);
    n := 0;
    if j :| 0 <= j < |ins| && IsPred(p, ins[j].0, b) && Holds(EdgeCond(p, e, ins[j].0, b), v) {
      n := IntVal(EarlierInt(e, ins[j].1), v);
    }
  }

  lemma PhiBoolPickValue(p: Program, b: nat, ins: seq<(nat, BoolOperand)>, e: Enc, v: Valuation) returns (n: bool)
    requires EdgesOk(p) && b < |p.blocks| && OneEdge(p, e, b, v)
    requires forall j, l | 0 <= j < l < |ins| :: ins[j].0 != ins[l].0
    ensures forall j | 0 <= j < |ins| && IsPred(p, ins[j].0, b) && Holds(EdgeCond(p, e, ins[j].0, b), v) ::
              n == Holds(EarlierBool(e, ins[j].1), v)
  {
    hide EdgesOk, EdgeCond, Holds, EarlierBool;
    EdgesGood(p, b);
    n := false;
    if j :| 0 <= j < |ins| && IsPred(p, ins[j].0, b) && Holds(EdgeCond(p, e, ins[j].0, b), v) {
      n := Holds(EarlierBool(e, ins[j].1), v);
    }
  }

  lemma PhiIntExtend(p: Program, b: nat, base: seq<BoolTerm>, r: nat, ins: seq<(nat, IntOperand)>, e: Enc, v: Valuation) returns (w: Valuation)
    requires EdgesOk(p) && b < |p.blocks| && Fits(p, b, base, e) && AllWithin(base, ExitLim(p))
    requires AllHold(e.bmcVec, v) && OneEdge(p, e, b, v)
    requires forall j, l | 0 <= j < l < |ins| :: ins[j].0 != ins[l].0
    requires forall j | 0 <= j < |ins| :: ins[j].1 != IReg(r)
    ensures Extends(p, b, e, v, w) && AllHold(EncodePhiInt(p, b, r, ins, e).bmcVec, w)
  {
    hide FitsIn, Holds, EdgesOk, EdgeCond, PhiIntCons, MkAnd, AllHold, Extends, IntVal, OneEdge, Bound, EarlierInt;
    var x := e.nextInt;
    var e1 := SetInt(e, r, IntVar(x)).(nextInt := x + 1);
    var n := PhiIntPickValue(p, b, ins, e, v);
    w := SetIntVar(v, x, n);
    SetIntExtends(p, b, e, v, x, n);
    FitParts(b, base, e, Bound(p, b, e));
    KeepHolding(p, b, base, e, v, w);
    EdgesGood(p, b);
    forall j | 0 <= j < |ins| && IsPred(p, ins[j].0, b) && Holds(EdgeCond(p, e1, ins[j].0, b), w)
      ensures w.ints(x) == IntVal(EarlierInt(e1, ins[j].1), w)
    {
      PhiEdge(p, base, e, e1, ins[j].0, b, v, w);
      EarlierSame(e, e1, r, IntVar(x), ins[j].1);
      EarlierIntFrame(p, b, e, ins[j].1, v, w);
    }
    PhiIntConsHold(p, e1, b, x, ins, |ins|, w);
    MkAndMeaning(PhiIntCons(p, e1, b, x, ins, |ins|), w);
    EmitHolds(e1, MkAnd(PhiIntCons(p, e1, b, x, ins, |ins|)), w);
  }

  lemma EarlierSame(e: Enc, e1: Enc, r: nat, t: IntTerm, o: IntOperand)
    requires e1.intTerms == e.intTerms[r := t] && o != IReg(r)
    ensures EarlierInt(e1, o) == EarlierInt(e, o)
  {
  }

  lemma EarlierBoolSame(e: Enc, e1: Enc, r: nat, t: BoolTerm, o: BoolOperand)
    requires e1.boolTerms == e.boolTerms[r := t] && o != BReg(r)
    ensures EarlierBool(e1, o) == EarlierBool(e, o)
  {
  }

  lemma PhiEdge(p: Program, base: seq<BoolTerm>, e: Enc, e1: Enc, q: nat, b: nat, v: Valuation, w: Valuation)
    requires EdgesOk(p) && b < |p.blocks| && Fits(p, b, base, e) && Extends(p, b, e, v, w) && IsPred(p, q, b)
    requires e1.pathBit == e.pathBit && e1.exitBits == e.exitBits
    ensures Holds(EdgeCond(p, e1, q, b), w) == Holds(EdgeCond(p, e, q, b), v)
  {
    hide Holds, BoolWithin, Agree, VecFits, TermsFit, NamesFit, PathsFit, ExitsFit, EdgesOk;
    EdgeFits(p, e, q, b, Bound(p, b, e));
    assert EdgeCond(p, e1, q, b) == EdgeCond(p, e, q, b);
    BoolFrame(EdgeCond(p, e, q, b), v, w, Bound(p, b, e));
  }

  lemma EarlierIntFrame(p: Program, b: nat, e: Enc, o: IntOperand, v: Valuation, w: Valuation)
    requires b <= |p.blocks| && TermsFit(e, Bound(p, b, e)) && Extends(p, b, e, v, w)
    ensures IntVal(EarlierInt(e, o), w) == IntVal(EarlierInt(e, o), v)
  {
    IntFrame(EarlierInt(e, o), v, w, Bound(p, b, e));
  }

  lemma EarlierBoolFrame(p: Program, b: nat, e: Enc, o: BoolOperand, v: Valuation, w: Valuation)
    requires b <= |p.blocks| && TermsFit(e, Bound(p, b, e)) && Extends(p, b, e, v, w)
    ensures Holds(EarlierBool(e, o), w) == Holds(EarlierBool(e, o), v)
  {
    BoolFrame(EarlierBool(e, o), v, w, Bound(p, b, e));
  }

  lemma PhiBoolExtend(p: Program, b: nat, base: seq<BoolTerm>, r: nat, ins: seq<(nat, BoolOperand)>, e: Enc, v: Valuation) returns (w: Valuation)
    requires EdgesOk(p) && b < |p.blocks| && Fits(p, b, base, e) && AllWithin(base, ExitLim(p))
    requires AllHold(e.bmcVec, v) && OneEdge(p, e, b, v)
    requires forall j, l | 0 <= j < l < |ins| :: ins[j].0 != ins[l].0
    requires forall j | 0 <= j < |ins| :: ins[j].1 != BReg(r)
    ensures Extends(p, b, e, v, w) && AllHold(EncodePhiBool(p, b, r, ins, e).bmcVec, w)
  {
    hide FitsIn, Holds, EdgesOk, EdgeCond, PhiBoolCons, MkAnd, AllHold, Extends, OneEdge, Bound, EarlierBool;
    var x := e.nextBit;
    var e1 := SetBool(e, r, BoolVar(BitName(x))).(nextBit := x + 1);
    var t := PhiBoolPickValue(p, b, ins, e, v);
    w := SetBit(v, x, t);
    SetBitExtends(p, b, e, v, x, t);
    FitParts(b, base, e, Bound(p, b, e));
    KeepHolding(p, b, base, e, v, w);
    EdgesGood(p, b);
    forall j | 0 <= j < |ins| && IsPred(p, ins[j].0, b) && Holds(EdgeCond(p, e1, ins[j].0, b), w)
      ensures w.bools(BitName(x)) == Holds(EarlierBool(e1, ins[j].1), w)
    {
      PhiEdge(p, base, e, e1, ins[j].0, b, v, w);
      EarlierBoolSame(e, e1, r, BoolVar(BitName(x)), ins[j].1);
      EarlierBoolFrame(p, b, e, ins[j].1, v, w);
    }
    PhiBoolConsHold(p, e1, b, x, ins, |ins|, w);
    MkAndMeaning(PhiBoolCons(p, e1, b, x, ins, |ins|), w);
    EmitHolds(e1, MkAnd(PhiBoolCons(p, e1, b, x, ins, |ins|)), w);
  }

  // ----- other instructions -----

  lemma BitMeaning(x: nat, v: Valuation)
    ensures Holds(BoolVar(BitName(x)), v) == v.bools(BitName(x))
  {
  }

  /** A fresh bit can be defined to be any older condition. */
  lemma DefineBit(p: Program, b: nat, base: seq<BoolTerm>, body: BoolTerm, e: Enc, v: Valuation) returns (w: Valuation)
    requires b < |p.blocks| && Fits(p, b, base, e) && AllWithin(base, ExitLim(p))
    requires AllHold(e.bmcVec, v) && BoolWithin(body, Bound(p, b, e))
    ensures Extends(p, b, e, v, w) && AllHold(e.bmcVec, w) && Holds(Iff(BoolVar(BitName(e.nextBit)), body), w)
  {
    hide FitsIn, AllHold, Agree, Holds, BoolWithin, ExitBase;
    w := SetBit(v, e.nextBit, Holds(body, v));
    SetBitExtends(p, b, e, v, e.nextBit, Holds(body, v));
    KeepHolding(p, b, base, e, v, w);
    BoolFrame(body, v, w, Bound(p, b, e));
    BitMeaning(e.nextBit, w);
    IffMeaning(BoolVar(BitName(e.nextBit)), body, w);
  }

  lemma AssumeExtend(p: Program, b: nat, base: seq<BoolTerm>, c: BoolOperand, e: Enc, d: Regs, v: Valuation) returns (w: Valuation)
    requires b < |p.blocks| && Fits(p, b, base, e) && AllWithin(base, ExitLim(p)) && Knows(e, d) && BoolUse(c, d)
    requires AllHold(e.bmcVec, v)
    ensures Extends(p, b, e, v, w) && AllHold(EncodeAssume(b, c, e).bmcVec, w)
  {
    hide FitsIn, Knows, GetBool, AllHold, Extends, PathsFit, TermsFit, NamesFit, ExitsFit, VecFits, BoolWithin, PathOf, Holds, Bound;
    FitParts(b, base, e, Bound(p, b, e));
    BoolOperandFits(e, c, d, Bound(p, b, e));
    PathFits(e, b, Bound(p, b, e));
    var t := GetBool(e, c).1;
    ConjWithin(PathOf(e, b), t, Bound(p, b, e));
    w := DefineBit(p, b, base, Conj([PathOf(e, b), t]), e, v);
    EmitHolds(e, Iff(BoolVar(BitName(e.nextBit)), Conj([PathOf(e, b), t])), w);
  }

  lemma StoreExtend(p: Program, b: nat, base: seq<BoolTerm>, a: nat, idx: IntOperand, val: IntOperand, e: Enc, d: Regs, v: Valuation) returns (w: Valuation)
    requires b < |p.blocks| && Fits(p, b, base, e) && AllWithin(base, ExitLim(p)) && Knows(e, d) && IntUse(idx, d) && IntUse(val, d)
    requires Mem(p, b, e) && a < p.nArrays && AllHold(e.bmcVec, v)
    ensures Extends(p, b, e, v, w) && AllHold(EncodeStore(b, a, idx, val, e).bmcVec, w)
  {
    hide FitsIn, Knows, GetInt, AllHold, Agree, PathsFit, TermsFit, ExitsFit, VecFits;
    var m := Bound(p, b, e);
    FitParts(b, base, e, m);
    IntOperandFits(e, idx, d, m);
    IntOperandFits(e, val, d, m);
    var i, x, old_ := GetInt(e, idx).1, GetInt(e, val).1, AryOf(e, b)[a];
    var content := (k: int) => if k == IntVal(i, v) then IntVal(x, v) else v.arrs(old_, k);
    w := SetArr(v, e.nextArr, content);
    SetArrExtends(p, b, e, v, e.nextArr, content);
    KeepHolding(p, b, base, e, v, w);
    IntFrame(i, v, w, m);
    IntFrame(x, v, w, m);
    assert Holds(ArrStore(e.nextArr, old_, i, x), w);
    EmitHolds(e, ArrStore(e.nextArr, old_, i, x), w);
  }

  lemma StoreGlbExtend(p: Program, b: nat, base: seq<BoolTerm>, g: nat, val: IntOperand, e: Enc, d: Regs, v: Valuation) returns (w: Valuation)
    requires b < |p.blocks| && Fits(p, b, base, e) && AllWithin(base, ExitLim(p)) && Knows(e, d) && IntUse(val, d)
    requires AllHold(e.bmcVec, v)
    ensures Extends(p, b, e, v, w) && AllHold(EncodeStoreGlb(b, g, val, e).bmcVec, w)
  {
    hide FitsIn, Knows, GetInt, AllHold, Agree, PathsFit, TermsFit, ExitsFit, VecFits, NamesFit;
    var m := Bound(p, b, e);
    FitParts(b, base, e, m);
    IntOperandFits(e, val, d, m);
    var x := GetInt(e, val).1;
    w := SetIntVar(v, e.nextInt, IntVal(x, v));
    SetIntExtends(p, b, e, v, e.nextInt, IntVal(x, v));
    KeepHolding(p, b, base, e, v, w);
    IntFrame(x, v, w, m);
    assert Holds(Compare(Eq, IntVar(e.nextInt), x), w);
    EmitHolds(e, Compare(Eq, IntVar(e.nextInt), x), w);
  }

  lemma SameExtends(p: Program, b: nat, e: Enc, v: Valuation)
    requires b <= |p.blocks|
    ensures Extends(p, b, e, v, v)
  {
  }

  /** One instruction: a valuation of everything before it extends to what it emits. */
  lemma InstrExtend(p: Program, dom: seq<Regs>, b: nat, base: seq<BoolTerm>, i: Instr, e: Enc, d: Regs, v: Valuation, inp: Inputs) returns (w: Valuation)
    requires EdgesOk(p) && b < |p.blocks| == |dom| && Fits(p, b, base, e) && AllWithin(base, ExitLim(p)) && Mem(p, b, e)
    requires Knows(e, d) && UsesIn(i, d) && IndexOk(p, i) && PhiOk(p, dom, b, i) && PhiApart(i)
    requires AllHold(e.bmcVec, v) && OneEdge(p, e, b, v)
    ensures Extends(p, b, e, v, w) && AllHold(EncodeInstr(p, b, i, e).bmcVec, w)
    ensures i.NondetInt? ==> w.ints(e.nextInt) == inp.ints(i.dst)
    ensures i.NondetBool? ==> w.bools(BitName(e.nextBit)) == inp.bools(i.dst)
  {
    hide FitsIn, Knows, GetInt, GetBool, EdgesOk, EncodePhiInt, EncodePhiBool, EncodeAssume, EncodeStore, EncodeStoreGlb, Mem, AllHold, OneEdge, Agree, Extends;
    SameExtends(p, b, e, v);
    w := v;
    match i
    case IntBin(_, _, x, y) => GetIntKnown(e, x, d); GetIntKnown(e, y, d);
    case BoolBin(_, _, x, y) => GetBoolKnown(e, x, d); GetBoolKnown(e, y, d);
    case Cmp(_, _, x, y) => GetIntKnown(e, x, d); GetIntKnown(e, y, d);
    case PhiInt(r, ins) => w := PhiIntExtend(p, b, base, r, ins, e, v);
    case PhiBool(r, ins) => w := PhiBoolExtend(p, b, base, r, ins, e, v);
    case NondetInt(r) =>
      w := SetIntVar(v, e.nextInt, inp.ints(r));
      SetIntExtends(p, b, e, v, e.nextInt, inp.ints(r));
      KeepHolding(p, b, base, e, v, w);
    case NondetBool(r) =>
      w := SetBit(v, e.nextBit, inp.bools(r));
      SetBitExtends(p, b, e, v, e.nextBit, inp.bools(r));
      KeepHolding(p, b, base, e, v, w);
    case Assume(c) => w := AssumeExtend(p, b, base, c, e, d, v);
    case AssertBool(c) => GetBoolKnown(e, c, d);
    case AssertInt(x) => GetIntKnown(e, x, d);
    case Load(_, _, x) => GetIntKnown(e, x, d);
    case Store(a, x, y) => w := StoreExtend(p, b, base, a, x, y, e, d, v);
    case LoadGlb(_, _) =>
    case StoreGlb(g, x) => w := StoreGlbExtend(p, b, base, g, x, e, d, v);
  }

  /** A phi does not read the register it defines. */
  ghost predicate PhiApart(i: Instr) {
    match i
    case PhiInt(r, ins) => forall j | 0 <= j < |ins| :: ins[j].1 != IReg(r)
    case PhiBool(r, ins) => forall j | 0 <= j < |ins| :: ins[j].1 != BReg(r)
    case _ => true
  }

  // ----- joins -----

  function WithNext(k: Kind, m: Lim, next: nat): Lim {
    match k
    case Arrays => m.(arrs := next)
    case Globals => m.(ints := next)
  }

  /** Versions of the predecessors are old names. */
  ghost predicate OldNames(vecs: seq<seq<nat>>, size: nat, next: nat) {
    forall i, j: nat | 0 <= i < |vecs| && j < size :: NameAt(vecs[i], j) < next
  }

  lemma NameEqWithin(k: Kind, x: nat, y: nat, m: Lim, next: nat)
    requires x < next && y < next
    ensures BoolWithin(NameEq(k, x, y), WithNext(k, m, next))
  {
  }

  lemma JoinConsFit(k: Kind, vecs: seq<seq<nat>>, conds: seq<BoolTerm>, j: nat, x: nat, m: Lim, next: nat)
    requires |vecs| == |conds| && x < next && AllWithin(conds, WithNext(k, m, next))
    requires forall i | 0 <= i < |vecs| :: NameAt(vecs[i], j) < next
    ensures AllWithin(JoinCons(k, vecs, conds, j, x), WithNext(k, m, next))
  {
    hide NameEq, NameAt;
    forall i | 0 <= i < |conds|
      ensures BoolWithin(JoinCons(k, vecs, conds, j, x)[i], WithNext(k, m, next))
    {
      NameEqWithin(k, x, NameAt(vecs[i], j), m, next);
    }
  }

  lemma {:induction false} JoinFits(k: Kind, vecs: seq<seq<nat>>, conds: seq<BoolTerm>, size: nat, next: nat, m: Lim)
    requires |vecs| == |conds| > 0 && AllWithin(conds, WithNext(k, m, next)) && OldNames(vecs, size, next)
    ensures var r := JoinUpTo(k, vecs, conds, size, next);
            (forall j | 0 <= j < size :: r.names[j] < r.next) && AllWithin(r.cons, WithNext(k, m, r.next))
  {
    hide NameAt, AllWithin, AllSame, JoinCons;
    if size > 0 {
      JoinFits(k, vecs, conds, size - 1, next, m);
      var q := JoinUpTo(k, vecs, conds, size - 1, next);
      var r := JoinUpTo(k, vecs, conds, size, next);
      assert NameAt(vecs[0], size - 1) < next;
      if !AllSame(vecs, size - 1) {
        AllWithinMono(q.cons, WithNext(k, m, q.next), WithNext(k, m, r.next));
        AllWithinMono(conds, WithNext(k, m, next), WithNext(k, m, r.next));
        JoinConsFit(k, vecs, conds, size - 1, q.next, m, r.next);
        AppendWithin(q.cons, JoinCons(k, vecs, conds, size - 1, q.next), WithNext(k, m, r.next));
      }
    } else {
      assert AllWithin([], WithNext(k, m, next)) by { NothingWithin(WithNext(k, m, next)); }
    }
  }

  lemma NothingWithin(m: Lim)
    ensures AllWithin([], m)
  {
  }

  lemma AppendWithin(xs: seq<BoolTerm>, ys: seq<BoolTerm>, m: Lim)
    requires AllWithin(xs, m) && AllWithin(ys, m)
    ensures AllWithin(xs + ys, m)
  {
  }

  /** `x` is made to mean what the older name `y` means. */
  function Alias(k: Kind, v: Valuation, x: nat, y: nat): Valuation {
    match k
    case Arrays => SetArr(v, x, (i: int) => v.arrs(y, i))
    case Globals => SetIntVar(v, x, v.ints(y))
  }

  lemma AliasMeans(k: Kind, v: Valuation, x: nat, y: nat, m: Lim)
    requires y != x
    ensures Holds(NameEq(k, x, y), Alias(k, v, x, y)) && Agree(v, Alias(k, v, x, y), WithNext(k, m, x)) && Alias(k, v, x, y).bools == v.bools
  {
  }

  /** Incoming conditions that are true together come from the same predecessor. */
  ghost predicate OneCond(vecs: seq<seq<nat>>, conds: seq<BoolTerm>, v: Valuation)
    requires |vecs| == |conds|
  {
    forall i, j | 0 <= i < |conds| && 0 <= j < |conds| && Holds(conds[i], v) && Holds(conds[j], v) :: vecs[i] == vecs[j]
  }

  lemma JoinConsHold(k: Kind, vecs: seq<seq<nat>>, conds: seq<BoolTerm>, j: nat, x: nat, v: Valuation)
    requires |vecs| == |conds|
    requires forall i | 0 <= i < |conds| && Holds(conds[i], v) :: Holds(NameEq(k, x, NameAt(vecs[i], j)), v)
    ensures AllHold(JoinCons(k, vecs, conds, j, x), v)
  {
    hide NameEq, NameAt, Holds;
    forall i | 0 <= i < |conds|
      ensures Holds(JoinCons(k, vecs, conds, j, x)[i], v)
    {
      ImpliesMeaning(conds[i], NameEq(k, x, NameAt(vecs[i], j)), v);
    }
  }

  /** Which older name the fresh version `j` must follow. */
  lemma PickName(k: Kind, vecs: seq<seq<nat>>, conds: seq<BoolTerm>, j: nat, v: Valuation) returns (y: nat)
    requires |vecs| == |conds| > 0 && OneCond(vecs, conds, v)
    ensures exists i :: 0 <= i < |vecs| && y == NameAt(vecs[i], j)
    ensures forall i | 0 <= i < |conds| && Holds(conds[i], v) :: NameAt(vecs[i], j) == y
  {
    hide NameAt, Holds;
    y := NameAt(vecs[0], j);
    if i :| 0 <= i < |conds| && Holds(conds[i], v) {
      y := NameAt(vecs[i], j);
    }
  }

  lemma CondsFrame(conds: seq<BoolTerm>, v: Valuation, w: Valuation, m: Lim)
    requires AllWithin(conds, m) && Agree(v, w, m)
    ensures forall i | 0 <= i < |conds| :: Holds(conds[i], w) == Holds(conds[i], v)
  {
    forall i | 0 <= i < |conds| ensures Holds(conds[i], w) == Holds(conds[i], v) { BoolFrame(conds[i], v, w, m); }
  }

  /** All fresh versions of a join can be chosen. */
  lemma {:induction false} JoinExtend(k: Kind, vecs: seq<seq<nat>>, conds: seq<BoolTerm>, size: nat, next: nat, m: Lim, v: Valuation) returns (w: Valuation)
    requires |vecs| == |conds| > 0 && AllWithin(conds, WithNext(k, m, next)) && OldNames(vecs, size, next) && OneCond(vecs, conds, v)
    ensures Agree(v, w, WithNext(k, m, next)) && w.bools == v.bools && AllHold(JoinUpTo(k, vecs, conds, size, next).cons, w)
  {
    hide NameAt, AllWithin, AllSame, JoinCons, Holds, AllHold, Agree, NameEq, Alias;
    if size == 0 {
      w := v;
      AgreeSelf(v, WithNext(k, m, next));
      NothingHolds(v);
    } else {
      var u := JoinExtend(k, vecs, conds, size - 1, next, m, v);
      var q := JoinUpTo(k, vecs, conds, size - 1, next);
      if AllSame(vecs, size - 1) {
        w := u;
      } else {
        JoinFits(k, vecs, conds, size - 1, next, m);
        CondsFrame(conds, v, u, WithNext(k, m, next));
        var y := PickName(k, vecs, conds, size - 1, u);
        w := Alias(k, u, q.next, y);
        AliasMeans(k, u, q.next, y, m);
        AgreeTrans(v, u, w, WithNext(k, m, next), WithNext(k, m, q.next));
        CondsFrame(conds, v, w, WithNext(k, m, next));
        AllFrame(q.cons, u, w, WithNext(k, m, q.next));
        JoinConsHold(k, vecs, conds, size - 1, q.next, w);
        SplitHold(q.cons, JoinCons(k, vecs, conds, size - 1, q.next), w);
      }
    }
  }

  lemma AgreeSelf(v: Valuation, m: Lim)
    ensures Agree(v, v, m)
  {
  }

  lemma NothingHolds(v: Valuation)
    ensures AllHold([], v)
  {
  }

  // ----- entering a block -----

  ghost predicate PredsMem(p: Program, b: nat, e: Enc) { forall q: nat | q < b :: Mem(p, q, e) }

  lemma IncomingFits(p: Program, b: nat, base: seq<BoolTerm>, e: Enc)
    requires EdgesOk(p) && b < |p.blocks| && Fits(p, b, base, e)
    ensures AllWithin(Incoming(p, e, b), Bound(p, b, e))
  {
    hide EdgesOk, BoolWithin, PathsFit, ExitsFit, NamesFit, TermsFit, VecFits, EdgeCond;
    var conds := Incoming(p, e, b);
    PredsLong(p);
    forall i | 0 <= i < |conds| ensures BoolWithin(conds[i], Bound(p, b, e)) {
      EdgeFits(p, e, p.preds[b][i], b, Bound(p, b, e));
    }
  }

  lemma PredsLong(p: Program)
    requires EdgesOk(p)
    ensures |p.preds| == |p.blocks| > 0
  {
  }

  lemma PredNames(p: Program, b: nat, base: seq<BoolTerm>, e: Enc)
    requires EdgesOk(p) && 0 < b < |p.blocks| && Fits(p, b, base, e) && PredsMem(p, b, e)
    ensures |p.preds| == |p.blocks| && |p.preds[b]| > 0
    ensures OldNames(VecsOf(e.ary, p.preds[b]), p.nArrays, e.nextArr)
    ensures OldNames(VecsOf(e.glb, p.preds[b]), |p.glbInit|, e.nextInt)
  {
    hide EdgesOk, BoolWithin, PathsFit, ExitsFit, TermsFit, VecFits;
    HasPred(p, b);
    EdgesGood(p, b);
    forall i | 0 <= i < |p.preds[b]| ensures Mem(p, p.preds[b][i], e) { assert IsPred(p, p.preds[b][i], b); }
  }

  lemma OneEdgeOneCond(p: Program, b: nat, e: Enc, v: Valuation, m: map<nat, seq<nat>>)
    requires EdgesOk(p) && b < |p.blocks| && OneEdge(p, e, b, v)
    ensures |p.preds| == |p.blocks| && OneCond(VecsOf(m, p.preds[b]), Incoming(p, e, b), v)
  {
    hide Holds, EdgeCond;
    var conds := Incoming(p, e, b);
    forall i, j | 0 <= i < |conds| && 0 <= j < |conds| && Holds(conds[i], v) && Holds(conds[j], v)
      ensures p.preds[b][i] == p.preds[b][j]
    {
      assert IsPred(p, p.preds[b][i], b) && IsPred(p, p.preds[b][j], b);
    }
  }

  /** `JoinArrays` and `JoinGlobals` keep everything within the bounds. */
  lemma JoinArraysFits(p: Program, b: nat, base: seq<BoolTerm>, conds: seq<BoolTerm>, e: Enc)
    requires b < |p.blocks| == |p.preds| && |conds| == |p.preds[b]| > 0 && Fits(p, b, base, e)
    requires AllWithin(conds, Bound(p, b, e)) && OldNames(VecsOf(e.ary, p.preds[b]), p.nArrays, e.nextArr)
    ensures Fits(p, b, base, JoinArrays(p, b, conds, e))
  {
    hide FitsIn, OldNames, AllWithin, MkAnd, JoinUpTo;
    var j := JoinUpTo(Arrays, VecsOf(e.ary, p.preds[b]), conds, p.nArrays, e.nextArr);
    var m := Bound(p, b, e);
    var e1 := e.(ary := e.ary[b := j.names]);
    var e2 := e1.(nextArr := j.next);
    var m' := Bound(p, b, e2);
    JoinFits(Arrays, VecsOf(e.ary, p.preds[b]), conds, p.nArrays, e.nextArr, m);
    FitsMono(b, base, e, m, m');
    SetAryFits(b, base, e, b, j.names, m');
    CountersFit(b, base, e1, e2, m');
    MkAndWithin(j.cons, m');
    EmitFits(b, base, e2, [MkAnd(j.cons)], m') by { OneWithin(MkAnd(j.cons), m'); }
  }

  lemma OneWithin(c: BoolTerm, m: Lim)
    requires BoolWithin(c, m)
    ensures AllWithin([c], m)
  {
  }

  lemma JoinGlobalsFits(p: Program, b: nat, base: seq<BoolTerm>, conds: seq<BoolTerm>, e: Enc)
    requires b < |p.blocks| == |p.preds| && |conds| == |p.preds[b]| > 0 && Fits(p, b, base, e)
    requires AllWithin(conds, Bound(p, b, e)) && OldNames(VecsOf(e.glb, p.preds[b]), |p.glbInit|, e.nextInt)
    ensures Fits(p, b, base, JoinGlobals(p, b, conds, e))
  {
    hide FitsIn, OldNames, AllWithin, MkAnd, JoinUpTo;
    var j := JoinUpTo(Globals, VecsOf(e.glb, p.preds[b]), conds, |p.glbInit|, e.nextInt);
    var m := Bound(p, b, e);
    var e1 := e.(glb := e.glb[b := j.names]);
    var e2 := e1.(nextInt := j.next);
    var m' := Bound(p, b, e2);
    JoinFits(Globals, VecsOf(e.glb, p.preds[b]), conds, |p.glbInit|, e.nextInt, m);
    FitsMono(b, base, e, m, m');
    SetGlbFits(b, base, e, b, j.names, m');
    CountersFit(b, base, e1, e2, m');
    MkAndWithin(j.cons, m');
    EmitFits(b, base, e2, [MkAnd(j.cons)], m') by { OneWithin(MkAnd(j.cons), m'); }
  }

  lemma JoinArraysExtend(p: Program, b: nat, base: seq<BoolTerm>, conds: seq<BoolTerm>, e: Enc, v: Valuation) returns (w: Valuation)
    requires b < |p.blocks| == |p.preds| && |conds| == |p.preds[b]| > 0 && Fits(p, b, base, e) && AllWithin(base, ExitLim(p))
    requires AllWithin(conds, Bound(p, b, e)) && OldNames(VecsOf(e.ary, p.preds[b]), p.nArrays, e.nextArr)
    requires AllHold(e.bmcVec, v) && OneCond(VecsOf(e.ary, p.preds[b]), conds, v)
    ensures Extends(p, b, e, v, w) && AllHold(JoinArrays(p, b, conds, e).bmcVec, w)
  {
    hide FitsIn, OldNames, AllWithin, MkAnd, JoinUpTo, OneCond, AllHold, Holds;
    var vecs := VecsOf(e.ary, p.preds[b]);
    w := JoinExtend(Arrays, vecs, conds, p.nArrays, e.nextArr, Bound(p, b, e), v);
    KeepHolding(p, b, base, e, v, w);
    var j := JoinUpTo(Arrays, vecs, conds, p.nArrays, e.nextArr);
    MkAndMeaning(j.cons, w);
    EmitHolds(e.(ary := e.ary[b := j.names], nextArr := j.next), MkAnd(j.cons), w);
  }

  lemma JoinGlobalsExtend(p: Program, b: nat, base: seq<BoolTerm>, conds: seq<BoolTerm>, e: Enc, v: Valuation) returns (w: Valuation)
    requires b < |p.blocks| == |p.preds| && |conds| == |p.preds[b]| > 0 && Fits(p, b, base, e) && AllWithin(base, ExitLim(p))
    requires AllWithin(conds, Bound(p, b, e)) && OldNames(VecsOf(e.glb, p.preds[b]), |p.glbInit|, e.nextInt)
    requires AllHold(e.bmcVec, v) && OneCond(VecsOf(e.glb, p.preds[b]), conds, v)
    ensures Extends(p, b, e, v, w) && AllHold(JoinGlobals(p, b, conds, e).bmcVec, w)
  {
    hide FitsIn, OldNames, AllWithin, MkAnd, JoinUpTo, OneCond, AllHold, Holds;
    var vecs := VecsOf(e.glb, p.preds[b]);
    w := JoinExtend(Globals, vecs, conds, |p.glbInit|, e.nextInt, Bound(p, b, e), v);
    KeepHolding(p, b, base, e, v, w);
    var j := JoinUpTo(Globals, vecs, conds, |p.glbInit|, e.nextInt);
    MkAndMeaning(j.cons, w);
    EmitHolds(e.(glb := e.glb[b := j.names], nextInt := j.next), MkAnd(j.cons), w);
  }

  lemma ExtendsTrans(p: Program, b: nat, e: Enc, f: Enc, u: Valuation, v: Valuation, w: Valuation)
    requires b <= |p.blocks| && Extends(p, b, e, u, v) && Extends(p, b, f, v, w) && LimLe(Bound(p, b, e), Bound(p, b, f))
    ensures Extends(p, b, e, u, w)
  {
    hide Agree, Bound;
    AgreeTrans(u, v, w, Bound(p, b, e), Bound(p, b, f));
    AgreeTrans(u, v, w, ExitLim(p), ExitLim(p));
  }

  /** The path constraint of block `b` is met: if it was entered, some incoming edge is true. */
  ghost predicate PathMet(p: Program, b: nat, e: Enc, v: Valuation)
    requires EdgesOk(p) && b < |p.blocks|
  {
    Holds(PathOf(e, b), v) ==> exists q: nat :: IsPred(p, q, b) && Holds(EdgeCond(p, e, q, b), v)
  }

  lemma PathConsHolds(p: Program, b: nat, e: Enc, v: Valuation)
    requires EdgesOk(p) && 0 < b < |p.blocks| && PathMet(p, b, e, v)
    ensures Holds(Implies(PathOf(e, b), MkOr(Incoming(p, e, b))), v)
  {
    hide Holds, EdgeCond, MkOr, EdgesOk, PathOf;
    var conds := Incoming(p, e, b);
    ImpliesMeaning(PathOf(e, b), MkOr(conds), v);
    MkOrMeaning(conds, v);
    EdgesGood(p, b);
    if Holds(PathOf(e, b), v) {
      var q: nat :| IsPred(p, q, b) && Holds(EdgeCond(p, e, q, b), v);
      var i :| 0 <= i < |p.preds[b]| && p.preds[b][i] == q;
      assert Holds(conds[i], v);
    }
  }

  /** Entering block `b`: bounds. */
  lemma EnterFits(p: Program, b: nat, base: seq<BoolTerm>, e: Enc)
    requires EdgesOk(p) && 0 < b < |p.blocks| && Fits(p, b, base, e) && PredsMem(p, b, e)
    ensures Fits(p, b, base, EnterBlock(p, b, e)) && Mem(p, b, EnterBlock(p, b, e))
    ensures LimLe(Bound(p, b, e), Bound(p, b, EnterBlock(p, b, e)))
  {
    hide FitsIn, OldNames, AllWithin, MkOr, JoinUpTo, EdgesOk, PredsMem, MkAnd;
    PredNames(p, b, base, e);
    IncomingFits(p, b, base, e);
    var conds := Incoming(p, e, b);
    var c := Implies(PathOf(e, b), MkOr(conds));
    var e1 := Emit(e, c);
    var e2 := JoinArrays(p, b, conds, e1);
    FitParts(b, base, e, Bound(p, b, e));
    PathFits(e, b, Bound(p, b, e));
    MkAndWithin(conds, Bound(p, b, e));
    OneWithin(c, Bound(p, b, e));
    EmitFits(b, base, e, [c], Bound(p, b, e));
    JoinArraysFits(p, b, base, conds, e1);
    CondsMono(conds, Bound(p, b, e1), Bound(p, b, e2));
    JoinGlobalsFits(p, b, base, conds, e2);
  }

  lemma CondsMono(conds: seq<BoolTerm>, m: Lim, m': Lim)
    requires AllWithin(conds, m) && LimLe(m, m')
    ensures AllWithin(conds, m')
  {
    AllWithinMono(conds, m, m');
  }

  /** Entering block `b`: a valuation of everything before extends to the path and join constraints. */
  lemma EnterExtend(p: Program, b: nat, base: seq<BoolTerm>, e: Enc, v: Valuation) returns (w: Valuation)
    requires EdgesOk(p) && 0 < b < |p.blocks| && Fits(p, b, base, e) && PredsMem(p, b, e) && AllWithin(base, ExitLim(p))
    requires AllHold(e.bmcVec, v) && OneEdge(p, e, b, v) && PathMet(p, b, e, v)
    ensures Extends(p, b, e, v, w) && AllHold(EnterBlock(p, b, e).bmcVec, w)
  {
    hide FitsIn, OldNames, AllWithin, MkOr, JoinUpTo, EdgesOk, PredsMem, MkAnd, OneEdge, PathMet, Holds, AllHold, Extends, OneCond;
    PredNames(p, b, base, e);
    IncomingFits(p, b, base, e);
    var conds := Incoming(p, e, b);
    var c := Implies(PathOf(e, b), MkOr(conds));
    var e1 := Emit(e, c);
    var e2 := JoinArrays(p, b, conds, e1);
    PathConsHolds(p, b, e, v);
    EmitHolds(e, c, v);
    FitParts(b, base, e, Bound(p, b, e));
    PathFits(e, b, Bound(p, b, e));
    MkAndWithin(conds, Bound(p, b, e));
    OneWithin(c, Bound(p, b, e));
    EmitFits(b, base, e, [c], Bound(p, b, e));
    JoinArraysFits(p, b, base, conds, e1);
    OneEdgeOneCond(p, b, e, v, e.ary);
    OneEdgeOneCond(p, b, e, v, e.glb);
    var u := JoinArraysExtend(p, b, base, conds, e1, v);
    CondsMono(conds, Bound(p, b, e1), Bound(p, b, e2));
    OneCondFrame(p, b, e1, VecsOf(e.glb, p.preds[b]), conds, v, u);
    w := JoinGlobalsExtend(p, b, base, conds, e2, u);
    ExtendsTrans(p, b, e1, e2, v, u, w);
    ExtendsSame(p, b, e, e1, v, w);
  }

  lemma ExtendsSame(p: Program, b: nat, e: Enc, f: Enc, v: Valuation, w: Valuation)
    requires b <= |p.blocks| && Extends(p, b, f, v, w) && LimLe(Bound(p, b, e), Bound(p, b, f))
    ensures Extends(p, b, e, v, w)
  {
    assert forall n | NameWithin(n, Bound(p, b, e)) :: NameWithin(n, Bound(p, b, f));
  }

  lemma OneCondFrame(p: Program, b: nat, e: Enc, vecs: seq<seq<nat>>, conds: seq<BoolTerm>, v: Valuation, w: Valuation)
    requires b <= |p.blocks| && |vecs| == |conds| && AllWithin(conds, Bound(p, b, e)) && Extends(p, b, e, v, w)
    requires OneCond(vecs, conds, v)
    ensures OneCond(vecs, conds, w)
  {
    hide Holds, AllWithin, Agree;
    CondsFrame(conds, v, w, Bound(p, b, e));
  }

  // ----- leaving a block -----

  /** The exit names of block `b` are given meaning: successor `j` is taken. */
  function SetExits(v: Valuation, base: nat, k: nat, j: nat): Valuation {
    v.(bools := (x: BoolName) =>
         if x.ExitName? && base <= x.id < base + ExitCount(k) then ExitValue(base, k, j, x.id) else v.bools(x))
  }

  predicate ExitValue(base: nat, k: nat, j: nat, id: nat) { if k == 2 then j == 0 else id == base + j }

  lemma SetExitsMeans(v: Valuation, base: nat, k: nat, j: nat, i: nat)
    requires i < k && j < k
    ensures Holds(FreshExits(base, k)[i], SetExits(v, base, k, j)) == (i == j)
  {
    var xs, w := FreshExits(base, k), SetExits(v, base, k, j);
    if k == 1 {
      assert xs[i] == BoolLit(true);
    } else if k == 2 {
      assert base < base + ExitCount(k);
      assert w.bools(ExitName(base)) == ExitValue(base, k, j, base);
    } else {
      assert base <= base + i < base + ExitCount(k);
      assert w.bools(ExitName(base + i)) == ExitValue(base, k, j, base + i);
      assert xs[i] == BoolVar(ExitName(base + i)) && w.bools(ExitName(base + i)) == (base + i == base + j);
    }
  }

  lemma SetExitsAgrees(p: Program, b: nat, e: Enc, v: Valuation, k: nat, j: nat)
    requires b < |p.blocks|
    ensures Agree(v, SetExits(v, ExitBase(p, b), k, j), Bound(p, b, e))
  {
  }

  /** "One of the exits is taken", for every block with three or more successors. */
  function TakenCons(p: Program, c: nat): seq<BoolTerm>
    requires c < |p.blocks|
  {
    var k := |Succs(p.blocks[c].term)|;
    if k >= 3 then [MkOr(FreshExits(ExitBase(p, c), k))] else []
  }

  function Ors(p: Program, c: nat): seq<BoolTerm>
    requires c <= |p.blocks|
  {
    if c == 0 then [] else Ors(p, c - 1) + TakenCons(p, c - 1)
  }

  lemma NextExitIs(p: Program, c: nat, e: Enc)
    requires c <= |p.blocks| && e.nextExit == 0
    ensures InitBits(p, c, e).nextExit == ExitBase(p, c)
  {
    hide InitBits, FreshExits, ExitsOf;
    InitExits(p, c, e, 0);
  }

  lemma BlockVec(p: Program, c: nat, e: Enc)
    requires c < |p.blocks| && e.nextExit == ExitBase(p, c)
    ensures InitBlockBits(p, c, e).bmcVec == e.bmcVec + TakenCons(p, c)
  {
    hide MkOr, FreshExits, ExitCount, Succs;
    assert e.bmcVec + [] == e.bmcVec;
  }

  lemma {:induction false} InitVec(p: Program, c: nat, e: Enc)
    requires c <= |p.blocks| && e.nextExit == 0 && e.bmcVec == []
    ensures InitBits(p, c, e).bmcVec == Ors(p, c)
  {
    hide InitBlockBits, TakenCons, ExitBase;
    if c > 0 {
      InitVec(p, c - 1, e);
      NextExitIs(p, c - 1, e);
      BlockVec(p, c - 1, InitBits(p, c - 1, e));
    }
  }

  lemma PrepareVec(p: Program)
    ensures Prepare(p).bmcVec == Ors(p, |p.blocks|)
  {
    hide InitBits;
    var e := InitMemory(p, EMPTY);
    ParamsExits(e, p.intParams, |p.intParams|);
    ParamsExits(ParamsInt(e, p.intParams, |p.intParams|), p.boolParams, |p.boolParams|);
    ParamsSpecs(e, p.intParams, |p.intParams|);
    ParamsSpecs(ParamsInt(e, p.intParams, |p.intParams|), p.boolParams, |p.boolParams|);
    InitVec(p, |p.blocks|, InitParams(p, e));
  }

  lemma {:induction false} ExitBaseMono(p: Program, b: nat, c: nat)
    requires b <= c <= |p.blocks|
    ensures ExitBase(p, b) <= ExitBase(p, c)
    decreases c
  {
    hide Succs, ExitCount;
    if b < c { ExitBaseMono(p, b, c - 1); }
  }

  lemma FreshWithin(next: nat, k: nat, m: Lim)
    requires next + ExitCount(k) <= m.exits
    ensures AllWithin(FreshExits(next, k), m)
  {
  }

  lemma TakenWithin(p: Program, c: nat)
    requires c < |p.blocks|
    ensures AllWithin(TakenCons(p, c), ExitLim(p))
  {
    hide BoolWithin, FreshExits, Succs, MkOr;
    var k := |Succs(p.blocks[c].term)|;
    ExitBaseMono(p, c + 1, |p.blocks|);
    if k >= 3 {
      FreshWithin(ExitBase(p, c), k, ExitLim(p));
      MkAndWithin(FreshExits(ExitBase(p, c), k), ExitLim(p));
    }
  }

  lemma {:induction false} OrsWithin(p: Program, c: nat)
    requires c <= |p.blocks|
    ensures AllWithin(Ors(p, c), ExitLim(p))
  {
    hide AllWithin, TakenCons;
    if c > 0 {
      OrsWithin(p, c - 1);
      TakenWithin(p, c - 1);
      AppendWithin(Ors(p, c - 1), TakenCons(p, c - 1), ExitLim(p));
    } else {
      NothingWithin(ExitLim(p));
    }
  }

  /** Exits of other blocks keep their meaning. */
  lemma FreshElsewhere(p: Program, b: nat, c: nat, v: Valuation, j: nat, i: nat)
    requires b < |p.blocks| && c < |p.blocks| && b != c && i < |Succs(p.blocks[c].term)|
    ensures var t := FreshExits(ExitBase(p, c), |Succs(p.blocks[c].term)|)[i];
            Holds(t, SetExits(v, ExitBase(p, b), |Succs(p.blocks[b].term)|, j)) == Holds(t, v)
  {
    hide Succs;
    if c < b { ExitBaseMono(p, c + 1, b); } else { ExitBaseMono(p, b + 1, c); }
    FreshApart(ExitBase(p, c), |Succs(p.blocks[c].term)|, i, ExitBase(p, b), |Succs(p.blocks[b].term)|, v, j);
  }

  lemma FreshApart(next: nat, k: nat, i: nat, base: nat, l: nat, v: Valuation, j: nat)
    requires i < k && (next + ExitCount(k) <= base || base + ExitCount(l) <= next)
    ensures Holds(FreshExits(next, k)[i], SetExits(v, base, l, j)) == Holds(FreshExits(next, k)[i], v)
  {
    var xs, w := FreshExits(next, k), SetExits(v, base, l, j);
    if k == 1 {
      assert xs[i] == BoolLit(true);
    } else if k == 2 {
      assert w.bools(ExitName(next)) == v.bools(ExitName(next));
    } else {
      assert xs[i] == BoolVar(ExitName(next + i)) && w.bools(ExitName(next + i)) == v.bools(ExitName(next + i));
    }
  }

  lemma TakenConsHold(p: Program, b: nat, c: nat, v: Valuation, j: nat)
    requires b < |p.blocks| && c < |p.blocks| && j < |Succs(p.blocks[b].term)| && AllHold(TakenCons(p, c), v)
    ensures AllHold(TakenCons(p, c), SetExits(v, ExitBase(p, b), |Succs(p.blocks[b].term)|, j))
  {
    hide Holds, FreshExits, MkOr, SetExits, ExitBase, Succs;
    var k := |Succs(p.blocks[c].term)|;
    var xs, w := FreshExits(ExitBase(p, c), k), SetExits(v, ExitBase(p, b), |Succs(p.blocks[b].term)|, j);
    if k >= 3 {
      MkOrMeaning(xs, v);
      MkOrMeaning(xs, w);
      if b == c {
        SetExitsMeans(v, ExitBase(p, b), k, j, j);
      } else {
        assert TakenCons(p, c)[0] == MkOr(xs);
        var i :| 0 <= i < |xs| && Holds(xs[i], v);
        FreshElsewhere(p, b, c, v, j, i);
      }
    }
  }

  lemma {:induction false} OrsHold(p: Program, b: nat, c: nat, v: Valuation, j: nat)
    requires b < |p.blocks| && c <= |p.blocks| && j < |Succs(p.blocks[b].term)| && AllHold(Ors(p, c), v)
    ensures AllHold(Ors(p, c), SetExits(v, ExitBase(p, b), |Succs(p.blocks[b].term)|, j))
  {
    hide Holds, TakenCons, SetExits, ExitBase, Succs;
    if c > 0 {
      SplitHold(Ors(p, c - 1), TakenCons(p, c - 1), v);
      OrsHold(p, b, c - 1, v, j);
      TakenConsHold(p, b, c - 1, v, j);
      SplitHold(Ors(p, c - 1), TakenCons(p, c - 1), SetExits(v, ExitBase(p, b), |Succs(p.blocks[b].term)|, j));
    }
  }

  /** All constraints so far survive settling the exits of `b`. */
  lemma KeepAtExit(p: Program, b: nat, e: Enc, v: Valuation, j: nat)
    requires b < |p.blocks| && j < |Succs(p.blocks[b].term)| && Fits(p, b, Ors(p, |p.blocks|), e) && AllHold(e.bmcVec, v)
    ensures AllHold(e.bmcVec, SetExits(v, ExitBase(p, b), |Succs(p.blocks[b].term)|, j))
  {
    hide Holds, BoolWithin, Agree, TermsFit, PathsFit, NamesFit, ExitsFit, SetExits, Succs, Ors;
    var base := Ors(p, |p.blocks|);
    var rest := e.bmcVec[|base|..];
    var w := SetExits(v, ExitBase(p, b), |Succs(p.blocks[b].term)|, j);
    assert e.bmcVec == base + rest;
    SplitHold(base, rest, v);
    OrsHold(p, b, |p.blocks|, v, j);
    SetExitsAgrees(p, b, e, v, |Succs(p.blocks[b].term)|, j);
    AllFrame(rest, v, w, Bound(p, b, e));
    SplitHold(base, rest, w);
  }

  lemma BranchExtend(p: Program, b: nat, e: Enc, d: Regs, v: Valuation) returns (w: Valuation)
    requires b < |p.blocks| && p.blocks[b].term.Branch? && Knows(e, d) && BoolUse(p.blocks[b].term.cond, d)
    requires Fits(p, b, Ors(p, |p.blocks|), e) && AllHold(e.bmcVec, v)
    requires ExitsOf(e, b) == FreshExits(ExitBase(p, b), 2)
    ensures Agree(v, w, Bound(p, b, e)) && AllHold(EncodeBranch(b, p.blocks[b].term.cond, e).bmcVec, w)
  {
    hide FitsIn, Knows, GetBool, AllHold, Agree, TermsFit, Holds, Ors, SetExits, FreshExits, PathsFit, NamesFit, ExitsFit, VecFits, Bound;
    var c := p.blocks[b].term.cond;
    FitParts(b, Ors(p, |p.blocks|), e, Bound(p, b, e));
    BoolOperandFits(e, c, d, Bound(p, b, e));
    var t := GetBool(e, c).1;
    var j := if Holds(t, v) then 0 else 1;
    w := SetExits(v, ExitBase(p, b), 2, j);
    SetExitsAgrees(p, b, e, v, 2, j);
    KeepAtExit(p, b, e, v, j);
    SetExitsMeans(v, ExitBase(p, b), 2, j, 0);
    BoolFrame(t, v, w, Bound(p, b, e));
    IffMeaning(t, ExitOf(e, b, 0), w);
    EmitHolds(e, Iff(t, ExitOf(e, b, 0)), w);
  }

  lemma SwitchConsHold(cases: seq<(int, nat)>, xs: seq<BoolTerm>, u: IntTerm, v: Valuation, j: nat)
    requires |xs| == |cases| + 1
    requires forall i, l | 0 <= i < l < |cases| :: cases[i].0 != cases[l].0
    requires j == if CaseIndex(cases, IntVal(u, v)) < |cases| then CaseIndex(cases, IntVal(u, v)) + 1 else 0
    requires forall i: nat | i < |xs| :: Holds(xs[i], v) == (i == j)
    ensures AllHold(SwitchCons(cases, u, xs), v) && Holds(Iff(MkAnd(NoCase(cases, u)), xs[0]), v)
  {
    hide MkAnd, Holds, IntVal, CaseTerm;
    var cs, none := SwitchCons(cases, u, xs), NoCase(cases, u);
    forall i: nat | i < |cases|
      ensures Holds(cs[i], v)
      ensures Holds(none[i], v) == (cases[i].0 != IntVal(u, v))
    {
      CaseMeaning(cases[i].0, u, xs[i + 1], v);
      assert Holds(xs[i + 1], v) == (i + 1 == j);
    }
    MkAndMeaning(none, v);
    IffMeaning(MkAnd(none), xs[0], v);
    var m := CaseIndex(cases, IntVal(u, v));
    if m < |cases| { assert !Holds(none[m], v); }
  }

  lemma SwitchExtend(p: Program, b: nat, e: Enc, d: Regs, v: Valuation) returns (w: Valuation)
    requires b < |p.blocks| && p.blocks[b].term.Switch? && Knows(e, d) && IntUse(p.blocks[b].term.scrut, d) && SuccsDistinct(p)
    requires Fits(p, b, Ors(p, |p.blocks|), e) && AllHold(e.bmcVec, v)
    requires ExitsOf(e, b) == FreshExits(ExitBase(p, b), |Succs(p.blocks[b].term)|)
    ensures Agree(v, w, Bound(p, b, e)) && AllHold(EncodeSwitch(b, p.blocks[b].term.scrut, p.blocks[b].term.cases, e).bmcVec, w)
  {
    hide FitsIn, Knows, GetInt, AllHold, Agree, TermsFit, Holds, Ors, SetExits, FreshExits, PathsFit, NamesFit, ExitsFit, VecFits, Bound, MkAnd, IntVal, SuccsDistinct;
    var t := p.blocks[b].term;
    var cases, k := t.cases, |Succs(t)|;
    FitParts(b, Ors(p, |p.blocks|), e, Bound(p, b, e));
    IntOperandFits(e, t.scrut, d, Bound(p, b, e));
    var u, xs := GetInt(e, t.scrut).1, ExitsOf(e, b);
    var j := if CaseIndex(cases, IntVal(u, v)) < |cases| then CaseIndex(cases, IntVal(u, v)) + 1 else 0;
    w := SetExits(v, ExitBase(p, b), k, j);
    SetExitsAgrees(p, b, e, v, k, j);
    KeepAtExit(p, b, e, v, j);
    forall i: nat | i < |xs| ensures Holds(xs[i], w) == (i == j) { SetExitsMeans(v, ExitBase(p, b), k, j, i); }
    IntFrame(u, v, w, Bound(p, b, e));
    CasesDistinct(p, b);
    SwitchConsHold(cases, xs, u, w, j);
    var last := Iff(MkAnd(NoCase(cases, u)), xs[0]);
    SplitHold(SwitchCons(cases, u, xs), [last], w);
    OneHolds(last, w);
    SplitHold(e.bmcVec, SwitchCons(cases, u, xs) + [last], w);
  }

  lemma OneHolds(c: BoolTerm, v: Valuation)
    requires Holds(c, v)
    ensures AllHold([c], v)
  {
  }

  lemma ReturnExtend(p: Program, b: nat, e: Enc, d: Regs, v: Valuation) returns (w: Valuation)
    requires b < |p.blocks| && p.blocks[b].term.Return? && Knows(e, d) && TermUsesIn(p.blocks[b].term, d)
    requires Fits(p, b, Ors(p, |p.blocks|), e) && AllHold(e.bmcVec, v)
    ensures Agree(v, w, Bound(p, b, e)) && AllHold(EncodeReturn(p.blocks[b].term.ret, e).bmcVec, w)
  {
    hide FitsIn, Knows, GetInt, AllHold, Agree, TermsFit, Ors, PathsFit, NamesFit, ExitsFit, VecFits, Bound;
    var r := p.blocks[b].term.ret;
    if r.None? {
      w := v;
      AgreeSelf(v, Bound(p, b, e));
    } else {
      FitParts(b, Ors(p, |p.blocks|), e, Bound(p, b, e));
      IntOperandFits(e, r.value, d, Bound(p, b, e));
      var x := GetInt(e, r.value).1;
      w := SetIntVar(v, e.nextInt, IntVal(x, v));
      SetIntExtends(p, b, e, v, e.nextInt, IntVal(x, v));
      OrsWithin(p, |p.blocks|);
      KeepHolding(p, b, Ors(p, |p.blocks|), e, v, w);
      IntFrame(x, v, w, Bound(p, b, e));
      assert Holds(Compare(Eq, IntVar(e.nextInt), x), w);
      EmitHolds(e, Compare(Eq, IntVar(e.nextInt), x), w);
    }
  }

  /** Leaving block `b`: a valuation of everything before extends to the exit constraints. */
  lemma TermExtend(p: Program, b: nat, e: Enc, d: Regs, v: Valuation) returns (w: Valuation)
    requires b < |p.blocks| && Knows(e, d) && TermUsesIn(p.blocks[b].term, d) && SuccsDistinct(p)
    requires Fits(p, b, Ors(p, |p.blocks|), e) && AllHold(e.bmcVec, v)
    requires ExitsOf(e, b) == FreshExits(ExitBase(p, b), |Succs(p.blocks[b].term)|)
    ensures Agree(v, w, Bound(p, b, e)) && AllHold(EncodeTerm(p, b, e).bmcVec, w)
  {
    hide FitsIn, Knows, AllHold, Agree, Ors, Bound, FreshExits, EncodeBranch, EncodeSwitch, EncodeReturn, SuccsDistinct;
    var t := p.blocks[b].term;
    w := v;
    AgreeSelf(v, Bound(p, b, e));
    if t.Branch? { w := BranchExtend(p, b, e, d, v); }
    else if t.Switch? { w := SwitchExtend(p, b, e, d, v); }
    else if t.Return? { w := ReturnExtend(p, b, e, d, v); }
  }

  // ----- bounds after leaving a block -----

  lemma ExitsSettle(p: Program, b: nat, base: seq<BoolTerm>, e: Enc)
    requires b < |p.blocks| && Fits(p, b, base, e)
    requires ExitsOf(e, b) == FreshExits(ExitBase(p, b), |Succs(p.blocks[b].term)|)
    ensures Fits(p, b + 1, base, e)
  {
    hide FreshExits, Succs, BoolWithin, AllWithin, VecFits, PathsFit, TermsFit, NamesFit;
    var m := Bound(p, b + 1, e);
    FitsMono(b, base, e, Bound(p, b, e), m);
    FreshWithin(ExitBase(p, b), |Succs(p.blocks[b].term)|, m);
  }

  lemma TermFits(p: Program, b: nat, base: seq<BoolTerm>, e: Enc, d: Regs)
    requires b < |p.blocks| && Fits(p, b, base, e) && Knows(e, d) && TermUsesIn(p.blocks[b].term, d)
    requires ExitsOf(e, b) == FreshExits(ExitBase(p, b), |Succs(p.blocks[b].term)|)
    ensures Fits(p, b + 1, base, EncodeTerm(p, b, e))
  {
    hide FreshExits, Succs, FitsIn, Knows, EncodeBranch, EncodeSwitch, EncodeReturn;
    ExitsSettle(p, b, base, e);
    match p.blocks[b].term
    case Branch(c, _, _) => BranchFits(p, b, base, c, e, d);
    case Switch(x, _, cases) => SwitchFits(p, b, base, x, cases, e, d);
    case Return(r) => ReturnFits(p, b, base, r, e, d);
    case Jump(_) =>
    case Unreachable => CountersFit(b + 1, base, e, EncodeTerm(p, b, e), Bound(p, b + 1, e));
  }

  lemma ExitWithin(p: Program, b: nat, base: seq<BoolTerm>, e: Enc, i: nat)
    requires b < |p.blocks| && Fits(p, b + 1, base, e)
    ensures BoolWithin(ExitOf(e, b, i), Bound(p, b + 1, e))
  {
    hide VecFits, PathsFit, TermsFit, NamesFit;
    if b in e.exitBits { assert AllWithin(e.exitBits[b], Bound(p, b + 1, e)); }
  }

  lemma BranchFits(p: Program, b: nat, base: seq<BoolTerm>, c: BoolOperand, e: Enc, d: Regs)
    requires b < |p.blocks| && Fits(p, b + 1, base, e) && Knows(e, d) && BoolUse(c, d)
    ensures Fits(p, b + 1, base, EncodeBranch(b, c, e))
  {
    hide FitsIn, Knows, GetBool, TermsFit, PathsFit, NamesFit, ExitsFit, VecFits, ExitOf;
    var m := Bound(p, b + 1, e);
    FitParts(b + 1, base, e, m);
    BoolOperandFits(e, c, d, m);
    ExitWithin(p, b, base, e, 0);
    EmitFits(b + 1, base, e, [Iff(GetBool(e, c).1, ExitOf(e, b, 0))], m);
  }

  lemma SwitchFits(p: Program, b: nat, base: seq<BoolTerm>, x: IntOperand, cases: seq<(int, nat)>, e: Enc, d: Regs)
    requires b < |p.blocks| && Fits(p, b + 1, base, e) && Knows(e, d) && IntUse(x, d)
    ensures Fits(p, b + 1, base, EncodeSwitch(b, x, cases, e))
  {
    hide FitsIn, Knows, GetInt, TermsFit, PathsFit, NamesFit, ExitsFit, VecFits, MkAnd;
    var m := Bound(p, b + 1, e);
    FitParts(b + 1, base, e, m);
    IntOperandFits(e, x, d, m);
    var u, xs := GetInt(e, x).1, ExitsOf(e, b);
    if |xs| == |cases| + 1 {
      var cs, none := SwitchCons(cases, u, xs), NoCase(cases, u);
      forall i | 0 <= i < |cs| ensures BoolWithin(cs[i], m) { ExitWithin(p, b, base, e, i + 1); }
      forall i | 0 <= i < |none| ensures BoolWithin(none[i], m) {}
      MkAndWithin(none, m);
      ExitWithin(p, b, base, e, 0);
      AppendWithin(cs, [Iff(MkAnd(none), xs[0])], m);
      EmitFits(b + 1, base, e, cs + [Iff(MkAnd(none), xs[0])], m);
    }
  }

  lemma ReturnFits(p: Program, b: nat, base: seq<BoolTerm>, r: Option<IntOperand>, e: Enc, d: Regs)
    requires b < |p.blocks| && Fits(p, b + 1, base, e) && Knows(e, d) && (r.Some? ==> IntUse(r.value, d))
    ensures Fits(p, b + 1, base, EncodeReturn(r, e))
  {
    hide FitsIn, Knows, GetInt, TermsFit, PathsFit, NamesFit, ExitsFit, VecFits;
    if r.Some? {
      var e1 := e.(nextInt := e.nextInt + 1);
      var m := Bound(p, b + 1, e1);
      FitParts(b + 1, base, e, Bound(p, b + 1, e));
      IntOperandFits(e, r.value, d, Bound(p, b + 1, e));
      var x := GetInt(e, r.value).1;
      FitsMono(b + 1, base, e, Bound(p, b + 1, e), m);
      CountersFit(b + 1, base, e, e1, m);
      IntWithinMono(x, Bound(p, b + 1, e), m);
      EmitFits(b + 1, base, e1, [Compare(Eq, IntVar(e.nextInt), x)], m);
      CountersFit(b + 1, base, Emit(e1, Compare(Eq, IntVar(e.nextInt), x)), EncodeReturn(r, e), m);
    }
  }
}
