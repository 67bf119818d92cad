/** Which names the emitted terms can mention at each stage: fresh names really are fresh. */
module EncoderFits {
  import opened Terms
  import opened Ir
  import opened EncoderSpec
  import opened EncoderMatch
  import opened EncoderKnown
  import opened EncoderSound

  /** Names in use once the exits of the blocks before `b` are settled. */
  function Bound(p: Program, b: nat, e: Enc): Lim
    requires b <= |p.blocks|
  {
    Lim(e.nextInt, e.nextArr, ExitBase(p, b), e.nextBit)
  }

  ghost predicate TermsFit(e: Enc, m: Lim) {
    && (forall r | r in e.intTerms :: IntWithin(e.intTerms[r], m))
    && (forall r | r in e.boolTerms :: BoolWithin(e.boolTerms[r], m))
  }

  ghost predicate PathsFit(e: Enc, m: Lim) { forall c | c in e.pathBit :: BoolWithin(e.pathBit[c], m) }

  ghost predicate NamesFit(e: Enc, m: Lim) {
    && (forall c, i | c in e.ary && 0 <= i < |e.ary[c]| :: e.ary[c][i] < m.arrs)
    && (forall c, i | c in e.glb && 0 <= i < |e.glb[c]| :: e.glb[c][i] < m.ints)
  }

  ghost predicate ExitsFit(e: Enc, b: nat, m: Lim) { forall q | q in e.exitBits && q < b :: AllWithin(e.exitBits[q], m) }

  /** Constraints after the first `base` (the ones over unsettled exits) stay within the bound. */
  ghost predicate VecFits(e: Enc, base: seq<BoolTerm>, m: Lim) {
    base <= e.bmcVec && AllWithin(e.bmcVec[|base|..], m)
  }

  ghost predicate FitsIn(b: nat, base: seq<BoolTerm>, e: Enc, m: Lim) {
    TermsFit(e, m) && PathsFit(e, m) && NamesFit(e, m) && ExitsFit(e, b, m) && VecFits(e, base, m)
  }

  /** Block `b` has a version for every array and global. */
  ghost predicate Mem(p: Program, b: nat, e: Enc) {
    |AryOf(e, b)| == p.nArrays && |GlbOf(e, b)| == |p.glbInit|
  }

  ghost predicate Fits(p: Program, b: nat, base: seq<BoolTerm>, e: Enc)
    requires b <= |p.blocks|
  {
    FitsIn(b, base, e, Bound(p, b, e))
  }

  lemma AllWithinMono(ts: seq<BoolTerm>, m: Lim, m': Lim)
    requires AllWithin(ts, m) && LimLe(m, m')
    ensures AllWithin(ts, m')
  {
    hide BoolWithin;
    forall i | 0 <= i < |ts| ensures BoolWithin(ts[i], m') { BoolWithinMono(ts[i], m, m'); }
  }

  lemma FitsMono(b: nat, base: seq<BoolTerm>, e: Enc, m: Lim, m': Lim)
    requires FitsIn(b, base, e, m) && LimLe(m, m')
    ensures FitsIn(b, base, e, m')
  {
    hide AllWithin;
    forall r | r in e.intTerms ensures IntWithin(e.intTerms[r], m') { IntWithinMono(e.intTerms[r], m, m'); }
    forall r | r in e.boolTerms ensures BoolWithin(e.boolTerms[r], m') { BoolWithinMono(e.boolTerms[r], m, m'); }
    forall c | c in e.pathBit ensures BoolWithin(e.pathBit[c], m') { BoolWithinMono(e.pathBit[c], m, m'); }
    forall q | q in e.exitBits && q < b ensures AllWithin(e.exitBits[q], m') { AllWithinMono(e.exitBits[q], m, m'); }
    AllWithinMono(e.bmcVec[|base|..], m, m');
  }

  // ----- single updates -----

  lemma EmitFits(b: nat, base: seq<BoolTerm>, e: Enc, cs: seq<BoolTerm>, m: Lim)
    requires FitsIn(b, base, e, m) && AllWithin(cs, m)
    ensures FitsIn(b, base, e.(bmcVec := e.bmcVec + cs), m)
  {
    hide TermsFit, PathsFit, NamesFit, ExitsFit;
    var e' := e.(bmcVec := e.bmcVec + cs);
    assert e'.bmcVec[|base|..] == e.bmcVec[|base|..] + cs;
    SameExceptVec(b, e, e', m);
  }

  lemma SameExceptVec(b: nat, e: Enc, e': Enc, m: Lim)
    requires e' == e.(bmcVec := e'.bmcVec) && TermsFit(e, m) && PathsFit(e, m) && NamesFit(e, m) && ExitsFit(e, b, m)
    ensures TermsFit(e', m) && PathsFit(e', m) && NamesFit(e', m) && ExitsFit(e', b, m)
  {

  }

  /** Everything but the term maps unchanged. */
  lemma SetIntFits(b: nat, base: seq<BoolTerm>, e: Enc, r: nat, t: IntTerm, m: Lim)
    requires FitsIn(b, base, e, m) && IntWithin(t, m)
    ensures FitsIn(b, base, SetInt(e, r, t), m)
  {
    hide AllWithin;
  }

  lemma SetBoolFits(b: nat, base: seq<BoolTerm>, e: Enc, r: nat, t: BoolTerm, m: Lim)
    requires FitsIn(b, base, e, m) && BoolWithin(t, m)
    ensures FitsIn(b, base, SetBool(e, r, t), m)
  {
    hide AllWithin;
  }

  lemma SetPathFits(b: nat, base: seq<BoolTerm>, e: Enc, c: nat, t: BoolTerm, m: Lim)
    requires FitsIn(b, base, e, m) && BoolWithin(t, m)
    ensures FitsIn(b, base, e.(pathBit := e.pathBit[c := t]), m)
  {
    hide AllWithin;
  }

  lemma SetAryFits(b: nat, base: seq<BoolTerm>, e: Enc, c: nat, names: seq<nat>, m: Lim)
    requires FitsIn(b, base, e, m) && forall i | 0 <= i < |names| :: names[i] < m.arrs
    ensures FitsIn(b, base, e.(ary := e.ary[c := names]), m)
  {
    hide AllWithin;
  }

  lemma SetGlbFits(b: nat, base: seq<BoolTerm>, e: Enc, c: nat, names: seq<nat>, m: Lim)
    requires FitsIn(b, base, e, m) && forall i | 0 <= i < |names| :: names[i] < m.ints
    ensures FitsIn(b, base, e.(glb := e.glb[c := names]), m)
  {
    hide AllWithin;
  }

  /** Counters and specifications do not matter for a fixed bound. */
  lemma CountersFit(b: nat, base: seq<BoolTerm>, e: Enc, e': Enc, m: Lim)
    requires FitsIn(b, base, e, m)
    requires e'.intTerms == e.intTerms && e'.boolTerms == e.boolTerms && e'.pathBit == e.pathBit && e'.exitBits == e.exitBits
    requires e'.ary == e.ary && e'.glb == e.glb && e'.bmcVec == e.bmcVec
    ensures FitsIn(b, base, e', m)
  {
    hide AllWithin;
  }

  lemma IntOperandFits(e: Enc, o: IntOperand, d: Regs, m: Lim)
    requires Knows(e, d) && IntUse(o, d) && TermsFit(e, m)
    ensures GetInt(e, o).0 == e && IntWithin(GetInt(e, o).1, m) && IntWithin(EarlierInt(e, o), m)
  {
  }

  lemma BoolOperandFits(e: Enc, o: BoolOperand, d: Regs, m: Lim)
    requires Knows(e, d) && BoolUse(o, d) && TermsFit(e, m)
    ensures GetBool(e, o).0 == e && BoolWithin(GetBool(e, o).1, m) && BoolWithin(EarlierBool(e, o), m)
  {
  }

  // ----- instructions -----

  lemma EdgeFits(p: Program, e: Enc, q: nat, b: nat, m: Lim)
    requires EdgesOk(p) && b < |p.blocks| && IsPred(p, q, b) && PathsFit(e, m) && ExitsFit(e, b, m)
    ensures q < b && b in Succs(p.blocks[q].term) && BoolWithin(EdgeCond(p, e, q, b), m)
  {
    hide EdgesOk, SuccIndex;
    EdgeGood(p, q, b);
    var x, y := PathOf(e, q), ExitOf(e, q, SuccIndex(Succs(p.blocks[q].term), b));
    assert BoolWithin(x, m);
    assert BoolWithin(y, m);
    ConjWithin(x, y, m);
  }

  lemma ConjWithin(x: BoolTerm, y: BoolTerm, m: Lim)
    requires BoolWithin(x, m) && BoolWithin(y, m)
    ensures BoolWithin(Conj([x, y]), m) && BoolWithin(Disj([x, y]), m)
  {
    var ts := [x, y];
    assert ts[0] == x && ts[1] == y;
  }

  lemma MkAndWithin(ts: seq<BoolTerm>, m: Lim)
    requires AllWithin(ts, m)
    ensures BoolWithin(MkAnd(ts), m) && BoolWithin(MkOr(ts), m)
  {
  }

  lemma {:induction false} PhiIntConsFit(p: Program, e: Enc, b: nat, x: nat, ins: seq<(nat, IntOperand)>, k: nat, m: Lim)
    requires EdgesOk(p) && b < |p.blocks| && k <= |ins| && x < m.ints
    requires TermsFit(e, m) && PathsFit(e, m) && ExitsFit(e, b, m)
    ensures AllWithin(PhiIntCons(p, e, b, x, ins, k), m)
  {
    hide EdgesOk, EdgeCond;
    if k > 0 {
      PhiIntConsFit(p, e, b, x, ins, k - 1, m);
      var q, o := ins[k - 1].0, ins[k - 1].1;
      if IsPred(p, q, b) {
        EdgeFits(p, e, q, b, m);
        assert BoolWithin(Compare(Eq, IntVar(x), EarlierInt(e, o)), m);
      }
    }
  }

  lemma {:induction false} PhiBoolConsFit(p: Program, e: Enc, b: nat, x: nat, ins: seq<(nat, BoolOperand)>, k: nat, m: Lim)
    requires EdgesOk(p) && b < |p.blocks| && k <= |ins| && x < m.bits
    requires TermsFit(e, m) && PathsFit(e, m) && ExitsFit(e, b, m)
    ensures AllWithin(PhiBoolCons(p, e, b, x, ins, k), m)
  {
    hide EdgesOk, EdgeCond;
    if k > 0 {
      PhiBoolConsFit(p, e, b, x, ins, k - 1, m);
      var q, o := ins[k - 1].0, ins[k - 1].1;
      if IsPred(p, q, b) {
        EdgeFits(p, e, q, b, m);
        assert BoolWithin(Iff(BoolVar(BitName(x)), EarlierBool(e, o)), m);
      }
    }
  }

  lemma PhiIntFits(p: Program, b: nat, base: seq<BoolTerm>, r: nat, ins: seq<(nat, IntOperand)>, e: Enc)
    requires EdgesOk(p) && b < |p.blocks| && Fits(p, b, base, e)
    ensures Fits(p, b, base, EncodePhiInt(p, b, r, ins, e))
  {
    hide FitsIn, EdgesOk, PhiIntCons, MkAnd;
    var x := e.nextInt;
    var e1 := SetInt(e, r, IntVar(x));
    var e2 := e1.(nextInt := x + 1);
    var m := Bound(p, b, e2);
    FitsMono(b, base, e, Bound(p, b, e), m);
    SetIntFits(b, base, e, r, IntVar(x), m);
    CountersFit(b, base, e1, e2, m);
    FitParts(b, base, e2, m);
    PhiIntConsFit(p, e2, b, x, ins, |ins|, m);
    MkAndWithin(PhiIntCons(p, e2, b, x, ins, |ins|), m);
    EmitFits(b, base, e2, [MkAnd(PhiIntCons(p, e2, b, x, ins, |ins|))], m);
  }

  lemma PhiBoolFits(p: Program, b: nat, base: seq<BoolTerm>, r: nat, ins: seq<(nat, BoolOperand)>, e: Enc)
    requires EdgesOk(p) && b < |p.blocks| && Fits(p, b, base, e)
    ensures Fits(p, b, base, EncodePhiBool(p, b, r, ins, e))
  {
    hide FitsIn, EdgesOk, PhiBoolCons, MkAnd;
    var x := e.nextBit;
    var e1 := SetBool(e, r, BoolVar(BitName(x)));
    var e2 := e1.(nextBit := x + 1);
    var m := Bound(p, b, e2);
    FitsMono(b, base, e, Bound(p, b, e), m);
    SetBoolFits(b, base, e, r, BoolVar(BitName(x)), m);
    CountersFit(b, base, e1, e2, m);
    FitParts(b, base, e2, m);
    PhiBoolConsFit(p, e2, b, x, ins, |ins|, m);
    MkAndWithin(PhiBoolCons(p, e2, b, x, ins, |ins|), m);
    EmitFits(b, base, e2, [MkAnd(PhiBoolCons(p, e2, b, x, ins, |ins|))], m);
  }

  lemma FitParts(b: nat, base: seq<BoolTerm>, e: Enc, m: Lim)
    requires FitsIn(b, base, e, m)
    ensures TermsFit(e, m) && PathsFit(e, m) && NamesFit(e, m) && ExitsFit(e, b, m) && VecFits(e, base, m)
  {
  }

  lemma AssumeFits(p: Program, b: nat, base: seq<BoolTerm>, c: BoolOperand, e: Enc, d: Regs)
    requires b < |p.blocks| && Fits(p, b, base, e) && Knows(e, d) && BoolUse(c, d)
    ensures Fits(p, b, base, EncodeAssume(b, c, e))
  {
    hide FitsIn, Knows, GetBool, PathsFit, TermsFit, NamesFit, ExitsFit, VecFits;
    FitParts(b, base, e, Bound(p, b, e));
    BoolOperandFits(e, c, d, Bound(p, b, e));
    var t, bit := GetBool(e, c).1, BoolVar(BitName(e.nextBit));
    var e1 := e.(pathBit := e.pathBit[b := bit]);
    var e2 := e1.(nextBit := e.nextBit + 1);
    var m := Bound(p, b, e2);
    FitsMono(b, base, e, Bound(p, b, e), m);
    SetPathFits(b, base, e, b, bit, m);
    CountersFit(b, base, e1, e2, m);
    BoolWithinMono(t, Bound(p, b, e), m);
    PathFits(e, b, m) by { FitParts(b, base, e, m); }
    ConjWithin(PathOf(e, b), t, m);
    EmitFits(b, base, e2, [Iff(bit, Conj([PathOf(e, b), t]))], m);
  }

  lemma PathFits(e: Enc, c: nat, m: Lim)
    requires PathsFit(e, m)
    ensures BoolWithin(PathOf(e, c), m)
  {
  }

  lemma AryNamesFit(e: Enc, c: nat, m: Lim)
    requires NamesFit(e, m)
    ensures forall i | 0 <= i < |AryOf(e, c)| :: AryOf(e, c)[i] < m.arrs
    ensures forall i | 0 <= i < |GlbOf(e, c)| :: GlbOf(e, c)[i] < m.ints
  {
  }

  lemma StoreFits(p: Program, b: nat, base: seq<BoolTerm>, a: nat, idx: IntOperand, val: IntOperand, e: Enc, d: Regs)
    requires b < |p.blocks| && Fits(p, b, base, e) && Knows(e, d) && IntUse(idx, d) && IntUse(val, d) && Mem(p, b, e)
    ensures Fits(p, b, base, EncodeStore(b, a, idx, val, e))
  {
    hide FitsIn, Knows, GetInt, PathsFit, TermsFit, ExitsFit, VecFits, NamesFit, AryOf, GlbOf, IntUse, ExitBase;
    FitParts(b, base, e, Bound(p, b, e));
    AryNamesFit(e, b, Bound(p, b, e));
    IntOperandFits(e, idx, d, Bound(p, b, e));
    IntOperandFits(e, val, d, Bound(p, b, e));
    var i, x := GetInt(e, idx).1, GetInt(e, val).1;
    var names := AryOf(e, b);
    var names' := if a < |names| then names[a := e.nextArr] else names;
    var e1 := e.(ary := e.ary[b := names']);
    var e2 := e1.(nextArr := e.nextArr + 1);
    var m := Bound(p, b, e2);
    FitsMono(b, base, e, Bound(p, b, e), m);
    SetAryFits(b, base, e, b, names', m);
    CountersFit(b, base, e1, e2, m);
    IntWithinMono(i, Bound(p, b, e), m);
    IntWithinMono(x, Bound(p, b, e), m);
    EmitFits(b, base, e2, [ArrStore(e.nextArr, NameAt(names, a), i, x)], m);
  }

  lemma StoreGlbFits(p: Program, b: nat, base: seq<BoolTerm>, g: nat, val: IntOperand, e: Enc, d: Regs)
    requires b < |p.blocks| && Fits(p, b, base, e) && Knows(e, d) && IntUse(val, d) && Mem(p, b, e)
    ensures Fits(p, b, base, EncodeStoreGlb(b, g, val, e))
  {
    hide FitsIn, Knows, GetInt, PathsFit, TermsFit, ExitsFit, VecFits, NamesFit, AryOf, GlbOf, IntUse, ExitBase;
    FitParts(b, base, e, Bound(p, b, e));
    AryNamesFit(e, b, Bound(p, b, e));
    IntOperandFits(e, val, d, Bound(p, b, e));
    var x := GetInt(e, val).1;
    var names := GlbOf(e, b);
    var names' := if g < |names| then names[g := e.nextInt] else names;
    var e1 := e.(glb := e.glb[b := names']);
    var e2 := e1.(nextInt := e.nextInt + 1);
    var m := Bound(p, b, e2);
    FitsMono(b, base, e, Bound(p, b, e), m);
    SetGlbFits(b, base, e, b, names', m);
    CountersFit(b, base, e1, e2, m);
    IntWithinMono(x, Bound(p, b, e), m);
    EmitFits(b, base, e2, [Compare(Eq, IntVar(e.nextInt), x)], m);
  }

  lemma SimpleFits(p: Program, b: nat, base: seq<BoolTerm>, i: Instr, e: Enc, d: Regs)
    requires EdgesOk(p) && b < |p.blocks| && Fits(p, b, base, e) && Mem(p, b, e) && Knows(e, d) && UsesIn(i, d) && IndexOk(p, i)
    requires i.IntBin? || i.BoolBin? || i.Cmp? || i.Load? || i.LoadGlb?
    ensures Fits(p, b, base, EncodeInstr(p, b, i, e))
  {
    hide FitsIn, Knows, GetInt, GetBool, PathsFit, TermsFit, ExitsFit, VecFits, EdgesOk, SetInt, SetBool;
    var m := Bound(p, b, e);
    FitParts(b, base, e, m);
    match i
    case IntBin(r, op, x, y) =>
      IntOperandFits(e, x, d, m); IntOperandFits(e, y, d, m);
      SetIntFits(b, base, e, r, Arith(op, GetInt(e, x).1, GetInt(e, y).1), m);
      SetKeepsCounters(e, r, Arith(op, GetInt(e, x).1, GetInt(e, y).1), BoolLit(true));
    case BoolBin(r, op, x, y) =>
      BoolOperandFits(e, x, d, m); BoolOperandFits(e, y, d, m);
      SetBoolFits(b, base, e, r, Logic(op, GetBool(e, x).1, GetBool(e, y).1), m);
      SetKeepsCounters(e, r, IntLit(0), Logic(op, GetBool(e, x).1, GetBool(e, y).1));
    case Cmp(r, op, x, y) =>
      IntOperandFits(e, x, d, m); IntOperandFits(e, y, d, m);
      SetBoolFits(b, base, e, r, Compare(op, GetInt(e, x).1, GetInt(e, y).1), m);
      SetKeepsCounters(e, r, IntLit(0), Compare(op, GetInt(e, x).1, GetInt(e, y).1));
    case Load(r, a, idx) =>
      IntOperandFits(e, idx, d, m);
      SetIntFits(b, base, e, r, Select(NameAt(AryOf(e, b), a), GetInt(e, idx).1), m);
      SetKeepsCounters(e, r, Select(NameAt(AryOf(e, b), a), GetInt(e, idx).1), BoolLit(true));
    case LoadGlb(r, g) =>
      SetIntFits(b, base, e, r, IntVar(NameAt(GlbOf(e, b), g)), m);
      SetKeepsCounters(e, r, IntVar(NameAt(GlbOf(e, b), g)), BoolLit(true));
  }

  lemma SetKeepsCounters(e: Enc, r: nat, t: IntTerm, u: BoolTerm)
    ensures forall p: Program, b: nat | b <= |p.blocks| ::
              Bound(p, b, SetInt(e, r, t)) == Bound(p, b, e) && Bound(p, b, SetBool(e, r, u)) == Bound(p, b, e)
  {
  }

  lemma InstrFits(p: Program, b: nat, base: seq<BoolTerm>, i: Instr, e: Enc, d: Regs)
    requires EdgesOk(p) && b < |p.blocks| && Fits(p, b, base, e) && Mem(p, b, e) && Knows(e, d) && UsesIn(i, d) && IndexOk(p, i)
    ensures Fits(p, b, base, EncodeInstr(p, b, i, e))
  {
    hide FitsIn, Knows, GetInt, GetBool, EdgesOk, EncodePhiInt, EncodePhiBool, EncodeAssume, EncodeStore, EncodeStoreGlb, Mem;
    var m := Bound(p, b, e);
    match i
    case PhiInt(r, ins) => PhiIntFits(p, b, base, r, ins, e);
    case PhiBool(r, ins) => PhiBoolFits(p, b, base, r, ins, e);
    case NondetInt(r) =>
      if r !in e.intTerms {
        var m' := Bound(p, b, e.(nextInt := e.nextInt + 1));
        FitsMono(b, base, e, m, m');
        SetIntFits(b, base, e, r, IntVar(e.nextInt), m');
        CountersFit(b, base, SetInt(e, r, IntVar(e.nextInt)), EncodeInstr(p, b, i, e), m');
      }
    case NondetBool(r) =>
      var m' := Bound(p, b, e.(nextBit := e.nextBit + 1));
      FitsMono(b, base, e, m, m');
      SetBoolFits(b, base, e, r, BoolVar(BitName(e.nextBit)), m');
      CountersFit(b, base, SetBool(e, r, BoolVar(BitName(e.nextBit))), EncodeInstr(p, b, i, e), m');
    case Assume(c) => AssumeFits(p, b, base, c, e, d);
    case AssertBool(c) => GetBoolKnown(e, c, d); CountersFit(b, base, e, EncodeInstr(p, b, i, e), m);
    case AssertInt(x) => GetIntKnown(e, x, d); CountersFit(b, base, e, EncodeInstr(p, b, i, e), m);
    case Store(a, idx, val) => StoreFits(p, b, base, a, idx, val, e, d);
    case StoreGlb(g, val) => StoreGlbFits(p, b, base, g, val, e, d);
    case _ => SimpleFits(p, b, base, i, e, d);
  }

  lemma InstrMem(p: Program, b: nat, i: Instr, e: Enc, d: Regs)
    requires EdgesOk(p) && b < |p.blocks| && Mem(p, b, e) && Knows(e, d) && UsesIn(i, d)
    ensures Mem(p, b, EncodeInstr(p, b, i, e))
  {
    hide EdgesOk, GetInt, GetBool, Knows, PhiIntCons, PhiBoolCons, MkAnd;
    match i
    case IntBin(_, _, x, y) => GetIntKnown(e, x, d); GetIntKnown(e, y, d);
    case BoolBin(_, _, x, y) => GetBoolKnown(e, x, d); GetBoolKnown(e, y, d);
    case Cmp(_, _, x, y) => GetIntKnown(e, x, d); GetIntKnown(e, y, d);
    case AssertBool(c) => GetBoolKnown(e, c, d);
    case AssertInt(x) => GetIntKnown(e, x, d);
    case Load(_, _, x) => GetIntKnown(e, x, d);
    case Assume(c) => GetBoolKnown(e, c, d);
    case Store(_, x, y) => GetIntKnown(e, x, d); GetIntKnown(e, y, d);
    case StoreGlb(_, x) => GetIntKnown(e, x, d);
    case _ =>
  }
}
