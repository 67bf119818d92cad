/** The bounds of every stage, and the valuation of the names made before the first block. */
module EncoderStages {
  import opened Terms
  import opened Ir
  import opened EncoderSpec
  import opened EncoderFrame
  import opened EncoderKnown
  import opened EncoderSound
  import opened EncoderFits
  import opened EncoderComplete

  // ----- before the first block -----

  ghost predicate Distinct(ps: seq<nat>) { forall i, j | 0 <= i < j < |ps| :: ps[i] != ps[j] }

  lemma OneParamInt(e: Enc, r: nat)
    requires r !in e.intTerms
    ensures GetInt(e, IReg(r)).0 == e.(intTerms := e.intTerms[r := IntVar(e.nextInt)], nextInt := e.nextInt + 1)
  {
  }

  lemma OneParamBool(e: Enc, r: nat)
    requires r !in e.boolTerms
    ensures GetBool(e, BReg(r)).0 == e.(boolTerms := e.boolTerms[r := BoolVar(BitName(e.nextBit))], nextBit := e.nextBit + 1)
  {
  }

  /** Parameters get consecutive names, and nothing else changes. */
  lemma {:induction false} ParamsIntAt(e: Enc, ps: seq<nat>, k: nat)
    requires k <= |ps| && Distinct(ps) && e.intTerms == map[]
    ensures var f := ParamsInt(e, ps, k); f == e.(intTerms := f.intTerms, nextInt := e.nextInt + k)
    ensures forall j | 0 <= j < k :: ps[j] in ParamsInt(e, ps, k).intTerms && ParamsInt(e, ps, k).intTerms[ps[j]] == IntVar(e.nextInt + j)
  {
    hide GetInt;
    if k > 0 {
      var q := ParamsInt(e, ps, k - 1);
      ParamsIntAt(e, ps, k - 1);
      ParamsIntKnow(e, ps, k - 1);
      assert ps[k - 1] !in ps[..k - 1];
      OneParamInt(q, ps[k - 1]);
      assert ParamsInt(e, ps, k) == q.(intTerms := q.intTerms[ps[k - 1] := IntVar(q.nextInt)], nextInt := q.nextInt + 1);
    }
  }

  lemma {:induction false} ParamsBoolAt(e: Enc, ps: seq<nat>, k: nat)
    requires k <= |ps| && Distinct(ps) && e.boolTerms == map[]
    ensures var f := ParamsBool(e, ps, k); f == e.(boolTerms := f.boolTerms, nextBit := e.nextBit + k)
    ensures forall j | 0 <= j < k :: ps[j] in ParamsBool(e, ps, k).boolTerms && ParamsBool(e, ps, k).boolTerms[ps[j]] == BoolVar(BitName(e.nextBit + j))
  {
    hide GetBool;
    if k > 0 {
      var q := ParamsBool(e, ps, k - 1);
      ParamsBoolAt(e, ps, k - 1);
      ParamsBoolKnow(e, ps, k - 1);
      assert ps[k - 1] !in ps[..k - 1];
      OneParamBool(q, ps[k - 1]);
      assert ParamsBool(e, ps, k) == q.(boolTerms := q.boolTerms[ps[k - 1] := BoolVar(BitName(q.nextBit))], nextBit := q.nextBit + 1);
    }
  }

  lemma BlockBitsAt(p: Program, b: nat, e: Enc)
    requires b < |p.blocks|
    ensures var f := InitBlockBits(p, b, e);
            && f.nextInt == e.nextInt && f.nextArr == e.nextArr && f.nextBit == e.nextBit + 1
            && f.intTerms == e.intTerms && f.boolTerms == e.boolTerms && f.ary == e.ary && f.glb == e.glb
            && f.pathBit == e.pathBit[b := BoolVar(BitName(e.nextBit))]
  {
    hide MkOr, FreshExits, ExitCount, Succs, Emit;
    var k := |Succs(p.blocks[b].term)|;
    if k >= 3 { EmitIs(e, MkOr(FreshExits(e.nextExit, k))); }
  }

  lemma EmitIs(e: Enc, c: BoolTerm)
    ensures Emit(e, c) == e.(bmcVec := e.bmcVec + [c])
  {
  }

  /** Path bits get consecutive names. */
  lemma {:induction false} InitBitsAt(p: Program, b: nat, e: Enc)
    requires b <= |p.blocks| && e.pathBit == map[]
    ensures var f := InitBits(p, b, e);
            && f.nextInt == e.nextInt && f.nextArr == e.nextArr && f.nextBit == e.nextBit + b
            && f.intTerms == e.intTerms && f.boolTerms == e.boolTerms && f.ary == e.ary && f.glb == e.glb
            && (forall c | c in f.pathBit :: c < b)
            && forall c: nat | c < b :: c in f.pathBit && f.pathBit[c] == BoolVar(BitName(e.nextBit + c))
  {
    hide InitBlockBits;
    if b > 0 {
      InitBitsAt(p, b - 1, e);
      BlockBitsAt(p, b - 1, InitBits(p, b - 1, e));
    }
  }

  lemma EmptyStart(p: Program)
    ensures var e := InitMemory(p, EMPTY);
            e.intTerms == map[] && e.boolTerms == map[] && e.pathBit == map[] && e.nextBit == 0 && e.nextInt == |p.glbInit| && e.nextArr == p.nArrays
    ensures var e := InitMemory(p, EMPTY);
            Mem(p, 0, e) && (forall a: nat | a < p.nArrays :: e.ary[0][a] == a) && (forall g: nat | g < |p.glbInit| :: e.glb[0][g] == g)
            && e.ary.Keys == {0} && e.glb.Keys == {0}
  {
  }

  /** Names and numbers after the preparation. */
  lemma PrepareAt(p: Program)
    requires Distinct(p.intParams) && Distinct(p.boolParams)
    ensures var e := Prepare(p); var g, i, j := |p.glbInit|, |p.intParams|, |p.boolParams|;
            && e.nextInt == g + i && e.nextArr == p.nArrays && e.nextBit == j + |p.blocks|
            && (forall k | 0 <= k < i :: p.intParams[k] in e.intTerms && e.intTerms[p.intParams[k]] == IntVar(g + k))
            && (forall k | 0 <= k < j :: p.boolParams[k] in e.boolTerms && e.boolTerms[p.boolParams[k]] == BoolVar(BitName(k)))
            && (forall c: nat | 0 < c < |p.blocks| :: PathOf(e, c) == BoolVar(BitName(j + c)))
    ensures Prepare(p).ary == InitMemory(p, EMPTY).ary && Prepare(p).glb == InitMemory(p, EMPTY).glb
    ensures forall c | c in Prepare(p).pathBit :: c < |p.blocks| || c == 0
  {
    hide InitMemory, ParamsInt, ParamsBool, InitBits;
    var e := InitMemory(p, EMPTY);
    EmptyStart(p);
    ParamsIntAt(e, p.intParams, |p.intParams|);
    ParamsBoolAt(ParamsInt(e, p.intParams, |p.intParams|), p.boolParams, |p.boolParams|);
    InitBitsAt(p, |p.blocks|, InitParams(p, e));
  }

  lemma WfDistinct(p: Program, dom: seq<Regs>)
    requires WellFormed(p, dom)
    ensures Distinct(p.intParams) && Distinct(p.boolParams)
  {
  }

  lemma PrepareFits(p: Program, dom: seq<Regs>)
    requires WellFormed(p, dom)
    ensures Fits(p, 0, Ors(p, |p.blocks|), EncodeBlocks(p, 0)) && Mem(p, 0, EncodeBlocks(p, 0))
  {
    hide Prepare, SsaOk, SuccsDistinct, EdgesOk, InitMemory, Ors;
    WfDistinct(p, dom);
    PrepareAt(p);
    EmptyStart(p);
    PrepareVec(p);
    PrepareKnows(p);
    var e := Prepare(p);
    var m := Bound(p, 0, e);
    forall r | r in e.intTerms ensures IntWithin(e.intTerms[r], m) {
      var k :| 0 <= k < |p.intParams| && p.intParams[k] == r;
    }
    forall r | r in e.boolTerms ensures BoolWithin(e.boolTerms[r], m) {
      var k :| 0 <= k < |p.boolParams| && p.boolParams[k] == r;
    }
    PreparePath(p);
    forall c: nat | c in e.pathBit ensures BoolWithin(e.pathBit[c], m) {
      assert e.pathBit[c] == PathOf(e, c);
    }
    assert e.bmcVec[|Ors(p, |p.blocks|)|..] == [];
  }

  // ----- counters only grow -----

  lemma InstrCounters(p: Program, b: nat, i: Instr, e: Enc)
    requires EdgesOk(p) && b < |p.blocks|
    ensures LimLe(Bound(p, b, e), Bound(p, b, EncodeInstr(p, b, i, e)))
  {
    hide EdgesOk, PhiIntCons, PhiBoolCons, MkAnd, GetInt, GetBool, ExitBase;
    match i
    case IntBin(_, _, x, y) => GetIntCounters(e, x); GetIntCounters(GetInt(e, x).0, y);
    case BoolBin(_, _, x, y) => GetBoolCounters(e, x); GetBoolCounters(GetBool(e, x).0, y);
    case Cmp(_, _, x, y) => GetIntCounters(e, x); GetIntCounters(GetInt(e, x).0, y);
    case AssertBool(c) => GetBoolCounters(e, c);
    case AssertInt(x) => GetIntCounters(e, x);
    case Load(_, _, x) => GetIntCounters(e, x);
    case Assume(c) => GetBoolCounters(e, c);
    case Store(_, x, y) => GetIntCounters(e, x); GetIntCounters(GetInt(e, x).0, y);
    case StoreGlb(_, x) => GetIntCounters(e, x);
    case _ =>
  }

  lemma GetIntCounters(e: Enc, o: IntOperand)
    ensures var f := GetInt(e, o).0; e.nextInt <= f.nextInt && e.nextArr == f.nextArr && e.nextBit == f.nextBit
  {
  }

  lemma GetBoolCounters(e: Enc, o: BoolOperand)
    ensures var f := GetBool(e, o).0; e.nextInt == f.nextInt && e.nextArr == f.nextArr && e.nextBit <= f.nextBit
  {
  }

  lemma {:induction false} AtCounters(p: Program, b: nat, j: nat, k: nat)
    requires EdgesOk(p) && b < |p.blocks| && j <= k <= |p.blocks[b].instrs|
    ensures LimLe(Bound(p, b, At(p, b, j)), Bound(p, b, At(p, b, k)))
  {
    hide At, EdgesOk, ExitBase;
    if j < k {
      AtCounters(p, b, j, k - 1);
      AtStep(p, b, k - 1);
      InstrCounters(p, b, p.blocks[b].instrs[k - 1], At(p, b, k - 1));
    }
  }

  lemma TermCounters(p: Program, b: nat, e: Enc)
    requires b < |p.blocks|
    ensures var f := EncodeTerm(p, b, e); e.nextInt <= f.nextInt && e.nextArr <= f.nextArr && e.nextBit <= f.nextBit
  {
    hide GetInt, GetBool, MkAnd;
    match p.blocks[b].term
    case Branch(c, _, _) => GetBoolCounters(e, c);
    case Switch(x, _, _) => GetIntCounters(e, x);
    case Return(r) => if r.Some? { GetIntCounters(e, r.value); }
    case _ =>
  }

  // ----- every stage -----

  /** Everything the syntax of a stage provides. */
  ghost predicate StageOk(p: Program, b: nat, e: Enc)
    requires b <= |p.blocks|
  {
    Fits(p, b, Ors(p, |p.blocks|), e) && PredsMem(p, b, e) && (b == 0 ==> Mem(p, 0, e))
  }

  lemma MemSame(p: Program, b: nat, q: nat, e: Enc, f: Enc)
    requires f.ary == e.ary && f.glb == e.glb && Mem(p, q, e)
    ensures Mem(p, q, f)
  {
  }

  lemma StartFits(p: Program, b: nat)
    requires EdgesOk(p) && b < |p.blocks| && StageOk(p, b, EncodeBlocks(p, b))
    ensures Fits(p, b, Ors(p, |p.blocks|), At(p, b, 0)) && Mem(p, b, At(p, b, 0))
    ensures LimLe(Bound(p, b, EncodeBlocks(p, b)), Bound(p, b, At(p, b, 0)))
  {
    hide EncodeBlocks, EdgesOk, FitsIn, Ors, PredsMem;
    var e := EncodeBlocks(p, b);
    if b == 0 {
      FitParts(0, Ors(p, |p.blocks|), e, Bound(p, 0, e));
      PathFits(e, 0, Bound(p, 0, e));
      OneWithin(PathOf(e, 0), Bound(p, 0, e));
      EmitFits(0, Ors(p, |p.blocks|), e, [PathOf(e, 0)], Bound(p, 0, e));
    } else {
      EnterFits(p, b, Ors(p, |p.blocks|), e);
    }
  }

  lemma {:induction false} AtFits(p: Program, dom: seq<Regs>, b: nat, k: nat)
    requires WellFormed(p, dom) && b < |p.blocks| && k <= |p.blocks[b].instrs| && StageOk(p, b, EncodeBlocks(p, b))
    ensures Fits(p, b, Ors(p, |p.blocks|), At(p, b, k)) && Mem(p, b, At(p, b, k))
  {
    hide EncodeBlocks, EdgesOk, SsaOk, SuccsDistinct, FitsIn, Ors, At, Mem, StageOk, Knows, UsesIn, AllDefs, DefsUpTo;
    if k == 0 {
      StartFits(p, b);
    } else {
      AtFits(p, dom, b, k - 1);
      var i, d := p.blocks[b].instrs[k - 1], Join(AllDefs(p, b), DefsUpTo(p.blocks[b].instrs, k - 1));
      UsesKnown(p, dom, b, k - 1);
      AtKnows(p, dom, b, k - 1);
      AtStep(p, b, k - 1);
      WfInstr(p, dom, b, k - 1);
      InstrFits(p, b, Ors(p, |p.blocks|), i, At(p, b, k - 1), d);
      InstrMem(p, b, i, At(p, b, k - 1), d);
    }
  }

  lemma UsesKnown(p: Program, dom: seq<Regs>, b: nat, k: nat)
    requires WellFormed(p, dom) && b < |p.blocks| && k < |p.blocks[b].instrs|
    ensures UsesIn(p.blocks[b].instrs[k], Join(AllDefs(p, b), DefsUpTo(p.blocks[b].instrs, k)))
  {
    hide EdgesOk, SsaOk, SuccsDistinct, UsesIn, AllDefs, DefsUpTo;
    WfInstr(p, dom, b, k);
    DomKnown(p, dom, b);
    UsesMore(p.blocks[b].instrs[k], DomAt(p, dom, b, k), Join(AllDefs(p, b), DefsUpTo(p.blocks[b].instrs, k)));
  }

  lemma TermUsesKnown(p: Program, dom: seq<Regs>, b: nat)
    requires WellFormed(p, dom) && b < |p.blocks|
    ensures TermUsesIn(p.blocks[b].term, Join(AllDefs(p, b), Defs(p, b)))
    ensures Knows(At(p, b, |p.blocks[b].instrs|), Join(AllDefs(p, b), Defs(p, b)))
  {
    hide EdgesOk, SsaOk, SuccsDistinct, TermUsesIn, AllDefs, DefsUpTo, At, Knows;
    WfTerm(p, dom, b);
    DomKnown(p, dom, b);
    TermUsesMore(p.blocks[b].term, DomOut(p, dom, b), Join(AllDefs(p, b), Defs(p, b)));
    AtKnows(p, dom, b, |p.blocks[b].instrs|);
  }

  lemma NextStageFits(p: Program, dom: seq<Regs>, b: nat)
    requires WellFormed(p, dom) && b < |p.blocks| && StageOk(p, b, EncodeBlocks(p, b))
    ensures StageOk(p, b + 1, EncodeBlocks(p, b + 1))
  {
    hide EncodeBlocks, EdgesOk, SsaOk, SuccsDistinct, FitsIn, Ors, At, Knows, TermUsesIn, AllDefs, DefsUpTo, EncodeTerm, FreshExits, Continues;
    var n := |p.blocks[b].instrs|;
    AtFits(p, dom, b, n);
    TermUsesKnown(p, dom, b);
    LastStage(p, b);
    TermFits(p, b, Ors(p, |p.blocks|), At(p, b, n), Join(AllDefs(p, b), Defs(p, b)));
    TermContinues(p, b, At(p, b, n));
    MemSame(p, b, b, At(p, b, n), EncodeBlocks(p, b + 1));
    OldMem(p, b);
  }

  lemma OldMem(p: Program, b: nat)
    requires EdgesOk(p) && b < |p.blocks| && PredsMem(p, b, EncodeBlocks(p, b))
    ensures PredsMem(p, b, EncodeBlocks(p, b + 1))
  {
    hide EncodeBlocks, EdgesOk, AryOf, GlbOf;
    BlocksSettle(p, b, b + 1);
    var e, f := EncodeBlocks(p, b), EncodeBlocks(p, b + 1);
    forall q: nat | q < b ensures Mem(p, q, f) {
      assert Mem(p, q, e);
      assert AryOf(f, q) == AryOf(e, q) && GlbOf(f, q) == GlbOf(e, q);
    }
  }

  lemma {:induction false} StagesFit(p: Program, dom: seq<Regs>, b: nat)
    requires WellFormed(p, dom) && b <= |p.blocks|
    ensures StageOk(p, b, EncodeBlocks(p, b))
  {
    hide EncodeBlocks, EdgesOk, SsaOk, SuccsDistinct, Fits, Mem;
    if b == 0 { PrepareFits(p, dom); } else {
      StagesFit(p, dom, b - 1);
      NextStageFits(p, dom, b - 1);
    }
  }
}
