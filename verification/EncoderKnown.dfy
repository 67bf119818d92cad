/** Which registers the term map knows at each stage: under SSA dominance no use is ever unknown. */
module EncoderKnown {
  import opened Terms
  import opened Ir
  import opened EncoderSpec
  import opened EncoderFrame

  function ParamRegs(p: Program): Regs {
    Regs(set r | r in p.intParams, set r | r in p.boolParams)
  }

  /** Parameters and the definitions of the first `b` blocks. */
  function AllDefs(p: Program, b: nat): Regs
    requires b <= |p.blocks|
  {
    Join(ParamRegs(p), DefsBetween(p, 0, b))
  }

  /** The term map knows exactly the registers `d`. */
  ghost predicate Knows(e: Enc, d: Regs) { e.intTerms.Keys == d.ints && e.boolTerms.Keys == d.bools }

  lemma {:induction false} DefsBetweenMono(p: Program, b: nat, c: nat)
    requires b <= c <= |p.blocks|
    ensures Subregs(AllDefs(p, b), AllDefs(p, c))
    decreases c
  {
    if b < c { DefsBetweenMono(p, b, c - 1); }
  }

  lemma {:induction false} DomKnown(p: Program, dom: seq<Regs>, b: nat)
    requires WellFormed(p, dom) && b < |p.blocks|
    ensures Subregs(dom[b], AllDefs(p, b))
  {
    if b > 0 {
      var q := p.preds[b][0];
      assert IsPred(p, q, b);
      DomKnown(p, dom, q);
      DefsBetweenMono(p, q + 1, b);
      assert AllDefs(p, q + 1).ints == AllDefs(p, q).ints + Defs(p, q).ints;
      assert AllDefs(p, q + 1).bools == AllDefs(p, q).bools + Defs(p, q).bools;
    }
  }

  /** The facts about one instruction that well-formedness provides. */
  lemma WfInstr(p: Program, dom: seq<Regs>, b: nat, k: nat)
    requires WellFormed(p, dom) && b < |p.blocks| && k < |p.blocks[b].instrs|
    ensures |dom| == |p.blocks|
    ensures var i := p.blocks[b].instrs[k];
            UsesIn(i, DomAt(p, dom, b, k)) && PhiOk(p, dom, b, i) && IndexOk(p, i)
  {
  }

  lemma WfSingleDef(p: Program, dom: seq<Regs>, b: nat, k: nat)
    requires WellFormed(p, dom) && b < |p.blocks| && k < |p.blocks[b].instrs|
    ensures Disjoint(DefsUpTo(p.blocks[b].instrs, k), Def(p.blocks[b].instrs[k]))
  {
  }

  lemma WfTerm(p: Program, dom: seq<Regs>, b: nat)
    requires WellFormed(p, dom) && b < |p.blocks|
    ensures |dom| == |p.blocks| && TermUsesIn(p.blocks[b].term, DomOut(p, dom, b))
  {
  }

  lemma GetIntKnown(e: Enc, o: IntOperand, d: Regs)
    requires Knows(e, d) && IntUse(o, d)
    ensures GetInt(e, o).0 == e
  {
  }

  lemma GetBoolKnown(e: Enc, o: BoolOperand, d: Regs)
    requires Knows(e, d) && BoolUse(o, d)
    ensures GetBool(e, o).0 == e
  {
  }

  lemma BinKnows(p: Program, b: nat, i: Instr, e: Enc, d: Regs)
    requires EdgesOk(p) && b < |p.blocks| && Knows(e, d) && UsesIn(i, d) && (i.IntBin? || i.BoolBin? || i.Cmp?)
    ensures Knows(EncodeInstr(p, b, i, e), Join(d, Def(i)))
  {
    hide EdgesOk, GetInt, GetBool;
    match i
    case IntBin(_, _, x, y) => GetIntKnown(e, x, d); GetIntKnown(e, y, d);
    case BoolBin(_, _, x, y) => GetBoolKnown(e, x, d); GetBoolKnown(e, y, d);
    case Cmp(_, _, x, y) => GetIntKnown(e, x, d); GetIntKnown(e, y, d);
  }

  lemma PhiKnows(p: Program, b: nat, i: Instr, e: Enc, d: Regs)
    requires EdgesOk(p) && b < |p.blocks| && Knows(e, d) && (i.PhiInt? || i.PhiBool?)
    ensures Knows(EncodeInstr(p, b, i, e), Join(d, Def(i)))
  {
    hide EdgesOk, PhiIntCons, PhiBoolCons, MkAnd;
  }

  lemma InstrKnows(p: Program, b: nat, i: Instr, e: Enc, d: Regs)
    requires EdgesOk(p) && b < |p.blocks| && Knows(e, d) && UsesIn(i, d)
    ensures Knows(EncodeInstr(p, b, i, e), Join(d, Def(i)))
  {
    hide EdgesOk, GetInt, GetBool, EncodeStore, EncodeStoreGlb, EncodeAssume, AryOf, GlbOf, EncodePhiInt, EncodePhiBool;
    match i
    case IntBin(_, _, x, y) => BinKnows(p, b, i, e, d);
    case BoolBin(_, _, x, y) => BinKnows(p, b, i, e, d);
    case Cmp(_, _, x, y) => BinKnows(p, b, i, e, d);
    case PhiInt(_, _) => PhiKnows(p, b, i, e, d);
    case PhiBool(_, _) => PhiKnows(p, b, i, e, d);
    case AssertBool(c) => GetBoolKnown(e, c, d);
    case AssertInt(x) => GetIntKnown(e, x, d);
    case Load(_, _, x) => GetIntKnown(e, x, d);
    case Assume(c) => AssumeKnows(b, c, e, d);
    case Store(a, x, y) => StoreKnows(b, a, x, y, e, d);
    case StoreGlb(g, x) => StoreGlbKnows(b, g, x, e, d);
    case _ =>
  }

  lemma AssumeKnows(b: nat, c: BoolOperand, e: Enc, d: Regs)
    requires Knows(e, d) && BoolUse(c, d)
    ensures Knows(EncodeAssume(b, c, e), d)
  {
  }

  lemma StoreKnows(b: nat, a: nat, x: IntOperand, y: IntOperand, e: Enc, d: Regs)
    requires Knows(e, d) && IntUse(x, d) && IntUse(y, d)
    ensures Knows(EncodeStore(b, a, x, y, e), d)
  {
  }

  lemma StoreGlbKnows(b: nat, g: nat, x: IntOperand, e: Enc, d: Regs)
    requires Knows(e, d) && IntUse(x, d)
    ensures Knows(EncodeStoreGlb(b, g, x, e), d)
  {
  }

  lemma UsesMore(i: Instr, d: Regs, d': Regs)
    requires UsesIn(i, d) && Subregs(d, d')
    ensures UsesIn(i, d')
  {
  }

  lemma TermUsesMore(t: Terminator, d: Regs, d': Regs)
    requires TermUsesIn(t, d) && Subregs(d, d')
    ensures TermUsesIn(t, d')
  {
  }

  lemma {:induction false} InstrsKnow(p: Program, dom: seq<Regs>, b: nat, k: nat, e: Enc)
    requires WellFormed(p, dom) && b < |p.blocks| && k <= |p.blocks[b].instrs| && Knows(e, AllDefs(p, b))
    ensures Knows(EncodeInstrs(p, b, k, e), Join(AllDefs(p, b), DefsUpTo(p.blocks[b].instrs, k)))
  {
    hide EncodeInstr, AllDefs, Knows, SsaOk, SuccsDistinct, UsesIn, Def;
    if k > 0 {
      WfInstr(p, dom, b, k - 1);
      var i := p.blocks[b].instrs[k - 1];
      var d := Join(AllDefs(p, b), DefsUpTo(p.blocks[b].instrs, k - 1));
      InstrsKnow(p, dom, b, k - 1, e);
      DomKnown(p, dom, b);
      UsesMore(i, DomAt(p, dom, b, k - 1), d);
      InstrKnows(p, b, i, EncodeInstrs(p, b, k - 1, e), d);
      assert Join(d, Def(i)) == Join(AllDefs(p, b), DefsUpTo(p.blocks[b].instrs, k));
    } else {
      assert Join(AllDefs(p, b), Regs({}, {})) == AllDefs(p, b);
    }
  }

  lemma TermKnows(p: Program, b: nat, e: Enc, d: Regs)
    requires b < |p.blocks| && Knows(e, d) && TermUsesIn(p.blocks[b].term, d)
    ensures Knows(EncodeTerm(p, b, e), d)
  {
  }

  lemma ParamsIntKnow(e: Enc, ps: seq<nat>, k: nat)
    requires k <= |ps|
    ensures ParamsInt(e, ps, k).intTerms.Keys == e.intTerms.Keys + set r | r in ps[..k]
    ensures ParamsInt(e, ps, k).boolTerms == e.boolTerms
  {
    if k > 0 { assert ps[..k] == ps[..k - 1] + [ps[k - 1]]; }
  }

  lemma ParamsBoolKnow(e: Enc, ps: seq<nat>, k: nat)
    requires k <= |ps|
    ensures ParamsBool(e, ps, k).boolTerms.Keys == e.boolTerms.Keys + set r | r in ps[..k]
    ensures ParamsBool(e, ps, k).intTerms == e.intTerms
  {
    if k > 0 { assert ps[..k] == ps[..k - 1] + [ps[k - 1]]; }
  }

  lemma InitBitsTerms(p: Program, b: nat, e: Enc)
    requires b <= |p.blocks|
    ensures InitBits(p, b, e).intTerms == e.intTerms && InitBits(p, b, e).boolTerms == e.boolTerms
    ensures InitBits(p, b, e).ary == e.ary && InitBits(p, b, e).glb == e.glb
  {
  }

  lemma PrepareKnows(p: Program)
    ensures Knows(Prepare(p), ParamRegs(p))
  {
    var e := InitMemory(p, EMPTY);
    ParamsIntKnow(e, p.intParams, |p.intParams|);
    ParamsBoolKnow(ParamsInt(e, p.intParams, |p.intParams|), p.boolParams, |p.boolParams|);
    InitBitsTerms(p, |p.blocks|, InitParams(p, e));
    assert p.intParams[..|p.intParams|] == p.intParams && p.boolParams[..|p.boolParams|] == p.boolParams;
  }

  lemma {:induction false} BlocksKnow(p: Program, dom: seq<Regs>, b: nat)
    requires WellFormed(p, dom) && b <= |p.blocks|
    ensures Knows(EncodeBlocks(p, b), AllDefs(p, b))
  {
    hide EncodeInstrs, EnterBlock, EncodeTerm, SsaOk, SuccsDistinct, Knows, Prepare, AllDefs;
    if b == 0 {
      PrepareKnows(p);
      assert AllDefs(p, 0) == ParamRegs(p) by { NoDefsYet(p); }
    } else {
      BlocksKnow(p, dom, b - 1);
      BlockKnows(p, dom, b - 1, EncodeBlocks(p, b - 1));
    }
  }

  lemma NoDefsYet(p: Program)
    ensures AllDefs(p, 0) == ParamRegs(p)
  {
    assert Join(ParamRegs(p), NONE) == ParamRegs(p);
  }

  lemma AllDefsStep(p: Program, b: nat)
    requires b < |p.blocks|
    ensures AllDefs(p, b + 1) == Join(AllDefs(p, b), Defs(p, b))
  {
    assert AllDefs(p, b + 1).ints == Join(AllDefs(p, b), Defs(p, b)).ints;
    assert AllDefs(p, b + 1).bools == Join(AllDefs(p, b), Defs(p, b)).bools;
  }

  lemma BlockKnows(p: Program, dom: seq<Regs>, b: nat, e: Enc)
    requires WellFormed(p, dom) && b < |p.blocks| && Knows(e, AllDefs(p, b))
    ensures Knows(EncodeBlock(p, b, e), AllDefs(p, b + 1))
  {
    hide EncodeInstrs, EnterBlock, EncodeTerm, SsaOk, SuccsDistinct, TermUsesIn, Continues, AllDefs, DefsUpTo, EdgesOk;
    var e1 := EnterBlock(p, b, e);
    var n := |p.blocks[b].instrs|;
    var e2 := EncodeInstrs(p, b, n, e1);
    EnterContinues(p, b, e);
    InstrsKnow(p, dom, b, n, e1);
    DomKnown(p, dom, b);
    AllDefsStep(p, b);
    WfTerm(p, dom, b);
    TermUsesMore(p.blocks[b].term, DomOut(p, dom, b), AllDefs(p, b + 1));
    TermKnows(p, b, e2, AllDefs(p, b + 1));
  }
}
