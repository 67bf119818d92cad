/** Soundness: a block whose path bit is true lies on the concrete run, in the state its terms describe. */
module EncoderSound {
  import opened Terms
  import opened Ir
  import opened EncoderSpec
  import opened EncoderFrame
  import opened EncoderMatch
  import opened EncoderKnown

  // ----- joins -----

  /** A version all predecessors share keeps its name, any other gets a fresh one; where all are shared nothing is
      emitted. */
  lemma {:induction false} JoinNames(k: Kind, vecs: seq<seq<nat>>, conds: seq<BoolTerm>, size: nat, next: nat)
    requires |vecs| == |conds| > 0
    ensures var r := JoinUpTo(k, vecs, conds, size, next);
            && (forall j | 0 <= j < size :: if AllSame(vecs, j) then r.names[j] == NameAt(vecs[0], j) else next <= r.names[j] < r.next)
            && (forall i, j | 0 <= i < j < size && !AllSame(vecs, i) && !AllSame(vecs, j) :: r.names[i] < r.names[j])
            && ((forall j | 0 <= j < size :: AllSame(vecs, j)) <==> r.next == next)
            && (r.next == next ==> r.cons == [])
  {
    hide AllSame, JoinCons;
    if size > 0 {
      JoinNames(k, vecs, conds, size - 1, next);
    }
  }

  /** At a join every version denotes what the predecessor control came from left behind, whether the
      name is shared by all predecessors or fresh. */
  lemma {:induction false} JoinCorrect(k: Kind, vecs: seq<seq<nat>>, conds: seq<BoolTerm>, size: nat, next: nat, v: Valuation, i: nat, j: nat)
    requires i < |vecs| == |conds| && j < size
    requires AllHold(JoinUpTo(k, vecs, conds, size, next).cons, v) && Holds(conds[i], v)
    ensures Holds(NameEq(k, JoinUpTo(k, vecs, conds, size, next).names[j], NameAt(vecs[i], j)), v)
  {
    hide Holds, NameEq;
    var m := JoinUpTo(k, vecs, conds, size - 1, next);
    var cons := JoinUpTo(k, vecs, conds, size, next).cons;
    assert m.cons <= cons;
    AllHoldPrefix(m.cons, cons, v);
    if j < size - 1 {
      JoinCorrect(k, vecs, conds, size - 1, next, v, i, j);
    } else if AllSame(vecs, j) {
      SharedName(k, NameAt(vecs[i], j), v);
    } else {
      assert cons[|m.cons| + i] == Implies(conds[i], NameEq(k, m.next, NameAt(vecs[i], j)));
      GuardHolds(conds[i], NameEq(k, m.next, NameAt(vecs[i], j)), v);
    }
  }

  lemma SharedName(k: Kind, x: nat, v: Valuation)
    ensures Holds(NameEq(k, x, x), v)
  {
  }

  lemma GuardHolds(c: BoolTerm, t: BoolTerm, v: Valuation)
    requires Holds(Implies(c, t), v) && Holds(c, v)
    ensures Holds(t, v)
  {
  }

  // ----- runs -----

  lemma {:induction false} RunFromNext(p: Program, inp: Inputs, v: Visit, i: nat)
    requires v.b < |p.blocks| && i < |RunFrom(p, inp, v)|
    ensures var r := RunFrom(p, inp, v); var s := ExitState(p, inp, r[i]);
            match Next(p, r[i].b, s)
            case Some(c) => i + 1 < |r| && r[i + 1] == Visit(c, r[i].b, s)
            case None => i + 1 == |r|
    decreases |p.blocks| - v.b
  {
    var s := ExitState(p, inp, v);
    match Next(p, v.b, s)
    case None =>
    case Some(c) =>
      if i > 0 { RunFromNext(p, inp, Visit(c, v.b, s), i - 1); }
  }

  lemma RunNext(p: Program, inp: Inputs, i: nat)
    requires |p.blocks| > 0 && i < |Run(p, inp)|
    ensures var r := Run(p, inp); var s := ExitState(p, inp, r[i]);
            match Next(p, r[i].b, s)
            case Some(c) => i + 1 < |r| && r[i + 1] == Visit(c, r[i].b, s)
            case None => i + 1 == |r|
  {
    RunFromNext(p, inp, Visit(0, 0, InitState(p, inp)), i);
  }

  // ----- stages -----

  /** The encoder after the first `k` instructions of block `b`. */
  function At(p: Program, b: nat, k: nat): Enc
    requires EdgesOk(p) && b < |p.blocks| && k <= |p.blocks[b].instrs|
  {
    EncodeInstrs(p, b, k, EnterBlock(p, b, EncodeBlocks(p, b)))
  }

  lemma {:induction false} TermStays(p: Program, dom: seq<Regs>, b: nat, k: nat, j: nat)
    requires WellFormed(p, dom) && b < |p.blocks| && k < j <= |p.blocks[b].instrs|
    ensures forall r | r in Def(p.blocks[b].instrs[k]).ints && r in At(p, b, k + 1).intTerms ::
              r in At(p, b, j).intTerms && At(p, b, j).intTerms[r] == At(p, b, k + 1).intTerms[r]
    ensures forall r | r in Def(p.blocks[b].instrs[k]).bools && r in At(p, b, k + 1).boolTerms ::
              r in At(p, b, j).boolTerms && At(p, b, j).boolTerms[r] == At(p, b, k + 1).boolTerms[r]
  {
    hide EncodeInstr, EnterBlock, EncodeBlocks, SsaOk, SuccsDistinct, VecsGrow, PathsKept, MemKept, EdgesOk, Def;
    if j > k + 1 {
      TermStays(p, dom, b, k, j - 1);
      InstrContinues(p, b, p.blocks[b].instrs[j - 1], At(p, b, j - 1));
      WfSingleDef(p, dom, b, j - 1);
      DefsUpToHas(p.blocks[b].instrs, k, j - 1);
    }
  }

  lemma {:induction false} DefsUpToHas(instrs: seq<Instr>, k: nat, j: nat)
    requires k < j <= |instrs|
    ensures Subregs(Def(instrs[k]), DefsUpTo(instrs, j))
  {
    if k < j - 1 { DefsUpToHas(instrs, k, j - 1); }
  }

  lemma {:induction false} LaterDefsDisjoint(p: Program, dom: seq<Regs>, b: nat, c: nat)
    requires WellFormed(p, dom) && b < c <= |p.blocks|
    ensures Disjoint(DomOut(p, dom, b), DefsBetween(p, b + 1, c))
    decreases c
  {
    hide SsaOk, SuccsDistinct, Defs, EdgesOk;
    WfTerm(p, dom, b);
    if b + 1 < c {
      LaterDefsDisjoint(p, dom, b, c - 1);
      OutDisjoint(p, dom, b, c - 1);
    }
  }

  lemma OutDisjoint(p: Program, dom: seq<Regs>, b: nat, c: nat)
    requires WellFormed(p, dom) && b < c < |p.blocks|
    ensures Disjoint(DomOut(p, dom, b), Defs(p, c))
  {
    assert Disjoint(dom[b], Defs(p, c)) && Disjoint(Defs(p, b), Defs(p, c));
  }

  lemma {:induction false} EarlierDefsDisjoint(p: Program, dom: seq<Regs>, b: nat, c: nat)
    requires WellFormed(p, dom) && c <= b < |p.blocks|
    ensures Disjoint(AllDefs(p, c), Defs(p, b))
  {
    hide WellFormed, Defs;
    if c > 0 {
      EarlierDefsDisjoint(p, dom, b, c - 1);
      AllDefsStep(p, c - 1);
      DefsApart(p, dom, c - 1, b);
    } else {
      NoDefsYet(p);
      ParamsVsDefs(p, dom, b);
    }
  }

  lemma DefsApart(p: Program, dom: seq<Regs>, a: nat, b: nat)
    requires WellFormed(p, dom) && a < b < |p.blocks|
    ensures Disjoint(Defs(p, a), Defs(p, b))
  {
    hide EdgesOk, SuccsDistinct, Defs, UsesIn, PhiOk, TermUsesIn;
  }

  /** What an instruction of block `b` defines is final. */
  lemma DefIsFinal(p: Program, dom: seq<Regs>, m: nat, b: nat, k: nat)
    requires WellFormed(p, dom) && b < m <= |p.blocks| && k < |p.blocks[b].instrs|
    ensures var f := EncodeBlocks(p, m);
            (forall r | r in Def(p.blocks[b].instrs[k]).ints && r in At(p, b, k + 1).intTerms ::
               r in f.intTerms && f.intTerms[r] == At(p, b, k + 1).intTerms[r]) &&
            (forall r | r in Def(p.blocks[b].instrs[k]).bools && r in At(p, b, k + 1).boolTerms ::
               r in f.boolTerms && f.boolTerms[r] == At(p, b, k + 1).boolTerms[r])
  {
    hide EncodeInstr, EncodeInstrs, EncodeTerm, EnterBlock, SsaOk, SuccsDistinct, VecsGrow, PathsKept, MemKept, EdgesOk, Def, DefsBetween;
    var n := |p.blocks[b].instrs|;
    WfTerm(p, dom, b);
    TermStays(p, dom, b, k, n);
    TermContinues(p, b, At(p, b, n));
    assert EncodeBlocks(p, b + 1) == EncodeTerm(p, b, At(p, b, n));
    BlocksSettle(p, b + 1, m);
    LaterDefsDisjoint(p, dom, b, m);
    DefsUpToHas(p.blocks[b].instrs, k, n);
  }

  // ----- inputs -----

  ghost predicate IsIntInput(p: Program, r: nat) {
    r in p.intParams || exists b, k :: 0 <= b < |p.blocks| && 0 <= k < |p.blocks[b].instrs| && p.blocks[b].instrs[k] == NondetInt(r)
  }

  ghost predicate IsBoolInput(p: Program, r: nat) {
    r in p.boolParams || exists b, k :: 0 <= b < |p.blocks| && 0 <= k < |p.blocks[b].instrs| && p.blocks[b].instrs[k] == NondetBool(r)
  }

  /** The valuation reads parameters, nondet results and entry memory as the inputs say, as far as the first
      `m` blocks name them. */
  ghost predicate InputsMatch(p: Program, m: nat, v: Valuation, inp: Inputs)
    requires EdgesOk(p) && m <= |p.blocks|
  {
    var f := EncodeBlocks(p, m);
    && (forall r: nat | IsIntInput(p, r) && r in f.intTerms :: IntVal(f.intTerms[r], v) == inp.ints(r))
    && (forall r: nat | IsBoolInput(p, r) && r in f.boolTerms :: Holds(f.boolTerms[r], v) == inp.bools(r))
    && |inp.arrs| == p.nArrays && ArysMatch(EntryNames(p), v, inp.arrs)
    && |inp.glbs| == |p.glbInit| && GlbsMatch(EntryGlobals(p), v, inp.glbs)
  }

  /** A nondet call meets a register the term map does not know yet, so its value is a fresh name's. */
  lemma NondetReady(p: Program, dom: seq<Regs>, m: nat, b: nat, k: nat, v: Valuation, inp: Inputs)
    requires WellFormed(p, dom) && b < m <= |p.blocks| && k < |p.blocks[b].instrs| && InputsMatch(p, m, v, inp)
    ensures var i := p.blocks[b].instrs[k]; var e := At(p, b, k);
            && (i.NondetInt? ==> i.dst !in e.intTerms && v.ints(e.nextInt) == inp.ints(i.dst))
            && (i.NondetBool? ==> v.bools(BitName(e.nextBit)) == inp.bools(i.dst))
  {
    hide EncodeInstrs, EnterBlock, SsaOk, SuccsDistinct, EdgesOk, DefsBetween, ArysMatch, GlbsMatch, EntryNames, EntryGlobals, EncodeBlocks, AllDefs;
    var i, e := p.blocks[b].instrs[k], At(p, b, k);
    DefIsFinal(p, dom, m, b, k);
    if i.NondetInt? {
      AtKnows(p, dom, b, k);
      WfSingleDef(p, dom, b, k);
      EarlierDefsDisjoint(p, dom, b, b);
      DefsUpToHas(p.blocks[b].instrs, k, |p.blocks[b].instrs|);
      assert i.dst !in e.intTerms;
      assert At(p, b, k + 1).intTerms[i.dst] == IntVar(e.nextInt) by { AtStep(p, b, k); }
      assert i.dst in Def(i).ints && IsIntInput(p, i.dst);
    } else if i.NondetBool? {
      assert At(p, b, k + 1).boolTerms[i.dst] == BoolVar(BitName(e.nextBit)) by { AtStep(p, b, k); }
      assert i.dst in Def(i).bools && IsBoolInput(p, i.dst);
    }
  }

  lemma AtStep(p: Program, b: nat, k: nat)
    requires EdgesOk(p) && b < |p.blocks| && k < |p.blocks[b].instrs|
    ensures At(p, b, k + 1) == EncodeInstr(p, b, p.blocks[b].instrs[k], At(p, b, k))
  {
    hide EncodeInstr, EnterBlock, EncodeBlocks, EdgesOk;
  }

  lemma AtFromStart(p: Program, b: nat, j: nat, k: nat)
    requires EdgesOk(p) && b < |p.blocks| && j <= k <= |p.blocks[b].instrs|
    ensures At(p, b, k) == EncodeInstrs(p, b, k, At(p, b, 0))
    ensures At(p, b, j).bmcVec <= At(p, b, k).bmcVec
    ensures At(p, b, j).specVec <= At(p, b, k).specVec && At(p, b, j).assertBits <= At(p, b, k).assertBits
  {
    hide EncodeInstr, EnterBlock, EncodeBlocks, EdgesOk;
    InstrsContinueFrom(p, b, j, k, At(p, b, 0));
  }

  lemma AllHoldPrefix(cs: seq<BoolTerm>, ds: seq<BoolTerm>, v: Valuation)
    requires cs <= ds && AllHold(ds, v)
    ensures AllHold(cs, v)
  {
    hide Holds;
    forall i | 0 <= i < |cs| ensures Holds(cs[i], v) { assert ds[i] == cs[i]; }
  }

  lemma AtKnows(p: Program, dom: seq<Regs>, b: nat, k: nat)
    requires WellFormed(p, dom) && b < |p.blocks| && k <= |p.blocks[b].instrs|
    ensures Knows(At(p, b, k), Join(AllDefs(p, b), DefsUpTo(p.blocks[b].instrs, k)))
  {
    hide EncodeInstrs, EnterBlock, EncodeBlocks, SsaOk, SuccsDistinct, EdgesOk, AllDefs, Continues;
    var e := EncodeBlocks(p, b);
    BlocksKnow(p, dom, b);
    EnterContinues(p, b, e);
    InstrsKnow(p, dom, b, k, EnterBlock(p, b, e));
  }

  // ----- one block -----

  /** The visited block was entered properly: its versions and the registers dominating it are right, and so
      was everything at the end of the block control came from. */
  ghost predicate Entered(p: Program, dom: seq<Regs>, v: Valuation, vis: Visit, on: bool)
    requires EdgesOk(p) && |dom| == |p.blocks| && vis.b < |p.blocks|
  {
    && Match(p, vis.b, At(p, vis.b, 0), v, vis.entry, dom[vis.b], on)
    && (vis.b > 0 ==>
          && IsPred(p, vis.from, vis.b)
          && Holds(EdgeCond(p, At(p, vis.b, 0), vis.from, vis.b), v)
          && RegsMatch(At(p, vis.b, 0), v, vis.entry, DomOut(p, dom, vis.from)))
  }

  lemma EdgeStill(p: Program, dom: seq<Regs>, b: nat, k: nat, v: Valuation, vis: Visit)
    requires WellFormed(p, dom) && b < |p.blocks| && k <= |p.blocks[b].instrs| && |dom| == |p.blocks|
    requires IsPred(p, vis.from, b)
    requires Holds(EdgeCond(p, At(p, b, 0), vis.from, b), v)
    requires RegsMatch(At(p, b, 0), v, vis.entry, DomOut(p, dom, vis.from))
    ensures Holds(EdgeCond(p, At(p, b, k), vis.from, b), v)
    ensures RegsMatch(At(p, b, k), v, vis.entry, DomOut(p, dom, vis.from))
  {
    hide EncodeInstrs, EnterBlock, EncodeBlocks, SsaOk, SuccsDistinct, EdgesOk, DomOut, MemKept, Holds, IntVal, DefsUpTo;
    EdgeGood(p, vis.from, b);
    AtFromStart(p, b, 0, k);
    InstrsContinue(p, b, k, At(p, b, 0));
    OutDisjoint(p, dom, vis.from, b);
    DefsGrow(p.blocks[b].instrs, k, |p.blocks[b].instrs|);
    assert EdgeCond(p, At(p, b, k), vis.from, b) == EdgeCond(p, At(p, b, 0), vis.from, b);
  }

  lemma {:induction false} DefsGrow(instrs: seq<Instr>, k: nat, j: nat)
    requires k <= j <= |instrs|
    ensures Subregs(DefsUpTo(instrs, k), DefsUpTo(instrs, j))
  {
    if k < j { DefsGrow(instrs, k, j - 1); }
  }

  /** Through the instructions of a visited block the terms follow the execution. */
  lemma {:induction false} InstrsMatch(p: Program, dom: seq<Regs>, m: nat, v: Valuation, inp: Inputs, vis: Visit, on: bool, k: nat)
    requires WellFormed(p, dom) && vis.b < m <= |p.blocks| && |dom| == |p.blocks| && k <= |p.blocks[vis.b].instrs|
    requires InputsMatch(p, m, v, inp) && Entered(p, dom, v, vis, on) && AllHold(At(p, vis.b, k).bmcVec, v)
    ensures Match(p, vis.b, At(p, vis.b, k), v, StateAt(p, inp, vis, k), DomAt(p, dom, vis.b, k), on)
  {
    hide EncodeInstrs, EncodeInstr, EnterBlock, EncodeBlocks, SsaOk, SuccsDistinct, EdgesOk, InputsMatch, Match, RegsMatch, ExecInstr, PhiOk, Entered, AllHold, At;
    var b := vis.b;
    if k == 0 {
      assert Join(dom[b], Regs({}, {})) == dom[b];
      EnteredMatch(p, dom, v, vis, on);
    } else {
      var i := p.blocks[b].instrs[k - 1];
      AtStep(p, b, k - 1);
      AtFromStart(p, b, k - 1, k);
      AllHoldPrefix(At(p, b, k - 1).bmcVec, At(p, b, k).bmcVec, v);
      InstrsMatch(p, dom, m, v, inp, vis, on, k - 1);
      WfInstr(p, dom, b, k - 1);
      StepIsReady(p, dom, m, v, inp, vis, on, k - 1);
      InstrMatch(p, dom, b, i, At(p, b, k - 1), v, inp, vis, StateAt(p, inp, vis, k - 1), DomAt(p, dom, b, k - 1), on);
      assert Join(DomAt(p, dom, b, k - 1), Def(i)) == DomAt(p, dom, b, k);
    }
  }

  lemma EnteredMatch(p: Program, dom: seq<Regs>, v: Valuation, vis: Visit, on: bool)
    requires EdgesOk(p) && |dom| == |p.blocks| && vis.b < |p.blocks| && Entered(p, dom, v, vis, on)
    ensures Match(p, vis.b, At(p, vis.b, 0), v, vis.entry, dom[vis.b], on)
  {
  }

  lemma StepIsReady(p: Program, dom: seq<Regs>, m: nat, v: Valuation, inp: Inputs, vis: Visit, on: bool, k: nat)
    requires WellFormed(p, dom) && vis.b < m <= |p.blocks| && |dom| == |p.blocks| && k < |p.blocks[vis.b].instrs|
    requires InputsMatch(p, m, v, inp) && Entered(p, dom, v, vis, on)
    ensures StepReady(p, dom, vis.b, p.blocks[vis.b].instrs[k], At(p, vis.b, k), v, inp, vis)
  {
    hide EncodeInstrs, EnterBlock, EncodeBlocks, SsaOk, SuccsDistinct, EdgesOk, InputsMatch, Match, RegsMatch, DomOut, EdgeCond, Holds;
    var b, i := vis.b, p.blocks[vis.b].instrs[k];
    NondetReady(p, dom, m, b, k, v, inp);
    if i.PhiInt? || i.PhiBool? {
      WfInstr(p, dom, b, k);
      assert b > 0;
      EdgeGood(p, vis.from, b);
      EdgeStill(p, dom, b, k, v, vis);
      OutDisjoint(p, dom, vis.from, b);
      DefsUpToHas(p.blocks[b].instrs, k, |p.blocks[b].instrs|);
    }
  }

  // ----- exits -----

  /** Exit names used by the blocks before `b`. */
  function ExitBase(p: Program, b: nat): nat
    requires b <= |p.blocks|
  {
    if b == 0 then 0 else ExitBase(p, b - 1) + ExitCount(|Succs(p.blocks[b - 1].term)|)
  }

  lemma InitBlockExits(p: Program, b: nat, e: Enc)
    requires b < |p.blocks|
    ensures var e' := InitBlockBits(p, b, e); var k := |Succs(p.blocks[b].term)|;
            && e'.nextExit == e.nextExit + ExitCount(k)
            && ExitsOf(e', b) == FreshExits(e.nextExit, k)
            && forall c: nat | c != b :: ExitsOf(e', c) == ExitsOf(e, c)
  {
    hide MkOr, FreshExits, Succs, ExitCount;
  }

  lemma {:induction false} InitExits(p: Program, c: nat, e: Enc, b: nat)
    requires c <= |p.blocks| && e.nextExit == 0
    ensures InitBits(p, c, e).nextExit == ExitBase(p, c)
    ensures b < c ==> ExitsOf(InitBits(p, c, e), b) == FreshExits(ExitBase(p, b), |Succs(p.blocks[b].term)|)
  {
    hide FreshExits, InitBlockBits, ExitsOf, ExitCount, Succs;
    if c > 0 {
      InitExits(p, c - 1, e, b);
      InitBlockExits(p, c - 1, InitBits(p, c - 1, e));
    }
  }

  lemma ParamsExits(e: Enc, ps: seq<nat>, k: nat)
    requires k <= |ps|
    ensures ParamsInt(e, ps, k).nextExit == e.nextExit && ParamsBool(e, ps, k).nextExit == e.nextExit
  {
  }

  lemma ExitsFixed(p: Program, c: nat, b: nat)
    requires EdgesOk(p) && c <= |p.blocks| && b < |p.blocks|
    ensures ExitsOf(EncodeBlocks(p, c), b) == FreshExits(ExitBase(p, b), |Succs(p.blocks[b].term)|)
  {
    hide EncodeBlock, EdgesOk, FreshExits;
    var e := InitMemory(p, EMPTY);
    ParamsExits(e, p.intParams, |p.intParams|);
    ParamsExits(ParamsInt(e, p.intParams, |p.intParams|), p.boolParams, |p.boolParams|);
    InitExits(p, |p.blocks|, InitParams(p, e), b);
    BlocksSettle(p, 0, c);
  }

  /** The exit bits of a finished block point at the successor control takes. */
  ghost predicate ExitsRight(p: Program, e: Enc, v: Valuation, b: nat, s: State)
    requires b < |p.blocks|
  {
    var t := p.blocks[b].term;
    |ExitsOf(e, b)| == |Succs(t)| && forall j: nat | j < |Succs(t)| :: Holds(ExitsOf(e, b)[j], v) == (j == Taken(t, s))
  }

  lemma BranchExits(p: Program, b: nat, e: Enc, v: Valuation, s: State, d: Regs)
    requires b < |p.blocks| && p.blocks[b].term.Branch? && BoolUse(p.blocks[b].term.cond, d)
    requires RegsMatch(e, v, s, d) && AllHold(EncodeTerm(p, b, e).bmcVec, v)
    requires exists n :: ExitsOf(e, b) == FreshExits(n, 2)
    ensures ExitsRight(p, EncodeTerm(p, b, e), v, b, s)
  {
    var c := p.blocks[b].term.cond;
    BoolReads(e, c, v, s, d);
    var link := Iff(GetBool(e, c).1, ExitOf(e, b, 0));
    assert EncodeTerm(p, b, e).bmcVec[|e.bmcVec|] == link;
    assert Holds(link, v);
  }

  /** What the switch constraints say about each exit bit, for scrutinee value `x`. */
  ghost predicate SwitchBits(cases: seq<(int, nat)>, xs: seq<BoolTerm>, v: Valuation, x: int) {
    && |xs| == |cases| + 1
    && (forall i: nat | i < |cases| :: Holds(xs[i + 1], v) == (cases[i].0 == x))
    && (Holds(xs[0], v) == forall i: nat | i < |cases| :: cases[i].0 != x)
  }

  lemma CaseMeaning(x: int, u: IntTerm, xb: BoolTerm, v: Valuation)
    ensures Holds(Iff(CaseTerm(x, u), xb), v) == (Holds(xb, v) == (x == IntVal(u, v)))
    ensures Holds(Not(CaseTerm(x, u)), v) == (x != IntVal(u, v))
  {
  }

  lemma IffMeaning(x: BoolTerm, y: BoolTerm, v: Valuation)
    ensures Holds(Iff(x, y), v) == (Holds(x, v) == Holds(y, v))
  {
  }

  lemma SwitchConsMeaning(cases: seq<(int, nat)>, xs: seq<BoolTerm>, u: IntTerm, v: Valuation)
    requires |xs| == |cases| + 1
    requires AllHold(SwitchCons(cases, u, xs), v) && Holds(Iff(MkAnd(NoCase(cases, u)), xs[0]), v)
    ensures SwitchBits(cases, xs, v, IntVal(u, v))
  {
    hide MkAnd, Holds, IntVal, CaseTerm;
    var cs, none := SwitchCons(cases, u, xs), NoCase(cases, u);
    forall i: nat | i < |cases|
      ensures Holds(xs[i + 1], v) == (cases[i].0 == IntVal(u, v))
      ensures Holds(none[i], v) == (cases[i].0 != IntVal(u, v))
    {
      assert cs[i] == Iff(CaseTerm(cases[i].0, u), xs[i + 1]);
      CaseMeaning(cases[i].0, u, xs[i + 1], v);
    }
    MkAndMeaning(none, v);
    IffMeaning(MkAnd(none), xs[0], v);
    assert AllHold(none, v) <==> forall i: nat | i < |cases| :: cases[i].0 != IntVal(u, v);
  }

  lemma SwitchTaken(cases: seq<(int, nat)>, xs: seq<BoolTerm>, v: Valuation, x: int, j: nat)
    requires SwitchBits(cases, xs, v, x) && j <= |cases|
    requires forall i, l | 0 <= i < l < |cases| :: cases[i].0 != cases[l].0
    ensures Holds(xs[j], v) == (j == if CaseIndex(cases, x) < |cases| then CaseIndex(cases, x) + 1 else 0)
  {
    hide Holds;
    if j > 0 { assert Holds(xs[(j - 1) + 1], v) == (cases[j - 1].0 == x); }
  }

  lemma SwitchExits(p: Program, b: nat, e: Enc, v: Valuation, s: State, d: Regs)
    requires b < |p.blocks| && p.blocks[b].term.Switch? && IntUse(p.blocks[b].term.scrut, d) && SuccsDistinct(p)
    requires RegsMatch(e, v, s, d) && AllHold(EncodeTerm(p, b, e).bmcVec, v)
    requires |ExitsOf(e, b)| == |Succs(p.blocks[b].term)|
    ensures ExitsRight(p, EncodeTerm(p, b, e), v, b, s)
  {
    hide RegsMatch, GetInt, SuccsDistinct, Holds, MkAnd, ReadInt, IntVal, SwitchBits, EncodeBranch, EncodeReturn;
    var t := p.blocks[b].term;
    var cases, xs := t.cases, ExitsOf(e, b);
    IntReads(e, t.scrut, v, s, d);
    var u := GetInt(e, t.scrut).1;
    var cs, last := SwitchCons(cases, u, xs), Iff(MkAnd(NoCase(cases, u)), xs[0]);
    var e' := EncodeTerm(p, b, e);
    assert e'.bmcVec == e.bmcVec + (cs + [last]);
    TailHolds(e.bmcVec, cs, last, v);
    SwitchConsMeaning(cases, xs, u, v);
    CasesDistinct(p, b);
    forall j: nat | j < |Succs(t)|
      ensures Holds(xs[j], v) == (j == Taken(t, s))
    {
      SwitchTaken(cases, xs, v, ReadInt(t.scrut, s), j);
    }
    assert ExitsOf(e', b) == xs;
  }

  lemma TailHolds(xs: seq<BoolTerm>, cs: seq<BoolTerm>, last: BoolTerm, v: Valuation)
    requires AllHold(xs + (cs + [last]), v)
    ensures AllHold(cs, v) && Holds(last, v)
  {
    hide Holds;
    var all := xs + (cs + [last]);
    forall i | 0 <= i < |cs| ensures Holds(cs[i], v) { assert all[|xs| + i] == cs[i]; }
    assert all[|xs| + |cs|] == last;
  }

  lemma CasesDistinct(p: Program, b: nat)
    requires b < |p.blocks| && p.blocks[b].term.Switch? && SuccsDistinct(p)
    ensures forall i, j | 0 <= i < j < |p.blocks[b].term.cases| :: p.blocks[b].term.cases[i].0 != p.blocks[b].term.cases[j].0
  {
  }

  lemma TermExits(p: Program, b: nat, e: Enc, v: Valuation, s: State, d: Regs)
    requires b < |p.blocks| && TermUsesIn(p.blocks[b].term, d) && SuccsDistinct(p)
    requires RegsMatch(e, v, s, d) && AllHold(EncodeTerm(p, b, e).bmcVec, v)
    requires ExitsOf(e, b) == FreshExits(ExitBase(p, b), |Succs(p.blocks[b].term)|)
    ensures ExitsRight(p, EncodeTerm(p, b, e), v, b, s)
  {
    hide EncodeBranch, EncodeSwitch, RegsMatch, AllHold, SuccsDistinct, ExitsRight, EncodeReturn, FreshExits;
    var t := p.blocks[b].term;
    if t.Branch? { BranchExits(p, b, e, v, s, d); }
    else if t.Switch? { SwitchExits(p, b, e, v, s, d); }
    else { PlainExits(p, b, e, v, s); }
  }

  lemma PlainExits(p: Program, b: nat, e: Enc, v: Valuation, s: State)
    requires b < |p.blocks| && !p.blocks[b].term.Branch? && !p.blocks[b].term.Switch?
    requires ExitsOf(e, b) == FreshExits(ExitBase(p, b), |Succs(p.blocks[b].term)|)
    ensures ExitsRight(p, EncodeTerm(p, b, e), v, b, s)
  {
    TermContinues(p, b, e);
  }

  /** THE RETURN VALUE: under the constraints the fresh name of a visited block's return is the value the run returns. */
  lemma ReturnMeans(p: Program, b: nat, e: Enc, v: Valuation, s: State, d: Regs)
    requires b < |p.blocks| && p.blocks[b].term.Return? && p.blocks[b].term.ret.Some? && TermUsesIn(p.blocks[b].term, d)
    requires RegsMatch(e, v, s, d) && AllHold(EncodeTerm(p, b, e).bmcVec, v)
    ensures EncodeTerm(p, b, e).nextInt == e.nextInt + 1
    ensures IntVal(IntVar(e.nextInt), v) == ReadInt(p.blocks[b].term.ret.value, s)
  {
    hide RegsMatch, GetInt, ReadInt;
    var o := p.blocks[b].term.ret.value;
    IntReads(e, o, v, s, d);
    var c := Compare(Eq, IntVar(e.nextInt), GetInt(e, o).1);
    assert EncodeTerm(p, b, e).bmcVec == e.bmcVec + [c];
    assert (e.bmcVec + [c])[|e.bmcVec|] == c;
    assert Holds(c, v);
  }

  // ----- entering a block -----

  lemma {:induction false} ParamsSettled(p: Program, dom: seq<Regs>, c: nat)
    requires WellFormed(p, dom) && c <= |p.blocks|
    ensures Disjoint(ParamRegs(p), DefsBetween(p, 0, c))
  {
    hide WellFormed, Defs;
    if c > 0 {
      ParamsSettled(p, dom, c - 1);
      ParamsVsDefs(p, dom, c - 1);
    }
  }

  lemma ParamsVsDefs(p: Program, dom: seq<Regs>, b: nat)
    requires WellFormed(p, dom) && b < |p.blocks|
    ensures Disjoint(ParamRegs(p), Defs(p, b))
  {
    hide EdgesOk, SuccsDistinct, Defs, UsesIn, PhiOk, TermUsesIn;
  }

  lemma EntryRegs(p: Program, dom: seq<Regs>, m: nat, v: Valuation, inp: Inputs)
    requires WellFormed(p, dom) && m <= |p.blocks| == |dom| && InputsMatch(p, m, v, inp)
    ensures RegsMatch(EncodeBlocks(p, 0), v, InitState(p, inp), dom[0])
  {
    hide EncodeBlock, SsaOk, SuccsDistinct, EdgesOk, DefsBetween, Prepare, VecsGrow, Holds, IntVal, ArysMatch, GlbsMatch;
    NonEmpty(p);
    var s, e := InitState(p, inp), EncodeBlocks(p, 0);
    ParamsSettled(p, dom, m);
    BlocksSettle(p, 0, m);
    BlocksKnow(p, dom, 0);
    NoDefsYet(p);
    DomKnown(p, dom, 0);
    forall r: nat | r in dom[0].ints
      ensures r in e.intTerms && r in s.ints && IntVal(e.intTerms[r], v) == s.ints[r]
    {
      assert r in p.intParams && IsIntInput(p, r);
    }
    forall r: nat | r in dom[0].bools
      ensures r in e.boolTerms && r in s.bools && Holds(e.boolTerms[r], v) == s.bools[r]
    {
      assert r in p.boolParams && IsBoolInput(p, r);
    }
  }

  /** Control starts in the entry block with the inputs' memory and parameters. */
  lemma EntryEntered(p: Program, dom: seq<Regs>, m: nat, v: Valuation, inp: Inputs)
    requires WellFormed(p, dom) && m <= |p.blocks| == |dom| && InputsMatch(p, m, v, inp)
    ensures Entered(p, dom, v, Visit(0, 0, InitState(p, inp)), true)
  {
    hide EncodeBlock, SsaOk, SuccsDistinct, EdgesOk, Prepare, RegsMatch, ArysMatch, GlbsMatch, IsIntInput, IsBoolInput;
    NonEmpty(p);
    var e := EncodeBlocks(p, 0);
    EntryRegs(p, dom, m, v, inp);
    assert At(p, 0, 0) == Emit(e, PathOf(e, 0));
    EmitMatch0(e, PathOf(e, 0), v, InitState(p, inp), dom[0]);
    PreparePath(p);
  }

  lemma NonEmpty(p: Program)
    requires EdgesOk(p)
    ensures |p.blocks| > 0
  {
  }

  lemma EmitMatch0(e: Enc, c: BoolTerm, v: Valuation, s: State, d: Regs)
    requires RegsMatch(e, v, s, d)
    ensures RegsMatch(Emit(e, c), v, s, d)
    ensures forall b: nat :: AryOf(Emit(e, c), b) == AryOf(e, b) && GlbOf(Emit(e, c), b) == GlbOf(e, b) && PathOf(Emit(e, c), b) == PathOf(e, b)
  {
  }

  lemma PreparePath(p: Program)
    ensures PathOf(Prepare(p), 0) == BoolLit(true)
  {
  }

  /** A finished visit: terms, versions, path bit and exit bits describe the state the block was left in. */
  ghost predicate Done(p: Program, dom: seq<Regs>, inp: Inputs, e: Enc, v: Valuation, vis: Visit, on: bool)
    requires vis.b < |p.blocks| && |dom| == |p.blocks|
  {
    var s := ExitState(p, inp, vis);
    Match(p, vis.b, e, v, s, DomOut(p, dom, vis.b), on) && ExitsRight(p, e, v, vis.b, s)
  }

  /** Versions at the join of block `b`, seen along the edge from `q`. */
  lemma JoinedMemory(p: Program, b: nat, q: nat, e: Enc, v: Valuation, s: State)
    requires EdgesOk(p) && 0 < b < |p.blocks| && IsPred(p, q, b)
    requires AllHold(EnterBlock(p, b, e).bmcVec, v) && Holds(EdgeCond(p, e, q, b), v)
    requires |s.arrs| == p.nArrays && ArysMatch(AryOf(e, q), v, s.arrs)
    requires |s.glbs| == |p.glbInit| && GlbsMatch(GlbOf(e, q), v, s.glbs)
    ensures ArysMatch(AryOf(EnterBlock(p, b, e), b), v, s.arrs)
    ensures GlbsMatch(GlbOf(EnterBlock(p, b, e), b), v, s.glbs)
  {
    hide EdgesOk, JoinUpTo, MkAnd, MkOr, Holds, EdgeCond;
    var qs := p.preds[b];
    var i :| 0 <= i < |qs| && qs[i] == q;
    var conds := Incoming(p, e, b);
    var e1 := Emit(e, Implies(PathOf(e, b), MkOr(conds)));
    var ja := JoinUpTo(Arrays, VecsOf(e.ary, qs), conds, p.nArrays, e1.nextArr);
    var e2 := JoinArrays(p, b, conds, e1);
    var jg := JoinUpTo(Globals, VecsOf(e.glb, qs), conds, |p.glbInit|, e2.nextInt);
    var e3 := EnterBlock(p, b, e);
    assert e3.bmcVec == e.bmcVec + [Implies(PathOf(e, b), MkOr(conds))] + [MkAnd(ja.cons)] + [MkAnd(jg.cons)];
    assert e3.bmcVec[|e.bmcVec| + 1] == MkAnd(ja.cons) && e3.bmcVec[|e.bmcVec| + 2] == MkAnd(jg.cons);
    MkAndMeaning(ja.cons, v);
    MkAndMeaning(jg.cons, v);
    assert AryOf(e3, b) == ja.names && GlbOf(e3, b) == jg.names;
    forall a: nat, k: int | a < p.nArrays
      ensures v.arrs(ja.names[a], k) == s.arrs[a](k)
    {
      JoinCorrect(Arrays, VecsOf(e.ary, qs), conds, p.nArrays, e1.nextArr, v, i, a);
      ArrEqMeaning(ja.names[a], AryOf(e, q)[a], v, k);
    }
    forall g: nat | g < |p.glbInit|
      ensures v.ints(jg.names[g]) == s.glbs[g]
    {
      JoinCorrect(Globals, VecsOf(e.glb, qs), conds, |p.glbInit|, e2.nextInt, v, i, g);
      GlbEqMeaning(jg.names[g], GlbOf(e, q)[g], v);
    }
  }

  lemma ArrEqMeaning(x: nat, y: nat, v: Valuation, k: int)
    requires Holds(NameEq(Arrays, x, y), v)
    ensures v.arrs(x, k) == v.arrs(y, k)
  {
  }

  lemma GlbEqMeaning(x: nat, y: nat, v: Valuation)
    requires Holds(NameEq(Globals, x, y), v)
    ensures v.ints(x) == v.ints(y)
  {
  }

  /** Following an edge whose condition is true enters the block properly. */
  lemma EdgeEntered(p: Program, dom: seq<Regs>, inp: Inputs, v: Valuation, b: nat, vis: Visit, on: bool)
    requires WellFormed(p, dom) && |dom| == |p.blocks| && 0 < b < |p.blocks| && IsPred(p, vis.b, b) && vis.b < |p.blocks|
    requires AllHold(At(p, b, 0).bmcVec, v)
    requires Done(p, dom, inp, EncodeBlocks(p, b), v, vis, true) && Holds(EdgeCond(p, EncodeBlocks(p, b), vis.b, b), v)
    requires Holds(PathOf(EncodeBlocks(p, b), b), v) == on
    ensures Entered(p, dom, v, Visit(b, vis.b, ExitState(p, inp, vis)), on)
    ensures ExitState(p, inp, vis).ok
  {
    hide EncodeBlocks, EnterBlock, SsaOk, SuccsDistinct, EdgesOk, ExitsRight, Continues, ExitState, EdgeCond, DomOut, ArysMatch, GlbsMatch, Holds;
    var e, q := EncodeBlocks(p, b), vis.b;
    var s := ExitState(p, inp, vis);
    assert At(p, b, 0) == EnterBlock(p, b, e);
    EdgeGood(p, q, b);
    EnterContinues(p, b, e);
    EdgeKept(p, q, b, e, EnterBlock(p, b, e), v);
    JoinedMemory(p, b, q, e, v, s);
    DomFlow(p, dom, q, b);
    EdgeCondParts(p, e, q, b, v);
  }

  lemma EdgeKept(p: Program, q: nat, b: nat, e: Enc, e': Enc, v: Valuation)
    requires q < b < |p.blocks| && b in Succs(p.blocks[q].term) && Continues(b, NONE, e, e')
    ensures EdgeCond(p, e', q, b) == EdgeCond(p, e, q, b)
  {
  }

  lemma EdgeCondParts(p: Program, e: Enc, q: nat, b: nat, v: Valuation)
    requires q < |p.blocks| && b in Succs(p.blocks[q].term)
    ensures Holds(EdgeCond(p, e, q, b), v) ==
            (Holds(PathOf(e, q), v) && Holds(ExitOf(e, q, SuccIndex(Succs(p.blocks[q].term), b)), v))
  {
    hide PathOf, ExitOf, SuccIndex;
    ConjTwo(PathOf(e, q), ExitOf(e, q, SuccIndex(Succs(p.blocks[q].term), b)), v);
  }

  lemma DomFlow(p: Program, dom: seq<Regs>, q: nat, b: nat)
    requires WellFormed(p, dom) && IsPred(p, q, b)
    ensures q < b < |p.blocks| == |dom| && Subregs(dom[b], DomOut(p, dom, q))
  {
  }

  // ----- path bits only get stronger inside a block -----

  lemma PathStep(p: Program, b: nat, k: nat, v: Valuation)
    requires EdgesOk(p) && b < |p.blocks| && k < |p.blocks[b].instrs| && AllHold(At(p, b, k + 1).bmcVec, v)
    requires Holds(PathOf(At(p, b, k + 1), b), v)
    ensures Holds(PathOf(At(p, b, k), b), v)
  {
    hide At, Holds, EdgesOk, GetInt, EncodeStore, EncodeStoreGlb;
    AtStep(p, b, k);
    var i, e := p.blocks[b].instrs[k], At(p, b, k);
    match i
    case Assume(c) => AssumePath(b, c, e, v);
    case Store(a, x, y) => StoreSamePath(b, a, x, y, e);
    case StoreGlb(g, x) => StoreGlbSamePath(b, g, x, e);
    case _ => SamePath(p, b, i, e);
  }

  lemma AssumePath(b: nat, c: BoolOperand, e: Enc, v: Valuation)
    requires AllHold(EncodeAssume(b, c, e).bmcVec, v) && Holds(PathOf(EncodeAssume(b, c, e), b), v)
    ensures Holds(PathOf(e, b), v)
  {
    var (e1, t) := GetBool(e, c);
    var bit := BoolVar(BitName(e1.nextBit));
    var link := Iff(bit, Conj([PathOf(e, b), t]));
    assert EncodeAssume(b, c, e).bmcVec[|e.bmcVec|] == link;
    assert Holds(link, v);
    ConjTwo(PathOf(e, b), t, v);
  }

  lemma StoreSamePath(b: nat, a: nat, x: IntOperand, y: IntOperand, e: Enc)
    ensures EncodeStore(b, a, x, y, e).pathBit == e.pathBit
  {
    hide GetInt;
    GetIntSame(e, x);
    GetIntSame(GetInt(e, x).0, y);
  }

  lemma StoreGlbSamePath(b: nat, g: nat, x: IntOperand, e: Enc)
    ensures EncodeStoreGlb(b, g, x, e).pathBit == e.pathBit
  {
  }

  lemma SamePath(p: Program, b: nat, i: Instr, e: Enc)
    requires EdgesOk(p) && b < |p.blocks| && !i.Assume? && !i.Store? && !i.StoreGlb?
    ensures EncodeInstr(p, b, i, e).pathBit == e.pathBit
  {
    hide EdgesOk, PhiIntCons, PhiBoolCons, MkAnd, GetInt, GetBool, EncodeStore, EncodeStoreGlb, EncodeAssume;
    match i
    case IntBin(_, _, x, y) => GetIntSame(e, x); GetIntSame(GetInt(e, x).0, y);
    case BoolBin(_, _, x, y) => GetBoolSame(e, x); GetBoolSame(GetBool(e, x).0, y);
    case Cmp(_, _, x, y) => GetIntSame(e, x); GetIntSame(GetInt(e, x).0, y);
    case AssertBool(c) => GetBoolSame(e, c);
    case AssertInt(x) => GetIntSame(e, x);
    case Load(_, _, x) => GetIntSame(e, x);
    case _ =>
  }

  lemma GetIntSame(e: Enc, o: IntOperand)
    ensures GetInt(e, o).0.pathBit == e.pathBit
  {
  }

  lemma GetBoolSame(e: Enc, o: BoolOperand)
    ensures GetBool(e, o).0.pathBit == e.pathBit
  {
  }

  lemma {:induction false} PathDown(p: Program, b: nat, j: nat, k: nat, v: Valuation)
    requires EdgesOk(p) && b < |p.blocks| && j <= k <= |p.blocks[b].instrs| && AllHold(At(p, b, k).bmcVec, v)
    requires Holds(PathOf(At(p, b, k), b), v)
    ensures Holds(PathOf(At(p, b, j), b), v)
    decreases k
  {
    hide At, EdgesOk, Holds, AllHold;
    if j < k {
      PathStep(p, b, k - 1, v);
      AtFromStart(p, b, k - 1, k);
      AllHoldPrefix(At(p, b, k - 1).bmcVec, At(p, b, k).bmcVec, v);
      PathDown(p, b, j, k - 1, v);
    }
  }

  // ----- whole runs -----

  /** Block `q` is on the run from `inp`, passed all its assumptions, and its terms are right. */
  ghost predicate OnRun(p: Program, dom: seq<Regs>, inp: Inputs, e: Enc, v: Valuation, q: nat)
    requires |p.blocks| > 0 && |dom| == |p.blocks|
  {
    exists i :: 0 <= i < |Run(p, inp)| && Run(p, inp)[i].b == q && Done(p, dom, inp, e, v, Run(p, inp)[i], true)
  }

  /** Later blocks do not disturb a finished visit. */
  lemma DoneSettles(p: Program, dom: seq<Regs>, inp: Inputs, v: Valuation, vis: Visit, on: bool, b: nat, c: nat)
    requires WellFormed(p, dom) && |dom| == |p.blocks| && vis.b < b <= c <= |p.blocks|
    requires Done(p, dom, inp, EncodeBlocks(p, b), v, vis, on)
    ensures Done(p, dom, inp, EncodeBlocks(p, c), v, vis, on)
  {
    hide EncodeBlocks, SsaOk, SuccsDistinct, EdgesOk, ExitState, DomOut, ArysMatch, GlbsMatch, Holds, IntVal, DefsBetween;
    BlocksSettle(p, b, c);
    LaterDefsDisjoint(p, dom, vis.b, c);
    DefsBetweenSplit(p, vis.b + 1, b, c);
  }

  lemma {:induction false} DefsBetweenSplit(p: Program, a: nat, b: nat, c: nat)
    requires a <= b <= c <= |p.blocks|
    ensures Subregs(DefsBetween(p, b, c), DefsBetween(p, a, c))
    decreases c
  {
    if b < c { DefsBetweenSplit(p, a, b, c - 1); }
  }

  lemma LeaveBlock(p: Program, dom: seq<Regs>, inp: Inputs, v: Valuation, vis: Visit, on: bool, e: Enc)
    requires WellFormed(p, dom) && |dom| == |p.blocks| && vis.b < |p.blocks|
    requires Match(p, vis.b, e, v, ExitState(p, inp, vis), DomOut(p, dom, vis.b), on)
    requires AllHold(EncodeTerm(p, vis.b, e).bmcVec, v)
    requires ExitsOf(e, vis.b) == FreshExits(ExitBase(p, vis.b), |Succs(p.blocks[vis.b].term)|)
    ensures Done(p, dom, inp, EncodeTerm(p, vis.b, e), v, vis, on)
  {
    hide SsaOk, EdgesOk, SuccsDistinct, EncodeTerm, AllHold, RegsMatch, Match, Continues, BitsAndMemorySame, FreshExits, ExitsRight, ExitState, DomOut;
    var b, s, d := vis.b, ExitState(p, inp, vis), DomOut(p, dom, vis.b);
    TermContinues(p, b, e);
    MatchRegs(p, b, e, v, s, d, on);
    WfTerm(p, dom, b);
    TermExits(p, b, e, v, s, d);
    MatchAfterTerm(p, b, e, EncodeTerm(p, b, e), v, s, d, on);
  }

  lemma LastStage(p: Program, b: nat)
    requires EdgesOk(p) && b < |p.blocks|
    ensures var e := At(p, b, |p.blocks[b].instrs|);
            EncodeBlocks(p, b + 1) == EncodeTerm(p, b, e) && e.bmcVec <= EncodeBlocks(p, b + 1).bmcVec
            && e.specVec <= EncodeBlocks(p, b + 1).specVec && e.assertBits <= EncodeBlocks(p, b + 1).assertBits
            && ExitsOf(e, b) == FreshExits(ExitBase(p, b), |Succs(p.blocks[b].term)|)
            && PathOf(e, b) == PathOf(EncodeBlocks(p, b + 1), b)
  {
    hide EncodeInstrs, EnterBlock, EncodeTerm, FreshExits, EdgesOk, PathsKept, MemKept, TermsKept;
    TermContinues(p, b, At(p, b, |p.blocks[b].instrs|));
    ExitsFixed(p, b + 1, b);
  }

  /** A block entered properly is left properly. */
  lemma BlockDone(p: Program, dom: seq<Regs>, m: nat, inp: Inputs, v: Valuation, vis: Visit, on: bool)
    requires WellFormed(p, dom) && |dom| == |p.blocks| && vis.b < m <= |p.blocks|
    requires InputsMatch(p, m, v, inp) && Entered(p, dom, v, vis, on) && AllHold(EncodeBlocks(p, vis.b + 1).bmcVec, v)
    ensures Done(p, dom, inp, EncodeBlocks(p, vis.b + 1), v, vis, on)
  {
    hide EncodeBlocks, At, SsaOk, EdgesOk, SuccsDistinct, InputsMatch, Entered, EncodeTerm, AllHold, Match, FreshExits, Done, StateAt, DefsUpTo;
    var b, n := vis.b, |p.blocks[vis.b].instrs|;
    LastStage(p, b);
    AllHoldPrefix(At(p, b, n).bmcVec, EncodeBlocks(p, b + 1).bmcVec, v);
    InstrsMatch(p, dom, m, v, inp, vis, on, n);
    LeaveBlock(p, dom, inp, v, vis, on, At(p, b, n));
  }

  lemma MatchAfterTerm(p: Program, b: nat, e: Enc, f: Enc, v: Valuation, s: State, d: Regs, on: bool)
    requires Match(p, b, e, v, s, d, on) && Continues(b, NONE, e, f) && BitsAndMemorySame(e, f)
    ensures Match(p, b, f, v, s, d, on)
  {
  }

  lemma NextIs(p: Program, dom: seq<Regs>, inp: Inputs, e: Enc, v: Valuation, vis: Visit, b: nat)
    requires EdgesOk(p) && SuccsDistinct(p) && |dom| == |p.blocks| && IsPred(p, vis.b, b) && vis.b < |p.blocks|
    requires Done(p, dom, inp, e, v, vis, true) && Holds(EdgeCond(p, e, vis.b, b), v)
    ensures Next(p, vis.b, ExitState(p, inp, vis)) == Some(b)
  {
    hide ExitState, DomOut, RegsMatch, ArysMatch, GlbsMatch, Holds, SuccsDistinct, EdgesOk, EdgeCond;
    EdgeGood(p, vis.b, b);
    EdgeCondParts(p, e, vis.b, b, v);
  }

  /** A block whose path bit starts out true was reached along an edge that is really taken. */
  lemma ReachedBy(p: Program, dom: seq<Regs>, m: nat, inp: Inputs, v: Valuation, b: nat) returns (i: nat)
    requires WellFormed(p, dom) && |dom| == |p.blocks| && b <= m <= |p.blocks| && b < |p.blocks|
    requires InputsMatch(p, m, v, inp) && AllHold(At(p, b, 0).bmcVec, v) && Holds(PathOf(EncodeBlocks(p, b), b), v)
    requires forall q: nat | q < b && Holds(PathOf(EncodeBlocks(p, b), q), v) :: OnRun(p, dom, inp, EncodeBlocks(p, b), v, q)
    ensures i < |Run(p, inp)| && Run(p, inp)[i].b == b && Entered(p, dom, v, Run(p, inp)[i], true)
  {
    hide EncodeBlocks, EnterBlock, SsaOk, EdgesOk, InputsMatch, Entered, Done, ExitState, Holds, SuccsDistinct, InitState, RunFrom, EdgeCond;
    if b == 0 {
      EntryEntered(p, dom, m, v, inp);
      i := 0;
    } else {
      var e := EncodeBlocks(p, b);
      var q := TrueEdge(p, b, v);
      EdgeGood(p, q, b);
      EdgeCondParts(p, e, q, b, v);
      var j :| 0 <= j < |Run(p, inp)| && Run(p, inp)[j].b == q && Done(p, dom, inp, e, v, Run(p, inp)[j], true);
      var vis := Run(p, inp)[j];
      NextIs(p, dom, inp, e, v, vis, b);
      RunNext(p, inp, j);
      EdgeEntered(p, dom, inp, v, b, vis, true);
      i := j + 1;
    }
  }

  /** The path constraint of a block other than the entry makes one incoming edge true. */
  lemma TrueEdge(p: Program, b: nat, v: Valuation) returns (q: nat)
    requires EdgesOk(p) && 0 < b < |p.blocks| && AllHold(At(p, b, 0).bmcVec, v) && Holds(PathOf(EncodeBlocks(p, b), b), v)
    ensures IsPred(p, q, b) && q < b && b in Succs(p.blocks[q].term) && Holds(EdgeCond(p, EncodeBlocks(p, b), q, b), v)
  {
    hide EncodeBlocks, JoinArrays, JoinGlobals, EdgesOk, MkOr, EdgeCond, Holds;
    HasPred(p, b);
    var e := EncodeBlocks(p, b);
    var conds := Incoming(p, e, b);
    var e1 := Emit(e, Implies(PathOf(e, b), MkOr(conds)));
    JoinArraysKeeps(p, b, conds, e1);
    JoinGlobalsKeeps(p, b, conds, JoinArrays(p, b, conds, e1));
    assert At(p, b, 0).bmcVec[|e.bmcVec|] == Implies(PathOf(e, b), MkOr(conds));
    ImpliesMeaning(PathOf(e, b), MkOr(conds), v);
    MkOrMeaning(conds, v);
    var i :| 0 <= i < |conds| && Holds(conds[i], v);
    q := p.preds[b][i];
    EdgeGood(p, q, b);
  }

  lemma ImpliesMeaning(x: BoolTerm, y: BoolTerm, v: Valuation)
    ensures Holds(Implies(x, y), v) == (Holds(x, v) ==> Holds(y, v))
  {
  }

  lemma HasPred(p: Program, b: nat)
    requires EdgesOk(p) && 0 < b < |p.blocks|
    ensures |p.preds| == |p.blocks| && |p.preds[b]| > 0
  {
  }

  /** SOUNDNESS.  Under any valuation of the constraints that reads the inputs as given, every block whose
      path bit is true is on the concrete run from these inputs, and its terms are the concrete values. */
  lemma {:induction false} BlocksSound(p: Program, dom: seq<Regs>, m: nat, inp: Inputs, v: Valuation, b: nat)
    requires WellFormed(p, dom) && |dom| == |p.blocks| && b <= m <= |p.blocks|
    requires InputsMatch(p, m, v, inp) && AllHold(EncodeBlocks(p, b).bmcVec, v)
    ensures forall q: nat | q < b && Holds(PathOf(EncodeBlocks(p, b), q), v) :: OnRun(p, dom, inp, EncodeBlocks(p, b), v, q)
  {
    hide EncodeBlocks, SsaOk, EdgesOk, InputsMatch, Entered, Done, ExitState, Holds, SuccsDistinct, Run, At, OnRun, AllHold;
    if b > 0 {
      var c := b - 1;
      StageHolds(p, c, v);
      PathsSettled(p, c, b);
      BlocksSound(p, dom, m, inp, v, c);
      forall q: nat | q < b && Holds(PathOf(EncodeBlocks(p, b), q), v)
        ensures OnRun(p, dom, inp, EncodeBlocks(p, b), v, q)
      {
        if q < c {
          OnRunSettles(p, dom, inp, v, q, c, b);
        } else {
          LastBlockSound(p, dom, m, inp, v, c);
        }
      }
    }
  }

  lemma PathsSettled(p: Program, b: nat, c: nat)
    requires EdgesOk(p) && b <= c <= |p.blocks|
    ensures forall q: nat | q < b || c <= q :: PathOf(EncodeBlocks(p, c), q) == PathOf(EncodeBlocks(p, b), q)
  {
    hide EncodeBlocks, EdgesOk, PathOf;
    BlocksSettle(p, b, c);
  }

  lemma StageOrder(p: Program, c: nat)
    requires EdgesOk(p) && c < |p.blocks|
    ensures EncodeBlocks(p, c).bmcVec <= At(p, c, 0).bmcVec <= EncodeBlocks(p, c + 1).bmcVec
    ensures At(p, c, |p.blocks[c].instrs|).bmcVec <= EncodeBlocks(p, c + 1).bmcVec
    ensures PathOf(At(p, c, 0), c) == PathOf(EncodeBlocks(p, c), c)
  {
    hide EncodeBlocks, EnterBlock, EncodeTerm, EdgesOk, FreshExits, PathsKept, MemKept, TermsKept;
    EnterContinues(p, c, EncodeBlocks(p, c));
    AtFromStart(p, c, 0, |p.blocks[c].instrs|);
    LastStage(p, c);
  }

  lemma StagePaths(p: Program, c: nat)
    requires EdgesOk(p) && c < |p.blocks|
    ensures PathOf(At(p, c, 0), c) == PathOf(EncodeBlocks(p, c), c)
    ensures PathOf(At(p, c, |p.blocks[c].instrs|), c) == PathOf(EncodeBlocks(p, c + 1), c)
  {
    hide EncodeBlocks, At, EdgesOk, EncodeTerm, FreshExits;
    StageOrder(p, c);
    LastStage(p, c);
  }

  /** Constraints are only ever added. */
  lemma StageHolds(p: Program, c: nat, v: Valuation)
    requires EdgesOk(p) && c < |p.blocks| && AllHold(EncodeBlocks(p, c + 1).bmcVec, v)
    ensures AllHold(EncodeBlocks(p, c).bmcVec, v) && AllHold(At(p, c, 0).bmcVec, v)
    ensures AllHold(At(p, c, |p.blocks[c].instrs|).bmcVec, v)
  {
    hide EncodeBlocks, At, EdgesOk, AllHold, PathOf;
    StageOrder(p, c);
    AllHoldPrefix(At(p, c, |p.blocks[c].instrs|).bmcVec, EncodeBlocks(p, c + 1).bmcVec, v);
    AllHoldPrefix(At(p, c, 0).bmcVec, EncodeBlocks(p, c + 1).bmcVec, v);
    AllHoldPrefix(EncodeBlocks(p, c).bmcVec, At(p, c, 0).bmcVec, v);
  }

  lemma OnRunSettles(p: Program, dom: seq<Regs>, inp: Inputs, v: Valuation, q: nat, b: nat, c: nat)
    requires WellFormed(p, dom) && |dom| == |p.blocks| && q < b <= c <= |p.blocks|
    requires OnRun(p, dom, inp, EncodeBlocks(p, b), v, q)
    ensures OnRun(p, dom, inp, EncodeBlocks(p, c), v, q)
  {
    hide EncodeBlocks, SsaOk, EdgesOk, Done, SuccsDistinct;
    var i :| 0 <= i < |Run(p, inp)| && Run(p, inp)[i].b == q && Done(p, dom, inp, EncodeBlocks(p, b), v, Run(p, inp)[i], true);
    DoneSettles(p, dom, inp, v, Run(p, inp)[i], true, b, c);
  }

  lemma LastBlockSound(p: Program, dom: seq<Regs>, m: nat, inp: Inputs, v: Valuation, c: nat)
    requires WellFormed(p, dom) && |dom| == |p.blocks| && c < m <= |p.blocks|
    requires InputsMatch(p, m, v, inp) && AllHold(EncodeBlocks(p, c + 1).bmcVec, v)
    requires Holds(PathOf(EncodeBlocks(p, c + 1), c), v)
    requires forall q: nat | q < c && Holds(PathOf(EncodeBlocks(p, c), q), v) :: OnRun(p, dom, inp, EncodeBlocks(p, c), v, q)
    ensures OnRun(p, dom, inp, EncodeBlocks(p, c + 1), v, c)
  {
    hide EncodeBlocks, SsaOk, EdgesOk, InputsMatch, Entered, Done, ExitState, Holds, SuccsDistinct, Run, At, AllHold;
    var n := |p.blocks[c].instrs|;
    StageHolds(p, c, v);
    StagePaths(p, c);
    PathDown(p, c, 0, n, v);
    var i := ReachedBy(p, dom, m, inp, v, c);
    BlockDone(p, dom, m, inp, v, Run(p, inp)[i], true);
  }

  // ----- specifications -----

  /** The condition an assertion checks. */
  function AssertTerm(e: Enc, i: Instr): BoolTerm {
    match i
    case AssertBool(c) => GetBool(e, c).1
    case AssertInt(x) => Compare(Ne, GetInt(e, x).1, IntLit(0))
    case _ => BoolLit(true)
  }

  lemma InstrSpecs(p: Program, b: nat, k: nat)
    requires EdgesOk(p) && b < |p.blocks| && k < |p.blocks[b].instrs|
    ensures var i := p.blocks[b].instrs[k]; var e := At(p, b, k); var e' := At(p, b, k + 1);
            if IsAssert(i)
            then && e'.specVec == e.specVec + [Disj([Not(PathOf(e, b)), AssertTerm(e, i)])]
                 && e'.assertBits == e.assertBits + [PathOf(e, b)]
            else e'.specVec == e.specVec && e'.assertBits == e.assertBits
  {
    hide EdgesOk, At, PhiIntCons, PhiBoolCons, MkAnd;
    AtStep(p, b, k);
    var i, e := p.blocks[b].instrs[k], At(p, b, k);
    if IsAssert(i) { AssertSpecs(p, b, i, e); } else { NoSpecs(p, b, i, e); }
  }

  lemma AssertSpecs(p: Program, b: nat, i: Instr, e: Enc)
    requires EdgesOk(p) && b < |p.blocks| && IsAssert(i)
    ensures EncodeInstr(p, b, i, e).specVec == e.specVec + [Disj([Not(PathOf(e, b)), AssertTerm(e, i)])]
    ensures EncodeInstr(p, b, i, e).assertBits == e.assertBits + [PathOf(e, b)]
  {
  }

  lemma NoSpecs(p: Program, b: nat, i: Instr, e: Enc)
    requires EdgesOk(p) && b < |p.blocks| && !IsAssert(i)
    ensures EncodeInstr(p, b, i, e).specVec == e.specVec && EncodeInstr(p, b, i, e).assertBits == e.assertBits
  {
    hide EdgesOk, PhiIntCons, PhiBoolCons, MkAnd, GetInt, GetBool;
    match i
    case IntBin(_, _, x, y) => GetIntVecs(e, x); GetIntVecs(GetInt(e, x).0, y);
    case BoolBin(_, _, x, y) => GetBoolVecs(e, x); GetBoolVecs(GetBool(e, x).0, y);
    case Cmp(_, _, x, y) => GetIntVecs(e, x); GetIntVecs(GetInt(e, x).0, y);
    case Load(_, _, x) => GetIntVecs(e, x);
    case Store(_, x, y) => GetIntVecs(e, x); GetIntVecs(GetInt(e, x).0, y);
    case StoreGlb(_, x) => GetIntVecs(e, x);
    case Assume(c) => GetBoolVecs(e, c);
    case _ =>
  }

  lemma GetIntVecs(e: Enc, o: IntOperand)
    ensures GetInt(e, o).0.specVec == e.specVec && GetInt(e, o).0.assertBits == e.assertBits && GetInt(e, o).0.bmcVec == e.bmcVec
  {
  }

  lemma GetBoolVecs(e: Enc, o: BoolOperand)
    ensures GetBool(e, o).0.specVec == e.specVec && GetBool(e, o).0.assertBits == e.assertBits && GetBool(e, o).0.bmcVec == e.bmcVec
  {
  }

  lemma TermSpecs(p: Program, b: nat, e: Enc)
    requires b < |p.blocks|
    ensures EncodeTerm(p, b, e).assertBits == e.assertBits
    ensures EncodeTerm(p, b, e).specVec == e.specVec + if p.blocks[b].term.Unreachable? then [Not(PathOf(e, b))] else []
  {
    hide GetInt, GetBool, MkAnd;
    match p.blocks[b].term
    case Branch(c, _, _) => GetBoolVecs(e, c);
    case Switch(x, _, _) => GetIntVecs(e, x);
    case Return(r) => if r.Some? { GetIntVecs(e, r.value); }
    case _ =>
  }

  lemma EnterSpecs(p: Program, b: nat, e: Enc)
    requires EdgesOk(p) && b < |p.blocks|
    ensures EnterBlock(p, b, e).specVec == e.specVec && EnterBlock(p, b, e).assertBits == e.assertBits
  {
    hide JoinUpTo, MkOr, MkAnd, EdgesOk;
    if b > 0 { HasPred(p, b); }
  }

  lemma AssertTermMeaning(e: Enc, i: Instr, v: Valuation, s: State, d: Regs)
    requires IsAssert(i) && UsesIn(i, d) && RegsMatch(e, v, s, d)
    ensures Holds(AssertTerm(e, i), v) ==
            match i case AssertBool(x) => ReadBool(x, s) case AssertInt(x) => ReadInt(x, s) != 0 case _ => true
  {
    hide RegsMatch, GetInt, GetBool, ReadInt, ReadBool;
    match i
    case AssertBool(x) => BoolReads(e, x, v, s, d);
    case AssertInt(x) => IntReads(e, x, v, s, d);
  }

  /** Where the path bit is true in the middle of block `b`, execution really is there in the matching state. */
  lemma MidBlock(p: Program, dom: seq<Regs>, m: nat, inp: Inputs, v: Valuation, b: nat, k: nat) returns (i: nat)
    requires WellFormed(p, dom) && |dom| == |p.blocks| && b < m <= |p.blocks| && k <= |p.blocks[b].instrs|
    requires InputsMatch(p, m, v, inp) && AllHold(At(p, b, k).bmcVec, v) && Holds(PathOf(At(p, b, k), b), v)
    ensures i < |Run(p, inp)| && Run(p, inp)[i].b == b && StateAt(p, inp, Run(p, inp)[i], k).ok
    ensures RegsMatch(At(p, b, k), v, StateAt(p, inp, Run(p, inp)[i], k), DomAt(p, dom, b, k))
  {
    hide EncodeBlocks, SsaOk, EdgesOk, InputsMatch, Entered, RegsMatch, ArysMatch, GlbsMatch, Holds, SuccsDistinct, Run, At, AllHold, StateAt, DomAt, OnRun;
    StageOrder(p, b);
    AtFromStart(p, b, 0, k);
    AllHoldPrefix(At(p, b, 0).bmcVec, At(p, b, k).bmcVec, v);
    AllHoldPrefix(EncodeBlocks(p, b).bmcVec, At(p, b, 0).bmcVec, v);
    PathDown(p, b, 0, k, v);
    BlocksSound(p, dom, m, inp, v, b);
    i := ReachedBy(p, dom, m, inp, v, b);
    InstrsMatch(p, dom, m, v, inp, Run(p, inp)[i], true, k);
  }

  lemma NotDisj(x: BoolTerm, y: BoolTerm, v: Valuation)
    ensures !Holds(Disj([Not(x), y]), v) <==> Holds(x, v) && !Holds(y, v)
  {
    var ts := [Not(x), y];
    assert ts[0] == Not(x) && ts[1] == y;
    assert Holds(ts[0], v) == !Holds(x, v);
  }

  lemma NotMeaning(x: BoolTerm, v: Valuation)
    ensures Holds(Not(x), v) == !Holds(x, v)
  {
  }

  /** A violated assertion specification is a failing execution of that assertion. */
  lemma SpecFails(p: Program, dom: seq<Regs>, m: nat, inp: Inputs, v: Valuation, b: nat, k: nat)
    requires WellFormed(p, dom) && |dom| == |p.blocks| && b < m <= |p.blocks| && k < |p.blocks[b].instrs| && IsAssert(p.blocks[b].instrs[k])
    requires InputsMatch(p, m, v, inp) && AllHold(At(p, b, k).bmcVec, v)
    requires !Holds(Disj([Not(PathOf(At(p, b, k), b)), AssertTerm(At(p, b, k), p.blocks[b].instrs[k])]), v)
    ensures Violates(p, inp)
  {
    hide SsaOk, EdgesOk, InputsMatch, RegsMatch, Holds, SuccsDistinct, Run, At, AllHold, StateAt, AssertTerm, UsesIn, DomAt;
    var e := At(p, b, k);
    var code := p.blocks[b].instrs[k];
    NotDisj(PathOf(e, b), AssertTerm(e, code), v);
    var i := MidBlock(p, dom, m, inp, v, b, k);
    WfInstr(p, dom, b, k);
    AssertTermMeaning(e, code, v, StateAt(p, inp, Run(p, inp)[i], k), DomAt(p, dom, b, k));
    assert FailsAt(p, inp, Run(p, inp)[i], k);
  }

  lemma BitArrives(p: Program, dom: seq<Regs>, m: nat, inp: Inputs, v: Valuation, b: nat, k: nat)
    requires WellFormed(p, dom) && |dom| == |p.blocks| && b < m <= |p.blocks| && k < |p.blocks[b].instrs| && IsAssert(p.blocks[b].instrs[k])
    requires InputsMatch(p, m, v, inp) && AllHold(At(p, b, k).bmcVec, v) && Holds(PathOf(At(p, b, k), b), v)
    ensures ReachesAssert(p, inp)
  {
    hide SsaOk, EdgesOk, InputsMatch, RegsMatch, Holds, SuccsDistinct, Run, At, AllHold, StateAt, DomAt;
    var i := MidBlock(p, dom, m, inp, v, b, k);
    assert AssertsAt(p, inp, Run(p, inp)[i], k);
  }

  /** A false specification means a failing run, a true assertion bit a run that arrives at an assertion. */
  ghost predicate Explained(specs: seq<BoolTerm>, bits: seq<BoolTerm>, v: Valuation, bad: bool, arrives: bool) {
    && (forall j | 0 <= j < |specs| && !Holds(specs[j], v) :: bad)
    && (forall j | 0 <= j < |bits| && Holds(bits[j], v) :: arrives)
  }

  lemma ExplainedMore(specs: seq<BoolTerm>, bits: seq<BoolTerm>, c: BoolTerm, bit: BoolTerm, v: Valuation, bad: bool, arrives: bool)
    requires Explained(specs, bits, v, bad, arrives) && (Holds(c, v) || bad)
    ensures Explained(specs + [c], bits, v, bad, arrives)
    ensures !Holds(bit, v) || arrives ==> Explained(specs + [c], bits + [bit], v, bad, arrives)
  {
    hide Holds;
  }

  lemma InstrExplained(p: Program, dom: seq<Regs>, m: nat, inp: Inputs, v: Valuation, b: nat, k: nat)
    requires WellFormed(p, dom) && |dom| == |p.blocks| && b < m <= |p.blocks| && k < |p.blocks[b].instrs|
    requires InputsMatch(p, m, v, inp) && AllHold(At(p, b, k).bmcVec, v)
    requires Explained(At(p, b, k).specVec, At(p, b, k).assertBits, v, Violates(p, inp), ReachesAssert(p, inp))
    ensures Explained(At(p, b, k + 1).specVec, At(p, b, k + 1).assertBits, v, Violates(p, inp), ReachesAssert(p, inp))
  {
    hide SsaOk, EdgesOk, InputsMatch, Holds, SuccsDistinct, At, AllHold, AssertTerm, Violates, ReachesAssert, PathOf, Explained;
    InstrSpecs(p, b, k);
    var e, i := At(p, b, k), p.blocks[b].instrs[k];
    if IsAssert(i) {
      var c := Disj([Not(PathOf(e, b)), AssertTerm(e, i)]);
      if !Holds(c, v) { SpecFails(p, dom, m, inp, v, b, k); }
      if Holds(PathOf(e, b), v) { BitArrives(p, dom, m, inp, v, b, k); }
      ExplainedMore(e.specVec, e.assertBits, c, PathOf(e, b), v, Violates(p, inp), ReachesAssert(p, inp));
    }
  }

  lemma {:induction false} InstrsSpecsSound(p: Program, dom: seq<Regs>, m: nat, inp: Inputs, v: Valuation, b: nat, k: nat)
    requires WellFormed(p, dom) && |dom| == |p.blocks| && b < m <= |p.blocks| && k <= |p.blocks[b].instrs|
    requires InputsMatch(p, m, v, inp) && AllHold(At(p, b, k).bmcVec, v)
    requires Explained(EncodeBlocks(p, b).specVec, EncodeBlocks(p, b).assertBits, v, Violates(p, inp), ReachesAssert(p, inp))
    ensures Explained(At(p, b, k).specVec, At(p, b, k).assertBits, v, Violates(p, inp), ReachesAssert(p, inp))
    decreases k
  {
    hide EncodeBlocks, SsaOk, EdgesOk, InputsMatch, Holds, SuccsDistinct, At, AllHold, Violates, ReachesAssert, Explained;
    AtZeroSpecs(p, b);
    if k > 0 {
      AtFromStart(p, b, k - 1, k);
      AllHoldPrefix(At(p, b, k - 1).bmcVec, At(p, b, k).bmcVec, v);
      InstrsSpecsSound(p, dom, m, inp, v, b, k - 1);
      InstrExplained(p, dom, m, inp, v, b, k - 1);
    }
  }

  lemma AtZeroSpecs(p: Program, b: nat)
    requires EdgesOk(p) && b < |p.blocks|
    ensures At(p, b, 0).specVec == EncodeBlocks(p, b).specVec && At(p, b, 0).assertBits == EncodeBlocks(p, b).assertBits
  {
    hide EncodeBlocks, EnterBlock, EdgesOk;
    EnterSpecs(p, b, EncodeBlocks(p, b));
  }

  lemma TermExplained(p: Program, dom: seq<Regs>, m: nat, inp: Inputs, v: Valuation, b: nat)
    requires WellFormed(p, dom) && |dom| == |p.blocks| && b < m <= |p.blocks|
    requires InputsMatch(p, m, v, inp) && AllHold(At(p, b, |p.blocks[b].instrs|).bmcVec, v)
    requires Explained(At(p, b, |p.blocks[b].instrs|).specVec, At(p, b, |p.blocks[b].instrs|).assertBits, v, Violates(p, inp), ReachesAssert(p, inp))
    ensures Explained(EncodeBlocks(p, b + 1).specVec, EncodeBlocks(p, b + 1).assertBits, v, Violates(p, inp), ReachesAssert(p, inp))
  {
    hide EncodeBlocks, SsaOk, EdgesOk, InputsMatch, Holds, SuccsDistinct, Run, At, AllHold, Violates, ReachesAssert, EncodeTerm, FreshExits, Explained, PathOf, DomAt;
    var e := At(p, b, |p.blocks[b].instrs|);
    LastStage(p, b);
    TermSpecs(p, b, e);
    if p.blocks[b].term.Unreachable? {
      NotMeaning(PathOf(e, b), v);
      if Holds(PathOf(e, b), v) {
        var i := MidBlock(p, dom, m, inp, v, b, |p.blocks[b].instrs|);
        UnreachableFails(p, inp, b, i);
      }
      ExplainedMore(e.specVec, e.assertBits, Not(PathOf(e, b)), PathOf(e, b), v, Violates(p, inp), ReachesAssert(p, inp));
    } else {
      assert e.specVec + [] == e.specVec;
    }
  }

  /** Every specification of the encoding that is false under the valuation is a real failure. */
  lemma {:induction false} SpecsSound(p: Program, dom: seq<Regs>, m: nat, inp: Inputs, v: Valuation, b: nat)
    requires WellFormed(p, dom) && |dom| == |p.blocks| && b <= m <= |p.blocks|
    requires InputsMatch(p, m, v, inp) && AllHold(EncodeBlocks(p, b).bmcVec, v)
    ensures Explained(EncodeBlocks(p, b).specVec, EncodeBlocks(p, b).assertBits, v, Violates(p, inp), ReachesAssert(p, inp))
  {
    hide EncodeBlocks, SsaOk, EdgesOk, InputsMatch, SuccsDistinct, Run, At, AllHold, Violates, ReachesAssert, EncodeTerm, FreshExits;
    PrepareSpecs(p);
    if b > 0 {
      var c, n := b - 1, |p.blocks[b - 1].instrs|;
      StageHolds(p, c, v);
      SpecsSound(p, dom, m, inp, v, c);
      InstrsSpecsSound(p, dom, m, inp, v, c, n);
      TermExplained(p, dom, m, inp, v, c);
    }
  }

  lemma UnreachableFails(p: Program, inp: Inputs, b: nat, i: nat)
    requires |p.blocks| > 0 && b < |p.blocks| && p.blocks[b].term.Unreachable?
    requires i < |Run(p, inp)| && Run(p, inp)[i].b == b && StateAt(p, inp, Run(p, inp)[i], |p.blocks[b].instrs|).ok
    ensures Violates(p, inp)
  {
    hide Run, StateAt;
    assert FailsAt(p, inp, Run(p, inp)[i], |p.blocks[b].instrs|);
  }

  lemma PrepareSpecs(p: Program)
    ensures Prepare(p).specVec == [] && Prepare(p).assertBits == []
    ensures EdgesOk(p) ==> EncodeBlocks(p, 0).specVec == [] && EncodeBlocks(p, 0).assertBits == []
  {
    ParamsSpecs(InitMemory(p, EMPTY), p.intParams, |p.intParams|);
    ParamsSpecs(ParamsInt(InitMemory(p, EMPTY), p.intParams, |p.intParams|), p.boolParams, |p.boolParams|);
    InitSpecs(p, |p.blocks|, InitParams(p, InitMemory(p, EMPTY)));
  }

  lemma ParamsSpecs(e: Enc, ps: seq<nat>, k: nat)
    requires k <= |ps|
    ensures ParamsInt(e, ps, k).specVec == e.specVec && ParamsBool(e, ps, k).specVec == e.specVec
    ensures ParamsInt(e, ps, k).assertBits == e.assertBits && ParamsBool(e, ps, k).assertBits == e.assertBits
    ensures ParamsInt(e, ps, k).bmcVec == e.bmcVec && ParamsBool(e, ps, k).bmcVec == e.bmcVec
  {
  }

  lemma InitSpecs(p: Program, b: nat, e: Enc)
    requires b <= |p.blocks|
    ensures InitBits(p, b, e).specVec == e.specVec && InitBits(p, b, e).assertBits == e.assertBits
  {
    hide MkOr, FreshExits;
  }
}
