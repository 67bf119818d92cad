/** The encoding is exact: it is satisfiable for some inputs exactly when these inputs make the program fail. */
module EncoderExact {
  import opened Terms
  import opened Ir
  import opened EncoderSpec
  import opened EncoderFrame
  import opened EncoderMatch
  import opened EncoderKnown
  import opened EncoderSound
  import opened EncoderFits
  import opened EncoderComplete
  import opened EncoderStages

  // ----- runs visit each block at most once -----

  lemma {:induction false} RunFromRises(p: Program, inp: Inputs, v: Visit, i: nat, j: nat)
    requires v.b < |p.blocks| && i < j < |RunFrom(p, inp, v)|
    ensures RunFrom(p, inp, v)[i].b < RunFrom(p, inp, v)[j].b
    decreases |p.blocks| - v.b
  {
    hide ExitState;
    var s := ExitState(p, inp, v);
    match Next(p, v.b, s)
    case None =>
    case Some(c) => if i > 0 { RunFromRises(p, inp, Visit(c, v.b, s), i - 1, j - 1); }
  }

  lemma RunOnce(p: Program, inp: Inputs, i: nat, j: nat)
    requires |p.blocks| > 0 && i < |Run(p, inp)| && j < |Run(p, inp)| && Run(p, inp)[i].b == Run(p, inp)[j].b
    ensures i == j
  {
    var v := Visit(0, 0, InitState(p, inp));
    if i < j { RunFromRises(p, inp, v, i, j); }
    if j < i { RunFromRises(p, inp, v, j, i); }
  }

  ghost predicate Visits(p: Program, inp: Inputs, c: nat)
    requires |p.blocks| > 0
  {
    exists i :: 0 <= i < |Run(p, inp)| && Run(p, inp)[i].b == c
  }

  /** The initial path bits say which blocks the run visits. */
  ghost predicate PathsChosen(p: Program, inp: Inputs, v: Valuation)
    requires EdgesOk(p)
  {
    forall c: nat | c < |p.blocks| :: Holds(PathOf(Prepare(p), c), v) == Visits(p, inp, c)
  }

  lemma PathChosen(p: Program, inp: Inputs, v: Valuation, b: nat)
    requires EdgesOk(p) && b < |p.blocks| && PathsChosen(p, inp, v)
    ensures Holds(PathOf(EncodeBlocks(p, b), b), v) == Visits(p, inp, b)
  {
    hide EncodeBlock, EdgesOk, Prepare, Holds, Visits, PathOf;
    PathsSettled(p, 0, b);
    assert EncodeBlocks(p, 0) == Prepare(p);
  }

  /** The visit before the one of block `b`. */
  lemma CameFrom(p: Program, inp: Inputs, i: nat)
    requires |p.blocks| > 0 && 0 < i < |Run(p, inp)|
    ensures var q := Run(p, inp)[i - 1]; var s := ExitState(p, inp, q);
            Next(p, q.b, s) == Some(Run(p, inp)[i].b) && Run(p, inp)[i] == Visit(Run(p, inp)[i].b, q.b, s)
            && q.b < Run(p, inp)[i].b
  {
    hide ExitState, Run;
    RunNext(p, inp, i - 1);
  }

  lemma NextIsPred(p: Program, q: nat, s: State, b: nat)
    requires EdgesOk(p) && q < |p.blocks| && Next(p, q, s) == Some(b)
    ensures IsPred(p, q, b) && b in Succs(p.blocks[q].term) && Succs(p.blocks[q].term)[Taken(p.blocks[q].term, s)] == b && s.ok
  {
  }

  /** If control really goes from a finished visit to `b`, that edge's condition is true. */
  lemma EdgeTaken(p: Program, dom: seq<Regs>, inp: Inputs, e: Enc, v: Valuation, vis: Visit, b: nat)
    requires EdgesOk(p) && SuccsDistinct(p) && |dom| == |p.blocks| && vis.b < |p.blocks|
    requires Done(p, dom, inp, e, v, vis, true) && Next(p, vis.b, ExitState(p, inp, vis)) == Some(b)
    ensures IsPred(p, vis.b, b) && b in Succs(p.blocks[vis.b].term) && Holds(EdgeCond(p, e, vis.b, b), v)
  {
    hide ExitState, DomOut, RegsMatch, ArysMatch, GlbsMatch, Holds, EdgesOk, EdgeCond, Taken, SuccsDistinct;
    var s, t := ExitState(p, inp, vis), p.blocks[vis.b].term;
    NextIsPred(p, vis.b, s, b);
    EdgeCondParts(p, e, vis.b, b, v);
    TakenIsFirst(p, vis.b, s, b);
  }

  lemma SuccsApart(p: Program, q: nat, i: nat, j: nat)
    requires q < |p.blocks| && SuccsDistinct(p) && i < |Succs(p.blocks[q].term)| && j < |Succs(p.blocks[q].term)|
    requires Succs(p.blocks[q].term)[i] == Succs(p.blocks[q].term)[j]
    ensures i == j
  {
  }

  lemma TakenIsFirst(p: Program, q: nat, s: State, b: nat)
    requires q < |p.blocks| && SuccsDistinct(p) && |Succs(p.blocks[q].term)| > 0
    requires Succs(p.blocks[q].term)[Taken(p.blocks[q].term, s)] == b
    ensures SuccIndex(Succs(p.blocks[q].term), b) == Taken(p.blocks[q].term, s)
  {
    hide Taken;
    SuccsApart(p, q, SuccIndex(Succs(p.blocks[q].term), b), Taken(p.blocks[q].term, s));
  }

  /** Every visit to the first `b` blocks is described by the terms. */
  ghost predicate VisitsDone(p: Program, dom: seq<Regs>, inp: Inputs, b: nat, v: Valuation)
    requires EdgesOk(p) && b <= |p.blocks| == |dom|
  {
    forall i | 0 <= i < |Run(p, inp)| && Run(p, inp)[i].b < b :: Done(p, dom, inp, EncodeBlocks(p, b), v, Run(p, inp)[i], true)
  }

  lemma {:induction false} RunsDone(p: Program, dom: seq<Regs>, m: nat, inp: Inputs, v: Valuation, b: nat)
    requires WellFormed(p, dom) && b <= m <= |p.blocks| == |dom|
    requires InputsMatch(p, m, v, inp) && AllHold(EncodeBlocks(p, b).bmcVec, v) && PathsChosen(p, inp, v)
    ensures VisitsDone(p, dom, inp, b, v)
  {
    hide EncodeBlocks, EdgesOk, SsaOk, SuccsDistinct, InputsMatch, AllHold, PathsChosen, Done, Run, At;
    if b > 0 {
      var c := b - 1;
      StageHolds(p, c, v);
      RunsDone(p, dom, m, inp, v, c);
      forall i | 0 <= i < |Run(p, inp)| && Run(p, inp)[i].b < b
        ensures Done(p, dom, inp, EncodeBlocks(p, b), v, Run(p, inp)[i], true)
      {
        if Run(p, inp)[i].b < c {
          DoneSettles(p, dom, inp, v, Run(p, inp)[i], true, c, b);
        } else {
          VisitEntered(p, dom, m, inp, v, i);
          BlockDone(p, dom, m, inp, v, Run(p, inp)[i], true);
        }
      }
    }
  }

  lemma VisitEntered(p: Program, dom: seq<Regs>, m: nat, inp: Inputs, v: Valuation, i: nat)
    requires WellFormed(p, dom) && m <= |p.blocks| == |dom| && i < |Run(p, inp)| && Run(p, inp)[i].b < m
    requires InputsMatch(p, m, v, inp) && AllHold(At(p, Run(p, inp)[i].b, 0).bmcVec, v) && PathsChosen(p, inp, v)
    requires VisitsDone(p, dom, inp, Run(p, inp)[i].b, v)
    ensures Entered(p, dom, v, Run(p, inp)[i], true)
  {
    hide EncodeBlocks, EdgesOk, SsaOk, SuccsDistinct, InputsMatch, AllHold, PathsChosen, Done, At, Entered, ExitState, Holds, RunFrom, EdgeCond, InitState;
    if i == 0 {
      EntryEntered(p, dom, m, v, inp);
    } else {
      var vis, b := Run(p, inp)[i - 1], Run(p, inp)[i].b;
      CameFrom(p, inp, i);
      EdgeTaken(p, dom, inp, EncodeBlocks(p, b), v, vis, b);
      PathChosen(p, inp, v, b);
      assert Visits(p, inp, b);
      EdgeEntered(p, dom, inp, v, b, vis, true);
    }
  }

  lemma SamePred(p: Program, dom: seq<Regs>, inp: Inputs, e: Enc, v: Valuation, q: nat, r: nat, b: nat)
    requires EdgesOk(p) && SuccsDistinct(p) && |dom| == |p.blocks| && IsPred(p, q, b) && IsPred(p, r, b)
    requires q < |p.blocks| && b in Succs(p.blocks[q].term) && r < |p.blocks| && b in Succs(p.blocks[r].term)
    requires Holds(EdgeCond(p, e, q, b), v) && (Holds(PathOf(e, q), v) ==> OnRun(p, dom, inp, e, v, q))
    requires Holds(EdgeCond(p, e, r, b), v) && (Holds(PathOf(e, r), v) ==> OnRun(p, dom, inp, e, v, r))
    ensures q == r
  {
    hide EdgesOk, SuccsDistinct, OnRun, Run, Holds, EdgeCond, PathOf;
    var i := LeadsTo(p, dom, inp, e, v, q, b);
    var j := LeadsTo(p, dom, inp, e, v, r, b);
    RunOnce(p, inp, i + 1, j + 1);
  }

  /** Two incoming edges cannot both be true: the run passes one predecessor only. */
  lemma OnlyOneEdge(p: Program, dom: seq<Regs>, inp: Inputs, v: Valuation, b: nat)
    requires WellFormed(p, dom) && b < |p.blocks| == |dom|
    requires InputsMatch(p, b, v, inp) && AllHold(EncodeBlocks(p, b).bmcVec, v)
    ensures OneEdge(p, EncodeBlocks(p, b), b, v)
  {
    hide EncodeBlocks, EdgesOk, SsaOk, SuccsDistinct, InputsMatch, AllHold, Holds, EdgeCond, OnRun, Run, PathOf, IsPred;
    var e := EncodeBlocks(p, b);
    BlocksSound(p, dom, b, inp, v, b);
    EdgesGood(p, b);
    forall q: nat, r: nat | IsPred(p, q, b) && IsPred(p, r, b) && Holds(EdgeCond(p, e, q, b), v) && Holds(EdgeCond(p, e, r, b), v)
      ensures q == r
    {
      SamePred(p, dom, inp, e, v, q, r, b);
    }
  }

  /** A block with a true edge to `b` is on the run, followed by `b`. */
  lemma LeadsTo(p: Program, dom: seq<Regs>, inp: Inputs, e: Enc, v: Valuation, q: nat, b: nat) returns (i: nat)
    requires EdgesOk(p) && SuccsDistinct(p) && |dom| == |p.blocks| && IsPred(p, q, b) && q < |p.blocks| && b in Succs(p.blocks[q].term)
    requires Holds(EdgeCond(p, e, q, b), v) && (Holds(PathOf(e, q), v) ==> OnRun(p, dom, inp, e, v, q))
    ensures i + 1 < |Run(p, inp)| && Run(p, inp)[i].b == q && Run(p, inp)[i + 1].b == b
  {
    hide EdgesOk, SuccsDistinct, Done, Run, Holds, EdgeCond, ExitState, PathOf, Succs, Next, IsPred;
    EdgeCondParts(p, e, q, b, v);
    var j :| 0 <= j < |Run(p, inp)| && Run(p, inp)[j].b == q && Done(p, dom, inp, e, v, Run(p, inp)[j], true);
    NextIs(p, dom, inp, e, v, Run(p, inp)[j], b);
    RunNext(p, inp, j);
    i := j;
  }

  /** A visited block has a true incoming edge. */
  lemma PathIsMet(p: Program, dom: seq<Regs>, inp: Inputs, v: Valuation, b: nat)
    requires WellFormed(p, dom) && 0 < b < |p.blocks| == |dom|
    requires PathsChosen(p, inp, v) && VisitsDone(p, dom, inp, b, v)
    ensures PathMet(p, b, EncodeBlocks(p, b), v)
  {
    hide EncodeBlocks, EdgesOk, SsaOk, SuccsDistinct, Done, RunFrom, Holds, EdgeCond, PathsChosen, ExitState, InitState;
    var e := EncodeBlocks(p, b);
    EdgesGood(p, b);
    PathChosen(p, inp, v, b);
    if Holds(PathOf(e, b), v) {
      var i :| 0 <= i < |Run(p, inp)| && Run(p, inp)[i].b == b;
      CameFrom(p, inp, i);
      EdgeTaken(p, dom, inp, e, v, Run(p, inp)[i - 1], b);
    }
  }

  // ----- extending a valuation through one block -----

  /** A nondet call defines a register the term map does not know. */
  lemma NondetFresh(p: Program, dom: seq<Regs>, b: nat, k: nat)
    requires WellFormed(p, dom) && b < |p.blocks| && k < |p.blocks[b].instrs|
    ensures var i := p.blocks[b].instrs[k]; var e := At(p, b, k); var f := At(p, b, k + 1);
            && (i.NondetInt? ==> i.dst !in e.intTerms && i.dst in f.intTerms && f.intTerms[i.dst] == IntVar(e.nextInt) && f.nextInt == e.nextInt + 1)
            && (i.NondetBool? ==> i.dst in f.boolTerms && f.boolTerms[i.dst] == BoolVar(BitName(e.nextBit)) && f.nextBit == e.nextBit + 1)
  {
    hide At, SsaOk, SuccsDistinct, EdgesOk, AllDefs;
    AtStep(p, b, k);
    AtKnows(p, dom, b, k);
    WfSingleDef(p, dom, b, k);
    EarlierDefsDisjoint(p, dom, b, b);
    DefsUpToHas(p.blocks[b].instrs, k, |p.blocks[b].instrs|);
  }

  /** The first `k` instructions' nondet results have the inputs' values. */
  ghost predicate NondetsOk(p: Program, b: nat, k: nat, v: Valuation, inp: Inputs)
    requires EdgesOk(p) && b < |p.blocks| && k <= |p.blocks[b].instrs|
  {
    forall j: nat | j < k :: NondetOk(p, b, j, v, inp)
  }

  ghost predicate NondetOk(p: Program, b: nat, j: nat, v: Valuation, inp: Inputs)
    requires EdgesOk(p) && b < |p.blocks| && j < |p.blocks[b].instrs|
  {
    var i, e := p.blocks[b].instrs[j], At(p, b, j);
    && (i.NondetInt? ==> v.ints(e.nextInt) == inp.ints(i.dst))
    && (i.NondetBool? ==> v.bools(BitName(e.nextBit)) == inp.bools(i.dst))
  }

  lemma NondetStays(p: Program, dom: seq<Regs>, b: nat, j: nat, k: nat, v: Valuation, w: Valuation, inp: Inputs)
    requires WellFormed(p, dom) && b < |p.blocks| && j < k <= |p.blocks[b].instrs|
    requires NondetOk(p, b, j, v, inp) && Agree(v, w, Bound(p, b, At(p, b, k)))
    ensures NondetOk(p, b, j, w, inp)
  {
    hide At, SsaOk, SuccsDistinct, EdgesOk, ExitBase;
    NondetFresh(p, dom, b, j);
    AtCounters(p, b, j + 1, k);
  }

  lemma NondetsStay(p: Program, dom: seq<Regs>, b: nat, k: nat, v: Valuation, w: Valuation, inp: Inputs)
    requires WellFormed(p, dom) && b < |p.blocks| && k <= |p.blocks[b].instrs|
    requires NondetsOk(p, b, k, v, inp) && Agree(v, w, Bound(p, b, At(p, b, k)))
    ensures NondetsOk(p, b, k, w, inp)
  {
    hide At, SsaOk, SuccsDistinct, EdgesOk, NondetOk, Agree;
    forall j: nat | j < k ensures NondetOk(p, b, j, w, inp) {
      NondetStays(p, dom, b, j, k, v, w, inp);
    }
  }

  lemma PhiIsApart(p: Program, dom: seq<Regs>, b: nat, k: nat)
    requires WellFormed(p, dom) && b < |p.blocks| && k < |p.blocks[b].instrs|
    ensures PhiApart(p.blocks[b].instrs[k])
  {
    hide SsaOk, SuccsDistinct, EdgesOk, DomOut;
    WfInstr(p, dom, b, k);
    DefsUpToHas(p.blocks[b].instrs, k, |p.blocks[b].instrs|);
    EdgesGood(p, b);
    var i := p.blocks[b].instrs[k];
    if i.PhiInt? {
      forall j | 0 <= j < |i.ins| ensures i.ins[j].1 != IReg(i.dst) { OutDisjoint(p, dom, i.ins[j].0, b); }
    }
    if i.PhiBool? {
      forall j | 0 <= j < |i.bins| ensures i.bins[j].1 != BReg(i.dst) { OutDisjoint(p, dom, i.bins[j].0, b); }
    }
  }

  /** One instruction, in its block. */
  lemma StepExtend(p: Program, dom: seq<Regs>, inp: Inputs, b: nat, k: nat, v: Valuation) returns (w: Valuation)
    requires WellFormed(p, dom) && b < |p.blocks| == |dom| && k < |p.blocks[b].instrs| && StageOk(p, b, EncodeBlocks(p, b))
    requires AllHold(At(p, b, k).bmcVec, v) && OneEdge(p, At(p, b, k), b, v)
    ensures Extends(p, b, At(p, b, k), v, w) && AllHold(At(p, b, k + 1).bmcVec, w) && NondetOk(p, b, k, w, inp)
  {
    hide EncodeBlocks, At, SsaOk, SuccsDistinct, EdgesOk, Fits, Mem, StageOk, Knows, AllHold, OneEdge, Extends, UsesIn, PhiOk, IndexOk, PhiApart, AllDefs, EncodeInstr, DefsUpTo;
    AtFits(p, dom, b, k);
    AtKnows(p, dom, b, k);
    UsesKnown(p, dom, b, k);
    WfInstr(p, dom, b, k);
    PhiIsApart(p, dom, b, k);
    OrsWithin(p, |p.blocks|);
    AtStep(p, b, k);
    w := InstrExtend(p, dom, b, Ors(p, |p.blocks|), p.blocks[b].instrs[k], At(p, b, k), Join(AllDefs(p, b), DefsUpTo(p.blocks[b].instrs, k)), v, inp);
  }

  lemma StillOneEdge(p: Program, dom: seq<Regs>, b: nat, k: nat, v: Valuation, w: Valuation)
    requires WellFormed(p, dom) && b < |p.blocks| && k <= |p.blocks[b].instrs| && StageOk(p, b, EncodeBlocks(p, b))
    requires OneEdge(p, At(p, b, 0), b, v) && Extends(p, b, At(p, b, 0), v, w)
    ensures OneEdge(p, At(p, b, k), b, w)
  {
    hide EncodeBlocks, At, SsaOk, SuccsDistinct, EdgesOk, Fits, Mem, StageOk, OneEdge, Extends, Continues, DefsUpTo;
    AtFits(p, dom, b, 0);
    AtFromStart(p, b, 0, k);
    InstrsContinue(p, b, k, At(p, b, 0));
    OneEdgeStill(p, Ors(p, |p.blocks|), At(p, b, 0), At(p, b, k), DefsUpTo(p.blocks[b].instrs, k), b, v, w);
  }

  /** All instructions of a block. */
  lemma {:induction false} InstrsExtend(p: Program, dom: seq<Regs>, inp: Inputs, b: nat, k: nat, v: Valuation) returns (w: Valuation)
    requires WellFormed(p, dom) && b < |p.blocks| == |dom| && k <= |p.blocks[b].instrs| && StageOk(p, b, EncodeBlocks(p, b))
    requires AllHold(At(p, b, 0).bmcVec, v) && OneEdge(p, At(p, b, 0), b, v)
    ensures Extends(p, b, At(p, b, 0), v, w) && AllHold(At(p, b, k).bmcVec, w) && NondetsOk(p, b, k, w, inp)
  {
    hide EncodeBlocks, At, SsaOk, SuccsDistinct, EdgesOk, StageOk, AllHold, OneEdge, NondetOk, Bound, Agree;
    if k == 0 {
      w := v;
      SameExtends(p, b, At(p, b, 0), v);
    } else {
      var u := InstrsExtend(p, dom, inp, b, k - 1, v);
      StillOneEdge(p, dom, b, k - 1, v, u);
      w := StepExtend(p, dom, inp, b, k - 1, u);
      AtCounters(p, b, 0, k - 1);
      ExtendsTrans(p, b, At(p, b, 0), At(p, b, k - 1), v, u, w);
      NondetsStay(p, dom, b, k - 1, u, w, inp);
    }
  }

  /** Everything a run means for the first `b` blocks, as one valuation. */
  ghost predicate Witness(p: Program, b: nat, inp: Inputs, v: Valuation)
    requires EdgesOk(p) && b <= |p.blocks|
  {
    AllHold(EncodeBlocks(p, b).bmcVec, v) && InputsMatch(p, b, v, inp) && PathsChosen(p, inp, v)
  }

  /** Entering a block. */
  lemma EnterStep(p: Program, dom: seq<Regs>, inp: Inputs, b: nat, v: Valuation) returns (w: Valuation)
    requires WellFormed(p, dom) && b < |p.blocks| == |dom| && StageOk(p, b, EncodeBlocks(p, b)) && Witness(p, b, inp, v)
    ensures Extends(p, b, EncodeBlocks(p, b), v, w) && AllHold(At(p, b, 0).bmcVec, w) && OneEdge(p, At(p, b, 0), b, w)
  {
    hide EncodeBlocks, EnterBlock, SsaOk, SuccsDistinct, EdgesOk, Fits, Mem, AllHold, OneEdge, Extends, InputsMatch, PathsChosen, PathMet, Continues, VisitsDone;
    var e := EncodeBlocks(p, b);
    OrsWithin(p, |p.blocks|);
    OnlyOneEdge(p, dom, inp, v, b);
    if b == 0 {
      w := v;
      SameExtends(p, 0, e, v);
      EntryHolds(p, v);
    } else {
      RunsDone(p, dom, b, inp, v, b);
      PathIsMet(p, dom, inp, v, b);
      w := EnterExtend(p, b, Ors(p, |p.blocks|), e, v);
    }
    EnterContinues(p, b, e);
    OneEdgeStill(p, Ors(p, |p.blocks|), e, At(p, b, 0), NONE, b, v, w);
  }

  lemma EntryHolds(p: Program, v: Valuation)
    requires EdgesOk(p) && |p.blocks| > 0 && AllHold(EncodeBlocks(p, 0).bmcVec, v)
    ensures AllHold(At(p, 0, 0).bmcVec, v)
  {
    hide EdgesOk, Prepare;
    PreparePath(p);
    EmitHolds(Prepare(p), PathOf(Prepare(p), 0), v);
  }

  /** Leaving a block. */
  lemma LeaveStep(p: Program, dom: seq<Regs>, b: nat, v: Valuation) returns (w: Valuation)
    requires WellFormed(p, dom) && b < |p.blocks| == |dom| && StageOk(p, b, EncodeBlocks(p, b))
    requires AllHold(At(p, b, |p.blocks[b].instrs|).bmcVec, v)
    ensures Agree(v, w, Bound(p, b, At(p, b, |p.blocks[b].instrs|))) && AllHold(EncodeBlocks(p, b + 1).bmcVec, w)
  {
    hide EncodeBlocks, At, SsaOk, SuccsDistinct, EdgesOk, StageOk, Fits, Mem, AllHold, Agree, Knows, TermUsesIn, AllDefs, DefsUpTo, FreshExits, EncodeTerm, PathOf;
    var n := |p.blocks[b].instrs|;
    AtFits(p, dom, b, n);
    TermUsesKnown(p, dom, b);
    LastStage(p, b);
    w := TermExtend(p, b, At(p, b, n), Join(AllDefs(p, b), Defs(p, b)), v);
  }

  /** A whole block: old names keep their meaning, new nondet results get the inputs' values. */
  lemma BlockExtend(p: Program, dom: seq<Regs>, inp: Inputs, b: nat, v: Valuation) returns (w: Valuation)
    requires WellFormed(p, dom) && b < |p.blocks| == |dom| && Witness(p, b, inp, v)
    ensures Agree(v, w, Bound(p, b, EncodeBlocks(p, b))) && AllHold(EncodeBlocks(p, b + 1).bmcVec, w)
    ensures NondetsOk(p, b, |p.blocks[b].instrs|, w, inp)
  {
    hide EncodeBlocks, At, SsaOk, SuccsDistinct, EdgesOk, StageOk, AllHold, OneEdge, Bound, Agree, NondetsOk, Witness;
    var n := |p.blocks[b].instrs|;
    StagesFit(p, dom, b);
    var v0 := EnterStep(p, dom, inp, b, v);
    var v1 := InstrsExtend(p, dom, inp, b, n, v0);
    w := LeaveStep(p, dom, b, v1);
    NondetsStay(p, dom, b, n, v1, w, inp);
    StartRises(p, b);
    AtCounters(p, b, 0, n);
    AgreeTrans(v, v0, v1, Bound(p, b, EncodeBlocks(p, b)), Bound(p, b, At(p, b, 0)));
    BoundsTrans(Bound(p, b, EncodeBlocks(p, b)), Bound(p, b, At(p, b, 0)), Bound(p, b, At(p, b, n)));
    AgreeTrans(v, v1, w, Bound(p, b, EncodeBlocks(p, b)), Bound(p, b, At(p, b, n)));
  }

  lemma BoundsTrans(x: Lim, y: Lim, z: Lim)
    requires LimLe(x, y) && LimLe(y, z)
    ensures LimLe(x, z)
  {
  }

  lemma StartRises(p: Program, b: nat)
    requires EdgesOk(p) && b < |p.blocks| && StageOk(p, b, EncodeBlocks(p, b))
    ensures LimLe(Bound(p, b, EncodeBlocks(p, b)), Bound(p, b, At(p, b, 0)))
  {
    hide EncodeBlocks, At, EdgesOk, Fits, Mem, Bound, LimLe;
    StartFits(p, b);
  }

  /** Counters only grow from block to block. */
  lemma {:induction false} BoundsRise(p: Program, dom: seq<Regs>, b: nat)
    requires WellFormed(p, dom) && b <= |p.blocks|
    ensures LimLe(Bound(p, 0, EncodeBlocks(p, 0)), Bound(p, b, EncodeBlocks(p, b)))
  {
    hide EncodeBlocks, At, SsaOk, SuccsDistinct, EdgesOk, StageOk, EncodeTerm, FreshExits, PathOf;
    if b > 0 {
      var c, n := b - 1, |p.blocks[b - 1].instrs|;
      BoundsRise(p, dom, c);
      StagesFit(p, dom, c);
      StartRises(p, c);
      AtCounters(p, c, 0, n);
      LastStage(p, c);
      TermCounters(p, c, At(p, c, n));
      ExitBaseMono(p, c, b);
    }
  }

  // ----- the inputs are still read as given -----

  /** A register with a nondet definition in block `b` gets the input's value. */
  lemma NewIntInput(p: Program, dom: seq<Regs>, inp: Inputs, b: nat, w: Valuation, r: nat)
    requires WellFormed(p, dom) && b < |p.blocks| && r in Defs(p, b).ints && IsIntInput(p, r)
    requires NondetsOk(p, b, |p.blocks[b].instrs|, w, inp)
    ensures r in EncodeBlocks(p, b + 1).intTerms ==> IntVal(EncodeBlocks(p, b + 1).intTerms[r], w) == inp.ints(r)
  {
    hide EncodeBlocks, At, SsaOk, SuccsDistinct, EdgesOk, DefsUpTo;
    ParamsVsDefs(p, dom, b);
    var c, k :| 0 <= c < |p.blocks| && 0 <= k < |p.blocks[c].instrs| && p.blocks[c].instrs[k] == NondetInt(r);
    DefsUpToHas(p.blocks[c].instrs, k, |p.blocks[c].instrs|);
    OneDefinition(p, dom, b, c);
    DefIsFinal(p, dom, b + 1, b, k);
    NondetFresh(p, dom, b, k);
    assert NondetOk(p, b, k, w, inp);
  }

  lemma OneDefinition(p: Program, dom: seq<Regs>, b: nat, c: nat)
    requires WellFormed(p, dom) && b < |p.blocks| && c < |p.blocks|
    ensures b != c ==> Disjoint(Defs(p, b), Defs(p, c))
  {
  }

  lemma NewBoolInput(p: Program, dom: seq<Regs>, inp: Inputs, b: nat, w: Valuation, r: nat)
    requires WellFormed(p, dom) && b < |p.blocks| && r in Defs(p, b).bools && IsBoolInput(p, r)
    requires NondetsOk(p, b, |p.blocks[b].instrs|, w, inp)
    ensures r in EncodeBlocks(p, b + 1).boolTerms ==> Holds(EncodeBlocks(p, b + 1).boolTerms[r], w) == inp.bools(r)
  {
    hide EncodeBlocks, At, SsaOk, SuccsDistinct, EdgesOk, DefsUpTo;
    ParamsVsDefs(p, dom, b);
    var c, k :| 0 <= c < |p.blocks| && 0 <= k < |p.blocks[c].instrs| && p.blocks[c].instrs[k] == NondetBool(r);
    DefsUpToHas(p.blocks[c].instrs, k, |p.blocks[c].instrs|);
    OneDefinition(p, dom, b, c);
    DefIsFinal(p, dom, b + 1, b, k);
    NondetFresh(p, dom, b, k);
    BitMeaning(At(p, b, k).nextBit, w);
    assert NondetOk(p, b, k, w, inp);
  }

  /** Registers the next block does not define keep their term. */
  lemma OldTerm(p: Program, dom: seq<Regs>, b: nat)
    requires WellFormed(p, dom) && b < |p.blocks|
    ensures var e := EncodeBlocks(p, b); var f := EncodeBlocks(p, b + 1);
            && (forall r | r in f.intTerms && r !in Defs(p, b).ints :: r in e.intTerms && f.intTerms[r] == e.intTerms[r])
            && (forall r | r in f.boolTerms && r !in Defs(p, b).bools :: r in e.boolTerms && f.boolTerms[r] == e.boolTerms[r])
  {
    hide EncodeBlocks, SsaOk, SuccsDistinct, EdgesOk, DefsUpTo, AllDefs, VecsGrow, PathsKept, MemKept;
    BlocksKnow(p, dom, b);
    BlocksKnow(p, dom, b + 1);
    AllDefsStep(p, b);
    OneMore(p, b + 1);
  }

  lemma OldTermsFrame(p: Program, b: nat, e: Enc, v: Valuation, w: Valuation)
    requires b <= |p.blocks| && StageOk(p, b, e) && Agree(v, w, Bound(p, b, e))
    ensures forall r | r in e.intTerms :: IntVal(e.intTerms[r], w) == IntVal(e.intTerms[r], v)
    ensures forall r | r in e.boolTerms :: Holds(e.boolTerms[r], w) == Holds(e.boolTerms[r], v)
    ensures forall c :: Holds(PathOf(e, c), w) == Holds(PathOf(e, c), v)
  {
    hide Mem, Ors, Agree, NamesFit, ExitsFit, VecFits, Holds, IntVal, BoolWithin;
    var m := Bound(p, b, e);
    forall r | r in e.intTerms ensures IntVal(e.intTerms[r], w) == IntVal(e.intTerms[r], v) { IntFrame(e.intTerms[r], v, w, m); }
    forall r | r in e.boolTerms ensures Holds(e.boolTerms[r], w) == Holds(e.boolTerms[r], v) { BoolFrame(e.boolTerms[r], v, w, m); }
    forall c: nat ensures Holds(PathOf(e, c), w) == Holds(PathOf(e, c), v) {
      if c in e.pathBit { BoolFrame(e.pathBit[c], v, w, m); } else { SameLit(v, w); }
    }
  }

  lemma SameLit(v: Valuation, w: Valuation)
    ensures Holds(BoolLit(false), v) == Holds(BoolLit(false), w) == false
  {
  }

  lemma EntryFrame(p: Program, inp: Inputs, v: Valuation, w: Valuation)
    requires |inp.arrs| == p.nArrays && ArysMatch(EntryNames(p), v, inp.arrs)
    requires |inp.glbs| == |p.glbInit| && GlbsMatch(EntryGlobals(p), v, inp.glbs)
    requires NamesFit(Prepare(p), Bound(p, 0, Prepare(p))) && Agree(v, w, Bound(p, 0, Prepare(p)))
    ensures ArysMatch(EntryNames(p), w, inp.arrs) && GlbsMatch(EntryGlobals(p), w, inp.glbs)
  {
    hide Prepare;
    var e := Prepare(p);
    assert forall a | 0 <= a < |EntryNames(p)| :: EntryNames(p)[a] < e.nextArr;
    assert forall g | 0 <= g < |EntryGlobals(p)| :: EntryGlobals(p)[g] < e.nextInt;
  }

  lemma StartFrame(p: Program, dom: seq<Regs>, inp: Inputs, b: nat, v: Valuation, w: Valuation)
    requires WellFormed(p, dom) && b <= |p.blocks| && Agree(v, w, Bound(p, b, EncodeBlocks(p, b)))
    requires PathsChosen(p, inp, v)
    requires |inp.arrs| == p.nArrays && ArysMatch(EntryNames(p), v, inp.arrs)
    requires |inp.glbs| == |p.glbInit| && GlbsMatch(EntryGlobals(p), v, inp.glbs)
    ensures PathsChosen(p, inp, w) && ArysMatch(EntryNames(p), w, inp.arrs) && GlbsMatch(EntryGlobals(p), w, inp.glbs)
  {
    hide SsaOk, SuccsDistinct, EdgesOk, Agree, ArysMatch, GlbsMatch, Prepare, EncodeBlock, Bound, LimLe, Holds, Visits, PathOf;
    BoundsRise(p, dom, b);
    StagesFit(p, dom, 0);
    AgreeBelow(v, w, Bound(p, 0, Prepare(p)), Bound(p, b, EncodeBlocks(p, b)));
    EntryFrame(p, inp, v, w);
    OldTermsFrame(p, 0, Prepare(p), v, w);
  }

  lemma AgreeBelow(v: Valuation, w: Valuation, m: Lim, m': Lim)
    requires Agree(v, w, m') && LimLe(m, m')
    ensures Agree(v, w, m)
  {
    forall n | NameWithin(n, m) ensures v.bools(n) == w.bools(n) { assert NameWithin(n, m'); }
  }

  lemma NextInputs(p: Program, dom: seq<Regs>, inp: Inputs, b: nat, v: Valuation, w: Valuation)
    requires WellFormed(p, dom) && b < |p.blocks| == |dom| && Witness(p, b, inp, v)
    requires Agree(v, w, Bound(p, b, EncodeBlocks(p, b))) && NondetsOk(p, b, |p.blocks[b].instrs|, w, inp)
    ensures InputsMatch(p, b + 1, w, inp) && PathsChosen(p, inp, w)
  {
    hide EncodeBlocks, SsaOk, SuccsDistinct, EdgesOk, Agree, ArysMatch, GlbsMatch, EntryNames, EntryGlobals, NondetsOk, Defs, StageOk, Bound, AllHold, PathsChosen, Holds, IntVal, IsIntInput, IsBoolInput;
    var e, f := EncodeBlocks(p, b), EncodeBlocks(p, b + 1);
    StagesFit(p, dom, b);
    OldTerm(p, dom, b);
    OldTermsFrame(p, b, e, v, w);
    StartFrame(p, dom, inp, b, v, w);
    forall r: nat | IsIntInput(p, r) && r in f.intTerms ensures IntVal(f.intTerms[r], w) == inp.ints(r) {
      if r in Defs(p, b).ints { NewIntInput(p, dom, inp, b, w, r); }
    }
    forall r: nat | IsBoolInput(p, r) && r in f.boolTerms ensures Holds(f.boolTerms[r], w) == inp.bools(r) {
      if r in Defs(p, b).bools { NewBoolInput(p, dom, inp, b, w, r); }
    }
  }

  // ----- before the first block -----

  /** Parameters, initial memory, and the visited blocks, under the names made first; every exit bit true. */
  ghost function StartValuation(p: Program, inp: Inputs): Valuation
    requires |p.blocks| > 0
  {
    Valuation((x: nat) => StartInt(p, inp, x), (y: BoolName) => StartBool(p, inp, y),
              (a: nat, k: int) => if a < |inp.arrs| then inp.arrs[a](k) else 0)
  }

  function StartInt(p: Program, inp: Inputs, x: nat): int {
    var g := |p.glbInit|;
    if x < g then (if x < |inp.glbs| then inp.glbs[x] else 0)
    else if x - g < |p.intParams| then inp.ints(p.intParams[x - g]) else 0
  }

  ghost predicate StartBool(p: Program, inp: Inputs, y: BoolName)
    requires |p.blocks| > 0
  {
    match y
    case ExitName(_) => true
    case BitName(x) => if x < |p.boolParams| then inp.bools(p.boolParams[x]) else Visits(p, inp, x - |p.boolParams|)
  }

  lemma {:induction false} OrsTrue(p: Program, c: nat, v: Valuation)
    requires c <= |p.blocks| && forall id :: v.bools(ExitName(id))
    ensures AllHold(Ors(p, c), v)
  {
    hide TakenCons, AllHold, Holds;
    if c > 0 {
      OrsTrue(p, c - 1, v);
      TakenTrue(p, c - 1, v);
      SplitHold(Ors(p, c - 1), TakenCons(p, c - 1), v);
    } else {
      NothingHolds(v);
    }
  }

  lemma TakenTrue(p: Program, c: nat, v: Valuation)
    requires c < |p.blocks| && forall id :: v.bools(ExitName(id))
    ensures AllHold(TakenCons(p, c), v)
  {
    var k := |Succs(p.blocks[c].term)|;
    if k >= 3 {
      var xs := FreshExits(ExitBase(p, c), k);
      assert xs[0] == BoolVar(ExitName(ExitBase(p, c))) && Holds(xs[0], v);
      MkOrMeaning(xs, v);
    }
  }

  lemma StartWitness(p: Program, dom: seq<Regs>, inp: Inputs)
    requires WellFormed(p, dom) && |p.blocks| > 0 && InputsFit(p, inp)
    ensures Witness(p, 0, inp, StartValuation(p, inp))
  {
    hide SsaOk, SuccsDistinct, EdgesOk, Prepare, Run, Visits, ArysMatch, GlbsMatch, Ors;
    var v, e := StartValuation(p, inp), Prepare(p);
    WfDistinct(p, dom);
    PrepareAt(p);
    PrepareVec(p);
    PrepareKnows(p);
    PreparePath(p);
    OrsTrue(p, |p.blocks|, v);
    StartMemory(p, dom, inp);
    forall r: nat | IsIntInput(p, r) && r in e.intTerms ensures IntVal(e.intTerms[r], v) == inp.ints(r) {
      var k :| 0 <= k < |p.intParams| && p.intParams[k] == r;
    }
    forall r: nat | IsBoolInput(p, r) && r in e.boolTerms ensures Holds(e.boolTerms[r], v) == inp.bools(r) {
      var k :| 0 <= k < |p.boolParams| && p.boolParams[k] == r;
    }
    StartPaths(p, dom, inp);
  }

  lemma StartMemory(p: Program, dom: seq<Regs>, inp: Inputs)
    requires WellFormed(p, dom) && |p.blocks| > 0 && InputsFit(p, inp)
    ensures ArysMatch(EntryNames(p), StartValuation(p, inp), inp.arrs)
    ensures GlbsMatch(EntryGlobals(p), StartValuation(p, inp), inp.glbs)
  {
    hide SsaOk, SuccsDistinct, EdgesOk, Prepare, Visits, StartBool, InitMemory;
    WfDistinct(p, dom);
    PrepareAt(p);
    EmptyStart(p);
  }

  lemma StartPaths(p: Program, dom: seq<Regs>, inp: Inputs)
    requires WellFormed(p, dom) && |p.blocks| > 0
    ensures PathsChosen(p, inp, StartValuation(p, inp))
  {
    hide SsaOk, SuccsDistinct, EdgesOk, Prepare, Run, StartInt;
    WfDistinct(p, dom);
    PrepareAt(p);
    PreparePath(p);
    assert Run(p, inp)[0].b == 0;
    forall c: nat | c < |p.blocks|
      ensures Holds(PathOf(Prepare(p), c), StartValuation(p, inp)) == Visits(p, inp, c)
    {
    }
  }

  /** COMPLETENESS.  From any inputs that fit there is a valuation of every name that satisfies all the
      constraints, the ones of unvisited blocks included, and reads the inputs as given. */
  lemma {:induction false} WitnessExists(p: Program, dom: seq<Regs>, inp: Inputs, b: nat) returns (v: Valuation)
    requires WellFormed(p, dom) && b <= |p.blocks| == |dom| && InputsFit(p, inp)
    ensures Witness(p, b, inp, v)
  {
    hide SsaOk, SuccsDistinct, EdgesOk, EncodeBlocks, NondetsOk, InputsFit, Agree, Bound, PathsChosen, InputsMatch, AllHold, StartValuation;
    NonEmpty(p);
    if b == 0 {
      v := StartValuation(p, inp);
      StartWitness(p, dom, inp);
    } else {
      var u := WitnessExists(p, dom, inp, b - 1);
      v := BlockExtend(p, dom, inp, b - 1, u);
      NextInputs(p, dom, inp, b - 1, u, v);
    }
  }
}
