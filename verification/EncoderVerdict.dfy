/** The verdict: the encoding has a model exactly when some inputs make the program fail. */
module EncoderVerdict {
  import opened Terms
  import opened Ir
  import opened EncoderSpec
  import opened EncoderFrame
  import opened EncoderMatch
  import opened EncoderKnown
  import opened EncoderSound
  import opened EncoderComplete
  import opened EncoderExact

  // ----- what a run shows in the specifications -----

  ghost predicate SomeFalse(ts: seq<BoolTerm>, v: Valuation) { exists j :: 0 <= j < |ts| && !Holds(ts[j], v) }
  ghost predicate SomeTrue(ts: seq<BoolTerm>, v: Valuation) { exists j :: 0 <= j < |ts| && Holds(ts[j], v) }

  lemma FalseStays(ts: seq<BoolTerm>, us: seq<BoolTerm>, v: Valuation)
    requires ts <= us && SomeFalse(ts, v)
    ensures SomeFalse(us, v)
  {
    hide Holds;
    var j :| 0 <= j < |ts| && !Holds(ts[j], v);
    assert us[j] == ts[j];
  }

  lemma TrueStays(ts: seq<BoolTerm>, us: seq<BoolTerm>, v: Valuation)
    requires ts <= us && SomeTrue(ts, v)
    ensures SomeTrue(us, v)
  {
    hide Holds;
    var j :| 0 <= j < |ts| && Holds(ts[j], v);
    assert us[j] == ts[j];
  }

  lemma LastFalse(ts: seq<BoolTerm>, c: BoolTerm, v: Valuation)
    requires !Holds(c, v)
    ensures SomeFalse(ts + [c], v)
  {
    assert (ts + [c])[|ts|] == c;
  }

  lemma LastTrue(ts: seq<BoolTerm>, c: BoolTerm, v: Valuation)
    requires Holds(c, v)
    ensures SomeTrue(ts + [c], v)
  {
    assert (ts + [c])[|ts|] == c;
  }

  /** Specifications and assertion bits are only ever added. */
  lemma SpecsGrow(p: Program, b: nat, k: nat)
    requires EdgesOk(p) && b < |p.blocks| && k <= |p.blocks[b].instrs|
    ensures At(p, b, k).specVec <= EncodeBlocks(p, |p.blocks|).specVec
    ensures At(p, b, k).assertBits <= EncodeBlocks(p, |p.blocks|).assertBits
    ensures At(p, b, k).bmcVec <= EncodeBlocks(p, |p.blocks|).bmcVec
    ensures EncodeBlocks(p, b + 1).specVec <= EncodeBlocks(p, |p.blocks|).specVec
  {
    hide EncodeBlocks, At, EdgesOk, EncodeTerm, FreshExits, PathOf;
    AtFromStart(p, b, k, |p.blocks[b].instrs|);
    LastStage(p, b);
    BlocksSettle(p, b + 1, |p.blocks|);
  }

  /** In the middle of a visited block the terms describe the execution. */
  lemma VisitMid(p: Program, dom: seq<Regs>, inp: Inputs, v: Valuation, i: nat, k: nat)
    requires WellFormed(p, dom) && |p.blocks| == |dom| && Witness(p, |p.blocks|, inp, v)
    requires i < |Run(p, inp)| && k <= |p.blocks[Run(p, inp)[i].b].instrs|
    ensures var vis := Run(p, inp)[i];
            Match(p, vis.b, At(p, vis.b, k), v, StateAt(p, inp, vis, k), DomAt(p, dom, vis.b, k), true)
  {
    hide EncodeBlocks, At, SsaOk, EdgesOk, SuccsDistinct, InputsMatch, AllHold, PathsChosen, Done, Run, Entered, Match, StateAt, DomAt;
    var b, n := Run(p, inp)[i].b, |p.blocks|;
    RunsDone(p, dom, n, inp, v, n);
    SpecsGrow(p, b, 0);
    SpecsGrow(p, b, k);
    AllHoldPrefix(At(p, b, 0).bmcVec, EncodeBlocks(p, n).bmcVec, v);
    AllHoldPrefix(At(p, b, k).bmcVec, EncodeBlocks(p, n).bmcVec, v);
    BlocksSettle(p, b, n);
    AllHoldPrefix(EncodeBlocks(p, b).bmcVec, EncodeBlocks(p, n).bmcVec, v);
    RunsDone(p, dom, n, inp, v, b);
    VisitEntered(p, dom, n, inp, v, i);
    InstrsMatch(p, dom, n, v, inp, Run(p, inp)[i], true, k);
  }

  lemma MatchUse(p: Program, b: nat, e: Enc, v: Valuation, s: State, d: Regs)
    requires Match(p, b, e, v, s, d, true)
    ensures Holds(PathOf(e, b), v) == s.ok && RegsMatch(e, v, s, d)
  {
  }

  /** A failing execution makes its specification false. */
  lemma FailShows(p: Program, dom: seq<Regs>, inp: Inputs, v: Valuation, i: nat, k: nat)
    requires WellFormed(p, dom) && |p.blocks| == |dom| && Witness(p, |p.blocks|, inp, v)
    requires i < |Run(p, inp)| && FailsAt(p, inp, Run(p, inp)[i], k)
    ensures SomeFalse(EncodeBlocks(p, |p.blocks|).specVec, v)
  {
    hide EncodeBlocks, At, SsaOk, EdgesOk, SuccsDistinct, Witness, Run, Match, StateAt, DomAt, RegsMatch, Holds, AssertTerm, UsesIn, SomeFalse, PhiOk, IndexOk, EncodeTerm, PathOf, FreshExits;
    var vis := Run(p, inp)[i];
    var b, n := vis.b, |p.blocks|;
    var e, s := At(p, b, k), StateAt(p, inp, vis, k);
    VisitMid(p, dom, inp, v, i, k);
    MatchUse(p, b, e, v, s, DomAt(p, dom, b, k));
    if k == |p.blocks[b].instrs| {
      LastStage(p, b);
      TermSpecs(p, b, e);
      NotMeaning(PathOf(e, b), v);
      LastFalse(e.specVec, Not(PathOf(e, b)), v);
      SpecsGrow(p, b, k);
      FalseStays(EncodeBlocks(p, b + 1).specVec, EncodeBlocks(p, n).specVec, v);
    } else {
      var code := p.blocks[b].instrs[k];
      WfInstr(p, dom, b, k);
      AssertTermMeaning(e, code, v, s, DomAt(p, dom, b, k));
      InstrSpecs(p, b, k);
      NotDisj(PathOf(e, b), AssertTerm(e, code), v);
      LastFalse(e.specVec, Disj([Not(PathOf(e, b)), AssertTerm(e, code)]), v);
      SpecsGrow(p, b, k + 1);
      FalseStays(At(p, b, k + 1).specVec, EncodeBlocks(p, n).specVec, v);
    }
  }

  /** An execution that arrives at an assertion makes its path bit true. */
  lemma ArrivalShows(p: Program, dom: seq<Regs>, inp: Inputs, v: Valuation, i: nat, k: nat)
    requires WellFormed(p, dom) && |p.blocks| == |dom| && Witness(p, |p.blocks|, inp, v)
    requires i < |Run(p, inp)| && AssertsAt(p, inp, Run(p, inp)[i], k)
    ensures SomeTrue(EncodeBlocks(p, |p.blocks|).assertBits, v)
  {
    hide EncodeBlocks, At, SsaOk, EdgesOk, SuccsDistinct, Witness, Run, Match, StateAt, DomAt, RegsMatch, Holds, AssertTerm, SomeTrue, PathOf;
    var vis := Run(p, inp)[i];
    var b, e := vis.b, At(p, vis.b, k);
    VisitMid(p, dom, inp, v, i, k);
    MatchUse(p, b, e, v, StateAt(p, inp, vis, k), DomAt(p, dom, b, k));
    InstrSpecs(p, b, k);
    LastTrue(e.assertBits, PathOf(e, b), v);
    SpecsGrow(p, b, k + 1);
    TrueStays(At(p, b, k + 1).assertBits, EncodeBlocks(p, |p.blocks|).assertBits, v);
  }

  // ----- whether there are assertion bits at all -----

  lemma {:induction false} NoBitsIn(p: Program, b: nat, k: nat)
    requires EdgesOk(p) && b < |p.blocks| && k <= |p.blocks[b].instrs| && !HasAssert(p)
    ensures At(p, b, k).assertBits == EncodeBlocks(p, b).assertBits
  {
    hide EncodeBlocks, At, EdgesOk;
    if k == 0 {
      AtZeroSpecs(p, b);
    } else {
      NoBitsIn(p, b, k - 1);
      InstrSpecs(p, b, k - 1);
    }
  }

  lemma {:induction false} NoBits(p: Program, b: nat)
    requires EdgesOk(p) && b <= |p.blocks| && !HasAssert(p)
    ensures EncodeBlocks(p, b).assertBits == []
  {
    hide EncodeBlocks, At, EdgesOk, HasAssert, EncodeTerm, FreshExits, PathOf;
    PrepareSpecs(p);
    if b > 0 {
      var c := b - 1;
      NoBits(p, c);
      NoBitsIn(p, c, |p.blocks[c].instrs|);
      LastStage(p, c);
      TermSpecs(p, c, At(p, c, |p.blocks[c].instrs|));
    }
  }

  lemma BitsMean(p: Program)
    requires EdgesOk(p)
    ensures HasAssert(p) <==> |EncodeBlocks(p, |p.blocks|).assertBits| > 0
  {
    hide EncodeBlocks, At, EdgesOk, HasAssert, PathOf, AssertTerm;
    if HasAssert(p) {
      var b, k := AnAssert(p);
      InstrSpecs(p, b, k);
      SpecsGrow(p, b, k + 1);
    } else {
      NoBits(p, |p.blocks|);
    }
  }

  lemma AnAssert(p: Program) returns (b: nat, k: nat)
    requires HasAssert(p)
    ensures b < |p.blocks| && k < |p.blocks[b].instrs| && IsAssert(p.blocks[b].instrs[k])
  {
    b, k :| 0 <= b < |p.blocks| && 0 <= k < |p.blocks[b].instrs| && IsAssert(p.blocks[b].instrs[k]);
  }

  // ----- initialised globals -----

  lemma {:induction false} GlbDefsMeaning(p: Program, names: seq<nat>, k: nat, v: Valuation)
    requires k <= |p.glbInit|
    ensures AllHold(GlbDefs(p, names, k), v) <==>
            forall g | 0 <= g < k && p.glbInit[g].Some? :: v.ints(NameAt(names, g)) == p.glbInit[g].value
  {
    if k > 0 {
      GlbDefsMeaning(p, names, k - 1, v);
      var last := GlbDefs(p, names, k)[|GlbDefs(p, names, k - 1)|..];
      assert GlbDefs(p, names, k) == GlbDefs(p, names, k - 1) + last;
      SplitHold(GlbDefs(p, names, k - 1), last, v);
      if p.glbInit[k - 1].Some? {
        var c := Compare(Eq, IntVar(NameAt(names, k - 1)), IntLit(p.glbInit[k - 1].value));
        assert last == [c];
        assert Holds(c, v) == (v.ints(NameAt(names, k - 1)) == p.glbInit[k - 1].value);
        OneOnly(c, v);
      } else {
        assert last == [];
      }
    } else {
      NothingHolds(v);
    }
  }

  lemma GlbDefsFit(p: Program, inp: Inputs, v: Valuation)
    requires |inp.arrs| == p.nArrays && |inp.glbs| == |p.glbInit| && GlbsMatch(EntryGlobals(p), v, inp.glbs)
    ensures AllHold(GlbDefs(p, EntryGlobals(p), |p.glbInit|), v) <==> InputsFit(p, inp)
  {
    hide EntryGlobals, AllHold;
    GlbDefsMeaning(p, EntryGlobals(p), |p.glbInit|, v);
    assert forall g | 0 <= g < |p.glbInit| :: v.ints(NameAt(EntryGlobals(p), g)) == inp.glbs[g];
  }

  // ----- the verdict -----

  /** What the tool asks the solver for: a model of the constraints that breaks a specification. */
  ghost predicate Refutes(p: Program, v: Valuation)
    requires EdgesOk(p)
  {
    AllHold(Encode(p).bmcVec, v) && SomeFalse(Encode(p).specVec, v)
  }

  /** The runs that show up: a failing one, which also arrives at an assertion if the program has any. */
  ghost predicate Shows(p: Program, inp: Inputs)
    requires |p.blocks| > 0
  {
    InputsFit(p, inp) && Violates(p, inp) && (HasAssert(p) ==> ReachesAssert(p, inp))
  }

  lemma EncodeParts(p: Program, v: Valuation)
    requires EdgesOk(p)
    ensures var e := EncodeBlocks(p, |p.blocks|);
            && Encode(p).specVec == e.specVec
            && (AllHold(Encode(p).bmcVec, v) <==>
                AllHold(GlbDefs(p, EntryGlobals(p), |p.glbInit|), v) && AllHold(e.bmcVec, v) && (|e.assertBits| > 0 ==> SomeTrue(e.assertBits, v)))
  {
    hide EncodeBlocks, EdgesOk, EntryGlobals, Holds, MkOr, GlbDefs, AllHold, SomeTrue;
    var e := EncodeBlocks(p, |p.blocks|);
    var gs := GlbDefs(p, EntryGlobals(p), |p.glbInit|);
    SplitHold(gs + e.bmcVec, [MkOr(e.assertBits)], v);
    SplitHold(gs, e.bmcVec, v);
    OneOnly(MkOr(e.assertBits), v);
    SomeMeaning(e.assertBits, v);
  }

  lemma OneOnly(c: BoolTerm, v: Valuation)
    ensures AllHold([c], v) == Holds(c, v)
  {
    hide Holds;
    assert [c][0] == c;
    assert AllHold([c], v) ==> Holds([c][0], v);
  }

  lemma SomeMeaning(ts: seq<BoolTerm>, v: Valuation)
    ensures Holds(MkOr(ts), v) <==> (|ts| > 0 ==> SomeTrue(ts, v))
  {
    hide MkOr, Holds;
    MkOrMeaning(ts, v);
  }

  /** A model that reads the inputs as given means these inputs fail. */
  lemma RefutesSound(p: Program, dom: seq<Regs>, inp: Inputs, v: Valuation)
    requires WellFormed(p, dom) && |p.blocks| > 0 && InputsMatch(p, |p.blocks|, v, inp) && Refutes(p, v)
    ensures Shows(p, inp)
  {
    hide EncodeBlocks, EdgesOk, SsaOk, SuccsDistinct, InputsMatch, Encode, EntryGlobals, Violates, ReachesAssert, HasAssert, AllHold, Holds, InputsFit;
    var n := |p.blocks|;
    WfLong(p, dom);
    EncodeParts(p, v);
    SpecsSound(p, dom, n, inp, v, n);
    BitsMean(p);
    InputsSizes(p, n, v, inp);
    GlbDefsFit(p, inp, v);
  }

  lemma WfLong(p: Program, dom: seq<Regs>)
    requires WellFormed(p, dom)
    ensures |dom| == |p.blocks| > 0
  {
  }

  lemma InputsSizes(p: Program, m: nat, v: Valuation, inp: Inputs)
    requires EdgesOk(p) && m <= |p.blocks| && InputsMatch(p, m, v, inp)
    ensures |inp.arrs| == p.nArrays && |inp.glbs| == |p.glbInit| && GlbsMatch(EntryGlobals(p), v, inp.glbs)
  {
  }

  /** Failing inputs have a model that reads them as given. */
  lemma RefutesComplete(p: Program, dom: seq<Regs>, inp: Inputs) returns (v: Valuation)
    requires WellFormed(p, dom) && |p.blocks| > 0 && Shows(p, inp)
    ensures Refutes(p, v) && InputsMatch(p, |p.blocks|, v, inp)
  {
    hide EncodeBlocks, EdgesOk, SsaOk, SuccsDistinct, InputsMatch, Encode, EntryGlobals, HasAssert, AllHold, Holds, InputsFit, Run, FailsAt, AssertsAt, PathsChosen, SomeFalse, SomeTrue;
    var n := |p.blocks|;
    WfLong(p, dom);
    v := WitnessExists(p, dom, inp, n);
    EncodeParts(p, v);
    BitsMean(p);
    InputsSizes(p, n, v, inp);
    GlbDefsFit(p, inp, v);
    var i, k: nat :| 0 <= i < |Run(p, inp)| && FailsAt(p, inp, Run(p, inp)[i], k);
    FailShows(p, dom, inp, v, i, k);
    if HasAssert(p) {
      var j, l: nat :| 0 <= j < |Run(p, inp)| && AssertsAt(p, inp, Run(p, inp)[j], l);
      ArrivalShows(p, dom, inp, v, j, l);
    }
  }

  /** The inputs a valuation stands for, read through the final term map and the entry versions. */
  ghost function InputsFrom(f: Enc, arrs: seq<nat>, glbs: seq<nat>, v: Valuation): Inputs {
    Inputs((r: nat) => if r in f.intTerms then IntVal(f.intTerms[r], v) else 0,
           (r: nat) => r in f.boolTerms && Holds(f.boolTerms[r], v),
           seq(|arrs|, (a: nat) => (k: int) => v.arrs(NameAt(arrs, a), k)),
           seq(|glbs|, (g: nat) => v.ints(NameAt(glbs, g))))
  }

  ghost function InputsOf(p: Program, v: Valuation): Inputs
    requires EdgesOk(p)
  {
    InputsFrom(EncodeBlocks(p, |p.blocks|), EntryNames(p), EntryGlobals(p), v)
  }

  lemma InputsFromMatch(f: Enc, arrs: seq<nat>, glbs: seq<nat>, v: Valuation)
    ensures var inp := InputsFrom(f, arrs, glbs, v);
            && ArysMatch(arrs, v, inp.arrs) && GlbsMatch(glbs, v, inp.glbs)
            && (forall r: nat | r in f.intTerms :: IntVal(f.intTerms[r], v) == inp.ints(r))
            && (forall r: nat | r in f.boolTerms :: Holds(f.boolTerms[r], v) == inp.bools(r))
  {
    hide Holds, IntVal;
    var inp := InputsFrom(f, arrs, glbs, v);
    forall a, k: int | 0 <= a < |arrs| ensures v.arrs(arrs[a], k) == inp.arrs[a](k) {
      assert NameAt(arrs, a) == arrs[a];
    }
    forall g | 0 <= g < |glbs| ensures v.ints(glbs[g]) == inp.glbs[g] {
      assert NameAt(glbs, g) == glbs[g];
    }
  }

  lemma InputsOfMatch(p: Program, dom: seq<Regs>, v: Valuation)
    requires WellFormed(p, dom)
    ensures InputsMatch(p, |p.blocks|, v, InputsOf(p, v))
  {
    hide EncodeBlocks, EdgesOk, SsaOk, SuccsDistinct, EntryNames, EntryGlobals, IsIntInput, IsBoolInput, Holds, IntVal, InputsFrom;
    EntrySizes(p);
    InputsFromMatch(EncodeBlocks(p, |p.blocks|), EntryNames(p), EntryGlobals(p), v);
  }

  lemma EntrySizes(p: Program)
    ensures |EntryNames(p)| == p.nArrays && |EntryGlobals(p)| == |p.glbInit|
  {
    hide InitMemory;
    EmptyMemory(p);
    var e := InitMemory(p, EMPTY);
    ParamsMemory(e, p.intParams, |p.intParams|);
    ParamsMemory(ParamsInt(e, p.intParams, |p.intParams|), p.boolParams, |p.boolParams|);
    InitBitsTerms(p, |p.blocks|, InitParams(p, e));
  }

  lemma EmptyMemory(p: Program)
    ensures |AryOf(InitMemory(p, EMPTY), 0)| == p.nArrays && |GlbOf(InitMemory(p, EMPTY), 0)| == |p.glbInit|
  {
  }

  lemma ParamsMemory(e: Enc, ps: seq<nat>, k: nat)
    requires k <= |ps|
    ensures ParamsInt(e, ps, k).ary == e.ary && ParamsInt(e, ps, k).glb == e.glb
    ensures ParamsBool(e, ps, k).ary == e.ary && ParamsBool(e, ps, k).glb == e.glb
  {
  }

  /** EXACTNESS, input by input: some model reads these inputs exactly when they make the program fail. */
  lemma VerdictForInputs(p: Program, dom: seq<Regs>, inp: Inputs)
    requires WellFormed(p, dom) && |p.blocks| > 0
    ensures (exists v :: Refutes(p, v) && InputsMatch(p, |p.blocks|, v, inp)) <==> Shows(p, inp)
  {
    hide EdgesOk, SsaOk, SuccsDistinct, InputsMatch, Refutes, Shows;
    if Shows(p, inp) { var v := RefutesComplete(p, dom, inp); }
    forall v | Refutes(p, v) && InputsMatch(p, |p.blocks|, v, inp)
      ensures Shows(p, inp)
    {
      RefutesSound(p, dom, inp, v);
    }
  }

  /** EXACTNESS: the solver can be satisfied exactly when some inputs fail. */
  lemma Verdict(p: Program, dom: seq<Regs>)
    requires WellFormed(p, dom) && |p.blocks| > 0
    ensures (exists v :: Refutes(p, v)) <==> exists inp :: Shows(p, inp)
  {
    hide EdgesOk, SsaOk, SuccsDistinct, InputsMatch, Refutes, Shows, InputsOf;
    forall inp | Shows(p, inp) ensures exists v :: Refutes(p, v) {
      var v := RefutesComplete(p, dom, inp);
    }
    forall v | Refutes(p, v) ensures exists inp :: Shows(p, inp) {
      InputsOfMatch(p, dom, v);
      RefutesSound(p, dom, InputsOf(p, v), v);
    }
  }

  /** What a caller can check beforehand: no block ends in `unreachable`, or nothing is asserted. */
  ghost predicate NothingMissed(p: Program) {
    (forall b | 0 <= b < |p.blocks| :: !p.blocks[b].term.Unreachable?) || !HasAssert(p)
  }

  lemma FailureArrives(p: Program, inp: Inputs)
    requires |p.blocks| > 0 && NothingMissed(p) && HasAssert(p) && Violates(p, inp)
    ensures ReachesAssert(p, inp)
  {
    hide StateAt, Run;
    var i, k: nat :| 0 <= i < |Run(p, inp)| && FailsAt(p, inp, Run(p, inp)[i], k);
    assert AssertsAt(p, inp, Run(p, inp)[i], k);
  }

  /** Then the encoding decides the program: it has a refuting model if and only if some inputs fail. */
  lemma StaticVerdict(p: Program, dom: seq<Regs>)
    requires WellFormed(p, dom) && |p.blocks| > 0 && NothingMissed(p)
    ensures (exists v :: Refutes(p, v)) <==> exists inp :: InputsFit(p, inp) && Violates(p, inp)
  {
    hide WellFormed, Refutes, Violates, ReachesAssert, InputsFit, NothingMissed, HasAssert;
    Verdict(p, dom);
    forall inp ensures Shows(p, inp) <==> InputsFit(p, inp) && Violates(p, inp) {
      if HasAssert(p) && Violates(p, inp) { FailureArrives(p, inp); }
    }
  }

  // ----- a failure the tool cannot see -----

  /** `if (c) assert(true); else unreachable;` */
  const TWO_ARMS := Program(
    [Block([], Branch(BReg(0), 1, 2)), Block([AssertBool(BConst(true))], Return(None)), Block([], Unreachable)],
    [[], [0], [0]], 0, [], [], [0])

  const TWO_ARMS_DOM := [Regs({}, {0}), Regs({}, {0}), Regs({}, {0})]

  function ArmInputs(c: bool): Inputs { Inputs((r: nat) => 0, (r: nat) => c, [], []) }

  /** What the proofs below need to know about `TWO_ARMS`. */
  ghost predicate ArmShaped(p: Program) {
    && |p.blocks| == |p.preds| == 3 && Succs(p.blocks[0].term) == [1, 2] && Succs(p.blocks[1].term) == [] && Succs(p.blocks[2].term) == []
    && p.preds[0] == [] && p.preds[1] == [0] && p.preds[2] == [0] && !p.blocks[0].term.Switch? && !p.blocks[1].term.Switch? && !p.blocks[2].term.Switch?
    && p.blocks[0].instrs == p.blocks[2].instrs == [] && p.blocks[1].instrs == [AssertBool(BConst(true))]
    && p.blocks[0].term.Branch? && p.blocks[0].term.cond == BReg(0) && p.blocks[1].term.Return? && p.blocks[1].term.ret.None?
    && p.blocks[2].term.Unreachable? && p.intParams == [] && p.boolParams == [0]
  }

  lemma ArmShape()
    ensures ArmShaped(TWO_ARMS)
  {
  }

  lemma TwoArmsEdges(p: Program)
    requires ArmShaped(p)
    ensures EdgesOk(p) && SuccsDistinct(p)
  {
    hide Succs;
  }

  lemma TwoArmsWellFormed()
    ensures WellFormed(TWO_ARMS, TWO_ARMS_DOM)
  {
    hide SsaOk, EdgesOk, SuccsDistinct, ArmShaped;
    ArmShape();
    TwoArmsEdges(TWO_ARMS);
    TwoArmsSsa(TWO_ARMS, TWO_ARMS_DOM);
  }

  lemma ArmDefs(p: Program)
    requires ArmShaped(p)
    ensures |p.blocks| == 3 && forall b: nat | b < 3 :: Defs(p, b) == Regs({}, {})
    ensures |p.blocks[1].instrs| == 1 && DefsUpTo(p.blocks[1].instrs, 0) == Regs({}, {})
  {
    assert DefsUpTo(p.blocks[1].instrs, 1) == Regs({}, {});
    assert DefsUpTo(p.blocks[0].instrs, 0) == Regs({}, {});
  }

  lemma TwoArmsSsa(p: Program, dom: seq<Regs>)
    requires EdgesOk(p) && ArmShaped(p) && dom == TWO_ARMS_DOM
    ensures SsaOk(p, dom)
  {
    hide EdgesOk, Succs, Defs, DefsUpTo;
    ArmDefs(p);
    forall q: nat, b: nat | IsPred(p, q, b) ensures Subregs(dom[b], DomOut(p, dom, q)) { assert q == 0; }
  }

  lemma ArmRun(inp: Inputs)
    ensures var r := Run(TWO_ARMS, inp); |r| == 2 && r[0].b == 0 && r[1].b == if inp.bools(0) then 1 else 2
    ensures var r := Run(TWO_ARMS, inp); ExitState(TWO_ARMS, inp, r[1]).ok && StateAt(TWO_ARMS, inp, r[1], 0).ok
  {
    var p := TWO_ARMS;
    var v := Visit(0, 0, InitState(p, inp));
    var s := ExitState(p, inp, v);
    assert s == v.entry && s.bools[0] == inp.bools(0);
    var c := if inp.bools(0) then 1 else 2;
    assert Next(p, 0, s) == Some(c);
    var w := Visit(c, 0, s);
    assert StateAt(p, inp, w, 0) == s;
    assert ExitState(p, inp, w) == s;
    assert RunFrom(p, inp, w) == [w];
  }

  /** Inputs that run into `unreachable` fail, yet the encoding has no model: the last constraint demands a
      reached assertion.  This is where exactness needs the second condition of `Shows`. */
  lemma MissedFailure()
    ensures WellFormed(TWO_ARMS, TWO_ARMS_DOM)
    ensures exists inp :: InputsFit(TWO_ARMS, inp) && Violates(TWO_ARMS, inp)
    ensures !exists v :: Refutes(TWO_ARMS, v)
  {
    hide WellFormed, InputsMatch, Run, StateAt, ExitState, Refutes, EdgesOk, SsaOk, SuccsDistinct;
    var p := TWO_ARMS;
    TwoArmsWellFormed();
    Verdict(p, TWO_ARMS_DOM);
    var inp := ArmInputs(false);
    ArmRun(inp);
    UnreachableFails(p, inp, 2, 1);
    assert IsAssert(p.blocks[1].instrs[0]) && HasAssert(p);
    forall inp ensures !Shows(p, inp) { ArmHidden(inp); }
  }

  lemma ArmHidden(inp: Inputs)
    ensures !Shows(TWO_ARMS, inp)
  {
    hide Run, InputsFit, StateAt;
    var p := TWO_ARMS;
    ArmRun(inp);
    ArmShape();
    assert IsAssert(p.blocks[1].instrs[0]) && HasAssert(p);
    if inp.bools(0) {
      forall i, k: nat | 0 <= i < |Run(p, inp)| ensures !FailsAt(p, inp, Run(p, inp)[i], k) {}
    } else {
      forall j, l: nat | 0 <= j < |Run(p, inp)| ensures !AssertsAt(p, inp, Run(p, inp)[j], l) {}
    }
  }
}
