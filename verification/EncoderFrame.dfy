/** What encoding one block leaves alone: earlier constraints, other blocks' bits and versions, other registers' terms. */
module EncoderFrame {
  import opened Terms
  import opened Ir
  import opened EncoderSpec

  ghost predicate VecsGrow(e: Enc, e': Enc) {
    && e.bmcVec <= e'.bmcVec && e.specVec <= e'.specVec && e.assertBits <= e'.assertBits
    && e.exitBits == e'.exitBits && e.nextExit == e'.nextExit
  }

  ghost predicate PathsKept(b: nat, e: Enc, e': Enc) {
    forall c: nat | c != b :: PathOf(e', c) == PathOf(e, c)
  }

  ghost predicate MemKept(b: nat, e: Enc, e': Enc) {
    forall c: nat | c != b :: AryOf(e', c) == AryOf(e, c) && GlbOf(e', c) == GlbOf(e, c)
  }

  ghost predicate TermsKept(d: Regs, e: Enc, e': Enc) {
    && (forall r | r in e.intTerms && r !in d.ints :: r in e'.intTerms && e'.intTerms[r] == e.intTerms[r])
    && (forall r | r in e.boolTerms && r !in d.bools :: r in e'.boolTerms && e'.boolTerms[r] == e.boolTerms[r])
  }

  /** `e'` continues `e` while block `b` is encoded and at most the registers `d` are defined. */
  ghost predicate Continues(b: nat, d: Regs, e: Enc, e': Enc) {
    VecsGrow(e, e') && PathsKept(b, e, e') && MemKept(b, e, e') && TermsKept(d, e, e')
  }

  const NONE := Regs({}, {})

  lemma ContinuesTrans(b: nat, d: Regs, e: Enc, f: Enc, g: Enc)
    requires Continues(b, d, e, f) && Continues(b, d, f, g)
    ensures Continues(b, d, e, g)
  {
  }

  lemma ContinuesRefl(b: nat, d: Regs, e: Enc)
    ensures Continues(b, d, e, e)
  {
  }

  lemma ContinuesWeaken(b: nat, d: Regs, d': Regs, e: Enc, f: Enc)
    requires Continues(b, d, e, f) && Subregs(d, d')
    ensures Continues(b, d', e, f)
  {
  }

  lemma EmitKeeps(b: nat, d: Regs, e: Enc, c: BoolTerm)
    ensures Continues(b, d, e, Emit(e, c))
  {
  }

  lemma EmitFreshKeeps(b: nat, d: Regs, e: Enc, c: BoolTerm, n: nat)
    ensures Continues(b, d, e, Emit(e, c).(nextInt := n))
  {
  }

  lemma EmitsKeep(b: nat, d: Regs, e: Enc, cs: seq<BoolTerm>)
    ensures Continues(b, d, e, e.(bmcVec := e.bmcVec + cs))
  {
  }

  lemma GetIntKeeps(b: nat, d: Regs, e: Enc, o: IntOperand)
    ensures Continues(b, d, e, GetInt(e, o).0)
  {
  }

  lemma GetBoolKeeps(b: nat, d: Regs, e: Enc, o: BoolOperand)
    ensures Continues(b, d, e, GetBool(e, o).0)
  {
  }

  lemma SetIntKeeps(b: nat, d: Regs, e: Enc, r: nat, t: IntTerm, n: nat)
    requires r in d.ints
    ensures Continues(b, d, e, SetInt(e, r, t)) && Continues(b, d, e, SetInt(e, r, t).(nextInt := n))
  {
  }

  lemma SetBoolKeeps(b: nat, d: Regs, e: Enc, r: nat, t: BoolTerm, n: nat)
    requires r in d.bools
    ensures Continues(b, d, e, SetBool(e, r, t)) && Continues(b, d, e, SetBool(e, r, t).(nextBit := n))
  {
  }

  lemma SetPathKeeps(b: nat, d: Regs, e: Enc, t: BoolTerm, n: nat)
    ensures Continues(b, d, e, e.(pathBit := e.pathBit[b := t], nextBit := n))
  {
  }

  lemma SetAryKeeps(b: nat, d: Regs, e: Enc, names: seq<nat>, n: nat)
    ensures Continues(b, d, e, e.(ary := e.ary[b := names], nextArr := n))
  {
  }

  lemma SetGlbKeeps(b: nat, d: Regs, e: Enc, names: seq<nat>, n: nat)
    ensures Continues(b, d, e, e.(glb := e.glb[b := names], nextInt := n))
  {
  }

  lemma AddSpecKeeps(b: nat, d: Regs, e: Enc, t: BoolTerm)
    ensures Continues(b, d, e, AddSpec(b, t, e))
  {
  }

  lemma JoinArraysKeeps(p: Program, b: nat, conds: seq<BoolTerm>, e: Enc)
    requires b < |p.preds| && |conds| == |p.preds[b]| > 0
    ensures Continues(b, NONE, e, JoinArrays(p, b, conds, e))
    ensures PathOf(JoinArrays(p, b, conds, e), b) == PathOf(e, b)
    ensures JoinArrays(p, b, conds, e).intTerms == e.intTerms && JoinArrays(p, b, conds, e).boolTerms == e.boolTerms
  {
    hide Continues;
    var j := JoinUpTo(Arrays, VecsOf(e.ary, p.preds[b]), conds, p.nArrays, e.nextArr);
    SetAryKeeps(b, NONE, e, j.names, j.next);
    EmitKeeps(b, NONE, e.(ary := e.ary[b := j.names], nextArr := j.next), MkAnd(j.cons));
    ContinuesTrans(b, NONE, e, e.(ary := e.ary[b := j.names], nextArr := j.next), JoinArrays(p, b, conds, e));
  }

  lemma JoinGlobalsKeeps(p: Program, b: nat, conds: seq<BoolTerm>, e: Enc)
    requires b < |p.preds| && |conds| == |p.preds[b]| > 0
    ensures Continues(b, NONE, e, JoinGlobals(p, b, conds, e))
    ensures PathOf(JoinGlobals(p, b, conds, e), b) == PathOf(e, b) && AryOf(JoinGlobals(p, b, conds, e), b) == AryOf(e, b)
    ensures JoinGlobals(p, b, conds, e).intTerms == e.intTerms && JoinGlobals(p, b, conds, e).boolTerms == e.boolTerms
  {
    hide Continues;
    var j := JoinUpTo(Globals, VecsOf(e.glb, p.preds[b]), conds, |p.glbInit|, e.nextInt);
    SetGlbKeeps(b, NONE, e, j.names, j.next);
    EmitKeeps(b, NONE, e.(glb := e.glb[b := j.names], nextInt := j.next), MkAnd(j.cons));
    ContinuesTrans(b, NONE, e, e.(glb := e.glb[b := j.names], nextInt := j.next), JoinGlobals(p, b, conds, e));
  }

  lemma EnterContinues(p: Program, b: nat, e: Enc)
    requires EdgesOk(p) && b < |p.blocks|
    ensures Continues(b, NONE, e, EnterBlock(p, b, e))
    ensures PathOf(EnterBlock(p, b, e), b) == PathOf(e, b)
    ensures EnterBlock(p, b, e).intTerms == e.intTerms && EnterBlock(p, b, e).boolTerms == e.boolTerms
  {
    hide Continues;
    if b == 0 {
      EmitKeeps(b, NONE, e, PathOf(e, 0));
    } else {
      var conds := Incoming(p, e, b);
      var e1 := Emit(e, Implies(PathOf(e, b), MkOr(conds)));
      var e2 := JoinArrays(p, b, conds, e1);
      EmitKeeps(b, NONE, e, Implies(PathOf(e, b), MkOr(conds)));
      JoinArraysKeeps(p, b, conds, e1);
      JoinGlobalsKeeps(p, b, conds, e2);
      ContinuesTrans(b, NONE, e, e1, e2);
      ContinuesTrans(b, NONE, e, e2, EnterBlock(p, b, e));
    }
  }

  lemma Chain(b: nat, d: Regs, e: Enc, f: Enc, g: Enc, h: Enc)
    requires Continues(b, d, e, f) && Continues(b, d, f, g) && Continues(b, d, g, h)
    ensures Continues(b, d, e, h)
  {
    hide Continues;
    ContinuesTrans(b, d, e, f, g);
    ContinuesTrans(b, d, e, g, h);
  }

  lemma TwoIntsKeep(b: nat, d: Regs, e: Enc, x: IntOperand, y: IntOperand)
    ensures Continues(b, d, e, GetInt(GetInt(e, x).0, y).0)
  {
    hide Continues;
    GetIntKeeps(b, d, e, x);
    GetIntKeeps(b, d, GetInt(e, x).0, y);
    ContinuesTrans(b, d, e, GetInt(e, x).0, GetInt(GetInt(e, x).0, y).0);
  }

  lemma PhiIntContinues(p: Program, b: nat, d: nat, ins: seq<(nat, IntOperand)>, e: Enc)
    requires EdgesOk(p) && b < |p.blocks|
    ensures Continues(b, Regs({d}, {}), e, EncodePhiInt(p, b, d, ins, e))
  {
    hide Continues, PhiIntCons;
    var x := e.nextInt;
    var e1 := SetInt(e, d, IntVar(x)).(nextInt := x + 1);
    SetIntKeeps(b, Regs({d}, {}), e, d, IntVar(x), x + 1);
    EmitKeeps(b, Regs({d}, {}), e1, MkAnd(PhiIntCons(p, e1, b, x, ins, |ins|)));
    ContinuesTrans(b, Regs({d}, {}), e, e1, EncodePhiInt(p, b, d, ins, e));
  }

  lemma PhiBoolContinues(p: Program, b: nat, d: nat, ins: seq<(nat, BoolOperand)>, e: Enc)
    requires EdgesOk(p) && b < |p.blocks|
    ensures Continues(b, Regs({}, {d}), e, EncodePhiBool(p, b, d, ins, e))
  {
    hide Continues, PhiBoolCons;
    var x := e.nextBit;
    var e1 := SetBool(e, d, BoolVar(BitName(x))).(nextBit := x + 1);
    SetBoolKeeps(b, Regs({}, {d}), e, d, BoolVar(BitName(x)), x + 1);
    EmitKeeps(b, Regs({}, {d}), e1, MkAnd(PhiBoolCons(p, e1, b, x, ins, |ins|)));
    ContinuesTrans(b, Regs({}, {d}), e, e1, EncodePhiBool(p, b, d, ins, e));
  }

  lemma StoreContinues(b: nat, d: Regs, a: nat, idx: IntOperand, val: IntOperand, e: Enc)
    ensures Continues(b, d, e, EncodeStore(b, a, idx, val, e))
  {
    hide Continues;
    var (e1, i) := GetInt(e, idx);
    var (e2, x) := GetInt(e1, val);
    var names := AryOf(e2, b);
    var names' := if a < |names| then names[a := e2.nextArr] else names;
    var e3 := e2.(ary := e2.ary[b := names'], nextArr := e2.nextArr + 1);
    TwoIntsKeep(b, d, e, idx, val);
    SetAryKeeps(b, d, e2, names', e2.nextArr + 1);
    EmitKeeps(b, d, e3, ArrStore(e2.nextArr, NameAt(names, a), i, x));
    Chain(b, d, e, e2, e3, EncodeStore(b, a, idx, val, e));
  }

  lemma StoreGlbContinues(b: nat, d: Regs, g: nat, val: IntOperand, e: Enc)
    ensures Continues(b, d, e, EncodeStoreGlb(b, g, val, e))
  {
    hide Continues;
    var (e1, x) := GetInt(e, val);
    var names := GlbOf(e1, b);
    var names' := if g < |names| then names[g := e1.nextInt] else names;
    var e2 := e1.(glb := e1.glb[b := names'], nextInt := e1.nextInt + 1);
    GetIntKeeps(b, d, e, val);
    SetGlbKeeps(b, d, e1, names', e1.nextInt + 1);
    EmitKeeps(b, d, e2, Compare(Eq, IntVar(e1.nextInt), x));
    Chain(b, d, e, e1, e2, EncodeStoreGlb(b, g, val, e));
  }

  lemma AssumeContinues(b: nat, d: Regs, c: BoolOperand, e: Enc)
    ensures Continues(b, d, e, EncodeAssume(b, c, e))
  {
    hide Continues;
    var (e1, t) := GetBool(e, c);
    var bit := BoolVar(BitName(e1.nextBit));
    var e2 := e1.(pathBit := e1.pathBit[b := bit], nextBit := e1.nextBit + 1);
    GetBoolKeeps(b, d, e, c);
    SetPathKeeps(b, d, e1, bit, e1.nextBit + 1);
    EmitKeeps(b, d, e2, Iff(bit, Conj([PathOf(e, b), t])));
    Chain(b, d, e, e1, e2, EncodeAssume(b, c, e));
  }

  lemma InstrContinues(p: Program, b: nat, i: Instr, e: Enc)
    requires EdgesOk(p) && b < |p.blocks|
    ensures Continues(b, Def(i), e, EncodeInstr(p, b, i, e))
  {
    hide Continues, GetInt, GetBool, EncodePhiInt, EncodePhiBool, EncodeAssume, EncodeStore, EncodeStoreGlb, AddSpec;
    var d := Def(i);
    var g := EncodeInstr(p, b, i, e);
    match i
    case IntBin(r, op, x, y) =>
      var e2 := GetInt(GetInt(e, x).0, y).0;
      TwoIntsKeep(b, d, e, x, y);
      SetIntKeeps(b, d, e2, r, Arith(op, GetInt(e, x).1, GetInt(GetInt(e, x).0, y).1), 0);
      ContinuesTrans(b, d, e, e2, g);
    case BoolBin(r, op, x, y) =>
      var e1 := GetBool(e, x).0;
      var e2 := GetBool(e1, y).0;
      GetBoolKeeps(b, d, e, x);
      GetBoolKeeps(b, d, e1, y);
      SetBoolKeeps(b, d, e2, r, Logic(op, GetBool(e, x).1, GetBool(e1, y).1), 0);
      Chain(b, d, e, e1, e2, g);
    case Cmp(r, op, x, y) =>
      var e2 := GetInt(GetInt(e, x).0, y).0;
      TwoIntsKeep(b, d, e, x, y);
      SetBoolKeeps(b, d, e2, r, Compare(op, GetInt(e, x).1, GetInt(GetInt(e, x).0, y).1), 0);
      ContinuesTrans(b, d, e, e2, g);
    case PhiInt(r, ins) => PhiIntContinues(p, b, r, ins, e);
    case PhiBool(r, ins) => PhiBoolContinues(p, b, r, ins, e);
    case NondetInt(r) => ContinuesRefl(b, d, e); SetIntKeeps(b, d, e, r, IntVar(e.nextInt), e.nextInt + 1);
    case NondetBool(r) => SetBoolKeeps(b, d, e, r, BoolVar(BitName(e.nextBit)), e.nextBit + 1);
    case Assume(c) => AssumeContinues(b, d, c, e);
    case AssertBool(c) =>
      GetBoolKeeps(b, d, e, c);
      AddSpecKeeps(b, d, GetBool(e, c).0, GetBool(e, c).1);
      ContinuesTrans(b, d, e, GetBool(e, c).0, g);
    case AssertInt(x) =>
      GetIntKeeps(b, d, e, x);
      AddSpecKeeps(b, d, GetInt(e, x).0, Compare(Ne, GetInt(e, x).1, IntLit(0)));
      ContinuesTrans(b, d, e, GetInt(e, x).0, g);
    case Load(r, a, idx) =>
      var e1 := GetInt(e, idx).0;
      GetIntKeeps(b, d, e, idx);
      SetIntKeeps(b, d, e1, r, Select(NameAt(AryOf(e1, b), a), GetInt(e, idx).1), 0);
      ContinuesTrans(b, d, e, e1, g);
    case Store(a, idx, val) => StoreContinues(b, d, a, idx, val, e);
    case LoadGlb(r, gl) => SetIntKeeps(b, d, e, r, IntVar(NameAt(GlbOf(e, b), gl)), 0);
    case StoreGlb(gl, val) => StoreGlbContinues(b, d, gl, val, e);
  }

  lemma {:induction false} InstrsContinue(p: Program, b: nat, k: nat, e: Enc)
    requires EdgesOk(p) && b < |p.blocks| && k <= |p.blocks[b].instrs|
    ensures Continues(b, DefsUpTo(p.blocks[b].instrs, k), e, EncodeInstrs(p, b, k, e))
  {
    hide Continues;
    hide EncodeInstr;
    ContinuesRefl(b, NONE, e);
    if k > 0 {
      var i, f := p.blocks[b].instrs[k - 1], EncodeInstrs(p, b, k - 1, e);
      var d := DefsUpTo(p.blocks[b].instrs, k);
      InstrsContinue(p, b, k - 1, e);
      InstrContinues(p, b, i, f);
      ContinuesWeaken(b, DefsUpTo(p.blocks[b].instrs, k - 1), d, e, f);
      ContinuesWeaken(b, Def(i), d, f, EncodeInstrs(p, b, k, e));
      ContinuesTrans(b, d, e, f, EncodeInstrs(p, b, k, e));
    }
  }

  /** From the first `j` to the first `k` instructions of the block. */
  lemma {:induction false} InstrsContinueFrom(p: Program, b: nat, j: nat, k: nat, e: Enc)
    requires EdgesOk(p) && b < |p.blocks| && j <= k <= |p.blocks[b].instrs|
    ensures EncodeInstrs(p, b, j, e).bmcVec <= EncodeInstrs(p, b, k, e).bmcVec
    ensures EncodeInstrs(p, b, j, e).specVec <= EncodeInstrs(p, b, k, e).specVec
    ensures EncodeInstrs(p, b, j, e).assertBits <= EncodeInstrs(p, b, k, e).assertBits
  {
    hide EncodeInstr;
    if j < k {
      InstrsContinueFrom(p, b, j, k - 1, e);
      InstrContinues(p, b, p.blocks[b].instrs[k - 1], EncodeInstrs(p, b, k - 1, e));
    }
  }

  /** Terminators change neither path bits nor memory versions. */
  ghost predicate BitsAndMemorySame(e: Enc, e': Enc) {
    e'.pathBit == e.pathBit && e'.ary == e.ary && e'.glb == e.glb
  }

  lemma BranchContinues(b: nat, c: BoolOperand, e: Enc)
    ensures Continues(b, NONE, e, EncodeBranch(b, c, e)) && BitsAndMemorySame(e, EncodeBranch(b, c, e))
  {
    hide Continues;
    var (e1, t) := GetBool(e, c);
    GetBoolKeeps(b, NONE, e, c);
    EmitKeeps(b, NONE, e1, Iff(t, ExitOf(e1, b, 0)));
    ContinuesTrans(b, NONE, e, e1, EncodeBranch(b, c, e));
  }

  lemma SwitchContinues(b: nat, x: IntOperand, cases: seq<(int, nat)>, e: Enc)
    ensures Continues(b, NONE, e, EncodeSwitch(b, x, cases, e)) && BitsAndMemorySame(e, EncodeSwitch(b, x, cases, e))
  {
    hide Continues;
    var (e1, t) := GetInt(e, x);
    var xs := ExitsOf(e1, b);
    GetIntKeeps(b, NONE, e, x);
    if |xs| == |cases| + 1 {
      EmitsKeep(b, NONE, e1, SwitchCons(cases, t, xs) + [Iff(MkAnd(NoCase(cases, t)), xs[0])]);
      ContinuesTrans(b, NONE, e, e1, EncodeSwitch(b, x, cases, e));
    }
  }

  lemma ReturnContinues(b: nat, r: Option<IntOperand>, e: Enc)
    ensures Continues(b, NONE, e, EncodeReturn(r, e)) && BitsAndMemorySame(e, EncodeReturn(r, e))
  {
    hide Continues, Emit;
    ContinuesRefl(b, NONE, e);
    if r.Some? {
      var (e1, t) := GetInt(e, r.value);
      GetIntKeeps(b, NONE, e, r.value);
      EmitFreshKeeps(b, NONE, e1, Compare(Eq, IntVar(e1.nextInt), t), e1.nextInt + 1);
      ContinuesTrans(b, NONE, e, e1, EncodeReturn(r, e));
      EmitOnlyEmits(e1, Compare(Eq, IntVar(e1.nextInt), t));
    }
  }

  lemma EmitOnlyEmits(e: Enc, c: BoolTerm)
    ensures BitsAndMemorySame(e, Emit(e, c))
  {
  }

  lemma TermContinues(p: Program, b: nat, e: Enc)
    requires b < |p.blocks|
    ensures Continues(b, NONE, e, EncodeTerm(p, b, e)) && BitsAndMemorySame(e, EncodeTerm(p, b, e))
  {
    hide EncodeBranch, EncodeSwitch, EncodeReturn;
    match p.blocks[b].term
    case Jump(_) =>
    case Branch(c, _, _) => BranchContinues(b, c, e);
    case Switch(x, _, cases) => SwitchContinues(b, x, cases, e);
    case Return(r) => ReturnContinues(b, r, e);
    case Unreachable =>
  }

  lemma BlockContinues(p: Program, b: nat, e: Enc)
    requires EdgesOk(p) && b < |p.blocks|
    ensures Continues(b, Defs(p, b), e, EncodeBlock(p, b, e))
  {
    hide Continues;
    var e1 := EnterBlock(p, b, e);
    var e2 := EncodeInstrs(p, b, |p.blocks[b].instrs|, e1);
    EnterContinues(p, b, e);
    InstrsContinue(p, b, |p.blocks[b].instrs|, e1);
    TermContinues(p, b, e2);
    ContinuesWeaken(b, NONE, Defs(p, b), e, e1);
    ContinuesWeaken(b, NONE, Defs(p, b), e2, EncodeBlock(p, b, e));
    Chain(b, Defs(p, b), e, e1, e2, EncodeBlock(p, b, e));
  }

  /** Registers that blocks `b..c` define. */
  function DefsBetween(p: Program, b: nat, c: nat): Regs
    requires b <= c <= |p.blocks|
    decreases c
  {
    if b == c then NONE else Join(DefsBetween(p, b, c - 1), Defs(p, c - 1))
  }

  /** What stays fixed from the state after `b` blocks to the state after `c` blocks. */
  ghost predicate Settled(p: Program, b: nat, c: nat, e: Enc, e': Enc)
    requires b <= c <= |p.blocks|
  {
    && VecsGrow(e, e')
    && (forall q: nat | q < b || c <= q :: PathOf(e', q) == PathOf(e, q))
    && (forall q: nat | q < b :: AryOf(e', q) == AryOf(e, q) && GlbOf(e', q) == GlbOf(e, q))
    && TermsKept(DefsBetween(p, b, c), e, e')
  }

  lemma {:induction false} BlocksSettle(p: Program, b: nat, c: nat)
    requires EdgesOk(p) && b <= c <= |p.blocks|
    ensures Settled(p, b, c, EncodeBlocks(p, b), EncodeBlocks(p, c))
    decreases c
  {
    hide EncodeBlock, EncodeBlocks;
    if b < c {
      BlocksSettle(p, b, c - 1);
      OneMore(p, c);
      SettleStep(p, b, c, EncodeBlocks(p, b), EncodeBlocks(p, c - 1), EncodeBlocks(p, c));
    }
  }

  lemma OneMore(p: Program, c: nat)
    requires EdgesOk(p) && 0 < c <= |p.blocks|
    ensures EncodeBlocks(p, c) == EncodeBlock(p, c - 1, EncodeBlocks(p, c - 1))
    ensures Continues(c - 1, Defs(p, c - 1), EncodeBlocks(p, c - 1), EncodeBlocks(p, c))
  {
    hide EncodeBlock;
    BlockContinues(p, c - 1, EncodeBlocks(p, c - 1));
  }

  lemma SettleStep(p: Program, b: nat, c: nat, e: Enc, f: Enc, g: Enc)
    requires b < c <= |p.blocks| && Settled(p, b, c - 1, e, f) && Continues(c - 1, Defs(p, c - 1), f, g)
    ensures Settled(p, b, c, e, g)
  {
  }
}
