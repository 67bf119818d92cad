/** What the encoder emits, as a function of its state. */
module EncoderSpec {
  import opened Terms
  import opened Ir

  /** The encoder's state: term map, path and exit bits, per-block array and global versions, and output. */
  datatype Enc = Enc(
    intTerms: map<nat, IntTerm>, boolTerms: map<nat, BoolTerm>,
    pathBit: map<nat, BoolTerm>, exitBits: map<nat, seq<BoolTerm>>,
    ary: map<nat, seq<nat>>, glb: map<nat, seq<nat>>,
    bmcVec: seq<BoolTerm>, specVec: seq<BoolTerm>, assertBits: seq<BoolTerm>,
    nextInt: nat, nextArr: nat, nextExit: nat, nextBit: nat)

  const EMPTY := Enc(map[], map[], map[], map[], map[], map[], [], [], [], 0, 0, 0, 0)

  function Emit(e: Enc, c: BoolTerm): Enc { e.(bmcVec := e.bmcVec + [c]) }

  // ----- reading the state -----

  function PathOf(e: Enc, b: nat): BoolTerm { if b in e.pathBit then e.pathBit[b] else BoolLit(false) }

  function ExitsOf(e: Enc, b: nat): seq<BoolTerm> { if b in e.exitBits then e.exitBits[b] else [] }

  /** `get_exit_bit`: an empty vector stands for "always". */
  function ExitOf(e: Enc, b: nat, i: nat): BoolTerm {
    if i < |ExitsOf(e, b)| then ExitsOf(e, b)[i] else BoolLit(true)
  }

  /** `extend_path`: control passed `q` and left it towards `b`. */
  function EdgeCond(p: Program, e: Enc, q: nat, b: nat): BoolTerm
    requires q < |p.blocks| && b in Succs(p.blocks[q].term)
  {
    Conj([PathOf(e, q), ExitOf(e, q, SuccIndex(Succs(p.blocks[q].term), b))])
  }

  function AryOf(e: Enc, b: nat): seq<nat> { if b in e.ary then e.ary[b] else [] }
  function GlbOf(e: Enc, b: nat): seq<nat> { if b in e.glb then e.glb[b] else [] }
  function NameAt(names: seq<nat>, a: nat): nat { if a < |names| then names[a] else 0 }

  // ----- terms of operands -----

  /** `get_term`: constants directly, known registers from the map, unknown ones under a fresh name. */
  function GetInt(e: Enc, o: IntOperand): (Enc, IntTerm) {
    match o
    case IConst(n) => (e, IntLit(n))
    case IReg(r) =>
      if r in e.intTerms then (e, e.intTerms[r])
      else (e.(intTerms := e.intTerms[r := IntVar(e.nextInt)], nextInt := e.nextInt + 1), IntVar(e.nextInt))
  }

  function GetBool(e: Enc, o: BoolOperand): (Enc, BoolTerm) {
    match o
    case BConst(b) => (e, BoolLit(b))
    case BReg(r) =>
      if r in e.boolTerms then (e, e.boolTerms[r])
      else (e.(boolTerms := e.boolTerms[r := BoolVar(BitName(e.nextBit))], nextBit := e.nextBit + 1),
            BoolVar(BitName(e.nextBit)))
  }

  /** `get_earlier_term` with one version per register (the tool stops on an unknown one). */
  function EarlierInt(e: Enc, o: IntOperand): IntTerm {
    match o
    case IConst(n) => IntLit(n)
    case IReg(r) => if r in e.intTerms then e.intTerms[r] else IntLit(0)
  }

  function EarlierBool(e: Enc, o: BoolOperand): BoolTerm {
    match o
    case BConst(b) => BoolLit(b)
    case BReg(r) => if r in e.boolTerms then e.boolTerms[r] else BoolLit(false)
  }

  // ----- before the blocks -----

  function ParamsInt(e: Enc, ps: seq<nat>, k: nat): Enc
    requires k <= |ps|
  {
    if k == 0 then e else GetInt(ParamsInt(e, ps, k - 1), IReg(ps[k - 1])).0
  }

  function ParamsBool(e: Enc, ps: seq<nat>, k: nat): Enc
    requires k <= |ps|
  {
    if k == 0 then e else GetBool(ParamsBool(e, ps, k - 1), BReg(ps[k - 1])).0
  }

  /** Fresh names for the entry's arrays and globals, and terms for the parameters. */
  function InitMemory(p: Program, e: Enc): Enc {
    e.(ary := e.ary[0 := seq(p.nArrays, i requires 0 <= i < p.nArrays => e.nextArr + i)],
       nextArr := e.nextArr + p.nArrays,
       glb := e.glb[0 := seq(|p.glbInit|, i requires 0 <= i < |p.glbInit| => e.nextInt + i)],
       nextInt := e.nextInt + |p.glbInit|)
  }

  function InitParams(p: Program, e: Enc): Enc {
    ParamsBool(ParamsInt(e, p.intParams, |p.intParams|), p.boolParams, |p.boolParams|)
  }

  function FreshExits(next: nat, k: nat): (r: seq<BoolTerm>)
    ensures |r| == k
  {
    if k == 1 then [BoolLit(true)]
    else if k == 2 then [BoolVar(ExitName(next)), Not(BoolVar(ExitName(next)))]
    else seq(k, i requires 0 <= i < k => BoolVar(ExitName(next + i)))
  }

  function ExitCount(k: nat): nat { if k <= 1 then 0 else if k == 2 then 1 else k }

  /** One block's exit bits and path bit; with three or more successors one of them must be taken. */
  function InitBlockBits(p: Program, b: nat, e: Enc): Enc
    requires b < |p.blocks|
  {
    var k := |Succs(p.blocks[b].term)|;
    var xs := FreshExits(e.nextExit, k);
    var e1 := if k >= 3 then Emit(e, MkOr(xs)) else e;
    e1.(exitBits := e1.exitBits[b := xs], nextExit := e1.nextExit + ExitCount(k),
        pathBit := e1.pathBit[b := BoolVar(BitName(e1.nextBit))], nextBit := e1.nextBit + 1)
  }

  function InitBits(p: Program, b: nat, e: Enc): Enc
    requires b <= |p.blocks|
  {
    if b == 0 then e else InitBlockBits(p, b - 1, InitBits(p, b - 1, e))
  }

  function Prepare(p: Program): Enc {
    var e := InitBits(p, |p.blocks|, InitParams(p, InitMemory(p, EMPTY)));
    e.(pathBit := e.pathBit[0 := BoolLit(true)])
  }

  // ----- joins -----

  datatype Kind = Arrays | Globals

  function NameEq(k: Kind, x: nat, y: nat): BoolTerm {
    match k
    case Arrays => ArrEq(x, y)
    case Globals => Compare(Eq, IntVar(x), IntVar(y))
  }

  datatype Joined = Joined(names: seq<nat>, cons: seq<BoolTerm>, next: nat)

  predicate AllSame(vecs: seq<seq<nat>>, j: nat)
    requires |vecs| > 0
  {
    forall i | 0 <= i < |vecs| :: NameAt(vecs[i], j) == NameAt(vecs[0], j)
  }

  function JoinCons(k: Kind, vecs: seq<seq<nat>>, conds: seq<BoolTerm>, j: nat, x: nat): (r: seq<BoolTerm>)
    requires |vecs| == |conds|
    ensures |r| == |conds|
  {
    seq(|conds|, i requires 0 <= i < |conds| => Implies(conds[i], NameEq(k, x, NameAt(vecs[i], j))))
  }

  /** Versions `0..size` at a join: a name all predecessors share is kept, otherwise a guarded fresh one. */
  function JoinUpTo(k: Kind, vecs: seq<seq<nat>>, conds: seq<BoolTerm>, size: nat, next: nat): (r: Joined)
    requires |vecs| == |conds| > 0
    ensures |r.names| == size && r.next >= next
  {
    if size == 0 then Joined([], [], next)
    else
      var m := JoinUpTo(k, vecs, conds, size - 1, next);
      if AllSame(vecs, size - 1) then m.(names := m.names + [NameAt(vecs[0], size - 1)])
      else Joined(m.names + [m.next], m.cons + JoinCons(k, vecs, conds, size - 1, m.next), m.next + 1)
  }

  function Incoming(p: Program, e: Enc, b: nat): (r: seq<BoolTerm>)
    requires EdgesOk(p) && b < |p.blocks|
    ensures |r| == |p.preds[b]|
    ensures forall i | 0 <= i < |r| :: IsPred(p, p.preds[b][i], b) && r[i] == EdgeCond(p, e, p.preds[b][i], b)
  {
    assert forall i | 0 <= i < |p.preds[b]| :: IsPred(p, p.preds[b][i], b);
    seq(|p.preds[b]|, i requires 0 <= i < |p.preds[b]| => EdgeCond(p, e, p.preds[b][i], b))
  }

  function VecsOf(m: map<nat, seq<nat>>, qs: seq<nat>): (r: seq<seq<nat>>)
    ensures |r| == |qs|
    ensures forall i | 0 <= i < |r| :: r[i] == if qs[i] in m then m[qs[i]] else []
  {
    seq(|qs|, i requires 0 <= i < |qs| => if qs[i] in m then m[qs[i]] else [])
  }

  function JoinArrays(p: Program, b: nat, conds: seq<BoolTerm>, e: Enc): Enc
    requires b < |p.preds| && |conds| == |p.preds[b]| > 0
  {
    var j := JoinUpTo(Arrays, VecsOf(e.ary, p.preds[b]), conds, p.nArrays, e.nextArr);
    Emit(e.(ary := e.ary[b := j.names], nextArr := j.next), MkAnd(j.cons))
  }

  function JoinGlobals(p: Program, b: nat, conds: seq<BoolTerm>, e: Enc): Enc
    requires b < |p.preds| && |conds| == |p.preds[b]| > 0
  {
    var j := JoinUpTo(Globals, VecsOf(e.glb, p.preds[b]), conds, |p.glbInit|, e.nextInt);
    Emit(e.(glb := e.glb[b := j.names], nextInt := j.next), MkAnd(j.cons))
  }

  /** The constraints `do_bmc` emits before translating block `b`. */
  function EnterBlock(p: Program, b: nat, e: Enc): Enc
    requires EdgesOk(p) && b < |p.blocks|
  {
    if b == 0 then Emit(e, PathOf(e, 0))
    else
      var conds := Incoming(p, e, b);
      JoinGlobals(p, b, conds, JoinArrays(p, b, conds, Emit(e, Implies(PathOf(e, b), MkOr(conds)))))
  }

  // ----- instructions -----

  /** Guards and sources of a phi, in the order of its incoming list. */
  function PhiIntCons(p: Program, e: Enc, b: nat, x: nat, ins: seq<(nat, IntOperand)>, k: nat): seq<BoolTerm>
    requires EdgesOk(p) && b < |p.blocks| && k <= |ins|
  {
    if k == 0 then []
    else
      var rest := PhiIntCons(p, e, b, x, ins, k - 1);
      var q := ins[k - 1].0;
      if IsPred(p, q, b)
      then rest + [Implies(EdgeCond(p, e, q, b), Compare(Eq, IntVar(x), EarlierInt(e, ins[k - 1].1)))]
      else rest
  }

  function PhiBoolCons(p: Program, e: Enc, b: nat, x: nat, ins: seq<(nat, BoolOperand)>, k: nat): seq<BoolTerm>
    requires EdgesOk(p) && b < |p.blocks| && k <= |ins|
  {
    if k == 0 then []
    else
      var rest := PhiBoolCons(p, e, b, x, ins, k - 1);
      var q := ins[k - 1].0;
      if IsPred(p, q, b)
      then rest + [Implies(EdgeCond(p, e, q, b), Iff(BoolVar(BitName(x)), EarlierBool(e, ins[k - 1].1)))]
      else rest
  }

  function SetInt(e: Enc, d: nat, t: IntTerm): Enc { e.(intTerms := e.intTerms[d := t]) }
  function SetBool(e: Enc, d: nat, t: BoolTerm): Enc { e.(boolTerms := e.boolTerms[d := t]) }

  function EncodePhiInt(p: Program, b: nat, d: nat, ins: seq<(nat, IntOperand)>, e: Enc): Enc
    requires EdgesOk(p) && b < |p.blocks|
  {
    var x := e.nextInt;
    var e1 := SetInt(e, d, IntVar(x)).(nextInt := x + 1);
    Emit(e1, MkAnd(PhiIntCons(p, e1, b, x, ins, |ins|)))
  }

  function EncodePhiBool(p: Program, b: nat, d: nat, ins: seq<(nat, BoolOperand)>, e: Enc): Enc
    requires EdgesOk(p) && b < |p.blocks|
  {
    var x := e.nextBit;
    var e1 := SetBool(e, d, BoolVar(BitName(x))).(nextBit := x + 1);
    Emit(e1, MkAnd(PhiBoolCons(p, e1, b, x, ins, |ins|)))
  }

  /** The path bit of `b` is replaced by a fresh bit that also demands the assumed condition. */
  function EncodeAssume(b: nat, c: BoolOperand, e: Enc): Enc {
    var (e1, t) := GetBool(e, c);
    var bit := BoolVar(BitName(e1.nextBit));
    Emit(e1.(pathBit := e1.pathBit[b := bit], nextBit := e1.nextBit + 1), Iff(bit, Conj([PathOf(e, b), t])))
  }

  function AddSpec(b: nat, t: BoolTerm, e: Enc): Enc {
    e.(specVec := e.specVec + [Disj([Not(PathOf(e, b)), t])], assertBits := e.assertBits + [PathOf(e, b)])
  }

  function EncodeStore(b: nat, a: nat, idx: IntOperand, val: IntOperand, e: Enc): Enc {
    var (e1, i) := GetInt(e, idx);
    var (e2, x) := GetInt(e1, val);
    var names := AryOf(e2, b);
    var names' := if a < |names| then names[a := e2.nextArr] else names;
    Emit(e2.(ary := e2.ary[b := names'], nextArr := e2.nextArr + 1), ArrStore(e2.nextArr, NameAt(names, a), i, x))
  }

  function EncodeStoreGlb(b: nat, g: nat, val: IntOperand, e: Enc): Enc {
    var (e1, x) := GetInt(e, val);
    var names := GlbOf(e1, b);
    var names' := if g < |names| then names[g := e1.nextInt] else names;
    Emit(e1.(glb := e1.glb[b := names'], nextInt := e1.nextInt + 1), Compare(Eq, IntVar(e1.nextInt), x))
  }

  function EncodeInstr(p: Program, b: nat, i: Instr, e: Enc): Enc
    requires EdgesOk(p) && b < |p.blocks|
  {
    match i
    case IntBin(d, op, x, y) =>
      var (e1, s) := GetInt(e, x); var (e2, t) := GetInt(e1, y);
      SetInt(e2, d, Arith(op, s, t))
    case BoolBin(d, op, x, y) =>
      var (e1, s) := GetBool(e, x); var (e2, t) := GetBool(e1, y);
      SetBool(e2, d, Logic(op, s, t))
    case Cmp(d, op, x, y) =>
      var (e1, s) := GetInt(e, x); var (e2, t) := GetInt(e1, y);
      SetBool(e2, d, Compare(op, s, t))
    case PhiInt(d, ins) => EncodePhiInt(p, b, d, ins, e)
    case PhiBool(d, ins) => EncodePhiBool(p, b, d, ins, e)
    case NondetInt(d) =>
      if d in e.intTerms then e else SetInt(e, d, IntVar(e.nextInt)).(nextInt := e.nextInt + 1)
    case NondetBool(d) => SetBool(e, d, BoolVar(BitName(e.nextBit))).(nextBit := e.nextBit + 1)
    case Assume(c) => EncodeAssume(b, c, e)
    case AssertBool(c) => var (e1, t) := GetBool(e, c); AddSpec(b, t, e1)
    case AssertInt(x) => var (e1, t) := GetInt(e, x); AddSpec(b, Compare(Ne, t, IntLit(0)), e1)
    case Load(d, a, idx) =>
      var (e1, t) := GetInt(e, idx);
      SetInt(e1, d, Select(NameAt(AryOf(e1, b), a), t))
    case Store(a, idx, val) => EncodeStore(b, a, idx, val, e)
    case LoadGlb(d, g) => SetInt(e, d, IntVar(NameAt(GlbOf(e, b), g)))
    case StoreGlb(g, val) => EncodeStoreGlb(b, g, val, e)
  }

  function EncodeInstrs(p: Program, b: nat, k: nat, e: Enc): Enc
    requires EdgesOk(p) && b < |p.blocks| && k <= |p.blocks[b].instrs|
  {
    if k == 0 then e else EncodeInstr(p, b, p.blocks[b].instrs[k - 1], EncodeInstrs(p, b, k - 1, e))
  }

  // ----- terminators -----

  function CaseTerm(x: int, t: IntTerm): BoolTerm { Compare(Eq, IntLit(x), t) }

  /** `case i taken` iff its value is the scrutinee. */
  function SwitchCons(cases: seq<(int, nat)>, t: IntTerm, xs: seq<BoolTerm>): (r: seq<BoolTerm>)
    requires |xs| == |cases| + 1
    ensures |r| == |cases|
  {
    seq(|cases|, i requires 0 <= i < |cases| => Iff(CaseTerm(cases[i].0, t), xs[i + 1]))
  }

  function NoCase(cases: seq<(int, nat)>, t: IntTerm): (r: seq<BoolTerm>)
    ensures |r| == |cases|
  {
    seq(|cases|, i requires 0 <= i < |cases| => Not(CaseTerm(cases[i].0, t)))
  }

  function EncodeBranch(b: nat, c: BoolOperand, e: Enc): Enc {
    var (e1, t) := GetBool(e, c);
    Emit(e1, Iff(t, ExitOf(e1, b, 0)))
  }

  function EncodeSwitch(b: nat, x: IntOperand, cases: seq<(int, nat)>, e: Enc): Enc {
    var (e1, t) := GetInt(e, x);
    var xs := ExitsOf(e1, b);
    if |xs| != |cases| + 1 then e1
    else e1.(bmcVec := e1.bmcVec + (SwitchCons(cases, t, xs) + [Iff(MkAnd(NoCase(cases, t)), xs[0])]))
  }

  function EncodeReturn(r: Option<IntOperand>, e: Enc): Enc {
    if r.None? then e
    else
      var (e1, t) := GetInt(e, r.value);
      Emit(e1, Compare(Eq, IntVar(e1.nextInt), t)).(nextInt := e1.nextInt + 1)
  }

  function EncodeTerm(p: Program, b: nat, e: Enc): Enc
    requires b < |p.blocks|
  {
    match p.blocks[b].term
    case Jump(_) => e
    case Branch(c, _, _) => EncodeBranch(b, c, e)
    case Switch(x, _, cases) => EncodeSwitch(b, x, cases, e)
    case Return(r) => EncodeReturn(r, e)
    case Unreachable => e.(specVec := e.specVec + [Not(PathOf(e, b))])
  }

  function EncodeBlock(p: Program, b: nat, e: Enc): Enc
    requires EdgesOk(p) && b < |p.blocks|
  {
    EncodeTerm(p, b, EncodeInstrs(p, b, |p.blocks[b].instrs|, EnterBlock(p, b, e)))
  }

  function EncodeBlocks(p: Program, b: nat): Enc
    requires EdgesOk(p) && b <= |p.blocks|
  {
    if b == 0 then Prepare(p) else EncodeBlock(p, b - 1, EncodeBlocks(p, b - 1))
  }

  /** Definitions of the initialised globals, over their entry names. */
  function GlbDefs(p: Program, names: seq<nat>, k: nat): seq<BoolTerm>
    requires k <= |p.glbInit|
  {
    if k == 0 then []
    else GlbDefs(p, names, k - 1) +
         if p.glbInit[k - 1].Some? then [Compare(Eq, IntVar(NameAt(names, k - 1)), IntLit(p.glbInit[k - 1].value))]
         else []
  }

  function EntryNames(p: Program): seq<nat> { AryOf(Prepare(p), 0) }
  function EntryGlobals(p: Program): seq<nat> { GlbOf(Prepare(p), 0) }

  /** `do_bmc`: all blocks, the global definitions in front, and "some assertion is reached" at the end. */
  function Encode(p: Program): Enc
    requires EdgesOk(p)
  {
    var e := EncodeBlocks(p, |p.blocks|);
    e.(bmcVec := GlbDefs(p, EntryGlobals(p), |p.glbInit|) + e.bmcVec + [MkOr(e.assertBits)])
  }
}
