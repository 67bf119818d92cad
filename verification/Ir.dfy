/** The block-level program the encoder reads, and how it runs. */
module Ir {
  import opened Terms

  datatype Option<+T> = None | Some(value: T)

  datatype IntOperand = IConst(n: int) | IReg(r: nat)
  datatype BoolOperand = BConst(b: bool) | BReg(r: nat)

  datatype Instr =
    | IntBin(dst: nat, iop: IntOp, x: IntOperand, y: IntOperand)
    | BoolBin(dst: nat, bop: BoolOp, p: BoolOperand, q: BoolOperand)
    | Cmp(dst: nat, pred: CmpPred, x: IntOperand, y: IntOperand)
    | PhiInt(dst: nat, ins: seq<(nat, IntOperand)>)
    | PhiBool(dst: nat, bins: seq<(nat, BoolOperand)>)
    | NondetInt(dst: nat)
    | NondetBool(dst: nat)
    | Assume(p: BoolOperand)
    | AssertBool(p: BoolOperand)
    | AssertInt(x: IntOperand)
    | Load(dst: nat, arr: nat, idx: IntOperand)
    | Store(arr: nat, idx: IntOperand, val: IntOperand)
    | LoadGlb(dst: nat, g: nat)
    | StoreGlb(g: nat, val: IntOperand)

  datatype Terminator =
    | Jump(target: nat)
    | Branch(cond: BoolOperand, onTrue: nat, onFalse: nat)
    | Switch(scrut: IntOperand, default: nat, cases: seq<(int, nat)>)
    | Return(ret: Option<IntOperand>)
    | Unreachable

  datatype Block = Block(instrs: seq<Instr>, term: Terminator)

  /** `blocks` is the topologically sorted block vector, `preds` the predecessor indices kept by
      `setup_prevs_non_repeating` (back edges are not among them). */
  datatype Program = Program(
    blocks: seq<Block>, preds: seq<seq<nat>>, nArrays: nat, glbInit: seq<Option<int>>,
    intParams: seq<nat>, boolParams: seq<nat>)

  function CaseTargets(cases: seq<(int, nat)>): (r: seq<nat>)
    ensures |r| == |cases| && forall i | 0 <= i < |r| :: r[i] == cases[i].1
  {
    seq(|cases|, i requires 0 <= i < |cases| => cases[i].1)
  }

  function Succs(t: Terminator): seq<nat> {
    match t
    case Jump(b) => [b]
    case Branch(_, b, c) => [b, c]
    case Switch(_, d, cases) => [d] + CaseTargets(cases)
    case Return(_) => []
    case Unreachable => []
  }

  /** llvmUtils' getSuccessorIndex: the first position of `b` among the successors. */
  function SuccIndex(ss: seq<nat>, b: nat): (i: nat)
    requires b in ss
    ensures i < |ss| && ss[i] == b && b !in ss[..i]
  {
    if ss[0] == b then 0 else 1 + SuccIndex(ss[1..], b)
  }

  // ----- registers -----

  datatype Regs = Regs(ints: set<nat>, bools: set<nat>)

  function Join(a: Regs, b: Regs): Regs { Regs(a.ints + b.ints, a.bools + b.bools) }
  predicate Disjoint(a: Regs, b: Regs) { a.ints !! b.ints && a.bools !! b.bools }
  predicate Subregs(a: Regs, b: Regs) { a.ints <= b.ints && a.bools <= b.bools }

  function Def(i: Instr): Regs {
    match i
    case IntBin(d, _, _, _) => Regs({d}, {})
    case BoolBin(d, _, _, _) => Regs({}, {d})
    case Cmp(d, _, _, _) => Regs({}, {d})
    case PhiInt(d, _) => Regs({d}, {})
    case PhiBool(d, _) => Regs({}, {d})
    case NondetInt(d) => Regs({d}, {})
    case NondetBool(d) => Regs({}, {d})
    case Load(d, _, _) => Regs({d}, {})
    case LoadGlb(d, _) => Regs({d}, {})
    case _ => Regs({}, {})
  }

  predicate IntUse(o: IntOperand, d: Regs) { o.IReg? ==> o.r in d.ints }
  predicate BoolUse(o: BoolOperand, d: Regs) { o.BReg? ==> o.r in d.bools }

  predicate UsesIn(i: Instr, d: Regs) {
    match i
    case IntBin(_, _, x, y) => IntUse(x, d) && IntUse(y, d)
    case BoolBin(_, _, x, y) => BoolUse(x, d) && BoolUse(y, d)
    case Cmp(_, _, x, y) => IntUse(x, d) && IntUse(y, d)
    case Assume(x) => BoolUse(x, d)
    case AssertBool(x) => BoolUse(x, d)
    case AssertInt(x) => IntUse(x, d)
    case Load(_, _, idx) => IntUse(idx, d)
    case Store(_, idx, val) => IntUse(idx, d) && IntUse(val, d)
    case StoreGlb(_, val) => IntUse(val, d)
    case _ => true
  }

  predicate TermUsesIn(t: Terminator, d: Regs) {
    match t
    case Branch(c, _, _) => BoolUse(c, d)
    case Switch(s, _, _) => IntUse(s, d)
    case Return(r) => r.Some? ==> IntUse(r.value, d)
    case _ => true
  }

  function DefsUpTo(instrs: seq<Instr>, k: nat): Regs
    requires k <= |instrs|
  {
    if k == 0 then Regs({}, {}) else Join(DefsUpTo(instrs, k - 1), Def(instrs[k - 1]))
  }

  function Defs(p: Program, b: nat): Regs
    requires b < |p.blocks|
  {
    DefsUpTo(p.blocks[b].instrs, |p.blocks[b].instrs|)
  }

  // ----- execution -----

  /** What the program cannot choose: parameters and nondet results by register, and the initial memory. */
  datatype Inputs = Inputs(ints: nat -> int, bools: nat -> bool, arrs: seq<int -> int>, glbs: seq<int>)

  /** `ok` turns false at the first failing assume; nothing after that counts as executed. */
  datatype State = State(ints: map<nat, int>, bools: map<nat, bool>, arrs: seq<int -> int>, glbs: seq<int>, ok: bool)

  function ReadInt(o: IntOperand, s: State): int {
    match o
    case IConst(n) => n
    case IReg(r) => if r in s.ints then s.ints[r] else 0
  }

  predicate ReadBool(o: BoolOperand, s: State) {
    match o
    case BConst(b) => b
    case BReg(r) => r in s.bools && s.bools[r]
  }

  function IntIncoming(ins: seq<(nat, IntOperand)>, from: nat): IntOperand {
    if |ins| == 0 then IConst(0) else if ins[0].0 == from then ins[0].1 else IntIncoming(ins[1..], from)
  }

  function BoolIncoming(ins: seq<(nat, BoolOperand)>, from: nat): BoolOperand {
    if |ins| == 0 then BConst(false) else if ins[0].0 == from then ins[0].1 else BoolIncoming(ins[1..], from)
  }

  function UpdArr(a: int -> int, i: int, x: int): int -> int {
    k => if k == i then x else a(k)
  }

  /** One instruction of a block entered from `from` in state `entry`; phis read the edge's values. */
  function ExecInstr(inp: Inputs, from: nat, entry: State, i: Instr, s: State): State {
    match i
    case IntBin(d, op, x, y) => s.(ints := s.ints[d := ApplyInt(op, ReadInt(x, s), ReadInt(y, s))])
    case BoolBin(d, op, x, y) => s.(bools := s.bools[d := ApplyBool(op, ReadBool(x, s), ReadBool(y, s))])
    case Cmp(d, op, x, y) => s.(bools := s.bools[d := ApplyCmp(op, ReadInt(x, s), ReadInt(y, s))])
    case PhiInt(d, ins) => s.(ints := s.ints[d := ReadInt(IntIncoming(ins, from), entry)])
    case PhiBool(d, ins) => s.(bools := s.bools[d := ReadBool(BoolIncoming(ins, from), entry)])
    case NondetInt(d) => s.(ints := s.ints[d := inp.ints(d)])
    case NondetBool(d) => s.(bools := s.bools[d := inp.bools(d)])
    case Assume(x) => s.(ok := s.ok && ReadBool(x, s))
    case AssertBool(_) => s
    case AssertInt(_) => s
    case Load(d, a, idx) =>
      s.(ints := s.ints[d := if a < |s.arrs| then s.arrs[a](ReadInt(idx, s)) else 0])
    case Store(a, idx, val) =>
      if a < |s.arrs| then s.(arrs := s.arrs[a := UpdArr(s.arrs[a], ReadInt(idx, s), ReadInt(val, s))]) else s
    case LoadGlb(d, g) => s.(ints := s.ints[d := if g < |s.glbs| then s.glbs[g] else 0])
    case StoreGlb(g, val) => if g < |s.glbs| then s.(glbs := s.glbs[g := ReadInt(val, s)]) else s
  }

  datatype Visit = Visit(b: nat, from: nat, entry: State)

  /** State after the first `k` instructions of the visited block. */
  function StateAt(p: Program, inp: Inputs, v: Visit, k: nat): State
    requires v.b < |p.blocks| && k <= |p.blocks[v.b].instrs|
  {
    if k == 0 then v.entry
    else ExecInstr(inp, v.from, v.entry, p.blocks[v.b].instrs[k - 1], StateAt(p, inp, v, k - 1))
  }

  function ExitState(p: Program, inp: Inputs, v: Visit): State
    requires v.b < |p.blocks|
  {
    StateAt(p, inp, v, |p.blocks[v.b].instrs|)
  }

  function CaseIndex(cases: seq<(int, nat)>, x: int): (i: nat)
    ensures i <= |cases|
    ensures i < |cases| ==> cases[i].0 == x
    ensures forall j | 0 <= j < i :: cases[j].0 != x
  {
    if |cases| == 0 || cases[0].0 == x then 0 else 1 + CaseIndex(cases[1..], x)
  }

  /** Position, among the successors, of the one control goes to. */
  function Taken(t: Terminator, s: State): (i: nat)
    ensures |Succs(t)| > 0 ==> i < |Succs(t)|
  {
    match t
    case Branch(c, _, _) => if ReadBool(c, s) then 0 else 1
    case Switch(x, _, cases) =>
      var i := CaseIndex(cases, ReadInt(x, s));
      if i < |cases| then i + 1 else 0
    case _ => 0
  }

  /** The next block, if control stays inside the acyclic region. */
  function Next(p: Program, b: nat, s: State): Option<nat>
    requires b < |p.blocks|
  {
    var t := p.blocks[b].term;
    if !s.ok || |Succs(t)| == 0 then None
    else
      var c := Succs(t)[Taken(t, s)];
      if b < c < |p.blocks| then Some(c) else None
  }

  function RunFrom(p: Program, inp: Inputs, v: Visit): (r: seq<Visit>)
    requires v.b < |p.blocks|
    ensures |r| > 0 && r[0] == v
    ensures forall i | 0 <= i < |r| :: v.b <= r[i].b < |p.blocks|
    decreases |p.blocks| - v.b
  {
    var s := ExitState(p, inp, v);
    match Next(p, v.b, s)
    case None => [v]
    case Some(c) => [v] + RunFrom(p, inp, Visit(c, v.b, s))
  }

  function InitState(p: Program, inp: Inputs): State {
    State(map r | r in p.intParams :: inp.ints(r), map r | r in p.boolParams :: inp.bools(r), inp.arrs, inp.glbs, true)
  }

  function Run(p: Program, inp: Inputs): (r: seq<Visit>)
    requires |p.blocks| > 0
    ensures |r| > 0 && r[0] == Visit(0, 0, InitState(p, inp))
    ensures forall i | 0 <= i < |r| :: r[i].b < |p.blocks|
  {
    RunFrom(p, inp, Visit(0, 0, InitState(p, inp)))
  }

  /** The visit `v` fails at its `k`-th instruction, an assertion, or at its terminator. */
  predicate FailsAt(p: Program, inp: Inputs, v: Visit, k: nat)
    requires v.b < |p.blocks|
  {
    var code := p.blocks[v.b].instrs;
    k <= |code| && StateAt(p, inp, v, k).ok &&
    if k == |code| then p.blocks[v.b].term.Unreachable?
    else match code[k]
         case AssertBool(x) => !ReadBool(x, StateAt(p, inp, v, k))
         case AssertInt(x) => ReadInt(x, StateAt(p, inp, v, k)) == 0
         case _ => false
  }

  predicate IsAssert(i: Instr) { i.AssertBool? || i.AssertInt? }

  /** The visit `v` arrives at the assertion at position `k`. */
  predicate AssertsAt(p: Program, inp: Inputs, v: Visit, k: nat)
    requires v.b < |p.blocks|
  {
    k < |p.blocks[v.b].instrs| && IsAssert(p.blocks[v.b].instrs[k]) && StateAt(p, inp, v, k).ok
  }

  ghost predicate Violates(p: Program, inp: Inputs)
    requires |p.blocks| > 0
  {
    exists i, k: nat :: 0 <= i < |Run(p, inp)| && FailsAt(p, inp, Run(p, inp)[i], k)
  }

  ghost predicate ReachesAssert(p: Program, inp: Inputs)
    requires |p.blocks| > 0
  {
    exists i, k: nat :: 0 <= i < |Run(p, inp)| && AssertsAt(p, inp, Run(p, inp)[i], k)
  }

  ghost predicate HasAssert(p: Program) {
    exists b, k :: 0 <= b < |p.blocks| && 0 <= k < |p.blocks[b].instrs| && IsAssert(p.blocks[b].instrs[k])
  }

  /** Initialised globals start with their initial value. */
  ghost predicate InputsFit(p: Program, inp: Inputs) {
    && |inp.arrs| == p.nArrays && |inp.glbs| == |p.glbInit|
    && forall g | 0 <= g < |p.glbInit| && p.glbInit[g].Some? :: inp.glbs[g] == p.glbInit[g].value
  }

  // ----- well-formed programs (what LLVM's verifier and the block ordering give) -----

  predicate IsPred(p: Program, q: nat, b: nat) {
    b < |p.preds| && q in p.preds[b]
  }

  ghost predicate EdgesOk(p: Program) {
    && |p.blocks| > 0 && |p.preds| == |p.blocks| && p.preds[0] == []
    && (forall b | 0 < b < |p.blocks| :: p.preds[b] != [])
    && (forall q: nat, b: nat | IsPred(p, q, b) :: q < b && b in Succs(p.blocks[q].term))
    && (forall q, c | 0 <= q < c < |p.blocks| && c in Succs(p.blocks[q].term) :: IsPred(p, q, c))
  }

  /** Successors of a block are pairwise different, and so are the case values of a switch. */
  ghost predicate SuccsDistinct(p: Program) {
    && (forall b, i, j | 0 <= b < |p.blocks| && 0 <= i < j < |Succs(p.blocks[b].term)| ::
          Succs(p.blocks[b].term)[i] != Succs(p.blocks[b].term)[j])
    && (forall b, i, j | 0 <= b < |p.blocks| && p.blocks[b].term.Switch? && 0 <= i < j < |p.blocks[b].term.cases| ::
          p.blocks[b].term.cases[i].0 != p.blocks[b].term.cases[j].0)
  }

  predicate IndexOk(p: Program, i: Instr) {
    match i
    case Load(_, a, _) => a < p.nArrays
    case Store(a, _, _) => a < p.nArrays
    case LoadGlb(_, g) => g < |p.glbInit|
    case StoreGlb(g, _) => g < |p.glbInit|
    case _ => true
  }

  function DomOut(p: Program, dom: seq<Regs>, b: nat): Regs
    requires b < |p.blocks| && |dom| == |p.blocks|
  {
    Join(dom[b], Defs(p, b))
  }

  function DomAt(p: Program, dom: seq<Regs>, b: nat, k: nat): Regs
    requires b < |p.blocks| && |dom| == |p.blocks| && k <= |p.blocks[b].instrs|
  {
    Join(dom[b], DefsUpTo(p.blocks[b].instrs, k))
  }

  /** Each phi has exactly one entry per predecessor, available at that predecessor's end. */
  ghost predicate PhiOk(p: Program, dom: seq<Regs>, b: nat, i: Instr)
    requires b < |p.blocks| && EdgesOk(p) && |dom| == |p.blocks|
  {
    match i
    case PhiInt(_, ins) =>
      && b > 0
      && (forall j, l | 0 <= j < l < |ins| :: ins[j].0 != ins[l].0)
      && (forall q: nat | IsPred(p, q, b) :: exists j :: 0 <= j < |ins| && ins[j].0 == q)
      && (forall j | 0 <= j < |ins| :: IsPred(p, ins[j].0, b) && IntUse(ins[j].1, DomOut(p, dom, ins[j].0)))
    case PhiBool(_, ins) =>
      && b > 0
      && (forall j, l | 0 <= j < l < |ins| :: ins[j].0 != ins[l].0)
      && (forall q: nat | IsPred(p, q, b) :: exists j :: 0 <= j < |ins| && ins[j].0 == q)
      && (forall j | 0 <= j < |ins| :: IsPred(p, ins[j].0, b) && BoolUse(ins[j].1, DomOut(p, dom, ins[j].0)))
    case _ => true
  }

  /** Every register has one definition, and `dom[b]` are registers whose definition dominates block `b`. */
  ghost predicate SsaOk(p: Program, dom: seq<Regs>)
    requires EdgesOk(p)
  {
    && |dom| == |p.blocks|
    && Subregs(dom[0], Regs(set r | r in p.intParams, set r | r in p.boolParams))
    && (forall q: nat, b: nat | IsPred(p, q, b) :: Subregs(dom[b], DomOut(p, dom, q)))
    && (forall b, c | 0 <= b <= c < |p.blocks| :: Disjoint(dom[b], Defs(p, c)))
    && (forall b, c | 0 <= b < c < |p.blocks| :: Disjoint(Defs(p, b), Defs(p, c)))
    && (forall b | 0 <= b < |p.blocks| ::
          Disjoint(Regs(set r | r in p.intParams, set r | r in p.boolParams), Defs(p, b)))
    && (forall b, k | 0 <= b < |p.blocks| && 0 <= k < |p.blocks[b].instrs| ::
          && UsesIn(p.blocks[b].instrs[k], DomAt(p, dom, b, k))
          && Disjoint(DefsUpTo(p.blocks[b].instrs, k), Def(p.blocks[b].instrs[k]))
          && PhiOk(p, dom, b, p.blocks[b].instrs[k])
          && IndexOk(p, p.blocks[b].instrs[k]))
    && (forall b | 0 <= b < |p.blocks| :: TermUsesIn(p.blocks[b].term, DomOut(p, dom, b)))
    && (forall i, j | 0 <= i < j < |p.intParams| :: p.intParams[i] != p.intParams[j])
    && (forall i, j | 0 <= i < j < |p.boolParams| :: p.boolParams[i] != p.boolParams[j])
  }

  ghost predicate WellFormed(p: Program, dom: seq<Regs>) {
    EdgesOk(p) && SuccsDistinct(p) && SsaOk(p, dom)
  }
}
