/** Programs in the fragment that differencing handles, the code it generates, and how both run. */
module DiffSpec {

  datatype Option<+T> = None | Some(value: T)

  /** Expressions over the size `N` and the loop counter. */
  datatype NExpr = Lit(c: int) | Size | Ctr | Plus(l: NExpr, r: NExpr) | Minus(l: NExpr, r: NExpr) | Times(l: NExpr, r: NExpr)

  function Eval(e: NExpr, n: int, i: int): int {
    match e
    case Lit(c) => c
    case Size => n
    case Ctr => i
    case Plus(l, r) => Eval(l, n, i) + Eval(r, n, i)
    case Minus(l, r) => Eval(l, n, i) - Eval(r, n, i)
    case Times(l, r) => Eval(l, n, i) * Eval(r, n, i)
  }

  /** `isValueInSubExpr(N, e)`. */
  predicate HasSize(e: NExpr) {
    match e
    case Lit(_) => false
    case Size => true
    case Ctr => false
    case Plus(l, r) => HasSize(l) || HasSize(r)
    case Minus(l, r) => HasSize(l) || HasSize(r)
    case Times(l, r) => HasSize(l) || HasSize(r)
  }

  predicate HasCtr(e: NExpr) {
    match e
    case Lit(_) => false
    case Size => false
    case Ctr => true
    case Plus(l, r) => HasCtr(l) || HasCtr(r)
    case Minus(l, r) => HasCtr(l) || HasCtr(r)
    case Times(l, r) => HasCtr(l) || HasCtr(r)
  }

  /** Simultaneous substitution of the size and the counter. */
  function Subst(e: NExpr, size: NExpr, ctr: NExpr): NExpr {
    match e
    case Lit(_) => e
    case Size => size
    case Ctr => ctr
    case Plus(l, r) => Plus(Subst(l, size, ctr), Subst(r, size, ctr))
    case Minus(l, r) => Minus(Subst(l, size, ctr), Subst(r, size, ctr))
    case Times(l, r) => Times(Subst(l, size, ctr), Subst(r, size, ctr))
  }

  const SIZE_BEFORE := Minus(Size, Lit(1))

  /** `compute_diff_expr`, with the counter then replaced by `N`. */
  function DiffExpr(e: NExpr): NExpr {
    Subst(Minus(e, Subst(e, SIZE_BEFORE, Ctr)), Size, Size)
  }

  // ----- programs -----

  datatype Var = Arr(id: nat) | Scl(id: nat)

  datatype Op = Add | Sub | Mul

  /** Stored values: loads of arrays at the counter and of scalars, and expressions of the size and the counter. */
  datatype Term = Load(v: Var) | Leaf(e: NExpr) | Bin(op: Op, l: Term, r: Term)

  /** Phases of a program in array SSA form.  Loops run over `0..N-1`: `a[i] = t`, and `x = t`, where `t` may read `x`;
      outside loops a scalar gets an expression of `N` or another scalar, and an array cell an expression of `N`. */
  datatype Phase =
    | ArrLoop(a: nat, t: Term)
    | Accum(x: nat, t: Term)
    | OuterSet(x: nat, e: NExpr)
    | Copy(x: nat, y: nat)
    | OuterCell(a: nat, c: int, e: NExpr)

  datatype State = State(arr: (nat, int) -> int, scl: nat -> int)

  function LoadVal(s: State, v: Var, i: int): int {
    match v
    case Arr(a) => s.arr(a, i)
    case Scl(x) => s.scl(x)
  }

  function Apply(op: Op, x: int, y: int): int {
    match op
    case Add => x + y
    case Sub => x - y
    case Mul => x * y
  }

  function TVal(s: State, t: Term, n: int, i: int): int {
    match t
    case Load(v) => LoadVal(s, v, i)
    case Leaf(e) => Eval(e, n, i)
    case Bin(op, l, r) => Apply(op, TVal(s, l, n, i), TVal(s, r, n, i))
  }

  function SetCell(s: State, a: nat, i: int, v: int): State {
    s.(arr := (b: nat, k: int) => if b == a && k == i then v else s.arr(b, k))
  }

  function SetScl(s: State, x: nat, v: int): State { s.(scl := (y: nat) => if y == x then v else s.scl(y)) }

  function Body(ph: Phase, n: int, i: int, s: State): State {
    match ph
    case ArrLoop(a, t) => SetCell(s, a, i, TVal(s, t, n, i))
    case Accum(x, t) => SetScl(s, x, TVal(s, t, n, i))
    case _ => s
  }

  /** The first `k` iterations. */
  function Loop(ph: Phase, n: int, k: nat, s: State): State {
    if k == 0 then s else Body(ph, n, k - 1, Loop(ph, n, k - 1, s))
  }

  function Exec(ph: Phase, n: nat, s: State): State {
    match ph
    case OuterSet(x, e) => SetScl(s, x, Eval(e, n, 0))
    case Copy(x, y) => SetScl(s, x, s.scl(y))
    case OuterCell(a, c, e) => SetCell(s, a, c, Eval(e, n, 0))
    case _ => Loop(ph, n, n, s)
  }

  /** The first `j` phases at size `n`. */
  function Run(ps: seq<Phase>, n: nat, j: nat, s: State): State
    requires j <= |ps|
  {
    if j == 0 then s else Exec(ps[j - 1], n, Run(ps, n, j - 1, s))
  }

  // ----- what the generator sees of a stored value -----

  /** The loads `collect_loads_recs` lists, whatever the operators between them. */
  function Loads(t: Term): seq<Var> {
    match t
    case Load(v) => [v]
    case Leaf(_) => []
    case Bin(_, l, r) => Loads(l) + Loads(r)
  }

  /** The rest it returns: that of the operand which has one, or the whole operation when both have. */
  function CollectRec(t: Term): Option<Term> {
    match t
    case Load(_) => None
    case Leaf(_) => Some(t)
    case Bin(_, l, r) =>
      if CollectRec(l).Some? && CollectRec(r).Some? then Some(t)
      else if CollectRec(r).Some? then CollectRec(r) else CollectRec(l)
  }

  /** `onlyValuesInSubExpr`: nothing but the size and the counter. */
  function AsPure(t: Term): Option<NExpr> {
    match t
    case Load(_) => None
    case Leaf(e) => Some(e)
    case Bin(op, l, r) =>
      if AsPure(l).None? || AsPure(r).None? then None
      else Some(match op
                case Add => Plus(AsPure(l).value, AsPure(r).value)
                case Sub => Minus(AsPure(l).value, AsPure(r).value)
                case Mul => Times(AsPure(l).value, AsPure(r).value))
  }

  function RecOf(t: Term): Option<NExpr> { if CollectRec(t).Some? then AsPure(CollectRec(t).value) else None }

  // ----- generated code -----

  /** A recorded difference: an expression of `N`, the value of a peeled load, or one times `N-1`. */
  datatype DVal = OfExpr(e: NExpr) | Reg(r: nat) | Scaled(v: DVal)

  datatype DStmt =
    | Glue(x: nat, vals: seq<DVal>)       // x = x + vals, before the peeled iteration
    | GlueCell(a: nat, vals: seq<DVal>)   // a[N-1] = a[N-1] + vals, after it
    | Peel(ph: Phase)                     // the loop body once, for the last counter value
    | Restore(x: nat, v: DVal)            // x = (x of the previous size) + v
    | Bump(x: nat, v: DVal)               // x = x + v

  datatype DState = DState(s: State, regs: seq<int>)

  function EvalD(v: DVal, n: int, regs: seq<int>): int {
    match v
    case OfExpr(e) => Eval(e, n, 0)
    case Reg(r) => if r < |regs| then regs[r] else 0
    case Scaled(w) => EvalD(w, n, regs) * (n - 1)
  }

  function SumD(vals: seq<DVal>, n: int, regs: seq<int>): int {
    if |vals| == 0 then 0 else SumD(vals[..|vals| - 1], n, regs) + EvalD(vals[|vals| - 1], n, regs)
  }

  /** Values of the array loads, in order: the registers a peeled accumulation leaves behind. */
  function PeeledLoads(s: State, loads: seq<Var>, i: int): seq<int> {
    if |loads| == 0 then []
    else PeeledLoads(s, loads[..|loads| - 1], i) +
         if loads[|loads| - 1].Arr? then [LoadVal(s, loads[|loads| - 1], i)] else []
  }

  function ExecD(c: DStmt, n: nat, before: State, d: DState): DState {
    match c
    case Glue(x, vals) => d.(s := SetScl(d.s, x, d.s.scl(x) + SumD(vals, n, d.regs)))
    case GlueCell(a, vals) => d.(s := SetCell(d.s, a, n - 1, d.s.arr(a, n - 1) + SumD(vals, n, d.regs)))
    case Peel(ph) =>
      DState(Body(ph, n, n - 1, d.s), d.regs + if ph.Accum? then PeeledLoads(d.s, Loads(ph.t), n - 1) else [])
    case Restore(x, v) => d.(s := SetScl(d.s, x, before.scl(x) + EvalD(v, n, d.regs)))
    case Bump(x, v) => d.(s := SetScl(d.s, x, d.s.scl(x) + EvalD(v, n, d.regs)))
  }

  function ExecAll(code: seq<DStmt>, n: nat, before: State, d: DState): DState {
    if |code| == 0 then d else ExecD(code[|code| - 1], n, before, ExecAll(code[..|code| - 1], n, before, d))
  }

  // ----- the generator -----

  /** `diff_val_map`, the code emitted so far, and the number of registers it defines. */
  datatype Gen = Gen(diffs: map<Var, seq<DVal>>, code: seq<DStmt>, regs: nat)

  const START := Gen(map[], [], 0)

  function DiffsOf(g: Gen, v: Var): seq<DVal> { if v in g.diffs then g.diffs[v] else [] }
  function Record(g: Gen, v: Var, ds: seq<DVal>): Gen { if ds == [] then g else g.(diffs := g.diffs[v := DiffsOf(g, v) + ds]) }
  function EmitD(g: Gen, c: DStmt): Gen { g.(code := g.code + [c]) }

  function ScaleAll(ds: seq<DVal>): (r: seq<DVal>)
    ensures |r| == |ds| && forall i | 0 <= i < |r| :: r[i] == Scaled(ds[i])
  {
    seq(|ds|, i requires 0 <= i < |ds| => Scaled(ds[i]))
  }

  /** What a scalar accumulator takes over from one load: array differences count `N-1` times, scalar ones once. */
  function FromLoad(g: Gen, v: Var): seq<DVal> { if v.Arr? then ScaleAll(DiffsOf(g, v)) else DiffsOf(g, v) }

  function FromLoads(g: Gen, x: nat, loads: seq<Var>): seq<DVal> {
    if |loads| == 0 then []
    else FromLoads(g, x, loads[..|loads| - 1]) + if loads[|loads| - 1] == Scl(x) then [] else FromLoad(g, loads[|loads| - 1])
  }

  /** The accumulator's own term, `N-1` times, once for each load of the accumulator. */
  function OwnTerm(x: nat, loads: seq<Var>, rec: Option<NExpr>): seq<DVal> {
    if |loads| == 0 then []
    else OwnTerm(x, loads[..|loads| - 1], rec) + if loads[|loads| - 1] == Scl(x) then ScaleAll(RecDiffs(rec)) else []
  }

  /** Both, load by load: what is added in front of the peeled iteration. */
  function GlueVals(g: Gen, x: nat, loads: seq<Var>, rec: Option<NExpr>): seq<DVal> {
    if |loads| == 0 then []
    else GlueVals(g, x, loads[..|loads| - 1], rec) +
         if loads[|loads| - 1] == Scl(x) then ScaleAll(RecDiffs(rec)) else FromLoad(g, loads[|loads| - 1])
  }

  /** What an array takes over from its loads, except from itself. */
  function CellDiffs(g: Gen, a: nat, loads: seq<Var>): seq<DVal> {
    if |loads| == 0 then []
    else CellDiffs(g, a, loads[..|loads| - 1]) + if loads[|loads| - 1] == Arr(a) then [] else DiffsOf(g, loads[|loads| - 1])
  }

  /** Differences of the array itself, once per load of itself. */
  function OwnDiffs(g: Gen, a: nat, loads: seq<Var>): seq<DVal> {
    if |loads| == 0 then []
    else OwnDiffs(g, a, loads[..|loads| - 1]) + if loads[|loads| - 1] == Arr(a) then DiffsOf(g, loads[|loads| - 1]) else []
  }

  function RecDiffs(rec: Option<NExpr>): seq<DVal> {
    if rec.Some? && HasSize(rec.value) then [OfExpr(DiffExpr(rec.value))] else []
  }

  function CountArr(loads: seq<Var>): nat {
    if |loads| == 0 then 0 else CountArr(loads[..|loads| - 1]) + if loads[|loads| - 1].Arr? then 1 else 0
  }

  function RegList(from: nat, k: nat): (r: seq<DVal>)
    ensures |r| == k && forall i | 0 <= i < k :: r[i] == Reg(from + i)
  {
    seq(k, i requires 0 <= i < k => Reg(from + i))
  }

  /** Array loop: the peeled iteration; the array's differences are those of its own term and of its loads. */
  function GenArr(ph: Phase, g: Gen): Gen
    requires ph.ArrLoop?
  {
    var own := OwnDiffs(g, ph.a, Loads(ph.t));
    var g1 := EmitD(g, Peel(ph));
    var g2 := if own == [] then g1 else EmitD(g1, GlueCell(ph.a, own));
    Record(Record(g2, Arr(ph.a), RecDiffs(RecOf(ph.t))), Arr(ph.a), CellDiffs(g, ph.a, Loads(ph.t)))
  }

  /** What a scalar's own term records: a value without loads its difference, any other only with loads of the scalar. */
  function TermDiffs(ph: Phase): seq<DVal>
    requires ph.Accum?
  {
    if Loads(ph.t) == [] then RecDiffs(RecOf(ph.t)) else OwnTerm(ph.x, Loads(ph.t), RecOf(ph.t))
  }

  /** Scalar loop: glue in front of the peeled iteration; recorded are the own term's differences, what the loads
      contribute, and the peeled array loads. */
  function GenAccum(ph: Phase, g: Gen): Gen
    requires ph.Accum?
  {
    var loads := Loads(ph.t);
    var glue := GlueVals(g, ph.x, loads, RecOf(ph.t));
    var g1 := if glue == [] then g else EmitD(g, Glue(ph.x, glue));
    var g2 := EmitD(g1, Peel(ph)).(regs := g.regs + CountArr(loads));
    Record(Record(Record(g2, Scl(ph.x), TermDiffs(ph)), Scl(ph.x), FromLoads(g, ph.x, loads)), Scl(ph.x), RegList(g.regs, CountArr(loads)))
  }

  function GenOuter(x: nat, e: NExpr, g: Gen): Gen {
    if HasSize(e) then Record(EmitD(g, Restore(x, OfExpr(DiffExpr(e)))), Scl(x), [OfExpr(DiffExpr(e))]) else g
  }

  /** A copy takes over the last recorded difference of its source only. */
  function GenCopy(x: nat, y: nat, g: Gen): Gen {
    var ds := DiffsOf(g, Scl(y));
    if ds == [] then g else Record(EmitD(g, Bump(x, ds[|ds| - 1])), Scl(x), [ds[|ds| - 1]])
  }

  /** A store to a cell outside loops is dropped; its difference is recorded for the whole array. */
  function GenCell(a: nat, e: NExpr, g: Gen): Gen {
    if HasSize(e) then Record(g, Arr(a), [OfExpr(DiffExpr(e))]) else g
  }

  function GenPhase(ph: Phase, g: Gen): Gen {
    match ph
    case ArrLoop(_, _) => GenArr(ph, g)
    case Accum(_, _) => GenAccum(ph, g)
    case OuterSet(x, e) => GenOuter(x, e, g)
    case Copy(x, y) => GenCopy(x, y, g)
    case OuterCell(a, _, e) => GenCell(a, e, g)
  }

  function GenUpTo(ps: seq<Phase>, j: nat): Gen
    requires j <= |ps|
  {
    if j == 0 then START else GenPhase(ps[j - 1], GenUpTo(ps, j - 1))
  }
}
