/** Two-level accumulation loops, the single loop that replaces them, and when the pass accepts one. */
module NestSpec {

  datatype Option<+T> = None | Some(value: T)

  datatype Op = Add | Sub

  /** Indices of loads and stores: a loop counter or a constant. */
  datatype Index = OuterIdx | InnerIdx | Const(c: int)

  datatype Term = Num(c: int) | Size | OuterCtr | InnerCtr | Load(v: nat, idx: Index) | Bin(op: BinOp, l: Term, r: Term)

  datatype BinOp = Plus | Minus | Times

  /** Bounds of the inner loop. */
  datatype Bound = BNum(c: int) | BOuter | BSize | BPlus(b: Bound, c: int)

  /** `for i in 0..N-1 { for j in init..exit { v[idx] = v[idx] op term }  v[..] = v[..] op2 term2 }`.
      With `strict` unset the inner loop runs up to and including `exit`. */
  datatype Nest = Nest(v: nat, idx: Index, op: Op, term: Term, init: Bound, exit: Bound, strict: bool, last: Option<(Op, Term)>)

  /** How often the single loop counts the term. */
  datatype Mult = Bounded(b: Bound) | Diff(hi: Bound, lo: Bound) | OuterPlusOne | SizeMinus(b: Bound)

  type Mem = (nat, int) -> int

  // ----- execution -----

  function ApplyBin(op: BinOp, x: int, y: int): int {
    match op
    case Plus => x + y
    case Minus => x - y
    case Times => x * y
  }

  function Up(op: Op, x: int, y: int): int { if op.Add? then x + y else x - y }

  function CellOf(idx: Index, i: int, j: int): int {
    match idx
    case OuterIdx => i
    case InnerIdx => j
    case Const(c) => c
  }

  function Val(t: Term, n: int, i: int, j: int, m: Mem): int {
    match t
    case Num(c) => c
    case Size => n
    case OuterCtr => i
    case InnerCtr => j
    case Load(v, idx) => m(v, CellOf(idx, i, j))
    case Bin(op, l, r) => ApplyBin(op, Val(l, n, i, j, m), Val(r, n, i, j, m))
  }

  function BVal(b: Bound, n: int, i: int): int {
    match b
    case BNum(c) => c
    case BOuter => i
    case BSize => n
    case BPlus(b', c) => BVal(b', n, i) + c
  }

  function MVal(mu: Mult, n: int, i: int): int {
    match mu
    case Bounded(b) => BVal(b, n, i)
    case Diff(hi, lo) => BVal(hi, n, i) - BVal(lo, n, i)
    case OuterPlusOne => i + 1
    case SizeMinus(b) => n - BVal(b, n, i) + 1
  }

  function Put(m: Mem, v: nat, k: int, x: int): Mem { (u: nat, l: int) => if u == v && l == k then x else m(u, l) }

  /** The inner loop's exclusive bound. */
  function ExitOf(q: Nest): Bound { if q.strict then q.exit else BPlus(q.exit, 1) }

  function Trips(q: Nest, n: int, i: int): nat {
    var k := BVal(ExitOf(q), n, i) - BVal(q.init, n, i);
    if k < 0 then 0 else k
  }

  /** `k` iterations of the inner loop from counter `lo`. */
  function Inner(q: Nest, n: int, i: int, lo: int, k: nat, m: Mem): Mem {
    if k == 0 then m
    else
      var b := Inner(q, n, i, lo, k - 1, m);
      var j := lo + k - 1;
      Put(b, q.v, CellOf(q.idx, i, j), Up(q.op, b(q.v, CellOf(q.idx, i, j)), Val(q.term, n, i, j, b)))
  }

  /** The cell of the trailing update and of the single loop: the outer counter's, or the scalar's. */
  function OwnCell(q: Nest, i: int): int { if q.idx.Const? then q.idx.c else i }

  function Last(q: Nest, n: int, i: int, m: Mem): Mem {
    if q.last.None? then m
    else Put(m, q.v, OwnCell(q, i), Up(q.last.value.0, m(q.v, OwnCell(q, i)), Val(q.last.value.1, n, i, i, m)))
  }

  function OuterBody(q: Nest, n: int, i: int, m: Mem): Mem {
    Last(q, n, i, Inner(q, n, i, BVal(q.init, n, i), Trips(q, n, i), m))
  }

  function Nested(q: Nest, n: int, k: nat, m: Mem): Mem {
    if k == 0 then m else OuterBody(q, n, k - 1, Nested(q, n, k - 1, m))
  }

  /** `cloneExpr`: every loop counter becomes the outer one. */
  function Clone(t: Term): Term {
    match t
    case InnerCtr => OuterCtr
    case Load(v, InnerIdx) => Load(v, OuterIdx)
    case Bin(op, l, r) => Bin(op, Clone(l), Clone(r))
    case _ => t
  }

  /** The new body: one update by the multiple, and the trailing update in the same store. */
  function SingleBody(q: Nest, mu: Mult, n: int, i: int, m: Mem): Mem {
    var x := Up(q.op, m(q.v, OwnCell(q, i)), MVal(mu, n, i) * Val(Clone(q.term), n, i, i, m));
    Put(m, q.v, OwnCell(q, i),
        if q.last.Some? then Up(q.last.value.0, x, Val(Clone(q.last.value.1), n, i, i, m)) else x)
  }

  function Single(q: Nest, mu: Mult, n: int, k: nat, m: Mem): Mem {
    if k == 0 then m else SingleBody(q, mu, n, k - 1, Single(q, mu, n, k - 1, m))
  }

  // ----- the pass -----

  /** `check_rt_scope`: no loop counter, and every array loaded is filled with such terms by the other loops,
      `stores[l]` listing what loop `l` stores. */
  predicate InScope(statics: set<nat>, stores: seq<seq<(nat, Term)>>, t: Term, l: nat)
    decreases if l < |stores| then |stores| - l else 0, 1, t
  {
    match t
    case Num(_) => true
    case Size => true
    case OuterCtr => false
    case InnerCtr => false
    case Load(v, _) => v in statics || (l < |stores| ==> FilledInScope(statics, stores, v, l + 1))
    case Bin(_, x, y) => InScope(statics, stores, x, l) && InScope(statics, stores, y, l)
  }

  predicate FilledInScope(statics: set<nat>, stores: seq<seq<(nat, Term)>>, v: nat, l: nat)
    decreases if l < |stores| then |stores| - l + 1 else 1, 0
  {
    if l >= |stores| then true
    else
      (forall k | 0 <= k < |stores[l]| && stores[l][k].0 == v :: InScope(statics, stores, stores[l][k].1, l))
      && FilledInScope(statics, stores, v, l + 1)
  }

  predicate IsColumn(statics: set<nat>, q: Nest) { q.v !in statics && q.idx.InnerIdx? }

  /** The multiple the pass computes for an ascending unit-step inner loop. */
  function MultOf(statics: set<nat>, q: Nest): Mult {
    if !IsColumn(statics, q) then
      if !q.init.BNum? || q.init.c > 0 then Diff(ExitOf(q), q.init) else Bounded(ExitOf(q))
    else if !q.init.BNum? then
      if q.init == BOuter && ExitOf(q) == BSize then OuterPlusOne else Bounded(q.init)
    else if q.init.c > 0 then Diff(ExitOf(q), q.init)
    else if ExitOf(q) == BSize then Bounded(BSize) else SizeMinus(ExitOf(q))
  }

  /** All scope tests together. */
  predicate Accepted(statics: set<nat>, stores: seq<seq<(nat, Term)>>, l: nat, q: Nest) {
    && (q.v in statics || q.idx.OuterIdx? || q.idx.InnerIdx?)
    && (q.term == OuterCtr || InScope(statics, stores, q.term, l))
    && !(q.term.Load? && q.term.v == q.v)
    && (IsColumn(statics, q) ==> q.term != OuterCtr)
  }
}
