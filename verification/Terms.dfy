/** Solver terms, their meaning under a valuation, and which names a term can depend on. */
module Terms {

  datatype IntOp = Add | Sub | Mul
  datatype BoolOp = And | Or | Xor
  datatype CmpPred = Eq | Ne | Lt | Le | Gt | Ge

  /** Fresh boolean constants.  Exit bits are numbered apart from path, assume and nondet bits. */
  datatype BoolName = ExitName(id: nat) | BitName(id: nat)

  datatype IntTerm =
    | IntLit(n: int)
    | IntVar(id: nat)
    | Arith(op: IntOp, l: IntTerm, r: IntTerm)
    | Select(arr: nat, idx: IntTerm)

  datatype BoolTerm =
    | BoolLit(b: bool)
    | BoolVar(name: BoolName)
    | Not(t: BoolTerm)
    | Conj(ts: seq<BoolTerm>)
    | Disj(ts: seq<BoolTerm>)
    | Implies(l: BoolTerm, r: BoolTerm)
    | Iff(l: BoolTerm, r: BoolTerm)
    | Logic(op: BoolOp, l: BoolTerm, r: BoolTerm)
    | Compare(pred: CmpPred, x: IntTerm, y: IntTerm)
    | ArrEq(a: nat, a': nat)
    | ArrStore(new_: nat, old_: nat, idx: IntTerm, val: IntTerm)

  /** An interpretation of every name: integers, booleans, and arrays cell by cell. */
  datatype Valuation = Valuation(ints: nat -> int, bools: BoolName -> bool, arrs: (nat, int) -> int)

  function ApplyInt(op: IntOp, x: int, y: int): int {
    match op
    case Add => x + y
    case Sub => x - y
    case Mul => x * y
  }

  predicate ApplyBool(op: BoolOp, x: bool, y: bool) {
    match op
    case And => x && y
    case Or => x || y
    case Xor => x != y
  }

  predicate ApplyCmp(pred: CmpPred, x: int, y: int) {
    match pred
    case Eq => x == y
    case Ne => x != y
    case Lt => x < y
    case Le => x <= y
    case Gt => x > y
    case Ge => x >= y
  }

  function IntVal(t: IntTerm, v: Valuation): int {
    match t
    case IntLit(n) => n
    case IntVar(id) => v.ints(id)
    case Arith(op, l, r) => ApplyInt(op, IntVal(l, v), IntVal(r, v))
    case Select(a, idx) => v.arrs(a, IntVal(idx, v))
  }

  ghost predicate Holds(t: BoolTerm, v: Valuation) {
    match t
    case BoolLit(b) => b
    case BoolVar(n) => v.bools(n)
    case Not(u) => !Holds(u, v)
    case Conj(ts) => forall i | 0 <= i < |ts| :: Holds(ts[i], v)
    case Disj(ts) => exists i | 0 <= i < |ts| :: Holds(ts[i], v)
    case Implies(l, r) => Holds(l, v) ==> Holds(r, v)
    case Iff(l, r) => Holds(l, v) == Holds(r, v)
    case Logic(op, l, r) => ApplyBool(op, Holds(l, v), Holds(r, v))
    case Compare(p, x, y) => ApplyCmp(p, IntVal(x, v), IntVal(y, v))
    case ArrEq(a, a') => forall k :: v.arrs(a, k) == v.arrs(a', k)
    case ArrStore(n, o, idx, val) =>
      forall k :: v.arrs(n, k) == if k == IntVal(idx, v) then IntVal(val, v) else v.arrs(o, k)
  }

  ghost predicate AllHold(ts: seq<BoolTerm>, v: Valuation) {
    forall i | 0 <= i < |ts| :: Holds(ts[i], v)
  }

  /** z3Utils' `_and`: the empty vector gives true and a single element is returned as it is. */
  function MkAnd(ts: seq<BoolTerm>): BoolTerm {
    if |ts| == 0 then BoolLit(true) else if |ts| == 1 then ts[0] else Conj(ts)
  }

  /** z3Utils' `_or`: the empty vector gives TRUE, not false. */
  function MkOr(ts: seq<BoolTerm>): BoolTerm {
    if |ts| == 0 then BoolLit(true) else if |ts| == 1 then ts[0] else Disj(ts)
  }

  lemma MkAndMeaning(ts: seq<BoolTerm>, v: Valuation)
    ensures Holds(MkAnd(ts), v) <==> AllHold(ts, v)
  {
  }

  lemma MkOrMeaning(ts: seq<BoolTerm>, v: Valuation)
    ensures Holds(MkOr(ts), v) <==> |ts| == 0 || exists i | 0 <= i < |ts| :: Holds(ts[i], v)
  {
    if |ts| == 1 { assert Holds(ts[0], v) <==> exists i | 0 <= i < |ts| :: Holds(ts[i], v); }
  }

  // ----- names a term depends on -----

  /** Strict upper bounds on the numbers of the names in use. */
  datatype Lim = Lim(ints: nat, arrs: nat, exits: nat, bits: nat)

  ghost predicate LimLe(a: Lim, b: Lim) {
    a.ints <= b.ints && a.arrs <= b.arrs && a.exits <= b.exits && a.bits <= b.bits
  }

  ghost predicate IntWithin(t: IntTerm, m: Lim) {
    match t
    case IntLit(_) => true
    case IntVar(id) => id < m.ints
    case Arith(_, l, r) => IntWithin(l, m) && IntWithin(r, m)
    case Select(a, idx) => a < m.arrs && IntWithin(idx, m)
  }

  ghost predicate NameWithin(n: BoolName, m: Lim) {
    match n
    case ExitName(id) => id < m.exits
    case BitName(id) => id < m.bits
  }

  ghost predicate BoolWithin(t: BoolTerm, m: Lim) {
    match t
    case BoolLit(_) => true
    case BoolVar(n) => NameWithin(n, m)
    case Not(u) => BoolWithin(u, m)
    case Conj(ts) => forall i | 0 <= i < |ts| :: BoolWithin(ts[i], m)
    case Disj(ts) => forall i | 0 <= i < |ts| :: BoolWithin(ts[i], m)
    case Implies(l, r) => BoolWithin(l, m) && BoolWithin(r, m)
    case Iff(l, r) => BoolWithin(l, m) && BoolWithin(r, m)
    case Logic(_, l, r) => BoolWithin(l, m) && BoolWithin(r, m)
    case Compare(_, x, y) => IntWithin(x, m) && IntWithin(y, m)
    case ArrEq(a, a') => a < m.arrs && a' < m.arrs
    case ArrStore(n, o, idx, val) => n < m.arrs && o < m.arrs && IntWithin(idx, m) && IntWithin(val, m)
  }

  ghost predicate AllWithin(ts: seq<BoolTerm>, m: Lim) {
    forall i | 0 <= i < |ts| :: BoolWithin(ts[i], m)
  }

  /** Two valuations give the same meaning to every name below the bounds. */
  ghost predicate Agree(v: Valuation, w: Valuation, m: Lim) {
    && (forall n: nat | n < m.ints :: v.ints(n) == w.ints(n))
    && (forall n | NameWithin(n, m) :: v.bools(n) == w.bools(n))
    && (forall n: nat, k: int | n < m.arrs :: v.arrs(n, k) == w.arrs(n, k))
  }

  lemma AgreeTrans(u: Valuation, v: Valuation, w: Valuation, m: Lim, m': Lim)
    requires Agree(u, v, m) && Agree(v, w, m') && LimLe(m, m')
    ensures Agree(u, w, m)
  {
    forall n | NameWithin(n, m)
      ensures u.bools(n) == w.bools(n)
    {
      assert NameWithin(n, m');
    }
  }

  lemma {:induction false} IntFrame(t: IntTerm, v: Valuation, w: Valuation, m: Lim)
    requires IntWithin(t, m) && Agree(v, w, m)
    ensures IntVal(t, v) == IntVal(t, w)
  {
    match t
    case IntLit(_) =>
    case IntVar(_) =>
    case Arith(_, l, r) => IntFrame(l, v, w, m); IntFrame(r, v, w, m);
    case Select(_, idx) => IntFrame(idx, v, w, m);
  }

  /** A term means the same under valuations that agree on the names it can depend on. */
  lemma {:induction false} BoolFrame(t: BoolTerm, v: Valuation, w: Valuation, m: Lim)
    requires BoolWithin(t, m) && Agree(v, w, m)
    ensures Holds(t, v) == Holds(t, w)
  {
    match t
    case BoolLit(_) =>
    case BoolVar(_) =>
    case Not(u) => BoolFrame(u, v, w, m);
    case Conj(ts) => forall i | 0 <= i < |ts| { BoolFrame(ts[i], v, w, m); }
    case Disj(ts) => forall i | 0 <= i < |ts| { BoolFrame(ts[i], v, w, m); }
    case Implies(l, r) => BoolFrame(l, v, w, m); BoolFrame(r, v, w, m);
    case Iff(l, r) => BoolFrame(l, v, w, m); BoolFrame(r, v, w, m);
    case Logic(_, l, r) => BoolFrame(l, v, w, m); BoolFrame(r, v, w, m);
    case Compare(_, x, y) => IntFrame(x, v, w, m); IntFrame(y, v, w, m);
    case ArrEq(a, a') =>
      forall k ensures v.arrs(a, k) == w.arrs(a, k) && v.arrs(a', k) == w.arrs(a', k) {}
    case ArrStore(n, o, idx, val) =>
      IntFrame(idx, v, w, m); IntFrame(val, v, w, m);
      forall k ensures v.arrs(n, k) == w.arrs(n, k) && v.arrs(o, k) == w.arrs(o, k) {}
  }

  lemma AllFrame(ts: seq<BoolTerm>, v: Valuation, w: Valuation, m: Lim)
    requires AllWithin(ts, m) && Agree(v, w, m)
    ensures AllHold(ts, v) <==> AllHold(ts, w)
  {
    forall i | 0 <= i < |ts| { BoolFrame(ts[i], v, w, m); }
  }

  lemma {:induction false} IntWithinMono(t: IntTerm, m: Lim, m': Lim)
    requires IntWithin(t, m) && LimLe(m, m')
    ensures IntWithin(t, m')
  {
    match t
    case IntLit(_) =>
    case IntVar(_) =>
    case Arith(_, l, r) => IntWithinMono(l, m, m'); IntWithinMono(r, m, m');
    case Select(_, idx) => IntWithinMono(idx, m, m');
  }

  lemma {:induction false} BoolWithinMono(t: BoolTerm, m: Lim, m': Lim)
    requires BoolWithin(t, m) && LimLe(m, m')
    ensures BoolWithin(t, m')
  {
    match t
    case BoolLit(_) =>
    case BoolVar(_) =>
    case Not(u) => BoolWithinMono(u, m, m');
    case Conj(ts) => forall i | 0 <= i < |ts| { BoolWithinMono(ts[i], m, m'); }
    case Disj(ts) => forall i | 0 <= i < |ts| { BoolWithinMono(ts[i], m, m'); }
    case Implies(l, r) => BoolWithinMono(l, m, m'); BoolWithinMono(r, m, m');
    case Iff(l, r) => BoolWithinMono(l, m, m'); BoolWithinMono(r, m, m');
    case Logic(_, l, r) => BoolWithinMono(l, m, m'); BoolWithinMono(r, m, m');
    case Compare(_, x, y) => IntWithinMono(x, m, m'); IntWithinMono(y, m, m');
    case ArrEq(_, _) =>
    case ArrStore(_, _, idx, val) => IntWithinMono(idx, m, m'); IntWithinMono(val, m, m');
  }
}
