/** Array SSA: programs over size-N arrays and one-cell scalars, their execution, and the renaming. */
module SsaSpec {

  datatype Op = Add | Sub | Mul

  /** An index: the loop counter plus a constant, or a constant. */
  datatype Idx = Offset(k: int) | Fixed(c: int)

  /** `IfGe(k, l, r)` is `l` when the counter is at least `k`, and `r` otherwise. */
  datatype Expr = Lit(n: int) | Ctr | Read(v: nat, idx: Idx) | Bin(op: Op, l: Expr, r: Expr) | IfGe(k: int, l: Expr, r: Expr)

  datatype Stmt = Store(v: nat, idx: Idx, e: Expr)

  datatype Phase = Loop(body: seq<Stmt>) | Outer(body: seq<Stmt>)

  /** A renamed phase: copies of scalars in the preheader, then the renamed statements. */
  datatype Renamed = Renamed(copies: seq<(nat, nat)>, ph: Phase)

  /** `size` is N's meaning for arrays; `statics` are the allocas of fixed size, the scalars. */
  datatype Program = Program(vars: nat, statics: set<nat>, phases: seq<Phase>)

  // ----- execution -----

  type Mem = (nat, int) -> int

  function At(idx: Idx, i: int): int {
    match idx
    case Offset(k) => i + k
    case Fixed(c) => c
  }

  function Apply(op: Op, x: int, y: int): int {
    match op
    case Add => x + y
    case Sub => x - y
    case Mul => x * y
  }

  function Eval(e: Expr, i: int, m: Mem): int {
    match e
    case Lit(n) => n
    case Ctr => i
    case Read(v, idx) => m(v, At(idx, i))
    case Bin(op, l, r) => Apply(op, Eval(l, i, m), Eval(r, i, m))
    case IfGe(k, l, r) => if i >= k then Eval(l, i, m) else Eval(r, i, m)
  }

  function Put(m: Mem, v: nat, k: int, x: int): Mem { (u: nat, j: int) => if u == v && j == k then x else m(u, j) }

  function Step(s: Stmt, i: int, m: Mem): Mem { Put(m, s.v, At(s.idx, i), Eval(s.e, i, m)) }

  /** The first `k` statements. */
  function Steps(body: seq<Stmt>, k: nat, i: int, m: Mem): Mem
    requires k <= |body|
  {
    if k == 0 then m else Step(body[k - 1], i, Steps(body, k - 1, i, m))
  }

  /** The first `i` iterations. */
  function Iterate(body: seq<Stmt>, i: nat, m: Mem): Mem {
    if i == 0 then m else Steps(body, |body|, i - 1, Iterate(body, i - 1, m))
  }

  function Exec(ph: Phase, n: nat, m: Mem): Mem {
    match ph
    case Loop(body) => Iterate(body, n, m)
    case Outer(body) => Steps(body, |body|, 0, m)
  }

  function Run(phases: seq<Phase>, j: nat, n: nat, m: Mem): Mem
    requires j <= |phases|
  {
    if j == 0 then m else Exec(phases[j - 1], n, Run(phases, j - 1, n, m))
  }

  /** Preheader copies: the new version of a scalar starts from the previous one. */
  function Copies(cs: seq<(nat, nat)>, k: nat, m: Mem): Mem
    requires k <= |cs|
  {
    if k == 0 then m else var b := Copies(cs, k - 1, m); Put(b, cs[k - 1].0, 0, b(cs[k - 1].1, 0))
  }

  function ExecRenamed(r: Renamed, n: nat, m: Mem): Mem { Exec(r.ph, n, Copies(r.copies, |r.copies|, m)) }

  function RunRenamed(out: seq<Renamed>, n: nat, m: Mem): Mem {
    if |out| == 0 then m else ExecRenamed(out[|out| - 1], n, RunRenamed(out[..|out| - 1], n, m))
  }

  // ----- the pass -----

  /** Variables written by the first `k` statements, each once, in order of first store. */
  function Written(body: seq<Stmt>, k: nat): seq<nat>
    requires k <= |body|
  {
    if k == 0 then []
    else Written(body, k - 1) + if body[k - 1].v in Written(body, k - 1) then [] else [body[k - 1].v]
  }

  /** The version maps, the updated flags, the next fresh name, and the phases produced. */
  datatype Ssa = Ssa(prev: map<nat, nat>, curr: map<nat, nat>, updated: set<nat>, next: nat, out: seq<Renamed>)

  function Look(m: map<nat, nat>, v: nat): nat { if v in m then m[v] else v }

  /** `init_maps`: every variable is its own version. */
  function Identity(k: nat): map<nat, nat> { if k == 0 then map[] else Identity(k - 1)[k - 1 := k - 1] }

  function Start(p: Program): Ssa { Ssa(Identity(p.vars), Identity(p.vars), {}, p.vars, []) }

  /** `create_new_names` for one written variable. */
  function NewName(statics: set<nat>, inLoop: bool, s: Ssa, v: nat): Ssa {
    if !inLoop && v !in statics then s
    else if v !in s.updated then s.(updated := s.updated + {v})
    else s.(prev := s.prev[v := Look(s.curr, v)], curr := s.curr[v := s.next], next := s.next + 1)
  }

  function NewNames(statics: set<nat>, inLoop: bool, s: Ssa, vs: seq<nat>, k: nat): Ssa
    requires k <= |vs|
  {
    if k == 0 then s else NewName(statics, inLoop, NewNames(statics, inLoop, s, vs, k - 1), vs[k - 1])
  }

  /** The solver's verdict on "the counter can exceed the index". */
  predicate CtrCanExceed(idx: Idx) { idx.Fixed? || idx.k < 0 }

  function RenameExpr(s: Ssa, inLoop: bool, e: Expr): Expr {
    match e
    case Lit(_) => e
    case Ctr => e
    case Read(v, idx) => Read(if inLoop && !CtrCanExceed(idx) then Look(s.prev, v) else Look(s.curr, v), idx)
    case Bin(op, l, r) => Bin(op, RenameExpr(s, inLoop, l), RenameExpr(s, inLoop, r))
    case IfGe(k, l, r) => IfGe(k, RenameExpr(s, inLoop, l), RenameExpr(s, inLoop, r))
  }

  function RenameStmt(s: Ssa, inLoop: bool, t: Stmt): Stmt { Store(Look(s.curr, t.v), t.idx, RenameExpr(s, inLoop, t.e)) }

  function RenameBody(s: Ssa, inLoop: bool, body: seq<Stmt>): (r: seq<Stmt>)
    ensures |r| == |body| && forall j | 0 <= j < |r| :: r[j] == RenameStmt(s, inLoop, body[j])
  {
    seq(|body|, j requires 0 <= j < |body| => RenameStmt(s, inLoop, body[j]))
  }

  /** One preheader copy for each store to a scalar. */
  function ScalarCopies(statics: set<nat>, s: Ssa, body: seq<Stmt>, k: nat): seq<(nat, nat)>
    requires k <= |body|
  {
    if k == 0 then []
    else ScalarCopies(statics, s, body, k - 1) +
         if body[k - 1].v in statics then [(Look(s.curr, body[k - 1].v), Look(s.prev, body[k - 1].v))] else []
  }

  /** After a loop the previous version of every written variable is its current one. */
  function Sync(s: Ssa, vs: seq<nat>, k: nat): Ssa
    requires k <= |vs|
  {
    if k == 0 then s
    else var t := Sync(s, vs, k - 1); t.(prev := t.prev[vs[k - 1] := Look(t.curr, vs[k - 1])])
  }

  function ProcessLoop(statics: set<nat>, s: Ssa, body: seq<Stmt>): Ssa {
    var vs := Written(body, |body|);
    var t := NewNames(statics, true, s, vs, |vs|);
    Sync(t.(out := t.out + [Renamed(ScalarCopies(statics, t, body, |body|), Loop(RenameBody(t, true, body)))]), vs, |vs|)
  }

  function ProcessOuter(statics: set<nat>, s: Ssa, body: seq<Stmt>): Ssa {
    var vs := Written(body, |body|);
    var t := NewNames(statics, false, s, vs, |vs|);
    t.(out := t.out + [Renamed([], Outer(RenameBody(t, false, body)))])
  }

  function Convert(p: Program, j: nat): Ssa
    requires j <= |p.phases|
  {
    if j == 0 then Start(p)
    else match p.phases[j - 1]
         case Loop(body) => ProcessLoop(p.statics, Convert(p, j - 1), body)
         case Outer(body) => ProcessOuter(p.statics, Convert(p, j - 1), body)
  }
}
