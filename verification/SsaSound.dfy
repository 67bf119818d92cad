/** Array SSA preserves meaning: the current version of every variable ends up equal to the variable. */
module SsaSound {
  import opened SsaSpec

  // ----- the version maps -----

  predicate Distinct(vs: seq<nat>) { forall i, j | 0 <= i < j < |vs| :: vs[i] != vs[j] }

  lemma {:induction false} WrittenDistinct(body: seq<Stmt>, k: nat)
    requires k <= |body|
    ensures Distinct(Written(body, k))
    ensures forall v :: v in Written(body, k) <==> exists j :: 0 <= j < k && body[j].v == v
  {
    if k > 0 { WrittenDistinct(body, k - 1); }
  }

  /** A written variable gets a fresh version: it was written before and this kind of phase renames it. */
  predicate Renews(statics: set<nat>, inLoop: bool, s: Ssa, v: nat) { v in s.updated && (inLoop || v in statics) }

  /** Versions of different variables never meet, and all names in use are below `next`. */
  ghost predicate MapsOk(p: Program, s: Ssa) {
    && (forall v: nat | v < p.vars :: Look(s.curr, v) < s.next && Look(s.prev, v) < s.next)
    && (forall u: nat, v: nat | u < p.vars && v < p.vars && u != v ::
          Look(s.curr, u) != Look(s.curr, v) && Look(s.curr, u) != Look(s.prev, v) && Look(s.prev, u) != Look(s.prev, v))
  }

  /** Between phases only scalars can have a previous version that differs. */
  ghost predicate Synced(p: Program, s: Ssa) {
    forall v: nat | v < p.vars && (v !in p.statics || v !in s.updated) :: Look(s.prev, v) == Look(s.curr, v)
  }

  /** The effect of naming the variables `vs`. */
  ghost predicate Named(statics: set<nat>, inLoop: bool, s: Ssa, t: Ssa, vs: seq<nat>) {
    && t.next >= s.next && t.out == s.out
    && (forall v: nat :: v in vs && Renews(statics, inLoop, s, v) ==>
          Look(t.prev, v) == Look(s.curr, v) && s.next <= Look(t.curr, v) < t.next)
    && (forall v: nat :: !(v in vs && Renews(statics, inLoop, s, v)) ==>
          Look(t.prev, v) == Look(s.prev, v) && Look(t.curr, v) == Look(s.curr, v))
    && (forall u: nat, v: nat | u != v && u in vs && Renews(statics, inLoop, s, u) && v in vs && Renews(statics, inLoop, s, v) ::
          Look(t.curr, u) != Look(t.curr, v))
    && (forall v: nat :: v in t.updated <==> v in s.updated || (v in vs && (inLoop || v in statics)))
  }

  lemma NameKept(statics: set<nat>, inLoop: bool, s: Ssa, t: Ssa, vs: seq<nat>, v: nat)
    requires Named(statics, inLoop, s, t, vs) && v !in vs && !Renews(statics, inLoop, s, v)
    ensures Named(statics, inLoop, s, NewName(statics, inLoop, t, v), vs + [v])
  {
    assert NewName(statics, inLoop, t, v).curr == t.curr && NewName(statics, inLoop, t, v).prev == t.prev;
  }

  lemma Renewing(statics: set<nat>, inLoop: bool, t: Ssa, v: nat)
    requires v in t.updated && (inLoop || v in statics)
    ensures var t' := NewName(statics, inLoop, t, v);
            && t'.next == t.next + 1 && t'.out == t.out && t'.updated == t.updated
            && (forall u: nat :: Look(t'.curr, u) == if u == v then t.next else Look(t.curr, u))
            && (forall u: nat :: Look(t'.prev, u) == if u == v then Look(t.curr, v) else Look(t.prev, u))
  {
  }

  lemma NameRenewed(statics: set<nat>, inLoop: bool, s: Ssa, t: Ssa, vs: seq<nat>, v: nat)
    requires Named(statics, inLoop, s, t, vs) && v !in vs && Renews(statics, inLoop, s, v)
    ensures Named(statics, inLoop, s, NewName(statics, inLoop, t, v), vs + [v])
  {
    hide Look, NewName, Renews;
    RenewedIs(statics, inLoop, s, v);
    Renewing(statics, inLoop, t, v);
    assert forall u :: u in vs + [v] <==> u in vs || u == v;
    var t' := NewName(statics, inLoop, t, v);
    forall u: nat, w: nat | u != w && u in vs + [v] && Renews(statics, inLoop, s, u) && w in vs + [v] && Renews(statics, inLoop, s, w)
      ensures Look(t'.curr, u) != Look(t'.curr, w)
    {
    }
  }

  lemma RenewedIs(statics: set<nat>, inLoop: bool, s: Ssa, v: nat)
    requires Renews(statics, inLoop, s, v)
    ensures v in s.updated && (inLoop || v in statics)
  {
  }

  lemma {:induction false} NewNamesNamed(statics: set<nat>, inLoop: bool, s: Ssa, vs: seq<nat>, k: nat)
    requires k <= |vs| && Distinct(vs)
    ensures Named(statics, inLoop, s, NewNames(statics, inLoop, s, vs, k), vs[..k])
  {
    hide Named, NewName, Renews;
    if k > 0 {
      NewNamesNamed(statics, inLoop, s, vs, k - 1);
      var t, v := NewNames(statics, inLoop, s, vs, k - 1), vs[k - 1];
      assert vs[..k] == vs[..k - 1] + [v];
      assert v !in vs[..k - 1];
      if Renews(statics, inLoop, s, v) { NameRenewed(statics, inLoop, s, t, vs[..k - 1], v); } else { NameKept(statics, inLoop, s, t, vs[..k - 1], v); }
    } else {
      NothingNamed(statics, inLoop, s);
      assert vs[..0] == [];
    }
  }

  lemma NothingNamed(statics: set<nat>, inLoop: bool, s: Ssa)
    ensures Named(statics, inLoop, s, s, [])
  {
  }

  lemma {:induction false} SyncIs(s: Ssa, vs: seq<nat>, k: nat)
    requires k <= |vs|
    ensures var t := Sync(s, vs, k);
            && t.curr == s.curr && t.updated == s.updated && t.next == s.next && t.out == s.out
            && forall v: nat :: Look(t.prev, v) == if v in vs[..k] then Look(s.curr, v) else Look(s.prev, v)
  {
    if k > 0 {
      SyncIs(s, vs, k - 1);
      assert vs[..k] == vs[..k - 1] + [vs[k - 1]];
    }
  }

  lemma {:induction false} IdentityIs(k: nat)
    ensures forall v: nat :: Look(Identity(k), v) == v
  {
    if k > 0 {
      IdentityIs(k - 1);
      forall v: nat ensures Look(Identity(k), v) == v { assert Look(Identity(k - 1), v) == v; }
    }
  }

  lemma NamedMaps(p: Program, inLoop: bool, s: Ssa, t: Ssa, vs: seq<nat>)
    requires MapsOk(p, s) && Named(p.statics, inLoop, s, t, vs)
    ensures MapsOk(p, t)
    ensures forall v: nat | v < p.vars && v in vs && Renews(p.statics, inLoop, s, v) :: Look(t.curr, v) != Look(t.prev, v)
  {
  }

  // ----- relations between the memories -----

  /** Between phases: arrays agree on `0..n-1`, scalars on their cell. */
  ghost predicate Agrees(p: Program, s: Ssa, n: nat, m: Mem, r: Mem) {
    && (forall v: nat | v < p.vars && v in p.statics :: r(Look(s.curr, v), 0) == m(v, 0))
    && (forall v: nat, k: int | v < p.vars && v !in p.statics && 0 <= k < n :: r(Look(s.curr, v), k) == m(v, k))
  }

  /** Which version holds cell `k` of an array the loop renames, at iteration `i` with `stored` already stored. */
  function Holder(t: Ssa, stored: set<nat>, i: int, v: nat, k: int): nat {
    if k < i || (k == i && v in stored) then Look(t.curr, v) else Look(t.prev, v)
  }

  /** Inside a loop that renames the arrays `re`: below the counter the new version agrees with the source array,
      from the counter up the previous one. */
  ghost predicate LoopAgrees(p: Program, t: Ssa, re: set<nat>, stored: set<nat>, n: nat, i: int, m: Mem, r: Mem) {
    && (forall v: nat | v < p.vars && v in p.statics :: r(Look(t.curr, v), 0) == m(v, 0))
    && (forall v: nat, k: int | v < p.vars && v !in p.statics && v !in re && 0 <= k < n :: r(Look(t.curr, v), k) == m(v, k))
    && (forall v: nat, k: int | v < p.vars && v !in p.statics && v in re && 0 <= k < n :: r(Holder(t, stored, i, v, k), k) == m(v, k))
  }

  /** The maps while a loop's statements are renamed. */
  ghost predicate LoopMaps(p: Program, t: Ssa, re: set<nat>) {
    && MapsOk(p, t)
    && (forall v: nat | v < p.vars && v !in p.statics && v !in re :: Look(t.prev, v) == Look(t.curr, v))
    && (forall v: nat | v < p.vars && v in re :: Look(t.prev, v) != Look(t.curr, v))
  }

  // ----- what the renaming relies on -----

  /** A read the redirection gets right.  Reads stay in bounds; of an array the loop renames, a read at the counter
      comes before the store, and a read at a constant lies below the counter. */
  predicate SafeRead(p: Program, re: set<nat>, stored: set<nat>, n: nat, i: int, v: nat, idx: Idx) {
    && v < p.vars
    && (v in p.statics ==> idx == Fixed(0))
    && (v !in p.statics ==> 0 <= At(idx, i) < n)
    && (v !in p.statics && v in re ==>
          match idx
          case Offset(k) => k != 0 || v !in stored
          case Fixed(c) => c < i || (c == i && v in stored))
  }

  predicate SafeExpr(p: Program, re: set<nat>, stored: set<nat>, n: nat, i: int, e: Expr) {
    match e
    case Lit(_) => true
    case Ctr => true
    case Read(v, idx) => SafeRead(p, re, stored, n, i, v, idx)
    case Bin(_, l, r) => SafeExpr(p, re, stored, n, i, l) && SafeExpr(p, re, stored, n, i, r)
    case IfGe(k, l, r) => if i >= k then SafeExpr(p, re, stored, n, i, l) else SafeExpr(p, re, stored, n, i, r)
  }

  predicate SafeStmt(p: Program, re: set<nat>, stored: set<nat>, n: nat, i: int, t: Stmt) {
    && t.v < p.vars && (t.v in p.statics ==> t.idx == Fixed(0)) && (t.v in re && t.v !in p.statics ==> t.idx == Offset(0))
    && SafeExpr(p, re, stored, n, i, t.e)
  }

  function Stored(body: seq<Stmt>, j: nat): set<nat>
    requires j <= |body|
  {
    set k | 0 <= k < j :: body[k].v
  }

  ghost predicate SafeLoop(p: Program, re: set<nat>, n: nat, body: seq<Stmt>) {
    forall i: nat, j: nat | i < n && j < |body| :: SafeStmt(p, re, Stored(body, j), n, i, body[j])
  }

  // ----- one iteration -----

  lemma ReadRight(p: Program, t: Ssa, re: set<nat>, stored: set<nat>, n: nat, i: int, m: Mem, r: Mem, v: nat, idx: Idx)
    requires LoopMaps(p, t, re) && LoopAgrees(p, t, re, stored, n, i, m, r) && SafeRead(p, re, stored, n, i, v, idx)
    ensures Eval(RenameExpr(t, true, Read(v, idx)), i, r) == m(v, At(idx, i))
  {
  }

  lemma {:induction false} ExprRight(p: Program, t: Ssa, re: set<nat>, stored: set<nat>, n: nat, i: int, m: Mem, r: Mem, e: Expr)
    requires LoopMaps(p, t, re) && LoopAgrees(p, t, re, stored, n, i, m, r) && SafeExpr(p, re, stored, n, i, e)
    ensures Eval(RenameExpr(t, true, e), i, r) == Eval(e, i, m)
  {
    hide LoopMaps, LoopAgrees, SafeRead;
    match e
    case Read(v, idx) => ReadRight(p, t, re, stored, n, i, m, r, v, idx);
    case Bin(op, l, r') =>
      ExprRight(p, t, re, stored, n, i, m, r, l);
      ExprRight(p, t, re, stored, n, i, m, r, r');
    case IfGe(k, l, r') =>
      if i >= k { ExprRight(p, t, re, stored, n, i, m, r, l); } else { ExprRight(p, t, re, stored, n, i, m, r, r'); }
    case _ =>
  }

  lemma StaticsRight(p: Program, t: Ssa, m: Mem, r: Mem, v: nat, k: int, x: int)
    requires MapsOk(p, t) && v < p.vars && (v in p.statics ==> k == 0)
    requires forall u: nat | u < p.vars && u in p.statics :: r(Look(t.curr, u), 0) == m(u, 0)
    ensures forall u: nat | u < p.vars && u in p.statics :: Put(r, Look(t.curr, v), k, x)(Look(t.curr, u), 0) == Put(m, v, k, x)(u, 0)
  {
  }

  lemma PlainRight(p: Program, t: Ssa, re: set<nat>, n: nat, m: Mem, r: Mem, v: nat, k: int, x: int)
    requires MapsOk(p, t) && v < p.vars
    requires forall u: nat, j: int | u < p.vars && u !in p.statics && u !in re && 0 <= j < n :: r(Look(t.curr, u), j) == m(u, j)
    ensures forall u: nat, j: int | u < p.vars && u !in p.statics && u !in re && 0 <= j < n ::
              Put(r, Look(t.curr, v), k, x)(Look(t.curr, u), j) == Put(m, v, k, x)(u, j)
  {
  }

  lemma RenamedRight(p: Program, t: Ssa, re: set<nat>, stored: set<nat>, n: nat, i: int, m: Mem, r: Mem, v: nat, k: int, x: int)
    requires LoopMaps(p, t, re) && v < p.vars && (v in re && v !in p.statics ==> k == i)
    requires forall u: nat, j: int | u < p.vars && u !in p.statics && u in re && 0 <= j < n :: r(Holder(t, stored, i, u, j), j) == m(u, j)
    ensures forall u: nat, j: int | u < p.vars && u !in p.statics && u in re && 0 <= j < n ::
              Put(r, Look(t.curr, v), k, x)(Holder(t, stored + {v}, i, u, j), j) == Put(m, v, k, x)(u, j)
  {
    forall u: nat, j: int | u < p.vars && u !in p.statics && u in re && 0 <= j < n
      ensures Put(r, Look(t.curr, v), k, x)(Holder(t, stored + {v}, i, u, j), j) == Put(m, v, k, x)(u, j)
    {
      assert r(Holder(t, stored, i, u, j), j) == m(u, j);
    }
  }

  lemma StmtRight(p: Program, t: Ssa, re: set<nat>, stored: set<nat>, n: nat, i: int, m: Mem, r: Mem, st: Stmt)
    requires LoopMaps(p, t, re) && LoopAgrees(p, t, re, stored, n, i, m, r) && SafeStmt(p, re, stored, n, i, st)
    ensures LoopAgrees(p, t, re, stored + {st.v}, n, i, Step(st, i, m), Step(RenameStmt(t, true, st), i, r))
  {
    hide RenameExpr, SafeExpr, Eval, Holder, MapsOk, Put, Look;
    ExprRight(p, t, re, stored, n, i, m, r, st.e);
    var k, x := At(st.idx, i), Eval(st.e, i, m);
    StaticsRight(p, t, m, r, st.v, k, x);
    PlainRight(p, t, re, n, m, r, st.v, k, x);
    RenamedRight(p, t, re, stored, n, i, m, r, st.v, k, x);
  }

  lemma StoredStep(body: seq<Stmt>, j: nat)
    requires j < |body|
    ensures Stored(body, j + 1) == Stored(body, j) + {body[j].v} && Stored(body, 0) == {}
  {
  }

  lemma {:induction false} BodyRight(p: Program, t: Ssa, re: set<nat>, n: nat, i: nat, m: Mem, r: Mem, body: seq<Stmt>, j: nat)
    requires j <= |body| && i < n && SafeLoop(p, re, n, body)
    requires LoopMaps(p, t, re) && LoopAgrees(p, t, re, {}, n, i, m, r)
    ensures LoopAgrees(p, t, re, Stored(body, j), n, i, Steps(body, j, i, m), Steps(RenameBody(t, true, body), j, i, r))
  {
    hide LoopMaps, LoopAgrees, SafeStmt, Stored, Step, RenameStmt;
    if j > 0 {
      BodyRight(p, t, re, n, i, m, r, body, j - 1);
      StoredStep(body, j - 1);
      StmtRight(p, t, re, Stored(body, j - 1), n, i, Steps(body, j - 1, i, m), Steps(RenameBody(t, true, body), j - 1, i, r), body[j - 1]);
    } else {
      NothingStored(body);
    }
  }

  lemma NothingStored(body: seq<Stmt>)
    ensures Stored(body, 0) == {}
  {
  }

  /** Once every renamed array is stored, the next iteration can start. */
  lemma NextIteration(p: Program, t: Ssa, re: set<nat>, stored: set<nat>, n: nat, i: int, m: Mem, r: Mem)
    requires LoopAgrees(p, t, re, stored, n, i, m, r) && re <= stored
    ensures LoopAgrees(p, t, re, {}, n, i + 1, m, r)
  {
  }

  /** AT ITERATION i of a loop the new version of each renamed array agrees with the source array below i and the
      previous version from i upward. */
  lemma {:induction false} LoopRight(p: Program, t: Ssa, re: set<nat>, n: nat, i: nat, m: Mem, r: Mem, body: seq<Stmt>)
    requires i <= n && SafeLoop(p, re, n, body) && re <= Stored(body, |body|)
    requires LoopMaps(p, t, re) && LoopAgrees(p, t, re, {}, n, 0, m, r)
    ensures LoopAgrees(p, t, re, {}, n, i, Iterate(body, i, m), Iterate(RenameBody(t, true, body), i, r))
  {
    hide LoopMaps, LoopAgrees, SafeLoop, Stored, Steps, RenameStmt;
    if i > 0 {
      LoopRight(p, t, re, n, i - 1, m, r, body);
      var m1, r1 := Iterate(body, i - 1, m), Iterate(RenameBody(t, true, body), i - 1, r);
      BodyRight(p, t, re, n, i - 1, m1, r1, body, |body|);
      NextIteration(p, t, re, Stored(body, |body|), n, i - 1, Steps(body, |body|, i - 1, m1), Steps(RenameBody(t, true, body), |body|, i - 1, r1));
    }
  }

  // ----- preheader copies -----

  lemma {:induction false} CopiesPrefix(cs: seq<(nat, nat)>, c: (nat, nat), k: nat, m: Mem)
    requires k <= |cs|
    ensures Copies(cs + [c], k, m) == Copies(cs, k, m)
  {
    if k > 0 { CopiesPrefix(cs, c, k - 1, m); }
  }

  ghost predicate Copied(p: Program, t: Ssa, vs: seq<nat>, r: Mem, c: Mem) {
    && (forall x: nat | x in vs && x in p.statics :: c(Look(t.curr, x), 0) == r(Look(t.prev, x), 0))
    && (forall u: nat, j: int :: c(u, j) == r(u, j) || (j == 0 && exists x: nat :: x in vs && x in p.statics && u == Look(t.curr, x)))
  }

  ghost predicate KnownVars(p: Program, body: seq<Stmt>) { forall j | 0 <= j < |body| :: body[j].v < p.vars }

  lemma OneMoreCopy(p: Program, t: Ssa, vs: seq<nat>, x: nat, r: Mem, c: Mem)
    requires MapsOk(p, t) && (forall y | y in vs :: y < p.vars) && x < p.vars && x in p.statics && Copied(p, t, vs, r, c)
    ensures Copied(p, t, if x in vs then vs else vs + [x], r, Put(c, Look(t.curr, x), 0, c(Look(t.prev, x), 0)))
  {
    var ws := if x in vs then vs else vs + [x];
    assert forall y :: y in ws <==> y in vs || y == x;
    assert c(Look(t.prev, x), 0) == r(Look(t.prev, x), 0);
  }

  lemma {:induction false} CopiesCopied(p: Program, t: Ssa, body: seq<Stmt>, k: nat, r: Mem)
    requires k <= |body| && MapsOk(p, t) && KnownVars(p, body)
    ensures var cs := ScalarCopies(p.statics, t, body, k); Copied(p, t, Written(body, k), r, Copies(cs, |cs|, r))
  {
    hide Copied, MapsOk, Look, Written;
    if k > 0 {
      CopiesCopied(p, t, body, k - 1, r);
      var cs, vs, x := ScalarCopies(p.statics, t, body, k - 1), Written(body, k - 1), body[k - 1].v;
      WrittenKnown(p, body, k - 1);
      WrittenStep(body, k);
      if x in p.statics {
        CopiesPrefix(cs, (Look(t.curr, x), Look(t.prev, x)), |cs|, r);
        OneMoreCopy(p, t, vs, x, r, Copies(cs, |cs|, r));
      } else {
        NoCopy(p, t, vs, x, r, Copies(cs, |cs|, r));
        assert cs + [] == cs;
      }
    } else {
      assert Written(body, 0) == [] by { NoneWritten(body); }
      NothingCopied(p, t, r);
    }
  }

  lemma WrittenKnown(p: Program, body: seq<Stmt>, k: nat)
    requires k <= |body| && KnownVars(p, body)
    ensures forall y | y in Written(body, k) :: y < p.vars
  {
    hide Written;
    WrittenDistinct(body, k);
  }

  lemma WrittenStep(body: seq<Stmt>, k: nat)
    requires 0 < k <= |body|
    ensures Written(body, k) == if body[k - 1].v in Written(body, k - 1) then Written(body, k - 1) else Written(body, k - 1) + [body[k - 1].v]
  {
    assert Written(body, k - 1) + [] == Written(body, k - 1);
  }

  lemma NoneWritten(body: seq<Stmt>)
    ensures Written(body, 0) == []
  {
  }

  lemma NoCopy(p: Program, t: Ssa, vs: seq<nat>, x: nat, r: Mem, c: Mem)
    requires x !in p.statics && Copied(p, t, vs, r, c)
    ensures Copied(p, t, if x in vs then vs else vs + [x], r, c)
  {
    var ws := if x in vs then vs else vs + [x];
    assert forall y :: y in ws <==> y in vs || y == x;
    assert forall y | y in vs && y in p.statics :: y in ws;
  }

  lemma NothingCopied(p: Program, t: Ssa, r: Mem)
    ensures Copied(p, t, [], r, r)
  {
  }

  // ----- whole phases -----

  /** The arrays a loop renames. */
  function Reversioned(p: Program, s: Ssa, body: seq<Stmt>): set<nat> {
    set v | v in Written(body, |body|) && v in s.updated && v !in p.statics
  }

  lemma WrittenStored(p: Program, s: Ssa, body: seq<Stmt>)
    ensures Reversioned(p, s, body) <= Stored(body, |body|)
  {
    WrittenDistinct(body, |body|);
  }

  /** The maps a loop is renamed with, and the state in which its first iteration starts. */
  lemma LoopStart(p: Program, s: Ssa, n: nat, body: seq<Stmt>, m: Mem, r: Mem)
    requires MapsOk(p, s) && Synced(p, s) && Agrees(p, s, n, m, r) && KnownVars(p, body)
    ensures var vs := Written(body, |body|); var t := NewNames(p.statics, true, s, vs, |vs|);
            var cs := ScalarCopies(p.statics, t, body, |body|);
            && Named(p.statics, true, s, t, vs) && LoopMaps(p, t, Reversioned(p, s, body))
            && LoopAgrees(p, t, Reversioned(p, s, body), {}, n, 0, m, Copies(cs, |cs|, r))
  {
    hide ScalarCopies, Copies, Written, NewNames, Look, Named, MapsOk, Synced, Agrees, LoopMaps, LoopAgrees, Copied, Reversioned;
    var vs := Written(body, |body|);
    var t := NewNames(p.statics, true, s, vs, |vs|);
    var cs := ScalarCopies(p.statics, t, body, |body|);
    WrittenDistinct(body, |body|);
    NewNamesNamed(p.statics, true, s, vs, |vs|);
    assert vs[..|vs|] == vs;
    NamedMaps(p, true, s, t, vs);
    CopiesCopied(p, t, body, |body|, r);
    LoopMapsOk(p, s, t, body);
    assert forall x | x in vs :: x < p.vars;
    FirstIteration(p, s, t, n, body, m, r, Copies(cs, |cs|, r));
  }

  lemma NamedAt(statics: set<nat>, inLoop: bool, s: Ssa, t: Ssa, vs: seq<nat>, v: nat)
    requires Named(statics, inLoop, s, t, vs)
    ensures if v in vs && v in s.updated && (inLoop || v in statics)
            then Look(t.prev, v) == Look(s.curr, v) && Look(t.curr, v) >= s.next
            else Look(t.prev, v) == Look(s.prev, v) && Look(t.curr, v) == Look(s.curr, v)
  {
    hide Look;
  }

  /** The copies change no version of an array. */
  lemma CopiedArray(p: Program, t: Ssa, vs: seq<nat>, r: Mem, c: Mem, v: nat, k: int)
    requires MapsOk(p, t) && Copied(p, t, vs, r, c) && (forall x | x in vs :: x < p.vars) && v < p.vars && v !in p.statics
    ensures c(Look(t.curr, v), k) == r(Look(t.curr, v), k) && c(Look(t.prev, v), k) == r(Look(t.prev, v), k)
  {
    hide Look;
  }

  lemma CopiedScalar(p: Program, s: Ssa, t: Ssa, vs: seq<nat>, m: Mem, r: Mem, c: Mem, v: nat)
    requires MapsOk(p, t) && Synced(p, s) && Copied(p, t, vs, r, c) && Named(p.statics, true, s, t, vs) && (forall x | x in vs :: x < p.vars)
    requires v < p.vars && v in p.statics && r(Look(s.curr, v), 0) == m(v, 0)
    ensures c(Look(t.curr, v), 0) == m(v, 0)
  {
    hide Look, Named;
    NamedAt(p.statics, true, s, t, vs, v);
  }

  lemma FirstIteration(p: Program, s: Ssa, t: Ssa, n: nat, body: seq<Stmt>, m: Mem, r: Mem, c: Mem)
    requires MapsOk(p, t) && Synced(p, s) && Agrees(p, s, n, m, r)
    requires Named(p.statics, true, s, t, Written(body, |body|)) && Copied(p, t, Written(body, |body|), r, c)
    requires forall x | x in Written(body, |body|) :: x < p.vars
    ensures LoopAgrees(p, t, Reversioned(p, s, body), {}, n, 0, m, c)
  {
    hide Written, Look, Named, Copied, MapsOk, Synced;
    var vs, re := Written(body, |body|), Reversioned(p, s, body);
    forall v: nat | v < p.vars && v in p.statics ensures c(Look(t.curr, v), 0) == m(v, 0) {
      CopiedScalar(p, s, t, vs, m, r, c, v);
    }
    forall v: nat, k: int | v < p.vars && v !in p.statics && v !in re && 0 <= k < n ensures c(Look(t.curr, v), k) == m(v, k) {
      CopiedArray(p, t, vs, r, c, v, k);
      NamedAt(p.statics, true, s, t, vs, v);
    }
    forall v: nat, k: int | v < p.vars && v !in p.statics && v in re && 0 <= k < n ensures c(Holder(t, {}, 0, v, k), k) == m(v, k) {
      CopiedArray(p, t, vs, r, c, v, k);
      NamedAt(p.statics, true, s, t, vs, v);
    }
  }

  lemma LoopMapsOk(p: Program, s: Ssa, t: Ssa, body: seq<Stmt>)
    requires MapsOk(p, s) && Synced(p, s) && Named(p.statics, true, s, t, Written(body, |body|))
    ensures LoopMaps(p, t, Reversioned(p, s, body))
  {
    hide Written, Look, Named;
    var vs, re := Written(body, |body|), Reversioned(p, s, body);
    NamedMaps(p, true, s, t, vs);
    forall v: nat | v < p.vars && v !in p.statics && v !in re ensures Look(t.prev, v) == Look(t.curr, v) {
      NamedAt(p.statics, true, s, t, vs, v);
    }
    forall v: nat | v < p.vars && v in re ensures Look(t.prev, v) != Look(t.curr, v) {
      NamedAt(p.statics, true, s, t, vs, v);
    }
  }

  lemma LoopPhaseRight(p: Program, s: Ssa, n: nat, body: seq<Stmt>, m: Mem, r: Mem)
    requires MapsOk(p, s) && Synced(p, s) && Agrees(p, s, n, m, r) && KnownVars(p, body)
    requires SafeLoop(p, Reversioned(p, s, body), n, body)
    ensures var s' := ProcessLoop(p.statics, s, body);
            && MapsOk(p, s') && Synced(p, s') && s'.updated == s.updated + (set v | v in Written(body, |body|))
            && |s'.out| == |s.out| + 1 && s'.out[..|s.out|] == s.out
            && Agrees(p, s', n, Iterate(body, n, m), ExecRenamed(s'.out[|s.out|], n, r))
  {
    hide ScalarCopies, Copies, Written, NewNames, Look, SafeLoop, Iterate, RenameBody, Stored;
    var vs := Written(body, |body|);
    var t := NewNames(p.statics, true, s, vs, |vs|);
    var re := Reversioned(p, s, body);
    var cs := ScalarCopies(p.statics, t, body, |body|);
    var c := Copies(cs, |cs|, r);
    LoopStart(p, s, n, body, m, r);
    WrittenStored(p, s, body);
    LoopRight(p, t, re, n, n, m, c, body);
    var t1 := t.(out := t.out + [Renamed(cs, Loop(RenameBody(t, true, body)))]);
    SyncIs(t1, vs, |vs|);
    assert vs[..|vs|] == vs;
    AfterLoop(p, s, t, ProcessLoop(p.statics, s, body), re, n, vs, Iterate(body, n, m), Iterate(RenameBody(t, true, body), n, c));
  }

  lemma AfterMaps(p: Program, s: Ssa, t: Ssa, s': Ssa, vs: seq<nat>)
    requires Synced(p, s) && MapsOk(p, t) && Named(p.statics, true, s, t, vs)
    requires s'.curr == t.curr && s'.updated == t.updated && s'.next == t.next
    requires forall v: nat :: Look(s'.prev, v) == if v in vs then Look(t.curr, v) else Look(t.prev, v)
    ensures MapsOk(p, s') && Synced(p, s')
  {
    hide Look, Named;
    forall v: nat | v < p.vars && (v !in p.statics || v !in s'.updated) ensures Look(s'.prev, v) == Look(s'.curr, v) {
      NamedAt(p.statics, true, s, t, vs, v);
      UpdatedAt(p.statics, true, s, t, vs, v);
    }
  }

  lemma UpdatedAt(statics: set<nat>, inLoop: bool, s: Ssa, t: Ssa, vs: seq<nat>, v: nat)
    requires Named(statics, inLoop, s, t, vs)
    ensures v in t.updated <==> v in s.updated || (v in vs && (inLoop || v in statics))
  {
  }

  lemma AfterAgrees(p: Program, t: Ssa, s': Ssa, re: set<nat>, n: nat, m: Mem, r: Mem)
    requires LoopAgrees(p, t, re, {}, n, n, m, r) && s'.curr == t.curr
    ensures Agrees(p, s', n, m, r)
  {
    hide Look;
    forall v: nat, k: int | v < p.vars && v !in p.statics && 0 <= k < n ensures r(Look(s'.curr, v), k) == m(v, k) {
      if v in re { assert Holder(t, {}, n, v, k) == Look(t.curr, v); }
    }
  }

  lemma AfterLoop(p: Program, s: Ssa, t: Ssa, s': Ssa, re: set<nat>, n: nat, vs: seq<nat>, m: Mem, r: Mem)
    requires Synced(p, s) && LoopMaps(p, t, re) && Named(p.statics, true, s, t, vs) && LoopAgrees(p, t, re, {}, n, n, m, r)
    requires s'.curr == t.curr && s'.updated == t.updated && s'.next == t.next
    requires forall v: nat :: Look(s'.prev, v) == if v in vs then Look(t.curr, v) else Look(t.prev, v)
    ensures MapsOk(p, s') && Synced(p, s') && Agrees(p, s', n, m, r) && s'.updated == s.updated + (set v | v in vs)
  {
    hide Look, Named, MapsOk, Synced, LoopAgrees, Agrees;
    AfterMaps(p, s, t, s', vs);
    AfterAgrees(p, t, s', re, n, m, r);
    forall v: nat ensures v in s'.updated <==> v in s.updated || v in vs { UpdatedAt(p.statics, true, s, t, vs, v); }
    assert s'.updated == s.updated + (set v | v in vs);
  }

  // ----- phases outside loops -----

  /** The scalars an outer block renames. */
  function ReversionedOuter(p: Program, s: Ssa, body: seq<Stmt>): set<nat> {
    set v | v in Written(body, |body|) && v in s.updated && v in p.statics
  }

  /** Inside the block a renamed scalar is right once it has been stored. */
  ghost predicate OuterAgrees(p: Program, t: Ssa, re: set<nat>, stored: set<nat>, n: nat, m: Mem, r: Mem) {
    && (forall v: nat | v < p.vars && v in p.statics && (v in re ==> v in stored) :: r(Look(t.curr, v), 0) == m(v, 0))
    && (forall v: nat, k: int | v < p.vars && v !in p.statics && 0 <= k < n :: r(Look(t.curr, v), k) == m(v, k))
  }

  /** An outer block reads a scalar it renames only after storing it. */
  predicate SafeOuterExpr(p: Program, re: set<nat>, stored: set<nat>, n: nat, e: Expr) {
    match e
    case Lit(_) => true
    case Ctr => true
    case Read(v, idx) =>
      v < p.vars && if v in p.statics then idx == Fixed(0) && (v in re ==> v in stored) else 0 <= At(idx, 0) < n
    case Bin(_, l, r) => SafeOuterExpr(p, re, stored, n, l) && SafeOuterExpr(p, re, stored, n, r)
    case IfGe(k, l, r) => if 0 >= k then SafeOuterExpr(p, re, stored, n, l) else SafeOuterExpr(p, re, stored, n, r)
  }

  predicate SafeOuterStmt(p: Program, re: set<nat>, stored: set<nat>, n: nat, t: Stmt) {
    t.v < p.vars && (t.v in p.statics ==> t.idx == Fixed(0)) && SafeOuterExpr(p, re, stored, n, t.e)
  }

  ghost predicate SafeOuter(p: Program, re: set<nat>, n: nat, body: seq<Stmt>) {
    forall j: nat | j < |body| :: SafeOuterStmt(p, re, Stored(body, j), n, body[j])
  }

  lemma {:induction false} OuterExprRight(p: Program, t: Ssa, re: set<nat>, stored: set<nat>, n: nat, m: Mem, r: Mem, e: Expr)
    requires OuterAgrees(p, t, re, stored, n, m, r) && SafeOuterExpr(p, re, stored, n, e)
    ensures Eval(RenameExpr(t, false, e), 0, r) == Eval(e, 0, m)
  {
    hide Look;
    match e
    case Bin(op, l, r') =>
      OuterExprRight(p, t, re, stored, n, m, r, l);
      OuterExprRight(p, t, re, stored, n, m, r, r');
    case IfGe(k, l, r') =>
      if 0 >= k { OuterExprRight(p, t, re, stored, n, m, r, l); } else { OuterExprRight(p, t, re, stored, n, m, r, r'); }
    case _ =>
  }

  lemma OuterStmtRight(p: Program, t: Ssa, re: set<nat>, stored: set<nat>, n: nat, m: Mem, r: Mem, st: Stmt)
    requires MapsOk(p, t) && OuterAgrees(p, t, re, stored, n, m, r) && SafeOuterStmt(p, re, stored, n, st)
    ensures OuterAgrees(p, t, re, stored + {st.v}, n, Step(st, 0, m), Step(RenameStmt(t, false, st), 0, r))
  {
    hide RenameExpr, SafeOuterExpr, Eval, Look;
    OuterExprRight(p, t, re, stored, n, m, r, st.e);
  }

  lemma {:induction false} OuterBodyRight(p: Program, t: Ssa, re: set<nat>, n: nat, m: Mem, r: Mem, body: seq<Stmt>, j: nat)
    requires j <= |body| && SafeOuter(p, re, n, body) && MapsOk(p, t) && OuterAgrees(p, t, re, {}, n, m, r)
    ensures OuterAgrees(p, t, re, Stored(body, j), n, Steps(body, j, 0, m), Steps(RenameBody(t, false, body), j, 0, r))
  {
    hide MapsOk, OuterAgrees, SafeOuterStmt, Stored, Step, RenameStmt;
    if j > 0 {
      OuterBodyRight(p, t, re, n, m, r, body, j - 1);
      StoredStep(body, j - 1);
      OuterStmtRight(p, t, re, Stored(body, j - 1), n, Steps(body, j - 1, 0, m), Steps(RenameBody(t, false, body), j - 1, 0, r), body[j - 1]);
    } else {
      NothingStored(body);
    }
  }

  lemma OuterStart(p: Program, s: Ssa, t: Ssa, n: nat, body: seq<Stmt>, m: Mem, r: Mem)
    requires Agrees(p, s, n, m, r) && Named(p.statics, false, s, t, Written(body, |body|))
    ensures OuterAgrees(p, t, ReversionedOuter(p, s, body), {}, n, m, r)
  {
    hide Look, Named, Written;
    forall v: nat | v < p.vars ensures (v in p.statics && v in ReversionedOuter(p, s, body)) || Look(t.curr, v) == Look(s.curr, v) {
      NamedAt(p.statics, false, s, t, Written(body, |body|), v);
    }
  }

  lemma OuterEnd(p: Program, t: Ssa, re: set<nat>, stored: set<nat>, n: nat, m: Mem, r: Mem)
    requires OuterAgrees(p, t, re, stored, n, m, r) && re <= stored
    ensures Agrees(p, t, n, m, r)
  {
    hide Look;
  }

  lemma OuterSynced(p: Program, s: Ssa, t: Ssa, vs: seq<nat>)
    requires Synced(p, s) && Named(p.statics, false, s, t, vs)
    ensures Synced(p, t)
  {
    hide Look, Named;
    forall v: nat | v < p.vars && (v !in p.statics || v !in t.updated) ensures Look(t.prev, v) == Look(t.curr, v) {
      NamedAt(p.statics, false, s, t, vs, v);
      UpdatedAt(p.statics, false, s, t, vs, v);
    }
  }

  lemma OuterPhaseRight(p: Program, s: Ssa, n: nat, body: seq<Stmt>, m: Mem, r: Mem)
    requires MapsOk(p, s) && Synced(p, s) && Agrees(p, s, n, m, r) && SafeOuter(p, ReversionedOuter(p, s, body), n, body)
    ensures var s' := ProcessOuter(p.statics, s, body);
            && MapsOk(p, s') && Synced(p, s')
            && |s'.out| == |s.out| + 1 && s'.out[..|s.out|] == s.out
            && Agrees(p, s', n, Steps(body, |body|, 0, m), ExecRenamed(s'.out[|s.out|], n, r))
  {
    hide Written, NewNames, Look, SafeOuter, Steps, RenameBody, Stored, MapsOk, Synced, Agrees, OuterAgrees, ReversionedOuter;
    var vs := Written(body, |body|);
    var t := NewNames(p.statics, false, s, vs, |vs|);
    var re := ReversionedOuter(p, s, body);
    WrittenDistinct(body, |body|);
    NewNamesNamed(p.statics, false, s, vs, |vs|);
    assert vs[..|vs|] == vs;
    NamedMaps(p, false, s, t, vs);
    OuterStart(p, s, t, n, body, m, r);
    OuterBodyRight(p, t, re, n, m, r, body, |body|);
    OuterStored(p, s, body);
    var m', r' := Steps(body, |body|, 0, m), Steps(RenameBody(t, false, body), |body|, 0, r);
    OuterEnd(p, t, re, Stored(body, |body|), n, m', r');
    OuterSynced(p, s, t, vs);
    OutOnly(p, t, ProcessOuter(p.statics, s, body), n, m', r');
  }

  lemma OuterStored(p: Program, s: Ssa, body: seq<Stmt>)
    ensures ReversionedOuter(p, s, body) <= Stored(body, |body|)
  {
    WrittenDistinct(body, |body|);
  }

  lemma OutOnly(p: Program, t: Ssa, s': Ssa, n: nat, m: Mem, r: Mem)
    requires s' == t.(out := s'.out) && MapsOk(p, t) && Synced(p, t) && Agrees(p, t, n, m, r)
    ensures MapsOk(p, s') && Synced(p, s') && Agrees(p, s', n, m, r)
  {
    hide Look;
  }

  // ----- whole programs -----

  /** The fragment: known variables, and in each phase only reads that the redirection gets right. */
  ghost predicate SafePhase(p: Program, j: nat, n: nat)
    requires j < |p.phases|
  {
    var s := Convert(p, j);
    KnownVars(p, p.phases[j].body) &&
    match p.phases[j]
    case Loop(body) => SafeLoop(p, Reversioned(p, s, body), n, body)
    case Outer(body) => SafeOuter(p, ReversionedOuter(p, s, body), n, body)
  }

  lemma RunRenamedStep(out: seq<Renamed>, last: Renamed, n: nat, m: Mem)
    ensures RunRenamed(out + [last], n, m) == ExecRenamed(last, n, RunRenamed(out, n, m))
  {
    assert (out + [last])[..|out|] == out;
  }

  lemma StartAgrees(p: Program, n: nat, m: Mem, r: Mem)
    requires forall v: nat, k: int | v < p.vars :: r(v, k) == m(v, k)
    ensures MapsOk(p, Start(p)) && Synced(p, Start(p)) && Agrees(p, Start(p), n, m, r)
  {
    IdentityIs(p.vars);
  }

  /** ARRAY SSA IS CORRECT: whatever the fresh versions hold at first, after every phase the current version of each
      array equals the source array on `0..N-1`, and the current version of each scalar the scalar. */
  lemma {:induction false} ConversionCorrect(p: Program, j: nat, n: nat, m: Mem, r: Mem)
    requires j <= |p.phases| && forall i | 0 <= i < j :: SafePhase(p, i, n)
    requires forall v: nat, k: int | v < p.vars :: r(v, k) == m(v, k)
    ensures MapsOk(p, Convert(p, j)) && Synced(p, Convert(p, j))
    ensures Agrees(p, Convert(p, j), n, Run(p.phases, j, n, m), RunRenamed(Convert(p, j).out, n, r))
  {
    hide MapsOk, Synced, Agrees, SafeLoop, SafeOuter, ProcessLoop, ProcessOuter, Reversioned, ReversionedOuter, Iterate, Steps, ExecRenamed;
    if j == 0 {
      StartAgrees(p, n, m, r);
    } else {
      ConversionCorrect(p, j - 1, n, m, r);
      assert SafePhase(p, j - 1, n);
      var s, m1, r1 := Convert(p, j - 1), Run(p.phases, j - 1, n, m), RunRenamed(Convert(p, j - 1).out, n, r);
      match p.phases[j - 1]
      case Loop(body) =>
        LoopPhaseRight(p, s, n, body, m1, r1);
        var s' := ProcessLoop(p.statics, s, body);
        assert s'.out == s.out + [s'.out[|s.out|]];
        RunRenamedStep(s.out, s'.out[|s.out|], n, r);
      case Outer(body) =>
        OuterPhaseRight(p, s, n, body, m1, r1);
        var s' := ProcessOuter(p.statics, s, body);
        assert s'.out == s.out + [s'.out[|s.out|]];
        RunRenamedStep(s.out, s'.out[|s.out|], n, r);
    }
  }

  // ----- the redirection of reads is exactly right -----

  /** EXACTLY WHEN a read of a renamed array is redirected right: for every pair of memories the loop can be in, the
      renamed read gives the source's value if and only if the read is safe. */
  lemma ReadExact(p: Program, t: Ssa, re: set<nat>, stored: set<nat>, n: nat, i: int, v: nat, idx: Idx)
    requires LoopMaps(p, t, re) && v < p.vars && v !in p.statics && v in re && 0 <= At(idx, i) < n
    ensures (forall m: Mem, r: Mem | LoopAgrees(p, t, re, stored, n, i, m, r) :: Eval(RenameExpr(t, true, Read(v, idx)), i, r) == m(v, At(idx, i)))
            <==> SafeRead(p, re, stored, n, i, v, idx)
  {
    hide LoopMaps, LoopAgrees, SafeRead;
    if SafeRead(p, re, stored, n, i, v, idx) {
      forall m: Mem, r: Mem | LoopAgrees(p, t, re, stored, n, i, m, r)
        ensures Eval(RenameExpr(t, true, Read(v, idx)), i, r) == m(v, At(idx, i))
      {
        ReadRight(p, t, re, stored, n, i, m, r, v, idx);
      }
    } else {
      var m, r := UnsafeRead(p, t, re, stored, n, i, v, idx);
    }
  }

  /** Memories in which an unsafe read meets a cell nobody constrains. */
  lemma UnsafeRead(p: Program, t: Ssa, re: set<nat>, stored: set<nat>, n: nat, i: int, v: nat, idx: Idx) returns (m: Mem, r: Mem)
    requires LoopMaps(p, t, re) && v < p.vars && v !in p.statics && v in re && 0 <= At(idx, i) < n && !SafeRead(p, re, stored, n, i, v, idx)
    ensures LoopAgrees(p, t, re, stored, n, i, m, r) && Eval(RenameExpr(t, true, Read(v, idx)), i, r) != m(v, At(idx, i))
  {
    var name, k := if CtrCanExceed(idx) then Look(t.curr, v) else Look(t.prev, v), At(idx, i);
    m := (u: nat, j: int) => 0;
    r := (u: nat, j: int) => if u == name && j == k then 1 else 0;
    assert name != Holder(t, stored, i, v, k);
  }

  /** EXACTLY WHEN an outer block's read of a scalar is sent right: for every pair of memories the block can be in, if
      and only if the scalar is not renamed there or already stored. */
  lemma OuterReadExact(p: Program, t: Ssa, re: set<nat>, stored: set<nat>, n: nat, v: nat)
    requires MapsOk(p, t) && v < p.vars && v in p.statics
    ensures (forall m: Mem, r: Mem | OuterAgrees(p, t, re, stored, n, m, r) :: Eval(RenameExpr(t, false, Read(v, Fixed(0))), 0, r) == m(v, 0))
            <==> (v in re ==> v in stored)
  {
    hide Look;
    if v in re && v !in stored {
      var m: Mem := (u: nat, j: int) => 0;
      var r: Mem := (u: nat, j: int) => if u == Look(t.curr, v) && j == 0 then 1 else 0;
      assert OuterAgrees(p, t, re, stored, n, m, r);
      assert Eval(RenameExpr(t, false, Read(v, Fixed(0))), 0, r) != m(v, 0);
    }
  }
}
