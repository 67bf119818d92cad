/** The induction driver: base case, inductive step, and strengthening of the postcondition round by round. */
module Driver {

  /** One conjunct of a formula about the size and a final state; `select` says whether it reads an array, and
      `literalFalse` whether it is the constant `false`. */
  datatype Conjunct<!S> = Conjunct(holds: (int, S) -> bool, select: bool, literalFalse: bool)

  /** `reach(n, s)`: the program of size n can end in s.  `body(n, s, s')`: the differenced program leads from s, an
      end at size n-1, to s'. */
  datatype System<!S> = System(reach: (int, S) -> bool, body: (int, S, S) -> bool)

  /** The three questions the driver asks: does the inductive step close, does the base case hold, and what would the
      step need. */
  datatype Solver<!S> = Solver(
    closes: seq<Conjunct<S>> -> bool, baseHolds: seq<Conjunct<S>> -> bool, pre: seq<Conjunct<S>> -> seq<Conjunct<S>>,
    satisfiable: seq<Conjunct<S>> -> bool)

  ghost predicate All<S>(post: seq<Conjunct<S>>, n: int, s: S) { forall k | 0 <= k < |post| :: post[k].holds(n, s) }

  /** The postcondition holds after the program of every size. */
  ghost predicate Valid<S(!new)>(sys: System<S>, post: seq<Conjunct<S>>) {
    forall n: int, s: S | n >= 1 && sys.reach(n, s) :: All(post, n, s)
  }

  ghost predicate Base<S(!new)>(sys: System<S>, post: seq<Conjunct<S>>) {
    forall s: S | sys.reach(1, s) :: All(post, 1, s)
  }

  /** The inductive step: the hypothesis at size n-1 and the body give the postcondition at size n. */
  ghost predicate Step<S(!new)>(sys: System<S>, post: seq<Conjunct<S>>) {
    forall n: int, s: S, s': S | n >= 2 && All(post, n - 1, s) && sys.body(n, s, s') :: All(post, n, s')
  }

  /** What differencing provides: an end at size n comes from an end at size n-1 through the body. */
  ghost predicate Differenced<S(!new)>(sys: System<S>) {
    forall n: int, s': S | n >= 2 && sys.reach(n, s') :: exists s: S :: sys.reach(n - 1, s) && sys.body(n, s, s')
  }

  /** Only the conjuncts that read an array are kept. */
  function Kept<S>(pre: seq<Conjunct<S>>): seq<Conjunct<S>> {
    if |pre| == 0 then [] else Kept(pre[..|pre| - 1]) + if pre[|pre| - 1].select then [pre[|pre| - 1]] else []
  }

  /** The kept precondition demands what the array-reading conjuncts demand, and nothing else. */
  lemma {:induction false} KeptMeans<S>(pre: seq<Conjunct<S>>, n: int, s: S)
    ensures All(Kept(pre), n, s) <==> forall k | 0 <= k < |pre| && pre[k].select :: pre[k].holds(n, s)
    ensures Kept(pre) == [] <==> forall k | 0 <= k < |pre| :: !pre[k].select
  {
    if |pre| > 0 {
      var front, c := pre[..|pre| - 1], pre[|pre| - 1];
      KeptMeans(front, n, s);
      assert forall k | 0 <= k < |front| :: pre[k] == front[k];
      if c.select {
        assert Kept(pre)[..|Kept(front)|] == Kept(front) && Kept(pre)[|Kept(front)|] == c;
        assert forall k | 0 <= k < |Kept(front)| :: Kept(pre)[k] == Kept(front)[k];
      } else {
        assert Kept(pre) == Kept(front);
      }
    }
  }

  /** `N` becomes `N + 1`: a condition on the state before the step, read as one on the state after it. */
  function Shift<S(!new)>(post: seq<Conjunct<S>>): (r: seq<Conjunct<S>>)
    ensures |r| == |post|
    ensures forall k: nat, n: int, s: S | k < |r| :: r[k].holds(n, s) == post[k].holds(n + 1, s)
  {
    seq(|post|, k requires 0 <= k < |post| =>
      Conjunct((n: int, s: S) => post[k].holds(n + 1, s), post[k].select, post[k].literalFalse))
  }

  /** The contract of `compute_pre`: hypothesis, kept precondition and body imply the postcondition. */
  ghost predicate PreOk<S(!new)>(sys: System<S>, post: seq<Conjunct<S>>, pre: seq<Conjunct<S>>) {
    forall n: int, s: S, s': S | n >= 2 && All(post, n - 1, s) && All(Kept(pre), n, s) && sys.body(n, s, s') :: All(post, n, s')
  }

  ghost predicate SolverOk<S(!new)>(sys: System<S>, sol: Solver<S>) {
    && (forall post :: sol.closes(post) <==> Step(sys, post))
    && (forall post :: sol.baseHolds(post) <==> Base(sys, post))
    && (forall post :: PreOk(sys, post, sol.pre(post)))
  }

  /** No precondition at all is found only where the step closes anyway, so an empty one is never strengthened with. */
  lemma EmptyPre<S(!new)>(sys: System<S>, post: seq<Conjunct<S>>)
    ensures PreOk(sys, post, []) <==> Step(sys, post)
  {
  }

  // ----- induction -----

  lemma {:induction false} ByInduction<S(!new)>(sys: System<S>, post: seq<Conjunct<S>>, n: int, s: S)
    requires Differenced(sys) && Base(sys, post) && Step(sys, post) && n >= 1 && sys.reach(n, s)
    ensures All(post, n, s)
    decreases n
  {
    hide All;
    if n > 1 {
      var s0: S :| sys.reach(n - 1, s0) && sys.body(n, s0, s);
      ByInduction(sys, post, n - 1, s0);
    }
  }

  lemma StepValid<S(!new)>(sys: System<S>, post: seq<Conjunct<S>>)
    requires Differenced(sys) && Base(sys, post) && Step(sys, post)
    ensures Valid(sys, post)
  {
    hide All, Differenced, Base, Step;
    forall n: int, s: S | n >= 1 && sys.reach(n, s) ensures All(post, n, s) { ByInduction(sys, post, n, s); }
  }

  lemma {:induction false} Strengthened<S(!new)>(sys: System<S>, post: seq<Conjunct<S>>, pre: seq<Conjunct<S>>, n: int, s: S)
    requires Differenced(sys) && Base(sys, post) && PreOk(sys, post, pre) && Valid(sys, Shift(Kept(pre))) && n >= 1 && sys.reach(n, s)
    ensures All(post, n, s)
    decreases n
  {
    if n > 1 {
      var s0: S :| sys.reach(n - 1, s0) && sys.body(n, s0, s);
      Strengthened(sys, post, pre, n - 1, s0);
      assert All(Shift(Kept(pre)), n - 1, s0);
      forall k | 0 <= k < |Kept(pre)| ensures Kept(pre)[k].holds(n, s0) { assert Shift(Kept(pre))[k].holds(n - 1, s0); }
    }
  }

  /** If the shifted precondition is valid, so is the postcondition it was computed for. */
  lemma StrengtheningValid<S(!new)>(sys: System<S>, post: seq<Conjunct<S>>, pre: seq<Conjunct<S>>)
    requires Differenced(sys) && Base(sys, post) && PreOk(sys, post, pre) && Valid(sys, Shift(Kept(pre)))
    ensures Valid(sys, post)
  {
    hide All, Differenced, Base, PreOk, Valid;
    forall n: int, s: S | n >= 1 && sys.reach(n, s) ensures All(post, n, s) { Strengthened(sys, post, pre, n, s); }
    ValidIs(sys, post);
  }

  lemma ValidIs<S(!new)>(sys: System<S>, post: seq<Conjunct<S>>)
    requires forall n: int, s: S | n >= 1 && sys.reach(n, s) :: All(post, n, s)
    ensures Valid(sys, post)
  {
    hide All;
  }

  // ----- a derived `false` -----

  /** Hypothesis, body and postcondition contradict each other. */
  ghost predicate Contradictory<S(!new)>(sys: System<S>, post: seq<Conjunct<S>>) {
    forall n: int, s: S, s': S | n >= 2 && All(post, n - 1, s) && sys.body(n, s, s') :: !All(post, n, s')
  }

  ghost predicate SomeFalse<S>(pre: seq<Conjunct<S>>) { exists k :: 0 <= k < |pre| && pre[k].literalFalse }

  /** `compute_pre` collects what follows from hypothesis, body and postcondition: `false` only where they contradict. */
  ghost predicate FalseOk<S(!new)>(sys: System<S>, sol: Solver<S>) { forall post | SomeFalse(sol.pre(post)) :: Contradictory(sys, post) }

  lemma {:induction false} NoneLater<S(!new)>(sys: System<S>, n: int, s: S)
    requires Differenced(sys) && n >= 2 && forall t: S :: !sys.reach(2, t)
    ensures !sys.reach(n, s)
    decreases n
  {
    if sys.reach(n, s) && n > 2 {
      var s0: S :| sys.reach(n - 1, s0) && sys.body(n, s0, s);
      NoneLater(sys, n - 1, s0);
    }
  }

  /** EXACTLY WHEN a derived `false` proves the postcondition: the program of size 2 has no end at all. */
  lemma DerivedFalseExact<S(!new)>(sys: System<S>, post: seq<Conjunct<S>>)
    requires Differenced(sys) && Base(sys, post) && Contradictory(sys, post)
    ensures Valid(sys, post) <==> forall s: S :: !sys.reach(2, s)
  {
    hide All;
    if forall s: S :: !sys.reach(2, s) {
      forall n: int, s: S | n >= 2 ensures !sys.reach(n, s) { NoneLater(sys, n, s); }
    } else {
      var s': S :| sys.reach(2, s');
      var s: S :| sys.reach(1, s) && sys.body(2, s, s');
      assert All(post, 1, s) && !All(post, 2, s');
    }
  }

  // ----- verify_post -----

  /** How `verify_post` ends.  The tool returns true for `Closed` and for `DerivedFalse`. */
  datatype Outcome = Closed(round: nat) | DerivedFalse(round: nat) | Failed | Unknown

  /** The postcondition after `k` strengthenings. */
  ghost function RoundPost<S(!new)>(sol: Solver<S>, post: seq<Conjunct<S>>, k: nat): seq<Conjunct<S>> {
    if k == 0 then post else Shift(Kept(sol.pre(RoundPost(sol, post, k - 1))))
  }

  /** The round is not the last: the step does not close, no `false` is derived, something is kept, and what is kept
      holds in the base case. */
  ghost predicate GoesOn<S(!new)>(sys: System<S>, sol: Solver<S>, post: seq<Conjunct<S>>) {
    var kept := Kept(sol.pre(post));
    !Step(sys, post) && !SomeFalse(sol.pre(post)) && kept != [] && Base(sys, Shift(kept))
  }

  /** The first `k` rounds go on. */
  ghost predicate Reaches<S(!new)>(sys: System<S>, sol: Solver<S>, post: seq<Conjunct<S>>, k: nat) {
    forall j: nat | j < k :: GoesOn(sys, sol, RoundPost(sol, post, j))
  }

  ghost predicate ClosesAt<S(!new)>(sys: System<S>, sol: Solver<S>, post: seq<Conjunct<S>>, k: nat) {
    Reaches(sys, sol, post, k) && Step(sys, RoundPost(sol, post, k))
  }

  ghost predicate FalseAt<S(!new)>(sys: System<S>, sol: Solver<S>, post: seq<Conjunct<S>>, k: nat) {
    var q := RoundPost(sol, post, k);
    Reaches(sys, sol, post, k) && !Step(sys, q) && SomeFalse(sol.pre(q))
  }

  /** No strengthening is left after `k` of them: nothing is kept, or what is kept fails in the base case. */
  ghost predicate StuckAt<S(!new)>(sys: System<S>, sol: Solver<S>, post: seq<Conjunct<S>>, k: nat) {
    var q := RoundPost(sol, post, k);
    Reaches(sys, sol, post, k) && !Step(sys, q) && !SomeFalse(sol.pre(q)) && !GoesOn(sys, sol, q)
  }

  /** Only a satisfiable precondition without an array read leaves the question open. */
  ghost predicate OpenEnded<S>(sol: Solver<S>, post: seq<Conjunct<S>>) { Kept(sol.pre(post)) == [] && sol.satisfiable(sol.pre(post)) }

  /** Every end `verify_post` can have, with the round that decides it. */
  ghost predicate EndsWith<S(!new)>(sys: System<S>, sol: Solver<S>, post: seq<Conjunct<S>>, bound: nat, r: Outcome) {
    match r
    case Closed(m) => 0 < m <= bound && ClosesAt(sys, sol, post, m - 1)
    case DerivedFalse(m) => 0 < m <= bound && FalseAt(sys, sol, post, m - 1)
    case Failed => exists k: nat :: k < bound && StuckAt(sys, sol, post, k) && !OpenEnded(sol, RoundPost(sol, post, k))
    case Unknown => Reaches(sys, sol, post, bound) || exists k: nat :: k < bound && StuckAt(sys, sol, post, k) && OpenEnded(sol, RoundPost(sol, post, k))
  }

  /** The tool's answer: some round within the bound closes or derives `false`. */
  ghost predicate AnswersTrue<S(!new)>(sys: System<S>, sol: Solver<S>, post: seq<Conjunct<S>>, bound: nat) {
    exists k: nat :: k < bound && (ClosesAt(sys, sol, post, k) || FalseAt(sys, sol, post, k))
  }

  /** A round in which the search ends. */
  ghost predicate LastAt<S(!new)>(sys: System<S>, sol: Solver<S>, post: seq<Conjunct<S>>, k: nat) {
    Reaches(sys, sol, post, k) && !GoesOn(sys, sol, RoundPost(sol, post, k))
  }

  lemma OneLast<S(!new)>(sys: System<S>, sol: Solver<S>, post: seq<Conjunct<S>>, k: nat, l: nat)
    requires LastAt(sys, sol, post, k) && (LastAt(sys, sol, post, l) || Reaches(sys, sol, post, l))
    ensures l <= k && (LastAt(sys, sol, post, l) ==> l == k)
  {
    hide GoesOn, RoundPost;
  }

  /** EXACTLY ONE END: the ends exclude each other, so `EndsWith` determines the outcome and its round, and the tool
      answers true if and only if some round within the bound closes or derives `false`. */
  lemma OneEnd<S(!new)>(sys: System<S>, sol: Solver<S>, post: seq<Conjunct<S>>, bound: nat, r: Outcome, r': Outcome)
    requires EndsWith(sys, sol, post, bound, r)
    ensures EndsWith(sys, sol, post, bound, r') ==> r == r'
    ensures r.Closed? || r.DerivedFalse? <==> AnswersTrue(sys, sol, post, bound)
  {
    hide RoundPost, Reaches, Step, SomeFalse, OpenEnded;
    forall k: nat ensures ClosesAt(sys, sol, post, k) || FalseAt(sys, sol, post, k) || StuckAt(sys, sol, post, k) <==> LastAt(sys, sol, post, k) {}
    forall k: nat, l: nat | LastAt(sys, sol, post, k) && (LastAt(sys, sol, post, l) || Reaches(sys, sol, post, l))
      ensures l <= k && (LastAt(sys, sol, post, l) ==> l == k)
    {
      OneLast(sys, sol, post, k, l);
    }
  }

  /** One round that does not go on, question by question as they are asked. */
  lemma EndAt<S(!new)>(sys: System<S>, sol: Solver<S>, post: seq<Conjunct<S>>, bound: nat, k: nat, q: seq<Conjunct<S>>, r: Outcome)
    requires k < bound && Reaches(sys, sol, post, k) && q == RoundPost(sol, post, k)
    requires var pre := sol.pre(q);
             if Step(sys, q) then r == Closed(k + 1)
             else if SomeFalse(pre) then r == DerivedFalse(k + 1)
             else if Kept(pre) == [] then r == if sol.satisfiable(pre) then Unknown else Failed
             else !Base(sys, Shift(Kept(pre))) && r == Failed
    ensures EndsWith(sys, sol, post, bound, r)
  {
    hide RoundPost, Reaches, Step, SomeFalse, Base, Kept, Shift;
    if r.Failed? || r.Unknown? { assert StuckAt(sys, sol, post, k); }
  }

  lemma NextRound<S(!new)>(sys: System<S>, sol: Solver<S>, post: seq<Conjunct<S>>, k: nat, q: seq<Conjunct<S>>)
    requires Reaches(sys, sol, post, k) && q == RoundPost(sol, post, k) && !Step(sys, q) && !SomeFalse(sol.pre(q))
    requires Kept(sol.pre(q)) != [] && Base(sys, Shift(Kept(sol.pre(q))))
    ensures Reaches(sys, sol, post, k + 1) && RoundPost(sol, post, k + 1) == Shift(Kept(sol.pre(q)))
  {
    hide Step, SomeFalse, Base, Kept, Shift;
    assert GoesOn(sys, sol, q);
    hide GoesOn, RoundPost;
  }

  lemma Asked<S(!new)>(sys: System<S>, sol: Solver<S>, post: seq<Conjunct<S>>)
    requires SolverOk(sys, sol)
    ensures (sol.closes(post) <==> Step(sys, post)) && (sol.baseHolds(post) <==> Base(sys, post)) && PreOk(sys, post, sol.pre(post))
  {
    hide Base, Step, PreOk;
  }

  lemma NothingYet<S(!new)>(sys: System<S>, sol: Solver<S>, post: seq<Conjunct<S>>)
    ensures Reaches(sys, sol, post, 0) && RoundPost(sol, post, 0) == post
  {
  }

  lemma RanOut<S(!new)>(sys: System<S>, sol: Solver<S>, post: seq<Conjunct<S>>, bound: nat)
    requires Reaches(sys, sol, post, bound)
    ensures EndsWith(sys, sol, post, bound, Unknown)
  {
  }

  method HasFalse<S>(pre: seq<Conjunct<S>>) returns (b: bool)
    ensures b <==> SomeFalse(pre)
  {
    b := false;
    for k := 0 to |pre|
      invariant !b && forall l | 0 <= l < k :: !pre[l].literalFalse
    {
      if pre[k].literalFalse { return true; }
    }
  }

  method RealPre<S>(pre: seq<Conjunct<S>>) returns (kept: seq<Conjunct<S>>)
    ensures kept == Kept(pre)
  {
    kept := [];
    for k := 0 to |pre|
      invariant kept == Kept(pre[..k])
    {
      assert pre[..k + 1][..k] == pre[..k];
      if pre[k].select { kept := kept + [pre[k]]; }
    }
    assert pre[..|pre|] == pre;
  }

  /** `verify_post`: SOUND through its unsatisfiability check, in whatever round that succeeds, and through a derived
      `false` exactly when the program of size 2 has no end; a base case that fails in the first round belongs to the
      caller, here it is required to hold. */
  method VerifyPost<S(!new)>(ghost sys: System<S>, sol: Solver<S>, post0: seq<Conjunct<S>>, bound: nat) returns (r: Outcome)
    requires SolverOk(sys, sol) && Base(sys, post0)
    ensures r.Closed? && Differenced(sys) ==> Valid(sys, post0)
    ensures r.Closed? ==> r.round >= 1 && Step(sys, RoundPost(sol, post0, r.round - 1))
    ensures r.Closed? || r.DerivedFalse? ==> r.round >= 1 && forall k: nat | k < r.round :: Base(sys, RoundPost(sol, post0, k))
    ensures r.DerivedFalse? ==> SomeFalse(sol.pre(RoundPost(sol, post0, r.round - 1)))
    ensures r.DerivedFalse? && FalseOk(sys, sol) && Differenced(sys) ==>
              (Valid(sys, RoundPost(sol, post0, r.round - 1)) <==> forall s: S :: !sys.reach(2, s))
    ensures r.DerivedFalse? && Differenced(sys) && Valid(sys, RoundPost(sol, post0, r.round - 1)) ==> Valid(sys, post0)
    ensures EndsWith(sys, sol, post0, bound, r)
  {
    hide Valid, Base, Step, PreOk, Differenced, All, SomeFalse, FalseOk, Kept, Shift, Reaches, EndsWith, SolverOk, RoundPost;
    var post := post0;
    var iterCount := 0;
    NothingYet(sys, sol, post0);
    while iterCount < bound
      invariant 0 <= iterCount <= bound && post == RoundPost(sol, post0, iterCount)
      invariant forall k: nat | k <= iterCount :: Base(sys, RoundPost(sol, post0, k))
      invariant Differenced(sys) && Valid(sys, post) ==> Valid(sys, post0)
      invariant Reaches(sys, sol, post0, iterCount)
    {
      assert Base(sys, RoundPost(sol, post0, iterCount));
      Asked(sys, sol, post);
      iterCount := iterCount + 1;
      if sol.closes(post) {
        if Differenced(sys) { StepValid(sys, post); }
        EndAt(sys, sol, post0, bound, iterCount - 1, post, Closed(iterCount));
        return Closed(iterCount);
      }
      var pre := sol.pre(post);
      var isFalse := HasFalse(pre);
      if isFalse {
        if FalseOk(sys, sol) && Differenced(sys) { FalseMeans(sys, sol, post); }
        EndAt(sys, sol, post0, bound, iterCount - 1, post, DerivedFalse(iterCount));
        return DerivedFalse(iterCount);
      }
      var kept := RealPre(pre);
      if kept == [] {
        r := if sol.satisfiable(pre) then Unknown else Failed;
        EndAt(sys, sol, post0, bound, iterCount - 1, post, r);
        return;
      }
      var next := Shift(kept);
      Asked(sys, sol, next);
      if !sol.baseHolds(next) {
        EndAt(sys, sol, post0, bound, iterCount - 1, post, Failed);
        return Failed;
      }
      if Differenced(sys) && Valid(sys, next) { StrengtheningValid(sys, post, pre); }
      NextRound(sys, sol, post0, iterCount - 1, post);
      post := next;
    }
    RanOut(sys, sol, post0, bound);
    return Unknown;
  }

  lemma FalseMeans<S(!new)>(sys: System<S>, sol: Solver<S>, post: seq<Conjunct<S>>)
    requires FalseOk(sys, sol) && SomeFalse(sol.pre(post)) && Differenced(sys) && Base(sys, post)
    ensures Valid(sys, post) <==> forall s: S :: !sys.reach(2, s)
  {
    hide Contradictory, SomeFalse, Differenced, Base, Valid;
    DerivedFalseExact(sys, post);
  }

  // ----- verify -----

  ghost predicate AnyPath<S>(paths: seq<(int, S, S) -> bool>, n: int, s: S, s': S) {
    exists i :: 0 <= i < |paths| && paths[i](n, s, s')
  }

  ghost function Whole<S>(reach: (int, S) -> bool, paths: seq<(int, S, S) -> bool>): System<S> {
    System(reach, (n: int, s: S, s': S) => AnyPath(paths, n, s, s'))
  }

  ghost function OnPath<S>(reach: (int, S) -> bool, path: (int, S, S) -> bool): System<S> { System(reach, path) }

  /** The rounds of every path, whose postconditions are strengthened path by path: each strengthened postcondition of
      one path is kept by every other path, as long as all of them hold before. */
  ghost predicate KeptByOthers<S(!new)>(paths: seq<(int, S, S) -> bool>, sols: seq<Solver<S>>, post: seq<Conjunct<S>>, rounds: seq<nat>)
    requires |sols| == |paths| == |rounds|
  {
    forall i: nat, l: nat, k: nat, n: int, s: S, s': S |
      i < |paths| && l < |paths| && l != i && 0 < k < rounds[i] && n >= 2 && AllRounds(sols, post, rounds, n - 1, s) && paths[l](n, s, s') ::
      All(RoundPost(sols[i], post, k), n, s')
  }

  ghost predicate AllRounds<S(!new)>(sols: seq<Solver<S>>, post: seq<Conjunct<S>>, rounds: seq<nat>, n: int, s: S)
    requires |sols| == |rounds|
  {
    forall i: nat, k: nat | i < |sols| && k < rounds[i] :: All(RoundPost(sols[i], post, k), n, s)
  }

  /** How path `l` closed: the last of its postconditions is inductive on it. */
  ghost predicate PathCloses<S(!new)>(reach: (int, S) -> bool, path: (int, S, S) -> bool, sol: Solver<S>, post: seq<Conjunct<S>>, rounds: nat) {
    && rounds >= 1 && SolverOk(OnPath(reach, path), sol) && Step(OnPath(reach, path), RoundPost(sol, post, rounds - 1))
    && forall k: nat | k < rounds :: Base(OnPath(reach, path), RoundPost(sol, post, k))
  }

  /** A path keeps its own rounds: the last by the closing check, the others by the contract of `compute_pre`. */
  lemma OwnRound<S(!new)>(reach: (int, S) -> bool, path: (int, S, S) -> bool, sol: Solver<S>, post: seq<Conjunct<S>>, rounds: nat, k: nat, n: int, s: S, s': S)
    requires PathCloses(reach, path, sol, post, rounds) && k < rounds && n >= 2 && path(n, s, s')
    requires forall k: nat | k < rounds :: All(RoundPost(sol, post, k), n - 1, s)
    ensures All(RoundPost(sol, post, k), n, s')
  {
    hide All, Base;
    var sys, p := OnPath(reach, path), RoundPost(sol, post, k);
    assert sys.body(n, s, s');
    if k == rounds - 1 {
      assert Step(sys, p);
    } else {
      assert RoundPost(sol, post, k + 1) == Shift(Kept(sol.pre(p)));
      ShiftedHolds(Kept(sol.pre(p)), n, s);
      assert PreOk(sys, p, sol.pre(p));
    }
  }

  lemma ShiftedHolds<S(!new)>(post: seq<Conjunct<S>>, n: int, s: S)
    ensures All(Shift(post), n - 1, s) <==> All(post, n, s)
  {
    if All(Shift(post), n - 1, s) {
      forall k | 0 <= k < |post| ensures post[k].holds(n, s) { assert Shift(post)[k].holds(n - 1, s); }
    }
  }

  lemma {:induction false} AllRoundsHold<S(!new)>(reach: (int, S) -> bool, paths: seq<(int, S, S) -> bool>, sols: seq<Solver<S>>, post: seq<Conjunct<S>>, rounds: seq<nat>, n: int, s: S)
    requires |sols| == |paths| == |rounds| && n >= 1 && reach(n, s)
    requires forall i | 0 <= i < |paths| :: PathCloses(reach, paths[i], sols[i], post, rounds[i])
    requires Differenced(Whole(reach, paths)) && KeptByOthers(paths, sols, post, rounds)
    ensures AllRounds(sols, post, rounds, n, s)
    decreases n
  {
    hide All, SolverOk, Step, Kept, Shift, RoundPost, KeptByOthers;
    if n == 1 {
      forall i: nat, k: nat | i < |sols| && k < rounds[i] ensures All(RoundPost(sols[i], post, k), n, s) {
        assert Base(OnPath(reach, paths[i]), RoundPost(sols[i], post, k));
      }
    } else {
      var whole := Whole(reach, paths);
      assert whole.reach(n, s);
      var s0: S :| whole.reach(n - 1, s0) && whole.body(n, s0, s);
      AllRoundsHold(reach, paths, sols, post, rounds, n - 1, s0);
      assert AnyPath(paths, n, s0, s);
      var l: nat :| l < |paths| && paths[l](n, s0, s);
      AllRoundsKept(reach, paths, sols, post, rounds, l, n, s0, s);
    }
  }

  lemma AllRoundsKept<S(!new)>(reach: (int, S) -> bool, paths: seq<(int, S, S) -> bool>, sols: seq<Solver<S>>, post: seq<Conjunct<S>>, rounds: seq<nat>, l: nat, n: int, s: S, s': S)
    requires |sols| == |paths| == |rounds| && n >= 2 && l < |paths| && paths[l](n, s, s')
    requires forall i | 0 <= i < |paths| :: PathCloses(reach, paths[i], sols[i], post, rounds[i])
    requires KeptByOthers(paths, sols, post, rounds) && AllRounds(sols, post, rounds, n - 1, s)
    ensures AllRounds(sols, post, rounds, n, s')
  {
    hide All, SolverOk, Step, Base, RoundPost, KeptByOthers;
    forall i: nat, k: nat | i < |sols| && k < rounds[i] ensures All(RoundPost(sols[i], post, k), n, s') {
      if i == l || k == 0 {
        OwnRound(reach, paths[l], sols[l], post, rounds[l], if i == l then k else 0, n, s, s');
        FirstRound(sols[i], post);
        FirstRound(sols[l], post);
      } else {
        OthersKept(paths, sols, post, rounds, i, l, k, n, s, s');
      }
    }
  }

  lemma OthersKept<S(!new)>(paths: seq<(int, S, S) -> bool>, sols: seq<Solver<S>>, post: seq<Conjunct<S>>, rounds: seq<nat>, i: nat, l: nat, k: nat, n: int, s: S, s': S)
    requires |sols| == |paths| == |rounds| && i < |paths| && l < |paths| && i != l && 0 < k < rounds[i] && n >= 2 && paths[l](n, s, s')
    requires KeptByOthers(paths, sols, post, rounds) && AllRounds(sols, post, rounds, n - 1, s)
    ensures All(RoundPost(sols[i], post, k), n, s')
  {
    hide All, RoundPost, AllRounds;
  }

  lemma FirstRound<S(!new)>(sol: Solver<S>, post: seq<Conjunct<S>>)
    ensures RoundPost(sol, post, 0) == post
  {
  }

  /** PATH BY PATH: when every path closes and each keeps the strengthened postconditions of the others, the
      postcondition is valid. */
  lemma PathwiseSound<S(!new)>(reach: (int, S) -> bool, paths: seq<(int, S, S) -> bool>, sols: seq<Solver<S>>, post: seq<Conjunct<S>>, rounds: seq<nat>)
    requires |sols| == |paths| == |rounds| && Base(Whole(reach, paths), post)
    requires forall i | 0 <= i < |paths| :: PathCloses(reach, paths[i], sols[i], post, rounds[i])
    requires Differenced(Whole(reach, paths)) && KeptByOthers(paths, sols, post, rounds)
    ensures Valid(Whole(reach, paths), post)
  {
    hide All, Differenced, KeptByOthers, SolverOk, Step, Base;
    var whole := Whole(reach, paths);
    if |paths| == 0 {
      NoBody(reach, paths, post);
      StepValid(whole, post);
    } else {
      assert PathCloses(reach, paths[0], sols[0], post, rounds[0]);
      forall n: int, s: S | n >= 1 && whole.reach(n, s) ensures All(post, n, s) {
        AllRoundsHold(reach, paths, sols, post, rounds, n, s);
        assert All(RoundPost(sols[0], post, 0), n, s);
      }
    }
  }

  lemma NoBody<S(!new)>(reach: (int, S) -> bool, paths: seq<(int, S, S) -> bool>, post: seq<Conjunct<S>>)
    requires paths == []
    ensures Step(Whole(reach, paths), post)
  {
    hide All;
  }

  lemma ValidAnywhere<S(!new)>(reach: (int, S) -> bool, b: (int, S, S) -> bool, c: (int, S, S) -> bool, post: seq<Conjunct<S>>)
    ensures Valid(System(reach, b), post) <==> Valid(System(reach, c), post)
    ensures Base(System(reach, b), post) <==> Base(System(reach, c), post)
  {
    hide All;
  }

  ghost function RoundsOf(outs: seq<Outcome>): (r: seq<nat>)
    ensures |r| == |outs| && forall i | 0 <= i < |r| && outs[i].Closed? :: r[i] == outs[i].round
  {
    seq(|outs|, i requires 0 <= i < |outs| => if outs[i].Closed? then outs[i].round else 0)
  }

  /** `verify` on one assertion: the base case, then `verify_post` on every flattened path of the body.  The answer is
      true if and only if the base case holds and every path answers true.  Each path strengthens on its own, so the
      answer is sound when each path keeps what the others strengthened: in particular when there is at most one path,
      or when every path closes in its first round. */
  method VerifySpec<S(!new)>(ghost reach: (int, S) -> bool, paths: seq<(int, S, S) -> bool>, baseHolds: seq<Conjunct<S>> -> bool,
                             sols: seq<Solver<S>>, post: seq<Conjunct<S>>, bound: nat)
    returns (ok: bool, outs: seq<Outcome>)
    requires |sols| == |paths| && forall i | 0 <= i < |paths| :: SolverOk(OnPath(reach, paths[i]), sols[i])
    requires baseHolds(post) <==> Base(Whole(reach, paths), post)
    requires Differenced(Whole(reach, paths))
    ensures ok <==> Base(Whole(reach, paths), post) && forall i | 0 <= i < |paths| :: AnswersTrue(OnPath(reach, paths[i]), sols[i], post, bound)
    ensures |outs| <= |paths| && forall i | 0 <= i < |outs| :: EndsWith(OnPath(reach, paths[i]), sols[i], post, bound, outs[i])
    ensures ok ==> |outs| == |paths| && forall i | 0 <= i < |outs| :: outs[i].Closed? || outs[i].DerivedFalse?
    ensures ok && (forall i | 0 <= i < |outs| :: outs[i].Closed?) && KeptByOthers(paths, sols, post, RoundsOf(outs)) ==> Valid(Whole(reach, paths), post)
    ensures ok && |paths| == 1 && outs[0].Closed? ==> Valid(Whole(reach, paths), post)
    ensures ok && (forall i | 0 <= i < |outs| :: outs[i] == Closed(1)) ==> Valid(Whole(reach, paths), post)
    ensures !ok && outs == [] ==> !Valid(Whole(reach, paths), post)
  {
    hide Valid, Base, Step, Differenced, SolverOk, PathCloses, KeptByOthers, All, SomeFalse, EndsWith, AnswersTrue;
    ok, outs := false, [];
    ghost var whole := Whole(reach, paths);
    if !baseHolds(post) {
      BaseFails(whole, post);
      return;
    }
    for i := 0 to |paths|
      invariant |outs| == i
      invariant forall k | 0 <= k < i :: EndsWith(OnPath(reach, paths[k]), sols[k], post, bound, outs[k])
      invariant forall k | 0 <= k < i :: outs[k].Closed? || outs[k].DerivedFalse?
      invariant forall k | 0 <= k < i :: AnswersTrue(OnPath(reach, paths[k]), sols[k], post, bound)
      invariant forall k | 0 <= k < i && outs[k].Closed? :: PathCloses(reach, paths[k], sols[k], post, outs[k].round)
    {
      ValidAnywhere(reach, paths[i], whole.body, post);
      var r := VerifyPost(OnPath(reach, paths[i]), sols[i], post, bound);
      OneEnd(OnPath(reach, paths[i]), sols[i], post, bound, r, r);
      outs := outs + [r];
      if !(r.Closed? || r.DerivedFalse?) { return; }
      if r.Closed? { ClosedPath(reach, paths[i], sols[i], post, r.round); }
    }
    ok := true;
    if forall i | 0 <= i < |outs| :: outs[i].Closed? {
      if |paths| == 1 || (forall i | 0 <= i < |outs| :: outs[i] == Closed(1)) { NothingToKeep(paths, sols, post, RoundsOf(outs)); }
      if KeptByOthers(paths, sols, post, RoundsOf(outs)) { PathwiseSound(reach, paths, sols, post, RoundsOf(outs)); }
    }
  }

  lemma ClosedPath<S(!new)>(reach: (int, S) -> bool, path: (int, S, S) -> bool, sol: Solver<S>, post: seq<Conjunct<S>>, rounds: nat)
    requires rounds >= 1 && SolverOk(OnPath(reach, path), sol) && Step(OnPath(reach, path), RoundPost(sol, post, rounds - 1))
    requires forall k: nat | k < rounds :: Base(OnPath(reach, path), RoundPost(sol, post, k))
    ensures PathCloses(reach, path, sol, post, rounds)
  {
    hide SolverOk, Step, Base;
  }

  lemma NothingToKeep<S(!new)>(paths: seq<(int, S, S) -> bool>, sols: seq<Solver<S>>, post: seq<Conjunct<S>>, rounds: seq<nat>)
    requires |sols| == |paths| == |rounds| && (|paths| <= 1 || forall i | 0 <= i < |rounds| :: rounds[i] == 1)
    ensures KeptByOthers(paths, sols, post, rounds)
  {
    hide All, AllRounds;
  }

  lemma BaseFails<S(!new)>(sys: System<S>, post: seq<Conjunct<S>>)
    requires !Base(sys, post)
    ensures !Valid(sys, post)
  {
    hide All;
  }

  // ----- where the driver is not sound -----

  function One(p: int -> bool, f: bool): Conjunct<int> { Conjunct((n: int, s: int) => p(s), true, f) }

  lemma OneMeans(p: int -> bool, f: bool, n: int, s: int)
    ensures All([One(p, f)], n, s) <==> p(s)
    ensures All(Shift([One(p, f)]), n, s) <==> p(s)
    ensures Kept([One(p, f)]) == [One(p, f)]
  {
    var post := [One(p, f)];
    assert post[0].holds(n, s) == p(s);
    assert Shift(post)[0].holds(n, s) == p(s);
    assert post[..0] == [];
  }

  /** What the body needs to reach the postcondition: its weakest precondition. */
  ghost function Weakest<S(!new)>(sys: System<S>, post: seq<Conjunct<S>>): Conjunct<S> {
    Conjunct((n: int, s: S) => forall s': S :: sys.body(n, s, s') ==> All(post, n, s'), true, false)
  }

  /** A solver that answers the checks truly, derives `false` where hypothesis, body and postcondition contradict each
      other, and the weakest precondition elsewhere. */
  ghost function Canonical<S(!new)>(sys: System<S>): Solver<S> {
    Solver(p => Step(sys, p), p => Base(sys, p),
           p => if Contradictory(sys, p) then [Conjunct((n: int, s: S) => false, true, true)] else [Weakest(sys, p)], p => true)
  }

  lemma KeptOne<S(!new)>(c: Conjunct<S>, n: int, s: S)
    requires c.select
    ensures Kept([c]) == [c] && (All(Kept([c]), n, s) <==> c.holds(n, s))
  {
    assert [c][..0] == [];
    assert [c][0] == c;
  }

  lemma CanonicalOk<S(!new)>(sys: System<S>)
    ensures SolverOk(sys, Canonical(sys)) && FalseOk(sys, Canonical(sys))
  {
    hide Step, Base, Contradictory, Kept, All;
    var sol := Canonical(sys);
    forall p ensures PreOk(sys, p, sol.pre(p)) && (SomeFalse(sol.pre(p)) ==> Contradictory(sys, p)) {
      var c := sol.pre(p)[0];
      assert sol.pre(p) == [c];
      forall n: int, s: S, s': S | n >= 2 && All(p, n - 1, s) && All(Kept(sol.pre(p)), n, s) && sys.body(n, s, s') ensures All(p, n, s') {
        KeptOne(c, n, s);
      }
    }
  }

  /** Counting up from 0: the program of size n ends in n - 1. */
  const COUNTER: System<int> := System((n: int, s: int) => s == n - 1, (n: int, s: int, s': int) => s' == s + 1)

  lemma CounterDifferenced()
    ensures Differenced(COUNTER)
  {
    forall n: int, s': int | n >= 2 && COUNTER.reach(n, s') ensures exists s: int :: COUNTER.reach(n - 1, s) && COUNTER.body(n, s, s') {
      assert COUNTER.reach(n - 1, n - 2) && COUNTER.body(n, n - 2, s');
    }
  }

  const IS_ZERO := (s: int) => s == 0
  const NOT_TWO := (s: int) => s != 2

  lemma CounterFacts()
    ensures var post := [One(IS_ZERO, false)]; Base(COUNTER, post) && Contradictory(COUNTER, post) && !Step(COUNTER, post) && COUNTER.reach(2, 1)
  {
    hide All;
    forall n: int, s: int ensures All([One(IS_ZERO, false)], n, s) <==> s == 0 { OneMeans(IS_ZERO, false, n, s); }
    assert COUNTER.body(2, 0, 1);
  }

  /** THE DERIVED-FALSE EXIT IS UNSOUND: "the counter is 0" holds at size 1, and hypothesis, body and postcondition
      contradict each other, so `false` is derived and the tool answers true, although it fails at size 2. */
  lemma DerivedFalseUnsound()
    ensures var sol, post := Canonical(COUNTER), [One(IS_ZERO, false)];
            && SolverOk(COUNTER, sol) && FalseOk(COUNTER, sol) && Differenced(COUNTER)
            && Base(COUNTER, post) && !Valid(COUNTER, post)
            && forall bound: nat | bound > 0 :: AnswersTrue(COUNTER, sol, post, bound)
  {
    hide Step, Base, Valid, SolverOk, FalseOk, Differenced, Contradictory;
    var sol, post := Canonical(COUNTER), [One(IS_ZERO, false)];
    CounterFacts();
    CanonicalOk(COUNTER);
    CounterDifferenced();
    DerivedFalseExact(COUNTER, post);
    assert sol.pre(post)[0].literalFalse;
    assert FalseAt(COUNTER, sol, post, 0);
  }

  /** Two paths: one resets to 1, the other turns 1 into 2. */
  const RESET := (n: int, s: int, s': int) => s' == 1
  const RAISE := (n: int, s: int, s': int) => s' == if s == 1 then 2 else s
  const ENDS := (n: int, s: int) => s == 0 || (n >= 2 && s == 1) || (n >= 3 && s == 2)

  lemma PathsDifferenced()
    ensures Differenced(Whole(ENDS, [RESET, RAISE]))
  {
    var paths := [RESET, RAISE];
    var whole := Whole(ENDS, paths);
    assert paths[0] == RESET && paths[1] == RAISE;
    forall n: int, s': int | n >= 2 && ENDS(n, s') ensures exists s: int :: whole.reach(n - 1, s) && whole.body(n, s, s') {
      var s := if s' == 2 then 1 else 0;
      assert if s' == 1 then paths[0](n, s, s') else paths[1](n, s, s');
      assert AnyPath(paths, n, s, s');
      assert whole.reach(n - 1, s) && whole.body(n, s, s');
    }
  }

  lemma PathFacts()
    ensures var sys, post := OnPath(ENDS, RAISE), [One(NOT_TWO, false)];
            var next := RoundPost(Canonical(sys), post, 1);
            && Base(sys, post) && !Step(sys, post) && Step(OnPath(ENDS, RESET), post) && !Contradictory(sys, post)
            && Base(sys, next) && Step(sys, next) && !Valid(Whole(ENDS, [RESET, RAISE]), post)
  {
    hide All;
    var sys, post := OnPath(ENDS, RAISE), [One(NOT_TWO, false)];
    forall n: int, s: int ensures All(post, n, s) <==> s != 2 { OneMeans(NOT_TWO, false, n, s); }
    assert sys.body(2, 1, 2) && sys.body(2, 0, 0);
    assert All(post, 1, 0) && All(post, 2, 0) && !Contradictory(sys, post);
    var c := Weakest(sys, post);
    assert RoundPost(Canonical(sys), post, 0) == post;
    forall n: int, s: int ensures All(RoundPost(Canonical(sys), post, 1), n, s) <==> s != 1 && s != 2 {
      KeptOne(c, n + 1, s);
      ShiftedHolds(Kept([c]), n + 1, s);
      assert sys.body(n + 1, s, if s == 1 then 2 else s);
    }
    assert Whole(ENDS, [RESET, RAISE]).reach(3, 2);
  }

  lemma RaiseGoesOn()
    ensures var sys, post := OnPath(ENDS, RAISE), [One(NOT_TWO, false)]; GoesOn(sys, Canonical(sys), post)
  {
    hide Step, Base, Valid, Contradictory, All, Kept, Shift;
    var sys, post := OnPath(ENDS, RAISE), [One(NOT_TWO, false)];
    PathFacts();
    var c := Weakest(sys, post);
    assert RoundPost(Canonical(sys), post, 0) == post;
    assert Canonical(sys).pre(post) == [c];
    hide Canonical, Weakest;
    KeptOne(c, 1, 0);
  }

  /** STRENGTHENING PATH BY PATH IS UNSOUND: the first path closes at once, the second after one strengthening that
      the first path does not keep, and together they violate the postcondition at size 3. */
  lemma PathwiseUnsound()
    ensures Differenced(Whole(ENDS, [RESET, RAISE]))
    ensures var sols, post := [Canonical(OnPath(ENDS, RESET)), Canonical(OnPath(ENDS, RAISE))], [One(NOT_TWO, false)];
            && PathCloses(ENDS, RESET, sols[0], post, 1) && PathCloses(ENDS, RAISE, sols[1], post, 2)
            && Base(Whole(ENDS, [RESET, RAISE]), post)
            && (forall bound: nat | bound >= 2 :: EndsWith(OnPath(ENDS, RESET), sols[0], post, bound, Closed(1)))
            && (forall bound: nat | bound >= 2 :: EndsWith(OnPath(ENDS, RAISE), sols[1], post, bound, Closed(2)))
            && !Valid(Whole(ENDS, [RESET, RAISE]), post) && !KeptByOthers([RESET, RAISE], sols, post, [1, 2])
  {
    hide Step, Base, Valid, SolverOk, Differenced, KeptByOthers, All, Contradictory;
    var reset, raise, post := OnPath(ENDS, RESET), OnPath(ENDS, RAISE), [One(NOT_TWO, false)];
    var paths, sols, rounds := [RESET, RAISE], [Canonical(reset), Canonical(raise)], [1, 2];
    PathsDifferenced();
    PathFacts();
    CanonicalOk(reset);
    CanonicalOk(raise);
    ValidAnywhere(ENDS, RESET, RAISE, post);
    ValidAnywhere(ENDS, RESET, Whole(ENDS, paths).body, post);
    assert RoundPost(sols[0], post, 0) == post == RoundPost(sols[1], post, 0);
    assert PathCloses(ENDS, paths[0], sols[0], post, rounds[0]) && PathCloses(ENDS, paths[1], sols[1], post, rounds[1]);
    RaiseGoesOn();
    if KeptByOthers(paths, sols, post, rounds) { PathwiseSound(ENDS, paths, sols, post, rounds); }
  }
}
