/** Programs outside the fragment of array SSA: the renamed program reads a cell nobody wrote. */
module SsaExamples {
  import opened SsaSpec
  import opened SsaSound

  /** a[i] = 1; a[i] = a[0] + 1: the second loop gives `a` a new version, and `a[0]` is read from it before it is
      stored, because the solver finds a counter above the constant index. */
  const CONSTANT_READ := Program(1, {}, [
    Loop([Store(0, Offset(0), Lit(1))]),
    Loop([Store(0, Offset(0), Bin(Add, Read(0, Fixed(0)), Lit(1)))])])

  /** x = 1; x = x + 1, outside loops: the read is sent to the new version of `x`. */
  const OUTER_READ := Program(1, {0}, [
    Outer([Store(0, Fixed(0), Lit(1))]),
    Outer([Store(0, Fixed(0), Bin(Add, Read(0, Fixed(0)), Lit(1)))])])

  function Filled(x: int): Mem { (v: nat, k: int) => if v == 0 then 0 else x }

  /** One statement, one new name. */
  lemma OneName(statics: set<nat>, inLoop: bool, s: Ssa, st: Stmt)
    ensures Written([st], 1) == [st.v] && NewNames(statics, inLoop, s, [st.v], 1) == NewName(statics, inLoop, s, st.v)
  {
    assert Written([st], 0) == [];
  }

  /** A loop with one store to an array. */
  lemma OneLoop(s: Ssa, st: Stmt)
    ensures var t := NewName({}, true, s, st.v); var s' := ProcessLoop({}, s, [st]);
            && s'.out == s.out + [Renamed([], Loop([RenameStmt(t, true, st)]))]
            && s'.curr == t.curr && s'.updated == t.updated && s'.next == t.next
  {
    hide RenameStmt, NewName, Sync;
    OneName({}, true, s, st);
    var t := NewName({}, true, s, st.v);
    assert ScalarCopies({}, t, [st], 0) == [] && ScalarCopies({}, t, [st], 1) == [];
    assert RenameBody(t, true, [st]) == [RenameStmt(t, true, st)];
    SyncIs(t.(out := t.out + [Renamed([], Loop([RenameStmt(t, true, st)]))]), [st.v], 1);
    NameKeepsOut({}, true, s, st.v);
  }

  lemma NameKeepsOut(statics: set<nat>, inLoop: bool, s: Ssa, v: nat)
    ensures NewName(statics, inLoop, s, v).out == s.out
  {
  }

  lemma OneOuter(statics: set<nat>, s: Ssa, st: Stmt)
    ensures var t := NewName(statics, false, s, st.v);
            ProcessOuter(statics, s, [st]) == t.(out := s.out + [Renamed([], Outer([RenameStmt(t, false, st)]))])
  {
    hide RenameStmt, NewName;
    OneName(statics, false, s, st);
    NameKeepsOut(statics, false, s, st.v);
    assert RenameBody(NewName(statics, false, s, st.v), false, [st]) == [RenameStmt(NewName(statics, false, s, st.v), false, st)];
  }

  const FIRST_ARRAY := Store(0, Offset(0), Lit(1))
  const SECOND_ARRAY := Store(0, Offset(0), Bin(Add, Read(0, Fixed(0)), Lit(1)))
  const FIRST_SCALAR := Store(0, Fixed(0), Lit(1))
  const SECOND_SCALAR := Store(0, Fixed(0), Bin(Add, Read(0, Fixed(0)), Lit(1)))

  lemma ConstantReadRenamed()
    ensures Convert(CONSTANT_READ, 2).out == [Renamed([], Loop([FIRST_ARRAY])),
              Renamed([], Loop([Store(1, Offset(0), Bin(Add, Read(1, Fixed(0)), Lit(1)))]))]
    ensures Look(Convert(CONSTANT_READ, 2).curr, 0) == 1
  {
    hide ProcessLoop;
    var s0, s1 := Convert(CONSTANT_READ, 0), Convert(CONSTANT_READ, 1);
    IdentityIs(1);
    assert s1 == ProcessLoop({}, s0, [FIRST_ARRAY]);
    OneLoop(s0, FIRST_ARRAY);
    assert Convert(CONSTANT_READ, 2) == ProcessLoop({}, s1, [SECOND_ARRAY]);
    OneLoop(s1, SECOND_ARRAY);
    RenamedSecond(NewName({}, true, s1, 0), true, Offset(0));
  }

  lemma RenamedSecond(t: Ssa, inLoop: bool, idx: Idx)
    requires Look(t.curr, 0) == 1
    ensures RenameStmt(t, inLoop, Store(0, idx, Bin(Add, Read(0, Fixed(0)), Lit(1)))) == Store(1, idx, Bin(Add, Read(1, Fixed(0)), Lit(1)))
  {
    assert RenameExpr(t, inLoop, Read(0, Fixed(0))) == Read(1, Fixed(0)) && RenameExpr(t, inLoop, Lit(1)) == Lit(1);
  }

  lemma TwoPhases(x: Renamed, y: Renamed, n: nat, m: Mem)
    requires x.copies == [] && y.copies == []
    ensures RunRenamed([x, y], n, m) == Exec(y.ph, n, Exec(x.ph, n, m))
  {
    hide Exec;
    RunRenamedStep([], x, n, m);
    RunRenamedStep([x], y, n, m);
    assert [] + [x] == [x] && [x] + [y] == [x, y];
  }

  lemma OneIteration(st: Stmt, m: Mem)
    ensures Iterate([st], 1, m) == Step(st, 0, m) && Steps([st], 1, 0, m) == Step(st, 0, m)
  {
    assert Iterate([st], 0, m) == m && Steps([st], 0, 0, m) == m;
  }

  /** At size 1 the source ends with 2; the renamed program ends with whatever the fresh version held, plus 1. */
  lemma ConstantReadWrong(x: int)
    ensures Run(CONSTANT_READ.phases, 2, 1, Filled(x))(0, 0) == 2
    ensures RunRenamed(Convert(CONSTANT_READ, 2).out, 1, Filled(x))(1, 0) == x + 1
  {
    var p, m := CONSTANT_READ.phases, Filled(x);
    assert Run(p, 0, 1, m) == m;
    OneIteration(p[0].body[0], m);
    OneIteration(p[1].body[0], Step(p[0].body[0], 0, m));
    ConstantReadRenamed();
    var st := Store(1, Offset(0), Bin(Add, Read(1, Fixed(0)), Lit(1)));
    OneIteration(st, Step(p[0].body[0], 0, m));
    TwoPhases(Renamed([], Loop([FIRST_ARRAY])), Renamed([], Loop([st])), 1, m);
  }

  lemma OuterReadRenamed()
    ensures Convert(OUTER_READ, 2).out == [Renamed([], Outer([FIRST_SCALAR])),
              Renamed([], Outer([Store(1, Fixed(0), Bin(Add, Read(1, Fixed(0)), Lit(1)))]))]
    ensures Look(Convert(OUTER_READ, 2).curr, 0) == 1
  {
    hide ProcessOuter;
    var s0, s1 := Convert(OUTER_READ, 0), Convert(OUTER_READ, 1);
    IdentityIs(1);
    assert s1 == ProcessOuter({0}, s0, [FIRST_SCALAR]);
    OneOuter({0}, s0, FIRST_SCALAR);
    assert Convert(OUTER_READ, 2) == ProcessOuter({0}, s1, [SECOND_SCALAR]);
    OneOuter({0}, s1, SECOND_SCALAR);
    RenamedSecond(NewName({0}, false, s1, 0), false, Fixed(0));
  }

  /** The second block: its maps, and the scalar it renames. */
  function SecondMaps(): Ssa { NewName({0}, false, Convert(OUTER_READ, 1), 0) }

  function SecondRenames(): set<nat> { ReversionedOuter(OUTER_READ, Convert(OUTER_READ, 1), [SECOND_SCALAR]) }

  lemma SecondBlock()
    ensures MapsOk(OUTER_READ, SecondMaps()) && SecondRenames() == {0}
  {
    hide ProcessOuter;
    var s0, s1 := Convert(OUTER_READ, 0), Convert(OUTER_READ, 1);
    IdentityIs(1);
    assert s1 == ProcessOuter({0}, s0, [FIRST_SCALAR]);
    OneOuter({0}, s0, FIRST_SCALAR);
    OneName({0}, false, s1, SECOND_SCALAR);
  }

  /** The read of `x` is not sent right: `x` is renamed and not yet stored.  The source ends with 2, the renamed program
      with whatever the new version held, plus 1. */
  lemma OuterReadWrong(x: int)
    ensures !(forall m: Mem, r: Mem | OuterAgrees(OUTER_READ, SecondMaps(), SecondRenames(), {}, 1, m, r) ::
                Eval(RenameExpr(SecondMaps(), false, Read(0, Fixed(0))), 0, r) == m(0, 0))
    ensures Run(OUTER_READ.phases, 2, 1, Filled(x))(0, 0) == 2
    ensures RunRenamed(Convert(OUTER_READ, 2).out, 1, Filled(x))(1, 0) == x + 1
  {
    SecondBlock();
    OuterReadExact(OUTER_READ, SecondMaps(), SecondRenames(), {}, 1, 0);
    OuterReadRuns(x);
  }

  lemma OuterReadRuns(x: int)
    ensures Run(OUTER_READ.phases, 2, 1, Filled(x))(0, 0) == 2
    ensures RunRenamed(Convert(OUTER_READ, 2).out, 1, Filled(x))(1, 0) == x + 1
  {
    var p, m := OUTER_READ.phases, Filled(x);
    assert Run(p, 0, 1, m) == m;
    OneIteration(p[0].body[0], m);
    OneIteration(p[1].body[0], Step(p[0].body[0], 0, m));
    OuterReadRenamed();
    var st := Store(1, Fixed(0), Bin(Add, Read(1, Fixed(0)), Lit(1)));
    OneIteration(st, Step(p[0].body[0], 0, m));
    TwoPhases(Renamed([], Outer([FIRST_SCALAR])), Renamed([], Outer([st])), 1, m);
  }
}
