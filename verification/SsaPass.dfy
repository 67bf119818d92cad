/** The array-SSA pass as it runs: one object holding the version maps, updated phase by phase. */
module SsaPass {
  import opened SsaSpec
  import opened SsaSound

  class ArraySsa {
    const program: Program
    var prevArr: map<nat, nat>
    var currArr: map<nat, nat>
    var updated: set<nat>
    var next: nat
    var out: seq<Renamed>

    function Abs(): Ssa
      reads this
    {
      Ssa(prevArr, currArr, updated, next, out)
    }

    /** `init_maps`: every variable is its own previous and current version, and not updated yet. */
    constructor (p: Program)
      ensures program == p && Abs() == Start(p)
    {
      program := p;
      prevArr, currArr, updated, next, out := map[], map[], {}, p.vars, [];
      new;
      for v := 0 to p.vars
        invariant program == p && Abs() == Ssa(Identity(v), Identity(v), {}, p.vars, [])
      {
        prevArr, currArr := prevArr[v := v], currArr[v := v];
      }
    }

    /** `update_prev_curr_maps`. */
    method UpdatePrevCurr(v: nat, newest: nat)
      modifies this`prevArr, this`currArr
      ensures prevArr == old(prevArr)[v := Look(old(currArr), v)] && currArr == old(currArr)[v := newest]
    {
      prevArr := prevArr[v := if v in currArr then currArr[v] else v];
      currArr := currArr[v := newest];
    }

    static method WrittenVars(body: seq<Stmt>) returns (vs: seq<nat>)
      ensures vs == Written(body, |body|)
    {
      vs := [];
      for j := 0 to |body|
        invariant vs == Written(body, j)
      {
        if body[j].v !in vs { vs := vs + [body[j].v]; }
      }
    }

    /** `create_new_names`: a fresh version for what was updated before. */
    method CreateNewNames(inLoop: bool, vs: seq<nat>)
      modifies this
      ensures Abs() == NewNames(program.statics, inLoop, old(Abs()), vs, |vs|)
    {
      ghost var s := Abs();
      for k := 0 to |vs|
        invariant Abs() == NewNames(program.statics, inLoop, s, vs, k)
      {
        var v := vs[k];
        if inLoop || v in program.statics {
          if v !in updated {
            updated := updated + {v};
          } else {
            UpdatePrevCurr(v, next);
            next := next + 1;
          }
        }
      }
    }

    /** `rename_arr_in_block`: stores to the current version, loads by comparing the index with the counter, and
        in loops a preheader copy for each store to a scalar. */
    method RenameInBlock(inLoop: bool, body: seq<Stmt>) returns (copies: seq<(nat, nat)>, renamed: seq<Stmt>)
      ensures renamed == RenameBody(Abs(), inLoop, body)
      ensures copies == if inLoop then ScalarCopies(program.statics, Abs(), body, |body|) else []
    {
      hide RenameStmt;
      copies, renamed := [], [];
      for j := 0 to |body|
        invariant renamed == RenameBody(Abs(), inLoop, body)[..j]
        invariant copies == if inLoop then ScalarCopies(program.statics, Abs(), body, j) else []
      {
        renamed := renamed + [RenameStmt(Abs(), inLoop, body[j])];
        if inLoop && body[j].v in program.statics {
          copies := copies + [(Look(currArr, body[j].v), Look(prevArr, body[j].v))];
        }
      }
    }

    method ProcessSubLoop(body: seq<Stmt>)
      modifies this
      ensures Abs() == ProcessLoop(program.statics, old(Abs()), body)
    {
      hide Written, NewNames, ScalarCopies;
      var vs := WrittenVars(body);
      CreateNewNames(true, vs);
      var copies, renamed := RenameInBlock(true, body);
      out := out + [Renamed(copies, Loop(renamed))];
      ghost var t := Abs();
      for k := 0 to |vs|
        invariant Abs() == Sync(t, vs, k)
      {
        // update_prev_curr_maps with the current version: only the previous one changes
        prevArr := prevArr[vs[k] := Look(currArr, vs[k])];
      }
    }

    method ProcessOuterBlock(body: seq<Stmt>)
      modifies this
      ensures Abs() == ProcessOuter(program.statics, old(Abs()), body)
    {
      hide Written, NewNames, ScalarCopies;
      var vs := WrittenVars(body);
      CreateNewNames(false, vs);
      var copies, renamed := RenameInBlock(false, body);
      out := out + [Renamed(copies, Outer(renamed))];
    }

    /** `convert_to_ssa`: the phases produced end, at every size the program is safe for, with the current versions
        equal to the variables, whatever the fresh versions held. */
    method ConvertToSsa()
      requires Abs() == Start(program)
      modifies this
      ensures Abs() == Convert(program, |program.phases|)
      ensures forall n: nat, m: Mem, r: Mem | SafeProgram(program, n) && SameVars(program, m, r) ::
                Agrees(program, Abs(), n, Run(program.phases, |program.phases|, n, m), RunRenamed(out, n, r))
    {
      hide ProcessLoop, ProcessOuter, Agrees, SafePhase;
      for j := 0 to |program.phases|
        invariant Abs() == Convert(program, j)
      {
        match program.phases[j]
        case Loop(body) => ProcessSubLoop(body);
        case Outer(body) => ProcessOuterBlock(body);
      }
      forall n: nat, m: Mem, r: Mem | SafeProgram(program, n) && SameVars(program, m, r)
        ensures Agrees(program, Abs(), n, Run(program.phases, |program.phases|, n, m), RunRenamed(out, n, r))
      {
        ConversionCorrect(program, |program.phases|, n, m, r);
      }
    }
  }

  ghost predicate SafeProgram(p: Program, n: nat) { forall j | 0 <= j < |p.phases| :: SafePhase(p, j, n) }

  ghost predicate SameVars(p: Program, m: Mem, r: Mem) { forall v: nat, k: int | v < p.vars :: r(v, k) == m(v, k) }
}
