/** One step of the encoder mirrors one step of execution under any valuation of what it emits. */
module EncoderMatch {
  import opened Terms
  import opened Ir
  import opened EncoderSpec
  import opened EncoderFrame

  /** The terms of the registers `d` denote their concrete values. */
  ghost predicate RegsMatch(e: Enc, v: Valuation, s: State, d: Regs) {
    && (forall r | r in d.ints :: r in e.intTerms && r in s.ints && IntVal(e.intTerms[r], v) == s.ints[r])
    && (forall r | r in d.bools :: r in e.boolTerms && r in s.bools && Holds(e.boolTerms[r], v) == s.bools[r])
  }

  ghost predicate ArysMatch(names: seq<nat>, v: Valuation, arrs: seq<int -> int>) {
    && |names| == |arrs|
    && forall a, k: int | 0 <= a < |arrs| :: v.arrs(names[a], k) == arrs[a](k)
  }

  ghost predicate GlbsMatch(names: seq<nat>, v: Valuation, glbs: seq<int>) {
    && |names| == |glbs|
    && forall g | 0 <= g < |glbs| :: v.ints(names[g]) == glbs[g]
  }

  /** Registers, memory versions and the path bit of block `b`; `on` says whether the block was entered. */
  ghost predicate Match(p: Program, b: nat, e: Enc, v: Valuation, s: State, d: Regs, on: bool) {
    && RegsMatch(e, v, s, d)
    && |s.arrs| == p.nArrays && ArysMatch(AryOf(e, b), v, s.arrs)
    && |s.glbs| == |p.glbInit| && GlbsMatch(GlbOf(e, b), v, s.glbs)
    && Holds(PathOf(e, b), v) == (on && s.ok)
  }

  lemma IntReads(e: Enc, o: IntOperand, v: Valuation, s: State, d: Regs)
    requires RegsMatch(e, v, s, d) && IntUse(o, d)
    ensures GetInt(e, o).0 == e && GetInt(e, o).1 == EarlierInt(e, o) && IntVal(GetInt(e, o).1, v) == ReadInt(o, s)
  {
  }

  lemma BoolReads(e: Enc, o: BoolOperand, v: Valuation, s: State, d: Regs)
    requires RegsMatch(e, v, s, d) && BoolUse(o, d)
    ensures GetBool(e, o).0 == e && GetBool(e, o).1 == EarlierBool(e, o) && Holds(GetBool(e, o).1, v) == ReadBool(o, s)
  {
  }

  lemma SetIntRegs(e: Enc, v: Valuation, s: State, d: Regs, r: nat, t: IntTerm)
    requires RegsMatch(e, v, s, d)
    ensures RegsMatch(SetInt(e, r, t), v, s.(ints := s.ints[r := IntVal(t, v)]), Join(d, Regs({r}, {})))
  {
    hide Holds, IntVal;
  }

  lemma SetBoolRegs(e: Enc, v: Valuation, s: State, d: Regs, r: nat, t: BoolTerm)
    requires RegsMatch(e, v, s, d)
    ensures RegsMatch(SetBool(e, r, t), v, s.(bools := s.bools[r := Holds(t, v)]), Join(d, Regs({}, {r})))
  {
    hide Holds, IntVal;
  }

  lemma SetIntMatch(p: Program, b: nat, e: Enc, v: Valuation, s: State, d: Regs, on: bool, r: nat, t: IntTerm, n: nat)
    requires Match(p, b, e, v, s, d, on)
    ensures var s' := s.(ints := s.ints[r := IntVal(t, v)]);
            && Match(p, b, SetInt(e, r, t), v, s', Join(d, Regs({r}, {})), on)
            && Match(p, b, SetInt(e, r, t).(nextInt := n), v, s', Join(d, Regs({r}, {})), on)
  {
    hide Holds, IntVal, RegsMatch, ArysMatch, GlbsMatch;
    SetIntRegs(e, v, s, d, r, t);
    SetIntRegs(e.(nextInt := n), v, s, d, r, t) by { SameTerms(e, e.(nextInt := n), v, s, d); }
  }

  lemma SetBoolMatch(p: Program, b: nat, e: Enc, v: Valuation, s: State, d: Regs, on: bool, r: nat, t: BoolTerm, n: nat)
    requires Match(p, b, e, v, s, d, on)
    ensures var s' := s.(bools := s.bools[r := Holds(t, v)]);
            && Match(p, b, SetBool(e, r, t), v, s', Join(d, Regs({}, {r})), on)
            && Match(p, b, SetBool(e, r, t).(nextBit := n), v, s', Join(d, Regs({}, {r})), on)
  {
    hide Holds, IntVal, RegsMatch, ArysMatch, GlbsMatch;
    SetBoolRegs(e, v, s, d, r, t);
    SetBoolRegs(e.(nextBit := n), v, s, d, r, t) by { SameTerms(e, e.(nextBit := n), v, s, d); }
  }

  lemma SameTerms(e: Enc, e': Enc, v: Valuation, s: State, d: Regs)
    requires RegsMatch(e, v, s, d) && e'.intTerms == e.intTerms && e'.boolTerms == e.boolTerms
    ensures RegsMatch(e', v, s, d)
  {
  }

  /** Emitting constraints does not disturb the correspondence. */
  lemma EmitMatch(p: Program, b: nat, e: Enc, v: Valuation, s: State, d: Regs, on: bool, cs: seq<BoolTerm>)
    requires Match(p, b, e, v, s, d, on)
    ensures Match(p, b, e.(bmcVec := cs), v, s, d, on)
  {
  }

  /** What a step may assume about its surroundings: the inputs' values and the edge control came in on. */
  ghost predicate StepReady(p: Program, dom: seq<Regs>, b: nat, i: Instr, e: Enc, v: Valuation, inp: Inputs, vis: Visit)
    requires EdgesOk(p) && b < |p.blocks| && |dom| == |p.blocks|
  {
    && (i.NondetInt? ==> i.dst !in e.intTerms && v.ints(e.nextInt) == inp.ints(i.dst))
    && (i.NondetBool? ==> v.bools(BitName(e.nextBit)) == inp.bools(i.dst))
    && (i.PhiInt? || i.PhiBool? ==>
          && IsPred(p, vis.from, b)
          && Holds(EdgeCond(p, e, vis.from, b), v)
          && RegsMatch(e, v, vis.entry, DomOut(p, dom, vis.from))
          && Disjoint(DomOut(p, dom, vis.from), Def(i)))
  }

  lemma MatchRegs(p: Program, b: nat, e: Enc, v: Valuation, s: State, d: Regs, on: bool)
    requires Match(p, b, e, v, s, d, on)
    ensures RegsMatch(e, v, s, d)
  {
  }

  // ----- computations -----

  lemma IntBinMatch(p: Program, b: nat, e: Enc, v: Valuation, s: State, d: Regs, on: bool, r: nat, op: IntOp, x: IntOperand, y: IntOperand)
    requires IntUse(x, d) && IntUse(y, d) && Match(p, b, e, v, s, d, on)
    ensures var (e1, t) := GetInt(e, x); var (e2, u) := GetInt(e1, y);
            Match(p, b, SetInt(e2, r, Arith(op, t, u)), v,
                  s.(ints := s.ints[r := ApplyInt(op, ReadInt(x, s), ReadInt(y, s))]), Join(d, Regs({r}, {})), on)
  {
    hide Match, RegsMatch, GetInt, ReadInt;
    MatchRegs(p, b, e, v, s, d, on);
    IntReads(e, x, v, s, d); IntReads(e, y, v, s, d);
    SetIntMatch(p, b, e, v, s, d, on, r, Arith(op, GetInt(e, x).1, GetInt(e, y).1), 0);
  }

  lemma BoolBinMatch(p: Program, b: nat, e: Enc, v: Valuation, s: State, d: Regs, on: bool, r: nat, op: BoolOp, x: BoolOperand, y: BoolOperand)
    requires BoolUse(x, d) && BoolUse(y, d) && Match(p, b, e, v, s, d, on)
    ensures var (e1, t) := GetBool(e, x); var (e2, u) := GetBool(e1, y);
            Match(p, b, SetBool(e2, r, Logic(op, t, u)), v,
                  s.(bools := s.bools[r := ApplyBool(op, ReadBool(x, s), ReadBool(y, s))]), Join(d, Regs({}, {r})), on)
  {
    hide Match, RegsMatch, GetBool, ReadBool;
    MatchRegs(p, b, e, v, s, d, on);
    BoolReads(e, x, v, s, d); BoolReads(e, y, v, s, d);
    SetBoolMatch(p, b, e, v, s, d, on, r, Logic(op, GetBool(e, x).1, GetBool(e, y).1), 0);
  }

  lemma CmpMatch(p: Program, b: nat, e: Enc, v: Valuation, s: State, d: Regs, on: bool, r: nat, op: CmpPred, x: IntOperand, y: IntOperand)
    requires IntUse(x, d) && IntUse(y, d) && Match(p, b, e, v, s, d, on)
    ensures var (e1, t) := GetInt(e, x); var (e2, u) := GetInt(e1, y);
            Match(p, b, SetBool(e2, r, Compare(op, t, u)), v,
                  s.(bools := s.bools[r := ApplyCmp(op, ReadInt(x, s), ReadInt(y, s))]), Join(d, Regs({}, {r})), on)
  {
    hide Match, RegsMatch, GetInt, ReadInt;
    MatchRegs(p, b, e, v, s, d, on);
    IntReads(e, x, v, s, d); IntReads(e, y, v, s, d);
    SetBoolMatch(p, b, e, v, s, d, on, r, Compare(op, GetInt(e, x).1, GetInt(e, y).1), 0);
  }

  // ----- phis -----

  lemma {:induction false} IntIncomingAt(ins: seq<(nat, IntOperand)>, j: nat)
    requires j < |ins| && forall l, m | 0 <= l < m < |ins| :: ins[l].0 != ins[m].0
    ensures IntIncoming(ins, ins[j].0) == ins[j].1
  {
    if j > 0 { IntIncomingAt(ins[1..], j - 1); }
  }

  lemma {:induction false} BoolIncomingAt(ins: seq<(nat, BoolOperand)>, j: nat)
    requires j < |ins| && forall l, m | 0 <= l < m < |ins| :: ins[l].0 != ins[m].0
    ensures BoolIncoming(ins, ins[j].0) == ins[j].1
  {
    if j > 0 { BoolIncomingAt(ins[1..], j - 1); }
  }

  lemma {:induction false} PhiIntConsAt(p: Program, e: Enc, b: nat, x: nat, ins: seq<(nat, IntOperand)>, k: nat, j: nat)
    requires EdgesOk(p) && b < |p.blocks| && j < k <= |ins| && IsPred(p, ins[j].0, b)
    ensures Implies(EdgeCond(p, e, ins[j].0, b), Compare(Eq, IntVar(x), EarlierInt(e, ins[j].1))) in PhiIntCons(p, e, b, x, ins, k)
  {
    if j < k - 1 { PhiIntConsAt(p, e, b, x, ins, k - 1, j); }
  }

  lemma {:induction false} PhiBoolConsAt(p: Program, e: Enc, b: nat, x: nat, ins: seq<(nat, BoolOperand)>, k: nat, j: nat)
    requires EdgesOk(p) && b < |p.blocks| && j < k <= |ins| && IsPred(p, ins[j].0, b)
    ensures Implies(EdgeCond(p, e, ins[j].0, b), Iff(BoolVar(BitName(x)), EarlierBool(e, ins[j].1))) in PhiBoolCons(p, e, b, x, ins, k)
  {
    if j < k - 1 { PhiBoolConsAt(p, e, b, x, ins, k - 1, j); }
  }

  lemma GuardedInt(c: BoolTerm, x: nat, t: IntTerm, v: Valuation)
    requires Holds(Implies(c, Compare(Eq, IntVar(x), t)), v) && Holds(c, v)
    ensures v.ints(x) == IntVal(t, v)
  {
  }

  lemma GuardedBool(c: BoolTerm, u: BoolTerm, t: BoolTerm, v: Valuation)
    requires Holds(Implies(c, Iff(u, t)), v) && Holds(c, v)
    ensures Holds(u, v) == Holds(t, v)
  {
  }

  /** Everything collected under the last emitted conjunction holds. */
  lemma LastEmitted(e: Enc, cs: seq<BoolTerm>, c: BoolTerm, v: Valuation)
    requires AllHold(Emit(e, MkAnd(cs)).bmcVec, v) && c in cs
    ensures Holds(c, v)
  {
    hide Holds;
    assert Emit(e, MkAnd(cs)).bmcVec[|e.bmcVec|] == MkAnd(cs);
    MkAndMeaning(cs, v);
  }

  lemma EdgeGood(p: Program, q: nat, b: nat)
    requires EdgesOk(p) && IsPred(p, q, b)
    ensures q < b < |p.blocks| && b in Succs(p.blocks[q].term)
  {
  }

  /** The entry of an integer phi for predecessor `q`. */
  lemma PhiIntPick(p: Program, dom: seq<Regs>, b: nat, r: nat, ins: seq<(nat, IntOperand)>, q: nat) returns (j: nat)
    requires EdgesOk(p) && b < |p.blocks| && |dom| == |p.blocks| && PhiOk(p, dom, b, PhiInt(r, ins)) && IsPred(p, q, b)
    ensures q < |p.blocks| && j < |ins| && ins[j].0 == q
    ensures IntIncoming(ins, q) == ins[j].1 && IntUse(ins[j].1, DomOut(p, dom, q))
  {
    EdgeGood(p, q, b);
    j :| 0 <= j < |ins| && ins[j].0 == q;
    IntIncomingAt(ins, j);
  }

  lemma PhiBoolPick(p: Program, dom: seq<Regs>, b: nat, r: nat, ins: seq<(nat, BoolOperand)>, q: nat) returns (j: nat)
    requires EdgesOk(p) && b < |p.blocks| && |dom| == |p.blocks| && PhiOk(p, dom, b, PhiBool(r, ins)) && IsPred(p, q, b)
    ensures q < |p.blocks| && j < |ins| && ins[j].0 == q
    ensures BoolIncoming(ins, q) == ins[j].1 && BoolUse(ins[j].1, DomOut(p, dom, q))
  {
    EdgeGood(p, q, b);
    j :| 0 <= j < |ins| && ins[j].0 == q;
    BoolIncomingAt(ins, j);
  }

  /** The guarded equations give an integer phi the value coming along the edge taken. */
  lemma PhiIntValue(p: Program, dom: seq<Regs>, b: nat, r: nat, ins: seq<(nat, IntOperand)>, e: Enc, v: Valuation, inp: Inputs, vis: Visit)
    requires EdgesOk(p) && b < |p.blocks| && |dom| == |p.blocks| && PhiOk(p, dom, b, PhiInt(r, ins))
    requires StepReady(p, dom, b, PhiInt(r, ins), e, v, inp, vis)
    requires AllHold(EncodePhiInt(p, b, r, ins, e).bmcVec, v)
    ensures v.ints(e.nextInt) == ReadInt(IntIncoming(ins, vis.from), vis.entry)
  {
    hide Holds, AllHold, RegsMatch, GetInt, EdgesOk, MkAnd, PhiIntCons, IntIncoming, ReadInt, PhiOk, DomOut;
    var x, q := e.nextInt, vis.from;
    var e1 := SetInt(e, r, IntVar(x)).(nextInt := x + 1);
    EdgeGood(p, q, b);
    var j := PhiIntPick(p, dom, b, r, ins, q);
    var o := ins[j].1;
    PhiIntConsAt(p, e1, b, x, ins, |ins|, j);
    IntReads(e, o, v, vis.entry, DomOut(p, dom, q));
    assert EarlierInt(e1, o) == EarlierInt(e, o) by { NotInDef(p, dom, b, r, q, o); }
    assert EdgeCond(p, e1, q, b) == EdgeCond(p, e, q, b);
    LastEmitted(e1, PhiIntCons(p, e1, b, x, ins, |ins|),
                Implies(EdgeCond(p, e, q, b), Compare(Eq, IntVar(x), EarlierInt(e, o))), v);
    GuardedInt(EdgeCond(p, e, q, b), x, EarlierInt(e, o), v);
  }

  lemma NotInDef(p: Program, dom: seq<Regs>, b: nat, r: nat, q: nat, o: IntOperand)
    requires q < |p.blocks| && |dom| == |p.blocks|
    requires Disjoint(DomOut(p, dom, q), Regs({r}, {})) && IntUse(o, DomOut(p, dom, q))
    ensures o != IReg(r)
  {
  }

  lemma PhiBoolValue(p: Program, dom: seq<Regs>, b: nat, r: nat, ins: seq<(nat, BoolOperand)>, e: Enc, v: Valuation, inp: Inputs, vis: Visit)
    requires EdgesOk(p) && b < |p.blocks| && |dom| == |p.blocks| && PhiOk(p, dom, b, PhiBool(r, ins))
    requires StepReady(p, dom, b, PhiBool(r, ins), e, v, inp, vis)
    requires AllHold(EncodePhiBool(p, b, r, ins, e).bmcVec, v)
    ensures v.bools(BitName(e.nextBit)) == ReadBool(BoolIncoming(ins, vis.from), vis.entry)
  {
    hide AllHold, RegsMatch, GetBool, EdgesOk, MkAnd, PhiBoolCons, BoolIncoming, ReadBool, PhiOk, DomOut;
    var x, q := e.nextBit, vis.from;
    var t := BoolVar(BitName(x));
    var e1 := SetBool(e, r, t).(nextBit := x + 1);
    EdgeGood(p, q, b);
    var j := PhiBoolPick(p, dom, b, r, ins, q);
    var o := ins[j].1;
    PhiBoolConsAt(p, e1, b, x, ins, |ins|, j);
    BoolReads(e, o, v, vis.entry, DomOut(p, dom, q));
    assert EarlierBool(e1, o) == EarlierBool(e, o) by {
      assert o != BReg(r) by { assert Disjoint(DomOut(p, dom, q), Def(PhiBool(r, ins))); }
    }
    assert EdgeCond(p, e1, q, b) == EdgeCond(p, e, q, b);
    LastEmitted(e1, PhiBoolCons(p, e1, b, x, ins, |ins|),
                Implies(EdgeCond(p, e, q, b), Iff(t, EarlierBool(e, o))), v);
    GuardedBool(EdgeCond(p, e, q, b), t, EarlierBool(e, o), v);
  }

  lemma PhiIntMatch(p: Program, dom: seq<Regs>, b: nat, r: nat, ins: seq<(nat, IntOperand)>, e: Enc, v: Valuation, inp: Inputs, vis: Visit, s: State, d: Regs, on: bool)
    requires EdgesOk(p) && b < |p.blocks| && |dom| == |p.blocks| && PhiOk(p, dom, b, PhiInt(r, ins))
    requires Match(p, b, e, v, s, d, on) && StepReady(p, dom, b, PhiInt(r, ins), e, v, inp, vis)
    requires AllHold(EncodePhiInt(p, b, r, ins, e).bmcVec, v)
    ensures Match(p, b, EncodePhiInt(p, b, r, ins, e), v,
                  s.(ints := s.ints[r := ReadInt(IntIncoming(ins, vis.from), vis.entry)]), Join(d, Regs({r}, {})), on)
  {
    hide Match, AllHold, StepReady, EdgesOk, MkAnd, PhiIntCons, IntIncoming, ReadInt, PhiOk;
    var x := e.nextInt;
    var e1 := SetInt(e, r, IntVar(x)).(nextInt := x + 1);
    PhiIntValue(p, dom, b, r, ins, e, v, inp, vis);
    SetIntMatch(p, b, e, v, s, d, on, r, IntVar(x), x + 1);
    EmitMatch(p, b, e1, v, s.(ints := s.ints[r := v.ints(x)]), Join(d, Regs({r}, {})), on,
              e1.bmcVec + [MkAnd(PhiIntCons(p, e1, b, x, ins, |ins|))]);
  }

  lemma PhiBoolMatch(p: Program, dom: seq<Regs>, b: nat, r: nat, ins: seq<(nat, BoolOperand)>, e: Enc, v: Valuation, inp: Inputs, vis: Visit, s: State, d: Regs, on: bool)
    requires EdgesOk(p) && b < |p.blocks| && |dom| == |p.blocks| && PhiOk(p, dom, b, PhiBool(r, ins))
    requires Match(p, b, e, v, s, d, on) && StepReady(p, dom, b, PhiBool(r, ins), e, v, inp, vis)
    requires AllHold(EncodePhiBool(p, b, r, ins, e).bmcVec, v)
    ensures Match(p, b, EncodePhiBool(p, b, r, ins, e), v,
                  s.(bools := s.bools[r := ReadBool(BoolIncoming(ins, vis.from), vis.entry)]), Join(d, Regs({}, {r})), on)
  {
    hide Match, AllHold, StepReady, EdgesOk, MkAnd, PhiBoolCons, BoolIncoming, ReadBool, PhiOk;
    var x := e.nextBit;
    var t := BoolVar(BitName(x));
    var e1 := SetBool(e, r, t).(nextBit := x + 1);
    PhiBoolValue(p, dom, b, r, ins, e, v, inp, vis);
    SetBoolMatch(p, b, e, v, s, d, on, r, t, x + 1);
    EmitMatch(p, b, e1, v, s.(bools := s.bools[r := Holds(t, v)]), Join(d, Regs({}, {r})), on,
              e1.bmcVec + [MkAnd(PhiBoolCons(p, e1, b, x, ins, |ins|))]);
  }

  // ----- memory -----

  lemma LoadMatch(p: Program, b: nat, e: Enc, v: Valuation, s: State, d: Regs, on: bool, r: nat, a: nat, idx: IntOperand)
    requires a < p.nArrays && IntUse(idx, d) && Match(p, b, e, v, s, d, on)
    ensures var (e1, t) := GetInt(e, idx);
            Match(p, b, SetInt(e1, r, Select(NameAt(AryOf(e1, b), a), t)), v,
                  s.(ints := s.ints[r := s.arrs[a](ReadInt(idx, s))]), Join(d, Regs({r}, {})), on)
  {
    hide RegsMatch, GetInt, ReadInt, Holds, GlbsMatch, PathOf;
    IntReads(e, idx, v, s, d);
    SetIntMatch(p, b, e, v, s, d, on, r, Select(NameAt(AryOf(e, b), a), GetInt(e, idx).1), 0);
  }

  lemma LoadGlbMatch(p: Program, b: nat, e: Enc, v: Valuation, s: State, d: Regs, on: bool, r: nat, g: nat)
    requires g < |p.glbInit| && Match(p, b, e, v, s, d, on)
    ensures Match(p, b, SetInt(e, r, IntVar(NameAt(GlbOf(e, b), g))), v, s.(ints := s.ints[r := s.glbs[g]]), Join(d, Regs({r}, {})), on)
  {
    hide RegsMatch, Holds, ArysMatch, PathOf;
    SetIntMatch(p, b, e, v, s, d, on, r, IntVar(NameAt(GlbOf(e, b), g)), 0);
  }

  lemma StoreMatch(p: Program, b: nat, a: nat, idx: IntOperand, val: IntOperand, e: Enc, v: Valuation, s: State, d: Regs, on: bool)
    requires a < p.nArrays && IntUse(idx, d) && IntUse(val, d) && Match(p, b, e, v, s, d, on)
    requires AllHold(EncodeStore(b, a, idx, val, e).bmcVec, v)
    ensures Match(p, b, EncodeStore(b, a, idx, val, e), v,
                  s.(arrs := s.arrs[a := UpdArr(s.arrs[a], ReadInt(idx, s), ReadInt(val, s))]), d, on)
  {
    assert RegsMatch(e, v, s, d);
    IntReads(e, idx, v, s, d); IntReads(e, val, v, s, d);
    var i, x := GetInt(e, idx).1, GetInt(e, val).1;
    var names := AryOf(e, b);
    var c := ArrStore(e.nextArr, names[a], i, x);
    var e' := EncodeStore(b, a, idx, val, e);
    assert e'.bmcVec[|e.bmcVec|] == c;
    assert Holds(c, v);
    var arrs' := s.arrs[a := UpdArr(s.arrs[a], ReadInt(idx, s), ReadInt(val, s))];
    assert AryOf(e', b) == names[a := e.nextArr];
    forall j, k: int | 0 <= j < |arrs'|
      ensures v.arrs(AryOf(e', b)[j], k) == arrs'[j](k)
    {
      assert v.arrs(names[j], k) == s.arrs[j](k);
    }
  }

  lemma StoreGlbMatch(p: Program, b: nat, g: nat, val: IntOperand, e: Enc, v: Valuation, s: State, d: Regs, on: bool)
    requires g < |p.glbInit| && IntUse(val, d) && Match(p, b, e, v, s, d, on)
    requires AllHold(EncodeStoreGlb(b, g, val, e).bmcVec, v)
    ensures Match(p, b, EncodeStoreGlb(b, g, val, e), v, s.(glbs := s.glbs[g := ReadInt(val, s)]), d, on)
  {
    assert RegsMatch(e, v, s, d);
    IntReads(e, val, v, s, d);
    var c := Compare(Eq, IntVar(e.nextInt), GetInt(e, val).1);
    var e' := EncodeStoreGlb(b, g, val, e);
    assert e'.bmcVec[|e.bmcVec|] == c;
    assert Holds(c, v);
    assert GlbOf(e', b) == GlbOf(e, b)[g := e.nextInt];
  }

  /** The bit that replaces the path bit is true exactly when the assumption held as well. */
  lemma AssumeMatch(p: Program, b: nat, c: BoolOperand, e: Enc, v: Valuation, s: State, d: Regs, on: bool)
    requires BoolUse(c, d) && Match(p, b, e, v, s, d, on)
    requires AllHold(EncodeAssume(b, c, e).bmcVec, v)
    ensures Match(p, b, EncodeAssume(b, c, e), v, s.(ok := s.ok && ReadBool(c, s)), d, on)
  {
    assert RegsMatch(e, v, s, d);
    BoolReads(e, c, v, s, d);
    var bit, body := BoolVar(BitName(e.nextBit)), Conj([PathOf(e, b), GetBool(e, c).1]);
    var e' := EncodeAssume(b, c, e);
    assert e'.bmcVec[|e.bmcVec|] == Iff(bit, body);
    assert Holds(Iff(bit, body), v);
    assert PathOf(e', b) == bit;
    ConjTwo(PathOf(e, b), GetBool(e, c).1, v);
  }

  lemma ConjTwo(x: BoolTerm, y: BoolTerm, v: Valuation)
    ensures Holds(Conj([x, y]), v) == (Holds(x, v) && Holds(y, v))
  {
    var ts := [x, y];
    assert ts[0] == x && ts[1] == y;
  }

  /** One instruction: what it emits forces its effect. */
  lemma InstrMatch(p: Program, dom: seq<Regs>, b: nat, i: Instr, e: Enc, v: Valuation, inp: Inputs, vis: Visit, s: State, d: Regs, on: bool)
    requires EdgesOk(p) && b < |p.blocks| && |dom| == |p.blocks| && PhiOk(p, dom, b, i) && IndexOk(p, i)
    requires UsesIn(i, d) && Match(p, b, e, v, s, d, on) && StepReady(p, dom, b, i, e, v, inp, vis)
    requires AllHold(EncodeInstr(p, b, i, e).bmcVec, v)
    ensures Match(p, b, EncodeInstr(p, b, i, e), v, ExecInstr(inp, vis.from, vis.entry, i, s), Join(d, Def(i)), on)
  {
    hide Match, RegsMatch, AllHold, GetInt, GetBool, EncodePhiInt, EncodePhiBool, EncodeStore, EncodeStoreGlb, EncodeAssume, AddSpec, SetInt, SetBool, ReadInt, ReadBool, PhiOk, EdgesOk;
    assert Join(d, NONE) == d;
    assert |s.arrs| == p.nArrays && |s.glbs| == |p.glbInit| by { MatchSizes(p, b, e, v, s, d, on); }
    match i
    case IntBin(r, op, x, y) => IntBinMatch(p, b, e, v, s, d, on, r, op, x, y);
    case BoolBin(r, op, x, y) => BoolBinMatch(p, b, e, v, s, d, on, r, op, x, y);
    case Cmp(r, op, x, y) => CmpMatch(p, b, e, v, s, d, on, r, op, x, y);
    case PhiInt(r, ins) => PhiIntMatch(p, dom, b, r, ins, e, v, inp, vis, s, d, on);
    case PhiBool(r, ins) => PhiBoolMatch(p, dom, b, r, ins, e, v, inp, vis, s, d, on);
    case NondetInt(r) => SetIntMatch(p, b, e, v, s, d, on, r, IntVar(e.nextInt), e.nextInt + 1);
    case NondetBool(r) => SetBoolMatch(p, b, e, v, s, d, on, r, BoolVar(BitName(e.nextBit)), e.nextBit + 1);
    case Assume(c) => AssumeMatch(p, b, c, e, v, s, d, on);
    case AssertBool(c) => AssertMatch(p, b, i, e, v, s, d, on);
    case AssertInt(x) => AssertMatch(p, b, i, e, v, s, d, on);
    case Load(r, a, idx) => LoadMatch(p, b, e, v, s, d, on, r, a, idx);
    case Store(a, idx, val) => StoreMatch(p, b, a, idx, val, e, v, s, d, on);
    case LoadGlb(r, g) => LoadGlbMatch(p, b, e, v, s, d, on, r, g);
    case StoreGlb(g, val) => StoreGlbMatch(p, b, g, val, e, v, s, d, on);
  }

  lemma MatchSizes(p: Program, b: nat, e: Enc, v: Valuation, s: State, d: Regs, on: bool)
    requires Match(p, b, e, v, s, d, on)
    ensures |s.arrs| == p.nArrays && |s.glbs| == |p.glbInit|
  {
  }

  lemma AssertMatch(p: Program, b: nat, i: Instr, e: Enc, v: Valuation, s: State, d: Regs, on: bool)
    requires EdgesOk(p) && b < |p.blocks| && IsAssert(i) && UsesIn(i, d) && Match(p, b, e, v, s, d, on)
    ensures Match(p, b, EncodeInstr(p, b, i, e), v, s, d, on)
  {
    hide Holds, IntVal, ReadInt, ReadBool, ArysMatch, GlbsMatch;
    MatchRegs(p, b, e, v, s, d, on);
    match i
    case AssertBool(c) => BoolReads(e, c, v, s, d);
    case AssertInt(x) => IntReads(e, x, v, s, d);
  }
}
