/** The encoder as the tool runs it: one object whose maps and vectors the translation updates in place.
    Every method is tied to the function of the old state that `EncoderSpec` defines for it. */
module BmcEncoder {
  import opened Terms
  import opened Ir
  import opened EncoderSpec
  import opened EncoderFrame
  import opened EncoderSound
  import opened EncoderComplete
  import opened EncoderVerdict

  class Encoder {
    var intTerms: map<nat, IntTerm>
    var boolTerms: map<nat, BoolTerm>
    var pathBit: map<nat, BoolTerm>
    var exitBits: map<nat, seq<BoolTerm>>
    var ary: map<nat, seq<nat>>
    var glb: map<nat, seq<nat>>
    var bmcVec: seq<BoolTerm>
    var specVec: seq<BoolTerm>
    var assertBits: seq<BoolTerm>
    var nextInt: nat
    var nextArr: nat
    var nextExit: nat
    var nextBit: nat

    ghost function Abs(): Enc
      reads this
    {
      Enc(intTerms, boolTerms, pathBit, exitBits, ary, glb, bmcVec, specVec, assertBits, nextInt, nextArr, nextExit, nextBit)
    }

    constructor ()
      ensures Abs() == EMPTY
    {
      intTerms, boolTerms, pathBit, exitBits, ary, glb := map[], map[], map[], map[], map[], map[];
      bmcVec, specVec, assertBits := [], [], [];
      nextInt, nextArr, nextExit, nextBit := 0, 0, 0, 0;
    }

    // ----- reading the maps -----

    function PathBit(b: nat): (t: BoolTerm)
      reads this
      ensures t == PathOf(Abs(), b)
    {
      if b in pathBit then pathBit[b] else BoolLit(false)
    }

    function ExitBits(b: nat): (ts: seq<BoolTerm>)
      reads this
      ensures ts == ExitsOf(Abs(), b)
    {
      if b in exitBits then exitBits[b] else []
    }

    function ArrayNames(b: nat): (ns: seq<nat>)
      reads this
      ensures ns == AryOf(Abs(), b)
    {
      if b in ary then ary[b] else []
    }

    function GlbNames(b: nat): (ns: seq<nat>)
      reads this
      ensures ns == GlbOf(Abs(), b)
    {
      if b in glb then glb[b] else []
    }

    // ----- terms -----

    method GetIntTerm(o: IntOperand) returns (t: IntTerm)
      modifies this
      ensures (Abs(), t) == GetInt(old(Abs()), o)
    {
      match o
      case IConst(n) => t := IntLit(n);
      case IReg(r) =>
        if r in intTerms {
          t := intTerms[r];
        } else {
          t := IntVar(nextInt);
          nextInt := nextInt + 1;
          intTerms := intTerms[r := t];
        }
    }

    method GetBoolTerm(o: BoolOperand) returns (t: BoolTerm)
      modifies this
      ensures (Abs(), t) == GetBool(old(Abs()), o)
    {
      match o
      case BConst(b) => t := BoolLit(b);
      case BReg(r) =>
        if r in boolTerms {
          t := boolTerms[r];
        } else {
          t := BoolVar(BitName(nextBit));
          nextBit := nextBit + 1;
          boolTerms := boolTerms[r := t];
        }
    }

    // ----- before the blocks -----

    method FreshArrayNames(n: nat) returns (names: seq<nat>)
      modifies this`nextArr
      ensures nextArr == old(nextArr) + n && |names| == n && forall j | 0 <= j < n :: names[j] == old(nextArr) + j
    {
      ghost var next := nextArr;
      names := [];
      for i := 0 to n
        invariant nextArr == next + i && |names| == i && forall j | 0 <= j < i :: names[j] == next + j
      {
        names := names + [nextArr];
        nextArr := nextArr + 1;
      }
    }

    method FreshGlbNames(n: nat) returns (names: seq<nat>)
      modifies this`nextInt
      ensures nextInt == old(nextInt) + n && |names| == n && forall j | 0 <= j < n :: names[j] == old(nextInt) + j
    {
      ghost var next := nextInt;
      names := [];
      for i := 0 to n
        invariant nextInt == next + i && |names| == i && forall j | 0 <= j < i :: names[j] == next + j
      {
        names := names + [nextInt];
        nextInt := nextInt + 1;
      }
    }

    method InitMemoryState(p: Program)
      modifies this`ary, this`glb, this`nextArr, this`nextInt
      ensures Abs() == InitMemory(p, old(Abs()))
    {
      ghost var e := Abs();
      var names := FreshArrayNames(p.nArrays);
      ary := ary[0 := names];
      var gs := FreshGlbNames(|p.glbInit|);
      glb := glb[0 := gs];
      assert names == seq(p.nArrays, i requires 0 <= i < p.nArrays => e.nextArr + i);
      assert gs == seq(|p.glbInit|, i requires 0 <= i < |p.glbInit| => e.nextInt + i);
    }

    method InitParameters(p: Program)
      modifies this
      ensures Abs() == InitParams(p, old(Abs()))
    {
      hide GetInt, GetBool;
      ghost var e := Abs();
      for i := 0 to |p.intParams|
        invariant Abs() == ParamsInt(e, p.intParams, i)
      {
        var _ := GetIntTerm(IReg(p.intParams[i]));
      }
      ghost var f := Abs();
      for i := 0 to |p.boolParams|
        invariant Abs() == ParamsBool(f, p.boolParams, i)
      {
        var _ := GetBoolTerm(BReg(p.boolParams[i]));
      }
    }

    /** Three or more successors: a fresh bit for each, and one of them must be taken. */
    method ManyExitBits(k: nat) returns (xs: seq<BoolTerm>)
      requires k >= 3
      modifies this`nextExit, this`bmcVec
      ensures xs == FreshExits(old(nextExit), k) && nextExit == old(nextExit) + k
      ensures bmcVec == old(bmcVec) + [MkOr(xs)]
    {
      ghost var next := nextExit;
      xs := [];
      for i := 0 to k
        invariant nextExit == next + i && |xs| == i && bmcVec == old(bmcVec)
        invariant forall j: nat | j < i :: xs[j] == BoolVar(ExitName(next + j))
      {
        xs := xs + [BoolVar(ExitName(nextExit))];
        nextExit := nextExit + 1;
      }
      assert xs == FreshExits(next, k);
      bmcVec := bmcVec + [MkOr(xs)];
    }

    method FreshExitBits(k: nat) returns (xs: seq<BoolTerm>)
      modifies this`nextExit, this`bmcVec
      ensures xs == FreshExits(old(nextExit), k) && nextExit == old(nextExit) + ExitCount(k)
      ensures bmcVec == if k >= 3 then old(bmcVec) + [MkOr(xs)] else old(bmcVec)
    {
      hide MkOr;
      if k == 0 {
        xs := [];
      } else if k == 1 {
        xs := [BoolLit(true)];
      } else if k == 2 {
        var bit := BoolVar(ExitName(nextExit));
        nextExit := nextExit + 1;
        xs := [bit, Not(bit)];
      } else {
        xs := ManyExitBits(k);
      }
    }

    method InitBlock(p: Program, b: nat)
      requires b < |p.blocks|
      modifies this`exitBits, this`pathBit, this`nextExit, this`nextBit, this`bmcVec
      ensures Abs() == InitBlockBits(p, b, old(Abs()))
    {
      hide FreshExits, MkOr, ExitCount, Succs;
      var xs := FreshExitBits(|Succs(p.blocks[b].term)|);
      exitBits := exitBits[b := xs];
      pathBit := pathBit[b := BoolVar(BitName(nextBit))];
      nextBit := nextBit + 1;
    }

    method InitPathExitBit(p: Program)
      requires |p.blocks| > 0
      modifies this`exitBits, this`pathBit, this`nextExit, this`nextBit, this`bmcVec
      ensures var e := InitBits(p, |p.blocks|, old(Abs())); Abs() == e.(pathBit := e.pathBit[0 := BoolLit(true)])
    {
      hide InitBlockBits;
      ghost var e := Abs();
      for bidx := 0 to |p.blocks|
        invariant Abs() == InitBits(p, bidx, e)
      {
        InitBlock(p, bidx);
      }
      pathBit := pathBit[0 := BoolLit(true)];
    }

    // ----- joins -----

    method ExtendPath(p: Program, b: nat, q: nat) returns (t: BoolTerm)
      requires q < |p.blocks| && b in Succs(p.blocks[q].term)
      ensures t == EdgeCond(p, Abs(), q, b)
    {
      var i := SuccIndex(Succs(p.blocks[q].term), b);
      t := Conj([PathBit(q), if i < |ExitBits(q)| then ExitBits(q)[i] else BoolLit(true)]);
    }

    method IncomingPaths(p: Program, b: nat) returns (conds: seq<BoolTerm>)
      requires EdgesOk(p) && b < |p.blocks|
      ensures conds == Incoming(p, Abs(), b)
    {
      hide EdgeCond, EdgesOk, Succs;
      conds := [];
      ghost var all := Incoming(p, Abs(), b);
      PredsLong(p);
      EdgesGood(p, b);
      var i := 0;
      while i < |p.preds[b]|
        invariant 0 <= i <= |p.preds[b]| == |all| && conds == all[..i]
      {
        assert IsPred(p, p.preds[b][i], b);
        var t := ExtendPath(p, b, p.preds[b][i]);
        assert t == all[i] && all[..i + 1] == all[..i] + [all[i]];
        conds := conds + [t];
        i := i + 1;
      }
    }

    static method AllEqual(vecs: seq<seq<nat>>, j: nat) returns (same: bool)
      requires |vecs| > 0
      ensures same == AllSame(vecs, j)
    {
      same := true;
      var i := 1;
      while i < |vecs|
        invariant 1 <= i <= |vecs| && same
        invariant forall l | 0 <= l < i :: NameAt(vecs[l], j) == NameAt(vecs[0], j)
      {
        if NameAt(vecs[i], j) != NameAt(vecs[0], j) {
          same := false;
          break;
        }
        i := i + 1;
      }
    }

    static method GuardedEqualities(k: Kind, vecs: seq<seq<nat>>, conds: seq<BoolTerm>, j: nat, x: nat) returns (cons: seq<BoolTerm>)
      requires |vecs| == |conds|
      ensures cons == JoinCons(k, vecs, conds, j, x)
    {
      cons := [];
      var i := 0;
      while i < |conds|
        invariant 0 <= i <= |conds| && cons == JoinCons(k, vecs, conds, j, x)[..i]
      {
        cons := cons + [Implies(conds[i], NameEq(k, x, NameAt(vecs[i], j)))];
        i := i + 1;
      }
    }

    /** The shape shared by the array and the global join: per name, keep it if all predecessors agree on it,
        otherwise make a fresh one and guard its equalities. */
    static method JoinState(k: Kind, vecs: seq<seq<nat>>, conds: seq<BoolTerm>, size: nat, next: nat) returns (r: Joined)
      requires |vecs| == |conds| > 0
      ensures r == JoinUpTo(k, vecs, conds, size, next)
    {
      var names, cons, newest := [], [], next;
      var j := 0;
      while j < size
        invariant 0 <= j <= size && Joined(names, cons, newest) == JoinUpTo(k, vecs, conds, j, next)
      {
        var same := AllEqual(vecs, j);
        if same {
          names := names + [NameAt(vecs[0], j)];
        } else {
          var added := GuardedEqualities(k, vecs, conds, j, newest);
          cons := cons + added;
          names := names + [newest];
          newest := newest + 1;
        }
        j := j + 1;
      }
      r := Joined(names, cons, newest);
    }

    method JoinArrayState(p: Program, conds: seq<BoolTerm>, b: nat)
      requires b < |p.preds| && |conds| == |p.preds[b]| > 0
      modifies this
      ensures Abs() == JoinArrays(p, b, conds, old(Abs()))
    {
      var r := JoinState(Arrays, VecsOf(ary, p.preds[b]), conds, p.nArrays, nextArr);
      ary, nextArr := ary[b := r.names], r.next;
      bmcVec := bmcVec + [MkAnd(r.cons)];
    }

    method JoinGlbState(p: Program, conds: seq<BoolTerm>, b: nat)
      requires b < |p.preds| && |conds| == |p.preds[b]| > 0
      modifies this
      ensures Abs() == JoinGlobals(p, b, conds, old(Abs()))
    {
      var r := JoinState(Globals, VecsOf(glb, p.preds[b]), conds, |p.glbInit|, nextInt);
      glb, nextInt := glb[b := r.names], r.next;
      bmcVec := bmcVec + [MkAnd(r.cons)];
    }

    // ----- instructions -----

    method TranslateBinOp(ghost p: Program, b: nat, d: nat, op: IntOp, x: IntOperand, y: IntOperand)
      requires EdgesOk(p) && b < |p.blocks|
      modifies this
      ensures Abs() == EncodeInstr(p, b, IntBin(d, op, x, y), old(Abs()))
    {
      var s := GetIntTerm(x);
      var t := GetIntTerm(y);
      intTerms := intTerms[d := Arith(op, s, t)];
    }

    method TranslateBoolOp(ghost p: Program, b: nat, d: nat, op: BoolOp, x: BoolOperand, y: BoolOperand)
      requires EdgesOk(p) && b < |p.blocks|
      modifies this
      ensures Abs() == EncodeInstr(p, b, BoolBin(d, op, x, y), old(Abs()))
    {
      var s := GetBoolTerm(x);
      var t := GetBoolTerm(y);
      boolTerms := boolTerms[d := Logic(op, s, t)];
    }

    method TranslateCmp(ghost p: Program, b: nat, d: nat, pred: CmpPred, x: IntOperand, y: IntOperand)
      requires EdgesOk(p) && b < |p.blocks|
      modifies this
      ensures Abs() == EncodeInstr(p, b, Cmp(d, pred, x, y), old(Abs()))
    {
      var s := GetIntTerm(x);
      var t := GetIntTerm(y);
      boolTerms := boolTerms[d := Compare(pred, s, t)];
    }

    method TranslatePhiInt(p: Program, b: nat, d: nat, ins: seq<(nat, IntOperand)>)
      requires EdgesOk(p) && b < |p.blocks|
      modifies this
      ensures Abs() == EncodePhiInt(p, b, d, ins, old(Abs()))
    {
      hide EdgeCond, Succs, MkAnd;
      var x := nextInt;
      intTerms, nextInt := intTerms[d := IntVar(x)], x + 1;
      var cons, i := [], 0;
      ghost var e := Abs();
      while i < |ins|
        invariant 0 <= i <= |ins| && Abs() == e && cons == PhiIntCons(p, e, b, x, ins, i)
      {
        if IsPred(p, ins[i].0, b) {
          var prev := EarlierIntTerm(ins[i].1);
          var cond := ExtendPath(p, b, ins[i].0);
          cons := cons + [Implies(cond, Compare(Eq, IntVar(x), prev))];
        }
        i := i + 1;
      }
      bmcVec := bmcVec + [MkAnd(cons)];
    }

    function EarlierIntTerm(o: IntOperand): (t: IntTerm)
      reads this
      ensures t == EarlierInt(Abs(), o)
    {
      match o
      case IConst(n) => IntLit(n)
      case IReg(r) => if r in intTerms then intTerms[r] else IntLit(0)
    }

    function EarlierBoolTerm(o: BoolOperand): (t: BoolTerm)
      reads this
      ensures t == EarlierBool(Abs(), o)
    {
      match o
      case BConst(b) => BoolLit(b)
      case BReg(r) => if r in boolTerms then boolTerms[r] else BoolLit(false)
    }

    method TranslatePhiBool(p: Program, b: nat, d: nat, ins: seq<(nat, BoolOperand)>)
      requires EdgesOk(p) && b < |p.blocks|
      modifies this
      ensures Abs() == EncodePhiBool(p, b, d, ins, old(Abs()))
    {
      hide EdgeCond, Succs, MkAnd;
      var x := nextBit;
      boolTerms, nextBit := boolTerms[d := BoolVar(BitName(x))], x + 1;
      var cons, i := [], 0;
      ghost var e := Abs();
      while i < |ins|
        invariant 0 <= i <= |ins| && Abs() == e && cons == PhiBoolCons(p, e, b, x, ins, i)
      {
        if IsPred(p, ins[i].0, b) {
          var prev := EarlierBoolTerm(ins[i].1);
          var cond := ExtendPath(p, b, ins[i].0);
          cons := cons + [Implies(cond, Iff(BoolVar(BitName(x)), prev))];
        }
        i := i + 1;
      }
      bmcVec := bmcVec + [MkAnd(cons)];
    }

    method TranslateNondetInt(ghost p: Program, b: nat, d: nat)
      requires EdgesOk(p) && b < |p.blocks|
      modifies this
      ensures Abs() == EncodeInstr(p, b, NondetInt(d), old(Abs()))
    {
      if d in intTerms { return; }
      intTerms, nextInt := intTerms[d := IntVar(nextInt)], nextInt + 1;
    }

    method TranslateNondetBool(ghost p: Program, b: nat, d: nat)
      requires EdgesOk(p) && b < |p.blocks|
      modifies this
      ensures Abs() == EncodeInstr(p, b, NondetBool(d), old(Abs()))
    {
      boolTerms, nextBit := boolTerms[d := BoolVar(BitName(nextBit))], nextBit + 1;
    }

    method AssumeToBmc(b: nat, c: BoolOperand)
      modifies this
      ensures Abs() == EncodeAssume(b, c, old(Abs()))
    {
      var path := PathBit(b);
      var t := GetBoolTerm(c);
      var bit := BoolVar(BitName(nextBit));
      nextBit := nextBit + 1;
      pathBit := pathBit[b := bit];
      bmcVec := bmcVec + [Iff(bit, Conj([path, t]))];
    }

    method AssertToSpec(b: nat, t: BoolTerm)
      modifies this
      ensures Abs() == AddSpec(b, t, old(Abs()))
    {
      specVec := specVec + [Disj([Not(PathBit(b)), t])];
      assertBits := assertBits + [PathBit(b)];
    }

    method TranslateAssertBool(ghost p: Program, b: nat, c: BoolOperand)
      requires EdgesOk(p) && b < |p.blocks|
      modifies this
      ensures Abs() == EncodeInstr(p, b, AssertBool(c), old(Abs()))
    {
      hide AddSpec, EdgesOk;
      var t := GetBoolTerm(c);
      AssertToSpec(b, t);
    }

    method TranslateAssertInt(ghost p: Program, b: nat, x: IntOperand)
      requires EdgesOk(p) && b < |p.blocks|
      modifies this
      ensures Abs() == EncodeInstr(p, b, AssertInt(x), old(Abs()))
    {
      hide AddSpec, EdgesOk;
      var t := GetIntTerm(x);
      AssertToSpec(b, Compare(Ne, t, IntLit(0)));
    }

    method ArrayRead(b: nat, a: nat, idx: IntTerm) returns (t: IntTerm)
      ensures t == Select(NameAt(AryOf(Abs(), b), a), idx)
    {
      t := Select(NameAt(ArrayNames(b), a), idx);
    }

    method ArrayWrite(b: nat, a: nat, idx: IntTerm, val: IntTerm) returns (c: BoolTerm)
      modifies this
      ensures var e := old(Abs()); var names := AryOf(e, b);
              && c == ArrStore(e.nextArr, NameAt(names, a), idx, val)
              && Abs() == e.(ary := e.ary[b := if a < |names| then names[a := e.nextArr] else names], nextArr := e.nextArr + 1)
    {
      var names := ArrayNames(b);
      var added := nextArr;
      nextArr := nextArr + 1;
      c := ArrStore(added, NameAt(names, a), idx, val);
      ary := ary[b := if a < |names| then names[a := added] else names];
    }

    method GlbWrite(b: nat, g: nat, val: IntTerm) returns (c: BoolTerm)
      modifies this
      ensures var e := old(Abs()); var names := GlbOf(e, b);
              && c == Compare(Eq, IntVar(e.nextInt), val)
              && Abs() == e.(glb := e.glb[b := if g < |names| then names[g := e.nextInt] else names], nextInt := e.nextInt + 1)
    {
      var names := GlbNames(b);
      var added := nextInt;
      nextInt := nextInt + 1;
      c := Compare(Eq, IntVar(added), val);
      glb := glb[b := if g < |names| then names[g := added] else names];
    }

    method TranslateLoad(ghost p: Program, b: nat, d: nat, a: nat, idx: IntOperand)
      requires EdgesOk(p) && b < |p.blocks|
      modifies this
      ensures Abs() == EncodeInstr(p, b, Load(d, a, idx), old(Abs()))
    {
      var i := GetIntTerm(idx);
      var t := ArrayRead(b, a, i);
      intTerms := intTerms[d := t];
    }

    method TranslateStore(b: nat, a: nat, idx: IntOperand, val: IntOperand)
      modifies this
      ensures Abs() == EncodeStore(b, a, idx, val, old(Abs()))
    {
      var i := GetIntTerm(idx);
      var x := GetIntTerm(val);
      var c := ArrayWrite(b, a, i, x);
      bmcVec := bmcVec + [c];
    }

    method TranslateStoreGlb(b: nat, g: nat, val: IntOperand)
      modifies this
      ensures Abs() == EncodeStoreGlb(b, g, val, old(Abs()))
    {
      var x := GetIntTerm(val);
      var c := GlbWrite(b, g, x);
      bmcVec := bmcVec + [c];
    }

    method TranslateInstr(p: Program, b: nat, i: Instr)
      requires EdgesOk(p) && b < |p.blocks|
      modifies this
      ensures Abs() == EncodeInstr(p, b, i, old(Abs()))
    {
      hide EdgesOk, EncodePhiInt, EncodePhiBool, EncodeAssume, EncodeStore, EncodeStoreGlb, AddSpec, GetInt, GetBool;
      match i
      case IntBin(d, op, x, y) => TranslateBinOp(p, b, d, op, x, y);
      case BoolBin(d, op, x, y) => TranslateBoolOp(p, b, d, op, x, y);
      case Cmp(d, pred, x, y) => TranslateCmp(p, b, d, pred, x, y);
      case PhiInt(d, ins) => TranslatePhiInt(p, b, d, ins);
      case PhiBool(d, ins) => TranslatePhiBool(p, b, d, ins);
      case NondetInt(d) => TranslateNondetInt(p, b, d);
      case NondetBool(d) => TranslateNondetBool(p, b, d);
      case Assume(c) => AssumeToBmc(b, c);
      case AssertBool(c) => TranslateAssertBool(p, b, c);
      case AssertInt(x) => TranslateAssertInt(p, b, x);
      case Load(d, a, idx) => TranslateLoad(p, b, d, a, idx);
      case Store(a, idx, val) => TranslateStore(b, a, idx, val);
      case LoadGlb(d, g) => intTerms := intTerms[d := IntVar(NameAt(GlbNames(b), g))];
      case StoreGlb(g, val) => TranslateStoreGlb(b, g, val);
    }

    // ----- terminators -----

    method TranslateBranch(b: nat, c: BoolOperand)
      modifies this
      ensures Abs() == EncodeBranch(b, c, old(Abs()))
    {
      var t := GetBoolTerm(c);
      var xs := ExitBits(b);
      bmcVec := bmcVec + [Iff(t, if 0 < |xs| then xs[0] else BoolLit(true))];
    }

    method TranslateSwitch(b: nat, x: IntOperand, cases: seq<(int, nat)>)
      requires |ExitsOf(Abs(), b)| == |cases| + 1
      modifies this
      ensures Abs() == EncodeSwitch(b, x, cases, old(Abs()))
    {
      var xs := ExitBits(b);
      var t := GetIntTerm(x);
      ghost var e := Abs();
      var none, i := [], 0;
      while i < |cases|
        invariant 0 <= i <= |cases| && none == NoCase(cases, t)[..i]
        invariant Abs() == e.(bmcVec := e.bmcVec + SwitchCons(cases, t, xs)[..i])
      {
        var cs := CaseTerm(cases[i].0, t);
        bmcVec := bmcVec + [Iff(cs, xs[i + 1])];
        none := none + [Not(cs)];
        i := i + 1;
      }
      ghost var all := SwitchCons(cases, t, xs);
      assert none == NoCase(cases, t) && all[..|cases|] == all;
      bmcVec := bmcVec + [Iff(MkAnd(none), xs[0])];
      assert bmcVec == e.bmcVec + (all + [Iff(MkAnd(NoCase(cases, t)), xs[0])]);
    }

    method TranslateRet(r: Option<IntOperand>)
      modifies this
      ensures Abs() == EncodeReturn(r, old(Abs()))
    {
      if r.Some? {
        var t := GetIntTerm(r.value);
        bmcVec := bmcVec + [Compare(Eq, IntVar(nextInt), t)];
        nextInt := nextInt + 1;
      }
    }

    method TranslateTerminator(p: Program, b: nat)
      requires b < |p.blocks| && |ExitsOf(Abs(), b)| == |Succs(p.blocks[b].term)|
      modifies this
      ensures Abs() == EncodeTerm(p, b, old(Abs()))
    {
      hide EncodeBranch, EncodeSwitch, EncodeReturn;
      match p.blocks[b].term
      case Jump(_) =>
      case Branch(c, _, _) => TranslateBranch(b, c);
      case Switch(x, _, cases) => TranslateSwitch(b, x, cases);
      case Return(r) => TranslateRet(r);
      case Unreachable => specVec := specVec + [Not(PathBit(b))];
    }

    // ----- whole programs -----

    method JoinPredecessors(p: Program, b: nat)
      requires EdgesOk(p) && b < |p.blocks|
      modifies this
      ensures Abs() == EnterBlock(p, b, old(Abs()))
    {
      hide MkOr, MkAnd, EdgeCond, JoinArrays, JoinGlobals;
      var conds := IncomingPaths(p, b);
      var path := PathBit(b);
      if b == 0 {
        bmcVec := bmcVec + [path];
      } else {
        bmcVec := bmcVec + [Implies(path, MkOr(conds))];
        JoinArrayState(p, conds, b);
        JoinGlbState(p, conds, b);
      }
    }

    method TranslateBlock(p: Program, b: nat)
      requires EdgesOk(p) && b < |p.blocks| && |ExitsOf(Abs(), b)| == |Succs(p.blocks[b].term)|
      modifies this
      ensures Abs() == EncodeTerm(p, b, EncodeInstrs(p, b, |p.blocks[b].instrs|, old(Abs())))
    {
      hide EncodeInstr, EncodeTerm, EdgesOk, Continues;
      ghost var e := Abs();
      for i := 0 to |p.blocks[b].instrs|
        invariant Abs() == EncodeInstrs(p, b, i, e)
      {
        TranslateInstr(p, b, p.blocks[b].instrs[i]);
      }
      InstrsContinue(p, b, |p.blocks[b].instrs|, e);
      SameExits(b, DefsUpTo(p.blocks[b].instrs, |p.blocks[b].instrs|), e, Abs());
      TranslateTerminator(p, b);
    }

    /** Constraints for the initialised globals, over their entry names. */
    method GlobalDefinitions(p: Program) returns (defs: seq<BoolTerm>)
      ensures defs == GlbDefs(p, GlbOf(Abs(), 0), |p.glbInit|)
    {
      var names := GlbNames(0);
      defs := [];
      for g := 0 to |p.glbInit|
        invariant defs == GlbDefs(p, names, g)
      {
        if p.glbInit[g].Some? {
          defs := defs + [Compare(Eq, IntVar(NameAt(names, g)), IntLit(p.glbInit[g].value))];
        }
      }
    }

    /** `do_bmc`: path and exit bits, the blocks in order, the definitions of the globals, and the demand that
        some assertion be reached.  What the verdict theorems say of `Encode` they say of this object. */
    method DoBmc(p: Program)
      requires EdgesOk(p) && Abs() == EMPTY
      modifies this
      ensures Abs() == Encode(p)
    {
      hide EdgesOk, EnterBlock, EncodeTerm, EncodeInstrs, InitBits, InitParams, InitMemory, GlbDefs, MkOr, FreshExits, ExitsOf, GlbOf, Succs;
      NonEmpty(p);
      InitMemoryState(p);
      InitParameters(p);
      InitPathExitBit(p);
      var defs := GlobalDefinitions(p);
      for bidx := 0 to |p.blocks|
        invariant Abs() == EncodeBlocks(p, bidx)
      {
        JoinPredecessors(p, bidx);
        BlockExits(p, bidx);
        TranslateBlock(p, bidx);
      }
      bmcVec := defs + bmcVec;
      bmcVec := bmcVec + [MkOr(assertBits)];
    }
  }

  /** From a fresh encoder to the verdict: the vectors `do_bmc` leaves have a model that breaks a specification
      exactly when some run of the program shows a failure. */
  method Check(p: Program, ghost dom: seq<Regs>) returns (enc: Encoder)
    requires WellFormed(p, dom)
    ensures fresh(enc)
    ensures (exists v :: AllHold(enc.bmcVec, v) && SomeFalse(enc.specVec, v)) <==> exists inp :: Shows(p, inp)
  {
    hide EdgesOk, SsaOk, SuccsDistinct, Encode, AllHold, SomeFalse, Shows;
    WfLong(p, dom);
    enc := new Encoder();
    enc.DoBmc(p);
    Verdict(p, dom);
    assert forall v :: Refutes(p, v) <==> AllHold(enc.bmcVec, v) && SomeFalse(enc.specVec, v);
  }

  lemma SameExits(b: nat, d: Regs, e: Enc, f: Enc)
    requires Continues(b, d, e, f)
    ensures ExitsOf(f, b) == ExitsOf(e, b)
  {
  }

  lemma BlockExits(p: Program, b: nat)
    requires EdgesOk(p) && b < |p.blocks|
    ensures |ExitsOf(EnterBlock(p, b, EncodeBlocks(p, b)), b)| == |Succs(p.blocks[b].term)|
  {
    hide EdgesOk, EncodeBlocks, EnterBlock, FreshExits, Succs, ExitsOf, Continues;
    ExitsFixed(p, b, b);
    EnterContinues(p, b, EncodeBlocks(p, b));
    SameExits(b, NONE, EncodeBlocks(p, b), EnterBlock(p, b, EncodeBlocks(p, b)));
  }
}
