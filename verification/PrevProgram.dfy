/** The program for size N-1: every use of the size register is redirected to a register that holds one less. */
module PrevProgram {

  datatype Op = Add | Sub | Mul
  datatype Pred = Eq | Ne | Lt | Le

  /** Instructions over registers; `LoadSize` reads the size parameter. */
  datatype Instr =
    | Const(dst: nat, c: int)
    | LoadSize(dst: nat)
    | Bin(dst: nat, op: Op, x: nat, y: nat)
    | Decrement(dst: nat, x: nat)
    | Phi(dst: nat, ins: seq<(nat, nat)>)
    | Load(dst: nat, arr: nat, idx: nat)
    | Store(arr: nat, idx: nat, val: nat)

  datatype Term = Jump(target: nat) | Branch(pred: Pred, x: nat, y: nat, onTrue: nat, onFalse: nat) | Return

  datatype Block = Block(instrs: seq<Instr>, term: Term)

  /** A function whose entry block loads the size into register `size` at position `at`, and right after it computes
      the register `small`, one less. */
  datatype Function = Function(blocks: seq<Block>, at: nat, size: nat, small: nat)

  // ----- execution -----

  datatype State = State(block: nat, pc: nat, prev: nat, regs: nat -> int, mem: (nat, int) -> int, halted: bool)

  function Apply(op: Op, x: int, y: int): int {
    match op
    case Add => x + y
    case Sub => x - y
    case Mul => x * y
  }

  predicate Test(p: Pred, x: int, y: int) {
    match p
    case Eq => x == y
    case Ne => x != y
    case Lt => x < y
    case Le => x <= y
  }

  function SetReg(s: State, r: nat, v: int): State { s.(regs := (q: nat) => if q == r then v else s.regs(q)) }

  /** A phi takes the value for the block control came from. */
  function PhiVal(ins: seq<(nat, nat)>, from: nat, regs: nat -> int): int {
    if |ins| == 0 then 0 else if ins[0].0 == from then regs(ins[0].1) else PhiVal(ins[1..], from, regs)
  }

  function Exec(i: Instr, n: int, s: State): State {
    match i
    case Const(d, c) => SetReg(s, d, c)
    case LoadSize(d) => SetReg(s, d, n)
    case Bin(d, op, x, y) => SetReg(s, d, Apply(op, s.regs(x), s.regs(y)))
    case Decrement(d, x) => SetReg(s, d, s.regs(x) - 1)
    case Phi(d, ins) => SetReg(s, d, PhiVal(ins, s.prev, s.regs))
    case Load(d, a, x) => SetReg(s, d, s.mem(a, s.regs(x)))
    case Store(a, x, v) => s.(mem := (b: nat, k: int) => if b == a && k == s.regs(x) then s.regs(v) else s.mem(b, k))
  }

  function Goto(s: State, b: nat): State { s.(block := b, pc := 0, prev := s.block) }

  function Step(f: seq<Block>, n: int, s: State): State {
    if s.halted || s.block >= |f| then s.(halted := true)
    else
      var b := f[s.block];
      if s.pc < |b.instrs| then Exec(b.instrs[s.pc], n, s).(pc := s.pc + 1)
      else match b.term
           case Jump(t) => Goto(s, t)
           case Branch(p, x, y, t, e) => Goto(s, if Test(p, s.regs(x), s.regs(y)) then t else e)
           case Return => s.(halted := true)
  }

  function Run(f: seq<Block>, n: int, k: nat, s: State): State { if k == 0 then s else Step(f, n, Run(f, n, k - 1, s)) }

  // ----- the transformation -----

  function Map(f: Function, r: nat): nat { if r == f.size then f.small else r }

  function MapIns(f: Function, ins: seq<(nat, nat)>): (r: seq<(nat, nat)>)
    ensures |r| == |ins| && forall k | 0 <= k < |ins| :: r[k] == (ins[k].0, Map(f, ins[k].1))
  {
    seq(|ins|, k requires 0 <= k < |ins| => (ins[k].0, Map(f, ins[k].1)))
  }

  /** `RemapInstruction`: operands go through the map, definitions stay. */
  function Remap(f: Function, i: Instr): Instr {
    match i
    case Const(_, _) => i
    case LoadSize(_) => i
    case Bin(d, op, x, y) => Bin(d, op, Map(f, x), Map(f, y))
    case Decrement(d, x) => Decrement(d, Map(f, x))
    case Phi(d, ins) => Phi(d, MapIns(f, ins))
    case Load(d, a, x) => Load(d, a, Map(f, x))
    case Store(a, x, v) => Store(a, Map(f, x), Map(f, v))
  }

  function RemapTerm(f: Function, t: Term): Term {
    match t
    case Branch(p, x, y, b, c) => Branch(p, Map(f, x), Map(f, y), b, c)
    case _ => t
  }

  /** The two size instructions of the entry block are left alone. */
  predicate Kept(f: Function, b: nat, k: nat) { b == 0 && (k == f.at || k == f.at + 1) }

  function RemapBlock(f: Function, b: nat, block: Block): (r: Block)
    ensures |r.instrs| == |block.instrs| && r.term == RemapTerm(f, block.term)
    ensures forall k: nat | k < |r.instrs| :: r.instrs[k] == if Kept(f, b, k) then block.instrs[k] else Remap(f, block.instrs[k])
  {
    Block(seq(|block.instrs|, k requires 0 <= k < |block.instrs| => if Kept(f, b, k) then block.instrs[k] else Remap(f, block.instrs[k])),
          RemapTerm(f, block.term))
  }

  /** `transform_N_uses`: the entry block instruction by instruction, then all other blocks, in place. */
  method TransformNUses(f: Function, blocks: array<Block>)
    requires blocks[..] == f.blocks && |f.blocks| > 0
    modifies blocks
    ensures forall b: nat | b < blocks.Length :: blocks[b] == RemapBlock(f, b, f.blocks[b])
  {
    var entry := blocks[0];
    var instrs := entry.instrs;
    for k := 0 to |instrs|
      invariant |instrs| == |entry.instrs|
      invariant forall l: nat | l < |instrs| ::
                  instrs[l] == if l < k && !Kept(f, 0, l) then Remap(f, entry.instrs[l]) else entry.instrs[l]
    {
      if k != f.at && k != f.at + 1 {
        instrs := instrs[k := Remap(f, instrs[k])];
      }
    }
    assert instrs == RemapBlock(f, 0, entry).instrs;
    blocks[0] := Block(instrs, RemapTerm(f, entry.term));
    for b := 1 to blocks.Length
      invariant forall c: nat | c < blocks.Length :: blocks[c] == if c < b then RemapBlock(f, c, f.blocks[c]) else f.blocks[c]
    {
      var body := blocks[b].instrs;
      var done := [];
      for k := 0 to |body|
        invariant |done| == k && forall l: nat | l < k :: done[l] == Remap(f, body[l])
      {
        done := done + [Remap(f, body[k])];
      }
      assert done == RemapBlock(f, b, blocks[b]).instrs;
      blocks[b] := Block(done, RemapTerm(f, blocks[b].term));
    }
  }

  function Transformed(f: Function): (r: seq<Block>)
    ensures |r| == |f.blocks| && forall b | 0 <= b < |r| :: r[b] == RemapBlock(f, b, f.blocks[b])
  {
    seq(|f.blocks|, b requires 0 <= b < |f.blocks| => RemapBlock(f, b, f.blocks[b]))
  }

  // ----- what the construction relies on -----

  predicate Uses(i: Instr, r: nat) {
    match i
    case Const(_, _) => false
    case LoadSize(_) => false
    case Bin(_, _, x, y) => x == r || y == r
    case Decrement(_, x) => x == r
    case Phi(_, ins) => exists k :: 0 <= k < |ins| && ins[k].1 == r
    case Load(_, _, x) => x == r
    case Store(_, x, v) => x == r || v == r
  }

  predicate Defines(i: Instr, r: nat) { !i.Store? && i.dst == r }

  predicate TermUses(t: Term, r: nat) { t.Branch? && (t.x == r || t.y == r) }

  /** The entry block defines the two registers next to each other and nobody else does; the size is read there only;
      nothing uses the size register before, and nothing uses the new register. */
  ghost predicate Ready(f: Function) {
    && |f.blocks| > 0 && f.at + 1 < |f.blocks[0].instrs| && f.size != f.small
    && f.blocks[0].instrs[f.at] == LoadSize(f.size) && f.blocks[0].instrs[f.at + 1] == Decrement(f.small, f.size)
    && (forall b: nat, k: nat | b < |f.blocks| && k < |f.blocks[b].instrs| && !Kept(f, b, k) ::
          && !f.blocks[b].instrs[k].LoadSize? && !Defines(f.blocks[b].instrs[k], f.size) && !Defines(f.blocks[b].instrs[k], f.small)
          && !Uses(f.blocks[b].instrs[k], f.small) && (b == 0 && k < f.at ==> !Uses(f.blocks[b].instrs[k], f.size)))
    && (forall b: nat | b < |f.blocks| :: !TermUses(f.blocks[b].term, f.small) && NotTo(f.blocks[b].term, 0))
  }

  /** The entry block is nobody's successor. */
  predicate NotTo(t: Term, b: nat) {
    match t
    case Jump(c) => c != b
    case Branch(_, _, _, c, d) => c != b && d != b
    case Return => true
  }

  // ----- lock step -----

  predicate Passed(f: Function, s: State) { s.block != 0 || s.pc >= f.at + 2 }

  /** The original at size n-1 and the transformed program at size n, in step: everything but the two size registers
      is the same, and past the entry's definitions the new register holds what the size register held. */
  ghost predicate InStep(f: Function, n: int, s: State, t: State) {
    && t.block == s.block && t.pc == s.pc && t.prev == s.prev && t.halted == s.halted
    && (forall a: nat, k: int :: t.mem(a, k) == s.mem(a, k))
    && (forall r: nat | r != f.size && r != f.small :: t.regs(r) == s.regs(r))
    && (Passed(f, s) ==> s.regs(f.size) == n - 1 && t.regs(f.small) == n - 1)
    && (s.block == 0 && s.pc == f.at + 1 ==> s.regs(f.size) == n - 1 && t.regs(f.size) == n)
  }

  lemma Operand(f: Function, n: int, s: State, t: State, r: nat)
    requires InStep(f, n, s, t) && f.size != f.small && r != f.small && (r == f.size ==> Passed(f, s))
    ensures t.regs(Map(f, r)) == s.regs(r)
  {
  }

  lemma {:induction false} PhiMapped(f: Function, n: int, s: State, t: State, ins: seq<(nat, nat)>)
    requires InStep(f, n, s, t) && f.size != f.small
    requires forall k | 0 <= k < |ins| :: ins[k].1 != f.small && (ins[k].1 == f.size ==> Passed(f, s))
    ensures PhiVal(MapIns(f, ins), s.prev, t.regs) == PhiVal(ins, s.prev, s.regs)
  {
    hide InStep, Passed, Map;
    if |ins| > 0 {
      assert MapIns(f, ins)[1..] == MapIns(f, ins[1..]);
      Operand(f, n, s, t, ins[0].1);
      PhiMapped(f, n, s, t, ins[1..]);
    }
  }

  /** An ordinary instruction does the same on both sides. */
  lemma OtherInstr(f: Function, n: int, s: State, t: State, i: Instr)
    requires InStep(f, n, s, t) && f.size != f.small
    requires !i.LoadSize? && !Defines(i, f.size) && !Defines(i, f.small) && !Uses(i, f.small) && (Uses(i, f.size) ==> Passed(f, s))
    ensures var s', t' := Exec(i, n - 1, s), Exec(Remap(f, i), n, t);
            && (forall a: nat, k: int :: t'.mem(a, k) == s'.mem(a, k))
            && (forall r: nat | r != f.size && r != f.small :: t'.regs(r) == s'.regs(r))
            && s'.regs(f.size) == s.regs(f.size) && t'.regs(f.small) == t.regs(f.small) && t'.regs(f.size) == t.regs(f.size)
  {
    hide Passed, Map;
    match i
    case Const(_, _) =>
    case Bin(_, _, x, y) => Operand(f, n, s, t, x); Operand(f, n, s, t, y);
    case Decrement(_, x) => Operand(f, n, s, t, x);
    case Phi(_, ins) => PhiMapped(f, n, s, t, ins);
    case Load(_, _, x) => Operand(f, n, s, t, x);
    case Store(_, x, v) => Operand(f, n, s, t, x); Operand(f, n, s, t, v);
  }

  lemma ExecControl(i: Instr, n: int, s: State)
    ensures var s' := Exec(i, n, s); s'.block == s.block && s'.pc == s.pc && s'.prev == s.prev && s'.halted == s.halted
  {
  }

  lemma InstrInStep(f: Function, n: int, s: State, t: State)
    requires Ready(f) && InStep(f, n, s, t) && !s.halted && s.block < |f.blocks| && s.pc < |f.blocks[s.block].instrs|
    ensures InStep(f, n, Step(f.blocks, n - 1, s), Step(Transformed(f), n, t))
  {
    hide Exec, Remap;
    var i, j := f.blocks[s.block].instrs[s.pc], Transformed(f)[s.block].instrs[s.pc];
    ExecControl(i, n - 1, s);
    ExecControl(j, n, t);
    if Kept(f, s.block, s.pc) { SizeInstr(f, n, s, t, i); } else { OtherInstr(f, n, s, t, i); }
  }

  /** The two instructions of the entry block: the size, and one less. */
  lemma SizeInstr(f: Function, n: int, s: State, t: State, i: Instr)
    requires Ready(f) && InStep(f, n, s, t) && s.block == 0 && (s.pc == f.at || s.pc == f.at + 1) && i == f.blocks[0].instrs[s.pc]
    ensures var s', t' := Exec(i, n - 1, s), Exec(i, n, t);
            && (forall a: nat, k: int :: t'.mem(a, k) == s'.mem(a, k))
            && (forall r: nat | r != f.size && r != f.small :: t'.regs(r) == s'.regs(r))
            && s'.regs(f.size) == n - 1 && t'.regs(f.size) == n && (s.pc == f.at + 1 ==> t'.regs(f.small) == n - 1)
  {
  }

  lemma TermInStep(f: Function, n: int, s: State, t: State)
    requires Ready(f) && InStep(f, n, s, t) && !s.halted && s.block < |f.blocks| && s.pc >= |f.blocks[s.block].instrs|
    ensures InStep(f, n, Step(f.blocks, n - 1, s), Step(Transformed(f), n, t))
  {
    var m := f.blocks[s.block].term;
    assert Passed(f, s);
    if m.Branch? {
      Operand(f, n, s, t, m.x);
      Operand(f, n, s, t, m.y);
    }
  }

  lemma StepInStep(f: Function, n: int, s: State, t: State)
    requires Ready(f) && InStep(f, n, s, t)
    ensures InStep(f, n, Step(f.blocks, n - 1, s), Step(Transformed(f), n, t))
  {
    hide Ready, InStep, Exec;
    StepShape(f, n, s, t);
    if !s.halted && s.block < |f.blocks| {
      if s.pc < |f.blocks[s.block].instrs| { InstrInStep(f, n, s, t); } else { TermInStep(f, n, s, t); }
    }
  }

  lemma StepShape(f: Function, n: int, s: State, t: State)
    requires InStep(f, n, s, t)
    ensures s.halted || s.block >= |f.blocks| ==> InStep(f, n, Step(f.blocks, n - 1, s), Step(Transformed(f), n, t))
  {
  }

  function Entry(regs: nat -> int, mem: (nat, int) -> int): State { State(0, 0, 0, regs, mem, false) }

  /** P_{N-1} IS CORRECT: step by step, through all loops, the transformed program at size n is where the original is
      at size n-1, with the same memory and, but for the two size registers, the same registers. */
  lemma {:induction false} RunsInStep(f: Function, n: int, k: nat, regs: nat -> int, mem: (nat, int) -> int)
    requires Ready(f)
    ensures InStep(f, n, Run(f.blocks, n - 1, k, Entry(regs, mem)), Run(Transformed(f), n, k, Entry(regs, mem)))
  {
    hide Ready, InStep, Step;
    if k == 0 {
      EntryInStep(f, n, regs, mem);
    } else {
      RunsInStep(f, n, k - 1, regs, mem);
      StepInStep(f, n, Run(f.blocks, n - 1, k - 1, Entry(regs, mem)), Run(Transformed(f), n, k - 1, Entry(regs, mem)));
    }
  }

  lemma EntryInStep(f: Function, n: int, regs: nat -> int, mem: (nat, int) -> int)
    ensures InStep(f, n, Entry(regs, mem), Entry(regs, mem))
  {
  }

  /** The two stop after the same number of steps, in the same memory. */
  lemma SameFinalState(f: Function, n: int, k: nat, regs: nat -> int, mem: (nat, int) -> int)
    requires Ready(f)
    ensures var s, t := Run(f.blocks, n - 1, k, Entry(regs, mem)), Run(Transformed(f), n, k, Entry(regs, mem));
            s.halted == t.halted && forall a: nat, c: int :: t.mem(a, c) == s.mem(a, c)
  {
    hide Ready, Run;
    RunsInStep(f, n, k, regs, mem);
  }
}
