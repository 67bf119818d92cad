/** Peel deferral as the pass performs it: loads rewritten in place, and peels relinked behind the loops. */
module PeelPass {
  import opened SsaSpec
  import opened PeelDeferral

  /** `propagatePeelEffects`: every loop's store gets its propagated value. */
  method PropagatePeelEffects(p: Loops, n: int, stores: array<Stmt>)
    requires stores[..] == p.stores
    modifies stores
    ensures forall j: nat | j < stores.Length :: stores[j] == Propagated(p, j, n)
  {
    hide Propagate;
    for j := 0 to stores.Length
      invariant forall i: nat | i < stores.Length :: stores[i] == if i < j then Propagated(p, i, n) else p.stores[i]
    {
      stores[j] := stores[j].(e := Propagate(p, j, n, stores[j].e));
    }
  }

  /** Blocks in program order: loop `i` is `2 * i`, its peel `2 * i + 1`, then the block split off behind the last
      peel and its successor.  `next` holds each block's successor. */
  function LoopBlock(i: nat): nat { 2 * i }
  function PeelBlock(i: nat): nat { 2 * i + 1 }

  /** `pushPeels` and `runPeelShifting`: each peel is taken out and put behind the peels moved before, so control runs
      through all loops first and then through all peels in the loops' order. */
  method PushPeels(next: array<nat>, k: nat)
    requires k > 0 && next.Length == 2 * k + 2 && forall b | 0 <= b < 2 * k + 1 :: next[b] == b + 1
    modifies next
    ensures forall i: nat | i < k :: next[LoopBlock(i)] == LoopBlock(i + 1)
    ensures next[2 * k] == PeelBlock(0)
    ensures forall i: nat | i < k :: next[PeelBlock(i)] == if i + 1 < k then PeelBlock(i + 1) else 2 * k + 1
  {
    var insertBegin, insertEnd := 2 * k, next[2 * k];
    var exit := insertBegin;
    for i := 0 to k
      invariant exit == if i == 0 then insertBegin else PeelBlock(i - 1)
      invariant next[exit] == insertEnd
      invariant forall l: nat | l < i :: next[LoopBlock(l)] == LoopBlock(l + 1)
      invariant i > 0 ==> next[insertBegin] == PeelBlock(0)
      invariant forall l: nat | l + 1 < i :: next[PeelBlock(l)] == PeelBlock(l + 1)
      invariant forall b | LoopBlock(i) <= b < 2 * k :: next[b] == b + 1
    {
      var peel := PeelBlock(i);
      var pred, succ := LoopBlock(i), next[peel];
      next[pred] := succ;
      next[exit] := peel;
      next[peel] := insertEnd;
      exit := peel;
    }
  }
}
