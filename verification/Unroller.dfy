/** Loop unrolling by replicating the block vector and rewiring predecessor, exit and latch indices. */
module Unroller {

  // ----- positions -----

  /** Index of block `k` in copy `c`. */
  function Pos(shift: nat, c: nat, k: nat): nat { c * shift + k }

  lemma PosInjective(shift: nat, c: nat, k: nat, c': nat, k': nat)
    requires k < shift && k' < shift && Pos(shift, c, k) == Pos(shift, c', k')
    ensures c == c' && k == k'
  {
    if c < c' { CopyApart(shift, c, c'); }
    if c' < c { CopyApart(shift, c', c); }
  }

  lemma {:induction false} CopyApart(shift: nat, c: nat, c': nat)
    requires c < c'
    ensures c' * shift >= c * shift + shift
    decreases c'
  {
    CopyNext(shift, c' - 1);
    if c + 1 < c' { CopyApart(shift, c, c' - 1); }
  }

  lemma CopyNext(shift: nat, c: nat)
    ensures (c + 1) * shift == c * shift + shift
  {
  }

  /** Copy and original block of an index. */
  function CopyOf(shift: nat, i: nat): (c: nat)
    requires shift > 0
  {
    i / shift
  }

  function BlockOf(shift: nat, i: nat): (k: nat)
    requires shift > 0
    ensures k < shift
  {
    i % shift
  }

  lemma PosOf(shift: nat, i: nat)
    requires shift > 0
    ensures Pos(shift, CopyOf(shift, i), BlockOf(shift, i)) == i
  {
  }

  lemma OfPos(shift: nat, c: nat, k: nat)
    requires k < shift
    ensures CopyOf(shift, Pos(shift, c, k)) == c && BlockOf(shift, Pos(shift, c, k)) == k
  {
    var i := Pos(shift, c, k);
    PosOf(shift, i);
    PosInjective(shift, CopyOf(shift, i), BlockOf(shift, i), c, k);
  }

  // ----- predecessor maps -----

  function PredsOf(m: map<nat, seq<nat>>, i: nat): seq<nat> { if i in m then m[i] else [] }

  function Shifted(xs: seq<nat>, d: nat): (r: seq<nat>)
    ensures |r| == |xs| && forall i | 0 <= i < |xs| :: r[i] == xs[i] + d
  {
    seq(|xs|, i requires 0 <= i < |xs| => xs[i] + d)
  }

  lemma ShiftedHas(xs: seq<nat>, d: nat, y: nat)
    ensures y in Shifted(xs, d) <==> y >= d && y - d in xs
  {
    if y >= d && y - d in xs {
      var i :| 0 <= i < |xs| && xs[i] == y - d;
      assert Shifted(xs, d)[i] == y;
    }
  }

  /** What one round of copying adds: the predecessors of every known block, moved by `d`. */
  function Wired(prevs: map<nat, seq<nat>>, copy: map<nat, seq<nat>>, d: nat, x: nat): seq<nat> {
    PredsOf(copy, x) + if x >= d && x - d in prevs then Shifted(prevs[x - d], d) else []
  }

  ghost predicate WiresAll(prevs: map<nat, seq<nat>>, copy: map<nat, seq<nat>>, copy': map<nat, seq<nat>>, d: nat) {
    && (forall x: nat :: PredsOf(copy', x) == Wired(prevs, copy, d, x))
    && (forall x: nat :: x in copy' <==> x in copy || (x >= d && x - d in prevs))
  }

  /** One loop segment: block ids, predecessor indices, exits as (index, successor), and latches. */
  class Segment {
    var bVec: seq<nat>
    var prevs: map<nat, seq<nat>>
    var exits: seq<(nat, nat)>
    var latches: seq<nat>

    /** What `setup_prevs_non_repeating` leaves: smaller predecessors, none for the header. */
    ghost predicate Valid()
      reads this
    {
      && |bVec| > 0
      && (forall k | k in prevs :: k < |bVec| && forall q | q in prevs[k] :: q < k)
      && (forall l | l in latches :: l < |bVec|)
    }

    constructor (blocks: seq<nat>, preds: map<nat, seq<nat>>, outs: seq<(nat, nat)>, backs: seq<nat>)
      requires |blocks| > 0 && (forall k | k in preds :: k < |blocks| && forall q | q in preds[k] :: q < k)
      requires forall l | l in backs :: l < |blocks|
      ensures Valid() && bVec == blocks && prevs == preds && exits == outs && latches == backs
    {
      bVec, prevs, exits, latches := blocks, preds, outs, backs;
    }

    static method AppendShifted(base: seq<nat>, xs: seq<nat>, d: nat) returns (r: seq<nat>)
      ensures r == base + Shifted(xs, d)
    {
      r := base;
      for i := 0 to |xs|
        invariant r == base + Shifted(xs, d)[..i]
      {
        r := r + [xs[i] + d];
      }
    }

    /** Wiring the copied blocks: one pass over the predecessor map as it is now. */
    method WireCopies(copy: map<nat, seq<nat>>, d: nat) returns (r: map<nat, seq<nat>>)
      ensures WiresAll(prevs, copy, r, d)
    {
      r := copy;
      var todo := prevs.Keys;
      while todo != {}
        invariant todo <= prevs.Keys
        invariant forall x: nat :: PredsOf(r, x) == if x >= d && x - d in prevs && x - d !in todo then Wired(prevs, copy, d, x) else PredsOf(copy, x)
        invariant forall x: nat :: x in r <==> x in copy || (x >= d && x - d in prevs && x - d !in todo)
      {
        var k: nat :| k in todo;
        var ps := AppendShifted(PredsOf(r, k + d), prevs[k], d);
        r := r[k + d := ps];
        todo := todo - {k};
      }
    }

    /** The header of the current copy comes after the latches of the previous one. */
    method WireHeader(shift: nat, d: nat)
      requires d >= shift && PredsOf(prevs, d) == []
      modifies this`prevs
      ensures prevs == old(prevs)[d := Shifted(latches, d - shift)]
    {
      var ps := AppendShifted([], latches, d - shift);
      assert ps == Shifted(latches, d - shift);
      prevs := prevs[d := ps];
    }

    method CopyExits(size: nat, d: nat)
      requires size <= |exits|
      modifies this`exits
      ensures exits == old(exits) + MovedExits(old(exits)[..size], d)
    {
      ghost var before := exits;
      for i := 0 to size
        invariant exits == before + MovedExits(before[..size], d)[..i]
      {
        exits := exits + [(exits[i].0 + d, exits[i].1)];
      }
    }

    method ReplicateBlocks(times: nat)
      requires times >= 1
      modifies this`bVec
      ensures Replicated(old(bVec), bVec, times)
    {
      ghost var base := bVec;
      var shift := |bVec|;
      OneCopy(base);
      for c := 1 to times
        invariant shift == |base| && Replicated(base, bVec, c)
      {
        ghost var before := bVec;
        HeadCopy(base, before, c);
        for i := 0 to shift
          invariant bVec == before + base[..i] && base <= before
        {
          bVec := bVec + [bVec[i]];
        }
        assert base[..shift] == base;
        NewCopy(base, before, c);
      }
    }

    /** One round: the predecessors of copy `c`, its header, and its exits. */
    method StitchCopy(shift: nat, size: nat, c: nat, copy: map<nat, seq<nat>>, ghost g: map<nat, seq<nat>>, ghost es: seq<(nat, nat)>)
      returns (copy': map<nat, seq<nat>>)
      requires Acyclic(g, shift) && c >= 1 && size == |es|
      requires HeadersWired(g, latches, shift, c, prevs) && CopiesWired(g, shift, c, copy) && exits == AllExits(es, shift, c)
      modifies this`prevs, this`exits
      ensures HeadersWired(g, latches, shift, c + 1, prevs) && CopiesWired(g, shift, c + 1, copy') && exits == AllExits(es, shift, c + 1)
      ensures c >= 2 ==> (c + 1) * shift in copy'
    {
      hide HeadersWired, CopiesWired;
      var d := c * shift;
      ghost var wired := prevs;
      copy' := WireCopies(copy, d);
      if c >= 2 { StrayKey(g, latches, shift, c, prevs); }
      HeaderFree(g, latches, shift, c, prevs);
      CopyNext(shift, c - 1);
      WireHeader(shift, d);
      NextWired(g, latches, shift, c, wired, copy, copy', prevs);
      ExitsStart(es, shift, c);
      CopyExits(size, d);
    }

    /** `copy_and_stich_segments`. */
    method CopyAndStitch(times: nat)
      requires Valid() && times >= 1
      modifies this
      ensures Replicated(old(bVec), bVec, times)
      ensures Rewired(old(prevs), old(latches), |old(bVec)|, times, prevs)
      ensures exits == AllExits(old(exits), |old(bVec)|, times)
      ensures latches == Shifted(old(latches), (times - 1) * |old(bVec)|)
      ensures times >= 3 ==> times * |old(bVec)| in prevs
    {
      hide Replicated, Rewired, HeadersWired, CopiesWired;
      ghost var g, ls, es := prevs, latches, exits;
      var shift := |bVec|;
      FirstWired(g, ls, shift);
      if times == 1 {
        assert Shifted(ls, 0) == ls;
        OneCopy(bVec);
        Stitched(g, ls, shift, 1, g, map[]);
        assert map[] + g == g;
        return;
      }
      ReplicateBlocks(times);
      var size := |exits|;
      var copy: map<nat, seq<nat>> := map[];
      for c := 1 to times
        invariant latches == ls && Replicated(old(bVec), bVec, times)
        invariant HeadersWired(g, ls, shift, c, prevs) && CopiesWired(g, shift, c, copy)
        invariant exits == AllExits(es, shift, c)
        invariant c >= 3 ==> c * shift in copy
      {
        copy := StitchCopy(shift, size, c, copy, g, es);
      }
      latches := AppendShifted([], latches, (times - 1) * shift);
      Stitched(g, ls, shift, times, prevs, copy);
      prevs := copy + prevs;
      assert latches == Shifted(ls, (times - 1) * shift);
    }
  }

  // ----- block replication -----

  ghost predicate Replicated(base: seq<nat>, all: seq<nat>, c: nat) {
    && |all| == c * |base|
    && forall a: nat, k: nat | a < c && k < |base| :: Pos(|base|, a, k) < |all| && all[Pos(|base|, a, k)] == base[k]
  }

  lemma OneCopy(base: seq<nat>)
    ensures Replicated(base, base, 1)
  {
  }

  lemma HeadCopy(base: seq<nat>, all: seq<nat>, c: nat)
    requires c >= 1 && Replicated(base, all, c)
    ensures base <= all
  {
    CopyApart(|base|, 0, c);
    forall k: nat | k < |base| ensures all[k] == base[k] { assert Pos(|base|, 0, k) == k; }
  }

  lemma NewCopy(base: seq<nat>, all: seq<nat>, c: nat)
    requires Replicated(base, all, c)
    ensures Replicated(base, all + base, c + 1)
  {
    CopyNext(|base|, c);
    forall a: nat, k: nat | a < c + 1 && k < |base|
      ensures Pos(|base|, a, k) < |all + base| && (all + base)[Pos(|base|, a, k)] == base[k]
    {
      if a == c { assert Pos(|base|, a, k) == |all| + k; }
    }
  }

  // ----- exits -----

  function MovedExits(es: seq<(nat, nat)>, d: nat): (r: seq<(nat, nat)>)
    ensures |r| == |es| && forall i | 0 <= i < |es| :: r[i] == (es[i].0 + d, es[i].1)
  {
    seq(|es|, i requires 0 <= i < |es| => (es[i].0 + d, es[i].1))
  }

  /** The exits of copies `0..c`, copy by copy. */
  function AllExits(es: seq<(nat, nat)>, shift: nat, c: nat): seq<(nat, nat)> {
    if c == 0 then [] else if c == 1 then es else AllExits(es, shift, c - 1) + MovedExits(es, (c - 1) * shift)
  }

  lemma {:induction false} ExitsStart(es: seq<(nat, nat)>, shift: nat, c: nat)
    requires c >= 1
    ensures |es| <= |AllExits(es, shift, c)| && AllExits(es, shift, c)[..|es|] == es
  {
    if c > 1 { ExitsStart(es, shift, c - 1); }
  }

  /** Index `i`, in copy `c`, is an exit of the original. */
  predicate ExitOfCopy(es: seq<(nat, nat)>, shift: nat, c: nat, i: nat, succ: nat) {
    i >= c * shift && (i - c * shift, succ) in es
  }

  lemma MovedHas(es: seq<(nat, nat)>, d: nat, i: nat, succ: nat)
    ensures (i, succ) in MovedExits(es, d) <==> i >= d && (i - d, succ) in es
  {
    if i >= d && (i - d, succ) in es {
      var j :| 0 <= j < |es| && es[j] == (i - d, succ);
      assert MovedExits(es, d)[j] == (i, succ);
    }
  }

  /** An exit of the unrolled segment is an exit of the original in some copy, and the other way round. */
  lemma {:induction false} ExitsReplicated(es: seq<(nat, nat)>, shift: nat, times: nat, i: nat, succ: nat)
    requires times >= 1
    ensures (i, succ) in AllExits(es, shift, times) <==> exists c: nat :: c < times && ExitOfCopy(es, shift, c, i, succ)
  {
    hide ExitOfCopy;
    if times == 1 {
      FirstCopy(es, shift, i, succ);
    } else {
      ExitsReplicated(es, shift, times - 1, i, succ);
      LastCopy(es, shift, times - 1, i, succ);
    }
  }

  lemma FirstCopy(es: seq<(nat, nat)>, shift: nat, i: nat, succ: nat)
    ensures ExitOfCopy(es, shift, 0, i, succ) <==> (i, succ) in es
  {
  }

  lemma LastCopy(es: seq<(nat, nat)>, shift: nat, c: nat, i: nat, succ: nat)
    ensures ExitOfCopy(es, shift, c, i, succ) <==> (i, succ) in MovedExits(es, c * shift)
  {
    MovedHas(es, c * shift, i, succ);
  }

  // ----- the wiring invariant -----

  /** Predecessors after unrolling: the header of a later copy follows the previous copy's latches. */
  function UnrolledPreds(g: map<nat, seq<nat>>, latches: seq<nat>, shift: nat, c: nat, k: nat): seq<nat> {
    if k == 0 && c > 0 then Shifted(latches, (c - 1) * shift) else Shifted(PredsOf(g, k), c * shift)
  }

  /** The unrolled predecessors, for every index the unrolling asked for. */
  ghost predicate Rewired(g: map<nat, seq<nat>>, latches: seq<nat>, shift: nat, times: nat, prevs: map<nat, seq<nat>>) {
    forall c: nat, k: nat | c < times && k < shift :: PredsOf(prevs, Pos(shift, c, k)) == UnrolledPreds(g, latches, shift, c, k)
  }

  ghost predicate Acyclic(g: map<nat, seq<nat>>, shift: nat) {
    shift > 0 && forall k | k in g :: k < shift && forall q | q in g[k] :: q < k
  }

  /** The map itself: the original entries and the headers of copies `1..c`. */
  ghost predicate HeadersWired(g: map<nat, seq<nat>>, latches: seq<nat>, shift: nat, c: nat, prevs: map<nat, seq<nat>>) {
    && (forall k | k in g :: k in prevs && prevs[k] == g[k])
    && (forall a: nat | 0 < a < c :: Pos(shift, a, 0) in prevs && prevs[Pos(shift, a, 0)] == Shifted(latches, (a - 1) * shift))
    && (forall x | x in prevs :: x in g || exists a: nat :: 0 < a < c && x == Pos(shift, a, 0))
  }

  /** The copies made aside: below the headers, exactly the moved entries of copies `1..c`. */
  ghost predicate CopiesWired(g: map<nat, seq<nat>>, shift: nat, c: nat, copy: map<nat, seq<nat>>) {
    && (forall a: nat, k: nat | 0 < a < c && 0 < k < shift :: PredsOf(copy, Pos(shift, a, k)) == Shifted(PredsOf(g, k), a * shift))
    && (forall a: nat, k: nat | c <= a && 0 < k < shift :: Pos(shift, a, k) !in copy)
    && (forall x | x in copy :: x >= shift)
  }

  lemma FirstWired(g: map<nat, seq<nat>>, latches: seq<nat>, shift: nat)
    requires Acyclic(g, shift)
    ensures HeadersWired(g, latches, shift, 1, g) && CopiesWired(g, shift, 1, map[])
  {
  }

  lemma HeaderFree(g: map<nat, seq<nat>>, latches: seq<nat>, shift: nat, c: nat, prevs: map<nat, seq<nat>>)
    requires Acyclic(g, shift) && c >= 1 && HeadersWired(g, latches, shift, c, prevs)
    ensures c * shift !in prevs
  {
    CopyApart(shift, 0, c);
    forall a: nat | 0 < a < c ensures Pos(shift, a, 0) != c * shift { CopyApart(shift, a, c); }
  }

  /** Which entry a copied index comes from: only the original block, one round. */
  lemma Source(g: map<nat, seq<nat>>, latches: seq<nat>, shift: nat, c: nat, prevs: map<nat, seq<nat>>, a: nat, k: nat)
    requires Acyclic(g, shift) && c >= 1 && HeadersWired(g, latches, shift, c, prevs) && 0 < k < shift
    ensures var x := Pos(shift, a, k); x >= c * shift && x - c * shift in prevs <==> a == c && k in g
  {
    var x := Pos(shift, a, k);
    if x >= c * shift && x - c * shift in prevs {
      var y: nat := x - c * shift;
      if y in g {
        assert x == Pos(shift, c, y);
        PosInjective(shift, a, k, c, y);
      } else {
        var b: nat :| 0 < b < c && y == Pos(shift, b, 0);
        assert x == Pos(shift, b + c, 0);
        PosInjective(shift, a, k, b + c, 0);
        assert false;
      }
    }
  }

  lemma NextWired(g: map<nat, seq<nat>>, latches: seq<nat>, shift: nat, c: nat, prevs: map<nat, seq<nat>>, copy: map<nat, seq<nat>>, copy': map<nat, seq<nat>>, prevs': map<nat, seq<nat>>)
    requires Acyclic(g, shift) && c >= 1 && HeadersWired(g, latches, shift, c, prevs) && CopiesWired(g, shift, c, copy)
    requires WiresAll(prevs, copy, copy', c * shift)
    requires prevs' == prevs[c * shift := Shifted(latches, (c - 1) * shift)]
    ensures HeadersWired(g, latches, shift, c + 1, prevs') && CopiesWired(g, shift, c + 1, copy')
  {
    NextHeaders(g, latches, shift, c, prevs, prevs');
    NextCopies(g, latches, shift, c, prevs, copy, copy');
  }

  lemma NextHeaders(g: map<nat, seq<nat>>, latches: seq<nat>, shift: nat, c: nat, prevs: map<nat, seq<nat>>, prevs': map<nat, seq<nat>>)
    requires Acyclic(g, shift) && c >= 1 && HeadersWired(g, latches, shift, c, prevs)
    requires prevs' == prevs[c * shift := Shifted(latches, (c - 1) * shift)]
    ensures HeadersWired(g, latches, shift, c + 1, prevs')
  {
    assert Pos(shift, c, 0) == c * shift;
    HeaderFree(g, latches, shift, c, prevs);
    forall x | x in prevs' ensures x in g || exists a: nat :: 0 < a < c + 1 && x == Pos(shift, a, 0) {
      if x == c * shift { assert x == Pos(shift, c, 0); }
    }
  }

  lemma CopiedOnce(g: map<nat, seq<nat>>, latches: seq<nat>, shift: nat, c: nat, prevs: map<nat, seq<nat>>, copy: map<nat, seq<nat>>, a: nat, k: nat)
    requires Acyclic(g, shift) && c >= 1 && HeadersWired(g, latches, shift, c, prevs) && CopiesWired(g, shift, c, copy)
    requires 0 < a < c + 1 && 0 < k < shift
    ensures Wired(prevs, copy, c * shift, Pos(shift, a, k)) == Shifted(PredsOf(g, k), a * shift)
  {
    Source(g, latches, shift, c, prevs, a, k);
    if a == c {
      assert Pos(shift, a, k) !in copy;
      assert Pos(shift, a, k) - c * shift == k;
    }
  }

  lemma NextCopies(g: map<nat, seq<nat>>, latches: seq<nat>, shift: nat, c: nat, prevs: map<nat, seq<nat>>, copy: map<nat, seq<nat>>, copy': map<nat, seq<nat>>)
    requires Acyclic(g, shift) && c >= 1 && HeadersWired(g, latches, shift, c, prevs) && CopiesWired(g, shift, c, copy)
    requires WiresAll(prevs, copy, copy', c * shift)
    ensures CopiesWired(g, shift, c + 1, copy')
  {
    hide Pos, Wired, WiresAll, HeadersWired, CopiesWired;
    var d := c * shift;
    forall a: nat, k: nat | 0 < a < c + 1 && 0 < k < shift
      ensures PredsOf(copy', Pos(shift, a, k)) == Shifted(PredsOf(g, k), a * shift)
    {
      CopiedOnce(g, latches, shift, c, prevs, copy, a, k);
      WiredAt(prevs, copy, copy', d, Pos(shift, a, k));
    }
    forall a: nat, k: nat | c + 1 <= a && 0 < k < shift ensures Pos(shift, a, k) !in copy' {
      Source(g, latches, shift, c, prevs, a, k);
      WiredAt(prevs, copy, copy', d, Pos(shift, a, k));
      NotYetCopied(g, shift, c, copy, a, k);
    }
    CopyApart(shift, 0, c);
    forall x | x in copy' ensures x >= shift { WiredAt(prevs, copy, copy', d, x); OldKey(g, shift, c, copy, x); }
    NowCopied(g, shift, c + 1, copy');
  }

  lemma WiredAt(prevs: map<nat, seq<nat>>, copy: map<nat, seq<nat>>, copy': map<nat, seq<nat>>, d: nat, x: nat)
    requires WiresAll(prevs, copy, copy', d)
    ensures PredsOf(copy', x) == Wired(prevs, copy, d, x) && (x in copy' <==> x in copy || (x >= d && x - d in prevs))
  {
    hide Wired;
  }

  lemma NotYetCopied(g: map<nat, seq<nat>>, shift: nat, c: nat, copy: map<nat, seq<nat>>, a: nat, k: nat)
    requires CopiesWired(g, shift, c, copy) && c <= a && 0 < k < shift
    ensures Pos(shift, a, k) !in copy
  {
    hide Pos;
  }

  lemma OldKey(g: map<nat, seq<nat>>, shift: nat, c: nat, copy: map<nat, seq<nat>>, x: nat)
    requires CopiesWired(g, shift, c, copy)
    ensures x in copy ==> x >= shift
  {
    hide Pos;
  }

  lemma NowCopied(g: map<nat, seq<nat>>, shift: nat, c: nat, copy: map<nat, seq<nat>>)
    requires forall a: nat, k: nat | 0 < a < c && 0 < k < shift :: PredsOf(copy, Pos(shift, a, k)) == Shifted(PredsOf(g, k), a * shift)
    requires (forall a: nat, k: nat | c <= a && 0 < k < shift :: Pos(shift, a, k) !in copy) && forall x | x in copy :: x >= shift
    ensures CopiesWired(g, shift, c, copy)
  {
    hide Pos;
  }

  lemma StrayKey(g: map<nat, seq<nat>>, latches: seq<nat>, shift: nat, c: nat, prevs: map<nat, seq<nat>>)
    requires c >= 2 && HeadersWired(g, latches, shift, c, prevs)
    ensures (c + 1) * shift >= c * shift && (c + 1) * shift - c * shift in prevs
  {
    CopyNext(shift, c);
    assert Pos(shift, 1, 0) == shift;
  }

  lemma Stitched(g: map<nat, seq<nat>>, latches: seq<nat>, shift: nat, times: nat, prevs: map<nat, seq<nat>>, copy: map<nat, seq<nat>>)
    requires Acyclic(g, shift) && times >= 1 && HeadersWired(g, latches, shift, times, prevs) && CopiesWired(g, shift, times, copy)
    ensures Rewired(g, latches, shift, times, copy + prevs)
  {
    forall c: nat, k: nat | c < times && k < shift
      ensures PredsOf(copy + prevs, Pos(shift, c, k)) == UnrolledPreds(g, latches, shift, c, k)
    {
      var x := Pos(shift, c, k);
      if c == 0 {
        assert x == k && Shifted(PredsOf(g, k), 0) == PredsOf(g, k);
        forall a: nat | 0 < a < times ensures x != Pos(shift, a, 0) { CopyApart(shift, 0, a); }
      } else if k > 0 {
        CopyApart(shift, 0, c);
        forall a: nat | 0 < a < times ensures x != Pos(shift, a, 0) {
          if x == Pos(shift, a, 0) { PosInjective(shift, c, k, a, 0); }
        }
      }
    }
  }

  // ----- walks of the loop and paths of the unrolling -----

  /** Blocks after unrolling. */
  function Total(shift: nat, times: nat): nat { times * shift }

  /** An edge of the loop: back edges, from the latches, are the ones into the header. */
  predicate Edge(g: map<nat, seq<nat>>, latches: seq<nat>, q: nat, i: nat) {
    if i == 0 then q in latches else q in PredsOf(g, i)
  }

  ghost predicate Walk(g: map<nat, seq<nat>>, latches: seq<nat>, shift: nat, w: seq<nat>) {
    && |w| > 0 && w[0] == 0 && (forall j | 0 <= j < |w| :: w[j] < shift)
    && forall j | 0 <= j < |w| - 1 :: Edge(g, latches, w[j], w[j + 1])
  }

  /** Back edges taken in the first `j` steps. */
  function Backs(w: seq<nat>, j: nat): nat
    requires j < |w|
  {
    if j == 0 then 0 else Backs(w, j - 1) + if w[j] == 0 then 1 else 0
  }

  ghost predicate Path(h: map<nat, seq<nat>>, size: nat, u: seq<nat>) {
    && |u| > 0 && u[0] == 0 && (forall j | 0 <= j < |u| :: u[j] < size)
    && forall j | 0 <= j < |u| - 1 :: u[j] in PredsOf(h, u[j + 1])
  }

  function Lift(shift: nat, w: seq<nat>): (u: seq<nat>)
    ensures |u| == |w| && forall j | 0 <= j < |u| :: u[j] == Pos(shift, Backs(w, j), w[j])
  {
    seq(|w|, j requires 0 <= j < |w| => Pos(shift, Backs(w, j), w[j]))
  }

  function Project(shift: nat, u: seq<nat>): (w: seq<nat>)
    requires shift > 0
    ensures |w| == |u| && forall j | 0 <= j < |w| :: w[j] == BlockOf(shift, u[j])
  {
    seq(|u|, j requires 0 <= j < |u| => BlockOf(shift, u[j]))
  }

  /** An edge of the unrolling is an edge of the loop that stays in its copy, or a back edge into the next copy. */
  lemma StepMeaning(g: map<nat, seq<nat>>, latches: seq<nat>, shift: nat, times: nat, h: map<nat, seq<nat>>, c: nat, k: nat, c': nat, k': nat)
    requires Acyclic(g, shift) && (forall l | l in latches :: l < shift) && Rewired(g, latches, shift, times, h)
    requires k < shift && k' < shift && c' < times
    ensures Pos(shift, c, k) in PredsOf(h, Pos(shift, c', k')) <==> Edge(g, latches, k, k') && c' == c + if k' == 0 then 1 else 0
  {
    hide Pos, Rewired;
    RewiredAt(g, latches, shift, times, h, c', k');
    if k' == 0 && c' > 0 {
      StepInto(latches, shift, c, k, c' - 1);
    } else {
      StepInto(PredsOf(g, k'), shift, c, k, c');
    }
  }

  lemma RewiredAt(g: map<nat, seq<nat>>, latches: seq<nat>, shift: nat, times: nat, h: map<nat, seq<nat>>, c: nat, k: nat)
    requires Rewired(g, latches, shift, times, h) && c < times && k < shift
    ensures PredsOf(h, Pos(shift, c, k)) == UnrolledPreds(g, latches, shift, c, k)
  {
  }

  lemma StepInto(ps: seq<nat>, shift: nat, c: nat, k: nat, a: nat)
    requires k < shift && forall q | q in ps :: q < shift
    ensures Pos(shift, c, k) in Shifted(ps, a * shift) <==> c == a && k in ps
  {
    ShiftedHas(ps, a * shift, Pos(shift, c, k));
    if Pos(shift, c, k) in Shifted(ps, a * shift) {
      var q: nat := Pos(shift, c, k) - a * shift;
      assert Pos(shift, a, q) == Pos(shift, c, k);
      PosInjective(shift, c, k, a, q);
    }
  }

  lemma WithinCopies(shift: nat, times: nat, c: nat, k: nat)
    requires k < shift
    ensures Pos(shift, c, k) < Total(shift, times) <==> c < times
  {
    if c < times { CopyApart(shift, c, times); }
    if times < c { CopyApart(shift, times, c); }
  }

  lemma {:induction false} BacksRise(w: seq<nat>, i: nat, j: nat)
    requires i <= j < |w|
    ensures Backs(w, i) <= Backs(w, j)
  {
    if i < j { BacksRise(w, i, j - 1); }
  }

  lemma PosZero(shift: nat)
    ensures Pos(shift, 0, 0) == 0
  {
  }

  lemma LiftWithin(shift: nat, times: nat, w: seq<nat>, j: nat)
    requires j < |w| && w[j] < shift && Backs(w, |w| - 1) < times
    ensures Lift(shift, w)[j] < Total(shift, times) && BlockOf(shift, Lift(shift, w)[j]) == w[j]
  {
    hide Pos, BlockOf, Total, Backs;
    BacksRise(w, j, |w| - 1);
    WithinCopies(shift, times, Backs(w, j), w[j]);
    OfPos(shift, Backs(w, j), w[j]);
  }

  /** Every walk of the loop with fewer than `times` back edges is a path of the unrolling, and is recovered
      from it. */
  lemma WalkLifts(g: map<nat, seq<nat>>, latches: seq<nat>, shift: nat, times: nat, h: map<nat, seq<nat>>, w: seq<nat>)
    requires Acyclic(g, shift) && (forall l | l in latches :: l < shift) && Rewired(g, latches, shift, times, h)
    requires Walk(g, latches, shift, w) && Backs(w, |w| - 1) < times
    ensures Path(h, Total(shift, times), Lift(shift, w)) && Project(shift, Lift(shift, w)) == w
  {
    hide Pos, Rewired, Edge, BlockOf, PredsOf, Total, Backs;
    var u := Lift(shift, w);
    forall j | 0 <= j < |w| ensures u[j] < Total(shift, times) && BlockOf(shift, u[j]) == w[j] {
      LiftWithin(shift, times, w, j);
    }
    forall j | 0 <= j < |u| - 1 ensures u[j] in PredsOf(h, u[j + 1]) {
      BacksRise(w, j + 1, |w| - 1);
      BacksStep(w, j + 1);
      StepMeaning(g, latches, shift, times, h, Backs(w, j), w[j], Backs(w, j + 1), w[j + 1]);
    }
    PosZero(shift);
    BacksStep(w, 0);
  }

  lemma BacksStep(w: seq<nat>, j: nat)
    requires j < |w|
    ensures Backs(w, j) == if j == 0 then 0 else Backs(w, j - 1) + if w[j] == 0 then 1 else 0
  {
  }

  lemma IndexParts(shift: nat, times: nat, i: nat)
    requires shift > 0 && i < Total(shift, times)
    ensures Pos(shift, CopyOf(shift, i), BlockOf(shift, i)) == i && CopyOf(shift, i) < times
  {
    hide Pos, CopyOf, BlockOf, Total;
    PosOf(shift, i);
    WithinCopies(shift, times, CopyOf(shift, i), BlockOf(shift, i));
  }

  lemma {:induction false} CopyCountsBacks(g: map<nat, seq<nat>>, latches: seq<nat>, shift: nat, times: nat, h: map<nat, seq<nat>>, u: seq<nat>, j: nat)
    requires Acyclic(g, shift) && (forall l | l in latches :: l < shift) && Rewired(g, latches, shift, times, h)
    requires Path(h, Total(shift, times), u) && j < |u|
    ensures CopyOf(shift, u[j]) == Backs(Project(shift, u), j)
    ensures j > 0 ==> Edge(g, latches, BlockOf(shift, u[j - 1]), BlockOf(shift, u[j]))
  {
    hide Pos, Rewired, Edge, BlockOf, CopyOf, Acyclic, Total;
    ShiftPositive(g, shift);
    if j == 0 {
      OfPos(shift, 0, 0);
      PosZero(shift);
    } else {
      CopyCountsBacks(g, latches, shift, times, h, u, j - 1);
      var x, y := u[j - 1], u[j];
      assert x in PredsOf(h, u[j - 1 + 1]);
      IndexParts(shift, times, x);
      IndexParts(shift, times, y);
      StepMeaning(g, latches, shift, times, h, CopyOf(shift, x), BlockOf(shift, x), CopyOf(shift, y), BlockOf(shift, y));
    }
  }

  lemma ShiftPositive(g: map<nat, seq<nat>>, shift: nat)
    requires Acyclic(g, shift)
    ensures shift > 0
  {
  }

  /** Every path of the unrolling is a walk of the loop with fewer than `times` back edges, and is recovered
      from it: with `WalkLifts`, a bijection. */
  lemma PathProjects(g: map<nat, seq<nat>>, latches: seq<nat>, shift: nat, times: nat, h: map<nat, seq<nat>>, u: seq<nat>)
    requires Acyclic(g, shift) && (forall l | l in latches :: l < shift) && Rewired(g, latches, shift, times, h)
    requires Path(h, Total(shift, times), u)
    ensures Walk(g, latches, shift, Project(shift, u)) && Backs(Project(shift, u), |u| - 1) < times
    ensures Lift(shift, Project(shift, u)) == u
  {
    hide Pos, Rewired, Edge, CopyOf, BlockOf, Total;
    var w := Project(shift, u);
    forall j | 0 <= j < |u|
      ensures u[j] == Pos(shift, Backs(w, j), w[j]) && Backs(w, j) < times
      ensures j > 0 ==> Edge(g, latches, w[j - 1], w[j])
    {
      CopyCountsBacks(g, latches, shift, times, h, u, j);
      IndexParts(shift, times, u[j]);
    }
    OfPos(shift, 0, 0);
    PosZero(shift);
    forall j | 0 <= j < |w| - 1 ensures Edge(g, latches, w[j], w[j + 1]) {
      assert j + 1 > 0 && w[j + 1 - 1] == w[j];
    }
  }

  /** The unrolling is acyclic: every predecessor comes earlier. */
  lemma UnrolledSmaller(g: map<nat, seq<nat>>, latches: seq<nat>, shift: nat, times: nat, h: map<nat, seq<nat>>, i: nat, q: nat)
    requires Acyclic(g, shift) && (forall l | l in latches :: l < shift) && Rewired(g, latches, shift, times, h)
    requires i < Total(shift, times) && q in PredsOf(h, i)
    ensures q < i
  {
    hide CopyOf, BlockOf, Rewired, Total;
    var c, k := CopyOf(shift, i), BlockOf(shift, i);
    IndexParts(shift, times, i);
    RewiredAt(g, latches, shift, times, h, c, k);
    if k == 0 && c > 0 {
      ShiftedHas(latches, (c - 1) * shift, q);
      CopyNext(shift, c - 1);
    } else {
      ShiftedHas(PredsOf(g, k), c * shift, q);
    }
  }
}
