/** Tiles of a loop's writes: the interval formula, the overlap check, and iteration orders. */
module Tiles {

  // ----- the tile formula -----

  /** Formulas over the tile's bounds `lb` and `ub`, the position `j`, and the index expressions at the counter. */
  datatype Form =
    | LbLe(k: nat) | UbGe(k: nat) | LbGe(k: nat) | UbLe(k: nat) | LbLeJ | UbGeJ
    | And(l: Form, r: Form) | Or(l: Form, r: Form)

  type IndexExpr = int -> int

  predicate Holds(f: Form, es: seq<IndexExpr>, i: int, lb: int, ub: int, j: int) {
    match f
    case LbLe(k) => k < |es| && lb <= es[k](i)
    case UbGe(k) => k < |es| && ub >= es[k](i)
    case LbGe(k) => k < |es| && lb >= es[k](i)
    case UbLe(k) => k < |es| && ub <= es[k](i)
    case LbLeJ => lb <= j
    case UbGeJ => ub >= j
    case And(l, r) => Holds(l, es, i, lb, ub, j) && Holds(r, es, i, lb, ub, j)
    case Or(l, r) => Holds(l, es, i, lb, ub, j) || Holds(r, es, i, lb, ub, j)
  }

  ghost predicate IsMin(es: seq<IndexExpr>, i: int, x: int) {
    (exists k :: 0 <= k < |es| && es[k](i) == x) && forall k | 0 <= k < |es| :: x <= es[k](i)
  }

  ghost predicate IsMax(es: seq<IndexExpr>, i: int, x: int) {
    (exists k :: 0 <= k < |es| && es[k](i) == x) && forall k | 0 <= k < |es| :: es[k](i) <= x
  }

  // What the four partial formulas say of the first `c` expressions.
  ghost predicate BelowAll(es: seq<IndexExpr>, c: nat, i: int, x: int) { forall k | 0 <= k < c && k < |es| :: x <= es[k](i) }
  ghost predicate AboveAll(es: seq<IndexExpr>, c: nat, i: int, x: int) { forall k | 0 <= k < c && k < |es| :: es[k](i) <= x }
  ghost predicate AboveOne(es: seq<IndexExpr>, c: nat, i: int, x: int) { exists k :: 0 <= k < c && k < |es| && es[k](i) <= x }
  ghost predicate BelowOne(es: seq<IndexExpr>, c: nat, i: int, x: int) { exists k :: 0 <= k < c && k < |es| && x <= es[k](i) }

  ghost predicate Partial(es: seq<IndexExpr>, c: nat, lbAnd: Form, ubAnd: Form, lbOr: Form, ubOr: Form, i: int, lb: int, ub: int, j: int) {
    && (Holds(lbAnd, es, i, lb, ub, j) <==> BelowAll(es, c, i, lb))
    && (Holds(ubAnd, es, i, lb, ub, j) <==> AboveAll(es, c, i, ub))
    && (Holds(lbOr, es, i, lb, ub, j) <==> AboveOne(es, c, i, lb))
    && (Holds(ubOr, es, i, lb, ub, j) <==> BelowOne(es, c, i, ub))
  }

  lemma OneMore(es: seq<IndexExpr>, c: nat, i: int, x: int)
    requires c < |es|
    ensures BelowAll(es, c + 1, i, x) <==> BelowAll(es, c, i, x) && x <= es[c](i)
    ensures AboveAll(es, c + 1, i, x) <==> AboveAll(es, c, i, x) && es[c](i) <= x
    ensures AboveOne(es, c + 1, i, x) <==> AboveOne(es, c, i, x) || es[c](i) <= x
    ensures BelowOne(es, c + 1, i, x) <==> BelowOne(es, c, i, x) || x <= es[c](i)
    ensures !AboveOne(es, 0, i, x) && !BelowOne(es, 0, i, x) && BelowAll(es, 0, i, x) && AboveAll(es, 0, i, x)
  {
    if AboveOne(es, c, i, x) || es[c](i) <= x {
      var k :| 0 <= k < c + 1 && es[k](i) <= x;
      assert AboveOne(es, c + 1, i, x);
    }
    if BelowOne(es, c, i, x) || x <= es[c](i) {
      var k :| 0 <= k < c + 1 && x <= es[k](i);
      assert BelowOne(es, c + 1, i, x);
    }
  }

  lemma PartialStep(es: seq<IndexExpr>, c: nat, lbAnd: Form, ubAnd: Form, lbOr: Form, ubOr: Form, i: int, lb: int, ub: int, j: int)
    requires c < |es| && Partial(es, c, lbAnd, ubAnd, lbOr, ubOr, i, lb, ub, j)
    ensures Partial(es, c + 1, And(lbAnd, LbLe(c)), And(ubAnd, UbGe(c)), Or(lbOr, LbGe(c)), Or(ubOr, UbLe(c)), i, lb, ub, j)
  {
    hide BelowAll, AboveAll, AboveOne, BelowOne;
    OneMore(es, c, i, lb);
    OneMore(es, c, i, ub);
    assert Holds(LbLe(c), es, i, lb, ub, j) <==> lb <= es[c](i);
    assert Holds(UbGe(c), es, i, lb, ub, j) <==> es[c](i) <= ub;
    assert Holds(LbGe(c), es, i, lb, ub, j) <==> es[c](i) <= lb;
    assert Holds(UbLe(c), es, i, lb, ub, j) <==> ub <= es[c](i);
  }

  lemma PartialStart(es: seq<IndexExpr>, i: int, lb: int, ub: int, j: int)
    requires |es| > 0
    ensures Partial(es, 1, LbLe(0), UbGe(0), LbGe(0), UbLe(0), i, lb, ub, j)
  {
    OneMore(es, 0, i, lb);
    OneMore(es, 0, i, ub);
  }

  /** `getTileExprFromList`: EXACTLY the positions between the smallest and the largest index. */
  method TileExpr(es: seq<IndexExpr>) returns (f: Form)
    ensures forall i: int, lb: int, ub: int, j: int :: Holds(f, es, i, lb, ub, j) <==>
              lb <= j <= ub && (es != [] ==> IsMin(es, i, lb) && IsMax(es, i, ub))
  {
    hide Partial, IsMin, IsMax;
    if |es| == 0 { return And(LbLeJ, UbGeJ); }
    var lbAnd, ubAnd, lbOr, ubOr := LbLe(0), UbGe(0), LbGe(0), UbLe(0);
    forall i: int, lb: int, ub: int, j: int ensures Partial(es, 1, lbAnd, ubAnd, lbOr, ubOr, i, lb, ub, j) { PartialStart(es, i, lb, ub, j); }
    for c := 1 to |es|
      invariant forall i: int, lb: int, ub: int, j: int :: Partial(es, c, lbAnd, ubAnd, lbOr, ubOr, i, lb, ub, j)
    {
      ghost var la, ua, lo, uo := lbAnd, ubAnd, lbOr, ubOr;
      lbAnd, ubAnd := And(lbAnd, LbLe(c)), And(ubAnd, UbGe(c));
      lbOr, ubOr := Or(lbOr, LbGe(c)), Or(ubOr, UbLe(c));
      ghost var d: nat := c + 1;
      forall i: int, lb: int, ub: int, j: int ensures Partial(es, d, lbAnd, ubAnd, lbOr, ubOr, i, lb, ub, j) {
        PartialStep(es, c, la, ua, lo, uo, i, lb, ub, j);
      }
    }
    f := And(And(And(And(lbAnd, lbOr), And(ubAnd, ubOr)), LbLeJ), UbGeJ);
    forall i: int, lb: int, ub: int, j: int
      ensures Holds(f, es, i, lb, ub, j) <==> lb <= j <= ub && IsMin(es, i, lb) && IsMax(es, i, ub)
    {
      TileMeans(es, lbAnd, ubAnd, lbOr, ubOr, i, lb, ub, j);
    }
  }

  lemma TileMeans(es: seq<IndexExpr>, lbAnd: Form, ubAnd: Form, lbOr: Form, ubOr: Form, i: int, lb: int, ub: int, j: int)
    requires Partial(es, |es|, lbAnd, ubAnd, lbOr, ubOr, i, lb, ub, j)
    ensures Holds(And(And(And(And(lbAnd, lbOr), And(ubAnd, ubOr)), LbLeJ), UbGeJ), es, i, lb, ub, j)
            <==> lb <= j <= ub && IsMin(es, i, lb) && IsMax(es, i, ub)
  {
    hide BelowAll, AboveAll, AboveOne, BelowOne, IsMin, IsMax;
    Tight(es, i, lb);
    Tight(es, i, ub);
    var inner := And(And(lbAnd, lbOr), And(ubAnd, ubOr));
    assert Holds(And(And(inner, LbLeJ), UbGeJ), es, i, lb, ub, j) <==> Holds(inner, es, i, lb, ub, j) && lb <= j <= ub by { AndMeans(inner, es, i, lb, ub, j); }
    assert Holds(inner, es, i, lb, ub, j) <==> Holds(And(lbAnd, lbOr), es, i, lb, ub, j) && Holds(And(ubAnd, ubOr), es, i, lb, ub, j);
  }

  lemma AndMeans(f: Form, es: seq<IndexExpr>, i: int, lb: int, ub: int, j: int)
    ensures Holds(And(And(f, LbLeJ), UbGeJ), es, i, lb, ub, j) <==> Holds(f, es, i, lb, ub, j) && lb <= j <= ub
  {
    assert Holds(And(f, LbLeJ), es, i, lb, ub, j) <==> Holds(f, es, i, lb, ub, j) && lb <= j;
  }

  /** "Below all and not below one" is the minimum, and likewise for the maximum. */
  lemma Tight(es: seq<IndexExpr>, i: int, x: int)
    ensures BelowAll(es, |es|, i, x) && AboveOne(es, |es|, i, x) <==> IsMin(es, i, x)
    ensures AboveAll(es, |es|, i, x) && BelowOne(es, |es|, i, x) <==> IsMax(es, i, x)
  {
    if BelowAll(es, |es|, i, x) && AboveOne(es, |es|, i, x) {
      var k :| 0 <= k < |es| && es[k](i) <= x;
      assert es[k](i) == x;
    }
    if AboveAll(es, |es|, i, x) && BelowOne(es, |es|, i, x) {
      var k :| 0 <= k < |es| && x <= es[k](i);
      assert es[k](i) == x;
    }
  }

  // ----- the overlap check -----

  ghost predicate InTile(es: seq<IndexExpr>, i: int, j: int) {
    exists lb: int, ub: int :: lb <= j <= ub && IsMin(es, i, lb) && IsMax(es, i, ub)
  }

  /** `checkOverlap`: is some position in the tiles of two counters at least a step apart? */
  ghost predicate Overlap(es: seq<IndexExpr>, step: int) {
    exists i: int, i': int, j: int :: (i' >= i + step || i >= i' + step) && InTile(es, i, j) && InTile(es, i', j)
  }

  /** The query handed to the solver: the formula and its copy with counter and bounds renamed, the position shared. */
  ghost predicate OverlapQuery(f: Form, es: seq<IndexExpr>, step: int) {
    exists i: int, i': int, lb: int, ub: int, lb': int, ub': int, j: int ::
      (i' >= i + step || i >= i' + step) && Holds(f, es, i, lb, ub, j) && Holds(f, es, i', lb', ub', j)
  }

  /** On the formula that `TileExpr` builds the query asks for a shared position. */
  lemma QueryMeans(f: Form, es: seq<IndexExpr>, step: int)
    requires es != [] && forall i: int, lb: int, ub: int, j: int :: Holds(f, es, i, lb, ub, j) <==> lb <= j <= ub && IsMin(es, i, lb) && IsMax(es, i, ub)
    ensures OverlapQuery(f, es, step) <==> Overlap(es, step)
  {
    hide IsMin, IsMax;
    if OverlapQuery(f, es, step) {
      var i: int, i': int, lb: int, ub: int, lb': int, ub': int, j: int :|
        (i' >= i + step || i >= i' + step) && Holds(f, es, i, lb, ub, j) && Holds(f, es, i', lb', ub', j);
      assert InTile(es, i, j) && InTile(es, i', j);
    }
    if Overlap(es, step) {
      var i: int, i': int, j: int :| (i' >= i + step || i >= i' + step) && InTile(es, i, j) && InTile(es, i', j);
      var lb: int, ub: int :| lb <= j <= ub && IsMin(es, i, lb) && IsMax(es, i, ub);
      var lb': int, ub': int :| lb' <= j <= ub' && IsMin(es, i', lb') && IsMax(es, i', ub');
      assert Holds(f, es, i, lb, ub, j) && Holds(f, es, i', lb', ub', j);
    }
  }

  lemma {:induction false} Extremes(es: seq<IndexExpr>, i: int) returns (lb: int, ub: int)
    requires es != []
    ensures IsMin(es, i, lb) && IsMax(es, i, ub)
  {
    if |es| == 1 {
      lb, ub := es[0](i), es[0](i);
    } else {
      var last := |es| - 1;
      var lo, hi := Extremes(es[..last], i);
      var a :| 0 <= a < last && es[..last][a](i) == lo;
      var b :| 0 <= b < last && es[..last][b](i) == hi;
      lb := if es[last](i) < lo then es[last](i) else lo;
      ub := if es[last](i) > hi then es[last](i) else hi;
      assert es[a](i) == lo && es[b](i) == hi;
      assert forall k | 0 <= k < last :: es[..last][k](i) == es[k](i);
    }
  }

  /** Every written cell lies in the iteration's tile. */
  lemma CellInTile(es: seq<IndexExpr>, i: int, k: nat)
    requires k < |es|
    ensures InTile(es, i, es[k](i))
  {
    var lb, ub := Extremes(es, i);
  }

  /** No overlap: iterations a step apart write different cells, whatever expressions they use. */
  lemma NoOverlapApart(es: seq<IndexExpr>, step: int, i: int, i': int, k: nat, k': nat)
    requires !Overlap(es, step) && k < |es| && k' < |es| && (i' >= i + step || i >= i' + step)
    ensures es[k](i) != es[k'](i')
  {
    CellInTile(es, i, k);
    CellInTile(es, i', k');
  }

  /** With a step of zero or less the check compares a counter with itself and always reports an overlap. */
  lemma NonPositiveStep(es: seq<IndexExpr>, step: int)
    requires step <= 0 && es != []
    ensures Overlap(es, step)
  {
    CellInTile(es, 0, 0);
  }

  // ----- iteration orders -----

  /** A loop that in iteration `i` stores `vals[k](i)` at `es[k](i)`, one after another; the values do not read the
      written array. */
  function Body(es: seq<IndexExpr>, vals: seq<IndexExpr>, k: nat, i: int, a: int -> int): int -> int
    requires k <= |es| == |vals|
  {
    if k == 0 then a
    else var b := Body(es, vals, k - 1, i, a); (c: int) => if c == es[k - 1](i) then vals[k - 1](i) else b(c)
  }

  /** The iterations in the given order. */
  function Loop(es: seq<IndexExpr>, vals: seq<IndexExpr>, order: seq<int>, a: int -> int): int -> int
    requires |es| == |vals|
  {
    if |order| == 0 then a
    else Body(es, vals, |es|, order[|order| - 1], Loop(es, vals, order[..|order| - 1], a))
  }

  ghost predicate Writes(es: seq<IndexExpr>, k: nat, i: int, c: int)
    requires k <= |es|
  {
    exists l :: 0 <= l < k && es[l](i) == c
  }

  /** The value iteration `i` leaves in a cell it writes: its last store there. */
  lemma {:induction false} BodyAt(es: seq<IndexExpr>, vals: seq<IndexExpr>, k: nat, i: int, a: int -> int, b: int -> int, c: int)
    requires k <= |es| == |vals|
    ensures Writes(es, k, i, c) ==> Body(es, vals, k, i, a)(c) == Body(es, vals, k, i, b)(c)
    ensures !Writes(es, k, i, c) ==> Body(es, vals, k, i, a)(c) == a(c)
  {
    if k > 0 {
      BodyAt(es, vals, k - 1, i, a, b, c);
      if es[k - 1](i) == c { assert Writes(es, k, i, c); }
      if Writes(es, k - 1, i, c) {
        var l :| 0 <= l < k - 1 && es[l](i) == c;
        assert Writes(es, k, i, c);
      }
    }
  }

  /** The cell's final value comes from the one iteration that writes it. */
  lemma {:induction false} LoopAt(es: seq<IndexExpr>, vals: seq<IndexExpr>, order: seq<int>, a: int -> int, c: int, i: int)
    requires |es| == |vals|
    requires forall x | x in order && Writes(es, |es|, x, c) :: x == i
    ensures Loop(es, vals, order, a)(c) == if i in order && Writes(es, |es|, i, c) then Body(es, vals, |es|, i, a)(c) else a(c)
  {
    hide Writes, Body;
    if |order| > 0 {
      var front, x := order[..|order| - 1], order[|order| - 1];
      LoopAt(es, vals, front, a, c, i);
      BodyAt(es, vals, |es|, x, Loop(es, vals, front, a), a, c);
      assert order == front + [x];
    }
  }

  /** Counters of a loop: distinct ones are at least a step apart. */
  ghost predicate Spaced(order: seq<int>, step: int) {
    forall x, y | x in order && y in order && x != y :: y >= x + step || x >= y + step
  }

  /** ORDER DOES NOT MATTER: when the check reports no overlap, every order of the same iterations leaves the same
      array. */
  lemma AnyOrder(es: seq<IndexExpr>, vals: seq<IndexExpr>, step: int, order: seq<int>, order': seq<int>, a: int -> int, c: int)
    requires |es| == |vals| && !Overlap(es, step) && Spaced(order, step)
    requires forall x :: x in order <==> x in order'
    ensures Loop(es, vals, order, a)(c) == Loop(es, vals, order', a)(c)
  {
    hide Overlap, Loop, Body;
    if x :| x in order && Writes(es, |es|, x, c) {
      forall y | y in order && Writes(es, |es|, y, c) ensures y == x {
        var k: nat :| k < |es| && es[k](x) == c;
        var l: nat :| l < |es| && es[l](y) == c;
        if x != y { NoOverlapApart(es, step, x, y, k, l); }
      }
      LoopAt(es, vals, order, a, c, x);
      LoopAt(es, vals, order', a, c, x);
    } else {
      LoopAt(es, vals, order, a, c, 0);
      LoopAt(es, vals, order', a, c, 0);
    }
  }

  /** The counters of an ascending loop are spaced by its step. */
  lemma {:induction false} CountersSpaced(init: int, step: int, k: nat)
    requires step > 0
    ensures Spaced(Counters(init, step, k), step)
    ensures forall x | x in Counters(init, step, k) :: x <= init + (k as int - 1) * step
  {
    if k > 0 {
      CountersSpaced(init, step, k - 1);
      Times(k - 1, step);
      assert forall x | x in Counters(init, step, k) :: x in Counters(init, step, k - 1) || x == init + (k - 1) * step;
    }
  }

  function Counters(init: int, step: int, k: nat): seq<int> {
    if k == 0 then [] else Counters(init, step, k - 1) + [init + (k - 1) * step]
  }

  lemma Times(k: int, step: int)
    ensures k * step == (k - 1) * step + step
  {
  }

  /** So a loop whose write tiles do not overlap can run its iterations in any order. */
  lemma LoopInAnyOrder(es: seq<IndexExpr>, vals: seq<IndexExpr>, init: int, step: int, k: nat, order: seq<int>, a: int -> int, c: int)
    requires |es| == |vals| && step > 0 && !Overlap(es, step)
    requires forall x :: x in order <==> x in Counters(init, step, k)
    ensures Loop(es, vals, order, a)(c) == Loop(es, vals, Counters(init, step, k), a)(c)
  {
    hide Overlap, Loop, Spaced, Counters;
    CountersSpaced(init, step, k);
    AnyOrder(es, vals, step, Counters(init, step, k), order, a, c);
  }
}
