/** Splitting a conjunction with top-level disjunctions into its paths: the driver's version, which prunes, and the
    solver's version, which skips. */
module FlattenPath {

  /** Formulas as the splitter sees them; `V` are valuations. */
  datatype Form<!V> = Leaf(holds: V -> bool) | AllOf(args: seq<Form<V>>) | AnyOf(args: seq<Form<V>>)

  ghost predicate Holds<V>(f: Form<V>, v: V) {
    match f
    case Leaf(h) => h(v)
    case AllOf(args) => forall k | 0 <= k < |args| :: Holds(args[k], v)
    case AnyOf(args) => exists k | 0 <= k < |args| :: Holds(args[k], v)
  }

  ghost predicate Path<V>(p: seq<Form<V>>, v: V) { forall k | 0 <= k < |p| :: Holds(p[k], v) }

  ghost predicate SomePath<V>(ps: seq<seq<Form<V>>>, v: V) { exists k :: 0 <= k < |ps| && Path(ps[k], v) }

  /** Disjunctions are never empty. */
  predicate Proper<V>(path: seq<Form<V>>) { forall k | 0 <= k < |path| && path[k].AnyOf? :: |path[k].args| > 0 }

  /** A conjunction is opened up, anything else taken as it is. */
  function Parts<V>(f: Form<V>): seq<Form<V>> { if f.AllOf? then f.args else [f] }

  lemma PathAppend<V>(p: seq<Form<V>>, q: seq<Form<V>>, v: V)
    ensures Path(p + q, v) <==> Path(p, v) && Path(q, v)
  {
    hide Holds;
    if Path(p + q, v) {
      forall k | 0 <= k < |p| ensures Holds(p[k], v) { assert (p + q)[k] == p[k]; }
      forall k | 0 <= k < |q| ensures Holds(q[k], v) { assert (p + q)[|p| + k] == q[k]; }
    }
  }

  lemma PartsMean<V>(f: Form<V>, v: V)
    ensures Path(Parts(f), v) <==> Holds(f, v)
  {
    if !f.AllOf? { assert Parts(f)[0] == f; }
  }

  // ----- one formula of the conjunction -----

  /** `num` copies of the list of paths, one after another. */
  function Copies<V>(ps: seq<seq<Form<V>>>, num: nat): seq<seq<Form<V>>> { if num == 0 then [] else Copies(ps, num - 1) + ps }

  /** Every path extended by `q`. */
  function Extend<V>(ps: seq<seq<Form<V>>>, q: seq<Form<V>>): (r: seq<seq<Form<V>>>)
    ensures |r| == |ps| && forall k | 0 <= k < |r| :: r[k] == ps[k] + q
  {
    seq(|ps|, k requires 0 <= k < |ps| => ps[k] + q)
  }

  /** The paths after a disjunction: one block per disjunct, `extra(d)` being added to block `d` as well. */
  function Blocks<V>(ps: seq<seq<Form<V>>>, args: seq<Form<V>>, extra: seq<seq<Form<V>>>, d: nat): seq<seq<Form<V>>>
    requires d <= |args| == |extra|
  {
    if d == 0 then [] else Blocks(ps, args, extra, d - 1) + Extend(ps, Parts(args[d - 1]) + extra[d - 1])
  }

  lemma SomeAppend<V>(ps: seq<seq<Form<V>>>, qs: seq<seq<Form<V>>>, v: V)
    ensures SomePath(ps + qs, v) <==> SomePath(ps, v) || SomePath(qs, v)
  {
    hide Path;
    if SomePath(ps, v) {
      var k :| 0 <= k < |ps| && Path(ps[k], v);
      assert (ps + qs)[k] == ps[k];
    }
    if SomePath(qs, v) {
      var k :| 0 <= k < |qs| && Path(qs[k], v);
      assert (ps + qs)[|ps| + k] == qs[k];
    }
  }

  lemma SomeExtend<V>(ps: seq<seq<Form<V>>>, q: seq<Form<V>>, v: V)
    ensures SomePath(Extend(ps, q), v) <==> SomePath(ps, v) && Path(q, v)
  {
    hide Path;
    forall k | 0 <= k < |ps| ensures Path(Extend(ps, q)[k], v) <==> Path(ps[k], v) && Path(q, v) { PathAppend(ps[k], q, v); }
    if SomePath(ps, v) && Path(q, v) {
      var k :| 0 <= k < |ps| && Path(ps[k], v);
      assert Path(Extend(ps, q)[k], v);
    }
  }

  /** Under a valuation that makes the extras true, the blocks hold as the old paths and one disjunct do. */
  lemma {:induction false} BlocksMean<V>(ps: seq<seq<Form<V>>>, args: seq<Form<V>>, extra: seq<seq<Form<V>>>, d: nat, v: V)
    requires d <= |args| == |extra| && forall k | 0 <= k < d :: Path(extra[k], v)
    ensures SomePath(Blocks(ps, args, extra, d), v) <==> SomePath(ps, v) && exists k | 0 <= k < d :: Holds(args[k], v)
  {
    hide Holds, Path, Parts, SomePath;
    if d > 0 {
      BlocksMean(ps, args, extra, d - 1, v);
      var q := Parts(args[d - 1]) + extra[d - 1];
      SomeAppend(Blocks(ps, args, extra, d - 1), Extend(ps, q), v);
      SomeExtend(ps, q, v);
      PathAppend(Parts(args[d - 1]), extra[d - 1], v);
      PartsMean(args[d - 1], v);
    } else {
      NoPath<V>(v);
    }
  }

  lemma NoPath<V>(v: V)
    ensures !SomePath([], v)
  {
  }

  // ----- choices -----

  /** In how many ways a formula can be taken: one per disjunct. */
  function Options<V>(f: Form<V>): nat { if f.AnyOf? then |f.args| else 1 }

  /** One disjunct is named for every disjunction. */
  predicate Chooses<V>(path: seq<Form<V>>, c: seq<nat>) { |c| == |path| && forall k | 0 <= k < |path| :: c[k] < Options(path[k]) }

  /** What a choice takes from one formula: the parts of the chosen disjunct, marked if it is refuted. */
  function Piece<V>(f: Form<V>, d: nat, sat: Form<V> -> bool, positive: Form<V>, drop: bool): seq<Form<V>>
    requires d < Options(f)
  {
    if f.AnyOf? then Parts(f.args[d]) + Mark(f.args[d], sat, positive) else if drop then [] else [f]
  }

  function Mark<V>(f: Form<V>, sat: Form<V> -> bool, positive: Form<V>): seq<Form<V>> { if sat(f) then [] else [positive] }

  /** The path of a choice: the chosen disjunct of every disjunction and every other formula that is not dropped, in
      their order. */
  function Picked<V>(path: seq<Form<V>>, c: seq<nat>, sat: Form<V> -> bool, positive: Form<V>, dropped: set<nat>): seq<Form<V>>
    requires Chooses(path, c)
  {
    if path == [] then []
    else
      var k := |path| - 1;
      Picked(path[..k], c[..k], sat, positive, dropped) + Piece(path[k], c[k], sat, positive, k in dropped)
  }

  /** Nothing is refuted, so nothing is marked. */
  predicate Anything<V>(f: Form<V>) { true }

  /** The whole path of a choice. */
  function PathOf<V>(path: seq<Form<V>>, c: seq<nat>): seq<Form<V>>
    requires Chooses(path, c)
  {
    Picked(path, c, Anything, AllOf([]), {})
  }

  /** The choice takes a refuted disjunct. */
  predicate SomeRefuted<V>(path: seq<Form<V>>, c: seq<nat>, sat: Form<V> -> bool)
    requires Chooses(path, c)
  {
    exists k | 0 <= k < |path| :: path[k].AnyOf? && !sat(path[k].args[c[k]])
  }

  /** Formulas are dropped only behind a refuted disjunct. */
  predicate DropsDead<V>(path: seq<Form<V>>, c: seq<nat>, sat: Form<V> -> bool, dropped: set<nat>)
    requires Chooses(path, c)
  {
    forall k | k in dropped :: k < |path| && SomeRefuted(path[..k], c[..k], sat)
  }

  /** The path of a choice, as the solver's version leaves it. */
  ghost predicate Thinned<V(!new)>(path: seq<Form<V>>, c: seq<nat>, sat: Form<V> -> bool, positive: Form<V>, p: seq<Form<V>>) {
    Chooses(path, c) && exists dropped :: DropsDead(path, c, sat, dropped) && p == Picked(path, c, sat, positive, dropped)
  }

  function ChoiceBlocks(cs: seq<seq<nat>>, n: nat): seq<seq<nat>> {
    if n == 0 then [] else ChoiceBlocks(cs, n - 1) + seq(|cs|, i requires 0 <= i < |cs| => cs[i] + [n - 1])
  }

  /** All choices, in the order in which the paths are laid out: the last disjunction moves slowest. */
  function Choices<V>(path: seq<Form<V>>, k: nat): seq<seq<nat>>
    requires k <= |path|
  {
    if k == 0 then [[]] else ChoiceBlocks(Choices(path, k - 1), Options(path[k - 1]))
  }

  lemma {:induction false} ChoiceBlock(cs: seq<seq<nat>>, n: nat, m: nat) returns (i: nat, e: nat)
    requires m < |ChoiceBlocks(cs, n)|
    ensures i < |cs| && e < n && m == e * |cs| + i && ChoiceBlocks(cs, n)[m] == cs[i] + [e]
  {
    ChoicesSize(cs, n - 1);
    if m < |ChoiceBlocks(cs, n - 1)| {
      i, e := ChoiceBlock(cs, n - 1, m);
    } else {
      i, e := m - |ChoiceBlocks(cs, n - 1)|, n - 1;
    }
  }

  lemma {:induction false} ChoicesSize(cs: seq<seq<nat>>, n: nat)
    ensures |ChoiceBlocks(cs, n)| == n * |cs|
  {
    if n > 0 {
      ChoicesSize(cs, n - 1);
      assert n * |cs| == (n - 1) * |cs| + |cs|;
    }
  }

  lemma {:induction false} ChoiceAt(cs: seq<seq<nat>>, n: nat, i: nat, e: nat)
    requires i < |cs| && e < n
    ensures cs[i] + [e] in ChoiceBlocks(cs, n)
  {
    if e == n - 1 {
      assert ChoiceBlocks(cs, n)[|ChoiceBlocks(cs, n - 1)| + i] == cs[i] + [e];
    } else {
      ChoiceAt(cs, n - 1, i, e);
    }
  }

  /** The choice of a longer path, and of a shorter one. */
  lemma ChoosesMore<V>(path: seq<Form<V>>, k: nat, c: seq<nat>, e: nat)
    requires k < |path|
    ensures Chooses(path[..k + 1], c + [e]) <==> Chooses(path[..k], c) && e < Options(path[k])
  {
    hide Options;
    if Chooses(path[..k + 1], c + [e]) {
      forall j | 0 <= j < k ensures c[j] < Options(path[..k][j]) { assert (c + [e])[j] == c[j] && path[..k + 1][j] == path[..k][j]; }
      assert (c + [e])[k] == e && path[..k + 1][k] == path[k];
    }
    if Chooses(path[..k], c) && e < Options(path[k]) {
      forall j | 0 <= j < k + 1 ensures (c + [e])[j] < Options(path[..k + 1][j]) { assert j < k ==> path[..k + 1][j] == path[..k][j]; }
    }
  }

  /** EVERY CHOICE IS LAID OUT, and nothing else. */
  lemma {:induction false} AllChoices<V>(path: seq<Form<V>>, k: nat, c: seq<nat>)
    requires k <= |path|
    ensures c in Choices(path, k) <==> Chooses(path[..k], c)
  {
    hide Chooses, Options, ChoiceBlocks;
    if k == 0 {
      NoChoice(path, c);
    } else {
      var cs, n := Choices(path, k - 1), Options(path[k - 1]);
      if c in Choices(path, k) {
        var m: nat :| m < |Choices(path, k)| && Choices(path, k)[m] == c;
        var i, e := ChoiceBlock(cs, n, m);
        AllChoices(path, k - 1, cs[i]);
        ChoosesMore(path, k - 1, cs[i], e);
      }
      if Chooses(path[..k], c) {
        ChoosesLength(path[..k], c);
        var front, e := c[..k - 1], c[k - 1];
        assert c == front + [e];
        ChoosesMore(path, k - 1, front, e);
        AllChoices(path, k - 1, front);
        var i: nat :| i < |cs| && cs[i] == front;
        ChoiceAt(cs, n, i, e);
      }
    }
  }

  lemma NoChoice<V>(path: seq<Form<V>>, c: seq<nat>)
    ensures c in Choices(path, 0) <==> Chooses(path[..0], c)
  {
    assert Choices(path, 0)[0] == [];
  }

  lemma ChoosesLength<V>(path: seq<Form<V>>, c: seq<nat>)
    requires Chooses(path, c)
    ensures |c| == |path|
  {
  }

  lemma AppendsDiffer(x: seq<nat>, d: nat, y: seq<nat>, e: nat)
    requires x + [d] == y + [e]
    ensures x == y && d == e
  {
    assert (x + [d])[..|x|] == x && (y + [e])[..|y|] == y;
    assert (x + [d])[|x|] == d && (y + [e])[|y|] == e;
  }

  /** NO CHOICE IS LAID OUT TWICE. */
  lemma {:induction false} ChoicesDiffer<V>(path: seq<Form<V>>, k: nat, a: nat, b: nat)
    requires k <= |path| && a < |Choices(path, k)| && b < |Choices(path, k)| && a != b
    ensures Choices(path, k)[a] != Choices(path, k)[b]
  {
    if k > 0 {
      var cs, n := Choices(path, k - 1), Options(path[k - 1]);
      var i, d := ChoiceBlock(cs, n, a);
      var j, e := ChoiceBlock(cs, n, b);
      if d == e { ChoicesDiffer(path, k - 1, i, j); }
      if cs[i] + [d] == cs[j] + [e] { AppendsDiffer(cs[i], d, cs[j], e); }
    }
  }

  /** The blocks of the paths and the blocks of the choices are laid out alike. */
  lemma {:induction false} BlockPick<V>(ps: seq<seq<Form<V>>>, cs: seq<seq<nat>>, args: seq<Form<V>>, extra: seq<seq<Form<V>>>, d: nat, m: nat)
    returns (i: nat, e: nat)
    requires |cs| == |ps| && d <= |args| == |extra| && m < |Blocks(ps, args, extra, d)|
    ensures |ChoiceBlocks(cs, d)| == |Blocks(ps, args, extra, d)|
    ensures i < |ps| && e < d && m == e * |ps| + i
    ensures ChoiceBlocks(cs, d)[m] == cs[i] + [e] && Blocks(ps, args, extra, d)[m] == ps[i] + (Parts(args[e]) + extra[e])
  {
    hide Parts;
    ChoicesSize(cs, d - 1);
    BlocksSize(ps, args, extra, d - 1);
    if m < |Blocks(ps, args, extra, d - 1)| {
      i, e := BlockPick(ps, cs, args, extra, d - 1, m);
    } else {
      i, e := m - |Blocks(ps, args, extra, d - 1)|, d - 1;
    }
  }

  lemma PickedMore<V>(path: seq<Form<V>>, k: nat, c: seq<nat>, e: nat, sat: Form<V> -> bool, positive: Form<V>, dropped: set<nat>)
    requires k < |path| && Chooses(path[..k], c) && e < Options(path[k])
    ensures Chooses(path[..k + 1], c + [e])
    ensures Picked(path[..k + 1], c + [e], sat, positive, dropped) ==
            Picked(path[..k], c, sat, positive, dropped) + Piece(path[k], e, sat, positive, k in dropped)
  {
    ChoosesMore(path, k, c, e);
    assert path[..k + 1][..k] == path[..k] && (c + [e])[..k] == c;
  }

  // ----- no disjunction is left -----

  ghost predicate Split<V>(p: seq<Form<V>>) { forall k | 0 <= k < |p| :: !p[k].AnyOf? }

  /** Disjunctions stand at the top level only. */
  ghost predicate TopLevelOnly<V>(path: seq<Form<V>>) {
    forall k, d | 0 <= k < |path| && path[k].AnyOf? && 0 <= d < |path[k].args| :: Split(Parts(path[k].args[d]))
  }

  /** Where disjunctions stand at the top level only, the path of a choice has none. */
  lemma {:induction false} PickedSplit<V>(path: seq<Form<V>>, c: seq<nat>, sat: Form<V> -> bool, positive: Form<V>, dropped: set<nat>)
    requires Chooses(path, c) && TopLevelOnly(path) && (positive.AnyOf? ==> forall f :: sat(f))
    ensures Split(Picked(path, c, sat, positive, dropped))
  {
    hide Piece, TopLevelOnly, Split;
    if path != [] {
      var k := |path| - 1;
      TopLevelPart(path, k);
      PickedSplit(path[..k], c[..k], sat, positive, dropped);
      PieceSplit(path[k], c[k], sat, positive, k in dropped);
      SplitAppend(Picked(path[..k], c[..k], sat, positive, dropped), Piece(path[k], c[k], sat, positive, k in dropped));
    } else {
      SplitAppend<V>([], []);
    }
  }

  lemma TopLevelPart<V>(path: seq<Form<V>>, k: nat)
    requires TopLevelOnly(path) && k < |path|
    ensures TopLevelOnly(path[..k])
    ensures path[k].AnyOf? ==> forall d | 0 <= d < |path[k].args| :: Split(Parts(path[k].args[d]))
  {
    hide Split, Parts;
    assert forall j | 0 <= j < k :: path[..k][j] == path[j];
  }

  lemma PieceSplit<V>(f: Form<V>, d: nat, sat: Form<V> -> bool, positive: Form<V>, drop: bool)
    requires d < Options(f) && (f.AnyOf? ==> Split(Parts(f.args[d]))) && (positive.AnyOf? ==> forall g :: sat(g))
    ensures Split(Piece(f, d, sat, positive, drop))
  {
    hide Parts;
  }

  lemma SplitAppend<V>(p: seq<Form<V>>, q: seq<Form<V>>)
    ensures Split<V>([]) && (Split(p) && Split(q) ==> Split(p + q))
  {
  }

  // ----- the shared in-place steps -----

  /** The copying loops: the list grows to `num` copies of itself. */
  method CopyPaths<V>(flat: seq<seq<Form<V>>>, num: nat) returns (r: seq<seq<Form<V>>>)
    requires num >= 1
    ensures r == Copies(flat, num)
  {
    r := flat;
    OneCopy(flat);
    for c := 1 to num
      invariant r == Copies(flat, c) && |flat| <= |r| && r[..|flat|] == flat
    {
      r := CopyOnce(flat, r);
    }
  }

  method CopyOnce<V>(flat: seq<seq<Form<V>>>, all: seq<seq<Form<V>>>) returns (r: seq<seq<Form<V>>>)
    requires |flat| <= |all| && all[..|flat|] == flat
    ensures r == all + flat && r[..|flat|] == flat
  {
    r := all;
    for i := 0 to |flat|
      invariant |r| == |all| + i && (forall k | 0 <= k < |all| :: r[k] == all[k]) && forall k | 0 <= k < i :: r[|all| + k] == flat[k]
    {
      assert r[i] == all[i] == all[..|flat|][i];
      r := r + [r[i]];
    }
  }

  /** The inner loop over one disjunct: the paths of its block, starting at position `at`, are extended. */
  method ExtendBlock<V>(flat: seq<seq<Form<V>>>, at: nat, size: nat, q: seq<Form<V>>) returns (r: seq<seq<Form<V>>>)
    requires at + size <= |flat|
    ensures r == flat[..at] + Extend(flat[at..at + size], q) + flat[at + size..]
  {
    r := flat;
    for i := 0 to size
      invariant |r| == |flat|
      invariant forall k | 0 <= k < |flat| :: r[k] == if at <= k < at + i then flat[k] + q else flat[k]
    {
      r := r[at + i := r[at + i] + q];
    }
  }

  lemma {:induction false} CopiesLength<V>(ps: seq<seq<Form<V>>>, a: nat, b: nat)
    ensures Copies(ps, a + b) == Copies(ps, a) + Copies(ps, b)
  {
    if b > 0 {
      CopiesLength(ps, a, b - 1);
      assert Copies(ps, a) + Copies(ps, b - 1) + ps == Copies(ps, a) + (Copies(ps, b - 1) + ps);
    } else {
      assert Copies(ps, a) + [] == Copies(ps, a);
    }
  }

  lemma OneCopy<V>(ps: seq<seq<Form<V>>>)
    ensures Copies(ps, 1) == ps
  {
    assert Copies(ps, 0) + ps == ps;
  }

  /** The block being extended is still a copy of the old paths. */
  lemma NextBlock<V>(ps: seq<seq<Form<V>>>, args: seq<Form<V>>, extra: seq<seq<Form<V>>>, d: nat, num: nat)
    requires d < num == |args| == |extra|
    ensures var flat := Blocks(ps, args, extra, d) + Copies(ps, num - d); var at := |Blocks(ps, args, extra, d)|;
            && at + |ps| <= |flat| && flat[..at] == Blocks(ps, args, extra, d) && flat[at..at + |ps|] == ps && flat[at + |ps|..] == Copies(ps, num - d - 1)
  {
    hide Blocks;
    CopiesLength(ps, 1, num - d - 1);
    OneCopy(ps);
    Middle(Blocks(ps, args, extra, d), ps, Copies(ps, num - d - 1));
  }

  lemma Middle<T>(a: seq<T>, b: seq<T>, c: seq<T>)
    ensures (a + (b + c))[..|a|] == a && (a + (b + c))[|a|..|a| + |b|] == b && (a + (b + c))[|a| + |b|..] == c
  {
  }

  // ----- the driver's version -----

  /** The paths after the first `k` formulas, before pruning. */
  function Flat<V>(path: seq<Form<V>>, k: nat): seq<seq<Form<V>>>
    requires k <= |path|
  {
    if k == 0 then [[]]
    else if path[k - 1].AnyOf? then
      Blocks(Flat(path, k - 1), path[k - 1].args, NoExtra(path[k - 1].args), |path[k - 1].args|)
    else Extend(Flat(path, k - 1), [path[k - 1]])
  }

  function NoExtra<V>(args: seq<Form<V>>): (r: seq<seq<Form<V>>>)
    ensures |r| == |args| && forall k | 0 <= k < |r| :: r[k] == []
  {
    seq(|args|, k => [])
  }

  lemma {:induction false} FlatMeans<V>(path: seq<Form<V>>, k: nat, v: V)
    requires k <= |path|
    ensures SomePath(Flat(path, k), v) <==> Path(path[..k], v)
  {
    hide Holds, SomePath, Blocks, Extend;
    if k == 0 {
      assert Path<V>([], v);
      FirstPath<V>(v);
    } else {
      FlatMeans(path, k - 1, v);
      var f, ps := path[k - 1], Flat(path, k - 1);
      assert path[..k] == path[..k - 1] + [f];
      PathAppend(path[..k - 1], [f], v);
      OnePart(f, v);
      if f.AnyOf? {
        BlocksMean(ps, f.args, NoExtra(f.args), |f.args|, v);
        AnyMeans(f, v);
      } else {
        SomeExtend(ps, [f], v);
      }
    }
  }

  /** Before pruning, position `m` holds the whole path of choice `m`. */
  lemma {:induction false} FlatPicked<V>(path: seq<Form<V>>, k: nat, m: nat)
    requires k <= |path| && m < |Flat(path, k)|
    ensures |Choices(path, k)| == |Flat(path, k)| && Chooses(path[..k], Choices(path, k)[m])
    ensures Flat(path, k)[m] == PathOf(path[..k], Choices(path, k)[m])
  {
    hide Blocks, Parts, ChoiceBlocks, Chooses, Picked, Extend;
    if k == 0 {
      NoPicks(path, Anything, AllOf([]), {});
    } else {
      var ps, cs, f := Flat(path, k - 1), Choices(path, k - 1), path[k - 1];
      FlatSize(path, k - 1);
      if f.AnyOf? {
        var i, e := BlockPick(ps, cs, f.args, NoExtra(f.args), |f.args|, m);
        FlatPicked(path, k - 1, i);
        PickedMore(path, k - 1, cs[i], e, Anything, AllOf([]), {});
        assert Parts(f.args[e]) + [] == Parts(f.args[e]);
      } else {
        OneBlock(cs);
        FlatPicked(path, k - 1, m);
        PickedMore(path, k - 1, cs[m], 0, Anything, AllOf([]), {});
      }
    }
  }

  /** Two disjunctions give four paths, the second disjunction moving slower; a chosen conjunction is opened, one outside
      a disjunction is not. */
  lemma FourPaths<V>(a: V -> bool, b: V -> bool, c: V -> bool, d: V -> bool, e: V -> bool)
    ensures var both := AllOf([Leaf(a), Leaf(b)]);
            Flat([AnyOf([both, Leaf(c)]), both, AnyOf([Leaf(d), Leaf(e)])], 3) ==
            [[Leaf(a), Leaf(b), both, Leaf(d)], [Leaf(c), both, Leaf(d)], [Leaf(a), Leaf(b), both, Leaf(e)], [Leaf(c), both, Leaf(e)]]
  {
    var both := AllOf([Leaf(a), Leaf(b)]);
    var path := [AnyOf([both, Leaf(c)]), both, AnyOf([Leaf(d), Leaf(e)])];
    var ps := [[Leaf(a), Leaf(b), both], [Leaf(c), both]];
    hide Extend, Blocks, Parts;
    var none: seq<seq<Form<V>>> := [[]];
    assert Flat(path, 0) == none;
    TwoBlocks(none, both, Leaf(c));
    assert Flat(path, 1) == Blocks(none, [both, Leaf(c)], NoExtra([both, Leaf(c)]), 2);
    assert Flat(path, 1) == [[Leaf(a), Leaf(b)]] + [[Leaf(c)]] by { ExtendNone(both); ExtendNone(Leaf(c)); PartsAre(both); PartsAre(Leaf(c)); }
    assert Flat(path, 2) == Extend(Flat(path, 1), [both]);
    assert [[Leaf(a), Leaf(b)]] + [[Leaf(c)]] == [[Leaf(a), Leaf(b)], [Leaf(c)]];
    ExtendPair([Leaf(a), Leaf(b)], [Leaf(c)], [both]);
    assert [Leaf(a), Leaf(b)] + [both] == ps[0] && [Leaf(c)] + [both] == ps[1];
    assert Flat(path, 2) == ps;
    TwoBlocks(ps, Leaf(d), Leaf(e));
    assert Flat(path, 3) == Blocks(ps, [Leaf(d), Leaf(e)], NoExtra([Leaf(d), Leaf(e)]), 2);
    PartsAre(Leaf(d));
    PartsAre(Leaf(e));
    ExtendPair(ps[0], ps[1], [Leaf(d)]);
    ExtendPair(ps[0], ps[1], [Leaf(e)]);
    assert forall l | l in [Leaf(d), Leaf(e)] :: ps[0] + [l] == [Leaf(a), Leaf(b), both, l] && ps[1] + [l] == [Leaf(c), both, l];
    assert ps == [ps[0], ps[1]];
  }

  lemma PartsAre<V>(f: Form<V>)
    ensures Parts(f) == if f.AllOf? then f.args else [f]
  {
  }

  lemma ExtendNone<V>(f: Form<V>)
    ensures Extend([[]], Parts(f)) == [Parts(f)]
  {
    assert [] + Parts(f) == Parts(f);
  }

  lemma ExtendPair<V>(x: seq<Form<V>>, y: seq<Form<V>>, q: seq<Form<V>>)
    ensures Extend([x, y], q) == [x + q, y + q]
  {
  }

  lemma TwoBlocks<V>(ps: seq<seq<Form<V>>>, f: Form<V>, g: Form<V>)
    ensures Blocks(ps, [f, g], NoExtra([f, g]), 2) == Extend(ps, Parts(f)) + Extend(ps, Parts(g))
  {
    assert Parts(f) + [] == Parts(f) && Parts(g) + [] == Parts(g);
    assert Blocks(ps, [f, g], NoExtra([f, g]), 0) == [];
    assert Blocks(ps, [f, g], NoExtra([f, g]), 1) == Extend(ps, Parts(f));
  }

  lemma NoPicks<V>(path: seq<Form<V>>, sat: Form<V> -> bool, positive: Form<V>, dropped: set<nat>)
    ensures Choices(path, 0) == [[]] && Chooses(path[..0], []) && Picked(path[..0], [], sat, positive, dropped) == []
  {
  }

  lemma OneBlock(cs: seq<seq<nat>>)
    ensures |ChoiceBlocks(cs, 1)| == |cs| && forall m | 0 <= m < |cs| :: ChoiceBlocks(cs, 1)[m] == cs[m] + [0]
  {
    assert ChoiceBlocks(cs, 0) == [];
  }

  lemma {:induction false} FlatSize<V>(path: seq<Form<V>>, k: nat)
    requires k <= |path|
    ensures |Choices(path, k)| == |Flat(path, k)|
  {
    if k > 0 {
      FlatSize(path, k - 1);
      ChoicesSize(Choices(path, k - 1), Options(path[k - 1]));
      if path[k - 1].AnyOf? { BlocksSize(Flat(path, k - 1), path[k - 1].args, NoExtra(path[k - 1].args), |path[k - 1].args|); }
    }
  }

  /** The paths that the pruning leaves. */
  function Survivors<V>(ps: seq<seq<Form<V>>>, sat: seq<Form<V>> -> bool): seq<seq<Form<V>>> {
    if ps == [] then []
    else Survivors(ps[..|ps| - 1], sat) + if sat(ps[|ps| - 1]) then [ps[|ps| - 1]] else []
  }

  lemma {:induction false} SurvivorsAre<V>(ps: seq<seq<Form<V>>>, sat: seq<Form<V>> -> bool, p: seq<Form<V>>)
    ensures p in Survivors(ps, sat) <==> p in ps && sat(p)
  {
    if ps != [] {
      SurvivorsAre(ps[..|ps| - 1], sat, p);
      assert ps == ps[..|ps| - 1] + [ps[|ps| - 1]];
    }
  }

  /** EXACTLY THE CHOICES: what the driver's version returns are the paths of all choices of one disjunct for every
      disjunction, as far as the solver does not refute them. */
  lemma DriverPaths<V>(path: seq<Form<V>>, sat: seq<Form<V>> -> bool, p: seq<Form<V>>)
    ensures p in Survivors(Flat(path, |path|), sat) <==> sat(p) && exists c | Chooses(path, c) :: p == PathOf(path, c)
  {
    hide Flat, Survivors, PathOf, Choices, Chooses;
    var n := |path|;
    assert path[..n] == path;
    SurvivorsAre(Flat(path, n), sat, p);
    if p in Flat(path, n) {
      var m: nat :| m < |Flat(path, n)| && Flat(path, n)[m] == p;
      FlatPicked(path, n, m);
    }
    forall c | Chooses(path, c) ensures PathOf(path, c) in Flat(path, n) {
      AllChoices(path, n, c);
      var m: nat :| m < |Choices(path, n)| && Choices(path, n)[m] == c;
      FlatSize(path, n);
      FlatPicked(path, n, m);
    }
  }

  /** Where disjunctions stand at the top level only, none is left in the paths. */
  lemma DriverSplit<V>(path: seq<Form<V>>, sat: seq<Form<V>> -> bool, p: seq<Form<V>>)
    requires TopLevelOnly(path) && p in Survivors(Flat(path, |path|), sat)
    ensures Split(p)
  {
    hide Flat, Survivors, Picked, Split, TopLevelOnly, Chooses;
    DriverPaths(path, sat, p);
    var c :| Chooses(path, c) && p == PathOf(path, c);
    PickedSplit(path, c, Anything, AllOf([]), {});
  }

  lemma FirstPath<V>(v: V)
    ensures SomePath<V>([[]], v)
  {
    var ps: seq<seq<Form<V>>> := [[]];
    assert Path(ps[0], v);
  }

  lemma OnePart<V>(f: Form<V>, v: V)
    ensures Path([f], v) <==> Holds(f, v)
  {
    assert [f][0] == f;
  }

  lemma AnyMeans<V>(f: Form<V>, v: V)
    requires f.AnyOf?
    ensures Holds(f, v) <==> exists k | 0 <= k < |f.args| :: Holds(f.args[k], v)
  {
  }

  /** What `check_sat` may be trusted with: it refutes a path only if no valuation in range satisfies it. */
  ghost predicate Trusted<V(!new)>(sat: seq<Form<V>> -> bool, inRange: V -> bool) {
    forall p, v: V | !sat(p) && inRange(v) :: !Path(p, v)
  }

  /** The disjunction step: copies, then one block per disjunct. */
  method SplitOr<V>(flat: seq<seq<Form<V>>>, args: seq<Form<V>>, extra: seq<seq<Form<V>>>) returns (r: seq<seq<Form<V>>>)
    requires |args| == |extra| > 0
    ensures r == Blocks(flat, args, extra, |args|)
  {
    hide Parts, Copies, Extend;
    r := CopyPaths(flat, |args|);
    var at := 0;
    assert Blocks(flat, args, extra, 0) + Copies(flat, |args|) == Copies(flat, |args|);
    for d := 0 to |args|
      invariant r == Blocks(flat, args, extra, d) + Copies(flat, |args| - d) && at == |Blocks(flat, args, extra, d)|
    {
      NextBlock(flat, args, extra, d, |args|);
      r := ExtendBlock(r, at, |flat|, Parts(args[d]) + extra[d]);
      at := at + |flat|;
    }
    NoCopies(flat);
  }

  lemma NoCopies<V>(ps: seq<seq<Form<V>>>)
    ensures Copies(ps, 0) == []
  {
  }

  method PushAll<V>(flat: seq<seq<Form<V>>>, f: Form<V>) returns (r: seq<seq<Form<V>>>)
    ensures r == Extend(flat, [f])
  {
    r := ExtendBlock(flat, 0, |flat|, [f]);
    assert flat[..0] + Extend(flat[0..|flat|], [f]) + flat[|flat|..] == Extend(flat, [f]);
  }

  /** The driver's `flatten_path`: in every valuation in range (there: N > 1) the conjunction holds if and only if
      one of the surviving paths does. */
  method FlattenForDriver<V(!new)>(path: seq<Form<V>>, sat: seq<Form<V>> -> bool, ghost inRange: V -> bool) returns (flat: seq<seq<Form<V>>>)
    requires Proper(path) && Trusted(sat, inRange)
    ensures forall v: V | inRange(v) :: Path(path, v) <==> SomePath(flat, v)
    ensures flat == Survivors(Flat(path, |path|), sat)
    ensures forall k | 0 <= k < |flat| :: sat(flat[k]) && exists c | Chooses(path, c) :: flat[k] == PathOf(path, c)
    ensures forall c | Chooses(path, c) && sat(PathOf(path, c)) :: PathOf(path, c) in flat
    ensures TopLevelOnly(path) ==> forall k | 0 <= k < |flat| :: Split(flat[k])
  {
    hide Holds, Path, Blocks, Extend, Chooses, PathOf, TopLevelOnly, Split;
    flat := [[]];
    for k := 0 to |path|
      invariant flat == Flat(path, k)
    {
      if path[k].AnyOf? {
        flat := SplitOr(flat, path[k].args, NoExtra(path[k].args));
      } else {
        flat := PushAll(flat, path[k]);
      }
    }
    assert path[..|path|] == path;
    forall v: V ensures SomePath(flat, v) <==> Path(path, v) { FlatMeans(path, |path|, v); }
    flat := Prune(flat, sat, inRange);
    forall p | p in flat ensures sat(p) && (exists c | Chooses(path, c) :: p == PathOf(path, c)) && (TopLevelOnly(path) ==> Split(p)) {
      DriverPaths(path, sat, p);
      if TopLevelOnly(path) { DriverSplit(path, sat, p); }
    }
    forall c | Chooses(path, c) && sat(PathOf(path, c)) ensures PathOf(path, c) in flat { DriverPaths(path, sat, PathOf(path, c)); }
  }

  lemma OneMore<V>(all: seq<seq<Form<V>>>, sat: seq<Form<V>> -> bool, seen: nat)
    requires seen < |all|
    ensures Survivors(all[..seen + 1], sat) == Survivors(all[..seen], sat) + if sat(all[seen]) then [all[seen]] else []
  {
    assert all[..seen + 1][..seen] == all[..seen];
  }

  lemma NoSurvivor<V>(all: seq<seq<Form<V>>>, sat: seq<Form<V>> -> bool)
    ensures Survivors(all[..0], sat) == []
  {
  }

  /** The loop that erases the refuted paths in place. */
  method Prune<V(!new)>(all: seq<seq<Form<V>>>, sat: seq<Form<V>> -> bool, ghost inRange: V -> bool) returns (flat: seq<seq<Form<V>>>)
    requires Trusted(sat, inRange)
    ensures flat == Survivors(all, sat)
    ensures forall v: V | inRange(v) :: SomePath(all, v) <==> SomePath(flat, v)
  {
    hide Path, SomePath, Survivors;
    flat := all;
    var it := 0;
    ghost var seen := 0;
    NoSurvivor(all, sat);
    while it < |flat|
      invariant 0 <= it <= |flat| && 0 <= seen <= |all|
      invariant it == |Survivors(all[..seen], sat)| && flat == Survivors(all[..seen], sat) + all[seen..]
      invariant forall v: V | inRange(v) :: SomePath(all, v) <==> SomePath(flat, v)
      decreases |flat| - it
    {
      OneMore(all, sat, seen);
      assert flat[it] == all[seen];
      if !sat(flat[it]) {
        forall v: V | inRange(v) ensures SomePath(flat[..it] + flat[it + 1..], v) <==> SomePath(flat, v) { Erased(flat, it, v); }
        flat := flat[..it] + flat[it + 1..];
      } else {
        it := it + 1;
      }
      seen := seen + 1;
    }
    assert all[..|all|] == all;
  }

  lemma Erased<V>(ps: seq<seq<Form<V>>>, it: nat, v: V)
    requires it < |ps| && !Path(ps[it], v)
    ensures SomePath(ps[..it] + ps[it + 1..], v) <==> SomePath(ps, v)
  {
    hide Path;
    assert ps == ps[..it] + ([ps[it]] + ps[it + 1..]);
    SomeAppend(ps[..it], ps[it + 1..], v);
    SomeAppend(ps[..it], [ps[it]] + ps[it + 1..], v);
    SomeAppend([ps[it]], ps[it + 1..], v);
    assert !SomePath([ps[it]], v);
  }

  // ----- the solver's version -----

  /** Skipped positions hold paths that are false in every valuation in range. */
  ghost predicate SkipsDead<V(!new)>(flat: seq<seq<Form<V>>>, skip: set<nat>, inRange: V -> bool) {
    forall i, v: V | i in skip && inRange(v) :: i < |flat| && !Path(flat[i], v)
  }

  function Marks<V>(args: seq<Form<V>>, sat: Form<V> -> bool, positive: Form<V>): (r: seq<seq<Form<V>>>)
    ensures |r| == |args| && forall d | 0 <= d < |r| :: r[d] == Mark(args[d], sat, positive)
  {
    seq(|args|, d requires 0 <= d < |args| => Mark(args[d], sat, positive))
  }

  function PushBut<V>(ps: seq<seq<Form<V>>>, skip: set<nat>, f: Form<V>): (r: seq<seq<Form<V>>>)
    ensures |r| == |ps| && forall k: nat | k < |ps| :: r[k] == if k in skip then ps[k] else ps[k] + [f]
  {
    seq(|ps|, k requires 0 <= k < |ps| => if k in skip then ps[k] else ps[k] + [f])
  }

  /** The first positions of the blocks of refuted disjuncts. */
  function FirstOfRefuted<V>(args: seq<Form<V>>, sat: Form<V> -> bool, size: nat, n: nat): set<nat>
    requires n <= |args|
  {
    if n == 0 then {} else FirstOfRefuted(args, sat, size, n - 1) + if sat(args[n - 1]) then {} else {(n - 1) * size}
  }

  lemma {:induction false} RefutedIn<V>(args: seq<Form<V>>, sat: Form<V> -> bool, size: nat, n: nat, i: nat)
    requires n <= |args|
    ensures i in FirstOfRefuted(args, sat, size, n) <==> exists d: nat :: d < n && !sat(args[d]) && i == d * size
  {
    if n > 0 { RefutedIn(args, sat, size, n - 1, i); }
  }

  /** The positions skipped after the first `k` formulas. */
  function Skips<V>(path: seq<Form<V>>, k: nat, sat: Form<V> -> bool): set<nat>
    requires k <= |path|
  {
    if k == 0 then {}
    else if path[k - 1].AnyOf? then
      var args := path[k - 1].args;
      Skips(path, k - 1, sat) + FirstOfRefuted(args, sat, |Choices(path, k - 1)|, |args|)
    else Skips(path, k - 1, sat)
  }

  /** The paths after the first `k` formulas. */
  function Thin<V>(path: seq<Form<V>>, k: nat, sat: Form<V> -> bool, positive: Form<V>): seq<seq<Form<V>>>
    requires k <= |path|
  {
    if k == 0 then [[]]
    else
      var ps, f := Thin(path, k - 1, sat, positive), path[k - 1];
      if f.AnyOf? then Blocks(ps, f.args, Marks(f.args, sat, positive), |f.args|) else PushBut(ps, Skips(path, k - 1, sat), f)
  }

  lemma {:induction false} ThinSize<V>(path: seq<Form<V>>, k: nat, sat: Form<V> -> bool, positive: Form<V>)
    requires k <= |path|
    ensures |Choices(path, k)| == |Thin(path, k, sat, positive)|
  {
    if k > 0 {
      ThinSize(path, k - 1, sat, positive);
      var ps, f := Thin(path, k - 1, sat, positive), path[k - 1];
      ChoicesSize(Choices(path, k - 1), Options(f));
      if f.AnyOf? { BlocksSize(ps, f.args, Marks(f.args, sat, positive), |f.args|); }
    }
  }

  /** A formula that is no disjunction is pushed on every path that is not skipped. */
  method PushUnskipped<V>(flat: seq<seq<Form<V>>>, skip: set<nat>, f: Form<V>) returns (r: seq<seq<Form<V>>>)
    ensures r == PushBut(flat, skip, f)
  {
    r := flat;
    for i := 0 to |flat|
      invariant |r| == |flat| && forall k: nat | k < |flat| :: r[k] == if k in skip || k >= i then flat[k] else flat[k] + [f]
    {
      if i !in skip { r := r[i := r[i] + [f]]; }
    }
  }

  lemma PushedMeans<V(!new)>(flat: seq<seq<Form<V>>>, r: seq<seq<Form<V>>>, skip: set<nat>, f: Form<V>, inRange: V -> bool, v: V)
    requires SkipsDead(flat, skip, inRange) && inRange(v)
    requires |r| == |flat| && forall k: nat | k < |flat| :: r[k] == if k in skip then flat[k] else flat[k] + [f]
    ensures SomePath(r, v) <==> SomePath(flat, v) && Holds(f, v)
  {
    hide Holds, Path;
    OnePart(f, v);
    forall k: nat | k < |flat| ensures k !in skip ==> (Path(r[k], v) <==> Path(flat[k], v) && Holds(f, v)) { PathAppend(flat[k], [f], v); }
    if SomePath(flat, v) && Holds(f, v) {
      var k: nat :| k < |flat| && Path(flat[k], v);
      assert Path(r[k], v);
    }
  }

  /** The extra conjunct `N > 0` of a refuted disjunct's block. */
  method Refuted<V>(args: seq<Form<V>>, sat: Form<V> -> bool, positive: Form<V>) returns (extra: seq<seq<Form<V>>>)
    ensures extra == Marks(args, sat, positive)
  {
    extra := [];
    for d := 0 to |args|
      invariant |extra| == d && forall k | 0 <= k < d :: extra[k] == if sat(args[k]) then [] else [positive]
    {
      extra := extra + [if sat(args[d]) then [] else [positive]];
    }
  }

  /** The positions to skip from now on. */
  method Skipped<V>(args: seq<Form<V>>, sat: Form<V> -> bool, size: nat, skip: set<nat>) returns (r: set<nat>)
    ensures r == skip + FirstOfRefuted(args, sat, size, |args|)
  {
    r := skip;
    var access := 0;
    for d := 0 to |args|
      invariant access == d * size && r == skip + FirstOfRefuted(args, sat, size, d)
    {
      if !sat(args[d]) { r := r + {access}; }
      access := access + size;
    }
  }

  lemma {:induction false} BlockAt<V>(ps: seq<seq<Form<V>>>, args: seq<Form<V>>, extra: seq<seq<Form<V>>>, d: nat, e: nat, i: nat)
    requires e < d <= |args| == |extra| && i < |ps|
    ensures |Blocks(ps, args, extra, d)| == d * |ps| && e * |ps| + i < d * |ps|
    ensures Blocks(ps, args, extra, d)[e * |ps| + i] == ps[i] + (Parts(args[e]) + extra[e])
  {
    hide Parts;
    BlocksSize(ps, args, extra, d - 1);
    BlocksSize(ps, args, extra, d);
    var n := |ps|;
    assert d * n == (d - 1) * n + n;
    if e < d - 1 {
      BlockAt(ps, args, extra, d - 1, e, i);
    }
  }

  lemma {:induction false} BlocksSize<V>(ps: seq<seq<Form<V>>>, args: seq<Form<V>>, extra: seq<seq<Form<V>>>, d: nat)
    requires d <= |args| == |extra|
    ensures |Blocks(ps, args, extra, d)| == d * |ps|
  {
    hide Parts;
    if d > 0 {
      BlocksSize(ps, args, extra, d - 1);
      var n := |ps|;
      assert d * n == (d - 1) * n + n;
    }
  }

  ghost predicate TrustedOne<V(!new)>(sat: Form<V> -> bool, inRange: V -> bool) {
    forall f, v: V | !sat(f) && inRange(v) :: !Holds(f, v)
  }

  /** After the disjunction the skipped positions are still dead: old ones lie in the first block, new ones hold a
      refuted disjunct. */
  lemma StillDead<V(!new)>(ps: seq<seq<Form<V>>>, args: seq<Form<V>>, extra: seq<seq<Form<V>>>, sat: Form<V> -> bool, skip: set<nat>, skip': set<nat>, inRange: V -> bool)
    requires |args| == |extra| > 0 && |ps| > 0 && SkipsDead(ps, skip, inRange) && TrustedOne(sat, inRange)
    requires skip' == skip + FirstOfRefuted(args, sat, |ps|, |args|)
    ensures SkipsDead(Blocks(ps, args, extra, |args|), skip', inRange)
  {
    hide Holds, Path, Blocks, Parts, FirstOfRefuted;
    forall i: nat, v: V | i in skip' && inRange(v) ensures i < |Blocks(ps, args, extra, |args|)| && !Path(Blocks(ps, args, extra, |args|)[i], v) {
      if i in skip {
        BlockAt(ps, args, extra, |args|, 0, i);
        PathAppend(ps[i], Parts(args[0]) + extra[0], v);
      } else {
        RefutedIn(args, sat, |ps|, |args|, i);
        var d: nat :| d < |args| && !sat(args[d]) && i == d * |ps|;
        BlockAt(ps, args, extra, |args|, d, 0);
        PathAppend(ps[0], Parts(args[d]) + extra[d], v);
        PathAppend(Parts(args[d]), extra[d], v);
        PartsMean(args[d], v);
      }
    }
  }

  /** Position `m` holds the path of choice `m`, without some formulas if the choice takes a refuted disjunct; and the
      skipped positions belong to such choices. */
  lemma {:induction false} ThinPicked<V>(path: seq<Form<V>>, k: nat, sat: Form<V> -> bool, positive: Form<V>, m: nat) returns (dropped: set<nat>)
    requires k <= |path| && m < |Choices(path, k)|
    ensures m < |Thin(path, k, sat, positive)| && Chooses(path[..k], Choices(path, k)[m])
    ensures DropsDead(path[..k], Choices(path, k)[m], sat, dropped)
    ensures Thin(path, k, sat, positive)[m] == Picked(path[..k], Choices(path, k)[m], sat, positive, dropped)
    ensures m in Skips(path, k, sat) ==> SomeRefuted(path[..k], Choices(path, k)[m], sat)
  {
    hide Blocks, Parts, ChoiceBlocks, Chooses, Picked, FirstOfRefuted, DropsDead, SomeRefuted, Mark;
    ThinSize(path, k, sat, positive);
    if k == 0 {
      dropped := {};
      NoPicks(path, sat, positive, dropped);
      NoDrops(path[..0], [], sat);
    } else {
      var ps, cs, f := Thin(path, k - 1, sat, positive), Choices(path, k - 1), path[k - 1];
      ThinSize(path, k - 1, sat, positive);
      if f.AnyOf? {
        var i, e := BlockPick(ps, cs, f.args, Marks(f.args, sat, positive), |f.args|, m);
        dropped := ThinPicked(path, k - 1, sat, positive, i);
        PickedMore(path, k - 1, cs[i], e, sat, positive, dropped);
        DropsMore(path, k - 1, cs[i], e, sat, dropped);
        SkippedBlock(path, k, sat, i, e, m);
      } else {
        OneBlock(cs);
        dropped := ThinPicked(path, k - 1, sat, positive, m);
        DropsMore(path, k - 1, cs[m], 0, sat, dropped);
        if m in Skips(path, k - 1, sat) {
          PickedSame(path[..k - 1], cs[m], sat, positive, dropped, dropped + {k - 1});
          dropped := dropped + {k - 1};
        } else {
          DropsBelow(path[..k - 1], cs[m], sat, dropped);
        }
        PickedMore(path, k - 1, cs[m], 0, sat, positive, dropped);
      }
    }
  }

  /** A skipped position behind a disjunction was skipped before and lies in the first block, or it is the first
      position of a refuted disjunct's block. */
  lemma SkippedBlock<V>(path: seq<Form<V>>, k: nat, sat: Form<V> -> bool, i: nat, e: nat, m: nat)
    requires 0 < k <= |path| && path[k - 1].AnyOf? && i < |Choices(path, k - 1)| && e < |path[k - 1].args| && m == e * |Choices(path, k - 1)| + i
    ensures m in Skips(path, k, sat) ==> (e == 0 && i in Skips(path, k - 1, sat)) || !sat(path[k - 1].args[e])
  {
    hide FirstOfRefuted, Choices;
    var args, size := path[k - 1].args, |Choices(path, k - 1)|;
    if m in Skips(path, k - 1, sat) {
      SkipsBelow(path, k - 1, sat, m);
      SameBlock(size, e, i, 0, m);
    } else if m in Skips(path, k, sat) {
      RefutedIn(args, sat, size, |args|, m);
      var d: nat :| d < |args| && !sat(args[d]) && m == d * size;
      SameBlock(size, e, i, d, 0);
    }
  }

  lemma RefutedPrefix<V>(path: seq<Form<V>>, c: seq<nat>, sat: Form<V> -> bool, k: nat)
    requires Chooses(path, c) && k <= |path| && SomeRefuted(path[..k], c[..k], sat)
    ensures SomeRefuted(path, c, sat)
  {
    var j :| 0 <= j < k && path[..k][j].AnyOf? && !sat(path[..k][j].args[c[..k][j]]);
    assert path[j].AnyOf? && !sat(path[j].args[c[j]]);
  }

  lemma {:induction false} PickedPlain<V>(path: seq<Form<V>>, c: seq<nat>, sat: Form<V> -> bool, positive: Form<V>)
    requires Chooses(path, c) && !SomeRefuted(path, c, sat)
    ensures Picked(path, c, sat, positive, {}) == PathOf(path, c)
  {
    hide Parts;
    if path != [] {
      var k := |path| - 1;
      if SomeRefuted(path[..k], c[..k], sat) { RefutedPrefix(path, c, sat, k); }
      PickedPlain(path[..k], c[..k], sat, positive);
    }
  }

  lemma NothingDropped<V>(path: seq<Form<V>>, c: seq<nat>, sat: Form<V> -> bool, dropped: set<nat>)
    requires Chooses(path, c) && !SomeRefuted(path, c, sat) && DropsDead(path, c, sat, dropped)
    ensures dropped == {}
  {
    hide SomeRefuted, Chooses;
    forall k | k in dropped ensures false { RefutedPrefix(path, c, sat, k); }
  }

  /** ONE PATH FOR EVERY CHOICE in the solver's version: whole unless a refuted disjunct is chosen, and then marked and
      perhaps without some of the formulas behind it. */
  lemma SolverPaths<V(!new)>(path: seq<Form<V>>, sat: Form<V> -> bool, positive: Form<V>, m: nat)
    requires m < |Choices(path, |path|)|
    ensures |Thin(path, |path|, sat, positive)| == |Choices(path, |path|)|
    ensures var c, p := Choices(path, |path|)[m], Thin(path, |path|, sat, positive)[m];
            && Thinned(path, c, sat, positive, p) && (!SomeRefuted(path, c, sat) ==> p == PathOf(path, c))
            && (TopLevelOnly(path) && !positive.AnyOf? ==> Split(p))
  {
    hide Thin, Choices, Chooses, Picked, PathOf, DropsDead, SomeRefuted, TopLevelOnly, Split;
    var n := |path|;
    assert path[..n] == path;
    ThinSize(path, n, sat, positive);
    var c := Choices(path, n)[m];
    var dropped := ThinPicked(path, n, sat, positive, m);
    if !SomeRefuted(path, c, sat) {
      NothingDropped(path, c, sat, dropped);
      PickedPlain(path, c, sat, positive);
    }
    if TopLevelOnly(path) && !positive.AnyOf? { PickedSplit(path, c, sat, positive, dropped); }
  }

  lemma SolverPathsAll<V(!new)>(path: seq<Form<V>>, sat: Form<V> -> bool, positive: Form<V>)
    ensures var flat := Thin(path, |path|, sat, positive);
            && |flat| == |Choices(path, |path|)|
            && (forall m | 0 <= m < |flat| :: Thinned(path, Choices(path, |path|)[m], sat, positive, flat[m]))
            && (forall c | Chooses(path, c) && !SomeRefuted(path, c, sat) :: PathOf(path, c) in flat)
            && (TopLevelOnly(path) && !positive.AnyOf? ==> forall m | 0 <= m < |flat| :: Split(flat[m]))
  {
    hide Thin, Choices, Chooses, Picked, PathOf, SomeRefuted, TopLevelOnly, Split, Thinned;
    var n, flat := |path|, Thin(path, |path|, sat, positive);
    assert path[..n] == path;
    ThinSize(path, n, sat, positive);
    forall m: nat | m < |flat|
      ensures Thinned(path, Choices(path, n)[m], sat, positive, flat[m]) && (TopLevelOnly(path) && !positive.AnyOf? ==> Split(flat[m]))
    {
      SolverPaths(path, sat, positive, m);
    }
    forall c | Chooses(path, c) && !SomeRefuted(path, c, sat) ensures PathOf(path, c) in flat {
      AllChoices(path, n, c);
      var m: nat :| m < |Choices(path, n)| && Choices(path, n)[m] == c;
      SolverPaths(path, sat, positive, m);
    }
  }

  lemma SameBlock(size: nat, e: nat, i: nat, d: nat, j: nat)
    requires i < size && j < size && e * size + i == d * size + j
    ensures e == d && i == j
  {
    if e < d { Apart(size, d, e); }
    if d < e { Apart(size, e, d); }
  }

  lemma Apart(size: nat, d: nat, e: nat)
    requires e < d
    ensures d * size >= e * size + size
  {
    var gap: nat := d - e - 1;
    assert d * size == (e + 1 + gap) * size == e * size + size + gap * size;
  }

  lemma {:induction false} SkipsBelow<V>(path: seq<Form<V>>, k: nat, sat: Form<V> -> bool, m: nat)
    requires k <= |path| && m in Skips(path, k, sat) && |Choices(path, k)| > 0
    ensures m < |Choices(path, k)|
  {
    hide FirstOfRefuted, ChoiceBlocks;
    var cs, f := Choices(path, k - 1), path[k - 1];
    var n, size := Options(f), |cs|;
    ChoicesSize(cs, n);
    assert n > 0 && size > 0;
    assert n * size == (n - 1) * size + size;
    if m in Skips(path, k - 1, sat) {
      SkipsBelow(path, k - 1, sat, m);
    } else {
      RefutedIn(f.args, sat, size, n, m);
      var d: nat :| d < n && !sat(f.args[d]) && m == d * size;
      assert (n - d) * size == n * size - d * size;
    }
  }

  lemma NoDrops<V>(path: seq<Form<V>>, c: seq<nat>, sat: Form<V> -> bool)
    requires Chooses(path, c)
    ensures DropsDead(path, c, sat, {})
  {
  }

  lemma DropsBelow<V>(path: seq<Form<V>>, c: seq<nat>, sat: Form<V> -> bool, dropped: set<nat>)
    requires Chooses(path, c) && DropsDead(path, c, sat, dropped)
    ensures |path| !in dropped
  {
    hide SomeRefuted;
  }

  lemma RefutedMore<V>(path: seq<Form<V>>, k: nat, c: seq<nat>, e: nat, sat: Form<V> -> bool)
    requires k < |path| && Chooses(path[..k], c) && e < Options(path[k])
    ensures Chooses(path[..k + 1], c + [e])
    ensures SomeRefuted(path[..k + 1], c + [e], sat) <==> SomeRefuted(path[..k], c, sat) || (path[k].AnyOf? && !sat(path[k].args[e]))
  {
    ChoosesMore(path, k, c, e);
    var p, d := path[..k + 1], c + [e];
    assert forall j | 0 <= j < k :: p[j] == path[..k][j] && d[j] == c[j];
    assert p[k] == path[k] && d[k] == e;
  }

  lemma DropsMore<V>(path: seq<Form<V>>, k: nat, c: seq<nat>, e: nat, sat: Form<V> -> bool, dropped: set<nat>)
    requires k < |path| && Chooses(path[..k], c) && e < Options(path[k]) && DropsDead(path[..k], c, sat, dropped)
    ensures Chooses(path[..k + 1], c + [e]) && DropsDead(path[..k + 1], c + [e], sat, dropped)
    ensures SomeRefuted(path[..k + 1], c + [e], sat) <==> SomeRefuted(path[..k], c, sat) || (path[k].AnyOf? && !sat(path[k].args[e]))
    ensures SomeRefuted(path[..k], c, sat) ==> DropsDead(path[..k + 1], c + [e], sat, dropped + {k})
  {
    hide SomeRefuted, Chooses, Options;
    RefutedMore(path, k, c, e, sat);
    ChoosesLength(path[..k], c);
    assert path[..k + 1][..k] == path[..k] && (c + [e])[..k] == c;
    forall j | j in dropped ensures j < k && path[..k + 1][..j] == path[..k][..j] && (c + [e])[..j] == c[..j] {}
  }

  /** Only the positions on the path matter. */
  lemma {:induction false} PickedSame<V>(path: seq<Form<V>>, c: seq<nat>, sat: Form<V> -> bool, positive: Form<V>, a: set<nat>, b: set<nat>)
    requires Chooses(path, c) && forall k: nat | k < |path| :: k in a <==> k in b
    ensures Picked(path, c, sat, positive, a) == Picked(path, c, sat, positive, b)
  {
    if path != [] { PickedSame(path[..|path| - 1], c[..|path| - 1], sat, positive, a, b); }
  }

  /** The solver's `flatten_path`: in every valuation with N > 0 the conjunction holds if and only if one of the paths
      does, although the skipped paths miss later conjuncts; and there is one path for every choice of disjuncts. */
  method FlattenForSolver<V(!new)>(path: seq<Form<V>>, sat: Form<V> -> bool, positive: Form<V>, ghost inRange: V -> bool) returns (flat: seq<seq<Form<V>>>)
    requires Proper(path) && TrustedOne(sat, inRange) && forall v: V | inRange(v) :: Holds(positive, v)
    ensures forall v: V | inRange(v) :: Path(path, v) <==> SomePath(flat, v)
    ensures flat == Thin(path, |path|, sat, positive)
    ensures |flat| == |Choices(path, |path|)| && forall m | 0 <= m < |flat| :: Thinned(path, Choices(path, |path|)[m], sat, positive, flat[m])
    ensures forall c | Chooses(path, c) && !SomeRefuted(path, c, sat) :: PathOf(path, c) in flat
    ensures TopLevelOnly(path) && !positive.AnyOf? ==> forall m | 0 <= m < |flat| :: Split(flat[m])
  {
    hide Holds, Path, Blocks, SomePath, SkipsDead, Choices, FirstOfRefuted, Chooses, SomeRefuted, PathOf, Split, TopLevelOnly, Thinned;
    flat := [[]];
    var skip: set<nat> := {};
    NothingSkipped(flat, inRange);
    forall v: V ensures SomePath(flat, v) && Path(path[..0], v) { FirstPath<V>(v); EmptyPath<V>(v); }
    for k := 0 to |path|
      invariant flat == Thin(path, k, sat, positive) && skip == Skips(path, k, sat)
      invariant |flat| > 0 && SkipsDead(flat, skip, inRange)
      invariant forall v: V | inRange(v) :: Path(path[..k], v) <==> SomePath(flat, v)
    {
      ghost var before := flat;
      forall v: V ensures Path(path[..k + 1], v) <==> Path(path[..k], v) && Holds(path[k], v) { OneLonger(path, k, v); }
      if path[k].AnyOf? {
        var args := path[k].args;
        ThinSize(path, k, sat, positive);
        var extra := Refuted(args, sat, positive);
        var skip' := Skipped(args, sat, |flat|, skip);
        StillDead(flat, args, extra, sat, skip, skip', inRange);
        flat := SplitOr(flat, args, extra);
        BlocksSize(before, args, extra, |args|);
        assert |args| * |before| > 0;
        forall v: V | inRange(v) ensures SomePath(flat, v) <==> SomePath(before, v) && Holds(path[k], v) {
          ExtrasHold(args, extra, positive, v);
          BlocksMean(before, args, extra, |args|, v);
          AnyMeans(path[k], v);
        }
        skip := skip';
      } else {
        flat := PushUnskipped(flat, skip, path[k]);
        forall v: V | inRange(v) ensures SomePath(flat, v) <==> SomePath(before, v) && Holds(path[k], v) {
          PushedMeans(before, flat, skip, path[k], inRange, v);
        }
        PushedDead(before, flat, skip, path[k], inRange);
      }
    }
    assert path[..|path|] == path;
    SolverPathsAll(path, sat, positive);
  }

  lemma NothingSkipped<V(!new)>(flat: seq<seq<Form<V>>>, inRange: V -> bool)
    ensures SkipsDead(flat, {}, inRange)
  {
  }

  lemma EmptyPath<V>(v: V)
    ensures Path<V>([], v)
  {
  }

  lemma OneLonger<V>(path: seq<Form<V>>, k: nat, v: V)
    requires k < |path|
    ensures Path(path[..k + 1], v) <==> Path(path[..k], v) && Holds(path[k], v)
  {
    hide Holds, Path;
    assert path[..k + 1] == path[..k] + [path[k]];
    PathAppend(path[..k], [path[k]], v);
    OnePart(path[k], v);
  }

  lemma ExtrasHold<V>(args: seq<Form<V>>, extra: seq<seq<Form<V>>>, positive: Form<V>, v: V)
    requires |extra| == |args| && (forall d | 0 <= d < |args| :: extra[d] == [] || extra[d] == [positive]) && Holds(positive, v)
    ensures forall d | 0 <= d < |args| :: Path(extra[d], v)
  {
    hide Holds;
  }

  lemma PushedDead<V(!new)>(flat: seq<seq<Form<V>>>, r: seq<seq<Form<V>>>, skip: set<nat>, f: Form<V>, inRange: V -> bool)
    requires SkipsDead(flat, skip, inRange)
    requires |r| == |flat| && forall k: nat | k < |flat| :: r[k] == if k in skip then flat[k] else flat[k] + [f]
    ensures SkipsDead(r, skip, inRange)
  {
    hide Path;
  }
}
