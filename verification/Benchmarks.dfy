/** Nested-loop benchmarks, in place on arrays, with the closed forms they assert. */
module Benchmarks {

  /** nested-nlj1.c: `a[j] += i + 1` for `j <= i`, a triangular loop whose addend grows with the outer counter. */
  method WeightedTriangle(a: array<int>)
    modifies a
    ensures forall k | 0 <= k < a.Length :: a[k] == (a.Length * (a.Length + 1) - k * (k + 1)) / 2
  {
    var n := a.Length;
    for i := 0 to n
      invariant forall k | 0 <= k < i :: a[k] == 0
    {
      a[i] := 0;
    }
    for i := 0 to n
      invariant forall k | 0 <= k < n :: 2 * a[k] == if k < i then i * (i + 1) - k * (k + 1) else 0
    {
      for j := 0 to i + 1
        invariant forall k | 0 <= k < n ::
                    2 * a[k] == (if k < i then i * (i + 1) - k * (k + 1) else 0) + if k < j then 2 * (i + 1) else 0
      {
        a[j] := a[j] + (i + 1);
      }
      NextTriangle(i);
    }
    forall k | 0 <= k < n ensures a[k] == (n * (n + 1) - k * (k + 1)) / 2 { assert 2 * a[k] == n * (n + 1) - k * (k + 1); }
  }

  lemma NextTriangle(i: nat)
    ensures i * (i + 1) + 2 * (i + 1) == (i + 1) * (i + 2)
  {
  }

  /** nested-unb1.c: `b[j] += a[j]` for `j <= i` leaves `(N - k) * a[k] + 1`. */
  method ColumnOfTerms(a: array<int>, b: array<int>)
    requires a != b && a.Length == b.Length
    modifies b
    ensures forall k | 0 <= k < b.Length :: b[k] == (b.Length - k) * a[k] + 1
  {
    var n := b.Length;
    for i := 0 to n
      invariant forall k | 0 <= k < i :: b[k] == 1
    {
      b[i] := 1;
    }
    for i := 0 to n
      invariant forall k | 0 <= k < n :: b[k] == 1 + Count(i, k) * a[k]
    {
      for j := 0 to i + 1
        invariant forall k | 0 <= k < n :: b[k] == 1 + (Count(i, k) + if k < j then 1 else 0) * a[k]
      {
        OneMore(Count(i, j), a[j]);
        b[j] := b[j] + a[j];
      }
    }
  }

  /** Outer iterations below `i` whose inner loop visits cell `k`. */
  function Count(i: int, k: int): int { if k < i then i - k else 0 }

  lemma OneMore(c: int, x: int)
    ensures (c + 1) * x == c * x + x
  {
  }

  /** nested-as1.c: an inner loop of ones and a trailing update by a sum computed before. */
  method RowWithTrailingUpdate(a: array<int>, b: array<int>)
    requires a != b && a.Length == b.Length
    modifies a, b
    ensures forall k | 0 <= k < b.Length :: b[k] == 2 * b.Length
  {
    var n := b.Length;
    for i := 0 to n
      invariant forall k | 0 <= k < i :: a[k] == 1
    {
      a[i] := 1;
    }
    for i := 0 to n
      invariant forall k | 0 <= k < i :: b[k] == 0
      invariant forall k | 0 <= k < n :: a[k] == 1
    {
      b[i] := 0;
    }
    var sum := 0;
    for i := 0 to n
      invariant sum == i
    {
      sum := sum + a[i];
    }
    for i := 0 to n
      invariant forall k | 0 <= k < n :: b[k] == if k < i then 2 * n else 0
    {
      for j := 0 to n
        invariant forall k | 0 <= k < n :: b[k] == if k < i then 2 * n else if k == i then j else 0
      {
        b[i] := b[i] + 1;
      }
      b[i] := b[i] + sum;
    }
  }
}
