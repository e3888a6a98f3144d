/** Shapes shared by every module: an optional value, bytes, rounding, and the counting argument behind each
    loop-finding walk in the program. */
module Common {

  datatype Option<+T> = None | Some(value: T)

  type Byte = x: int | 0 <= x < 256

  function Min(a: int, b: int): int { if a < b then a else b }

  function Max(a: int, b: int): int { if a > b then a else b }

  /** The nearest integer, halves away from zero. */
  function Round(x: real): int { if x >= 0.0 then (x + 0.5).Floor else -(-x + 0.5).Floor }

  /** Go's conversion of a float to an integer drops the fraction, toward zero. */
  function Truncate(x: real): int { if x >= 0.0 then x.Floor else -(-x).Floor }

  /** A scope left empty is stored as the one above it. */
  function ScopeOrInherit(scope: string): string { if scope == "" then "inherit" else scope }

  /** More steps than places to stand: some place is visited twice. */
  lemma {:induction false} Pigeonhole<T>(walk: seq<T>, places: set<T>)
    requires forall i | 0 <= i < |walk| :: walk[i] in places
    requires |walk| > |places|
    ensures exists i, j :: 0 <= i < j < |walk| && walk[i] == walk[j]
    decreases |walk|
  {
    var n := |walk| - 1;
    if i :| 0 <= i < n && walk[i] == walk[n] {
    } else {
      var rest := places - {walk[n]};
      Pigeonhole(walk[..n], rest);
      var i, j :| 0 <= i < j < n && walk[..n][i] == walk[..n][j];
      assert walk[i] == walk[j];
    }
  }

  lemma AnElement<T>(s: set<T>) returns (x: T)
    requires s != {}
    ensures x in s
  {
    x :| x in s;
  }

  predicate Increasing(s: seq<int>)
  {
    forall i, j | 0 <= i < j < |s| :: s[i] < s[j]
  }

  ghost predicate IsLeast(x: int, ids: set<int>)
  {
    x in ids && forall y | y in ids :: x <= y
  }

  lemma {:induction false} SomeLeast(ids: set<int>) returns (least: int)
    requires ids != {}
    ensures IsLeast(least, ids)
    decreases |ids|
  {
    var first := AnElement(ids);
    var rest := ids - {first};
    least := first;
    if rest != {} {
      var other := SomeLeast(rest);
      if other < first {
        least := other;
      }
    }
    forall y | y in ids ensures least <= y {
      assert y == first || y in rest;
    }
  }

  method SortedIds(ids: set<int>) returns (sorted: seq<int>)
    ensures Increasing(sorted) && |sorted| == |ids|
    ensures forall id :: id in sorted <==> id in ids
    ensures forall k | 0 <= k < |sorted| :: sorted[k] in ids
  {
    sorted := [];
    var left := ids;
    while left != {}
      invariant left <= ids && |sorted| + |left| == |ids|
      invariant Increasing(sorted) && forall k | 0 <= k < |sorted| :: sorted[k] in ids
      invariant forall id :: id in ids <==> id in sorted || id in left
      invariant forall i, y | 0 <= i < |sorted| && y in left :: sorted[i] < y
      decreases left
    {
      ghost var least := SomeLeast(left);
      assert IsLeast(least, left);
      var x :| x in left && forall y | y in left :: x <= y;
      left, sorted := left - {x}, sorted + [x];
    }
  }
}
