/** Levenshtein distance with an equal-strings fast path and an early exit at a threshold. */
module EditDistance {

  function Min3(x: int, y: int, z: int): int
  {
    if x <= y && x <= z then x else if y <= z then y else z
  }

  /** Levenshtein distance (unit insert, delete and substitute costs) of `a[..i]` and `b[..j]`. */
  function Lev(a: string, b: string, i: int, j: int): int
    requires 0 <= i <= |a| && 0 <= j <= |b|
  {
    if i == 0 then j
    else if j == 0 then i
    else Min3(Lev(a, b, i - 1, j) + 1, Lev(a, b, i, j - 1) + 1,
              Lev(a, b, i - 1, j - 1) + (if a[i - 1] == b[j - 1] then 0 else 1))
  }

  /** Levenshtein distance of two whole strings. */
  function Distance(a: string, b: string): nat
  {
    LevNonNegative(a, b, |a|, |b|);
    Lev(a, b, |a|, |b|)
  }

  /** No distance is negative. */
  lemma {:induction false} LevNonNegative(a: string, b: string, i: nat, j: nat)
    requires i <= |a| && j <= |b|
    ensures Lev(a, b, i, j) >= 0
  {
    if i > 0 && j > 0 {
      LevNonNegative(a, b, i - 1, j);
      LevNonNegative(a, b, i, j - 1);
      LevNonNegative(a, b, i - 1, j - 1);
    }
  }

  /**
    What the table fill returns when it is at inner cell `(i, j)`: the first inner cell, in
    row-major order, whose value reaches `t`, or else the bottom-right corner of the table.
   */
  function ScanCells(a: string, b: string, t: int, i: nat, j: nat): int
    requires 1 <= i && 1 <= j <= |b| + 1
    decreases |a| + 1 - i, |b| + 1 - j
  {
    if i > |a| then Lev(a, b, |a|, |b|)
    else if j > |b| then ScanCells(a, b, t, i + 1, 1)
    else if Lev(a, b, i, j) >= t then Lev(a, b, i, j)
    else ScanCells(a, b, t, i, j + 1)
  }

  /** The value `edit_distance(a, b, t)` returns. */
  function Bounded(a: string, b: string, t: int): int
  {
    if a == b then 0 else ScanCells(a, b, t, 1, 1)
  }

  /** The rows of `distances` before row `i` and its first column hold the exact distances. */
  ghost predicate Filled(a: string, b: string, distances: array2<int>, i: nat)
    reads distances
    requires distances.Length0 == |a| + 1 && distances.Length1 == |b| + 1 && i <= |a| + 1
  {
    && (forall i' :: 0 <= i' <= |a| ==> distances[i', 0] == i')
    && (forall i', j' {:trigger distances[i', j']} :: 0 <= i' < i && 0 <= j' <= |b| ==> distances[i', j'] == Lev(a, b, i', j'))
  }

  /** One pass of the inner loop: fills row `i`, or stops at the first cell that reaches the threshold. */
  method FillRow(a: string, b: string, threshold: int, distances: array2<int>, i: nat)
      returns (exit: bool, d: int)
    requires distances.Length0 == |a| + 1 && distances.Length1 == |b| + 1 && 1 <= i <= |a|
    requires Filled(a, b, distances, i)
    modifies distances
    ensures exit ==> d == ScanCells(a, b, threshold, i, 1)
    ensures !exit ==> Filled(a, b, distances, i + 1)
                      && ScanCells(a, b, threshold, i, 1) == ScanCells(a, b, threshold, i + 1, 1)
  {
    for j := 1 to |b| + 1
      invariant Filled(a, b, distances, i)
      invariant forall j' {:trigger distances[i, j']} :: 0 <= j' < j ==> distances[i, j'] == Lev(a, b, i, j')
      invariant ScanCells(a, b, threshold, i, 1) == ScanCells(a, b, threshold, i, j)
    {
      var cij := if a[i - 1] == b[j - 1] then 0 else 1;
      var d := Min3(distances[i - 1, j] + 1, distances[i, j - 1] + 1, distances[i - 1, j - 1] + cij);
      assert d == Lev(a, b, i, j);
      if d >= threshold {
        return true, d;
      }
      distances[i, j] := d;
    }
    return false, 0;
  }

  /** `edit_distance`: fills the distance table row by row and returns early at the threshold. */
  method EditDistance(a: string, b: string, threshold: int) returns (d: int)
    ensures d == Bounded(a, b, threshold)
  {
    if a == b {
      return 0;
    }
    var m, n := |a|, |b|;
    var distances := new int[m + 1, n + 1]((i, j) => threshold);
    for i := 0 to m + 1
      invariant forall i' :: 0 <= i' < i ==> distances[i', 0] == i'
    {
      distances[i, 0] := i;
    }
    for j := 0 to n + 1
      invariant forall i' :: 0 <= i' <= m ==> distances[i', 0] == i'
      invariant forall j' :: 0 <= j' < j ==> distances[0, j'] == j'
    {
      distances[0, j] := j;
    }
    for i := 1 to m + 1
      invariant Filled(a, b, distances, i)
      invariant Bounded(a, b, threshold) == ScanCells(a, b, threshold, i, 1)
    {
      var exit, v := FillRow(a, b, threshold, distances, i);
      if exit {
        return v;
      }
    }
    return distances[m, n];
  }

  // ---------------------------------------------------------------- properties

  /** A scan returns either an exact distance or an early value at or above the threshold. */
  lemma {:induction false} ScanCellsExactBelow(a: string, b: string, t: int, i: nat, j: nat)
    requires 1 <= i && 1 <= j <= |b| + 1
    ensures ScanCells(a, b, t, i, j) == Distance(a, b) || ScanCells(a, b, t, i, j) >= t
    ensures ScanCells(a, b, t, i, j) >= 0
    decreases |a| + 1 - i, |b| + 1 - j
  {
    if i > |a| {
    } else if j > |b| {
      ScanCellsExactBelow(a, b, t, i + 1, 1);
    } else if Lev(a, b, i, j) >= t {
      LevNonNegative(a, b, i, j);
    } else {
      ScanCellsExactBelow(a, b, t, i, j + 1);
    }
  }

  /** When no inner cell from `(i, j)` on reaches the threshold, the scan is exact. */
  lemma {:induction false} ScanCellsNoExit(a: string, b: string, t: int, i: nat, j: nat)
    requires 1 <= i && 1 <= j <= |b| + 1
    requires forall p, q :: 1 <= p <= |a| && 1 <= q <= |b| ==> Lev(a, b, p, q) < t
    ensures ScanCells(a, b, t, i, j) == Distance(a, b)
    decreases |a| + 1 - i, |b| + 1 - j
  {
    if i > |a| {
    } else if j > |b| {
      ScanCellsNoExit(a, b, t, i + 1, 1);
    } else {
      ScanCellsNoExit(a, b, t, i, j + 1);
    }
  }

  /** With no inner column the rows are skipped and the corner is returned. */
  lemma {:induction false} ScanCellsNoColumns(a: string, b: string, t: int, i: nat)
    requires |b| == 0 && 1 <= i
    ensures ScanCells(a, b, t, i, 1) == |a|
    decreases |a| + 1 - i
  {
    if i <= |a| {
      ScanCellsNoColumns(a, b, t, i + 1);
    }
  }

  lemma {:induction false} LevSymmetric(a: string, b: string, i: nat, j: nat)
    requires i <= |a| && j <= |b|
    ensures Lev(a, b, i, j) == Lev(b, a, j, i)
  {
    if i > 0 && j > 0 {
      LevSymmetric(a, b, i - 1, j);
      LevSymmetric(a, b, i, j - 1);
      LevSymmetric(a, b, i - 1, j - 1);
      var x, y, z := Lev(a, b, i - 1, j), Lev(a, b, i, j - 1), Lev(a, b, i - 1, j - 1);
      var c := if a[i - 1] == b[j - 1] then 0 else 1;
      assert Lev(a, b, i, j) == Min3(x + 1, y + 1, z + c);
      assert Lev(b, a, j, i) == Min3(y + 1, x + 1, z + c);
      Min3Swap(x + 1, y + 1, z + c);
    }
  }

  lemma Min3Swap(x: int, y: int, z: int)
    ensures Min3(x, y, z) == Min3(y, x, z)
  {
  }

  lemma {:induction false} LevSame(a: string, i: nat)
    requires i <= |a|
    ensures Lev(a, a, i, i) == 0
  {
    if i > 0 {
      LevSame(a, i - 1);
      LevNonNegative(a, a, i - 1, i);
      LevNonNegative(a, a, i, i - 1);
    }
  }

  /** Every cell is at most the sum of the two prefix lengths. */
  lemma {:induction false} LevBound(a: string, b: string, i: nat, j: nat)
    requires i <= |a| && j <= |b|
    ensures Lev(a, b, i, j) <= i + j
  {
    if i > 0 && j > 0 {
      LevBound(a, b, i - 1, j);
    }
  }

  /** A threshold above the two lengths together is never reached, so the result is exact. */
  lemma ShortIsExact(a: string, b: string, t: int)
    requires |a| + |b| < t
    ensures Bounded(a, b, t) == Distance(a, b) < t
  {
    forall p, q | 1 <= p <= |a| && 1 <= q <= |b|
      ensures Lev(a, b, p, q) < t
    {
      LevBound(a, b, p, q);
    }
    BoundedWithoutExit(a, b, t);
    LevBound(a, b, |a|, |b|);
  }

  /** The distance is a symmetric and non-negative measure that is zero on equal strings. */
  lemma DistanceProperties(a: string, b: string)
    ensures Distance(a, b) == Distance(b, a)
    ensures Distance(a, a) == 0
  {
    LevSymmetric(a, b, |a|, |b|);
    LevSame(a, |a|);
  }

  /**
    The contract of the early exit: equal strings give 0 whatever the threshold; any result
    below the threshold is the exact distance; and a result that is not exact is at or above
    the threshold (the function returns early only with such a value).
   */
  lemma BoundedContract(a: string, b: string, t: int)
    ensures a == b ==> Bounded(a, b, t) == 0
    ensures Bounded(a, b, t) >= 0
    ensures Bounded(a, b, t) < t ==> Bounded(a, b, t) == Distance(a, b)
    ensures Bounded(a, b, t) != Distance(a, b) ==> Bounded(a, b, t) >= t
  {
    LevSame(a, |a|);
    if a != b {
      ScanCellsExactBelow(a, b, t, 1, 1);
    }
  }

  /** If no inner cell reaches the threshold, the result is the Levenshtein distance. */
  lemma BoundedWithoutExit(a: string, b: string, t: int)
    requires forall p, q :: 1 <= p <= |a| && 1 <= q <= |b| ==> Lev(a, b, p, q) < t
    ensures Bounded(a, b, t) == Distance(a, b)
  {
    LevSame(a, |a|);
    if a != b {
      ScanCellsNoExit(a, b, t, 1, 1);
    }
  }

  /** With one string empty the result is the other string's length, whatever the threshold. */
  lemma BoundedEmpty(a: string, b: string, t: int)
    requires a == [] || b == []
    ensures Bounded(a, b, t) == |a| + |b|
  {
    if b == [] && a != [] {
      ScanCellsNoColumns(a, b, t, 1);
    }
  }

  /** A result below the threshold does not depend on the order of the arguments. */
  lemma BoundedSymmetricBelow(a: string, b: string, t: int)
    requires Bounded(a, b, t) < t && Bounded(b, a, t) < t
    ensures Bounded(a, b, t) == Bounded(b, a, t)
  {
    BoundedContract(a, b, t);
    BoundedContract(b, a, t);
    DistanceProperties(a, b);
  }

  /**
    A result at the threshold need not be exact: inner cells can exceed the final distance.
    Here the first row reaches 3 although the strings are only 2 edits apart.
   */
  lemma EarlyExitIsNotExact()
    ensures Bounded("aaaab", "baaaa", 3) == 3
    ensures Distance("aaaab", "baaaa") == 2
  {
    var a, b := "aaaab", "baaaa";
    assert Lev(a, b, 1, 1) == 1;
    assert Lev(a, b, 1, 2) == 1;
    assert Lev(a, b, 1, 3) == 2;
    assert Lev(a, b, 1, 4) == 3;
    assert ScanCells(a, b, 3, 1, 4) == 3;
    assert ScanCells(a, b, 3, 1, 3) == 3;
    assert ScanCells(a, b, 3, 1, 2) == 3;
    assert ScanCells(a, b, 3, 1, 1) == 3;
    assert Lev(a, b, 1, 5) == 4;
    assert Lev(a, b, 2, 1) == 2;
    assert Lev(a, b, 2, 2) == 1;
    assert Lev(a, b, 2, 3) == 1;
    assert Lev(a, b, 2, 4) == 2;
    assert Lev(a, b, 2, 5) == 3;
    assert Lev(a, b, 3, 1) == 3;
    assert Lev(a, b, 3, 2) == 2;
    assert Lev(a, b, 3, 3) == 1;
    assert Lev(a, b, 3, 4) == 1;
    assert Lev(a, b, 3, 5) == 2;
    assert Lev(a, b, 4, 1) == 4;
    assert Lev(a, b, 4, 2) == 3;
    assert Lev(a, b, 4, 3) == 2;
    assert Lev(a, b, 4, 4) == 1;
    assert Lev(a, b, 4, 5) == 1;
    assert Lev(a, b, 5, 1) == 4;
    assert Lev(a, b, 5, 2) == 4;
    assert Lev(a, b, 5, 3) == 3;
    assert Lev(a, b, 5, 4) == 2;
    assert Lev(a, b, 5, 5) == 2;
  }

  /** `remove_tex` is the identity. */
  function RemoveTex(text: string): (r: string)
    ensures r == text
  {
    text
  }
}
