/** Grid coordinates, grid membership, the Chebyshev neighbourhood and the
    lexicographic order of coordinate tuples. */
module Coords {

  /** A grid coordinate: one integer index per dimension. */
  type Coord = seq<int>

  /** `c` is a cell of a grid of the given shape. */
  predicate InGrid(c: Coord, shape: seq<int>) {
    |c| == |shape| && forall i :: 0 <= i < |c| ==> 0 <= c[i] < shape[i]
  }

  /** `c` is a cell of the grid at Chebyshev distance exactly 1 from the first
      |shape| components of `p`. */
  predicate IsNeighbour(p: Coord, c: Coord, shape: seq<int>) {
    && InGrid(c, shape)
    && |p| >= |shape|
    && (forall i :: 0 <= i < |c| ==> -1 <= c[i] - p[i] <= 1)
    && (exists i :: 0 <= i < |c| && c[i] != p[i])
  }

  function Abs(x: int): nat {
    if x < 0 then -x else x
  }

  /** The d-infinity norm of a - b: the largest per-component difference. */
  function Chebyshev(a: Coord, b: Coord): (r: nat)
    requires |a| == |b|
    ensures forall i :: 0 <= i < |a| ==> Abs(a[i] - b[i]) <= r
    ensures |a| > 0 ==> exists i :: 0 <= i < |a| && Abs(a[i] - b[i]) == r
    ensures |a| == 0 ==> r == 0
  {
    if |a| == 0 then 0
    else
      var rest := Chebyshev(a[1..], b[1..]);
      assert forall i :: 1 <= i < |a| ==> a[i] == a[1..][i - 1] && b[i] == b[1..][i - 1];
      if Abs(a[0] - b[0]) >= rest then Abs(a[0] - b[0]) else rest
  }

  /** The neighbour relation is exactly "in the grid at Chebyshev distance 1". */
  lemma NeighbourIsChebyshevOne(p: Coord, c: Coord, shape: seq<int>)
    requires |p| == |shape|
    ensures IsNeighbour(p, c, shape) <==> InGrid(c, shape) && Chebyshev(c, p) == 1
  {
    if InGrid(c, shape) {
      var r := Chebyshev(c, p);
      if Chebyshev(c, p) == 1 {
        var i :| 0 <= i < |c| && Abs(c[i] - p[i]) == r;
        assert c[i] != p[i];
      }
      if IsNeighbour(p, c, shape) {
        var i :| 0 <= i < |c| && c[i] != p[i];
        assert Abs(c[i] - p[i]) >= 1;
      }
    }
  }

  /** All elements are pairwise distinct. */
  predicate NoDup<T(==)>(s: seq<T>) {
    forall i, j :: 0 <= i < j < |s| ==> s[i] != s[j]
  }

  /** Python's tuple comparison `a < b` for tuples of equal length. */
  predicate LexLess(a: Coord, b: Coord)
    decreases |a|
  {
    |a| > 0 && |b| > 0 && (a[0] < b[0] || (a[0] == b[0] && LexLess(a[1..], b[1..])))
  }

  /** The sequence is strictly increasing in lexicographic order. */
  predicate StrictlyIncreasing(s: seq<Coord>) {
    forall i, j :: 0 <= i < j < |s| ==> LexLess(s[i], s[j])
  }

  lemma {:induction false} LexLessIrreflexive(a: Coord)
    ensures !LexLess(a, a)
    decreases |a|
  {
    if |a| > 0 {
      LexLessIrreflexive(a[1..]);
    }
  }

  lemma {:induction false} LexLessAsymmetric(a: Coord, b: Coord)
    requires LexLess(a, b)
    ensures !LexLess(b, a)
    decreases |a|
  {
    if a[0] == b[0] {
      LexLessAsymmetric(a[1..], b[1..]);
    }
  }

  /** Two strictly increasing sequences with the same elements are equal:
      the order of an enumeration is fixed by its contents. */
  lemma {:induction false} IncreasingUnique(a: seq<Coord>, b: seq<Coord>)
    requires StrictlyIncreasing(a) && StrictlyIncreasing(b)
    requires forall x :: x in a <==> x in b
    ensures a == b
    decreases |a|
  {
    assert |b| > 0 ==> b[0] in a;
    if a != [] {
      assert a[0] in b;
      assert b != [] && b[0] in a;
      if a[0] != b[0] {
        var i :| 0 <= i < |a| && a[i] == b[0];
        var j :| 0 <= j < |b| && b[j] == a[0];
        LexLessAsymmetric(a[0], b[0]);
      }
      StrictlyIncreasingNoDup(a);
      StrictlyIncreasingNoDup(b);
      forall x
        ensures x in a[1..] <==> x in b[1..]
      {
        if x in a[1..] {
          var i :| 0 <= i < |a[1..]| && a[1..][i] == x;
          assert x == a[i + 1] && x != a[0] && x in a;
          var j :| 0 <= j < |b| && b[j] == x;
          assert j != 0 && b[1..][j - 1] == x;
        }
        if x in b[1..] {
          var j :| 0 <= j < |b[1..]| && b[1..][j] == x;
          assert x == b[j + 1] && x != b[0] && x in b;
          var i :| 0 <= i < |a| && a[i] == x;
          assert i != 0 && a[1..][i - 1] == x;
        }
      }
      IncreasingUnique(a[1..], b[1..]);
      assert a == [a[0]] + a[1..];
      assert b == [b[0]] + b[1..];
    }
  }

  /** A strictly increasing sequence has no duplicates. */
  lemma StrictlyIncreasingNoDup(s: seq<Coord>)
    requires StrictlyIncreasing(s)
    ensures NoDup(s)
  {
    forall i, j | 0 <= i < j < |s|
      ensures s[i] != s[j]
    {
      LexLessIrreflexive(s[i]);
    }
  }

  /** `a` is `b` with some elements left out, the rest in their order. */
  predicate IsSubsequence(a: seq<Coord>, b: seq<Coord>)
    decreases |b|
  {
    if a == [] then true
    else if b == [] then false
    else (a[0] == b[0] && IsSubsequence(a[1..], b[1..])) || IsSubsequence(a, b[1..])
  }

  /** The finite set of all cells of a grid. */
  ghost function Cells(shape: seq<int>): set<Coord>
    decreases |shape|
  {
    if |shape| == 0 then {[]}
    else set i, t | 0 <= i < shape[0] && t in Cells(shape[1..]) :: [i] + t
  }

  lemma {:induction false} InGridInCells(c: Coord, shape: seq<int>)
    requires InGrid(c, shape)
    ensures c in Cells(shape)
    decreases |shape|
  {
    if |shape| > 0 {
      assert InGrid(c[1..], shape[1..]) by {
        forall i | 0 <= i < |c[1..]|
          ensures 0 <= c[1..][i] < shape[1..][i]
        {
          assert c[1..][i] == c[i + 1];
        }
      }
      InGridInCells(c[1..], shape[1..]);
      assert c == [c[0]] + c[1..];
    }
  }
}
