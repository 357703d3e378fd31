/** The distance-1 Chebyshev neighbour enumerator of src/utilities/neighbours.py. */
module Neighbours {
  import opened Errors
  import opened Coords

  /** 3^d, the number of offsets in {-1, 0, 1}^d. */
  function Pow3(d: nat): nat {
    if d == 0 then 1 else 3 * Pow3(d - 1)
  }

  /** `delta` is an offset of dimension d: d components, each -1, 0 or 1. */
  predicate IsOffset(delta: Coord, d: nat) {
    |delta| == d && forall i :: 0 <= i < d ==> -1 <= delta[i] <= 1
  }

  predicate IsZero(delta: Coord) {
    forall i :: 0 <= i < |delta| ==> delta[i] == 0
  }

  /** The coordinate `p + delta`, over the first |delta| components of p. */
  function Shift(p: Coord, delta: Coord): Coord
    requires |p| >= |delta|
  {
    seq(|delta|, i requires 0 <= i < |delta| => p[i] + delta[i])
  }

  /** Each tuple of `e`, with `x` put in front. */
  function Prepend(x: int, e: seq<Coord>): seq<Coord>
  {
    seq(|e|, i requires 0 <= i < |e| => [x] + e[i])
  }

  /** The tuples of itertools.product(xs, <tuples of e>): the leading
      component is taken from xs and varies slowest. */
  function Product(xs: seq<int>, e: seq<Coord>): seq<Coord>
  {
    if xs == [] then [] else Prepend(xs[0], e) + Product(xs[1..], e)
  }

  /** Every offset in {-1, 0, 1}^d, in itertools.product order. */
  function Deltas(d: nat): (r: seq<Coord>)
    ensures |r| == Pow3(d)
    ensures forall i :: 0 <= i < |r| ==> IsOffset(r[i], d)
  {
    if d == 0 then [[]]
    else
      var e := Deltas(d - 1);
      ProductLength([-1, 0, 1], e);
      ProductElements([-1, 0, 1], e);
      var r := Product([-1, 0, 1], e);
      assert forall i :: 0 <= i < |r| ==> IsOffset(r[i], d) by {
        forall i | 0 <= i < |r|
          ensures IsOffset(r[i], d)
        {
          assert r[i] in r;
          var k :| 0 <= k < |e| && r[i][1..] == e[k];
          assert IsOffset(e[k], d - 1);
          assert forall j :: 1 <= j < |r[i]| ==> r[i][j] == r[i][1..][j - 1];
        }
      }
      r
  }

  lemma {:induction false} ProductLength(xs: seq<int>, e: seq<Coord>)
    ensures |Product(xs, e)| == |xs| * |e|
    decreases |xs|
  {
    if xs != [] {
      ProductLength(xs[1..], e);
    }
  }

  /** Each tuple of the product is an element of xs followed by a tuple of e. */
  lemma {:induction false} ProductElements(xs: seq<int>, e: seq<Coord>)
    ensures forall y :: y in Product(xs, e) ==> |y| > 0 && y[0] in xs && y[1..] in e
    decreases |xs|
  {
    if xs != [] {
      ProductElements(xs[1..], e);
      forall y | y in Product(xs, e)
        ensures |y| > 0 && y[0] in xs && y[1..] in e
      {
        if y in Prepend(xs[0], e) {
          var k :| 0 <= k < |e| && y == Prepend(xs[0], e)[k];
          assert y[1..] == e[k];
        } else {
          assert y in Product(xs[1..], e);
        }
      }
    }
  }

  /** Every such tuple occurs in the product. */
  lemma {:induction false} ProductComplete(xs: seq<int>, e: seq<Coord>, y: Coord)
    requires |y| > 0 && y[0] in xs && y[1..] in e
    ensures y in Product(xs, e)
    decreases |xs|
  {
    if xs[0] == y[0] {
      var k :| 0 <= k < |e| && e[k] == y[1..];
      assert Prepend(xs[0], e)[k] == y;
    } else {
      ProductComplete(xs[1..], e, y);
    }
  }

  predicate IncreasingInts(xs: seq<int>) {
    forall i, j :: 0 <= i < j < |xs| ==> xs[i] < xs[j]
  }

  lemma ConcatIncreasing(a: seq<Coord>, b: seq<Coord>)
    requires StrictlyIncreasing(a) && StrictlyIncreasing(b)
    requires forall x, y :: x in a && y in b ==> LexLess(x, y)
    ensures StrictlyIncreasing(a + b)
  {
    forall i, j | 0 <= i < j < |a + b|
      ensures LexLess((a + b)[i], (a + b)[j])
    {
      if j < |a| {
      } else if i >= |a| {
        assert (a + b)[i] == b[i - |a|] && (a + b)[j] == b[j - |a|];
      } else {
        assert (a + b)[i] in a && (a + b)[j] in b;
      }
    }
  }

  /** The product of increasing components with an increasing tuple list is
      increasing: itertools.product emits tuples in lexicographic order. */
  lemma {:induction false} ProductIncreasing(xs: seq<int>, e: seq<Coord>)
    requires IncreasingInts(xs) && StrictlyIncreasing(e)
    ensures StrictlyIncreasing(Product(xs, e))
    decreases |xs|
  {
    if xs != [] {
      var head := Prepend(xs[0], e);
      assert StrictlyIncreasing(head) by {
        forall i, j | 0 <= i < j < |head|
          ensures LexLess(head[i], head[j])
        {
          assert head[i][1..] == e[i] && head[j][1..] == e[j];
        }
      }
      ProductIncreasing(xs[1..], e);
      ProductElements(xs[1..], e);
      forall x, y | x in head && y in Product(xs[1..], e)
        ensures LexLess(x, y)
      {
        var k :| 0 <= k < |xs[1..]| && xs[1..][k] == y[0];
        assert xs[0] < xs[k + 1];
      }
      ConcatIncreasing(head, Product(xs[1..], e));
    }
  }

  /** The offsets come out strictly increasing, hence each exactly once. */
  lemma {:induction false} DeltasIncreasing(d: nat)
    ensures StrictlyIncreasing(Deltas(d))
    decreases d
  {
    if d > 0 {
      DeltasIncreasing(d - 1);
      ProductIncreasing([-1, 0, 1], Deltas(d - 1));
    }
  }

  /** Every offset in {-1, 0, 1}^d is produced. */
  lemma {:induction false} DeltasComplete(d: nat, delta: Coord)
    requires IsOffset(delta, d)
    ensures delta in Deltas(d)
    decreases d
  {
    if d > 0 {
      assert IsOffset(delta[1..], d - 1) by {
        assert forall i :: 0 <= i < d - 1 ==> delta[1..][i] == delta[i + 1];
      }
      DeltasComplete(d - 1, delta[1..]);
      assert delta[0] in [-1, 0, 1];
      ProductComplete([-1, 0, 1], Deltas(d - 1), delta);
    }
  }

  /** The body of the enumeration loop: skip the zero offset, shift the point
      and keep the in-grid results, in the order of `ds`. */
  function Collect(point: Coord, shape: seq<int>, ds: seq<Coord>): seq<Coord>
    requires |point| >= |shape|
    requires forall i :: 0 <= i < |ds| ==> |ds[i]| == |shape|
  {
    if ds == [] then []
    else
      var rest := Collect(point, shape, ds[1..]);
      if IsZero(ds[0]) then rest
      else
        var n := Shift(point, ds[0]);
        if InGrid(n, shape) then [n] + rest else rest
  }

  /** Each kept coordinate is the point shifted by a non-zero offset of `ds`. */
  lemma {:induction false} CollectFrom(point: Coord, shape: seq<int>, ds: seq<Coord>, y: Coord)
    requires |point| >= |shape|
    requires forall i :: 0 <= i < |ds| ==> |ds[i]| == |shape|
    requires y in Collect(point, shape, ds)
    ensures exists i :: 0 <= i < |ds| && !IsZero(ds[i]) && y == Shift(point, ds[i]) && InGrid(y, shape)
    decreases |ds|
  {
    var rest := Collect(point, shape, ds[1..]);
    if y in rest {
      CollectFrom(point, shape, ds[1..], y);
      var i :| 0 <= i < |ds[1..]| && !IsZero(ds[1..][i]) && y == Shift(point, ds[1..][i]) && InGrid(y, shape);
      assert ds[1..][i] == ds[i + 1];
    } else {
      assert !IsZero(ds[0]) && y == Shift(point, ds[0]) && InGrid(y, shape);
    }
  }

  /** Each non-zero offset of `ds` whose shift lands in the grid is kept. */
  lemma {:induction false} CollectComplete(point: Coord, shape: seq<int>, ds: seq<Coord>, k: nat)
    requires |point| >= |shape|
    requires forall i :: 0 <= i < |ds| ==> |ds[i]| == |shape|
    requires k < |ds| && !IsZero(ds[k]) && InGrid(Shift(point, ds[k]), shape)
    ensures Shift(point, ds[k]) in Collect(point, shape, ds)
    decreases |ds|
  {
    if k > 0 {
      assert ds[k] == ds[1..][k - 1];
      CollectComplete(point, shape, ds[1..], k - 1);
    }
  }

  /** Shifting both tuples by the same point keeps their order. */
  lemma {:induction false} ShiftKeepsOrder(p: Coord, a: Coord, b: Coord)
    requires |a| == |b| <= |p|
    requires LexLess(a, b)
    ensures LexLess(Shift(p, a), Shift(p, b))
    decreases |a|
  {
    if a[0] == b[0] {
      ShiftKeepsOrder(p[1..], a[1..], b[1..]);
      assert Shift(p, a)[1..] == Shift(p[1..], a[1..]);
      assert Shift(p, b)[1..] == Shift(p[1..], b[1..]);
    }
  }

  lemma {:induction false} CollectIncreasing(point: Coord, shape: seq<int>, ds: seq<Coord>)
    requires |point| >= |shape|
    requires forall i :: 0 <= i < |ds| ==> |ds[i]| == |shape|
    requires StrictlyIncreasing(ds)
    ensures StrictlyIncreasing(Collect(point, shape, ds))
    decreases |ds|
  {
    if ds != [] {
      var rest := Collect(point, shape, ds[1..]);
      CollectIncreasing(point, shape, ds[1..]);
      if !IsZero(ds[0]) && InGrid(Shift(point, ds[0]), shape) {
        var n := Shift(point, ds[0]);
        forall y | y in rest
          ensures LexLess(n, y)
        {
          CollectFrom(point, shape, ds[1..], y);
          var i :| 0 <= i < |ds[1..]| && !IsZero(ds[1..][i]) && y == Shift(point, ds[1..][i]) && InGrid(y, shape);
          assert ds[1..][i] == ds[i + 1];
          ShiftKeepsOrder(point, ds[0], ds[i + 1]);
        }
        ConcatIncreasing([n], rest);
      }
    }
  }

  /** Nothing is kept twice, and a zero offset in `ds` is never kept. */
  lemma {:induction false} CollectLength(point: Coord, shape: seq<int>, ds: seq<Coord>)
    requires |point| >= |shape|
    requires forall i :: 0 <= i < |ds| ==> |ds[i]| == |shape|
    ensures |Collect(point, shape, ds)| <= |ds|
    ensures (exists i :: 0 <= i < |ds| && IsZero(ds[i])) ==> |Collect(point, shape, ds)| < |ds|
    decreases |ds|
  {
    if ds != [] {
      CollectLength(point, shape, ds[1..]);
      if exists i :: 0 <= i < |ds| && IsZero(ds[i]) {
        var i :| 0 <= i < |ds| && IsZero(ds[i]);
        if i > 0 {
          assert ds[1..][i - 1] == ds[i];
        }
      }
    }
  }

  /** d_infinity_neighbors(point, shape, distance). */
  function DInfinityNeighbors(point: Coord, shape: seq<int>, distance: int): (r: Result<seq<Coord>>)
    ensures distance < 0 ==> r == Failure(NegativeDistance)
    ensures distance >= 0 && distance != 1 ==> r == Failure(NotImplemented)
    ensures distance == 1 && |point| < |shape| ==> r == Failure(PointTooShort)
    ensures r.Success? <==> distance == 1 && |point| >= |shape|
    ensures r.Success? ==> forall c :: c in r.value <==> IsNeighbour(point, c, shape)
    ensures r.Success? ==> point !in r.value
    ensures r.Success? ==> StrictlyIncreasing(r.value) && NoDup(r.value)
    ensures r.Success? ==> |r.value| <= Pow3(|shape|) - 1
  {
    if distance < 0 then Failure(NegativeDistance)
    else if distance != 1 then Failure(NotImplemented)
    else if |point| < |shape| then Failure(PointTooShort)
    else
      var ds := Deltas(|shape|);
      var ns := Collect(point, shape, ds);
      NeighboursExact(point, shape);
      DeltasIncreasing(|shape|);
      CollectIncreasing(point, shape, ds);
      StrictlyIncreasingNoDup(ns);
      assert IsZero(seq(|shape|, i => 0)) && IsOffset(seq(|shape|, i => 0), |shape|);
      DeltasComplete(|shape|, seq(|shape|, i => 0));
      CollectLength(point, shape, ds);
      Success(ns)
  }

  /** The kept coordinates are exactly the in-grid cells at Chebyshev
      distance 1 from the point. */
  lemma NeighboursExact(point: Coord, shape: seq<int>)
    requires |point| >= |shape|
    ensures forall c :: c in Collect(point, shape, Deltas(|shape|)) <==> IsNeighbour(point, c, shape)
  {
    forall c | c in Collect(point, shape, Deltas(|shape|))
      ensures IsNeighbour(point, c, shape)
    {
      KeptIsNeighbour(point, shape, c);
    }
    forall c | IsNeighbour(point, c, shape)
      ensures c in Collect(point, shape, Deltas(|shape|))
    {
      NeighbourIsKept(point, shape, c);
    }
  }

  lemma KeptIsNeighbour(point: Coord, shape: seq<int>, c: Coord)
    requires |point| >= |shape|
    requires c in Collect(point, shape, Deltas(|shape|))
    ensures IsNeighbour(point, c, shape)
  {
    var ds := Deltas(|shape|);
    CollectFrom(point, shape, ds, c);
    var i :| 0 <= i < |ds| && !IsZero(ds[i]) && c == Shift(point, ds[i]) && InGrid(c, shape);
    ShiftIsNeighbour(point, ds[i], shape);
  }

  /** Shifting by a non-zero offset lands at Chebyshev distance 1. */
  lemma ShiftIsNeighbour(point: Coord, delta: Coord, shape: seq<int>)
    requires |point| >= |shape| && IsOffset(delta, |shape|) && !IsZero(delta)
    requires InGrid(Shift(point, delta), shape)
    ensures IsNeighbour(point, Shift(point, delta), shape)
  {
    var c := Shift(point, delta);
    var k :| 0 <= k < |delta| && delta[k] != 0;
    assert c[k] != point[k];
    forall i | 0 <= i < |c|
      ensures -1 <= c[i] - point[i] <= 1
    {
      assert c[i] - point[i] == delta[i];
    }
  }

  /** The offset leading from `point` to a neighbour `c`. */
  lemma OffsetTo(point: Coord, c: Coord, shape: seq<int>) returns (delta: Coord)
    requires IsNeighbour(point, c, shape)
    ensures IsOffset(delta, |shape|) && !IsZero(delta) && Shift(point, delta) == c
  {
    var d := |shape|;
    delta := seq(d, i requires 0 <= i < d => c[i] - point[i]);
    var j :| 0 <= j < |c| && c[j] != point[j];
    assert delta[j] != 0;
    var shifted := Shift(point, delta);
    assert |shifted| == |c|;
    forall i | 0 <= i < |c|
      ensures shifted[i] == c[i]
    {
      assert shifted[i] == point[i] + delta[i];
    }
    assert shifted == c;
  }

  lemma NeighbourIsKept(point: Coord, shape: seq<int>, c: Coord)
    requires IsNeighbour(point, c, shape)
    ensures c in Collect(point, shape, Deltas(|shape|))
  {
    var ds := Deltas(|shape|);
    var delta := OffsetTo(point, c, shape);
    DeltasComplete(|shape|, delta);
    var k :| 0 <= k < |ds| && ds[k] == delta;
    CollectComplete(point, shape, ds, k);
  }

  lemma ProductOfThree(e: seq<Coord>)
    ensures Product([-1, 0, 1], e) == Prepend(-1, e) + Prepend(0, e) + Prepend(1, e)
  {
    assert [-1, 0, 1][1..] == [0, 1];
    assert [0, 1][1..] == [1];
    assert [1][1..] == [];
    calc {
      Product([-1, 0, 1], e);
      Prepend(-1, e) + Product([0, 1], e);
      Prepend(-1, e) + (Prepend(0, e) + Product([1], e));
      Prepend(-1, e) + (Prepend(0, e) + (Prepend(1, e) + Product([], e)));
    }
  }

  /** The offsets of a two-dimensional grid, first component slowest. */
  lemma PrependOne(x: int, a: Coord)
    ensures Prepend(x, [a]) == [[x] + a]
  {
    assert Prepend(x, [a])[0] == [x] + a;
  }

  lemma PrependThree(x: int, a: Coord, b: Coord, c: Coord)
    ensures Prepend(x, [a, b, c]) == [[x] + a, [x] + b, [x] + c]
  {
    var r := Prepend(x, [a, b, c]);
    assert r[0] == [x] + a && r[1] == [x] + b && r[2] == [x] + c;
  }

  lemma DeltasOfTwo()
    ensures Deltas(2) == [[-1, -1], [-1, 0], [-1, 1], [0, -1], [0, 0], [0, 1], [1, -1], [1, 0], [1, 1]]
  {
    ProductOfThree([[]]);
    PrependOne(-1, []);
    PrependOne(0, []);
    PrependOne(1, []);
    assert [-1] + [] == [-1] && [0] + [] == [0] && [1] + [] == [1];
    assert Deltas(1) == [[-1], [0], [1]];
    var e := [[-1], [0], [1]];
    ProductOfThree(e);
    PrependThree(-1, [-1], [0], [1]);
    PrependThree(0, [-1], [0], [1]);
    PrependThree(1, [-1], [0], [1]);
    assert Deltas(2) == Product([-1, 0, 1], e);
    assert [-1] + [-1] == [-1, -1] && [-1] + [0] == [-1, 0] && [-1] + [1] == [-1, 1];
    assert [0] + [-1] == [0, -1] && [0] + [0] == [0, 0] && [0] + [1] == [0, 1];
    assert [1] + [-1] == [1, -1] && [1] + [0] == [1, 0] && [1] + [1] == [1, 1];
  }

  /** The neighbours of `point` are exactly the cells of `expected`, listed
      in increasing order, so the enumeration returns exactly `expected`. */
  lemma NeighboursAre(point: Coord, shape: seq<int>, expected: seq<Coord>)
    requires |point| >= |shape|
    requires StrictlyIncreasing(expected)
    requires forall c :: c in expected <==> IsNeighbour(point, c, shape)
    ensures DInfinityNeighbors(point, shape, 1) == Success(expected)
  {
    IncreasingUnique(DInfinityNeighbors(point, shape, 1).value, expected);
  }

  /** Every cell of a 3x3 grid, as a pair of indices in 0..2. */
  lemma CellOf3x3(c: Coord)
    requires InGrid(c, [3, 3])
    ensures c == [c[0], c[1]] && 0 <= c[0] < 3 && 0 <= c[1] < 3
  {
  }

  lemma CentreMembers(c: Coord)
    ensures c in [[0, 0], [0, 1], [0, 2], [1, 0], [1, 2], [2, 0], [2, 1], [2, 2]]
            <==> IsNeighbour([1, 1], c, [3, 3])
  {
    if IsNeighbour([1, 1], c, [3, 3]) {
      CellOf3x3(c);
    }
  }

  /** The reference vector for the centre of a 3x3 grid: all eight other cells. */
  lemma NeighboursOfCentre()
    ensures DInfinityNeighbors([1, 1], [3, 3], 1)
            == Success([[0, 0], [0, 1], [0, 2], [1, 0], [1, 2], [2, 0], [2, 1], [2, 2]])
  {
    var centre: seq<Coord> := [[0, 0], [0, 1], [0, 2], [1, 0], [1, 2], [2, 0], [2, 1], [2, 2]];
    forall c
      ensures c in centre <==> IsNeighbour([1, 1], c, [3, 3])
    {
      CentreMembers(c);
    }
    NeighboursAre([1, 1], [3, 3], centre);
  }

  /** The reference vector for the corner of a 3x3 grid: the grid clips all
      offsets that step below zero. */
  lemma NeighboursOfCorner()
    ensures DInfinityNeighbors([0, 0], [3, 3], 1) == Success([[0, 1], [1, 0], [1, 1]])
  {
    var corner: seq<Coord> := [[0, 1], [1, 0], [1, 1]];
    forall c
      ensures c in corner <==> IsNeighbour([0, 0], c, [3, 3])
    {
      if IsNeighbour([0, 0], c, [3, 3]) {
        CellOf3x3(c);
      }
    }
    NeighboursAre([0, 0], [3, 3], corner);
  }
}
