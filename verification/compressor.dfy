/** The compressor engine of src/compressor.py: seeding the work queue from a
    random batch, classifying the neighbours of a cell, and the flood that
    grows the compressed binary diagram (bCSD) along "on" cells. */
module Compressor {
  import opened Errors
  import opened Coords
  import opened Neighbours
  import opened Classification
  import opened SetQueue

  /** The simulator as the engine sees it: the grid shape and the field value
      of each cell. Only cells of the grid are ever read. */
  datatype Grid = Grid(shape: seq<int>, value: Coord -> real)

  /** One entry of the sampled batch: a cell and the value read there. */
  datatype Sample = Sample(coord: Coord, value: real)

  /** The values of the batch, in order. */
  function Values(samples: seq<Sample>): (vs: seq<real>)
    ensures |vs| == |samples|
    ensures forall i :: 0 <= i < |samples| ==> vs[i] == samples[i].value
  {
    seq(|samples|, i requires 0 <= i < |samples| => samples[i].value)
  }

  /** The seeds: the cells of the batch whose value classifies "on", put in
      batch order into the set queue, so a cell drawn twice is seeded once. */
  function OnKeys(samples: seq<Sample>, c: Classifier): seq<Coord>
  {
    if samples == [] then []
    else
      var last := samples[|samples| - 1];
      var q := OnKeys(samples[..|samples| - 1], c);
      if IsOn(c, last.value) then Put(q, last.coord) else q
  }

  lemma {:induction false} OnKeysMember(samples: seq<Sample>, c: Classifier, x: Coord)
    ensures x in OnKeys(samples, c) <==>
            exists i :: 0 <= i < |samples| && samples[i].coord == x && IsOn(c, samples[i].value)
    decreases |samples|
  {
    if samples != [] {
      var n := |samples| - 1;
      OnKeysMember(samples[..n], c, x);
      if exists i :: 0 <= i < |samples| && samples[i].coord == x && IsOn(c, samples[i].value) {
        var i :| 0 <= i < |samples| && samples[i].coord == x && IsOn(c, samples[i].value);
        if i < n {
          assert samples[..n][i] == samples[i];
        }
      }
    }
  }

  lemma {:induction false} OnKeysNoDup(samples: seq<Sample>, c: Classifier)
    ensures NoDup(OnKeys(samples, c))
    decreases |samples|
  {
    if samples != [] {
      OnKeysNoDup(samples[..|samples| - 1], c);
    }
  }

  /** Entry `k` of the batch is for cell `x` and classifies "on". */
  predicate OnAt(samples: seq<Sample>, c: Classifier, k: int, x: Coord) {
    0 <= k < |samples| && samples[k].coord == x && IsOn(c, samples[k].value)
  }

  /** The seeds keep batch order: an earlier seed has an "on" entry that comes
      before every "on" entry of a later seed. */
  lemma {:induction false} OnKeysOrder(samples: seq<Sample>, c: Classifier, i: int, j: int)
    requires 0 <= i < j < |OnKeys(samples, c)|
    ensures exists a :: OnAt(samples, c, a, OnKeys(samples, c)[i]) &&
              forall b :: 0 <= b <= a ==> !OnAt(samples, c, b, OnKeys(samples, c)[j])
    decreases |samples|
  {
    var n := |samples| - 1;
    var p := samples[..n];
    var q := OnKeys(p, c);
    var ks := OnKeys(samples, c);
    if j < |q| {
      assert ks[i] == q[i] && ks[j] == q[j];
      OnKeysOrder(p, c, i, j);
      var a :| OnAt(p, c, a, q[i]) && forall b :: 0 <= b <= a ==> !OnAt(p, c, b, q[j]);
      assert p[a] == samples[a];
      forall b | 0 <= b <= a
        ensures !OnAt(samples, c, b, ks[j])
      {
        assert p[b] == samples[b];
        assert !OnAt(p, c, b, q[j]);
      }
      assert OnAt(samples, c, a, ks[i]);
    } else {
      assert ks == q + [samples[n].coord] && samples[n].coord !in q;
      OnKeysMember(p, c, q[i]);
      var a :| 0 <= a < |p| && p[a].coord == q[i] && IsOn(c, p[a].value);
      assert OnAt(samples, c, a, ks[i]);
      OnKeysMember(p, c, ks[j]);
      forall b | 0 <= b <= a
        ensures !OnAt(samples, c, b, ks[j])
      {
        assert p[b] == samples[b];
      }
    }
  }

  /** The seeds of a batch under its fitted classifier are never empty: the
      cell holding the maximum always classifies "on". */
  lemma SeedsNonEmpty(samples: seq<Sample>, c: Classifier)
    requires |samples| > 0
    requires c == Fit(Values(samples))
    ensures |OnKeys(samples, c)| > 0
  {
    var k :| 0 <= k < |samples| && Values(samples)[k] == c.maxValue.value;
    ExtremesClassify(c);
    assert IsOn(c, samples[k].value);
    OnKeysMember(samples, c, samples[k].coord);
  }

  /** The seeds are duplicate-free, exactly the "on" cells of the batch, and
      never empty. */
  lemma SeedsFacts(samples: seq<Sample>, c: Classifier)
    requires |samples| > 0
    requires c == Fit(Values(samples))
    ensures NoDup(OnKeys(samples, c))
    ensures forall x :: x in OnKeys(samples, c) <==>
              exists i :: 0 <= i < |samples| && samples[i].coord == x && IsOn(c, samples[i].value)
    ensures |OnKeys(samples, c)| > 0
  {
    OnKeysNoDup(samples, c);
    forall x
      ensures x in OnKeys(samples, c) <==>
              exists i :: 0 <= i < |samples| && samples[i].coord == x && IsOn(c, samples[i].value)
    {
      OnKeysMember(samples, c, x);
    }
    SeedsNonEmpty(samples, c);
  }

  /** The classifier fitted to the batch and the seeded work queue. */
  datatype Seeded = Seeded(classifier: Classifier, queue: seq<Coord>)

  /** The min/max and seeding part of random_sampling, given the batch the
      sampler drew. */
  method RandomSampling(samples: seq<Sample>) returns (r: Result<Seeded>)
    ensures r.Failure? <==> |samples| == 0
    ensures r.Failure? ==> r.error == EmptySample
    ensures r.Success? ==> |samples| > 0 && r.value.classifier == Fit(Values(samples))
    ensures r.Success? ==> r.value.queue == OnKeys(samples, r.value.classifier)
    ensures r.Success? ==> NoDup(r.value.queue)
    ensures r.Success? ==> forall x :: x in r.value.queue <==>
              exists i :: 0 <= i < |samples| && samples[i].coord == x && IsOn(r.value.classifier, samples[i].value)
    ensures r.Success? ==> |r.value.queue| > 0
  {
    if |samples| == 0 {
      return Failure(EmptySample);
    }
    var c := Fit(Values(samples));
    var queue: seq<Coord> := [];
    var i := 0;
    while i < |samples|
      invariant 0 <= i <= |samples|
      invariant queue == OnKeys(samples[..i], c)
    {
      var b := Normalize(c, samples[i].value);
      assert samples[..i + 1][..i] == samples[..i];
      if b.value == 1 {
        queue := Put(queue, samples[i].coord);
      }
      i := i + 1;
    }
    assert samples[..i] == samples;
    SeedsFacts(samples, c);
    return Success(Seeded(c, queue));
  }

  /** Keep the cells of `ns` whose field value normalises to 1, in order. */
  function KeepOn(grid: Grid, c: Classifier, ns: seq<Coord>): (r: Result<seq<Coord>>)
    ensures r.Failure? <==> ns != [] && !c.IsSet()
    ensures r.Failure? ==> r.error == ThresholdUnset
    ensures r.Success? ==> forall y :: y in r.value <==> y in ns && IsOn(c, grid.value(y))
    ensures r.Success? ==> IsSubsequence(r.value, ns)
  {
    if ns == [] then Success([])
    else
      var b :- Normalize(c, grid.value(ns[0]));
      var rest := KeepOn(grid, c, ns[1..]).value;
      Success(if b == 1 then [ns[0]] + rest else rest)
  }

  /** A subsequence of a strictly increasing sequence is strictly increasing. */
  lemma {:induction false} SubsequenceIncreasing(a: seq<Coord>, b: seq<Coord>)
    requires IsSubsequence(a, b) && StrictlyIncreasing(b)
    ensures StrictlyIncreasing(a) && forall x :: x in a ==> x in b
    decreases |b|
  {
    if a != [] {
      assert StrictlyIncreasing(b[1..]);
      if a[0] == b[0] && IsSubsequence(a[1..], b[1..]) {
        SubsequenceIncreasing(a[1..], b[1..]);
        forall j | 0 < j < |a|
          ensures LexLess(a[0], a[j])
        {
          assert a[j] in a[1..];
          var k :| 0 <= k < |b[1..]| && b[1..][k] == a[j];
          assert b[k + 1] == a[j];
        }
        assert a == [a[0]] + a[1..];
      } else {
        SubsequenceIncreasing(a, b[1..]);
      }
    }
  }

  /** `y` is a grid neighbour of `x` that classifies "on". */
  predicate OnNeighbour(grid: Grid, c: Classifier, x: Coord, y: Coord) {
    IsNeighbour(x, y, grid.shape) && IsOn(c, grid.value(y))
  }

  /** `point` has at least one distance-1 grid neighbour for `flood` to classify. */
  predicate HasNeighbour(grid: Grid, point: Coord) {
    |point| >= |grid.shape| && DInfinityNeighbors(point, grid.shape, 1).value != []
  }

  /** get_transition_line_neighbors(point, distance). */
  function GetTransitionLineNeighbors(grid: Grid, c: Classifier, point: Coord, distance: int): (r: Result<seq<Coord>>)
    ensures distance < 0 ==> r == Failure(NegativeDistance)
    ensures distance >= 0 && distance != 1 ==> r == Failure(NotImplemented)
    ensures distance == 1 && |point| < |grid.shape| ==> r == Failure(PointTooShort)
    ensures distance == 1 && |point| >= |grid.shape| ==> (r.Failure? <==> !c.IsSet() && HasNeighbour(grid, point))
    ensures distance == 1 && |point| >= |grid.shape| && r.Failure? ==> r.error == ThresholdUnset
    ensures r.Success? ==> IsSubsequence(r.value, DInfinityNeighbors(point, grid.shape, distance).value)
    ensures r.Success? ==> forall y :: y in r.value <==> OnNeighbour(grid, c, point, y)
    ensures r.Success? ==> StrictlyIncreasing(r.value) && NoDup(r.value)
  {
    var ns :- DInfinityNeighbors(point, grid.shape, distance);
    var r := KeepOn(grid, c, ns);
    if r.Success? then
      SubsequenceIncreasing(r.value, ns);
      StrictlyIncreasingNoDup(r.value);
      r
    else r
  }

  /** The inner loop of flood: put every neighbour not yet in bCSD. */
  method EnqueueUnseen(queue: seq<Coord>, bcsd: seq<Coord>, ns: seq<Coord>) returns (q: seq<Coord>)
    requires NoDup(queue)
    ensures NoDup(q)
    ensures |q| >= |queue| && q[..|queue|] == queue
    ensures forall x :: x in ns ==> x in bcsd || x in q
    ensures forall x :: x in q ==> x in queue || (x in ns && x !in bcsd)
  {
    q := queue;
    var k := 0;
    while k < |ns|
      invariant 0 <= k <= |ns|
      invariant NoDup(q)
      invariant |q| >= |queue| && q[..|queue|] == queue
      invariant forall m :: 0 <= m < k ==> ns[m] in bcsd || ns[m] in q
      invariant forall x :: x in q ==> x in queue || (x in ns && x !in bcsd)
    {
      if ns[k] !in bcsd {
        q := Put(q, ns[k]);
      }
      k := k + 1;
    }
  }

  /** Every cell of `added` is a seed or an "on" neighbour of a cell
      appended before it. */
  ghost predicate Reached(grid: Grid, c: Classifier, queue0: seq<Coord>, added: seq<Coord>)
    decreases |added|
  {
    added == [] ||
    (var n := |added| - 1;
     && Reached(grid, c, queue0, added[..n])
     && (added[n] in queue0 || exists y :: y in added[..n] && OnNeighbour(grid, c, y, added[n])))
  }

  /** Whether a list was reached depends on the seeds only through their
      members: their order and repetitions do not matter. */
  lemma {:induction false} ReachedSameSeeds(grid: Grid, c: Classifier, seeds: seq<Coord>, seeds': seq<Coord>,
                                            added: seq<Coord>)
    requires forall x :: x in seeds <==> x in seeds'
    requires Reached(grid, c, seeds, added)
    ensures Reached(grid, c, seeds', added)
    decreases |added|
  {
    if added != [] {
      ReachedSameSeeds(grid, c, seeds, seeds', added[..|added| - 1]);
    }
  }

  /** The cells the flood appended, `added`, behave as a flood from the seeds
      `queue0` should: each was appended once, is a cell of the grid, is a
      seed or classifies "on", and was reached from the seeds. */
  ghost predicate FloodOrder(grid: Grid, c: Classifier, queue0: seq<Coord>, bcsd0: seq<Coord>, added: seq<Coord>) {
    && NoDup(added)
    && (forall x :: x in added ==> x !in bcsd0)
    && (forall x :: x in added ==> InGrid(x, grid.shape) && (x in queue0 || IsOn(c, grid.value(x))))
    && Reached(grid, c, queue0, added)
  }

  /** The loop invariant of flood, over the pending queue and the cells
      appended so far: the queue is duplicate-free, holds grid cells that are
      seeds or "on", and is disjoint from bCSD; every seed is pending or
      appended; every "on" neighbour of an appended cell is in bCSD or
      pending; and every pending cell is a seed or an "on" neighbour of an
      appended cell. */
  ghost predicate FloodInvariant(grid: Grid, c: Classifier, queue0: seq<Coord>, bcsd0: seq<Coord>,
                                 queue: seq<Coord>, added: seq<Coord>) {
    && NoDup(queue)
    && (forall x :: x in queue ==> InGrid(x, grid.shape) && (x in queue0 || IsOn(c, grid.value(x))))
    && (forall x :: x in queue ==> x !in bcsd0 && x !in added)
    && FloodOrder(grid, c, queue0, bcsd0, added)
    && (forall x :: x in queue0 ==> x in queue || x in added)
    && (forall x, y :: x in added && OnNeighbour(grid, c, x, y) ==> y in bcsd0 || y in added || y in queue)
    && (forall x :: x in queue ==> x in queue0 || exists y :: y in added && OnNeighbour(grid, c, y, x))
  }

  /** What one iteration of flood leaves in the queue: the old queue without
      its head, then the "on" neighbours of the head that were neither in
      bCSD nor pending. */
  ghost predicate NextQueue(grid: Grid, c: Classifier, bcsd: seq<Coord>, queue: seq<Coord>, q: seq<Coord>)
    requires queue != []
  {
    && NoDup(q)
    && |q| >= |queue| - 1 && q[..|queue| - 1] == queue[1..]
    && (forall y :: OnNeighbour(grid, c, queue[0], y) ==> y in bcsd || y == queue[0] || y in q)
    && (forall x :: x in q ==> x in queue[1..] || (OnNeighbour(grid, c, queue[0], x) && x !in bcsd && x != queue[0]))
  }

  lemma StepKeepsQueue(grid: Grid, c: Classifier, queue0: seq<Coord>, bcsd0: seq<Coord>,
                       queue: seq<Coord>, added: seq<Coord>, q: seq<Coord>)
    requires FloodInvariant(grid, c, queue0, bcsd0, queue, added)
    requires queue != [] && NextQueue(grid, c, bcsd0 + added, queue, q)
    ensures forall x :: x in q ==> InGrid(x, grid.shape) && (x in queue0 || IsOn(c, grid.value(x)))
    ensures forall x :: x in q ==> x !in bcsd0 && x !in added + [queue[0]]
    ensures forall x :: x in q ==>
              x in queue0 || exists y :: y in added + [queue[0]] && OnNeighbour(grid, c, y, x)
  {
    var a := added + [queue[0]];
    forall x | x in q
      ensures InGrid(x, grid.shape) && (x in queue0 || IsOn(c, grid.value(x)))
      ensures x !in bcsd0 && x !in a
      ensures x in queue0 || exists y :: y in a && OnNeighbour(grid, c, y, x)
    {
      if x in queue[1..] {
        assert x in queue;
        var k :| 1 <= k < |queue| && queue[k] == x;
        assert x != queue[0];
      } else {
        assert queue[0] in a;
      }
    }
  }

  lemma StepKeepsOrder(grid: Grid, c: Classifier, queue0: seq<Coord>, bcsd0: seq<Coord>,
                       queue: seq<Coord>, added: seq<Coord>)
    requires FloodInvariant(grid, c, queue0, bcsd0, queue, added)
    requires queue != []
    ensures FloodOrder(grid, c, queue0, bcsd0, added + [queue[0]])
  {
    var a := added + [queue[0]];
    assert a[..|added|] == added;
    assert queue[0] in queue;
  }

  lemma StepKeepsClosure(grid: Grid, c: Classifier, queue0: seq<Coord>, bcsd0: seq<Coord>,
                         queue: seq<Coord>, added: seq<Coord>, q: seq<Coord>)
    requires FloodInvariant(grid, c, queue0, bcsd0, queue, added)
    requires queue != [] && NextQueue(grid, c, bcsd0 + added, queue, q)
    ensures forall x :: x in queue0 ==> x in q || x in added + [queue[0]]
    ensures forall x, y :: x in added + [queue[0]] && OnNeighbour(grid, c, x, y) ==>
              y in bcsd0 || y in added + [queue[0]] || y in q
  {
    var a := added + [queue[0]];
    forall x | x in queue
      ensures x in q || x in a
    {
      if x != queue[0] {
        var k :| 0 <= k < |queue| && queue[k] == x;
        assert queue[1..][k - 1] == x;
        assert q[..|queue| - 1][k - 1] == x;
      }
    }
    forall x, y | x in a && OnNeighbour(grid, c, x, y)
      ensures y in bcsd0 || y in a || y in q
    {
    }
  }

  /** One iteration of flood keeps its loop invariant. */
  lemma FloodStep(grid: Grid, c: Classifier, queue0: seq<Coord>, bcsd0: seq<Coord>,
                  queue: seq<Coord>, added: seq<Coord>, q: seq<Coord>)
    requires FloodInvariant(grid, c, queue0, bcsd0, queue, added)
    requires queue != [] && NextQueue(grid, c, bcsd0 + added, queue, q)
    ensures FloodInvariant(grid, c, queue0, bcsd0, q, added + [queue[0]])
  {
    StepKeepsQueue(grid, c, queue0, bcsd0, queue, added, q);
    StepKeepsOrder(grid, c, queue0, bcsd0, queue, added);
    StepKeepsClosure(grid, c, queue0, bcsd0, queue, added, q);
  }

  /** The queue EnqueueUnseen leaves after `point` was appended is the next
      queue of the loop. */
  lemma EnqueuedIsNext(grid: Grid, c: Classifier, bcsd: seq<Coord>, queue: seq<Coord>,
                       ns: seq<Coord>, q: seq<Coord>)
    requires queue != [] && NoDup(queue)
    requires forall y :: y in ns <==> OnNeighbour(grid, c, queue[0], y)
    requires NoDup(q) && |q| >= |queue[1..]| && q[..|queue[1..]|] == queue[1..]
    requires forall x :: x in ns ==> x in bcsd + [queue[0]] || x in q
    requires forall x :: x in q ==> x in queue[1..] || (x in ns && x !in bcsd + [queue[0]])
    ensures NextQueue(grid, c, bcsd, queue, q)
  {
  }

  /** When the queue is empty the loop invariant gives the flood's contract. */
  /** With unset bounds nothing classifies "on", so every pending cell is a seed. */
  lemma UnsetPendingIsSeed(grid: Grid, c: Classifier, queue0: seq<Coord>, bcsd0: seq<Coord>,
                           queue: seq<Coord>, added: seq<Coord>, x: Coord)
    requires !c.IsSet()
    requires FloodInvariant(grid, c, queue0, bcsd0, queue, added)
    requires x in queue
    ensures x in queue0
  {
  }

  /** With unset bounds a cell whose neighbours classify without failure has
      no neighbour, so appending it keeps every appended cell neighbourless. */
  lemma UnsetAppendIsolated(grid: Grid, c: Classifier, added: seq<Coord>, point: Coord)
    requires !c.IsSet() && |point| >= |grid.shape|
    requires GetTransitionLineNeighbors(grid, c, point, 1).Success?
    requires forall x :: x in added ==> !HasNeighbour(grid, x)
    ensures forall x :: x in added + [point] ==> !HasNeighbour(grid, x)
  {
  }

  /** A drained flood whose appended cells have no neighbours never had a seed
      with a neighbour. */
  lemma IsolatedSeeds(grid: Grid, c: Classifier, queue0: seq<Coord>, bcsd0: seq<Coord>, added: seq<Coord>)
    requires FloodInvariant(grid, c, queue0, bcsd0, [], added)
    requires forall x :: x in added ==> !HasNeighbour(grid, x)
    ensures !exists x :: x in queue0 && HasNeighbour(grid, x)
  {
  }

  lemma FloodDone(grid: Grid, c: Classifier, queue0: seq<Coord>, bcsd0: seq<Coord>, added: seq<Coord>)
    requires FloodInvariant(grid, c, queue0, bcsd0, [], added)
    ensures (bcsd0 + added)[|bcsd0|..] == added
    ensures forall x :: x in queue0 ==> x in bcsd0 + added
    ensures forall x, y :: x in added && OnNeighbour(grid, c, x, y) ==> y in bcsd0 + added
    ensures NoDup(bcsd0) ==> NoDup(bcsd0 + added)
  {
    assert (bcsd0 + added)[|bcsd0|..] == added;
    if NoDup(bcsd0) {
      var b := bcsd0 + added;
      forall i, j | 0 <= i < j < |b|
        ensures b[i] != b[j]
      {
        if i < |bcsd0| && j >= |bcsd0| {
          assert b[j] == added[j - |bcsd0|] && b[i] in bcsd0;
        } else if i >= |bcsd0| {
          assert b[i] == added[i - |bcsd0|] && b[j] == added[j - |bcsd0|];
        }
      }
    }
  }

  /** Appending a cell of the grid not yet in bCSD shrinks the set of cells
      not yet in bCSD: the flood's termination measure. */
  lemma AppendShrinks(shape: seq<int>, bcsd: seq<Coord>, point: Coord)
    requires InGrid(point, shape) && point !in bcsd
    ensures Cells(shape) - (set x | x in bcsd + [point]) < Cells(shape) - (set x | x in bcsd)
  {
    InGridInCells(point, shape);
    assert (set x | x in bcsd + [point]) == (set x | x in bcsd) + {point};
  }

  /** flood(to_process): drain the queue into bCSD. */
  method Flood(grid: Grid, c: Classifier, queue0: seq<Coord>, bcsd0: seq<Coord>) returns (r: Result<seq<Coord>>)
    requires forall x :: x in queue0 ==> InGrid(x, grid.shape)
    requires NoDup(queue0)
    requires forall x :: x in queue0 ==> x !in bcsd0
    ensures r.Failure? ==> r.error == ThresholdUnset && !c.IsSet()
    ensures c.IsSet() ==> r.Success?
    ensures !c.IsSet() ==> (r.Failure? <==> exists x :: x in queue0 && HasNeighbour(grid, x))
    ensures r.Success? ==> |r.value| >= |bcsd0| && r.value[..|bcsd0|] == bcsd0
    ensures r.Success? ==> forall x :: x in queue0 ==> x in r.value
    ensures r.Success? ==> FloodOrder(grid, c, queue0, bcsd0, r.value[|bcsd0|..])
    ensures r.Success? ==> forall x, y :: x in r.value[|bcsd0|..] && OnNeighbour(grid, c, x, y) ==> y in r.value
    ensures r.Success? && NoDup(bcsd0) ==> NoDup(r.value)
  {
    var queue := queue0;
    var bcsd := bcsd0;
    ghost var added: seq<Coord> := [];
    while queue != []
      invariant bcsd == bcsd0 + added
      invariant FloodInvariant(grid, c, queue0, bcsd0, queue, added)
      invariant !c.IsSet() ==> forall x :: x in added ==> !HasNeighbour(grid, x)
      decreases Cells(grid.shape) - set x | x in bcsd
    {
      ghost var oldQueue := queue;
      var next := Get(queue);
      var point := next.0;
      queue := next.1;
      assert point in oldQueue;
      var neighbours := GetTransitionLineNeighbors(grid, c, point, 1);
      if neighbours.Failure? {
        UnsetPendingIsSeed(grid, c, queue0, bcsd0, oldQueue, added, point);
        return Failure(neighbours.error);
      }
      AppendShrinks(grid.shape, bcsd, point);
      if !c.IsSet() {
        UnsetAppendIsolated(grid, c, added, point);
      }
      ghost var oldBcsd := bcsd;
      bcsd := bcsd + [point];
      queue := EnqueueUnseen(queue, bcsd, neighbours.value);
      EnqueuedIsNext(grid, c, oldBcsd, oldQueue, neighbours.value, queue);
      FloodStep(grid, c, queue0, bcsd0, oldQueue, added, queue);
      added := added + [point];
    }
    FloodDone(grid, c, queue0, bcsd0, added);
    if !c.IsSet() {
      IsolatedSeeds(grid, c, queue0, bcsd0, added);
    }
    return Success(bcsd);
  }

  /** The flood's output is contained in every set that holds the seeds and
      is closed under "on" neighbours: it appends only cells reachable from
      the seeds, so together with closure it is the least such set. */
  lemma {:induction false} FloodIsLeast(grid: Grid, c: Classifier, queue0: seq<Coord>,
                                        added: seq<Coord>, s: set<Coord>)
    requires Reached(grid, c, queue0, added)
    requires forall x :: x in queue0 ==> x in s
    requires forall x, y :: x in s && OnNeighbour(grid, c, x, y) ==> y in s
    ensures forall x :: x in added ==> x in s
    decreases |added|
  {
    if added != [] {
      var n := |added| - 1;
      FloodIsLeast(grid, c, queue0, added[..n], s);
      assert added == added[..n] + [added[n]];
    }
  }

  /** A compressed binary diagram for classifier `c`: duplicate-free, made of
      grid cells that classify "on", and closed under "on" neighbours. */
  ghost predicate IsCompressed(grid: Grid, c: Classifier, bcsd: seq<Coord>) {
    && NoDup(bcsd)
    && (forall x :: x in bcsd ==> InGrid(x, grid.shape) && IsOn(c, grid.value(x)))
    && (forall x, y :: x in bcsd && OnNeighbour(grid, c, x, y) ==> y in bcsd)
  }

  /** The batch as batch_random_sampling draws it: grid cells, each with the
      value the grid holds there. */
  predicate SampledFrom(grid: Grid, samples: seq<Sample>) {
    forall i :: 0 <= i < |samples| ==>
      InGrid(samples[i].coord, grid.shape) && samples[i].value == grid.value(samples[i].coord)
  }

  /** run(): fit the classifier and seed the queue from the sampled batch,
      then flood from an empty bCSD. */
  method Run(grid: Grid, samples: seq<Sample>) returns (r: Result<seq<Coord>>)
    requires SampledFrom(grid, samples)
    ensures r.Failure? <==> |samples| == 0
    ensures r.Failure? ==> r.error == EmptySample
    ensures r.Success? ==> (|samples| > 0 && IsCompressed(grid, Fit(Values(samples)), r.value))
    ensures r.Success? ==>
              (|samples| > 0 && Reached(grid, Fit(Values(samples)), OnKeys(samples, Fit(Values(samples))), r.value))
    ensures r.Success? ==>
              (|samples| > 0 && forall i :: 0 <= i < |samples| && IsOn(Fit(Values(samples)), samples[i].value) ==>
                                  samples[i].coord in r.value)
    ensures r.Success? ==> |r.value| > 0
  {
    var seeded := RandomSampling(samples);
    if seeded.Failure? {
      return Failure(seeded.error);
    }
    var c := seeded.value.classifier;
    var queue := seeded.value.queue;
    forall x | x in queue
      ensures InGrid(x, grid.shape) && IsOn(c, grid.value(x))
    {
      var i :| 0 <= i < |samples| && samples[i].coord == x && IsOn(c, samples[i].value);
    }
    var flooded := Flood(grid, c, queue, []);
    assert flooded.value[0..] == flooded.value;
    forall i | 0 <= i < |samples| && IsOn(c, samples[i].value)
      ensures samples[i].coord in flooded.value
    {
      assert samples[i].coord in queue;
    }
    assert queue[0] in flooded.value;
    forall x
      ensures x in queue <==> x in OnKeys(samples, c)
    {
      OnKeysMember(samples, c, x);
    }
    ReachedSameSeeds(grid, c, queue, OnKeys(samples, c), flooded.value);
    return flooded;
  }
}
