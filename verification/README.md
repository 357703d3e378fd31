# CSDcompressor core in Dafny

This project models the compression engine of CSDcompressor. The engine
finds a sparse binary skeleton (the "bCSD") of a charge-stability diagram
without scanning every cell. It has two parts:

1. The distance-1 Chebyshev neighbour enumerator `d_infinity_neighbors`
   (`neighbours.dfy`). It builds the offsets `{-1, 0, 1}^d` in
   `itertools.product` order, skips the zero offset, shifts the point and
   clips the result to the grid. It fails on a negative distance and on any
   distance other than 1.
2. The compressor (`classification.dfy`, `setqueue.dfy`, `compressor.dfy`):
   - the threshold classifier `normalize`, which maps a value to 1 exactly
     when it is at or above `(min + max) / 2`;
   - the min/max and queue-seeding part of `random_sampling`;
   - `get_transition_line_neighbors`;
   - the worklist `flood`, which drains an ordered set queue into bCSD;
   - `run` with the sampled batch given as input.

The grid is a total function from coordinates to `real` plus a shape. Only
cells of the grid are ever read. The sampled batch is the dictionary that
`batch_random_sampling` returns, modelled as a sequence of (cell, value)
entries in iteration order. The model does not need the cells to be
distinct: a cell that occurs twice is seeded once, as the set queue does. Every operation that can
raise in the source returns a `Result` carrying one of the `Errors.Error`
kinds.

What is proved, in short:
- The enumerator returns exactly the grid cells at Chebyshev distance 1. The
  list is strictly increasing in tuple order, so it has no duplicates, and it
  has at most 3^d - 1 entries. It reproduces both reference vectors of the
  unit test.
- `normalize` fails exactly when the bounds are unset. It returns 0 or 1 and
  is monotone. The maximum sample always classifies "on".
- The seeded queue holds exactly the "on" keys of the batch, in the order of
  their first "on" entry, without duplicates, and it is never empty.
- `flood` terminates. It only appends to bCSD, never twice the same cell, and
  every seed ends up in bCSD. Every appended cell is a grid cell that is a
  seed or classifies "on". Every "on" neighbour of an appended cell is in
  bCSD when it returns. Every appended cell is a seed or an "on" neighbour of
  an earlier one, so bCSD is contained in every "on"-closed set holding the
  seeds.

A batch in which no cell classifies "on" would leave bCSD empty. With exact
values this cannot happen for a non-empty batch. The threshold lies between
the sampled minimum and maximum, so the cell holding the maximum is always
seeded. `Compressor.Run` proves that bCSD is non-empty whenever the batch is
non-empty. For float64 values this holds only when the values are finite and
`max + min` does not overflow (see "## Left out").

Re-adding already visited cells cannot break the closure of bCSD in the
sequential code. The `not in self.bCSD` check (src/compressor.py:194) and the
set queue keep the queue disjoint from bCSD. `Compressor.Flood` proves
closure without exception.

## Model

| member | source | states |
|---|---|---|
| Coords.NeighbourIsChebyshevOne | src/utilities/neighbours.py:6-8 | the neighbour relation used throughout is exactly "grid cell with d-infinity norm of the difference equal to 1", the norm being the largest per-component difference |
| Neighbours.Deltas | src/utilities/neighbours.py:35 | `itertools.product([-1, 0, 1], repeat=d)` has 3^d tuples, each of length d with components in {-1, 0, 1} |
| Neighbours.DeltasComplete | src/utilities/neighbours.py:35 | every tuple in {-1, 0, 1}^d is among the offsets |
| Neighbours.DeltasIncreasing | src/utilities/neighbours.py:35 | the offsets are strictly increasing in tuple order (first dimension slowest, -1 before 0 before 1), so each occurs once |
| Neighbours.DeltasOfTwo | src/utilities/neighbours.py:35 | for d = 2 the offsets are (-1,-1), (-1,0), (-1,1), (0,-1), (0,0), (0,1), (1,-1), (1,0), (1,1) in that order |
| Neighbours.CollectIncreasing | src/utilities/neighbours.py:35-43 | skipping, shifting and clipping keep the offsets' order, so the neighbours come out in increasing tuple order |
| Neighbours.CollectLength | src/utilities/neighbours.py:37-38 | the loop keeps at most one cell per offset and drops the zero offset |
| Neighbours.DInfinityNeighbors | src/utilities/neighbours.py:4-45 | a negative distance fails with NegativeDistance; any other distance than 1 fails with NotImplemented; a point shorter than the shape fails with PointTooShort; otherwise the result holds exactly the distance-1 grid neighbours, never the point itself, in strictly increasing order, without duplicates, at most 3^d - 1 of them |
| Neighbours.NeighboursAre | src/utilities/neighbours.py:35-43 | the output is fixed by its contents: any increasing list of exactly the neighbours is the output |
| Neighbours.NeighboursOfCentre | src/tests/utilities/neighbors.py:9-11 | `(1,1)` in a 3x3 grid gives (0,0), (0,1), (0,2), (1,0), (1,2), (2,0), (2,1), (2,2) |
| Neighbours.NeighboursOfCorner | src/tests/utilities/neighbors.py:12-14 | `(0,0)` in a 3x3 grid gives (0,1), (1,0), (1,1) |
| Classification.Normalize | src/compressor.py:134-148 | fails with ThresholdUnset exactly when min or max is unset; otherwise returns 0 or 1, and 1 exactly when the value is at or above (min + max) / 2, the midpoint included |
| Classification.NormalizeMonotone | src/compressor.py:144-148 | a larger value never normalises lower |
| Classification.ExtremesClassify | src/compressor.py:144-148 | with min <= max the threshold lies between them; the maximum is "on"; the minimum is "off" exactly when min < max |
| Classification.NormalizeExamples | src/compressor.py:141-148 | with min 0.0 and max 1.0: 0.4 gives 0, 0.5 and 0.6 give 1; before sampling every value fails |
| Classification.MaxValue | src/compressor.py:117 | the maximum of a non-empty batch is one of its values and bounds all of them from above |
| Classification.MinValue | src/compressor.py:119 | the minimum of a non-empty batch is one of its values and bounds all of them from below |
| Classification.Fit | src/compressor.py:116-119 | after sampling both bounds are set, min <= max, both are sampled values, and every sampled value lies between them |
| SetQueue.Put | src/compressor.py:194-196 | `put` keeps the pending entries as a prefix, adds the coordinate only when it is not pending, and preserves freedom from duplicates |
| SetQueue.Get | src/compressor.py:184 | `get` hands back the oldest entry; on a duplicate-free queue it is not left in the rest |
| SetQueue.PutIdempotent | src/compressor.py:181-183 | putting a coordinate that is already pending changes nothing |
| SetQueue.PutGetRoundTrip | src/compressor.py:184-196 | first in, first out: on an empty queue `get` returns what was `put`; otherwise `get` still returns the oldest entry, and a `put` of another coordinate commutes with it |
| Compressor.OnKeysMember | src/compressor.py:127-130 | a cell is a seed exactly when some batch entry with that cell classifies "on" |
| Compressor.OnKeysNoDup | src/compressor.py:127-130 | the seeds are duplicate-free for any batch, because they go through the set queue |
| Compressor.OnKeysOrder | src/compressor.py:124-130 | the seeds are queued in batch order: an earlier seed has an "on" entry before every "on" entry of a later seed |
| Compressor.SeedsNonEmpty | src/compressor.py:116-130 | the seeds are never empty, because the entry holding the maximum is "on" |
| Compressor.RandomSampling | src/compressor.py:102-132 | an empty batch fails with EmptySample; otherwise the classifier is fitted to the batch and the queue is the batch's "on" cells in the order of their first "on" entry, without duplicates, and non-empty |
| Compressor.KeepOn | src/compressor.py:159-163 | keeps, in order, exactly the cells whose grid value normalises to 1; fails exactly when there is a cell to classify and the bounds are unset |
| Compressor.GetTransitionLineNeighbors | src/compressor.py:150-163 | propagates the enumerator's errors; with distance 1 it fails exactly when the bounds are unset and the point has at least one grid neighbour to classify; on success it returns a subsequence of `d_infinity_neighbors` holding exactly the "on" distance-1 neighbours, increasing and duplicate-free |
| Compressor.EnqueueUnseen | src/compressor.py:190-196 | afterwards every "on" neighbour is in bCSD or pending; only neighbours outside bCSD were added; the old queue is a prefix; no duplicates |
| Compressor.FloodStep | src/compressor.py:179-196 | one iteration keeps the loop invariant: queue duplicate-free and disjoint from bCSD, seeds pending or appended, closure up to the queue, every pending cell a seed or an "on" neighbour of an appended cell |
| Compressor.AppendShrinks | src/compressor.py:184-185 | each iteration appends a grid cell not yet in bCSD, so the set of unvisited grid cells shrinks and the loop terminates |
| Compressor.Flood | src/compressor.py:165-196 | fails only with ThresholdUnset, and with unset bounds fails exactly when some seed has a grid neighbour to classify; with set bounds it succeeds; on success bCSD keeps its old entries as a prefix, every seed ends up in it, appended cells are distinct, new, in the grid and seeds or "on", each is a seed or an "on" neighbour of an earlier one, every "on" neighbour of an appended cell is in bCSD, and bCSD is duplicate-free if it was |
| Compressor.FloodIsLeast | src/compressor.py:165-196 | the appended cells lie in every set that holds the seeds and is closed under "on" neighbours |
| Compressor.Run | src/compressor.py:200-208 | an empty batch fails; otherwise bCSD is duplicate-free, non-empty, made of "on" grid cells, closed under "on" neighbours, holds every "on" batch cell, and each of its cells is reached from those seeds through "on" neighbours |

## Left out

- `estimate_batch_size` (src/compressor.py:94-100) is not modelled. It computes with `math.pow` and `math.log` in floating point, and its own docstring calls the formula wrong. `Compressor.Run` takes the sampled batch directly.
- `src/utilities/sampling.py` draws with `np.random`. Its output is an input here: a batch of grid cells carrying the grid's values (`SampledFrom`).
- `OrderedSetQueue` (src/utilities/orderedSetQueue.py, imported at src/compressor.py:10) is modelled from its use: FIFO order, and `put` ignores a pending coordinate. Whether it also ignores a coordinate that was already taken out is not modelled; the flood never relies on it, because of the `not in self.bCSD` check.
- `QDSimulator` file loading and numpy indexing are replaced by `Compressor.Grid`. Numpy's wrap-around of negative indices never matters, because only grid cells are read.
- Field values are exact reals, not float64. The midpoint `(max + min) / 2` (src/compressor.py:144) is computed without rounding or overflow. With floats, a sum that overflows to infinity makes every value classify 0 and leaves bCSD empty, and NaN values change what `max`, `min` and the comparison return. The non-empty bCSD of `Compressor.Run` is promised only for exact values.
- All `print` logging, and the parallelisation and race-condition notes, are left out. The model is single-threaded.
- Compressor.Flood: requires the engine state it is called in: pending cells are grid cells, without duplicates and not yet in bCSD. The source does not check this. `run` establishes it on a freshly built engine; on a reused one it need not hold (next line).
- Compressor.Run: models one `run()` on a freshly built `Compressor`. `bCSD` and `to_process` are instance state (src/compressor.py:28-29). A second `run()` on the same instance seeds again (line 130) and `flood` appends unconditionally (line 185), so seeds already in bCSD are appended a second time. The model promises nothing about that case.
- Compressor.Flood: on failure the source has already appended to `self.bCSD` before raising. The model returns only the error; the cells already appended to `self.bCSD` on the instance are not modelled.
- Compressor.Flood: always uses distance 1, because the source calls `get_transition_line_neighbors` with its default distance.
