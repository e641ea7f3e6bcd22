/**
 * The index arithmetic that hands contiguous slices of work to threads.
 * Two schemes appear in the source:
 *  - the floor split, where slice i starts at i * (n / t) and ends where
 *    slice i + 1 starts, except the last, which ends at n
 *    (Node::_insert, Solver::calculateGravity, CollisionGrid::checkCollisionsInGrid);
 *  - the ceiling split, where slices of ceil(n / t) indices are clamped to n
 *    and empty slices are not started (QuadTree::calculateForces).
 * Only the ranges are modelled: the threads themselves are not.
 */
module WorkSplit {
  import opened Arithmetic

  /** The half-open index range [start, end). */
  datatype Range = Range(start: int, end: int)

  predicate InRange(k: int, r: Range) {
    r.start <= k < r.end
  }

  /** The i-th slice of the floor split of n items among t workers. */
  function FloorSplit(n: nat, t: nat, i: nat): (r: Range)
    requires t >= 1 && i < t
    ensures 0 <= r.start <= r.end <= n
    ensures i == 0 ==> r.start == 0
    ensures i == t - 1 ==> r.end == n
  {
    var per := n / t;
    MulMonotone(i, t - 1, per);
    MulMonotone(i + 1, t, per);
    Range(i * per, if i == t - 1 then n else (i + 1) * per)
  }

  /** Consecutive slices of the floor split meet: one ends where the next starts. */
  lemma FloorSplitContiguous(n: nat, t: nat, i: nat)
    requires t >= 1 && i + 1 < t
    ensures FloorSplit(n, t, i).end == FloorSplit(n, t, i + 1).start
  {
  }

  /** Slices of the floor split do not overlap. */
  lemma {:induction false} FloorSplitDisjoint(n: nat, t: nat, i: nat, j: nat)
    requires t >= 1 && i < j < t
    ensures FloorSplit(n, t, i).end <= FloorSplit(n, t, j).start
    decreases j - i
  {
    FloorSplitContiguous(n, t, i);
    if i + 1 < j {
      FloorSplitDisjoint(n, t, i + 1, j);
    }
  }

  /** Every index below n lies in the slice of some worker at or below i. */
  lemma {:induction false} FloorSplitCoversUpTo(n: nat, t: nat, i: nat, k: int)
    requires t >= 1 && i < t
    requires 0 <= k < FloorSplit(n, t, i).end
    ensures exists w :: 0 <= w <= i && InRange(k, FloorSplit(n, t, w))
  {
    if k < FloorSplit(n, t, i).start {
      FloorSplitContiguous(n, t, i - 1);
      FloorSplitCoversUpTo(n, t, i - 1, k);
    }
  }

  /**
   * The floor split partitions [0, n): every index lies in the slice of
   * exactly one worker.
   */
  lemma FloorSplitPartitions(n: nat, t: nat, k: int)
    requires t >= 1 && 0 <= k < n
    ensures exists w :: 0 <= w < t && InRange(k, FloorSplit(n, t, w))
    ensures forall a, b ::
      (0 <= a < t && 0 <= b < t && InRange(k, FloorSplit(n, t, a)) && InRange(k, FloorSplit(n, t, b))) ==> a == b
  {
    FloorSplitCoversUpTo(n, t, t - 1, k);
    forall a, b | 0 <= a < t && 0 <= b < t &&
      InRange(k, FloorSplit(n, t, a)) && InRange(k, FloorSplit(n, t, b))
      ensures a == b
    {
      if a < b {
        FloorSplitDisjoint(n, t, a, b);
      } else if b < a {
        FloorSplitDisjoint(n, t, b, a);
      }
    }
  }

  /** Node::_insert uses min(hardware threads, particle count) workers. */
  function InsertWorkers(hardwareThreads: nat, n: nat): (t: nat)
    ensures t <= hardwareThreads && t <= n
    ensures t == hardwareThreads || t == n
  {
    if hardwareThreads < n then hardwareThreads else n
  }

  /** chunkSize = (n + t - 1) / t, the ceiling of n / t. */
  function CeilChunk(n: nat, t: nat): (c: nat)
    requires t >= 1
    ensures c * t >= n
    ensures n > 0 ==> c >= 1
  {
    var c := (n + t - 1) / t;
    assert (n + t - 1) == c * t + (n + t - 1) % t;
    c
  }

  /** The i-th slice of the ceiling split: [i * c, min(i * c + c, n)). */
  function CeilSplit(n: nat, t: nat, i: nat): (r: Range)
    requires t >= 1
    ensures r.start == i * CeilChunk(n, t)
    ensures r.end <= n && r.end - r.start <= CeilChunk(n, t)
  {
    var c := CeilChunk(n, t);
    var start := i * c;
    Range(start, if start + c < n then start + c else n)
  }

  /** Slices of the ceiling split do not overlap. */
  lemma CeilSplitDisjoint(n: nat, t: nat, i: nat, j: nat)
    requires t >= 1 && i < j
    ensures CeilSplit(n, t, i).end <= CeilSplit(n, t, j).start
  {
    MulMonotone(i + 1, j, CeilChunk(n, t));
  }

  /**
   * Every index below n lies in the slice of exactly one of the t workers,
   * and that slice is not empty, so its thread is started.
   */
  lemma CeilSplitPartitions(n: nat, t: nat, k: int)
    requires t >= 1 && 0 <= k < n
    ensures exists w :: 0 <= w < t && InRange(k, CeilSplit(n, t, w))
    ensures forall a, b ::
      (0 <= a < t && 0 <= b < t && InRange(k, CeilSplit(n, t, a)) && InRange(k, CeilSplit(n, t, b))) ==> a == b
  {
    var c := CeilChunk(n, t);
    var w := k / c;
    assert k == w * c + k % c;
    if w >= t {
      MulMonotone(t, w, c);
      assert false;
    }
    assert InRange(k, CeilSplit(n, t, w));
    forall a, b | 0 <= a < t && 0 <= b < t &&
      InRange(k, CeilSplit(n, t, a)) && InRange(k, CeilSplit(n, t, b))
      ensures a == b
    {
      if a < b {
        CeilSplitDisjoint(n, t, a, b);
      } else if b < a {
        CeilSplitDisjoint(n, t, b, a);
      }
    }
  }
}
