// The work partitioner: the set-up loop of ransac that splits the iteration
// count across the workers and gives each a contiguous slice of the buffer.
//
// Shares and offsets are stated in terms of the two numbers the loop starts
// from, `perWorker = maxIterations / numCores` and
// `extra = maxIterations % numCores`, so that the division appears only where
// the shares are added back up to the whole iteration count.
module Partitioner {
  import opened Types

  /** Iterations given to worker `i`: the even share, plus one for each of the first `extra` workers. */
  function Share(perWorker: nat, extra: nat, i: nat): nat
  {
    perWorker + (if i < extra then 1 else 0)
  }

  /** Where worker `i`'s slice starts: the shares of the workers before it, added up. */
  function Offset(perWorker: nat, extra: nat, i: nat): nat
  {
    if i == 0 then 0 else Offset(perWorker, extra, i - 1) + Share(perWorker, extra, i - 1)
  }

  /** The ThreadData worker `i` receives. */
  function Assignment(perWorker: nat, extra: nat, i: nat): ThreadData
  {
    ThreadData(Offset(perWorker, extra, i), Share(perWorker, extra, i))
  }

  /** Closed form of the running index: `i` even shares plus one per earlier favoured worker. */
  lemma {:induction false} OffsetClosedForm(perWorker: nat, extra: nat, i: nat)
    ensures Offset(perWorker, extra, i) == i * perWorker + (if i < extra then i else extra)
  {
    if i > 0 {
      OffsetClosedForm(perWorker, extra, i - 1);
      assert i * perWorker == (i - 1) * perWorker + perWorker;
    }
  }

  /**
   * The shares add up to the whole iteration count: after the last worker the
   * running index equals `total`, so the last slice ends at the end of the buffer.
   */
  lemma SharesSumToTotal(total: nat, workers: nat)
    requires workers >= 1
    ensures Offset(total / workers, total % workers, workers) == total
  {
    OffsetClosedForm(total / workers, total % workers, workers);
    assert total == workers * (total / workers) + total % workers;
  }

  /** Later workers' slices never start before earlier ones'. */
  lemma {:induction false} OffsetMonotone(perWorker: nat, extra: nat, i: nat, j: nat)
    requires i <= j
    ensures Offset(perWorker, extra, i) <= Offset(perWorker, extra, j)
  {
    if i < j {
      OffsetMonotone(perWorker, extra, i, j - 1);
    }
  }

  /** Every worker's slice ends inside the `total`-slot buffer. */
  lemma {:induction false} SliceInBuffer(total: nat, workers: nat, i: nat)
    requires i < workers
    ensures var q, r := total / workers, total % workers;
      Offset(q, r, i) + Share(q, r, i) <= total
  {
    var q, r := total / workers, total % workers;
    SharesSumToTotal(total, workers);
    SlicesDisjoint(q, r, i, workers);
  }

  /** Distinct workers' slices do not overlap: an earlier slice ends before a later one starts. */
  lemma {:induction false} SlicesDisjoint(perWorker: nat, extra: nat, i: nat, j: nat)
    requires i < j
    ensures Offset(perWorker, extra, i) + Share(perWorker, extra, i) <= Offset(perWorker, extra, j)
  {
    OffsetMonotone(perWorker, extra, i + 1, j);
  }

  /** Searches the slices from worker `lo` on for the one holding slot `k`, which lies before the end of the last one. */
  lemma {:induction false} FindOwner(perWorker: nat, extra: nat, workers: nat, k: nat, lo: nat) returns (i: nat)
    requires lo < workers
    requires Offset(perWorker, extra, lo) <= k < Offset(perWorker, extra, workers)
    ensures lo <= i < workers
    ensures Offset(perWorker, extra, i) <= k < Offset(perWorker, extra, i) + Share(perWorker, extra, i)
    decreases workers - lo
  {
    if k < Offset(perWorker, extra, lo) + Share(perWorker, extra, lo) {
      i := lo;
    } else {
      i := FindOwner(perWorker, extra, workers, k, lo + 1);
    }
  }

  /** Every slot of the buffer belongs to exactly one worker's slice. */
  lemma SlotOwner(total: nat, workers: nat, k: nat) returns (i: nat)
    requires workers >= 1 && k < total
    ensures var q, r := total / workers, total % workers;
      && i < workers
      && Offset(q, r, i) <= k < Offset(q, r, i) + Share(q, r, i)
      && forall j :: 0 <= j < workers && Offset(q, r, j) <= k < Offset(q, r, j) + Share(q, r, j) ==> j == i
  {
    var q, r := total / workers, total % workers;
    SharesSumToTotal(total, workers);
    i := FindOwner(q, r, workers, k, 0);
    forall j | 0 <= j < workers && Offset(q, r, j) <= k < Offset(q, r, j) + Share(q, r, j)
      ensures j == i
    {
      if j < i {
        SlicesDisjoint(q, r, j, i);
      } else if i < j {
        SlicesDisjoint(q, r, i, j);
      }
    }
  }

  /**
   * With fewer iterations than workers, the first `total` workers get one
   * iteration each and the rest get none, their empty slices at the end.
   */
  lemma {:induction false} TrailingWorkersIdle(total: nat, workers: nat, i: nat)
    requires total < workers && i < workers
    ensures var q, r := total / workers, total % workers;
      && (i < total ==> Share(q, r, i) == 1 && Offset(q, r, i) == i)
      && (total <= i ==> Share(q, r, i) == 0 && Offset(q, r, i) == total)
  {
    var q, r := total / workers, total % workers;
    assert q == 0 && r == total;
    OffsetClosedForm(q, r, i);
  }

  /**
   * The set-up loop of ransac: hand worker `i` the slice starting at the
   * running `currentIndex`, with the even share of iterations plus one while
   * extra iterations remain. Returns the per-worker data and the final index.
   */
  method Partition(maxIterations: nat, numCores: nat) returns (threadData: array<ThreadData>, currentIndex: nat)
    requires numCores >= 1
    ensures fresh(threadData) && threadData.Length == numCores
    ensures forall i :: 0 <= i < numCores ==>
              threadData[i] == Assignment(maxIterations / numCores, maxIterations % numCores, i)
    ensures currentIndex == maxIterations
  {
    threadData := new ThreadData[numCores];
    var iterationsPerThread := maxIterations / numCores;
    var extraIterations := maxIterations % numCores;
    ghost var extra := extraIterations;
    currentIndex := 0;
    for i := 0 to numCores
      invariant extraIterations == if i <= extra then extra - i else 0
      invariant currentIndex == Offset(iterationsPerThread, extra, i)
      invariant forall j :: 0 <= j < i ==> threadData[j] == Assignment(iterationsPerThread, extra, j)
    {
      var iterations := iterationsPerThread;
      if extraIterations > 0 {
        iterations := iterations + 1;
        extraIterations := extraIterations - 1;
      }
      threadData[i] := ThreadData(currentIndex, iterations);
      currentIndex := currentIndex + iterations;
    }
    SharesSumToTotal(maxIterations, numCores);
  }
}
