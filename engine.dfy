// The top level of the estimation engine (ransac): allocate the models
// buffer, partition the iterations, run every worker over its slice, then
// reduce the buffer to the best model.
module Engine {
  import opened Types
  import opened Scoring
  import opened Partitioner
  import opened Worker
  import opened Reducer

  /**
   * ransac, with the workers run one after another in worker order instead of
   * as threads. The result is the first candidate with the most inliers among
   * the `maxIterations` candidates, whatever the number of workers, and every
   * slot of the buffer is written exactly once (`writes` counts the writes).
   */
  method Ransac(points: seq<Point>, maxIterations: nat, epsilon: Double, numCores: nat,
                ops: FloatOps, draw: nat -> nat)
    returns (bestModel: Model, ghost writes: seq<nat>)
    requires |points| >= 1
    requires maxIterations >= 1
    requires numCores >= 1
    ensures var candidates := Candidates(points, epsilon, ops, draw, maxIterations);
      bestModel == candidates[BestIndex(candidates)]
    ensures Scored(bestModel, points, epsilon, ops) && 0 <= bestModel.inliers <= |points|
    ensures |writes| == maxIterations && forall k :: 0 <= k < maxIterations ==> writes[k] == 1
  {
    var models := new Model[maxIterations];
    var threadData, currentIndex := Partition(maxIterations, numCores);
    ghost var perWorker, extra := maxIterations / numCores, maxIterations % numCores;
    SharesSumToTotal(maxIterations, numCores);
    writes := seq(maxIterations, k => 0);
    for i := 0 to numCores
      invariant Offset(perWorker, extra, i) <= maxIterations
      invariant forall j :: 0 <= j < numCores ==> threadData[j] == Assignment(perWorker, extra, j)
      invariant forall k :: 0 <= k < Offset(perWorker, extra, i) ==>
                  models[k] == SlotModel(points, epsilon, ops, draw, k)
      invariant |writes| == maxIterations
      invariant forall k :: 0 <= k < maxIterations ==>
                  writes[k] == if k < Offset(perWorker, extra, i) then 1 else 0
    {
      SliceInBuffer(maxIterations, numCores, i);
      assert threadData[i] == ThreadData(Offset(perWorker, extra, i), Share(perWorker, extra, i));
      writes := GenerateModelThread(points, epsilon, ops, draw, threadData[i], models, writes);
    }
    ghost var candidates := Candidates(points, epsilon, ops, draw, maxIterations);
    assert models[..maxIterations] == candidates;
    bestModel := SelectBestModel(models, maxIterations);
    ghost var best := BestIndex(candidates);
    assert bestModel == SlotModel(points, epsilon, ops, draw, best);
    GeneratedModelSound(points, epsilon, ops, draw(2 * best), draw(2 * best + 1));
  }
}
