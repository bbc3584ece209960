// Best-model reduction (selectBestModel): a running argmax over the buffer.
module Reducer {
  import opened Types

  /**
   * Index of the first model with the largest inlier count: no model has more
   * inliers, and every model before it has strictly fewer.
   */
  function BestIndex(models: seq<Model>): (k: nat)
    requires |models| >= 1
    ensures k < |models|
    ensures forall j :: 0 <= j < |models| ==> models[j].inliers <= models[k].inliers
    ensures forall j :: 0 <= j < k ==> models[j].inliers < models[k].inliers
  {
    if |models| == 1 then 0
    else
      var k := BestIndex(models[..|models| - 1]);
      if models[|models| - 1].inliers > models[k].inliers then |models| - 1 else k
  }

  /** The two properties of BestIndex single it out: any first maximal index is BestIndex. */
  lemma FirstMaximumUnique(models: seq<Model>, k: nat)
    requires k < |models|
    requires forall j :: 0 <= j < |models| ==> models[j].inliers <= models[k].inliers
    requires forall j :: 0 <= j < k ==> models[j].inliers < models[k].inliers
    ensures k == BestIndex(models)
  {
  }

  /**
   * selectBestModel: start from models[0] and replace the running best only by
   * a model with strictly more inliers, scanning the first `numModels` slots.
   */
  method SelectBestModel(models: array<Model>, numModels: nat) returns (bestModel: Model)
    requires 1 <= numModels <= models.Length
    ensures bestModel == models[BestIndex(models[..numModels])]
    ensures exists k :: 0 <= k < numModels && bestModel == models[k]
    ensures forall j :: 0 <= j < numModels ==> models[j].inliers <= bestModel.inliers
  {
    bestModel := models[0];
    ghost var best := 0;
    for i := 0 to numModels
      invariant best < numModels && bestModel == models[best]
      invariant forall j :: 0 <= j < i ==> models[j].inliers <= bestModel.inliers
      invariant forall j :: 0 <= j < best ==> models[j].inliers < bestModel.inliers
    {
      if models[i].inliers > bestModel.inliers {
        bestModel := models[i];
        best := i;
      }
    }
    FirstMaximumUnique(models[..numModels], best);
  }
}
