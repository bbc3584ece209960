// Candidate generation and inlier counting (generateModel and countInliers).
module Scoring {
  import opened Types

  /** Number of points of `points` that lie within `epsilon` of the line. */
  function InlierCount(points: seq<Point>, slope: Double, intercept: Double, epsilon: Double,
                       near: (Point, Double, Double, Double) -> bool): (n: nat)
    ensures n <= |points|
  {
    if |points| == 0 then 0
    else
      InlierCount(points[..|points| - 1], slope, intercept, epsilon, near)
      + (if near(points[|points| - 1], slope, intercept, epsilon) then 1 else 0)
  }

  /** Indices of the points within `epsilon` of the line: the consensus set. */
  function ConsensusSet(points: seq<Point>, slope: Double, intercept: Double, epsilon: Double,
                        near: (Point, Double, Double, Double) -> bool): set<nat>
  {
    set i: nat | i < |points| && near(points[i], slope, intercept, epsilon)
  }

  /** The inlier count is the size of the consensus set. */
  lemma {:induction false} InlierCountIsConsensusSize(points: seq<Point>, slope: Double, intercept: Double,
                                                      epsilon: Double, near: (Point, Double, Double, Double) -> bool)
    ensures InlierCount(points, slope, intercept, epsilon, near)
         == |ConsensusSet(points, slope, intercept, epsilon, near)|
  {
    if |points| > 0 {
      var n := |points| - 1;
      var prefix := points[..n];
      InlierCountIsConsensusSize(prefix, slope, intercept, epsilon, near);
      var before := ConsensusSet(prefix, slope, intercept, epsilon, near);
      var after := ConsensusSet(points, slope, intercept, epsilon, near);
      assert n !in before;
      if near(points[n], slope, intercept, epsilon) {
        assert after == before + {n};
      } else {
        assert after == before;
      }
    }
  }

  /** Every point is an inlier exactly when the count reaches the number of points. */
  lemma {:induction false} AllInliersIff(points: seq<Point>, slope: Double, intercept: Double,
                                         epsilon: Double, near: (Point, Double, Double, Double) -> bool)
    ensures InlierCount(points, slope, intercept, epsilon, near) == |points|
        <==> forall i :: 0 <= i < |points| ==> near(points[i], slope, intercept, epsilon)
  {
    if |points| > 0 {
      var n := |points| - 1;
      var prefix := points[..n];
      AllInliersIff(prefix, slope, intercept, epsilon, near);
      assert forall i :: 0 <= i < n ==> prefix[i] == points[i];
    }
  }

  /** No point is an inlier exactly when the count is zero. */
  lemma {:induction false} NoInliersIff(points: seq<Point>, slope: Double, intercept: Double,
                                        epsilon: Double, near: (Point, Double, Double, Double) -> bool)
    ensures InlierCount(points, slope, intercept, epsilon, near) == 0
        <==> forall i :: 0 <= i < |points| ==> !near(points[i], slope, intercept, epsilon)
  {
    if |points| > 0 {
      var n := |points| - 1;
      var prefix := points[..n];
      NoInliersIff(prefix, slope, intercept, epsilon, near);
      assert forall i :: 0 <= i < n ==> prefix[i] == points[i];
    }
  }

  /**
   * countInliers: one pass over all points, incrementing a counter for each
   * point within `epsilon` of the model's line. Only the slope and intercept
   * of `model` are read.
   */
  method CountInliers(points: seq<Point>, model: Model, epsilon: Double,
                      near: (Point, Double, Double, Double) -> bool) returns (inliers: int)
    ensures inliers == InlierCount(points, model.slope, model.intercept, epsilon, near)
    ensures 0 <= inliers <= |points|
  {
    inliers := 0;
    for i := 0 to |points|
      invariant inliers == InlierCount(points[..i], model.slope, model.intercept, epsilon, near)
    {
      assert points[..i + 1][..i] == points[..i];
      if near(points[i], model.slope, model.intercept, epsilon) {
        inliers := inliers + 1;
      }
    }
    assert points[..|points|] == points;
  }

  /** `rand() % numPoints` for a non-negative draw `r`: always a valid index. */
  function SampleIndex(r: nat, numPoints: nat): (i: nat)
    requires numPoints >= 1
    ensures i < numPoints
    ensures r < numPoints ==> i == r
  {
    r % numPoints
  }

  /** A model carries the inlier count of its own line over the whole point store. */
  predicate Scored(m: Model, points: seq<Point>, epsilon: Double, ops: FloatOps)
  {
    m.inliers == InlierCount(points, m.slope, m.intercept, epsilon, ops.near)
  }

  /**
   * The model generateModel returns when its two calls to rand() yield `r1`
   * and `r2`: the line through the two sampled points, already scored.
   */
  function GeneratedModel(points: seq<Point>, epsilon: Double, ops: FloatOps, r1: nat, r2: nat): Model
    requires |points| >= 1
  {
    var p1 := points[SampleIndex(r1, |points|)];
    var p2 := points[SampleIndex(r2, |points|)];
    var slope := ops.slope(p1, p2);
    var intercept := ops.intercept(p1, slope);
    Model(slope, intercept, InlierCount(points, slope, intercept, epsilon, ops.near))
  }

  /**
   * A generated model is a line through two points of the store (possibly the
   * same point twice), and it is scored: its inlier count is that of its own
   * line over every point, hence between 0 and the number of points.
   */
  lemma GeneratedModelSound(points: seq<Point>, epsilon: Double, ops: FloatOps, r1: nat, r2: nat)
    requires |points| >= 1
    ensures var m := GeneratedModel(points, epsilon, ops, r1, r2);
      && Scored(m, points, epsilon, ops)
      && 0 <= m.inliers <= |points|
      && exists i1, i2 :: 0 <= i1 < |points| && 0 <= i2 < |points|
                       && m.slope == ops.slope(points[i1], points[i2])
                       && m.intercept == ops.intercept(points[i1], m.slope)
  {
  }

  /**
   * generateModel: sample two indices (with replacement), fit the line
   * through them and score it before returning.
   */
  method GenerateModel(points: seq<Point>, epsilon: Double, ops: FloatOps, r1: nat, r2: nat)
    returns (model: Model)
    requires |points| >= 1
    ensures model == GeneratedModel(points, epsilon, ops, r1, r2)
    ensures Scored(model, points, epsilon, ops) && 0 <= model.inliers <= |points|
  {
    var index1 := SampleIndex(r1, |points|);
    var index2 := SampleIndex(r2, |points|);
    var p1 := points[index1];
    var p2 := points[index2];
    var slope := ops.slope(p1, p2);
    var intercept := ops.intercept(p1, slope);
    model := Model(slope, intercept, 0);
    var inliers := CountInliers(points, model, epsilon, ops.near);
    model := model.(inliers := inliers);
    GeneratedModelSound(points, epsilon, ops, r1, r2);
  }
}
