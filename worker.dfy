// The iteration worker (generateModelThread): fills its own slice of the
// shared models buffer with freshly generated, scored candidates.
module Worker {
  import opened Types
  import opened Scoring

  /**
   * The candidate stored in slot `k` of the models buffer. The values returned
   * by rand() are the oracle `draw`; slot `k` consumes draws `2k` and `2k+1`.
   */
  function SlotModel(points: seq<Point>, epsilon: Double, ops: FloatOps, draw: nat -> nat, k: nat): Model
    requires |points| >= 1
  {
    GeneratedModel(points, epsilon, ops, draw(2 * k), draw(2 * k + 1))
  }

  /** The whole buffer of `n` candidates, slot by slot. */
  function Candidates(points: seq<Point>, epsilon: Double, ops: FloatOps, draw: nat -> nat, n: nat): seq<Model>
    requires |points| >= 1
  {
    seq(n, k requires 0 <= k < n => SlotModel(points, epsilon, ops, draw, k))
  }

  /** `writes` with every count in slots `lo .. hi - 1` raised by one. */
  function Bumped(writes: seq<nat>, lo: nat, hi: nat): (w: seq<nat>)
    ensures |w| == |writes|
  {
    seq(|writes|, k requires 0 <= k < |writes| => if lo <= k < hi then writes[k] + 1 else writes[k])
  }

  /** Recording one more write at the end of the range extends the range by one slot. */
  lemma BumpedStep(writes: seq<nat>, lo: nat, hi: nat)
    requires lo <= hi < |writes|
    ensures Bumped(writes, lo, hi)[hi := Bumped(writes, lo, hi)[hi] + 1] == Bumped(writes, lo, hi + 1)
  {
  }

  /**
   * generateModelThread: for `i` from 0 to the worker's iteration count,
   * write a new candidate into slot `offset + i`. Slots outside the slice are
   * left as they were. The ghost `writes` counts the writes to each slot.
   */
  method GenerateModelThread(points: seq<Point>, epsilon: Double, ops: FloatOps, draw: nat -> nat,
                             data: ThreadData, models: array<Model>, ghost writes: seq<nat>)
    returns (ghost writes': seq<nat>)
    requires |points| >= 1
    requires data.offset + data.iterations <= models.Length
    requires |writes| == models.Length
    modifies models
    ensures forall k :: data.offset <= k < data.offset + data.iterations ==>
              models[k] == SlotModel(points, epsilon, ops, draw, k)
    ensures forall k :: 0 <= k < models.Length && !(data.offset <= k < data.offset + data.iterations) ==>
              models[k] == old(models[k])
    ensures writes' == Bumped(writes, data.offset, data.offset + data.iterations)
  {
    writes' := writes;
    assert writes' == Bumped(writes, data.offset, data.offset);
    for i := 0 to data.iterations
      invariant forall k :: data.offset <= k < data.offset + i ==>
                  models[k] == SlotModel(points, epsilon, ops, draw, k)
      invariant models[..data.offset] == old(models[..data.offset])
      invariant models[data.offset + i..] == old(models[data.offset + i..])
      invariant writes' == Bumped(writes, data.offset, data.offset + i)
    {
      var slot := data.offset + i;
      var model := GenerateModel(points, epsilon, ops, draw(2 * slot), draw(2 * slot + 1));
      models[slot] := model;
      BumpedStep(writes, data.offset, slot);
      writes' := writes'[slot := writes'[slot] + 1];
    }
  }
}
