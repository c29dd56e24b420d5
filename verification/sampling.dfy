/** The data side of `Trainer.net_step`: drawing a mini-batch of indices into
    the deduplicated pool, gathering the rows they name, and putting the
    network's own prediction in place of every absent policy target. The
    forward pass, the loss and the optimizer step are not modelled; the
    network is a function from the optimizer step counter `it` and a state
    row to a policy row.
 */
module Sampling {
  import opened Examples

  /** The network after `step` optimizer updates, applied to one state row. */
  type Predictor = (nat, seq<real>) -> Policy

  /** The rows of one mini-batch: `x`, `p_r` and `v_r` of the source, with the
      indices that selected them. */
  datatype Batch = Batch(ids: seq<nat>, states: seq<seq<real>>, policies: seq<Policy>, values: seq<real>)

  /** `b` has `n` rows, row `i` being the pool example `ids[i]`, except that an
      absent policy target is replaced by the prediction for that row's state. */
  ghost predicate Drawn(b: Batch, pool: seq<Example>, n: nat, predict: Predictor, step: nat)
  {
    && |b.ids| == n && |b.states| == n && |b.policies| == n && |b.values| == n
    && forall i :: 0 <= i < n ==>
         && b.ids[i] < |pool|
         && b.states[i] == pool[b.ids[i]].state
         && b.values[i] == pool[b.ids[i]].value
         && b.policies[i] == (if pool[b.ids[i]].policy != [] then pool[b.ids[i]].policy
                              else predict(step, b.states[i]))
  }

  /** The index draw of `net_step` (train.py:108): `batchSize` indices drawn
      with replacement, each an arbitrary value in `[0, poolSize)`. An empty
      range has no index to draw, so an empty pool fails. */
  method SampleIndices(poolSize: nat, batchSize: nat) returns (r: Result<seq<nat>>)
    ensures r.Failure? <==> poolSize == 0
    ensures r.Success? ==> |r.value| == batchSize
    ensures r.Success? ==> forall i :: 0 <= i < |r.value| ==> r.value[i] < poolSize
  {
    if poolSize == 0 {
      return Failure(EmptyPool);
    }
    var ids: seq<nat> := [];
    while |ids| < batchSize
      invariant |ids| <= batchSize
      invariant forall i :: 0 <= i < |ids| ==> ids[i] < poolSize
      decreases batchSize - |ids|
    {
      var id: nat :| id < poolSize;
      ids := ids + [id];
    }
    return Success(ids);
  }

  /** The policy targets of a batch (train.py:117): a present target is
      kept, an absent one is replaced by the network's prediction for that
      row. When the network never predicts an empty row, no target is left
      absent. */
  function FillPolicies(targets: seq<Policy>, predicted: seq<Policy>): (r: seq<Policy>)
    requires |predicted| == |targets|
    ensures |r| == |targets|
    ensures forall i :: 0 <= i < |r| && targets[i] != [] ==> r[i] == targets[i]
    ensures forall i :: 0 <= i < |r| && targets[i] == [] ==> r[i] == predicted[i]
    ensures (forall i :: 0 <= i < |predicted| ==> predicted[i] != []) ==> forall i :: 0 <= i < |r| ==> r[i] != []
  {
    seq(|targets|, i requires 0 <= i < |targets| => if targets[i] != [] then targets[i] else predicted[i])
  }

  /** The batch part of `net_step` at optimizer step `step`. It fails exactly
      when the pool is empty; otherwise it draws `batchSize` rows of the pool,
      and when the network never predicts an empty row, no policy target of
      the batch is absent. The rows are taken to be of one width: the tensor
      conversions of the batch (train.py:113, 119) are not modelled. */
  method NetStep(pool: seq<Example>, batchSize: nat, predict: Predictor, step: nat) returns (r: Result<Batch>)
    ensures r.Failure? <==> |pool| == 0
    ensures r.Success? ==> Drawn(r.value, pool, batchSize, predict, step)
    ensures r.Success? && (forall s :: predict(step, s) != []) ==>
              forall i :: 0 <= i < batchSize ==> r.value.policies[i] != []
  {
    var sampled := SampleIndices(|pool|, batchSize);
    if sampled.Failure? {
      return Failure(sampled.error);
    }
    var ids := sampled.value;
    var x := seq(|ids|, i requires 0 <= i < |ids| => pool[ids[i]].state);
    var targets := seq(|ids|, i requires 0 <= i < |ids| => pool[ids[i]].policy);
    var values := seq(|ids|, i requires 0 <= i < |ids| => pool[ids[i]].value);
    var predicted := seq(|x|, i requires 0 <= i < |x| => predict(step, x[i]));
    return Success(Batch(ids, x, FillPolicies(targets, predicted), values));
  }
}
