/** `Trainer.remove_duplicates`: merges the examples of a flattened buffer that
    share a dedup key, averaging their value targets over all occurrences and
    their policy targets over the occurrences whose policy is not empty.

    The reference definitions (`Occurrences`, `FirstKeys`, `Policies`, `VecSum`,
    `ValueSum`, `MeanPolicy`, `MeanValue`) say what the result should be; `Step`,
    `Accumulate` and `Finalize` follow the two loops of the source over its three
    dictionaries, and `RemoveDuplicates` connects the two.
 */
module Dedup {
  import opened Examples

  // ---------------------------------------------------------------------------
  // Reference definitions, all by recursion on the last element (a left fold,
  // the order in which the source visits the buffer).
  // ---------------------------------------------------------------------------

  /** The examples of `xs` whose key is `k`, in buffer order. */
  function Occurrences(xs: seq<Example>, k: Key): seq<Example>
    decreases |xs|
  {
    if |xs| == 0 then []
    else
      Occurrences(xs[..|xs| - 1], k)
      + (if xs[|xs| - 1].key == k then [xs[|xs| - 1]] else [])
  }

  /** The distinct keys of `xs` in order of first occurrence. */
  function FirstKeys(xs: seq<Example>): seq<Key>
    decreases |xs|
  {
    if |xs| == 0 then []
    else
      var f := FirstKeys(xs[..|xs| - 1]);
      if xs[|xs| - 1].key in f then f else f + [xs[|xs| - 1].key]
  }

  /** The non-empty policy targets of `occ`, in order. */
  function Policies(occ: seq<Example>): (ps: seq<Policy>)
    ensures forall i :: 0 <= i < |ps| ==> ps[i] != []
    decreases |occ|
  {
    if |occ| == 0 then []
    else
      Policies(occ[..|occ| - 1])
      + (if occ[|occ| - 1].policy != [] then [occ[|occ| - 1].policy] else [])
  }

  /** Element-wise sum of two vectors; like Python's `zip`, it stops at the
      shorter one. */
  function AddVec(a: seq<real>, b: seq<real>): seq<real>
  {
    seq(Min(|a|, |b|), i requires 0 <= i < Min(|a|, |b|) => a[i] + b[i])
  }

  /** Running element-wise sum of a list of policies: the first one as is, each
      later one added to the running sum. */
  function VecSum(ps: seq<Policy>): seq<real>
    decreases |ps|
  {
    if |ps| == 0 then []
    else if |ps| == 1 then ps[0]
    else AddVec(VecSum(ps[..|ps| - 1]), ps[|ps| - 1])
  }

  function Scale(p: seq<real>, d: real): seq<real>
    requires d != 0.0
  {
    seq(|p|, i requires 0 <= i < |p| => p[i] / d)
  }

  function ValueSum(occ: seq<Example>): real
    decreases |occ|
  {
    if |occ| == 0 then 0.0 else ValueSum(occ[..|occ| - 1]) + occ[|occ| - 1].value
  }

  /** The mean value target of a non-empty list of occurrences. */
  function MeanValue(occ: seq<Example>): real
    requires |occ| > 0
  {
    ValueSum(occ) / (|occ| as real)
  }

  /** The mean of the non-empty policy targets; empty when all of them are. */
  function MeanPolicy(occ: seq<Example>): Policy
  {
    var ps := Policies(occ);
    if |ps| == 0 then [] else Scale(VecSum(ps), |ps| as real)
  }

  /** Column `j` of the non-empty policies of `occ`, summed: an independent
      statement of what the element-wise sum should hold. */
  function ColumnSum(occ: seq<Example>, j: nat): real
    requires forall i :: 0 <= i < |occ| && occ[i].policy != [] ==> j < |occ[i].policy|
    decreases |occ|
  {
    if |occ| == 0 then 0.0
    else
      ColumnSum(occ[..|occ| - 1], j)
      + (if occ[|occ| - 1].policy != [] then occ[|occ| - 1].policy[j] else 0.0)
  }

  // ---------------------------------------------------------------------------
  // The source's algorithm: one pass filling three dictionaries keyed by the
  // dedup key, then one pass dividing the sums by the counts.
  // ---------------------------------------------------------------------------

  /** The three dictionaries of the source. `order` is the insertion order of
      the keys, which is the order `dict.values()` returns them in. `entries[k]`
      is the first record seen for `k`, whose policy and value fields hold the
      running sums; `counts[k]` counts all occurrences and `pol[k]` counts the
      policies summed (starting at 1). */
  datatype Table = Table(order: seq<Key>, entries: map<Key, Example>,
                         counts: map<Key, nat>, pol: map<Key, nat>)

  predicate SameKeys(t: Table)
  {
    t.entries.Keys == t.counts.Keys && t.entries.Keys == t.pol.Keys
  }

  /** The running policy sum after visiting policy `p`: a sum with another
      non-empty policy, the policy itself if none was stored yet, and unchanged
      when `p` is empty. */
  function MergePolicy(acc: Policy, p: Policy): Policy
  {
    if p != [] && acc != [] then AddVec(acc, p)
    else if p != [] then p
    else acc
  }

  /** The policy count moves only when two non-empty policies are summed. */
  function MergeCount(acc: Policy, p: Policy, n: nat): nat
  {
    if p != [] && acc != [] then n + 1 else n
  }

  /** The counts of a table are positive, so the division pass never divides
      by zero. */
  predicate PositiveCounts(t: Table)
    requires SameKeys(t)
  {
    forall k :: k in t.counts ==> t.counts[k] > 0 && t.pol[k] > 0
  }

  /** One iteration of the first loop of `remove_duplicates`. Afterwards the
      item's key is in the dictionaries, every other key keeps its entries,
      and the counts stay positive. */
  function Step(t: Table, item: Example): (r: Table)
    requires SameKeys(t)
    ensures SameKeys(r)
    ensures r.entries.Keys == t.entries.Keys + {item.key}
    ensures r.counts[item.key] > 0
    ensures forall k :: k in t.entries && k != item.key ==>
              r.entries[k] == t.entries[k] && r.counts[k] == t.counts[k] && r.pol[k] == t.pol[k]
    ensures PositiveCounts(t) ==> PositiveCounts(r)
  {
    var k := item.key;
    if k in t.entries then
      var acc := t.entries[k];
      Table(t.order,
            t.entries[k := acc.(policy := MergePolicy(acc.policy, item.policy), value := acc.value + item.value)],
            t.counts[k := t.counts[k] + 1],
            t.pol[k := MergeCount(acc.policy, item.policy, t.pol[k])])
    else
      Table(t.order + [k], t.entries[k := item], t.counts[k := 1], t.pol[k := 1])
  }

  /** What the dictionaries hold for key `k` after visiting `xs`. */
  predicate EntryDescribes(t: Table, xs: seq<Example>, k: Key)
    requires k in t.entries && k in t.counts && k in t.pol
  {
    var occ := Occurrences(xs, k);
    var ps := Policies(occ);
    && |occ| > 0
    && t.entries[k] == Example(k, occ[0].state, VecSum(ps), ValueSum(occ))
    && t.counts[k] == |occ|
    && t.pol[k] == (if |ps| == 0 then 1 else |ps|)
  }

  /** The loop invariant of the first loop, for the visited prefix `xs`. */
  predicate Describes(t: Table, xs: seq<Example>)
  {
    && t.order == FirstKeys(xs)
    && t.entries.Keys == KeySet(xs)
    && t.counts.Keys == KeySet(xs)
    && t.pol.Keys == KeySet(xs)
    && forall k :: k in t.entries ==> EntryDescribes(t, xs, k)
  }

  /** The first loop of `remove_duplicates` over the whole buffer. */
  function Accumulate(xs: seq<Example>): (t: Table)
    ensures SameKeys(t)
    ensures PositiveCounts(t)
    decreases |xs|
  {
    if |xs| == 0 then Table([], map[], map[], map[])
    else Step(Accumulate(xs[..|xs| - 1]), xs[|xs| - 1])
  }

  /** After the first loop the dictionaries hold, for every key of the buffer,
      its first record with the sum of all its value targets, the running sum
      of its non-empty policy targets, its number of occurrences and its number
      of non-empty policies (at least 1); the keys are in order of first
      occurrence. */
  lemma {:induction false} AccumulateDescribes(xs: seq<Example>)
    ensures Describes(Accumulate(xs), xs)
    decreases |xs|
  {
    if |xs| == 0 {
      EmptyDescribes();
    } else {
      var front := xs[..|xs| - 1];
      var item := xs[|xs| - 1];
      AccumulateDescribes(front);
      var t0 := Accumulate(front);
      assert Accumulate(xs) == Step(t0, item);
      StepDescribesLast(t0, xs);
    }
  }

  /** The second loop: divide every sum by its count, in insertion order. */
  function Finalize(t: Table): (r: seq<Example>)
    requires SameKeys(t)
    requires forall k :: k in t.order ==> k in t.entries && t.counts[k] > 0 && t.pol[k] > 0
    ensures |r| == |t.order|
    ensures forall i :: 0 <= i < |r| ==>
              r[i].key == t.entries[t.order[i]].key && r[i].state == t.entries[t.order[i]].state
  {
    seq(|t.order|, i requires 0 <= i < |t.order| => Finish(t, t.order[i]))
  }

  /** One division of the second loop: the stored sums divided by their
      counts, so that multiplying back gives the sums. */
  function Finish(t: Table, k: Key): (r: Example)
    requires SameKeys(t)
    requires k in t.entries && t.counts[k] > 0 && t.pol[k] > 0
    ensures r.key == t.entries[k].key && r.state == t.entries[k].state
    ensures r.value * (t.counts[k] as real) == t.entries[k].value
    ensures |r.policy| == |t.entries[k].policy|
    ensures forall j :: 0 <= j < |r.policy| ==> r.policy[j] * (t.pol[k] as real) == t.entries[k].policy[j]
  {
    var acc := t.entries[k];
    acc.(policy := if acc.policy != [] then Scale(acc.policy, t.pol[k] as real) else acc.policy,
         value := acc.value / (t.counts[k] as real))
  }

  /** `remove_duplicates`: one record per key, in order of first occurrence,
      carrying the first occurrence's state, the mean of the key's non-empty
      policy targets and the mean of all its value targets. */
  function RemoveDuplicates(xs: seq<Example>): (r: seq<Example>)
    ensures |r| == |FirstKeys(xs)|
    ensures forall i :: 0 <= i < |r| ==>
              var occ := Occurrences(xs, r[i].key);
              && r[i].key == FirstKeys(xs)[i]
              && |occ| > 0
              && r[i].state == occ[0].state
              && r[i].policy == MeanPolicy(occ)
              && r[i].value == MeanValue(occ)
  {
    var t := Accumulate(xs);
    AccumulateDescribes(xs);
    FirstKeysKeySet(xs);
    FinalizeMeans(t, xs);
    Finalize(t)
  }

  /** Dividing the sums of a table that describes `xs` gives the means. */
  lemma FinalizeMeans(t: Table, xs: seq<Example>)
    requires SameKeys(t) && Describes(t, xs)
    requires forall k :: k in t.order ==> k in t.entries
    ensures forall k :: k in t.order ==> t.counts[k] > 0 && t.pol[k] > 0
    ensures |Finalize(t)| == |FirstKeys(xs)|
    ensures forall i :: 0 <= i < |Finalize(t)| ==>
              var occ := Occurrences(xs, Finalize(t)[i].key);
              && Finalize(t)[i].key == FirstKeys(xs)[i]
              && |occ| > 0
              && Finalize(t)[i].state == occ[0].state
              && Finalize(t)[i].policy == MeanPolicy(occ)
              && Finalize(t)[i].value == MeanValue(occ)
  {
    forall k | k in t.order ensures t.counts[k] > 0 && t.pol[k] > 0 {
      assert EntryDescribes(t, xs, k);
    }
    var r := Finalize(t);
    forall i | 0 <= i < |r|
      ensures var occ := Occurrences(xs, r[i].key);
              && r[i].key == FirstKeys(xs)[i]
              && |occ| > 0
              && r[i].state == occ[0].state
              && r[i].policy == MeanPolicy(occ)
              && r[i].value == MeanValue(occ)
    {
      FinishMeans(t, xs, t.order[i]);
    }
  }

  lemma FinishMeans(t: Table, xs: seq<Example>, k: Key)
    requires SameKeys(t) && Describes(t, xs) && k in t.entries
    ensures |Occurrences(xs, k)| > 0 && t.counts[k] > 0 && t.pol[k] > 0
    ensures Finish(t, k) == Example(k, Occurrences(xs, k)[0].state, MeanPolicy(Occurrences(xs, k)), MeanValue(Occurrences(xs, k)))
  {
    assert EntryDescribes(t, xs, k);
    VecSumNonEmpty(Policies(Occurrences(xs, k)));
  }

  // ---------------------------------------------------------------------------
  // Facts about the reference definitions.
  // ---------------------------------------------------------------------------

  lemma OccurrencesAppend(xs: seq<Example>, e: Example, k: Key)
    ensures Occurrences(xs + [e], k) == Occurrences(xs, k) + (if e.key == k then [e] else [])
  {
    assert (xs + [e])[..|xs|] == xs;
  }

  lemma {:induction false} OccurrencesKeySet(xs: seq<Example>, k: Key)
    ensures |Occurrences(xs, k)| > 0 <==> k in KeySet(xs)
    decreases |xs|
  {
    if |xs| > 0 {
      var front := xs[..|xs| - 1];
      var e := xs[|xs| - 1];
      assert front + [e] == xs;
      OccurrencesKeySet(front, k);
      KeySetAppend(front, e);
    }
  }

  lemma {:induction false} FirstKeysKeySet(xs: seq<Example>)
    ensures forall k :: k in FirstKeys(xs) <==> k in KeySet(xs)
    decreases |xs|
  {
    if |xs| > 0 {
      var front := xs[..|xs| - 1];
      var e := xs[|xs| - 1];
      assert front + [e] == xs;
      FirstKeysKeySet(front);
      KeySetAppend(front, e);
    }
  }

  lemma FirstKeysAppend(xs: seq<Example>, e: Example)
    ensures FirstKeys(xs + [e]) == if e.key in FirstKeys(xs) then FirstKeys(xs) else FirstKeys(xs) + [e.key]
  {
    assert (xs + [e])[..|xs|] == xs;
  }

  lemma PoliciesAppend(occ: seq<Example>, e: Example)
    ensures Policies(occ + [e]) == Policies(occ) + (if e.policy != [] then [e.policy] else [])
  {
    assert (occ + [e])[..|occ|] == occ;
  }

  lemma VecSumAppend(ps: seq<Policy>, p: Policy)
    ensures VecSum(ps + [p]) == if |ps| == 0 then p else AddVec(VecSum(ps), p)
  {
    assert (ps + [p])[..|ps|] == ps;
  }

  lemma ValueSumAppend(occ: seq<Example>, e: Example)
    ensures ValueSum(occ + [e]) == ValueSum(occ) + e.value
  {
    assert (occ + [e])[..|occ|] == occ;
  }

  /** A running sum of non-empty vectors is empty only when nothing was summed. */
  lemma {:induction false} VecSumNonEmpty(ps: seq<Policy>)
    requires forall i :: 0 <= i < |ps| ==> ps[i] != []
    ensures VecSum(ps) == [] <==> |ps| == 0
    decreases |ps|
  {
    if |ps| > 1 {
      VecSumNonEmpty(ps[..|ps| - 1]);
    }
  }

  lemma EmptyDescribes()
    ensures Describes(Table([], map[], map[], map[]), [])
  {
  }

  lemma StepDescribesLast(t: Table, xs: seq<Example>)
    requires |xs| > 0 && Describes(t, xs[..|xs| - 1])
    ensures SameKeys(t) && Describes(Step(t, xs[|xs| - 1]), xs)
  {
    var front, last := xs[..|xs| - 1], xs[|xs| - 1];
    assert front + [last] == xs;
    StepDescribes(t, front, last);
  }

  /** The heart of the first loop's invariant: one more item keeps it. */
  lemma StepDescribes(t: Table, xs: seq<Example>, item: Example)
    requires Describes(t, xs)
    ensures SameKeys(t) && Describes(Step(t, item), xs + [item])
  {
    var r := Step(t, item);
    KeySetAppend(xs, item);
    FirstKeysKeySet(xs);
    FirstKeysAppend(xs, item);
    OccurrencesKeySet(xs, item.key);
    assert r.order == FirstKeys(xs + [item]);
    assert r.entries.Keys == KeySet(xs + [item]);
    assert r.counts.Keys == KeySet(xs + [item]);
    assert r.pol.Keys == KeySet(xs + [item]);
    forall k | k in r.entries ensures EntryDescribes(r, xs + [item], k) {
      if k == item.key {
        if k in t.entries {
          StepSeenKey(t, xs, item);
        } else {
          StepNewKey(t, xs, item);
        }
      } else {
        StepOtherKey(t, xs, item, k);
      }
    }
  }

  lemma StepOtherKey(t: Table, xs: seq<Example>, item: Example, k: Key)
    requires Describes(t, xs) && k != item.key && k in Step(t, item).entries
    ensures SameKeys(t) && EntryDescribes(Step(t, item), xs + [item], k)
  {
    var r := Step(t, item);
    assert k in t.entries;
    assert r.entries[k] == t.entries[k];
    assert r.counts[k] == t.counts[k];
    assert r.pol[k] == t.pol[k];
    OccurrencesAppend(xs, item, k);
    assert Occurrences(xs + [item], k) == Occurrences(xs, k);
    assert EntryDescribes(t, xs, k);
  }

  lemma StepNewKey(t: Table, xs: seq<Example>, item: Example)
    requires Describes(t, xs) && item.key !in t.entries
    ensures SameKeys(t) && EntryDescribes(Step(t, item), xs + [item], item.key)
  {
    var k := item.key;
    OccurrencesKeySet(xs, k);
    OccurrencesAppend(xs, item, k);
    assert Occurrences(xs + [item], k) == [item];
    PoliciesAppend([], item);
    ValueSumAppend([], item);
    assert [] + [item] == [item];
  }

  lemma StepSeenKey(t: Table, xs: seq<Example>, item: Example)
    requires Describes(t, xs) && item.key in t.entries
    ensures SameKeys(t) && EntryDescribes(Step(t, item), xs + [item], item.key)
  {
    var k := item.key;
    var occ := Occurrences(xs, k);
    var acc := t.entries[k];
    var r := Step(t, item);
    assert EntryDescribes(t, xs, k);
    assert r.entries[k] == acc.(policy := MergePolicy(acc.policy, item.policy), value := acc.value + item.value);
    assert r.counts[k] == t.counts[k] + 1;
    assert r.pol[k] == MergeCount(acc.policy, item.policy, t.pol[k]);
    OccurrencesAppend(xs, item, k);
    var occ' := Occurrences(xs + [item], k);
    assert occ' == occ + [item];
    assert occ'[0] == occ[0];
    MergeMatchesReference(occ, item);
  }

  /** Merging one more occurrence into the running sums is the same as
      summing the longer list of occurrences. */
  lemma MergeMatchesReference(occ: seq<Example>, e: Example)
    ensures var ps, ps' := Policies(occ), Policies(occ + [e]);
            && VecSum(ps') == MergePolicy(VecSum(ps), e.policy)
            && (if |ps'| == 0 then 1 else |ps'|) == MergeCount(VecSum(ps), e.policy, if |ps| == 0 then 1 else |ps|)
            && ValueSum(occ + [e]) == ValueSum(occ) + e.value
  {
    var ps, ps' := Policies(occ), Policies(occ + [e]);
    PoliciesAppend(occ, e);
    ValueSumAppend(occ, e);
    VecSumNonEmpty(ps);
    if e.policy != [] {
      assert ps' == ps + [e.policy];
      VecSumAppend(ps, e.policy);
      assert VecSum(ps') == if |ps| == 0 then e.policy else AddVec(VecSum(ps), e.policy);
    } else {
      assert ps' == ps;
    }
  }
}
