/** What `remove_duplicates` promises about its result: one record per key, the
    keys in order of first occurrence, values and policies averaged as the
    source's counters prescribe, and nothing changed when there was nothing to
    merge (hence idempotence).
 */
module DedupProperties {
  import opened Examples
  import opened Dedup

  /** Every occurrence of a later key in `xs` is preceded by an occurrence of
      each earlier key: `ks` lists keys in order of first occurrence. */
  ghost predicate FirstOccurrenceOrder(ks: seq<Key>, xs: seq<Example>)
  {
    forall i, j, q :: 0 <= i < j < |ks| && 0 <= q < |xs| && xs[q].key == ks[j] ==>
      exists p :: 0 <= p < q && xs[p].key == ks[i]
  }

  // ---------------------------------------------------------------------------
  // The key order.
  // ---------------------------------------------------------------------------

  lemma {:induction false} FirstKeysDistinct(xs: seq<Example>)
    ensures forall i, j :: 0 <= i < j < |FirstKeys(xs)| ==> FirstKeys(xs)[i] != FirstKeys(xs)[j]
    ensures |FirstKeys(xs)| <= |xs|
    decreases |xs|
  {
    if |xs| > 0 {
      FirstKeysDistinct(xs[..|xs| - 1]);
    }
  }

  lemma {:induction false} FirstKeysOrder(xs: seq<Example>)
    ensures FirstOccurrenceOrder(FirstKeys(xs), xs)
    decreases |xs|
  {
    if |xs| > 0 {
      var fk := FirstKeys(xs);
      FirstKeysOrder(xs[..|xs| - 1]);
      forall i, j, q | 0 <= i < j < |fk| && 0 <= q < |xs| && xs[q].key == fk[j]
        ensures exists p :: 0 <= p < q && xs[p].key == fk[i]
      {
        FirstKeysOrderStep(xs, i, j, q);
      }
    }
  }

  lemma FirstKeysOrderStep(xs: seq<Example>, i: nat, j: nat, q: nat)
    requires |xs| > 0 && FirstOccurrenceOrder(FirstKeys(xs[..|xs| - 1]), xs[..|xs| - 1])
    requires i < j < |FirstKeys(xs)| && q < |xs| && xs[q].key == FirstKeys(xs)[j]
    ensures exists p :: 0 <= p < q && xs[p].key == FirstKeys(xs)[i]
  {
    var front := xs[..|xs| - 1];
    var fk := FirstKeys(xs);
    var f := FirstKeys(front);
    FirstKeysKeySet(front);
    assert i < |f| && fk[i] == f[i];
    if q < |xs| - 1 {
      assert xs[q] == front[q];
      assert front[q].key in KeySet(front);
      assert j < |f|;
      var p :| 0 <= p < q && front[p].key == f[i];
      assert xs[p] == front[p];
    } else {
      assert f[i] in KeySet(front);
      var p :| 0 <= p < |front| && front[p].key == f[i];
      assert xs[p] == front[p];
    }
  }

  lemma KeysOfResult(xs: seq<Example>)
    ensures Keys(RemoveDuplicates(xs)) == FirstKeys(xs)
  {
  }

  lemma KeySetOfResult(xs: seq<Example>)
    ensures KeySet(RemoveDuplicates(xs)) == KeySet(xs)
  {
    var r := RemoveDuplicates(xs);
    var fk := FirstKeys(xs);
    FirstKeysKeySet(xs);
    forall k | k in KeySet(xs) ensures k in KeySet(r) {
      var i :| 0 <= i < |fk| && fk[i] == k;
      assert r[i].key == k;
    }
  }

  /** The records returned have pairwise-distinct keys, exactly the keys of the
      input, listed in order of first occurrence; there are never more records
      than examples, and none only when there were no examples. */
  lemma RemoveDuplicatesKeys(xs: seq<Example>)
    ensures DistinctKeys(RemoveDuplicates(xs))
    ensures KeySet(RemoveDuplicates(xs)) == KeySet(xs)
    ensures FirstOccurrenceOrder(Keys(RemoveDuplicates(xs)), xs)
    ensures |RemoveDuplicates(xs)| <= |xs|
    ensures |RemoveDuplicates(xs)| == 0 <==> |xs| == 0
  {
    var r := RemoveDuplicates(xs);
    KeysOfResult(xs);
    FirstKeysDistinct(xs);
    FirstKeysOrder(xs);
    KeySetOfResult(xs);
    assert forall i :: 0 <= i < |r| ==> r[i].key == Keys(r)[i];
    if |xs| > 0 {
      assert xs[0].key in KeySet(xs);
    }
  }

  // ---------------------------------------------------------------------------
  // Policy averaging.
  // ---------------------------------------------------------------------------

  lemma {:induction false} PoliciesEmpty(occ: seq<Example>)
    ensures |Policies(occ)| == 0 <==> forall i :: 0 <= i < |occ| ==> occ[i].policy == []
    decreases |occ|
  {
    if |occ| > 0 {
      PoliciesEmpty(occ[..|occ| - 1]);
      assert forall i :: 0 <= i < |occ| - 1 ==> occ[..|occ| - 1][i] == occ[i];
    }
  }

  /** The merged policy is absent exactly when every occurrence's policy was. */
  lemma MeanPolicyAbsent(occ: seq<Example>)
    ensures MeanPolicy(occ) == [] <==> forall i :: 0 <= i < |occ| ==> occ[i].policy == []
  {
    PoliciesEmpty(occ);
    VecSumNonEmpty(Policies(occ));
  }

  /** An occurrence without a policy adds nothing to the policy mean, but it is
      still counted in the value mean. */
  lemma EmptyPolicyIgnored(occ: seq<Example>, e: Example)
    requires e.policy == []
    ensures Policies(occ + [e]) == Policies(occ)
    ensures MeanPolicy(occ + [e]) == MeanPolicy(occ)
    ensures MeanValue(occ + [e]) == (ValueSum(occ) + e.value) / (|occ + [e]| as real)
  {
    PoliciesAppend(occ, e);
    MeanValueAppend(occ, e);
  }

  lemma MeanValueAppend(occ: seq<Example>, e: Example)
    ensures MeanValue(occ + [e]) == (ValueSum(occ) + e.value) / (|occ + [e]| as real)
  {
    ValueSumAppend(occ, e);
    MeanValueIs(occ + [e], ValueSum(occ) + e.value);
  }

  lemma MeanValueIs(xs: seq<Example>, s: real)
    requires |xs| > 0 && ValueSum(xs) == s
    ensures MeanValue(xs) == s / (|xs| as real)
  {
  }

  /** When all non-empty policies have `n` entries, the running sum has `n`
      entries and column `j` of it is the sum of column `j`. */
  lemma {:induction false} VecSumColumns(occ: seq<Example>, n: nat)
    requires forall i :: 0 <= i < |occ| && occ[i].policy != [] ==> |occ[i].policy| == n
    requires |Policies(occ)| > 0
    ensures |VecSum(Policies(occ))| == n
    ensures forall j :: 0 <= j < n ==> VecSum(Policies(occ))[j] == ColumnSum(occ, j)
    decreases |occ|
  {
    var front := occ[..|occ| - 1];
    var e := occ[|occ| - 1];
    var ps := Policies(front);
    assert occ == front + [e];
    PoliciesAppend(front, e);
    assert forall i :: 0 <= i < |front| ==> front[i] == occ[i];
    if |ps| == 0 {
      PoliciesEmpty(front);
      assert Policies(occ) == [e.policy];
      forall j | 0 <= j < n ensures VecSum(Policies(occ))[j] == ColumnSum(occ, j) {
        ColumnSumZero(front, j);
      }
    } else if e.policy == [] {
      VecSumColumns(front, n);
      assert Policies(occ) == ps;
      forall j | 0 <= j < n ensures ColumnSum(occ, j) == ColumnSum(front, j) {
      }
    } else {
      VecSumColumns(front, n);
      VecSumAppend(ps, e.policy);
    }
  }

  lemma {:induction false} ColumnSumZero(occ: seq<Example>, j: nat)
    requires forall i :: 0 <= i < |occ| ==> occ[i].policy == []
    ensures ColumnSum(occ, j) == 0.0
    decreases |occ|
  {
    if |occ| > 0 {
      ColumnSumZero(occ[..|occ| - 1], j);
    }
  }

  /** The merged policy is the element-wise mean of the non-empty policies. */
  lemma MeanPolicyPointwise(occ: seq<Example>, n: nat)
    requires forall i :: 0 <= i < |occ| && occ[i].policy != [] ==> |occ[i].policy| == n
    requires exists i :: 0 <= i < |occ| && occ[i].policy != []
    ensures |MeanPolicy(occ)| == n
    ensures forall j :: 0 <= j < n ==>
              MeanPolicy(occ)[j] == ColumnSum(occ, j) / (|Policies(occ)| as real)
  {
    PoliciesEmpty(occ);
    VecSumColumns(occ, n);
  }

  /** Every present policy target of `xs` has `n` entries. */
  ghost predicate PolicyWidth(xs: seq<Example>, n: nat)
  {
    forall i :: 0 <= i < |xs| && xs[i].policy != [] ==> |xs[i].policy| == n
  }

  lemma {:induction false} OccurrencesWidth(xs: seq<Example>, k: Key, n: nat)
    requires PolicyWidth(xs, n)
    ensures PolicyWidth(Occurrences(xs, k), n)
    decreases |xs|
  {
    if |xs| > 0 {
      var front := xs[..|xs| - 1];
      assert forall i :: 0 <= i < |front| ==> front[i] == xs[i];
      OccurrencesWidth(front, k, n);
    }
  }

  /** Deduplication keeps a common policy width: when every present target
      has `n` entries, so does every merged one. The zip truncation of the
      sums only shows on a pool whose policies differ in width. */
  lemma UniformWidthKept(xs: seq<Example>, n: nat)
    requires PolicyWidth(xs, n)
    ensures PolicyWidth(RemoveDuplicates(xs), n)
  {
    var r := RemoveDuplicates(xs);
    forall i | 0 <= i < |r| && r[i].policy != [] ensures |r[i].policy| == n {
      var occ := Occurrences(xs, r[i].key);
      OccurrencesWidth(xs, r[i].key, n);
      MeanPolicyAbsent(occ);
      MeanPolicyPointwise(occ, n);
    }
  }

  /** Two occurrences of one key merge into their averages. */
  lemma MergeTwo(a: Example, b: Example)
    requires a.key == b.key
    requires a.policy != [] && |a.policy| == |b.policy|
    ensures |RemoveDuplicates([a, b])| == 1
    ensures var m := RemoveDuplicates([a, b])[0];
            && m.key == a.key && m.state == a.state && m.value == (a.value + b.value) / 2.0
            && |m.policy| == |a.policy|
            && forall j :: 0 <= j < |a.policy| ==> m.policy[j] == (a.policy[j] + b.policy[j]) / 2.0
  {
    TwoOccurrences(a, b);
    TwoMeans(a, b);
    var r := RemoveDuplicates([a, b]);
    assert |r| == 1 && r[0].key == a.key;
  }

  /** Two occurrences of one key: one first key, and both are its occurrences. */
  lemma TwoOccurrences(a: Example, b: Example)
    requires a.key == b.key
    ensures FirstKeys([a, b]) == [a.key]
    ensures Occurrences([a, b], a.key) == [a, b]
  {
    var xs := [a, b];
    assert xs[..1] == [a];
    assert [a][..0] == [];
    assert FirstKeys([a]) == [a.key];
    assert Occurrences([a], a.key) == [a];
  }

  /** The means of two occurrences with non-empty policies of one length. */
  lemma TwoMeans(a: Example, b: Example)
    requires a.policy != [] && |a.policy| == |b.policy|
    ensures MeanValue([a, b]) == (a.value + b.value) / 2.0
    ensures |MeanPolicy([a, b])| == |a.policy|
    ensures forall j :: 0 <= j < |a.policy| ==> MeanPolicy([a, b])[j] == (a.policy[j] + b.policy[j]) / 2.0
  {
    assert [a, b][..1] == [a];
    assert Policies([a]) == [a.policy];
    assert Policies([a, b]) == [a.policy, b.policy];
    assert [a.policy, b.policy][..1] == [a.policy];
    assert VecSum([a.policy, b.policy]) == AddVec(a.policy, b.policy);
    assert ValueSum([a]) == a.value;
    assert ValueSum([a, b]) == a.value + b.value;
    assert MeanPolicy([a, b]) == Scale(AddVec(a.policy, b.policy), 2.0);
  }

  // ---------------------------------------------------------------------------
  // Nothing to merge, nothing changes.
  // ---------------------------------------------------------------------------

  lemma {:induction false} DistinctFirstKeys(xs: seq<Example>)
    requires DistinctKeys(xs)
    ensures |FirstKeys(xs)| == |xs|
    ensures forall i :: 0 <= i < |xs| ==> FirstKeys(xs)[i] == xs[i].key
    decreases |xs|
  {
    if |xs| > 0 {
      var front := xs[..|xs| - 1];
      var e := xs[|xs| - 1];
      assert forall i :: 0 <= i < |front| ==> front[i] == xs[i];
      DistinctFirstKeys(front);
      assert e.key !in FirstKeys(front);
    }
  }

  lemma {:induction false} DistinctOccurrences(xs: seq<Example>, i: nat)
    requires DistinctKeys(xs) && i < |xs|
    ensures Occurrences(xs, xs[i].key) == [xs[i]]
    decreases |xs|
  {
    var front := xs[..|xs| - 1];
    var e := xs[|xs| - 1];
    assert forall m :: 0 <= m < |front| ==> front[m] == xs[m];
    if i == |xs| - 1 {
      OccurrencesKeySet(front, e.key);
      assert e.key !in KeySet(front);
    } else {
      DistinctOccurrences(front, i);
    }
  }

  lemma MeanOfOne(e: Example)
    ensures MeanPolicy([e]) == e.policy
    ensures MeanValue([e]) == e.value
  {
    assert [e][..0] == [];
    assert ValueSum([e]) == e.value;
    if e.policy != [] {
      assert Policies([e]) == [e.policy];
      assert Scale(e.policy, 1.0) == e.policy;
    }
  }

  /** When no key repeats, `remove_duplicates` returns its input unchanged:
      every division is by one. */
  lemma DistinctUnchanged(xs: seq<Example>)
    requires DistinctKeys(xs)
    ensures RemoveDuplicates(xs) == xs
  {
    var r := RemoveDuplicates(xs);
    DistinctFirstKeys(xs);
    forall i | 0 <= i < |xs| ensures r[i] == xs[i] {
      DistinctOccurrences(xs, i);
      MeanOfOne(xs[i]);
    }
  }

  /** Deduplicating twice is deduplicating once. */
  lemma Idempotent(xs: seq<Example>)
    ensures RemoveDuplicates(RemoveDuplicates(xs)) == RemoveDuplicates(xs)
  {
    RemoveDuplicatesKeys(xs);
    DistinctUnchanged(RemoveDuplicates(xs));
  }
}
