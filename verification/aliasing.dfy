/** `remove_duplicates` as train.py writes it works on the record objects that
    `self.buffer` holds: the dict entry for a key IS the first record with that
    key, and the merge loop and the final division write the running sums and
    then the means into its policy and value slots. After `train_network`, the
    first record of every key in the buffer carries the merged labels, and the
    next generation averages those merged labels again with the other
    occurrences, so labels drift from one generation to the next.

    This module models that write-back and exhibits the drift. The rest of the
    model follows the evidently intended behaviour: `Trainer.TrainNetwork`
    leaves the buffer as it found it.
 */
module Aliasing {
  import opened Examples
  import opened Dedup
  import opened DedupProperties
  import opened ReplayBuffer

  /** The merged record of each key, looked up by key; the first one wins. */
  function MapOf(pool: seq<Example>): map<Key, Example>
    decreases |pool|
  {
    if |pool| == 0 then map[] else MapOf(pool[1..])[pool[0].key := pool[0]]
  }

  /** The records of one game after the write-back: a record whose key is
      not in `seen` is the first with its key, and it now holds the merged
      policy and value; its key and state are untouched. */
  function WriteBackGame(game: Game, merged: map<Key, Example>, seen: set<Key>): (r: Game)
    ensures |r| == |game|
    ensures forall j :: 0 <= j < |r| ==> r[j].key == game[j].key && r[j].state == game[j].state
    decreases |game|
  {
    if |game| == 0 then []
    else
      var x := game[0];
      var y := if x.key !in seen && x.key in merged then x.(policy := merged[x.key].policy, value := merged[x.key].value) else x;
      [y] + WriteBackGame(game[1..], merged, seen + {x.key})
  }

  /** The buffer after the write-back, games in order. */
  function WriteBack(buffer: seq<Game>, merged: map<Key, Example>, seen: set<Key>): (r: seq<Game>)
    ensures |r| == |buffer|
    ensures forall i :: 0 <= i < |r| ==> Keys(r[i]) == Keys(buffer[i])
    decreases |buffer|
  {
    if |buffer| == 0 then []
    else [WriteBackGame(buffer[0], merged, seen)] + WriteBack(buffer[1..], merged, seen + KeySet(buffer[0]))
  }

  /** `train_network` as written: the pool it trains on, and the buffer as
      the deduplication leaves it. The pool of this call is right; the buffer
      keeps its games and keys, and is left as it was when no key repeats. */
  function TrainAsWritten(buffer: seq<Game>): (r: (seq<Example>, seq<Game>))
    ensures r.0 == RemoveDuplicates(Flatten(buffer))
    ensures |r.1| == |buffer| && forall i :: 0 <= i < |buffer| ==> Keys(r.1[i]) == Keys(buffer[i])
    ensures DistinctKeys(Flatten(buffer)) ==> r.1 == buffer
  {
    var pool := RemoveDuplicates(Flatten(buffer));
    var written := WriteBack(buffer, MapOf(pool), {});
    assert DistinctKeys(Flatten(buffer)) ==> written == buffer by {
      if DistinctKeys(Flatten(buffer)) {
        DistinctWriteBackUnchanged(buffer);
      }
    }
    (pool, written)
  }

  lemma {:induction false} MapOfDistinct(xs: seq<Example>)
    requires DistinctKeys(xs)
    ensures forall i :: 0 <= i < |xs| ==> xs[i].key in MapOf(xs) && MapOf(xs)[xs[i].key] == xs[i]
    decreases |xs|
  {
    if |xs| > 0 {
      MapOfDistinct(xs[1..]);
      forall i | 0 < i < |xs| ensures xs[i].key in MapOf(xs) && MapOf(xs)[xs[i].key] == xs[i] {
        assert xs[1..][i - 1] == xs[i];
      }
    }
  }

  lemma {:induction false} WriteBackGameIdentity(game: Game, merged: map<Key, Example>, seen: set<Key>)
    requires forall j :: 0 <= j < |game| && game[j].key in merged ==> merged[game[j].key] == game[j]
    ensures WriteBackGame(game, merged, seen) == game
    decreases |game|
  {
    if |game| > 0 {
      assert forall j :: 0 <= j < |game[1..]| ==> game[1..][j] == game[j + 1];
      WriteBackGameIdentity(game[1..], merged, seen + {game[0].key});
      assert game == [game[0]] + game[1..];
    }
  }

  lemma {:induction false} WriteBackIdentity(buffer: seq<Game>, merged: map<Key, Example>, seen: set<Key>)
    requires forall i, j :: 0 <= i < |buffer| && 0 <= j < |buffer[i]| && buffer[i][j].key in merged ==>
               merged[buffer[i][j].key] == buffer[i][j]
    ensures WriteBack(buffer, merged, seen) == buffer
    decreases |buffer|
  {
    if |buffer| > 0 {
      WriteBackGameIdentity(buffer[0], merged, seen);
      assert forall i :: 0 <= i < |buffer[1..]| ==> buffer[1..][i] == buffer[i + 1];
      WriteBackIdentity(buffer[1..], merged, seen + KeySet(buffer[0]));
      assert buffer == [buffer[0]] + buffer[1..];
    }
  }

  lemma DistinctWriteBackUnchanged(buffer: seq<Game>)
    requires DistinctKeys(Flatten(buffer))
    ensures WriteBack(buffer, MapOf(RemoveDuplicates(Flatten(buffer))), {}) == buffer
  {
    var xs := Flatten(buffer);
    DistinctUnchanged(xs);
    BufferRecordsMerged(buffer);
    WriteBackIdentity(buffer, MapOf(xs), {});
  }

  /** Every record of the buffer is the record its key maps to, when no key
      repeats. */
  lemma BufferRecordsMerged(buffer: seq<Game>)
    requires DistinctKeys(Flatten(buffer))
    ensures forall i, j :: 0 <= i < |buffer| && 0 <= j < |buffer[i]| ==>
              buffer[i][j].key in MapOf(Flatten(buffer)) && MapOf(Flatten(buffer))[buffer[i][j].key] == buffer[i][j]
  {
    var xs := Flatten(buffer);
    MapOfDistinct(xs);
    FlattenContents(buffer);
    forall i, j | 0 <= i < |buffer| && 0 <= j < |buffer[i]|
      ensures buffer[i][j].key in MapOf(xs) && MapOf(xs)[buffer[i][j].key] == buffer[i][j]
    {
      var x := buffer[i][j];
      assert buffer[i] in buffer && x in buffer[i];
      assert x in xs;
      var p :| 0 <= p < |xs| && xs[p] == x;
    }
  }

  /** Two one-record games of the same key with one-entry policies: the
      pool holds their average, and the write-back puts that average into the
      first game while the second keeps its own labels. */
  lemma TrainTwoGames(a: Example, b: Example)
    requires a.key == b.key && |a.policy| == 1 && |b.policy| == 1
    ensures var m := Example(a.key, a.state, [(a.policy[0] + b.policy[0]) / 2.0], (a.value + b.value) / 2.0);
            TrainAsWritten([[a], [b]]) == ([m], [[a.(policy := m.policy, value := m.value)], [b]])
  {
    var m := Example(a.key, a.state, [(a.policy[0] + b.policy[0]) / 2.0], (a.value + b.value) / 2.0);
    MergeOne(a, b);
    assert Flatten([[b]]) == [b];
    assert Flatten([[a], [b]]) == [a, b];
    WriteBackTwoGames(a, b, m);
  }

  lemma WriteBackTwoGames(a: Example, b: Example, m: Example)
    requires a.key == b.key == m.key
    ensures WriteBack([[a], [b]], MapOf([m]), {}) == [[a.(policy := m.policy, value := m.value)], [b]]
  {
    var a' := a.(policy := m.policy, value := m.value);
    assert MapOf([m]) == map[a.key := m];
    assert WriteBackGame([a], map[a.key := m], {}) == [a'];
    assert WriteBackGame([b], map[a.key := m], {a.key}) == [b];
    assert KeySet([a]) == {a.key};
    assert WriteBack([[b]], map[a.key := m], {a.key}) == [[b]];
  }

  lemma MergeOne(a: Example, b: Example)
    requires a.key == b.key && |a.policy| == 1 && |b.policy| == 1
    ensures RemoveDuplicates([a, b]) == [Example(a.key, a.state, [(a.policy[0] + b.policy[0]) / 2.0], (a.value + b.value) / 2.0)]
  {
    MergeTwo(a, b);
    var r := RemoveDuplicates([a, b]);
    assert r[0].policy == [(a.policy[0] + b.policy[0]) / 2.0];
    assert r[0] == Example(a.key, a.state, [(a.policy[0] + b.policy[0]) / 2.0], (a.value + b.value) / 2.0);
  }

  /** Two games holding one position each, with value targets 1 and 0 and
      policy targets [1] and [0]. The first training averages them to 0.5 and
      [0.5], and writes that into the first game. With the buffer otherwise
      unchanged, the next training averages 0.5 with 0 and trains on 0.25 and
      [0.25], where the stored games still call for 0.5 and [0.5]. */
  lemma LabelsDrift()
    ensures var a := Example("k", [], [1.0], 1.0);
            var b := Example("k", [], [0.0], 0.0);
            var (pool1, buffer1) := TrainAsWritten([[a], [b]]);
            var (pool2, _) := TrainAsWritten(buffer1);
            && pool1 == [Example("k", [], [0.5], 0.5)]
            && pool2 == [Example("k", [], [0.25], 0.25)]
            && RemoveDuplicates(Flatten([[a], [b]])) == pool1
  {
    var a := Example("k", [], [1.0], 1.0);
    var b := Example("k", [], [0.0], 0.0);
    TrainTwoGames(a, b);
    TrainTwoGames(Example("k", [], [0.5], 0.5), b);
  }
}
