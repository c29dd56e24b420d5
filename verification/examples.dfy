/** The training examples that self-play produces and the replay buffer stores.

    An example is the four-element record `[key, state, policy, value]` of train.py:
    the deduplication key, the canonical state encoding fed to the network, the
    policy target (the empty list stands for "no policy target") and the value
    target. Network inputs and targets are floats in the source; here they are
    exact reals.
 */
module Examples {

  /** The dedup key; in the source it is an opaque hashable value built by the
      example generator, here a string. */
  type Key = string

  /** A policy target over the action space; the empty sequence means "absent". */
  type Policy = seq<real>

  datatype Example = Example(key: Key, state: seq<real>, policy: Policy, value: real)

  /** One self-play game: the unit the replay buffer appends and evicts. */
  type Game = seq<Example>

  /** The failures of the modelled core: sampling from an empty pool (numpy
      refuses an empty range), and a division or remainder by zero (a zero
      test count, test period or save period). */
  datatype Error = EmptyPool | ZeroDivision

  datatype Result<T> = Success(value: T) | Failure(error: Error)

  function Min(a: int, b: int): int
  {
    if a <= b then a else b
  }

  /** The set of keys that occur in `xs`. */
  function KeySet(xs: seq<Example>): set<Key>
  {
    set i | 0 <= i < |xs| :: xs[i].key
  }

  /** The keys of `xs`, in order. */
  function Keys(xs: seq<Example>): (ks: seq<Key>)
    ensures |ks| == |xs|
  {
    seq(|xs|, i requires 0 <= i < |xs| => xs[i].key)
  }

  /** No key occurs twice in `xs`. */
  predicate DistinctKeys(xs: seq<Example>)
  {
    forall i, j :: 0 <= i < j < |xs| ==> xs[i].key != xs[j].key
  }

  lemma KeySetAppend(xs: seq<Example>, e: Example)
    ensures KeySet(xs + [e]) == KeySet(xs) + {e.key}
  {
    var ys := xs + [e];
    forall k | k in KeySet(ys) ensures k in KeySet(xs) + {e.key} {
      var i :| 0 <= i < |ys| && ys[i].key == k;
      if i < |xs| {
        assert xs[i] == ys[i];
      }
    }
    forall k | k in KeySet(xs) + {e.key} ensures k in KeySet(ys) {
      if k == e.key {
        assert ys[|xs|] == e;
      } else {
        var i :| 0 <= i < |xs| && xs[i].key == k;
        assert ys[i] == xs[i];
      }
    }
  }
}
