/** The replay buffer of `Trainer`: a list of whole games, appended at the back,
    evicted from the front, with a capacity that grows every other generation
    up to a maximum; and the flattening of its games into one example pool.
 */
module ReplayBuffer {
  import opened Examples

  /** The eviction loop of `generate_examples` (train.py:233-236): while the
      buffer holds more games than the capacity, drop the oldest. The result
      is the longest suffix of the buffer that fits: all of it when it
      already fits, otherwise exactly `capacity` games, the newest ones, in
      their order. */
  function Evict(buffer: seq<Game>, capacity: nat): (r: seq<Game>)
    ensures |r| == Min(|buffer|, capacity)
    ensures r == buffer[|buffer| - |r|..]
    decreases |buffer|
  {
    if |buffer| > capacity then
      var r := Evict(buffer[1..], capacity);
      assert buffer[1..][|buffer| - 1 - |r|..] == buffer[|buffer| - |r|..];
      r
    else buffer
  }

  /** `update_buffer_size`: on even generations, while the capacity is below
      the maximum, it grows by one generation's worth of games. It never
      shrinks, and once below `maxGames + perGeneration` it stays there. */
  function GrowCapacity(capacity: nat, generation: nat, perGeneration: nat, maxGames: nat): (r: nat)
    ensures capacity <= r
    ensures capacity < maxGames + perGeneration ==> r < maxGames + perGeneration
    ensures r > capacity <==> generation % 2 == 0 && capacity < maxGames && perGeneration > 0
  {
    if generation % 2 == 0 && capacity < maxGames then capacity + perGeneration else capacity
  }

  /** The examples of all games of the buffer, game after game, each game's
      examples in their order (train.py:139). Its length is the number of
      examples the games hold. */
  function Flatten(buffer: seq<Game>): (r: seq<Example>)
    ensures |r| == TotalExamples(buffer)
    decreases |buffer|
  {
    if |buffer| == 0 then [] else buffer[0] + Flatten(buffer[1..])
  }

  /** The number of examples held by the games of the buffer. */
  function TotalExamples(buffer: seq<Game>): nat
    decreases |buffer|
  {
    if |buffer| == 0 then 0 else |buffer[0]| + TotalExamples(buffer[1..])
  }

  /** Flattening distributes over concatenation of buffers. */
  lemma {:induction false} FlattenAppend(a: seq<Game>, b: seq<Game>)
    ensures Flatten(a + b) == Flatten(a) + Flatten(b)
    decreases |a|
  {
    if |a| == 0 {
      assert a + b == b;
    } else {
      assert (a + b)[0] == a[0];
      assert (a + b)[1..] == a[1..] + b;
      FlattenAppend(a[1..], b);
    }
  }

  /** The pool holds the examples of all games and nothing else, and its size
      is the sum of the game sizes. */
  lemma {:induction false} FlattenContents(buffer: seq<Game>)
    ensures |Flatten(buffer)| == TotalExamples(buffer)
    ensures forall e :: e in Flatten(buffer) <==> exists g :: g in buffer && e in g
    decreases |buffer|
  {
    if |buffer| > 0 {
      FlattenContents(buffer[1..]);
      forall e | e in Flatten(buffer) ensures exists g :: g in buffer && e in g {
        if e !in buffer[0] {
          var g :| g in buffer[1..] && e in g;
          assert g in buffer;
        }
      }
      forall e | (exists g :: g in buffer && e in g) ensures e in Flatten(buffer) {
        var g :| g in buffer && e in g;
        if g != buffer[0] {
          var i :| 0 <= i < |buffer| && buffer[i] == g;
          assert buffer[1..][i - 1] == g;
        }
      }
    }
  }

  /** Evicting whole games from the front drops a prefix of the pool: the
      surviving examples are a suffix of the old pool, in the same order. */
  lemma EvictedPoolIsSuffix(buffer: seq<Game>, capacity: nat)
    ensures var kept := Evict(buffer, capacity);
            Flatten(buffer) == Flatten(buffer[..|buffer| - |kept|]) + Flatten(kept)
  {
    var kept := Evict(buffer, capacity);
    assert buffer == buffer[..|buffer| - |kept|] + kept;
    FlattenAppend(buffer[..|buffer| - |kept|], kept);
  }
}
