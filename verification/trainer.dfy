/** The bookkeeping of `Trainer`: the buffer update of `generate_examples`, the
    pool and batch loop of `train_network`, the average of `test_agent`, and
    the generation loop of `run`. Self-play, the network and the match
    functions are parameters: `selfPlay(g)` is the list of games the example
    generator returns in generation `g`, `predict` the network.
 */
module Trainer {
  import opened Examples
  import opened Dedup
  import opened DedupProperties
  import opened ReplayBuffer
  import opened Sampling

  /** The hyper-parameters the modelled code reads. */
  datatype Config = Config(
    save: bool,                 // save the network periodically
    saveEvery: nat,             // generations between saves
    testEvery: nat,             // generations between tests
    nTests: nat,                // test games per opponent
    gamesPerGeneration: nat,    // self-play games per generation
    batchesPerGeneration: nat,  // optimizer steps per generation
    maxGames: nat,              // the capacity stops growing at this size
    batchSize: nat)

  /** The values set by `Trainer.__init__`. */
  const Defaults := Config(true, 10, 10, 200, 500, 500, 20000, 256)

  /** `run` stops once this generation has been trained. */
  const LastGeneration: nat := 201

  /** The mutable fields of `Trainer` that the modelled code touches:
      `generation`, `buffer`, `n_games_buffer`, `games_played` and `it`. */
  datatype TrainerState = TrainerState(generation: nat, buffer: seq<Game>, capacity: nat,
                                       gamesPlayed: nat, steps: nat)

  /** A fresh trainer: generation 0, an empty buffer with a capacity of four
      generations' worth, nothing played and no optimizer step taken. It has
      no example to train on. */
  function Initial(cfg: Config): (r: TrainerState)
    ensures r.generation == 0 && r.gamesPlayed == 0 && r.steps == 0
    ensures TotalExamples(r.buffer) == 0 && Pool(r) == []
  {
    TrainerState(0, [], 4 * cfg.gamesPerGeneration, 0, 0)
  }

  /** The buffer part of `generate_examples`: append the new games, grow the
      capacity for the current generation, then evict from the front with the
      grown capacity. The buffer becomes the longest suffix of old and new
      games that fits the new capacity. */
  function GenerateExamples(cfg: Config, t: TrainerState, games: seq<Game>): (r: TrainerState)
    ensures r.generation == t.generation && r.steps == t.steps
    ensures r.gamesPlayed == t.gamesPlayed + cfg.gamesPerGeneration
    ensures r.capacity == GrowCapacity(t.capacity, t.generation, cfg.gamesPerGeneration, cfg.maxGames)
    ensures |r.buffer| == Min(|t.buffer| + |games|, r.capacity)
    ensures r.buffer == (t.buffer + games)[|t.buffer| + |games| - |r.buffer|..]
    ensures |t.buffer| + |games| <= r.capacity ==> r.buffer == t.buffer + games
  {
    var capacity := GrowCapacity(t.capacity, t.generation, cfg.gamesPerGeneration, cfg.maxGames);
    t.(buffer := Evict(t.buffer + games, capacity), capacity := capacity,
       gamesPlayed := t.gamesPlayed + cfg.gamesPerGeneration)
  }

  /** A buffer of capacity one that holds one game and does not grow this
      generation keeps only the newly generated game, and its pool holds
      exactly that game's examples. */
  lemma CapacityOne(cfg: Config, t: TrainerState, first: Game, next: Game)
    requires t.buffer == [first] && t.capacity == 1
    requires t.generation % 2 == 1 || cfg.maxGames <= 1
    ensures GenerateExamples(cfg, t, [next]).buffer == [next]
    ensures Flatten(GenerateExamples(cfg, t, [next]).buffer) == next
  {
    var r := GenerateExamples(cfg, t, [next]);
    assert r.buffer == ([first] + [next])[1..];
    assert Flatten([next][1..]) == [];
    assert next + [] == next;
  }

  /** The pool `train_network` samples from: the flattened buffer,
      deduplicated. Its keys are distinct and are exactly the keys the
      buffer holds, and it is never larger than the buffer. */
  function Pool(t: TrainerState): (r: seq<Example>)
    ensures DistinctKeys(r)
    ensures KeySet(r) == KeySet(Flatten(t.buffer))
    ensures |r| <= TotalExamples(t.buffer)
  {
    RemoveDuplicatesKeys(Flatten(t.buffer));
    RemoveDuplicates(Flatten(t.buffer))
  }

  lemma PoolEmpty(t: TrainerState)
    ensures |Pool(t)| == 0 <==> TotalExamples(t.buffer) == 0
  {
    FlattenContents(t.buffer);
    RemoveDuplicatesKeys(Flatten(t.buffer));
  }

  /** `train_network`: `batchesPerGeneration` calls of `net_step` on the pool,
      the `i`-th one with the network as it is after `steps + i` updates. It
      fails exactly when a step is due and the buffer holds no example; it
      never alters the buffer. */
  method TrainNetwork(cfg: Config, t: TrainerState, predict: Predictor)
    returns (r: Result<(TrainerState, seq<Batch>)>)
    ensures r.Failure? <==> cfg.batchesPerGeneration > 0 && TotalExamples(t.buffer) == 0
    ensures r.Success? ==> r.value.0 == t.(steps := t.steps + cfg.batchesPerGeneration)
    ensures r.Success? ==> |r.value.1| == cfg.batchesPerGeneration
    ensures r.Success? ==> forall i :: 0 <= i < |r.value.1| ==>
              Drawn(r.value.1[i], Pool(t), cfg.batchSize, predict, t.steps + i)
  {
    PoolEmpty(t);
    var batches := NetSteps(Pool(t), cfg.batchesPerGeneration, cfg.batchSize, predict, t.steps);
    if batches.Failure? {
      return Failure(batches.error);
    }
    return Success((t.(steps := t.steps + cfg.batchesPerGeneration), batches.value));
  }

  /** The batch loop of `train_network`: `n` calls of `net_step`, the `i`-th
      at optimizer step `step + i`. It fails exactly when a step is due and
      the pool is empty. */
  method NetSteps(pool: seq<Example>, n: nat, batchSize: nat, predict: Predictor, step: nat)
    returns (r: Result<seq<Batch>>)
    ensures r.Failure? <==> n > 0 && |pool| == 0
    ensures r.Success? ==> |r.value| == n
    ensures r.Success? ==> forall i :: 0 <= i < n ==> Drawn(r.value[i], pool, batchSize, predict, step + i)
  {
    var batches: seq<Batch> := [];
    var i := 0;
    while i < n
      invariant i <= n
      invariant |batches| == i
      invariant i > 0 ==> |pool| > 0
      invariant forall m :: 0 <= m < i ==> Drawn(batches[m], pool, batchSize, predict, step + m)
    {
      var b := NetStep(pool, batchSize, predict, step + i);
      if b.Failure? {
        return Failure(b.error);
      }
      batches := batches + [b.value];
      i := i + 1;
    }
    return Success(batches);
  }

  function ScoreSum(scores: seq<(real, real)>): real
    decreases |scores|
  {
    if |scores| == 0 then 0.0 else ScoreSum(scores[..|scores| - 1]) + scores[|scores| - 1].0 + scores[|scores| - 1].1
  }

  ghost predicate ScoresInRange(scores: seq<(real, real)>)
  {
    forall i :: 0 <= i < |scores| ==> -1.0 <= scores[i].0 <= 1.0 && -1.0 <= scores[i].1 <= 1.0
  }

  lemma {:induction false} ScoreSumBounds(scores: seq<(real, real)>)
    requires ScoresInRange(scores)
    ensures -2.0 * (|scores| as real) <= ScoreSum(scores) <= 2.0 * (|scores| as real)
    decreases |scores|
  {
    if |scores| > 0 {
      var front := scores[..|scores| - 1];
      assert forall i :: 0 <= i < |front| ==> front[i] == scores[i];
      ScoreSumBounds(front);
    }
  }

  /** The first figure of `test_agent`: the mean of the `2 * nTests` scores of
      the network against a random player, two per test game pair. With no
      test game the division is by zero. The mean times the number of scores
      is their sum, and with scores in [-1, 1] the mean is in [-1, 1]. */
  function TestAverage(scores: seq<(real, real)>): (r: Result<real>)
    ensures r.Failure? <==> |scores| == 0
    ensures r.Failure? ==> r.error == ZeroDivision
    ensures r.Success? ==> r.value * (2.0 * (|scores| as real)) == ScoreSum(scores)
    ensures r.Success? && ScoresInRange(scores) ==> -1.0 <= r.value <= 1.0
  {
    if |scores| == 0 then Failure(ZeroDivision)
    else
      MeanScoreBounds(scores);
      Success(ScoreSum(scores) / (2.0 * (|scores| as real)))
  }

  lemma MeanScoreBounds(scores: seq<(real, real)>)
    requires |scores| > 0
    ensures ScoresInRange(scores) ==>
              -1.0 <= ScoreSum(scores) / (2.0 * (|scores| as real)) <= 1.0
  {
    if ScoresInRange(scores) {
      ScoreSumBounds(scores);
      var n := 2.0 * (|scores| as real);
      var s := ScoreSum(scores);
      assert -n <= s <= n;
      DivBounds(s, n);
    }
  }

  lemma DivBounds(s: real, n: real)
    requires n > 0.0 && -n <= s <= n
    ensures -1.0 <= s / n <= 1.0
  {
    assert s / n * n == s;
  }

  // ---------------------------------------------------------------------------
  // The generation loop of `run`.
  // ---------------------------------------------------------------------------

  datatype Event = TestAgent | Generate(generation: nat) | Train(generation: nat) | Save(generation: nat)

  ghost predicate ValidConfig(cfg: Config)
  {
    cfg.testEvery > 0 && (cfg.save ==> cfg.saveEvery > 0)
  }

  /** The events of generation `g`, in the order the loop body performs them:
      generate and train, then a test exactly on the test period and a save
      exactly on the save period when saving is on. */
  function GenerationEvents(cfg: Config, g: nat): (r: seq<Event>)
    requires ValidConfig(cfg)
    ensures 2 <= |r| <= 4 && r[0] == Generate(g) && r[1] == Train(g)
    ensures TestAgent in r <==> g % cfg.testEvery == 0
    ensures Save(g) in r <==> cfg.save && g % cfg.saveEvery == 0
    ensures forall i :: 0 <= i < |r| && !r[i].TestAgent? ==> r[i].generation == g
  {
    [Generate(g), Train(g)]
    + (if g % cfg.testEvery == 0 then [TestAgent] else [])
    + (if cfg.save && g % cfg.saveEvery == 0 then [Save(g)] else [])
  }

  /** The events of generations `start + 1` to `stop`, at least two per
      generation. */
  function Schedule(cfg: Config, start: nat, stop: nat): (r: seq<Event>)
    requires ValidConfig(cfg) || stop <= start
    ensures start <= stop ==> |r| >= 2 * (stop - start)
    decreases stop
  {
    if stop <= start then [] else Schedule(cfg, start, stop - 1) + GenerationEvents(cfg, stop)
  }

  /** One pass of the body of `run`'s loop up to training: advance the
      generation, store the new games, train. Training reads the buffer and
      leaves it as `generate_examples` left it. */
  method Generation(cfg: Config, t: TrainerState, games: seq<Game>, predict: Predictor)
    returns (r: Result<TrainerState>)
    ensures var s := GenerateExamples(cfg, t.(generation := t.generation + 1), games);
            r.Failure? <==> cfg.batchesPerGeneration > 0 && TotalExamples(s.buffer) == 0
    ensures var s := GenerateExamples(cfg, t.(generation := t.generation + 1), games);
            r.Success? ==> r.value == s.(steps := s.steps + cfg.batchesPerGeneration)
  {
    var s := GenerateExamples(cfg, t.(generation := t.generation + 1), games);
    var trained := TrainNetwork(cfg, s, predict);
    if trained.Failure? {
      return Failure(trained.error);
    }
    return Success(trained.value.0);
  }

  lemma ScheduleStep(cfg: Config, start: nat, g: nat)
    requires ValidConfig(cfg) && start < g
    ensures [TestAgent] + Schedule(cfg, start, g) == [TestAgent] + Schedule(cfg, start, g - 1) + GenerationEvents(cfg, g)
  {
  }

  /** The state after generation `g` has generated and trained, when every
      generation after the start up to `g` found an example to train on. */
  function After(cfg: Config, t0: TrainerState, selfPlay: nat -> seq<Game>, g: nat): (r: TrainerState)
    requires t0.generation <= g
    ensures r.generation == g
    ensures r.capacity >= t0.capacity
    decreases g, 1
  {
    if g == t0.generation then t0
    else
      var s := Stored(cfg, t0, selfPlay, g);
      s.(steps := s.steps + cfg.batchesPerGeneration)
  }

  /** The state after generation `g` has stored its games, before training. */
  function Stored(cfg: Config, t0: TrainerState, selfPlay: nat -> seq<Game>, g: nat): (r: TrainerState)
    requires t0.generation < g
    ensures r.generation == g
    ensures r.capacity >= t0.capacity
    decreases g, 0
  {
    GenerateExamples(cfg, After(cfg, t0, selfPlay, g - 1).(generation := g), selfPlay(g))
  }

  /** Training in generation `g` succeeds: no batch is due, or the buffer
      holds an example after storing that generation's games. */
  predicate Trains(cfg: Config, t0: TrainerState, selfPlay: nat -> seq<Game>, g: nat)
    requires t0.generation < g
  {
    cfg.batchesPerGeneration == 0 || TotalExamples(Stored(cfg, t0, selfPlay, g).buffer) > 0
  }

  /** The generation a run that completes the loop ends at. */
  function FinalGeneration(t0: TrainerState): nat
  {
    if t0.generation < LastGeneration then LastGeneration else t0.generation
  }

  /** Each pass adds one generation's worth of games played and of optimizer
      steps. */
  lemma {:induction false} AfterCounts(cfg: Config, t0: TrainerState, selfPlay: nat -> seq<Game>, g: nat)
    requires t0.generation <= g
    ensures After(cfg, t0, selfPlay, g).gamesPlayed == t0.gamesPlayed + (g - t0.generation) * cfg.gamesPerGeneration
    ensures After(cfg, t0, selfPlay, g).steps == t0.steps + (g - t0.generation) * cfg.batchesPerGeneration
    decreases g
  {
    if g > t0.generation {
      AfterCounts(cfg, t0, selfPlay, g - 1);
      var n := g - 1 - t0.generation;
      assert (n + 1) * cfg.gamesPerGeneration == n * cfg.gamesPerGeneration + cfg.gamesPerGeneration;
      assert (n + 1) * cfg.batchesPerGeneration == n * cfg.batchesPerGeneration + cfg.batchesPerGeneration;
    }
  }

  /** A fresh trainer that has run `g` generations has played `g`
      generations' worth of games and taken `g` generations' worth of
      optimizer steps; its capacity has not dropped below the initial four
      generations' worth. */
  lemma InitialRun(cfg: Config, selfPlay: nat -> seq<Game>, g: nat)
    ensures After(cfg, Initial(cfg), selfPlay, g).gamesPlayed == g * cfg.gamesPerGeneration
    ensures After(cfg, Initial(cfg), selfPlay, g).steps == g * cfg.batchesPerGeneration
    ensures After(cfg, Initial(cfg), selfPlay, g).capacity >= 4 * cfg.gamesPerGeneration
  {
    AfterCounts(cfg, Initial(cfg), selfPlay, g);
  }

  datatype RunResult =
    | Finished(state: TrainerState, log: seq<Event>)
    | Aborted(state: TrainerState, log: seq<Event>, failed: nat, error: Error)

  /** Every generation after the start up to `g` trains. */
  ghost predicate AllTrain(cfg: Config, t0: TrainerState, selfPlay: nat -> seq<Game>, g: nat)
  {
    forall h :: t0.generation < h <= g ==> Trains(cfg, t0, selfPlay, h)
  }

  /** A finished run has performed the whole schedule, every generation found
      an example to train on, and its state is the fold of all generations. */
  ghost predicate FinishedRun(cfg: Config, t0: TrainerState, selfPlay: nat -> seq<Game>, r: RunResult)
    requires r.Finished?
  {
    && (ValidConfig(cfg) || LastGeneration <= t0.generation)
    && r.log == [TestAgent] + Schedule(cfg, t0.generation, LastGeneration)
    && r.state.generation == FinalGeneration(t0)
    && r.state == After(cfg, t0, selfPlay, FinalGeneration(t0))
    && AllTrain(cfg, t0, selfPlay, LastGeneration)
  }

  /** Training found no example in generation `failed`: the state is the one
      storing left, and the log ends with that generation's generate step. */
  ghost predicate EmptyPoolAbort(cfg: Config, t0: TrainerState, selfPlay: nat -> seq<Game>, r: RunResult)
    requires r.Aborted? && t0.generation < r.failed
    requires ValidConfig(cfg) || r.failed == t0.generation + 1
  {
    && !Trains(cfg, t0, selfPlay, r.failed)
    && cfg.batchesPerGeneration > 0 && TotalExamples(r.state.buffer) == 0
    && r.state == Stored(cfg, t0, selfPlay, r.failed)
    && r.log == [TestAgent] + Schedule(cfg, t0.generation, r.failed - 1) + [Generate(r.failed)]
  }

  /** A zero period: the first generation trained, then its test or save
      check divided by zero. */
  ghost predicate ZeroPeriodAbort(cfg: Config, t0: TrainerState, selfPlay: nat -> seq<Game>, r: RunResult)
    requires r.Aborted? && t0.generation < r.failed
  {
    && !ValidConfig(cfg)
    && Trains(cfg, t0, selfPlay, r.failed)
    && r.state == After(cfg, t0, selfPlay, r.failed)
    && r.log == [TestAgent, Generate(r.failed), Train(r.failed)]
                + (if cfg.testEvery > 0 && r.failed % cfg.testEvery == 0 then [TestAgent] else [])
  }

  /** An aborted run failed at generation `failed` after every earlier
      generation trained, for one of the two reasons above. */
  ghost predicate AbortedRun(cfg: Config, t0: TrainerState, selfPlay: nat -> seq<Game>, r: RunResult)
    requires r.Aborted?
  {
    && t0.generation < r.failed <= LastGeneration
    && r.state.generation == r.failed
    && (ValidConfig(cfg) || r.failed == t0.generation + 1)
    && AllTrain(cfg, t0, selfPlay, r.failed - 1)
    && (r.error == EmptyPool ==> EmptyPoolAbort(cfg, t0, selfPlay, r))
    && (r.error == ZeroDivision ==> ZeroPeriodAbort(cfg, t0, selfPlay, r))
  }

  /** With test games and valid periods the run aborts exactly when some
      generation finds no example. */
  ghost predicate AbortsExactly(cfg: Config, t0: TrainerState, selfPlay: nat -> seq<Game>, r: RunResult)
  {
    cfg.nTests > 0 && ValidConfig(cfg) ==>
      (r.Aborted? <==> exists h :: t0.generation < h <= LastGeneration && !Trains(cfg, t0, selfPlay, h))
  }

  /** With no test game the first test, before the loop, divides by zero:
      nothing has run, the log is empty and the state is the start state. */
  ghost predicate TestAbort(t0: TrainerState, r: RunResult)
  {
    && r.Aborted? && r.error == ZeroDivision
    && r.failed == t0.generation && r.state == t0 && r.log == []
  }

  /** What a run from `t0` ends with, given the games `selfPlay` yields. */
  ghost predicate RunOutcome(cfg: Config, t0: TrainerState, selfPlay: nat -> seq<Game>, r: RunResult)
  {
    && r.state.capacity >= t0.capacity
    && (cfg.nTests == 0 ==> TestAbort(t0, r))
    && (r.Finished? ==> FinishedRun(cfg, t0, selfPlay, r))
    && (r.Aborted? && cfg.nTests > 0 ==> AbortedRun(cfg, t0, selfPlay, r))
    && AbortsExactly(cfg, t0, selfPlay, r)
  }

  /** `run`: test once, then for every generation up to `LastGeneration`
      generate, train, and test and save on their periods. `vsRandom(i)` is
      the score pair of the first test's `i`-th game pair against a random
      player. The later tests read the same `nTests`, so once the first test
      has divided by a non-zero count they do too. */
  method Run(cfg: Config, t0: TrainerState, selfPlay: nat -> seq<Game>, predict: Predictor,
             vsRandom: nat -> (real, real))
    returns (r: RunResult)
    ensures RunOutcome(cfg, t0, selfPlay, r)
  {
    var first := TestAverage(seq(cfg.nTests, i requires 0 <= i => vsRandom(i)));
    if first.Failure? {
      return Aborted(t0, [], t0.generation, first.error);
    }
    var t := t0;
    var log := [TestAgent];
    while t.generation < LastGeneration
      invariant cfg.nTests > 0
      invariant t0.generation <= t.generation
      invariant t0.generation < LastGeneration ==> t.generation <= LastGeneration
      invariant t0.generation >= LastGeneration ==> t == t0
      invariant !ValidConfig(cfg) ==> t == t0
      invariant t == After(cfg, t0, selfPlay, t.generation)
      invariant forall h :: t0.generation < h <= t.generation ==> Trains(cfg, t0, selfPlay, h)
      invariant log == [TestAgent] + Schedule(cfg, t0.generation, t.generation)
    {
      var next := Pass(cfg, t0, t, log, selfPlay, predict);
      if next.Stop? {
        return next.result;
      }
      t, log := next.state, next.log;
    }
    FinishedOutcome(cfg, t0, selfPlay, t, log);
    return Finished(t, log);
  }

  datatype PassResult = Continue(state: TrainerState, log: seq<Event>) | Stop(result: RunResult)

  /** One pass of `run`'s loop from a state the loop reached: generation
      `t.generation + 1` generates and trains, then checks its test and save
      periods. */
  method Pass(cfg: Config, t0: TrainerState, t: TrainerState, log: seq<Event>,
              selfPlay: nat -> seq<Game>, predict: Predictor)
    returns (r: PassResult)
    requires cfg.nTests > 0
    requires t0.generation <= t.generation < LastGeneration
    requires !ValidConfig(cfg) ==> t == t0
    requires t == After(cfg, t0, selfPlay, t.generation)
    requires forall h :: t0.generation < h <= t.generation ==> Trains(cfg, t0, selfPlay, h)
    requires log == [TestAgent] + Schedule(cfg, t0.generation, t.generation)
    ensures r.Continue? <==> ValidConfig(cfg) && Trains(cfg, t0, selfPlay, t.generation + 1)
    ensures r.Continue? ==> r.state.generation == t.generation + 1
    ensures r.Continue? ==> r.state == After(cfg, t0, selfPlay, r.state.generation)
    ensures r.Continue? ==> forall h :: t0.generation < h <= r.state.generation ==> Trains(cfg, t0, selfPlay, h)
    ensures r.Continue? ==> r.log == [TestAgent] + Schedule(cfg, t0.generation, r.state.generation)
    ensures r.Stop? ==> r.result.Aborted? && r.result.failed == t.generation + 1
    ensures r.Stop? ==> RunOutcome(cfg, t0, selfPlay, r.result)
  {
    var g := t.generation + 1;
    var trained := Generation(cfg, t, selfPlay(g), predict);
    assert Stored(cfg, t0, selfPlay, g) == GenerateExamples(cfg, t.(generation := g), selfPlay(g));
    if trained.Failure? {
      EmptyPoolOutcome(cfg, t0, selfPlay, g, log);
      return Stop(Aborted(Stored(cfg, t0, selfPlay, g), log + [Generate(g)], g, EmptyPool));
    }
    assert trained.value == After(cfg, t0, selfPlay, g);
    r := PeriodChecks(cfg, t0, selfPlay, g, log);
  }

  /** The test and save checks that close the pass of generation `g`, after
      it trained: a zero period divides by zero, otherwise the generation's
      events join the log and the loop continues. The run reaches the loop
      only after its first test divided by `2 * nTests`, so `nTests` is
      positive here and the test itself cannot divide by zero. */
  method PeriodChecks(cfg: Config, t0: TrainerState, selfPlay: nat -> seq<Game>, g: nat, log: seq<Event>)
    returns (r: PassResult)
    requires cfg.nTests > 0
    requires t0.generation < g <= LastGeneration
    requires !ValidConfig(cfg) ==> g == t0.generation + 1
    requires forall h :: t0.generation < h < g ==> Trains(cfg, t0, selfPlay, h)
    requires Trains(cfg, t0, selfPlay, g)
    requires log == [TestAgent] + Schedule(cfg, t0.generation, g - 1)
    ensures r.Continue? <==> ValidConfig(cfg)
    ensures r.Continue? ==> r.state.generation == g
    ensures r.Continue? ==> r.state == After(cfg, t0, selfPlay, r.state.generation)
    ensures r.Continue? ==> forall h :: t0.generation < h <= r.state.generation ==> Trains(cfg, t0, selfPlay, h)
    ensures r.Continue? ==> r.log == [TestAgent] + Schedule(cfg, t0.generation, r.state.generation)
    ensures r.Stop? ==> r.result.Aborted? && r.result.failed == g
    ensures r.Stop? ==> RunOutcome(cfg, t0, selfPlay, r.result)
  {
    var trained := After(cfg, t0, selfPlay, g);
    if cfg.testEvery == 0 {
      ZeroPeriodOutcome(cfg, t0, selfPlay, g, []);
      return Stop(Aborted(trained, [TestAgent, Generate(g), Train(g)], g, ZeroDivision));
    }
    var tested := if g % cfg.testEvery == 0 then [TestAgent] else [];
    if cfg.save && cfg.saveEvery == 0 {
      ZeroPeriodOutcome(cfg, t0, selfPlay, g, tested);
      return Stop(Aborted(trained, [TestAgent, Generate(g), Train(g)] + tested, g, ZeroDivision));
    }
    ScheduleStep(cfg, t0.generation, g);
    TrainsExtend(cfg, t0, selfPlay, g);
    return Continue(trained, log + GenerationEvents(cfg, g));
  }

  lemma FinishedOutcome(cfg: Config, t0: TrainerState, selfPlay: nat -> seq<Game>, t: TrainerState, log: seq<Event>)
    requires cfg.nTests > 0
    requires t0.generation <= t.generation && LastGeneration <= t.generation
    requires t0.generation < LastGeneration ==> t.generation <= LastGeneration
    requires t0.generation >= LastGeneration ==> t == t0
    requires !ValidConfig(cfg) ==> t == t0
    requires t == After(cfg, t0, selfPlay, t.generation)
    requires forall h :: t0.generation < h <= t.generation ==> Trains(cfg, t0, selfPlay, h)
    requires log == [TestAgent] + Schedule(cfg, t0.generation, t.generation)
    ensures RunOutcome(cfg, t0, selfPlay, Finished(t, log))
  {
    var r := Finished(t, log);
    assert t.generation == FinalGeneration(t0);
    assert AllTrain(cfg, t0, selfPlay, LastGeneration);
    assert FinishedRun(cfg, t0, selfPlay, r);
    assert AbortsExactly(cfg, t0, selfPlay, r);
  }

  lemma EmptyPoolOutcome(cfg: Config, t0: TrainerState, selfPlay: nat -> seq<Game>, g: nat, log: seq<Event>)
    requires cfg.nTests > 0
    requires t0.generation < g <= LastGeneration
    requires !ValidConfig(cfg) ==> g == t0.generation + 1
    requires forall h :: t0.generation < h < g ==> Trains(cfg, t0, selfPlay, h)
    requires !Trains(cfg, t0, selfPlay, g)
    requires log == [TestAgent] + Schedule(cfg, t0.generation, g - 1)
    ensures RunOutcome(cfg, t0, selfPlay, Aborted(Stored(cfg, t0, selfPlay, g), log + [Generate(g)], g, EmptyPool))
  {
    var r := Aborted(Stored(cfg, t0, selfPlay, g), log + [Generate(g)], g, EmptyPool);
    EmptyPoolAborts(cfg, t0, selfPlay, g, log);
    AbortsAtFailure(cfg, t0, selfPlay, r);
    AbortedOutcome(cfg, t0, selfPlay, r);
  }

  lemma EmptyPoolAborts(cfg: Config, t0: TrainerState, selfPlay: nat -> seq<Game>, g: nat, log: seq<Event>)
    requires t0.generation < g <= LastGeneration
    requires !ValidConfig(cfg) ==> g == t0.generation + 1
    requires forall h :: t0.generation < h < g ==> Trains(cfg, t0, selfPlay, h)
    requires !Trains(cfg, t0, selfPlay, g)
    requires log == [TestAgent] + Schedule(cfg, t0.generation, g - 1)
    ensures Stored(cfg, t0, selfPlay, g).capacity >= t0.capacity
    ensures AbortedRun(cfg, t0, selfPlay, Aborted(Stored(cfg, t0, selfPlay, g), log + [Generate(g)], g, EmptyPool))
  {
    var r := Aborted(Stored(cfg, t0, selfPlay, g), log + [Generate(g)], g, EmptyPool);
    assert AllTrain(cfg, t0, selfPlay, g - 1);
    assert EmptyPoolAbort(cfg, t0, selfPlay, r);
  }

  lemma AbortedOutcome(cfg: Config, t0: TrainerState, selfPlay: nat -> seq<Game>, r: RunResult)
    requires cfg.nTests > 0
    requires r.Aborted? && r.state.capacity >= t0.capacity
    requires AbortedRun(cfg, t0, selfPlay, r) && AbortsExactly(cfg, t0, selfPlay, r)
    ensures RunOutcome(cfg, t0, selfPlay, r)
  {
  }

  /** A run that stops at a generation that finds no example aborts exactly
      as the configuration predicts. */
  lemma AbortsAtFailure(cfg: Config, t0: TrainerState, selfPlay: nat -> seq<Game>, r: RunResult)
    requires r.Aborted? && t0.generation < r.failed <= LastGeneration && !Trains(cfg, t0, selfPlay, r.failed)
    ensures AbortsExactly(cfg, t0, selfPlay, r)
  {
  }

  lemma ZeroPeriodOutcome(cfg: Config, t0: TrainerState, selfPlay: nat -> seq<Game>, g: nat, tested: seq<Event>)
    requires cfg.nTests > 0
    requires g == t0.generation + 1 <= LastGeneration
    requires !ValidConfig(cfg) && Trains(cfg, t0, selfPlay, g)
    requires tested == if cfg.testEvery > 0 && g % cfg.testEvery == 0 then [TestAgent] else []
    ensures RunOutcome(cfg, t0, selfPlay, Aborted(After(cfg, t0, selfPlay, g), [TestAgent, Generate(g), Train(g)] + tested, g, ZeroDivision))
  {
    var r := Aborted(After(cfg, t0, selfPlay, g), [TestAgent, Generate(g), Train(g)] + tested, g, ZeroDivision);
    assert AllTrain(cfg, t0, selfPlay, g - 1);
    assert ZeroPeriodAbort(cfg, t0, selfPlay, r);
    assert AbortedRun(cfg, t0, selfPlay, r);
  }

  lemma TrainsExtend(cfg: Config, t0: TrainerState, selfPlay: nat -> seq<Game>, g: nat)
    requires t0.generation < g
    requires forall h :: t0.generation < h < g ==> Trains(cfg, t0, selfPlay, h)
    requires Trains(cfg, t0, selfPlay, g)
    ensures forall h :: t0.generation < h <= g ==> Trains(cfg, t0, selfPlay, h)
  {
  }
}
