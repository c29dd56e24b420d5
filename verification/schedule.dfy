/** What the event log of `Trainer.run` looks like: the generations it runs,
    in order and each once; every generation generates, then trains at once;
    the agent is tested right after training exactly on the test period; and
    the network is saved exactly on the save period.
 */
module RunSchedule {
  import opened Trainer

  /** The generation numbers of the `Generate` events of `log`, in order. */
  function Generations(log: seq<Event>): seq<nat>
    decreases |log|
  {
    if |log| == 0 then []
    else (if log[0].Generate? then [log[0].generation] else []) + Generations(log[1..])
  }

  /** The number of `TestAgent` events in `log`. */
  function CountTests(log: seq<Event>): nat
    decreases |log|
  {
    if |log| == 0 then 0 else (if log[0] == TestAgent then 1 else 0) + CountTests(log[1..])
  }

  lemma GenerationsAppend(a: seq<Event>, b: seq<Event>)
    ensures Generations(a + b) == Generations(a) + Generations(b)
    ensures CountTests(a + b) == CountTests(a) + CountTests(b)
  {
    GenerationsConcat(a, b);
    CountTestsConcat(a, b);
  }

  lemma {:induction false} GenerationsConcat(a: seq<Event>, b: seq<Event>)
    ensures Generations(a + b) == Generations(a) + Generations(b)
    decreases |a|
  {
    if |a| == 0 {
      assert a + b == b;
    } else {
      var c := a + b;
      assert c[0] == a[0];
      assert c[1..] == a[1..] + b;
      GenerationsConcat(a[1..], b);
      var head := if a[0].Generate? then [a[0].generation] else [];
      assert Generations(c) == head + (Generations(a[1..]) + Generations(b));
      assert head + (Generations(a[1..]) + Generations(b)) == (head + Generations(a[1..])) + Generations(b);
    }
  }

  lemma {:induction false} CountTestsConcat(a: seq<Event>, b: seq<Event>)
    ensures CountTests(a + b) == CountTests(a) + CountTests(b)
    decreases |a|
  {
    if |a| == 0 {
      assert a + b == b;
    } else {
      var c := a + b;
      assert c[0] == a[0];
      assert c[1..] == a[1..] + b;
      CountTestsConcat(a[1..], b);
    }
  }

  lemma GenerationEventsFacts(cfg: Config, g: nat)
    requires ValidConfig(cfg)
    ensures Generations(GenerationEvents(cfg, g)) == [g]
    ensures CountTests(GenerationEvents(cfg, g)) == if g % cfg.testEvery == 0 then 1 else 0
  {
    var head := [Generate(g), Train(g)];
    var test: seq<Event> := if g % cfg.testEvery == 0 then [TestAgent] else [];
    var save: seq<Event> := if cfg.save && g % cfg.saveEvery == 0 then [Save(g)] else [];
    assert GenerationEvents(cfg, g) == head + (test + save);
    GenerationsAppend(head, test + save);
    GenerationsAppend(test, save);
    assert head[1..] == [Train(g)];
    assert [Train(g)][1..] == [];
    if test != [] {
      assert test[1..] == [];
    }
    if save != [] {
      assert save[1..] == [];
    }
  }

  /** `n / d` grows by one exactly when `n` is a multiple of `d`. */
  lemma DivStep(n: nat, d: nat)
    requires n > 0 && d > 0
    ensures n / d == (n - 1) / d + (if n % d == 0 then 1 else 0)
  {
    var q := (n - 1) / d;
    var m := (n - 1) % d;
    assert n - 1 == q * d + m && 0 <= m < d;
    if m + 1 == d {
      assert n == (q + 1) * d + 0;
      DivUnique(n, d, q + 1, 0);
    } else {
      assert n == q * d + (m + 1);
      DivUnique(n, d, q, m + 1);
    }
  }

  lemma DivUnique(n: nat, d: nat, q: nat, m: nat)
    requires d > 0 && m < d && n == q * d + m
    ensures n / d == q && n % d == m
  {
    var q' := n / d;
    MulBound(q' - q, d);
    assert (q' - q) * d == q' * d - q * d;
  }

  lemma MulBound(k: int, d: int)
    requires d >= 0
    ensures k >= 1 ==> k * d >= d
    ensures k <= -1 ==> k * d <= -d
  {
  }

  /** The run executes generations `start + 1` to `stop`, each once and in
      increasing order, and tests `stop / testEvery - start / testEvery` times
      after training: once per multiple of the test period in that range. */
  lemma {:induction false} ScheduleCounts(cfg: Config, start: nat, stop: nat)
    requires ValidConfig(cfg) && start <= stop
    ensures |Generations(Schedule(cfg, start, stop))| == stop - start
    ensures forall i :: 0 <= i < stop - start ==> Generations(Schedule(cfg, start, stop))[i] == start + 1 + i
    ensures CountTests(Schedule(cfg, start, stop)) == stop / cfg.testEvery - start / cfg.testEvery
    decreases stop
  {
    if stop > start {
      ScheduleCounts(cfg, start, stop - 1);
      GenerationsAppend(Schedule(cfg, start, stop - 1), GenerationEvents(cfg, stop));
      GenerationEventsFacts(cfg, stop);
      DivStep(stop, cfg.testEvery);
    }
  }

  /** Saves happen in exactly the generations of the range that are multiples
      of the save period, and only when saving is on. */
  lemma {:induction false} ScheduleSaves(cfg: Config, start: nat, stop: nat, g: nat)
    requires ValidConfig(cfg)
    ensures Save(g) in Schedule(cfg, start, stop) <==>
              start < g <= stop && cfg.save && g % cfg.saveEvery == 0
    decreases stop
  {
    if stop > start {
      ScheduleSaves(cfg, start, stop - 1, g);
    }
  }

  /** In the log, every `Generate(g)` is immediately followed by `Train(g)`. */
  ghost predicate TrainFollowsGenerate(log: seq<Event>)
  {
    forall i :: 0 <= i < |log| && log[i].Generate? ==> i + 1 < |log| && log[i + 1] == Train(log[i].generation)
  }

  /** In the log, a `Train(g)` is immediately followed by a test exactly when
      `g` is a multiple of the test period. */
  ghost predicate TestFollowsTrain(cfg: Config, log: seq<Event>)
    requires ValidConfig(cfg)
  {
    forall i :: 0 <= i < |log| && log[i].Train? ==>
      ((i + 1 < |log| && log[i + 1] == TestAgent) <==> log[i].generation % cfg.testEvery == 0)
  }

  ghost predicate Ordered(cfg: Config, log: seq<Event>)
    requires ValidConfig(cfg)
  {
    TrainFollowsGenerate(log) && TestFollowsTrain(cfg, log)
  }

  lemma ScheduleOrdered(cfg: Config, start: nat, stop: nat)
    requires ValidConfig(cfg)
    ensures Ordered(cfg, Schedule(cfg, start, stop))
  {
    GenerateThenTrain(cfg, start, stop);
    TrainThenTest(cfg, start, stop);
  }

  /** The shape of one generation's events: generate, train, then possibly a
      test (exactly on the test period) and a save. */
  lemma GenerationEventsShape(cfg: Config, g: nat)
    requires ValidConfig(cfg)
    ensures var e := GenerationEvents(cfg, g);
            && |e| >= 2 && e[0] == Generate(g) && e[1] == Train(g)
            && (forall k :: 2 <= k < |e| ==> !e[k].Generate? && !e[k].Train?)
            && ((|e| > 2 && e[2] == TestAgent) <==> g % cfg.testEvery == 0)
  {
  }

  lemma {:induction false} GenerateThenTrain(cfg: Config, start: nat, stop: nat)
    requires ValidConfig(cfg)
    ensures TrainFollowsGenerate(Schedule(cfg, start, stop))
    decreases stop
  {
    if stop > start {
      var s := Schedule(cfg, start, stop - 1);
      var e := GenerationEvents(cfg, stop);
      var log := s + e;
      assert Schedule(cfg, start, stop) == log;
      GenerateThenTrain(cfg, start, stop - 1);
      GenerationEventsShape(cfg, stop);
      forall i | 0 <= i < |log| && log[i].Generate?
        ensures i + 1 < |log| && log[i + 1] == Train(log[i].generation)
      {
        if i < |s| {
          assert log[i] == s[i] && s[i].Generate?;
          assert i + 1 < |s| && s[i + 1] == Train(s[i].generation);
          assert log[i + 1] == s[i + 1];
        } else {
          var k := i - |s|;
          assert log[i] == e[k] && e[k].Generate?;
          assert k == 0;
          assert log[i + 1] == e[1];
        }
      }
    }
  }

  lemma {:induction false} TrainThenTest(cfg: Config, start: nat, stop: nat)
    requires ValidConfig(cfg)
    ensures TestFollowsTrain(cfg, Schedule(cfg, start, stop))
    decreases stop
  {
    if stop > start {
      var s := Schedule(cfg, start, stop - 1);
      var e := GenerationEvents(cfg, stop);
      var log := s + e;
      assert Schedule(cfg, start, stop) == log;
      TrainThenTest(cfg, start, stop - 1);
      GenerationEventsShape(cfg, stop);
      forall i | 0 <= i < |log| && log[i].Train?
        ensures (i + 1 < |log| && log[i + 1] == TestAgent) <==> log[i].generation % cfg.testEvery == 0
      {
        if i + 1 < |s| {
          assert log[i] == s[i] && log[i + 1] == s[i + 1];
        } else if i + 1 == |s| {
          assert log[i] == s[i] && log[i + 1] == e[0];
        } else {
          var k := i - |s|;
          assert log[i] == e[k] && e[k].Train?;
          assert k == 1;
          assert i + 1 < |log| <==> |e| > 2;
          assert i + 1 < |log| ==> log[i + 1] == e[2];
        }
      }
    }
  }

  /** `run` from a fresh trainer (generation 0) runs generations 1 to 201,
      tests once before the loop and once per multiple of the test period up
      to 201, and saves after exactly the multiples of the save period up to
      201 when saving is on. With the values of `Trainer.__init__` that is 21
      tests, and saves after generations 10, 20, ..., 200. */
  lemma FreshRun(cfg: Config)
    requires ValidConfig(cfg)
    ensures var log := [TestAgent] + Schedule(cfg, 0, LastGeneration);
            && |Generations(log)| == LastGeneration
            && (forall i :: 0 <= i < LastGeneration ==> Generations(log)[i] == i + 1)
            && CountTests(log) == 1 + LastGeneration / cfg.testEvery
            && forall g: nat :: Save(g) in log <==> 1 <= g <= LastGeneration && cfg.save && g % cfg.saveEvery == 0
  {
    FreshCounts(cfg, LastGeneration);
    forall g: nat ensures Save(g) in [TestAgent] + Schedule(cfg, 0, LastGeneration) <==>
                       1 <= g <= LastGeneration && cfg.save && g % cfg.saveEvery == 0 {
      ScheduleSaves(cfg, 0, LastGeneration, g);
    }
  }

  lemma FreshCounts(cfg: Config, stop: nat)
    requires ValidConfig(cfg)
    ensures var log := [TestAgent] + Schedule(cfg, 0, stop);
            && |Generations(log)| == stop
            && (forall i :: 0 <= i < stop ==> Generations(log)[i] == i + 1)
            && CountTests(log) == 1 + stop / cfg.testEvery
  {
    var s := Schedule(cfg, 0, stop);
    ScheduleCounts(cfg, 0, stop);
    GenerationsAppend([TestAgent], s);
    assert [TestAgent][1..] == [];
    assert Generations([TestAgent]) == [];
    assert [] + Generations(s) == Generations(s);
  }


  /** The figures of `FreshRun` for the values of `Trainer.__init__`. */
  lemma DefaultRun(cfg: Config)
    requires cfg == Defaults
    ensures ValidConfig(cfg)
    ensures CountTests([TestAgent] + Schedule(cfg, 0, LastGeneration)) == 21
    ensures forall g: nat :: Save(g) in [TestAgent] + Schedule(cfg, 0, LastGeneration) <==> 1 <= g <= 200 && g % 10 == 0
  {
    FreshRun(cfg);
    assert cfg.testEvery == 10 && cfg.saveEvery == 10 && cfg.save;
    assert LastGeneration / 10 == 20;
    forall g: nat ensures (1 <= g <= LastGeneration && g % 10 == 0) <==> (1 <= g <= 200 && g % 10 == 0) {
      if g == LastGeneration {
        assert g % 10 == 1;
      }
    }
  }
}
