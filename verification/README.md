# Replay-buffer bookkeeping of the AlphaZero trainer

A Dafny model of the sequential core of `Trainer` in `train.py`, the AlphaZero
training loop of alphazero-openspiel. The model covers:

- how `remove_duplicates` merges the training examples that share a key;
- how `generate_examples` and `update_buffer_size` maintain the FIFO buffer of
  whole games with its growing capacity;
- how `train_network` flattens and deduplicates the buffer into a pool, and how
  `net_step` draws mini-batches from it, putting the network's own output in
  place of absent policy targets;
- the average of `test_agent` against the random player;
- the generation loop of `run`: which generations it runs, when it tests, and
  when it saves.

An example is the record `[key, state, policy, value]` (`Examples.Example`).
The empty policy means "no policy target". Values and policy entries are exact
reals.

Modules:

- `Examples`: the records and keys.
- `Dedup`: deduplication.
  - It mirrors the source: a left fold over the three dicts (`Table`), then the
    division pass.
  - It also gives reference definitions of the intended result: occurrences,
    first-occurrence order, the sums and the means.
- `DedupProperties`: the promises about the deduplicated result.
- `ReplayBuffer`: eviction, capacity growth, flattening.
- `Sampling`: `net_step`'s batch.
- `Trainer`: the state of a `Trainer`, `generate_examples`, `train_network`,
  `test_agent`'s average, and `run`. `After` folds the generate and train
  steps over the generations, and `RunOutcome` says how a run ends: it
  finishes, or it aborts when the first test has no test game, on an empty
  pool, or on a zero test or save period.
- `RunSchedule`: what `run`'s event log looks like.
- `Aliasing`: the in-place write-back of `remove_duplicates` as written (see
  Findings).

The self-play generator, the network and the match functions are not part of
this model. They enter as parameters:

- `selfPlay(g)` gives the games generated in generation `g`.
- `predict(it, row)` gives the network's policy for a state row after `it`
  optimizer steps.
- `test_agent`'s scores against a random player are given: a sequence for
  `Trainer.TestAverage`, and `vsRandom(i)` for the `i`-th game pair of the
  first test of `Trainer.Run`.
- `np.random.randint` is an arbitrary choice of an index in range.

### Behaviour worth knowing

- `run` stops after generation 201 (`Trainer.LastGeneration`).
- `run` tests once before the loop, as well as after every `test_n_gens`-th
  generation. Saving has its own period, `save_n_gens`.
- The merged policy is the mean of the non-empty policies only. An occurrence
  without a policy still counts for the value mean.
- Summing policies goes through `zip`. When two policies of one key differ in
  length, the sum is cut to the shorter one. `Dedup.AddVec` models that
  truncation, so no equal-length precondition is imposed. When all policies
  share one width, the merged ones keep it (`DedupProperties.UniformWidthKept`).

### Failures

Sampling from an empty pool fails (`Examples.EmptyPool`). A zero
`test_n_gens`, a zero `save_n_gens` while saving, or a zero `n_tests` makes a
division fail (`Examples.ZeroDivision`). A zero `n_tests` fails in the first
test, before the loop; the periods fail after the first generation trains.
The model carries these failures rather than assuming positive settings.

## Model

| member | source | states |
|---|---|---|
| Dedup.Step | train.py:176-192 | one merge-loop iteration adds the item's key to the dicts, leaves every other key's record and counts untouched, and keeps all counts positive |
| Dedup.Accumulate | train.py:176-192 | after the merge loop the three dicts share one key set and every count is positive |
| Dedup.Finish | train.py:194-198 | one division of the final pass keeps the record's key and state, and its value and policy entries times their counts give back the stored sums |
| Dedup.Finalize | train.py:194-198 | the final pass yields one record per dict key, in insertion order, each with its stored record's key and state |
| Dedup.RemoveDuplicates | train.py:157-201 | one record per distinct key, in order of first occurrence; each carries the state of its key's first occurrence, the mean value over all occurrences, and the mean of the non-empty policies (empty when there are none) |
| Dedup.AccumulateDescribes | train.py:176-192 | after the merge loop, the dicts hold for every key seen: the summed non-empty policies, the summed values, the occurrence count (at least 1) and the policy count (1 when no policy was seen, else the number of non-empty policies); the dict order is first-occurrence order |
| Dedup.MergeMatchesReference | train.py:179-187 | folding one more occurrence into a key's running policy sum, policy count and value sum gives the sums and count of the extended occurrence list |
| Dedup.FinalizeMeans | train.py:194-198 | dividing the sums of the dicts after the merge loop gives, key by key in first-occurrence order, the mean policy and the mean value of that key's occurrences |
| DedupProperties.RemoveDuplicatesKeys | train.py:176-198 | output keys are pairwise distinct, are exactly the input keys, and come in first-occurrence order; the output is never longer than the input and is empty only for an empty input |
| DedupProperties.KeysOfResult | train.py:189-198 | the output keys, in order, are the keys in order of first occurrence |
| DedupProperties.MeanPolicyAbsent | train.py:179-183 | the merged policy is absent exactly when every occurrence's policy is absent |
| DedupProperties.EmptyPolicyIgnored | train.py:179-187 | an occurrence without a policy changes neither the policies summed nor the merged policy, but is counted in the value mean |
| DedupProperties.MeanPolicyPointwise | train.py:179-196 | with policies of one length, entry j of the merged policy is the sum of entry j over the non-empty policies divided by their number |
| DedupProperties.UniformWidthKept | train.py:176-198 | when every present policy target has one width, every merged policy has that width too |
| DedupProperties.MergeTwo | train.py:176-198 | two occurrences of one key with equal-length policies merge into one record holding the entry-wise average policy and the average value |
| DedupProperties.DistinctUnchanged | train.py:189-198 | when no key repeats, the result is the input unchanged (every division is by one) |
| DedupProperties.Idempotent | train.py:157-201 | deduplicating an already deduplicated pool changes nothing |
| ReplayBuffer.Evict | train.py:233-236 | the kept games are the newest min(length, capacity) games, a suffix of the buffer in its order |
| ReplayBuffer.GrowCapacity | train.py:295-297 | the capacity grows exactly on even generations below the maximum (by a positive increment); it never shrinks, and never passes maximum plus one increment once below it |
| ReplayBuffer.Flatten | train.py:139 | the pool has exactly as many examples as the games of the buffer hold |
| ReplayBuffer.FlattenContents | train.py:139 | the pool's length is the total number of examples in the games, and an example is in the pool exactly when it is in some game |
| ReplayBuffer.EvictedPoolIsSuffix | train.py:233-236 | evicting games from the front drops a prefix of the flattened pool |
| Sampling.SampleIndices | train.py:108 | fails exactly on an empty pool; otherwise gives batch_size indices, each below the pool size |
| Sampling.FillPolicies | train.py:117 | a present policy target is kept and an absent one replaced by the network's prediction for its row; a network that never predicts an empty row leaves no target absent |
| Sampling.NetStep | train.py:108-117 | fails exactly on an empty pool; otherwise every row of the batch is the pool example its index names, with an absent policy target replaced by the network's prediction for that row; a network that never predicts an empty row leaves no target absent |
| Trainer.Initial | train.py:41-58 | a fresh trainer is at generation 0 with nothing played, no optimizer step, and no example to train on |
| Trainer.GenerateExamples | train.py:223-236 | the buffer becomes the longest suffix of old plus new games that fits the capacity as grown for this generation, untouched when it fits; games_played grows by one generation's worth |
| Trainer.CapacityOne | train.py:226-236 | with capacity one and no growth, a buffer holding one game keeps only the newly generated game |
| Trainer.Pool | train.py:139-140 | the pool's keys are distinct and exactly the buffer's keys, and it is never larger than the buffer |
| Trainer.PoolEmpty | train.py:139-140 | the deduplicated pool is empty exactly when the buffer holds no example |
| Trainer.NetSteps | train.py:144-145 | the batch loop fails exactly when a batch is due on an empty pool; otherwise it yields one batch per step, the i-th drawn from the pool with the network after step+i updates |
| Trainer.TrainNetwork | train.py:132-154 | fails exactly when a batch is due and the buffer holds no example; otherwise performs one step per batch on the deduplicated pool, the i-th with the network after it+i updates, advances it by the batch count and leaves the buffer unchanged |
| Trainer.TestAverage | train.py:252-257 | with no test game the division by 2·n_tests fails; otherwise the average times 2·n_tests is the score sum, and it lies in [-1, 1] when each score does |
| Trainer.Generation | train.py:280-283 | one loop pass: advance the generation, store the new games, train; fails exactly when training finds no example, otherwise the buffer is what storing left |
| Trainer.GenerationEvents | train.py:280-293 | a loop pass logs generate then train, a test exactly on the test period, and a save exactly when saving is on and on the save period |
| Trainer.Schedule | train.py:279-293 | the passes from start+1 to stop log at least two events each |
| Trainer.After | train.py:279-283 | the state after generation g's generate and train steps is at generation g, with a capacity no smaller than at the start |
| Trainer.AfterCounts | train.py:223 | each generation adds one generation's worth of games played (and of optimizer steps, train.py:129), so after g passes from the start both have grown by g times that |
| Trainer.InitialRun | train.py:41-58 | a fresh trainer after g generations has played g generations' worth of games, taken g generations' worth of optimizer steps, and kept at least its initial capacity |
| Trainer.PeriodChecks | train.py:285-293 | after training (reached only once the first test passed, so n_tests is positive), a zero test period, or a zero save period while saving, divides by zero and aborts; otherwise the pass's events join the log and the loop goes on |
| Trainer.Pass | train.py:280-293 | one loop pass, reached only once the first test passed with n_tests positive, continues exactly when the configuration is valid and the generation trains, with the state after that generation and the log extended by its events; otherwise it aborts the run as the run's outcome describes |
| Trainer.Run | train.py:252-293 | with no test game the first test, before the loop, divides by zero and the run aborts with nothing run and the start state; otherwise a run finishes only after performing the whole schedule up to generation 201, with every generation finding an example and the state equal to the generate-and-train fold over all generations; otherwise it aborts at a generation after which every earlier one trained, either because that generation's stored buffer holds no example (state as storing left it, log ending with its generate step) or because a zero test or save period divides by zero after the first generation trains; with test games and valid periods it aborts exactly when some generation finds no example; the capacity never shrinks |
| RunSchedule.ScheduleCounts | train.py:279-287 | the generations run are start+1 to stop, each once and in order; the tests after training number stop/test_n_gens − start/test_n_gens |
| RunSchedule.ScheduleSaves | train.py:289-293 | generation g is saved exactly when it is in the range, saving is on, and g is a multiple of save_n_gens |
| RunSchedule.ScheduleOrdered | train.py:280-287 | every generate step is immediately followed by training on the same generation, and training is immediately followed by a test exactly when the generation is a multiple of test_n_gens |
| RunSchedule.FreshRun | train.py:277-293 | for any valid configuration, a fresh run that finishes performs generations 1 to 201 in order, tests once before the loop and after every test_n_gens-th generation, and saves exactly the generations that are multiples of save_n_gens when saving is on |
| RunSchedule.DefaultRun | train.py:277-293 | with the constructor's defaults a fresh run tests 21 times and saves after generations 10, 20, …, 200 and no others |
| Aliasing.WriteBackGame | train.py:186-197 | writing back into one game keeps its length and every record's key and state |
| Aliasing.WriteBack | train.py:186-197 | writing back into the buffer keeps its number of games and each game's keys |
| Aliasing.TrainAsWritten | train.py:176-198 | training as written returns the correct pool, keeps the buffer's games and keys, and leaves the buffer unchanged when no key repeats |
| Aliasing.TrainTwoGames | train.py:176-198 | two one-record games of one key train on their average, and the write-back puts that average into the first game while the second keeps its labels |
| Aliasing.LabelsDrift | train.py:186-197 | two games with value targets 1 and 0 for one key train on 0.5, and with the buffer otherwise unchanged the next training trains on 0.25 |

## Left out

- Network forward pass, losses, `backward` and the optimizer step (train.py:113-128): floating-point tensor numerics. The network is the `predict` parameter.
- Device selection, logging, timing, and checkpoint writing: I/O. A save appears only as an event in `run`'s log.
- `ExampleGenerator`, the tree search, and the test match functions: their source is not part of this model. Games come from the `selfPlay` parameter; test scores are a given sequence.
- The three averages of `test_agent` against tree-search opponents: they are computed inside the generator.
- Multiprocessing and the `__main__` block: process plumbing.
- tournament.py: an entry-point script over the external match functions.
- The distribution of the sampled indices: the model says only that each is in range.
- Float rounding: values and policies are exact reals.
- Sampling.NetStep: the network is applied row by row. In the source one forward pass covers the whole batch; the network's source is not part of this model, so whether its rows are coupled (for instance by batch normalisation in training mode) is not modelled.
- Sampling.NetStep: rows are taken to be rectangular. In the source, converting a batch to tensors (train.py:113, 119) raises when its state rows or policy rows differ in length, and the loss (train.py:125) raises when a present policy's width differs from the network's output. A truncated sum from policies of mixed width, or a policy of the wrong width, would do that; the model does not carry this failure, and the width of the network's output is not part of it.
- Sampling.SampleIndices: an empty pool fails whatever the batch size. numpy may return no index for a zero batch size even on an empty range; what the network then does with an empty batch is not modelled.
- Trainer.TestAverage: the scores are given. Whether each score lies in [-1, 1] depends on the match function, so the bound is conditional.

## Findings

| source | as written | input that shows it | evidently intended | confidence | as-written member | corrected member |
|---|---|---|---|---|---|---|
| train.py:186-197 | `remove_duplicates` stores the first record of each key itself in its dict, then adds to and divides that record's policy and value slots. That record still lives in `self.buffer`, so after training it holds the merged labels, and the next generation averages them again. | Buffer `[[k: value 1, policy [1]], [k: value 0, policy [0]]]`. The first training merges to 0.5 and [0.5] and writes that into the first game. The next training, with nothing evicted, merges 0.5 with 0 to 0.25 and [0.25]. | Deduplication works on copies. The stored games keep their own labels, and each training averages the labels the games were generated with. | medium (assumes the generator's records are mutable lists, as the item assignments require); not executed | Aliasing.TrainAsWritten, Aliasing.LabelsDrift | Trainer.TrainNetwork |
