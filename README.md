# pyABC samplers: Sample accumulator, remote batched scheduler, multicore protocol

A Dafny model of three pieces of pyABC's sampling layer. Each piece gathers evaluated parameter draws ("particles") until a population of `n` accepted particles is complete.

- **`Samples`** (`samples.dfy`) covers `pyabc/sampler/base.py`.
  - `Sample` is a list of particles that grows by `append`. A particle is stored only when it is accepted or when rejected statistics are recorded.
  - Its accessors are filters and maps over that list.
  - `+` concatenates two samples into a new one.
  - `SampleFactory` makes empty samples.
  - Every `Sampler` starts with an evaluation count of 0 and a non-recording factory.
- **`Eps`** (`eps.dfy`) covers `pyabc/sampler/eps_mixin.py`, the remote batched sampler. Its loop state is the class `Scheduler`, and each loop iteration does four things:
  1. It gathers finished batches into a buffer kept sorted by job id, counting accepted results in any order.
  2. It drains the buffer strictly in job-id order into the consumed results, counting accepted results sequentially.
  3. It stops once `n` sequential accepted results exist.
  4. Otherwise it tops up the running batches. Each new batch gets `batchsize` fresh consecutive job ids.

  After the loop, the still-running batches are cancelled. The population is popped from the consumed results in id order until `n` accepted particles are present. The remote client is an environment: a list of `Round`s, each naming which running batches are found done and how many cores the client reports.
- **`Multicore`** (`multicore.dfy`) covers `pyabc/sampler/multicore.py`.
  - The feeder enqueues `n` work tokens and then one sentinel per worker.
  - `min(n, n_procs)` workers take tokens from the head of the queue in any interleaving. Each runs one single-core round per work token and stops at its first sentinel.
  - The coordinator receives exactly `n` results, sums their evaluation counts and folds their samples with `+`.

The main results proved:
- Stored and accepted particle counts are exact for every `Sample` operation.
- The scheduler keeps an invariant (`Eps.Inv`), preserved by gathering, draining and admission:
  - consumed ids are exactly `0 .. nextValidIndex`, with no gaps;
  - buffered and running ids lie above the consumed ids and below the next id to issue, and they never overlap;
  - the sequential count is the number of accepted consumed results;
  - the any-order count adds the accepted buffered results to the sequential count;
  - every result held, whether running, buffered or consumed, is the evaluation of the parameter drawn under its job id (`Eps.EvaluatedState`).
- So on exit, consumed result `i` is the evaluation of draw `i`.
- The main loop, written with a class and `while`, ends in exactly the state of `Eps.Run`, a function that runs gather, drain, exit check and admission round by round. `Eps.SampleUntilNAccepted` finishes exactly when `Run` does, and consumes and cancels what `Run`'s end state holds.
- Final assembly never pops past the end of the consumed results, and it ends exactly at the `n`-th accepted one.
- With `p` workers, any interleaving posts exactly `n` results, and every worker stops exactly once.
- The coordinator's fold holds the rounds' particles in order, and its accepted count is the sum of the rounds' accepted counts.

## Model

| member | source | states |
|---|---|---|
| Samples.Min | pyabc/sampler/eps_mixin.py:94-95 | the smaller of two counts: at most each, and equal to one of them |
| Samples.AcceptedOf | pyabc/sampler/base.py:47-48 | the accepted filter is never longer than its input, and every element of it is accepted |
| Samples.AcceptedOfMembers | pyabc/sampler/base.py:47-48 | a particle is in the accepted filter exactly when it is in the input and accepted |
| Samples.SumStatsOf | pyabc/sampler/base.py:34 | one summary-statistics entry per particle, entry `i` being particle `i`'s |
| Samples.AcceptedOfConcat | pyabc/sampler/base.py:47-48 | filtering keeps order: the filter of `a + b` is the filter of `a` followed by that of `b` |
| Samples.CountAcceptedConcat | pyabc/sampler/base.py:61 | the accepted count of a concatenation is the sum of the accepted counts |
| Samples.AcceptedOfSnoc | pyabc/sampler/base.py:47-48 | a particle added at the end appears at the end of the filter exactly when it is accepted |
| Samples.AcceptedOfAllAccepted | pyabc/sampler/base.py:47-48 | a list of accepted particles is its own filter |
| Samples.RetainedSnoc | pyabc/sampler/base.py:89-90 | what a sample stores of `ps + [p]` is what it stores of `ps`, plus `p` exactly when `p` is accepted or rejected statistics are recorded |
| Samples.AcceptedOfRetained | pyabc/sampler/base.py:89-90 | the accepted particles of what a sample stored are the accepted particles of everything appended, whatever the record flag |
| Samples.Sample.constructor | pyabc/sampler/base.py:18-20 | a new sample holds no particles, carries the given flag and has 0 accepted |
| Samples.Sample.AllSumStats | pyabc/sampler/base.py:22-34 | one entry per stored particle, in storage order |
| Samples.Sample.AcceptedParticles | pyabc/sampler/base.py:36-48 | only accepted particles, and exactly the stored accepted ones |
| Samples.Sample.NAccepted | pyabc/sampler/base.py:50-61 | the accepted count never exceeds the number of stored particles |
| Samples.Sample.Append | pyabc/sampler/base.py:75-90 | an accepted particle, or any particle while recording, is added at the end; otherwise the particles are unchanged; the record flag never changes |
| Samples.Sample.Add | pyabc/sampler/base.py:92-98 | a fresh sample whose particles are the left operand's followed by the right's, whose flag is the left operand's, and whose accepted count is the sum; neither operand is modified |
| Samples.SampleFactory.constructor | pyabc/sampler/base.py:116-117 | the factory keeps the given record flag |
| Samples.SampleFactory.Call | pyabc/sampler/base.py:119-123 | a fresh empty sample with 0 accepted, carrying the factory's flag |
| Samples.Sampler.constructor | pyabc/sampler/base.py:144-147 | evaluation count 0 and a fresh factory that does not record rejected statistics |
| Samples.Sampler.CreateEmptySample | pyabc/sampler/base.py:149-150 | a fresh empty sample with the factory's flag |
| Eps.EvaluateBatch | pyabc/sampler/eps_mixin.py:8-15 | exactly `batchsize` triples; triple `j` holds the evaluation of parameter `j`, its accept flag and job id `j`, in input order |
| Eps.FlagCountConcat | pyabc/sampler/eps_mixin.py:59-60 | the accepted count of buffered results is additive over concatenation |
| Eps.FlagCountHead | pyabc/sampler/eps_mixin.py:67-72 | popping the buffer head removes exactly its flag from the buffer's accepted count |
| Eps.ConsumedAcceptedBound | pyabc/sampler/eps_mixin.py:71-72 | the sequential accepted count is at most the number consumed, with equality exactly when every consumed result is accepted |
| Eps.BisectRight | pyabc/sampler/eps_mixin.py:57-58 | the insertion point of a key into the sorted buffer: every entry before it has an id at most the key, and the entry at it has a larger id |
| Eps.Insert | pyabc/sampler/eps_mixin.py:57-58 | `add` into the sorted buffer: the buffer grows by one entry and, as a multiset, by exactly the new entry |
| Eps.InsertSorted | pyabc/sampler/eps_mixin.py:57-58 | adding a result whose id is not buffered keeps the buffer strictly sorted by job id |
| Eps.InsertCount | pyabc/sampler/eps_mixin.py:57-60 | adding a result adds exactly its accept flag to the buffer's accepted count |
| Eps.InsertMembers | pyabc/sampler/eps_mixin.py:57-58 | after adding, the buffer holds the old entries and the new one, and nothing else |
| Eps.InsertAllConcat | pyabc/sampler/eps_mixin.py:51-58 | adding `a + b` result by result is adding `a`, then `b` |
| Eps.InsertAllCount | pyabc/sampler/eps_mixin.py:57-60 | adding results one by one adds their accepted count to the buffer's |
| Eps.BatchesToSubmit | pyabc/sampler/eps_mixin.py:90-96 | batches are submitted exactly when fewer run than `client_max_jobs` and than the cores, and fewer than `n` accepted were gathered; then the running batches reach exactly the smaller limit; never more |
| Eps.ConsumedOf | pyabc/sampler/eps_mixin.py:69 | a consumed entry `(job id, result)` per buffered result, in order |
| Eps.SequentialAtMostTotal | pyabc/sampler/eps_mixin.py:59-72 | under the loop invariant, the sequential accepted count is at most the any-order count and at most the number consumed |
| Eps.DrainStep | pyabc/sampler/eps_mixin.py:66-73 | consuming the buffer head when it is the next id in order keeps the loop invariant |
| Eps.AdmitStep | pyabc/sampler/eps_mixin.py:97-107 | submitting a well-formed batch at the next id keeps buffered and running ids between the consumed ids and the next id, with no overlap; the next id advances by `batchsize` |
| Eps.AdmitBatches | pyabc/sampler/eps_mixin.py:93-107 | submitting any number of well-formed batches at consecutive ids from the next id keeps buffered and running ids apart and below the next id, which advances by `batchsize` per batch |
| Eps.IssuedAreConsecutive | pyabc/sampler/eps_mixin.py:97-107 | batches issued one after the other from an id are well formed, batch `t` starting at that id plus `t*batchsize` |
| Eps.AdmitPreservesInv | pyabc/sampler/eps_mixin.py:93-107 | submitting batches issued at consecutive ids from the next id keeps the loop invariant |
| Eps.IssuedBatch | pyabc/sampler/eps_mixin.py:97-107 | the batch submitted at a first id: `batchsize` results, result `j` being the evaluation of draw `first + j` under job id `first + j`, with its accept flag |
| Eps.IssuedBatches | pyabc/sampler/eps_mixin.py:93-107 | exactly `k` batches, batch `t` being the one submitted at `first + t*batchsize` |
| Eps.IssuedBatchUnique | pyabc/sampler/eps_mixin.py:97-107 | a batch with those draws, evaluations and ids is exactly `IssuedBatch`: the first id determines the batch |
| Eps.IssuedBatchesUnique | pyabc/sampler/eps_mixin.py:93-107 | batches issued one after the other from an id are exactly `IssuedBatches` of their number |
| Eps.IssueBatches | pyabc/sampler/eps_mixin.py:93-107 | the submission loop issues exactly `k` batches, and they are `IssuedBatches`: batch `t` holds draws and job ids `firstId + t*batchsize` onward, evaluated in order; the next id advances by `k*batchsize` |
| Eps.GatherFinished | pyabc/sampler/eps_mixin.py:49-60 | buffering every result of one finished batch keeps the gathering invariant (sorted, no overlap with the running batches) |
| Eps.GatherVisit | pyabc/sampler/eps_mixin.py:47-60 | visiting one more running batch, finished or not, keeps the gathering invariant |
| Eps.GatherPrefix | pyabc/sampler/eps_mixin.py:47-60 | after visiting any prefix of the running batches, the buffer and the kept batches satisfy the gathering invariant |
| Eps.GatherPreservesInv | pyabc/sampler/eps_mixin.py:47-60 | gathering any set of finished batches keeps the loop invariant, with the any-order count grown by the gathered accepted results |
| Eps.GatherRunning | pyabc/sampler/eps_mixin.py:47-60 | the gathering loop: the kept batches are exactly the unfinished ones in order; the buffer is the old buffer with the results of every finished batch added; the count grows by their accepted results |
| Eps.BufferBatch | pyabc/sampler/eps_mixin.py:51-60 | the inner gathering loop: the buffer becomes the old buffer with every batch result added by job id, and the count grows by the accepted results of the batch |
| Eps.Drained | pyabc/sampler/eps_mixin.py:62-77 | the drain stops exactly when the buffer is empty or its head is not the next id in order; the consumed results only grow at the end; no entry is lost or duplicated; the next valid index advances by the number consumed |
| Eps.DrainNext | pyabc/sampler/eps_mixin.py:67-73 | one drain step advances the next valid index by one and moves exactly one entry from the buffer to the end of the consumed results |
| Eps.DrainedInv | pyabc/sampler/eps_mixin.py:62-77 | draining keeps the loop invariant (no gaps in consumed ids, sequential count equal to the accepted consumed results) and leaves the buffer empty or with its smallest id beyond the next id in order |
| Eps.DrainLoop | pyabc/sampler/eps_mixin.py:62-77 | the sequential-consumption loop ends in exactly the drained state of its starting state |
| Eps.MovesStep | pyabc/sampler/eps_mixin.py:66-73 | consuming the buffer head and then `m` more entries is consuming the first `m + 1` entries, in order |
| Eps.MovesFromNext | pyabc/sampler/eps_mixin.py:66-73 | what arises from the state after one drain step by moving a prefix of its buffer arises from the state before it by moving a prefix one longer |
| Eps.DrainedMoves | pyabc/sampler/eps_mixin.py:66-77 | draining moves a prefix of the buffer, in order, to the end of the consumed results |
| Eps.InsertEvaluated | pyabc/sampler/eps_mixin.py:57-58 | adding the evaluation of an id's draw to a buffer of such evaluations leaves every buffered result the evaluation of the draw under its id |
| Eps.InsertAllEvaluated | pyabc/sampler/eps_mixin.py:51-58 | the same for adding a whole list of such evaluations |
| Eps.GatheredEvaluated | pyabc/sampler/eps_mixin.py:47-60 | when every running batch holds evaluations of the draws under its ids, so do the gathered results and the batches left running |
| Eps.GatherKeepsEvaluated | pyabc/sampler/eps_mixin.py:47-60 | gathering keeps every running, buffered and consumed result the evaluation of the draw under its id |
| Eps.MovedEvaluated | pyabc/sampler/eps_mixin.py:66-73 | moving a prefix of a buffer of evaluations to the consumed results leaves evaluations of the draws under their ids on both sides |
| Eps.DrainedEvaluated | pyabc/sampler/eps_mixin.py:62-77 | draining keeps every buffered and consumed result the evaluation of the draw under its id |
| Eps.ConsumedInOrder | pyabc/sampler/eps_mixin.py:66-73 | with consumed ids `0 ..` without gaps, consumed result `i` is the evaluation of the parameter drawn `i`-th |
| Eps.AdmitEvaluated | pyabc/sampler/eps_mixin.py:97-107 | a batch submitted at id `first + t*batchsize` holds, for each of its ids, the evaluation of the parameter drawn under that id, so the running batches keep holding such evaluations |
| Eps.Run | pyabc/sampler/eps_mixin.py:41-107 | the main loop as a function of the rounds: each round gathers and drains, then stops once `n` sequential accepted results exist, and otherwise admits and goes on; it reports done only with at least `n` sequential accepted results, and not done only when the rounds ran out, with fewer than `n` if there were any |
| Eps.RunGoesOn | pyabc/sampler/eps_mixin.py:79-107 | a round after which fewer than `n` sequential accepted results exist does not end the run: the run goes on from the admitted state with the remaining rounds |
| Eps.FirstAdmitExample | pyabc/sampler/eps_mixin.py:90-107 | with `n = 1`, batches of one and one job at a time on one core, admission from the initial state submits exactly batch 0 |
| Eps.SecondRoundExample | pyabc/sampler/eps_mixin.py:47-77 | when batch 0 of that example is found done and its result is accepted, gathering and draining consume it and the sequential count reaches 1 |
| Eps.RunFinishesExample | pyabc/sampler/eps_mixin.py:41-107 | with `n = 1`, batches of one, one job at a time and every draw accepted, a round finding nothing done followed by a round finding batch 0 done ends the loop |
| Eps.GatherStateValid | pyabc/sampler/eps_mixin.py:47-60 | gathering keeps the loop invariant and every held result the evaluation of its draw |
| Eps.DrainedStateValid | pyabc/sampler/eps_mixin.py:62-77 | draining keeps the loop invariant and every held result the evaluation of its draw, and leaves the buffer empty or with its smallest id beyond the next id in order |
| Eps.AdmitStateValid | pyabc/sampler/eps_mixin.py:90-107 | admission keeps the loop invariant and every held result the evaluation of its draw |
| Eps.GatherStep | pyabc/sampler/eps_mixin.py:47-60 | the gathering loops on the values of the loop's locals end in exactly the gathered state, which is valid |
| Eps.Scheduler.constructor | pyabc/sampler/eps_mixin.py:33-39 | counters 0, no batches, empty buffers, next valid index -1 (the state `Initial`), the options kept, and the loop invariant holds |
| Eps.Scheduler.Gather | pyabc/sampler/eps_mixin.py:47-60 | the new state is `GatherState` of the old one: the finished batches stop running; their results are added to the buffer by job id; the any-order count grows by their accepted results; the invariant is kept, including that every held result is the evaluation of the draw under its id; nothing else changes |
| Eps.Scheduler.DrainSequential | pyabc/sampler/eps_mixin.py:62-77 | the new state is the drain of the old one; afterwards the buffer is empty or its smallest id lies beyond the next id in order; the invariant is kept, including that every held result is the evaluation of the draw under its id; running batches, next job id and any-order count are unchanged |
| Eps.Scheduler.Admit | pyabc/sampler/eps_mixin.py:90-107 | the new state is `AdmitState` of the old one: exactly the number of batches admission control allows is appended; batch `t` evaluates draws and ids `nextJobId + t*batchsize` onward; `nextJobId` advances by `batchsize` per batch; the invariant is kept, including that every held result is the evaluation of the draw under its id; nothing else changes |
| Eps.ParticlesOf | pyabc/sampler/eps_mixin.py:117-118 | one particle per consumed result, in order |
| Eps.CountAcceptedParticlesOf | pyabc/sampler/eps_mixin.py:116-121 | the accepted particles among consumed results number exactly the sequential accepted count |
| Eps.AssemblyStep | pyabc/sampler/eps_mixin.py:116-121 | popping one more consumed result extends the count by its flag and the stored particles as `append` would |
| Eps.AssemblyNext | pyabc/sampler/eps_mixin.py:116-117 | while fewer than `n` accepted results are popped and at least `n` were consumed, a result is left to pop |
| Eps.AssemblyAdvance | pyabc/sampler/eps_mixin.py:116-121 | popping the next result, counting it when accepted and storing its particle as `append` does keeps the popped count and stored particles those of the popped prefix |
| Eps.AssemblyDone | pyabc/sampler/eps_mixin.py:116-121 | when the loop stops, the popped prefix holds exactly `n` accepted results, ends at an accepted one when `n > 0`, is empty when `n = 0`, and the sample holds `n` accepted particles |
| Eps.PopOne | pyabc/sampler/eps_mixin.py:117-121 | one iteration of the assembly loop pops exactly one result and keeps the loop state |
| Eps.FinalAssembly | pyabc/sampler/eps_mixin.py:113-121 | with at least `n` accepted consumed results, popping never runs past the end; it stops right after the `n`-th accepted result; the sample holds what `append` keeps of the popped results and has exactly `n` accepted |
| Eps.NrEvaluationsAsWritten | pyabc/sampler/eps_mixin.py:122 | the value line 122 stores, the last popped job id, which with consumed ids equal to their positions is one less than the number popped |
| Eps.NrEvaluations | pyabc/sampler/eps_mixin.py:122 | with consumed ids equal to their positions, the evaluation count of the popped prefix is the number popped |
| Eps.AsWrittenCountsOneShort | pyabc/sampler/eps_mixin.py:122 | the stored value, the last popped job id, is one less than the number popped |
| Eps.AsWrittenBelowN | pyabc/sampler/eps_mixin.py:122 | one accepted result with `n = 1`: the stored value is 0, the corrected count 1 |
| Eps.PoppedAtLeastN | pyabc/sampler/eps_mixin.py:116-121 | the popped prefix holding `n` accepted results has at least `n` results |
| Eps.Iterate | pyabc/sampler/eps_mixin.py:42-107 | one iteration: the state is gathered and drained; the loop stops exactly when that state holds at least `n` sequential accepted results, and then is left as it is; otherwise it becomes `AdmitState` of it; the invariant is kept |
| Eps.MainLoop | pyabc/sampler/eps_mixin.py:33-107 | returns a fresh scheduler that keeps the invariant and whose exit flag and final state are exactly those of `Run` from the initial state over the rounds; the consumed ids have no gaps; consumed result `i` is the evaluation of draw `i`; every running batch lies beyond the consumed ids; on exit at least `n` sequential accepted results were consumed; without exit, fewer than `n`, if there were any rounds |
| Eps.Schedule | pyabc/sampler/eps_mixin.py:33-111 | the exit flag, the consumed results and the cancelled batches are exactly `Run`'s from the initial state: its flag, its consumed list and its running batches; the consumed ids have no gaps; consumed result `i` is the evaluation of draw `i`; every cancelled batch lies beyond the consumed results; on exit at least `n` accepted results were consumed, without exit fewer, if there were any rounds |
| Eps.Conclude | pyabc/sampler/eps_mixin.py:109-122 | with at least `n` accepted consumed results: the population is popped right up to the `n`-th accepted result and holds what `append` keeps of them, with exactly `n` accepted; the recorded evaluation count is the number popped, one more than the value line 122 stores; only the sampler's evaluation count changes |
| Eps.SampleUntilNAccepted | pyabc/sampler/eps_mixin.py:33-122 | the outcome is finished exactly when `Run` from the initial state over the rounds finishes; its consumed results are `Run`'s consumed list, and when finished its cancelled batches are `Run`'s running batches; either way, the consumed ids have no gaps and consumed result `i` is the evaluation of draw `i`; when the loop exits, the consumed results hold at least `n` accepted, and every cancelled batch lies beyond them; the popped prefix holds exactly `n` accepted and ends at an accepted result; the sample stores what `append` keeps of it and has exactly `n` accepted; the recorded evaluation count is the number popped, one more than the value line 122 stores (see Findings); an unfinished schedule consumed fewer than `n` accepted results (if it had any rounds) and leaves the sampler unchanged; only the sampler's evaluation count can change |
| Multicore.Feed | pyabc/sampler/multicore.py:15-20 | `nJobs` work tokens followed by `nProc` sentinels, nothing else |
| Multicore.NumWorkers | pyabc/sampler/multicore.py:81 | the worker count is the smaller of `n` and `n_procs` |
| Multicore.WorkerOptions | pyabc/sampler/multicore.py:29-33 | the worker copy of the options asks for `n = 1` and keeps the draw, evaluation and record settings |
| Multicore.Workers | pyabc/sampler/multicore.py:90-92 | the workers are numbered `0 .. p-1`, `p` of them |
| Multicore.PostStep | pyabc/sampler/multicore.py:40-42 | a worker running its next round and posting it keeps the record of posted rounds per worker |
| Multicore.StopStep | pyabc/sampler/multicore.py:36-38 | a running worker that takes a sentinel stops, and no worker stops twice |
| Multicore.RunWorkers | pyabc/sampler/multicore.py:23-42 | under any interleaving of `p >= 1` workers over the fed queue: exactly `nJobs` results are posted; result `i` is the next round of the worker that posted it, run with the worker options; every worker stops exactly once |
| Multicore.Collect | pyabc/sampler/multicore.py:99-103 | exactly `n` results, the first `n` of the result queue, in order |
| Multicore.Flatten | pyabc/sampler/multicore.py:117-119 | every particle of every collected round is in the fold |
| Multicore.FlattenCount | pyabc/sampler/multicore.py:117-119 | the accepted count of the fold is the sum of the rounds' accepted counts |
| Multicore.SumEvaluations | pyabc/sampler/multicore.py:113-114 | the summed evaluation count is at least each round's count |
| Multicore.EvaluationsAtLeastRounds | pyabc/sampler/multicore.py:113-114 | when every round evaluated at least once, the summed evaluation count is at least the number of rounds |
| Multicore.OneAcceptedPerRound | pyabc/sampler/multicore.py:116-119 | when every round delivers exactly one accepted particle, the fold holds exactly one accepted particle per round |
| Multicore.Aggregate | pyabc/sampler/multicore.py:116-119 | the left fold of `+` from an empty sample: a fresh sample with the given flag, the rounds' particles concatenated in order, and the summed accepted count |
| Multicore.SampleUntilNAccepted | pyabc/sampler/multicore.py:78-121 | the feed is `n` work tokens followed by `min(n, n_procs)` sentinels, one per worker started; each of those workers stops exactly once; exactly `n` results collected; result `i` is round `k` of its producer, one of the `min(n, n_procs)` workers, run with the worker options, where `k` counts that producer's earlier results, so each worker's rounds arrive in order; the recorded evaluation count is their sum; the returned sample is their fold; when every worker round holds exactly one accepted particle the sample has exactly `n` accepted; when every round evaluates at least once the count is at least `n`; only the sampler's evaluation count changes |

## Left out

- `pyabc/petab/amici.py` is not part of this model. It wraps external ODE and parameter-estimation libraries.
- The remote client's `submit`, `done`, `result` and `cancel` are replaced by the environment. A batch's results are computed when it is submitted. A list of `Round`s says which running batches are found done and what `client_cores()` reports in each iteration.
- `Eps.SampleUntilNAccepted` and `Eps.MainLoop` run the endless main loop over that finite list of `Round`s. The outcome is `Unfinished` exactly when `Eps.Run` over the list does not reach `n` sequential accepted results, with the results consumed so far. So termination and liveness of the real loop are not modelled.
- Cancellation is recorded as the list of batches running at exit. The client's handling of it is not modelled.
- The two serialisation branches of `sample_until_n_accepted` are one batch-evaluation method. They evaluate identically and differ only in how the function is shipped.
- Removing from `running_jobs` while iterating over it can leave a finished batch for the next iteration. The model gathers whatever set of batches the environment reports as done, which includes that behaviour.
- The `nan` stand-in for an empty buffer is modelled as the emptiness test.
- `Eps.Scheduler.constructor`, `Eps.MainLoop` and `Eps.SampleUntilNAccepted` require `batchsize >= 1`. The model tells running batches apart by their first job id, and with a batch size of 0 every batch would share the same first id. In the source, a batch size of 0 with `n = 0` stops at the first exit check (pyabc/sampler/eps_mixin.py:81-82). With `n >= 1` no result is ever produced and the loop never ends.
- `Eps.SampleUntilNAccepted` and `Eps.Conclude` record the corrected evaluation count, the last popped id + 1, in `nrEvaluations`. The source stores the last popped id itself (pyabc/sampler/eps_mixin.py:122). Their contracts state both values: the stored count is `NrEvaluationsAsWritten + 1`. The discrepancy is the row under Findings.
- `client_cores()` is read once per loop iteration (`Round.cores`). The source calls it twice, in the guard and in the batch count (pyabc/sampler/eps_mixin.py:91 and 95), and the two calls could disagree.
- `Multicore.SampleUntilNAccepted` requires `n >= 1` and `n_procs >= 1`. With `n = 0`, unpacking the empty list of results fails. With no processes, nothing consumes the queue and the coordinator waits forever.
- `Multicore.RunWorkers` requires `p >= 1` for the same reason.
- Processes, queues, `start`, `join`, fork semantics and the worker-health check are not modelled. The feeder finishes before the workers start, and the coordinator receives after the workers finish. Since both queues are FIFO, the collected sequence is the same as under any overlap of these phases.
- Random seeding, `sample_one` and `simul_eval_one` are opaque functions. `sample_one`'s k-th draw is `sampleOne(k)`, and the k-th single-core round of worker `w` is `singleCore(options, w, k)`.
- The single-core sampler itself is not part of this model. A round returns its sample as transmitted (particles and flag) and its evaluation count.
- `Sample.get_accepted_population` is not modelled. `Population` is not part of this model, and its particle list is `Samples.Sample.AcceptedParticles`.
- Particles are an accepted flag plus summary statistics. Summary statistics and parameters are sequences of integers, standing in for arbitrary values.
- The sorted containers are sequences sorted by job id, and `add` inserts after entries with an equal key. The consumed-results container is appended to, because results arrive there in increasing id order.
- `Samples.Sample.NAccepted`: its own contract states only the bound by the number stored. Its exact value is stated through `Add`, the constructor and `Eps.FinalAssembly`.
- `Samples.Sample.Append`: the contract states the new particle list and flag but not the new accepted count. That count grows by the particle's flag, which follows from `Samples.AcceptedOfSnoc`.

## Findings

| source | as written | input that shows it | evidently intended | confidence | as-written member | corrected member |
|---|---|---|---|---|---|---|
| pyabc/sampler/eps_mixin.py:122 | `nr_evaluations_` is set to the job id of the last popped result. Job ids start at 0, so this is one less than the number of evaluations the population was drawn from. It can be below `n`. | `n = 1` and the result with job id 0 is accepted: the population is complete after 1 evaluation, but `nr_evaluations_` is 0. | The total number of model evaluations (the `Sampler` docstring, pyabc/sampler/base.py:135-138), i.e. last popped id + 1, which is at least `n`. | not executed | Eps.NrEvaluationsAsWritten, Eps.AsWrittenBelowN | Eps.NrEvaluations |
