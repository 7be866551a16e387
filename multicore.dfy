/** The multicore particle-parallel sampler (pyabc/sampler/multicore.py):
    a feeder puts `n` work tokens and one sentinel per worker on a FIFO
    queue; each worker runs one single-core round per work token until it
    takes a sentinel; the coordinator receives exactly `n` results, sums
    their evaluation counts and folds their samples with `+`.

    Queues are sequences. The processes' interleaving is left to the
    verifier: at every step any worker that has not stopped may take the
    head of the feed queue. */
module Multicore {
  import opened Samples

  /** A feed-queue entry: a work token or the stop sentinel. */
  datatype Token = Work | Sentinel

  /** What one single-core round posts on the result queue: its sample
      (particles and record flag, as transmitted) and its evaluation count. */
  datatype RoundOutput = RoundOutput(particles: seq<Particle>, recordAllSumStats: bool, evaluations: nat)

  /** The shape `feed` leaves on the queue: `nJobs` work tokens, then
      `nProc` sentinels. */
  ghost predicate FeedShape(q: seq<Token>, nJobs: nat, nProc: nat)
  {
    && |q| == nJobs + nProc
    && forall i :: 0 <= i < |q| ==> q[i] == if i < nJobs then Work else Sentinel
  }

  /** `feed`: enqueues the work tokens, then the sentinels. */
  method Feed(nJobs: nat, nProc: nat) returns (feedQ: seq<Token>)
    ensures FeedShape(feedQ, nJobs, nProc)
  {
    feedQ := [];
    for k := 0 to nJobs
      invariant |feedQ| == k
      invariant forall i :: 0 <= i < k ==> feedQ[i] == Work
    {
      feedQ := feedQ + [Work];
    }
    for k := 0 to nProc
      invariant |feedQ| == nJobs + k
      invariant forall i :: 0 <= i < nJobs ==> feedQ[i] == Work
      invariant forall i :: nJobs <= i < |feedQ| ==> feedQ[i] == Sentinel
    {
      feedQ := feedQ + [Sentinel];
    }
  }

  /** The number of worker processes: more than `n` would not help, since
      each round of a worker delivers one accepted particle. */
  function NumWorkers(n: nat, nProcs: nat): (r: nat)
    ensures r <= n && r <= nProcs
    ensures r == n || r == nProcs
  {
    Min(n, nProcs)
  }

  /** The options a worker runs its rounds with: a copy asking for a single
      accepted particle, everything else as given. */
  function WorkerOptions(options: SamplerOptions): (r: SamplerOptions)
    ensures r.n == 1
    ensures r.sampleOne == options.sampleOne && r.simulEvalOne == options.simulEvalOne
    ensures r.sampleOptions == options.sampleOptions
  {
    SamplerOptions(1, options.sampleOne, options.simulEvalOne, options.sampleOptions)
  }

  /** The worker numbers 0 .. p-1. */
  function Workers(p: nat): (r: set<nat>)
    ensures forall w: nat :: w in r <==> w < p
    ensures |r| == p
  {
    if p == 0 then {} else Workers(p - 1) + {p - 1}
  }

  /** What the workers have posted so far: `resultQ[i]` is the round that
      `producers[i]` ran after posting `multiset(producers[..i])[producers[i]]`
      earlier results, and `rounds` counts each worker's posts. */
  ghost predicate PostedSoFar(resultQ: seq<RoundOutput>, producers: seq<nat>, rounds: seq<nat>,
                              p: nat, o: SamplerOptions,
                              singleCore: (SamplerOptions, nat, nat) -> RoundOutput)
  {
    && |resultQ| == |producers|
    && (forall i :: 0 <= i < |producers| ==> producers[i] < p)
    && (forall i :: 0 <= i < |producers| ==>
          resultQ[i] == singleCore(o, producers[i], multiset(producers[..i])[producers[i]]))
    && |rounds| == p
    && forall w :: 0 <= w < p ==> rounds[w] == multiset(producers)[w]
  }

  /** Running worker `w`'s next round and posting it keeps the record. */
  lemma PostStep(resultQ: seq<RoundOutput>, producers: seq<nat>, rounds: seq<nat>,
                 p: nat, o: SamplerOptions,
                 singleCore: (SamplerOptions, nat, nat) -> RoundOutput, w: nat)
    requires PostedSoFar(resultQ, producers, rounds, p, o, singleCore) && w < p
    ensures PostedSoFar(resultQ + [singleCore(o, w, rounds[w])], producers + [w],
                        rounds[w := rounds[w] + 1], p, o, singleCore)
  {
    var producers' := producers + [w];
    assert producers'[..|producers|] == producers;
    forall i | 0 <= i < |producers|
      ensures producers'[..i] == producers[..i]
    {
    }
  }

  /** The workers still running and those stopped, in stopping order:
      together they are all workers, and none stopped twice. */
  ghost predicate StoppedSoFar(active: set<nat>, stopped: seq<nat>, p: nat)
  {
    && (forall w :: w in active ==> w < p)
    && (forall w :: w in stopped ==> w < p && w !in active)
    && (forall w: nat :: w < p ==> w in active || w in stopped)
    && (forall j, k :: 0 <= j < k < |stopped| ==> stopped[j] != stopped[k])
    && |active| == p - |stopped|
  }

  /** A running worker that takes a sentinel stops. */
  lemma StopStep(active: set<nat>, stopped: seq<nat>, p: nat, w: nat)
    requires StoppedSoFar(active, stopped, p) && w in active
    ensures StoppedSoFar(active - {w}, stopped + [w], p)
  {
  }

  /** `work`, run by `p` workers at once over the queue `feed` filled. At
      each step some worker that has not yet stopped takes the head of the
      queue: on a sentinel it stops, on a work token it runs its next
      single-core round (`singleCore(o, w, k)` is the k-th round of worker
      `w` with options `o`) and posts the outcome.

      Returns the result queue, the worker that posted each result, and the
      workers in the order they stopped. Whatever the interleaving, exactly
      `nJobs` results are posted and every worker stops exactly once. */
  method RunWorkers(feedQ: seq<Token>, nJobs: nat, p: nat, options: SamplerOptions,
                    singleCore: (SamplerOptions, nat, nat) -> RoundOutput)
    returns (resultQ: seq<RoundOutput>, producers: seq<nat>, stopped: seq<nat>)
    requires FeedShape(feedQ, nJobs, p) && p >= 1
    ensures |resultQ| == nJobs && |producers| == nJobs
    ensures forall i :: 0 <= i < nJobs ==> producers[i] < p
    ensures forall i :: 0 <= i < nJobs ==>
              resultQ[i] == singleCore(WorkerOptions(options), producers[i],
                                       multiset(producers[..i])[producers[i]])
    ensures |stopped| == p
    ensures forall w :: 0 <= w < p ==> w in stopped
    ensures forall j, k :: 0 <= j < k < |stopped| ==> stopped[j] != stopped[k]
  {
    var workerOptions := WorkerOptions(options);
    var active := Workers(p);
    var rounds: seq<nat> := seq(p, _ => 0);
    var queue := feedQ;
    ghost var taken := 0;
    resultQ, producers, stopped := [], [], [];
    while active != {}
      invariant taken <= |feedQ| && queue == feedQ[taken..]
      invariant StoppedSoFar(active, stopped, p)
      invariant PostedSoFar(resultQ, producers, rounds, p, workerOptions, singleCore)
      invariant |stopped| == if taken <= nJobs then 0 else taken - nJobs
      invariant |producers| == if taken <= nJobs then taken else nJobs
      decreases |queue|
    {
      var w: nat :| w in active;
      var arg := queue[0];
      queue := queue[1..];
      taken := taken + 1;
      if arg == Sentinel {
        StopStep(active, stopped, p, w);
        active := active - {w};
        stopped := stopped + [w];
      } else {
        var res := singleCore(workerOptions, w, rounds[w]);
        PostStep(resultQ, producers, rounds, p, workerOptions, singleCore, w);
        resultQ := resultQ + [res];
        producers := producers + [w];
        rounds := rounds[w := rounds[w] + 1];
      }
    }
  }

  /** The coordinator's receive loop: exactly `n` results, taken from the
      head of the result queue. */
  method Collect(resultQ: seq<RoundOutput>, n: nat) returns (collected: seq<RoundOutput>)
    requires n <= |resultQ|
    ensures |collected| == n
    ensures forall i :: 0 <= i < n ==> collected[i] == resultQ[i]
  {
    collected := [];
    var queue := resultQ;
    for k := 0 to n
      invariant |collected| == k && queue == resultQ[k..]
      invariant forall i :: 0 <= i < k ==> collected[i] == resultQ[i]
    {
      var res := queue[0];
      queue := queue[1..];
      collected := collected + [res];
    }
  }

  /** The total number of evaluations of the collected rounds. */
  function SumEvaluations(rs: seq<RoundOutput>): (r: nat)
    ensures forall i :: 0 <= i < |rs| ==> rs[i].evaluations <= r
  {
    if rs == [] then 0 else SumEvaluations(rs[..|rs| - 1]) + rs[|rs| - 1].evaluations
  }

  /** The particles of the collected rounds, concatenated in order. */
  function Flatten(rs: seq<RoundOutput>): (r: seq<Particle>)
    ensures forall i, p :: 0 <= i < |rs| && p in rs[i].particles ==> p in r
  {
    if rs == [] then [] else Flatten(rs[..|rs| - 1]) + rs[|rs| - 1].particles
  }

  /** The sum of the accepted counts of the collected rounds. */
  function SumAccepted(rs: seq<RoundOutput>): nat
  {
    if rs == [] then 0 else SumAccepted(rs[..|rs| - 1]) + CountAccepted(rs[|rs| - 1].particles)
  }

  /** Concatenation keeps each round's accepted particles: the accepted
      count of the fold is the sum of the rounds' accepted counts. */
  lemma {:induction false} FlattenCount(rs: seq<RoundOutput>)
    ensures CountAccepted(Flatten(rs)) == SumAccepted(rs)
  {
    if rs != [] {
      FlattenCount(rs[..|rs| - 1]);
      CountAcceptedConcat(Flatten(rs[..|rs| - 1]), rs[|rs| - 1].particles);
    }
  }

  /** When every round evaluated at least once, there are at least as many
      evaluations as rounds. */
  lemma {:induction false} EvaluationsAtLeastRounds(rs: seq<RoundOutput>)
    requires forall i :: 0 <= i < |rs| ==> rs[i].evaluations >= 1
    ensures SumEvaluations(rs) >= |rs|
  {
    if rs != [] {
      EvaluationsAtLeastRounds(rs[..|rs| - 1]);
    }
  }

  /** When every round delivered exactly one accepted particle, as a worker
      round with `n = 1` does, the fold holds exactly one accepted particle
      per round. */
  lemma OneAcceptedPerRound(rs: seq<RoundOutput>)
    requires forall i :: 0 <= i < |rs| ==> CountAccepted(rs[i].particles) == 1
    ensures CountAccepted(Flatten(rs)) == |rs|
  {
    FlattenCount(rs);
    SumAcceptedOnes(rs);
  }

  lemma {:induction false} SumAcceptedOnes(rs: seq<RoundOutput>)
    requires forall i :: 0 <= i < |rs| ==> CountAccepted(rs[i].particles) == 1
    ensures SumAccepted(rs) == |rs|
  {
    if rs != [] {
      SumAcceptedOnes(rs[..|rs| - 1]);
    }
  }

  /** The fold `sample += result` over the collected rounds, starting from
      an empty sample with the given flag. Each received sample is rebuilt
      from what was transmitted before it is added. */
  method Aggregate(collected: seq<RoundOutput>, record: bool) returns (sample: Sample)
    ensures fresh(sample)
    ensures sample.recordAllSumStats == record
    ensures sample.particles == Flatten(collected)
    ensures sample.NAccepted() == SumAccepted(collected)
  {
    sample := new Sample(record);
    for i := 0 to |collected|
      invariant fresh(sample)
      invariant sample.recordAllSumStats == record
      invariant sample.particles == Flatten(collected[..i])
    {
      var received := new Sample(collected[i].recordAllSumStats);
      received.particles := collected[i].particles;
      assert collected[..i + 1][..i] == collected[..i];
      sample := sample.Add(received);
    }
    assert collected[..|collected|] == collected;
    FlattenCount(collected);
  }

  /** `sample_until_n_accepted` of the multicore sampler: starts
      `min(n, nProcs)` workers over the fed queue, receives `n` results,
      records the summed evaluation count and returns the folded sample
      together with the collected results, the worker that produced each of
      them, the queue the feeder filled and the workers in the order they
      stopped. */
  method SampleUntilNAccepted(sampler: Sampler, nProcs: nat, options: SamplerOptions,
                              singleCore: (SamplerOptions, nat, nat) -> RoundOutput)
    returns (sample: Sample, collected: seq<RoundOutput>, producers: seq<nat>,
             feedQ: seq<Token>, stopped: seq<nat>)
    requires options.n >= 1 && nProcs >= 1
    modifies sampler`nrEvaluations
    ensures fresh(sample)
    ensures FeedShape(feedQ, options.n, NumWorkers(options.n, nProcs))
    ensures |stopped| == NumWorkers(options.n, nProcs)
    ensures forall w :: 0 <= w < NumWorkers(options.n, nProcs) ==> w in stopped
    ensures forall j, k :: 0 <= j < k < |stopped| ==> stopped[j] != stopped[k]
    ensures |collected| == options.n && |producers| == options.n
    ensures forall i :: 0 <= i < options.n ==> producers[i] < NumWorkers(options.n, nProcs)
    ensures forall i :: 0 <= i < options.n ==>
              collected[i] == singleCore(WorkerOptions(options), producers[i],
                                         multiset(producers[..i])[producers[i]])
    ensures sampler.nrEvaluations == SumEvaluations(collected)
    ensures sample.recordAllSumStats == options.sampleOptions
    ensures sample.particles == Flatten(collected)
    ensures sample.NAccepted() == SumAccepted(collected)
    ensures (forall w, k :: CountAccepted(singleCore(WorkerOptions(options), w, k).particles) == 1)
              ==> sample.NAccepted() == options.n
    ensures (forall w, k :: singleCore(WorkerOptions(options), w, k).evaluations >= 1)
              ==> sampler.nrEvaluations >= options.n
  {
    var p := NumWorkers(options.n, nProcs);
    feedQ := Feed(options.n, p);
    var resultQ;
    resultQ, producers, stopped := RunWorkers(feedQ, options.n, p, options, singleCore);
    collected := Collect(resultQ, options.n);
    assert collected == resultQ;
    sampler.nrEvaluations := SumEvaluations(collected);
    sample := Aggregate(collected, options.sampleOptions);
    if forall w, k :: CountAccepted(singleCore(WorkerOptions(options), w, k).particles) == 1 {
      OneAcceptedPerRound(collected);
    }
    if forall w, k :: singleCore(WorkerOptions(options), w, k).evaluations >= 1 {
      EvaluationsAtLeastRounds(collected);
    }
  }
}
