/** The remote batched sampler (pyabc/sampler/eps_mixin.py): batches of
    evaluations are submitted to a remote client under job ids, finish in any
    order, are buffered by job id and consumed strictly in job-id order; the
    population is then assembled from the consumed results.

    The remote client is an environment: a running batch already holds the
    results the remote evaluation will return, and each loop iteration the
    environment says which running batches are found finished (`Round`). */
module Eps {
  import opened Samples

  /** `(result, accepted, job id)`: one evaluated draw, as returned by a batch
      and as buffered while waiting for its turn. */
  datatype Evaluated = Evaluated(result: Particle, accepted: bool, jobId: nat)

  /** `(job id, result)`: a result consumed in job-id order. */
  datatype Consumed = Consumed(jobId: nat, result: Particle)

  /** A submitted batch: its handle (the first job id it was given) and the
      results its remote evaluation returns. */
  datatype Batch = Batch(firstId: nat, results: seq<Evaluated>)

  /** What the environment decides in one loop iteration: the handles of the
      running batches that are gathered as done, and the worker capacity
      reported by the client. */
  datatype Round = Round(finished: set<nat>, cores: nat)

  /** Sampler configuration: evaluations per batch and the ceiling on
      concurrently running batches. */
  datatype EpsConfig = EpsConfig(batchsize: nat, clientMaxJobs: nat)

  /** End of a round: the population with the consumed results it was taken
      from and the batches cancelled at loop exit, or no end within the
      environment's schedule, with the results consumed by then. */
  datatype Outcome =
    | Finished(sample: Sample, consumed: seq<Consumed>, popped: nat, cancelled: seq<Batch>)
    | Unfinished(consumed: seq<Consumed>)

  // ---------------------------------------------------------------------
  // Batch evaluation

  /** The remote task: evaluates the first `batchsize` parameters and tags
      each result with its accept flag and job id, in input order. */
  method EvaluateBatch(simulEvalOne: Parameter -> Particle, batchsize: nat,
                       params: seq<Parameter>, jobIds: seq<nat>)
    returns (batch: seq<Evaluated>)
    requires batchsize <= |params| && batchsize <= |jobIds|
    ensures |batch| == batchsize
    ensures forall j :: 0 <= j < batchsize ==>
              && batch[j].result == simulEvalOne(params[j])
              && batch[j].accepted == batch[j].result.accepted
              && batch[j].jobId == jobIds[j]
  {
    batch := [];
    for j := 0 to batchsize
      invariant |batch| == j
      invariant forall k :: 0 <= k < j ==>
                  && batch[k].result == simulEvalOne(params[k])
                  && batch[k].accepted == batch[k].result.accepted
                  && batch[k].jobId == jobIds[k]
    {
      var evalResult := simulEvalOne(params[j]);
      var evalAccept := evalResult.accepted;
      batch := batch + [Evaluated(evalResult, evalAccept, jobIds[j])];
    }
  }

  /** `b` is the batch submitted at job id `first`: draw `first + j` is
      evaluated under job id `first + j`. */
  ghost predicate IsIssuedBatch(b: Batch, options: SamplerOptions, batchsize: nat, first: nat)
  {
    && b.firstId == first
    && |b.results| == batchsize
    && forall j :: 0 <= j < batchsize ==>
         && b.results[j].result == options.simulEvalOne(options.sampleOne(first + j))
         && b.results[j].accepted == b.results[j].result.accepted
         && b.results[j].jobId == first + j
  }

  /** `bs` are the batches submitted one after the other from id `first`. */
  ghost predicate AreIssuedBatches(bs: seq<Batch>, options: SamplerOptions, batchsize: nat, first: nat)
  {
    forall t :: 0 <= t < |bs| ==> IsIssuedBatch(bs[t], options, batchsize, first + t * batchsize)
  }

  /** The batch submitted at job id `first`: draw `first + j` evaluated under
      job id `first + j`. */
  function IssuedBatch(options: SamplerOptions, batchsize: nat, first: nat): (b: Batch)
    ensures IsIssuedBatch(b, options, batchsize, first)
  {
    Batch(first, seq(batchsize, j requires 0 <= j < batchsize =>
                   Evaluated(options.simulEvalOne(options.sampleOne(first + j)),
                             options.simulEvalOne(options.sampleOne(first + j)).accepted,
                             first + j)))
  }

  /** The `k` batches submitted one after the other from id `first`. */
  function IssuedBatches(options: SamplerOptions, batchsize: nat, k: nat, first: nat): (bs: seq<Batch>)
    ensures |bs| == k && AreIssuedBatches(bs, options, batchsize, first)
  {
    seq(k, t requires 0 <= t < k => IssuedBatch(options, batchsize, first + t * batchsize))
  }

  /** A submitted batch is determined by its first id: the draws and their
      evaluations follow from the options. */
  lemma IssuedBatchUnique(b: Batch, options: SamplerOptions, batchsize: nat, first: nat)
    requires IsIssuedBatch(b, options, batchsize, first)
    ensures b == IssuedBatch(options, batchsize, first)
  {
    var c := IssuedBatch(options, batchsize, first);
    assert b.results == c.results by {
      forall j | 0 <= j < batchsize
        ensures b.results[j] == c.results[j]
      {
      }
    }
  }

  /** Batches issued from `first` are exactly `IssuedBatches`. */
  lemma IssuedBatchesUnique(bs: seq<Batch>, options: SamplerOptions, batchsize: nat, first: nat)
    requires AreIssuedBatches(bs, options, batchsize, first)
    ensures bs == IssuedBatches(options, batchsize, |bs|, first)
  {
    var cs := IssuedBatches(options, batchsize, |bs|, first);
    forall t | 0 <= t < |bs|
      ensures bs[t] == cs[t]
    {
      IssuedBatchUnique(bs[t], options, batchsize, first + t * batchsize);
    }
  }

  // ---------------------------------------------------------------------
  // Counting accepted results

  /** Number of buffered results whose accept flag is set. */
  function FlagCount(s: seq<Evaluated>): nat
  {
    if s == [] then 0
    else FlagCount(s[..|s| - 1]) + (if s[|s| - 1].accepted then 1 else 0)
  }

  /** Number of consumed results that are accepted. */
  function ConsumedAccepted(s: seq<Consumed>): nat
  {
    if s == [] then 0
    else ConsumedAccepted(s[..|s| - 1]) + (if s[|s| - 1].result.accepted then 1 else 0)
  }

  lemma {:induction false} FlagCountConcat(a: seq<Evaluated>, b: seq<Evaluated>)
    ensures FlagCount(a + b) == FlagCount(a) + FlagCount(b)
  {
    if b != [] {
      assert (a + b)[..|a + b| - 1] == a + b[..|b| - 1];
      FlagCountConcat(a, b[..|b| - 1]);
    } else {
      assert a + b == a;
    }
  }

  /** Popping the head of the buffer removes exactly its flag from the count. */
  lemma FlagCountHead(s: seq<Evaluated>)
    requires s != []
    ensures FlagCount(s) == (if s[0].accepted then 1 else 0) + FlagCount(s[1..])
  {
    assert s == [s[0]] + s[1..];
    FlagCountConcat([s[0]], s[1..]);
    assert [s[0]][..0] == [];
  }

  /** The sequential accepted count never exceeds the number of results
      consumed, and equals it exactly when every consumed result is
      accepted. */
  lemma {:induction false} ConsumedAcceptedBound(s: seq<Consumed>)
    ensures ConsumedAccepted(s) <= |s|
    ensures ConsumedAccepted(s) == |s| <==> forall i :: 0 <= i < |s| ==> s[i].result.accepted
  {
    if s != [] {
      var init := s[..|s| - 1];
      ConsumedAcceptedBound(init);
      assert forall i :: 0 <= i < |init| ==> init[i] == s[i];
    }
  }

  // ---------------------------------------------------------------------
  // The sorted buffer (a list kept sorted by job id)

  ghost predicate StrictlySorted(s: seq<Evaluated>)
  {
    forall i, j :: 0 <= i < j < |s| ==> s[i].jobId < s[j].jobId
  }

  /** Where `add` puts a new entry: after every entry whose id is at most
      `key` (the leading run of such entries). */
  function BisectRight(s: seq<Evaluated>, key: nat): (k: nat)
    ensures k <= |s|
    ensures forall i :: 0 <= i < k ==> s[i].jobId <= key
    ensures k < |s| ==> key < s[k].jobId
  {
    if s == [] || key < s[0].jobId then 0 else 1 + BisectRight(s[1..], key)
  }

  /** Adds `e` to the buffer at its place by job id. */
  function Insert(s: seq<Evaluated>, e: Evaluated): (r: seq<Evaluated>)
    ensures |r| == |s| + 1
    ensures multiset(r) == multiset(s) + multiset{e}
  {
    var k := BisectRight(s, e.jobId);
    assert s == s[..k] + s[k..];
    s[..k] + [e] + s[k..]
  }

  /** Inserting an entry whose id is not yet buffered keeps the buffer
      strictly sorted. */
  lemma InsertSorted(s: seq<Evaluated>, e: Evaluated)
    requires StrictlySorted(s)
    requires forall i :: 0 <= i < |s| ==> s[i].jobId != e.jobId
    ensures StrictlySorted(Insert(s, e))
  {
    var k := BisectRight(s, e.jobId);
    var r := s[..k] + [e] + s[k..];
    assert |r| == |s| + 1;
    assert forall i :: 0 <= i < k ==> r[i] == s[i];
    assert r[k] == e;
    assert forall i :: k < i < |r| ==> r[i] == s[i - 1];
    forall i, j | 0 <= i < j < |r| ensures r[i].jobId < r[j].jobId {
      if j <= k {
      } else if i <= k {
        assert r[j] == s[j - 1];
      } else {
        assert r[i] == s[i - 1] && r[j] == s[j - 1];
      }
    }
  }

  /** Inserting an entry adds exactly that entry's flag to the count. */
  lemma InsertCount(s: seq<Evaluated>, e: Evaluated)
    ensures FlagCount(Insert(s, e)) == FlagCount(s) + (if e.accepted then 1 else 0)
  {
    var k := BisectRight(s, e.jobId);
    FlagCountConcat(s[..k] + [e], s[k..]);
    FlagCountConcat(s[..k], [e]);
    FlagCountConcat(s[..k], s[k..]);
    assert s[..k] + s[k..] == s;
    assert [e][..0] == [];
  }

  /** The inserted buffer holds the old entries and the new one, no others. */
  lemma InsertMembers(s: seq<Evaluated>, e: Evaluated)
    ensures forall x :: x in Insert(s, e) <==> x in s || x == e
  {
    var k := BisectRight(s, e.jobId);
    assert s == s[..k] + s[k..];
  }

  /** The buffer after adding `es` one after the other. */
  function InsertAll(s: seq<Evaluated>, es: seq<Evaluated>): seq<Evaluated>
  {
    if es == [] then s else Insert(InsertAll(s, es[..|es| - 1]), es[|es| - 1])
  }

  // ---------------------------------------------------------------------
  // Gathering

  /** The results of the finished batches of `rs`, batch after batch. */
  function Gathered(rs: seq<Batch>, finished: set<nat>): seq<Evaluated>
  {
    if rs == [] then []
    else Gathered(rs[..|rs| - 1], finished)
         + (if rs[|rs| - 1].firstId in finished then rs[|rs| - 1].results else [])
  }

  /** The batches of `rs` still running after gathering. */
  function StillRunning(rs: seq<Batch>, finished: set<nat>): seq<Batch>
  {
    if rs == [] then []
    else StillRunning(rs[..|rs| - 1], finished)
         + (if rs[|rs| - 1].firstId in finished then [] else [rs[|rs| - 1]])
  }

  lemma GatheredStep(rs: seq<Batch>, i: nat, finished: set<nat>)
    requires i < |rs|
    ensures Gathered(rs[..i + 1], finished)
         == Gathered(rs[..i], finished) + (if rs[i].firstId in finished then rs[i].results else [])
    ensures StillRunning(rs[..i + 1], finished)
         == StillRunning(rs[..i], finished) + (if rs[i].firstId in finished then [] else [rs[i]])
  {
    assert rs[..i + 1][..i] == rs[..i];
  }

  /** One more entry of `es` inserted and counted. */
  lemma PrefixStep(s: seq<Evaluated>, es: seq<Evaluated>, j: nat)
    requires j < |es|
    ensures InsertAll(s, es[..j + 1]) == Insert(InsertAll(s, es[..j]), es[j])
    ensures FlagCount(es[..j + 1]) == FlagCount(es[..j]) + (if es[j].accepted then 1 else 0)
  {
    assert es[..j + 1][..j] == es[..j];
  }

  /** Inserting `a + b` is inserting `a`, then `b`. */
  lemma {:induction false} InsertAllConcat(s: seq<Evaluated>, a: seq<Evaluated>, b: seq<Evaluated>)
    ensures InsertAll(s, a + b) == InsertAll(InsertAll(s, a), b)
  {
    if b == [] {
      assert a + b == a;
    } else {
      assert (a + b)[..|a + b| - 1] == a + b[..|b| - 1];
      InsertAllConcat(s, a, b[..|b| - 1]);
    }
  }

  // ---------------------------------------------------------------------
  // Admission control

  /** How many batches one iteration submits: none unless fewer batches run
      than both limits allow and fewer than `n` accepted results have been
      gathered; otherwise enough to reach the smaller limit. */
  function BatchesToSubmit(running: nat, clientMaxJobs: nat, cores: nat,
                           acceptedTotal: nat, n: nat): (k: nat)
    ensures k > 0 <==> running < clientMaxJobs && running < cores && acceptedTotal < n
    ensures k > 0 ==> running + k == Min(clientMaxJobs, cores)
    ensures running + k <= if running < Min(clientMaxJobs, cores) then Min(clientMaxJobs, cores) else running
  {
    if running < clientMaxJobs && running < cores && acceptedTotal < n
    then Min(clientMaxJobs, cores) - running
    else 0
  }

  // ---------------------------------------------------------------------
  // Scheduler state

  predicate InBatch(id: int, b: Batch, batchsize: nat)
  {
    b.firstId <= id < b.firstId + batchsize
  }

  ghost predicate WellFormedBatch(b: Batch, batchsize: nat)
  {
    && |b.results| == batchsize
    && forall j :: 0 <= j < batchsize ==>
         b.results[j].jobId == b.firstId + j && b.results[j].accepted == b.results[j].result.accepted
  }

  /** Running batches: well formed, above the consumed ids, below the next id
      to issue, and in increasing order of disjoint id ranges. */
  ghost predicate RunningValid(rs: seq<Batch>, batchsize: nat, lo: int, hi: nat)
  {
    && (forall k :: 0 <= k < |rs| ==>
          WellFormedBatch(rs[k], batchsize) && lo < rs[k].firstId && rs[k].firstId + batchsize <= hi)
    && (forall i, j :: 0 <= i < j < |rs| ==> rs[i].firstId + batchsize <= rs[j].firstId)
  }

  /** Buffered results: sorted by id, strictly between the consumed ids and
      the next id to issue, flags matching results. */
  ghost predicate BufferValid(buf: seq<Evaluated>, lo: int, hi: nat)
  {
    && StrictlySorted(buf)
    && forall i :: 0 <= i < |buf| ==>
         lo < buf[i].jobId < hi && buf[i].accepted == buf[i].result.accepted
  }

  /** No buffered id lies in the range of a running batch from `rs[from]` on. */
  ghost predicate Disjoint(buf: seq<Evaluated>, rs: seq<Batch>, from: nat, batchsize: nat)
  {
    forall i, k :: 0 <= i < |buf| && from <= k < |rs| ==> !InBatch(buf[i].jobId, rs[k], batchsize)
  }

  /** Consumed results: exactly the ids `0 .. nextValidIndex`, in order. */
  ghost predicate NoGaps(all: seq<Consumed>, nextValidIndex: int)
  {
    && |all| == nextValidIndex + 1
    && forall i :: 0 <= i < |all| ==> all[i].jobId == i
  }

  /** The consumed form `(job id, result)` of buffered results. */
  function ConsumedOf(s: seq<Evaluated>): (r: seq<Consumed>)
    ensures |r| == |s|
    ensures forall i :: 0 <= i < |s| ==> r[i] == Consumed(s[i].jobId, s[i].result)
  {
    if s == [] then [] else ConsumedOf(s[..|s| - 1]) + [Consumed(s[|s| - 1].jobId, s[|s| - 1].result)]
  }

  lemma {:induction false} ConsumedOfConcat(a: seq<Evaluated>, b: seq<Evaluated>)
    ensures ConsumedOf(a + b) == ConsumedOf(a) + ConsumedOf(b)
  {
    assert |ConsumedOf(a + b)| == |ConsumedOf(a) + ConsumedOf(b)|;
    forall i | 0 <= i < |a + b|
      ensures ConsumedOf(a + b)[i] == (ConsumedOf(a) + ConsumedOf(b))[i]
    {
      if i >= |a| {
        assert (a + b)[i] == b[i - |a|];
      }
    }
  }

  /** The invariant of the main loop's state: consumed ids have no gaps,
      buffered and running ids lie above them and below the next id to issue
      and do not overlap, and the two accepted counters count the consumed
      results and the consumed plus buffered results. */
  ghost predicate Inv(batchsize: nat, nextValidIndex: int, nextJobId: nat,
                      all: seq<Consumed>, buf: seq<Evaluated>, running: seq<Batch>,
                      acceptedSequential: nat, acceptedTotal: nat)
  {
    && batchsize >= 1
    && nextValidIndex + 1 <= nextJobId
    && NoGaps(all, nextValidIndex)
    && BufferValid(buf, nextValidIndex, nextJobId)
    && RunningValid(running, batchsize, nextValidIndex, nextJobId)
    && Disjoint(buf, running, 0, batchsize)
    && acceptedSequential == ConsumedAccepted(all)
    && acceptedTotal == acceptedSequential + FlagCount(buf)
  }

  /** Every consumed accepted result was counted when it was gathered. */
  lemma SequentialAtMostTotal(batchsize: nat, nextValidIndex: int, nextJobId: nat,
                              all: seq<Consumed>, buf: seq<Evaluated>, running: seq<Batch>,
                              acceptedSequential: nat, acceptedTotal: nat)
    requires Inv(batchsize, nextValidIndex, nextJobId, all, buf, running, acceptedSequential, acceptedTotal)
    ensures acceptedSequential <= acceptedTotal
    ensures acceptedSequential <= nextValidIndex + 1
  {
    ConsumedAcceptedBound(all);
  }

  /** Consuming the head of the buffer when it is the next id in order keeps
      the invariant. */
  lemma DrainStep(batchsize: nat, nextValidIndex: int, nextJobId: nat,
                  all: seq<Consumed>, buf: seq<Evaluated>, running: seq<Batch>,
                  acceptedSequential: nat, acceptedTotal: nat)
    requires Inv(batchsize, nextValidIndex, nextJobId, all, buf, running, acceptedSequential, acceptedTotal)
    requires buf != [] && buf[0].jobId == nextValidIndex + 1
    ensures Inv(batchsize, nextValidIndex + 1, nextJobId,
                all + [Consumed(buf[0].jobId, buf[0].result)], buf[1..], running,
                acceptedSequential + (if buf[0].accepted then 1 else 0), acceptedTotal)
  {
    var e := buf[0];
    var all' := all + [Consumed(e.jobId, e.result)];
    assert NoGaps(all', nextValidIndex + 1);
    assert BufferValid(buf[1..], nextValidIndex + 1, nextJobId);
    forall k | 0 <= k < |running|
      ensures nextValidIndex + 1 < running[k].firstId
    {
      assert !InBatch(buf[0].jobId, running[k], batchsize);
    }
    assert RunningValid(running, batchsize, nextValidIndex + 1, nextJobId);
    assert Disjoint(buf[1..], running, 0, batchsize);
    ConsumedAcceptedSnoc(all, Consumed(e.jobId, e.result));
    FlagCountHead(buf);
  }

  /** The part of the invariant that submitting batches changes: the buffer
      and the running batches lie between the consumed ids and the next id to
      issue, and no buffered id lies in a running batch. */
  ghost predicate Admissible(batchsize: nat, lo: int, hi: nat, buf: seq<Evaluated>, running: seq<Batch>)
  {
    && lo < hi
    && BufferValid(buf, lo, hi)
    && RunningValid(running, batchsize, lo, hi)
    && Disjoint(buf, running, 0, batchsize)
  }

  /** Submitting a well-formed batch at the next id keeps the buffer and the
      running batches admissible, with the next id advanced by `batchsize`. */
  lemma AdmitStep(batchsize: nat, lo: int, hi: nat, buf: seq<Evaluated>, running: seq<Batch>, b: Batch)
    requires Admissible(batchsize, lo, hi, buf, running)
    requires WellFormedBatch(b, batchsize) && b.firstId == hi
    ensures Admissible(batchsize, lo, hi + batchsize, buf, running + [b])
  {
    var rs := running + [b];
    assert forall k :: 0 <= k < |running| ==> rs[k] == running[k];
    assert rs[|running|] == b;
    assert RunningValid(rs, batchsize, lo, hi + batchsize);
    assert Disjoint(buf, rs, 0, batchsize);
  }

  /** The gathering loop's invariant after visiting `rs[..i]` and keeping
      `kept`. */
  ghost predicate GatherInv(batchsize: nat, lo: int, hi: nat, buf: seq<Evaluated>,
                            rs: seq<Batch>, i: nat, kept: seq<Batch>)
  {
    && i <= |rs|
    && RunningValid(rs, batchsize, lo, hi)
    && BufferValid(buf, lo, hi)
    && Disjoint(buf, rs, i, batchsize)
    && Disjoint(buf, kept, 0, batchsize)
    && RunningValid(kept, batchsize, lo, hi)
    && forall a, k :: 0 <= a < |kept| && i <= k < |rs| ==> kept[a].firstId + batchsize <= rs[k].firstId
  }

  /** The inner loop's invariant while the results of `rs[i]` are added:
      the first `j` of them are buffered, the others not. */
  ghost predicate InsertInv(batchsize: nat, lo: int, hi: nat, buf: seq<Evaluated>,
                            rs: seq<Batch>, i: nat, kept: seq<Batch>, j: nat)
  {
    && i < |rs|
    && RunningValid(rs, batchsize, lo, hi)
    && BufferValid(buf, lo, hi)
    && Disjoint(buf, rs, i + 1, batchsize)
    && Disjoint(buf, kept, 0, batchsize)
    && RunningValid(kept, batchsize, lo, hi)
    && (forall a, k :: 0 <= a < |kept| && i <= k < |rs| ==> kept[a].firstId + batchsize <= rs[k].firstId)
    && forall u :: 0 <= u < |buf| && InBatch(buf[u].jobId, rs[i], batchsize) ==>
         buf[u].jobId < rs[i].firstId + j
  }

  lemma GatherKeep(batchsize: nat, lo: int, hi: nat, buf: seq<Evaluated>,
                   rs: seq<Batch>, i: nat, kept: seq<Batch>)
    requires GatherInv(batchsize, lo, hi, buf, rs, i, kept) && i < |rs|
    ensures GatherInv(batchsize, lo, hi, buf, rs, i + 1, kept + [rs[i]])
  {
    var kept' := kept + [rs[i]];
    assert forall a :: 0 <= a < |kept| ==> kept'[a] == kept[a];
    assert kept'[|kept|] == rs[i];
    assert forall u :: 0 <= u < |buf| ==> !InBatch(buf[u].jobId, rs[i], batchsize);
    assert Disjoint(buf, kept', 0, batchsize);
    assert RunningValid(kept', batchsize, lo, hi);
  }

  lemma GatherEnter(batchsize: nat, lo: int, hi: nat, buf: seq<Evaluated>,
                    rs: seq<Batch>, i: nat, kept: seq<Batch>)
    requires GatherInv(batchsize, lo, hi, buf, rs, i, kept) && i < |rs|
    ensures InsertInv(batchsize, lo, hi, buf, rs, i, kept, 0)
  {
    assert forall u :: 0 <= u < |buf| ==> !InBatch(buf[u].jobId, rs[i], batchsize);
  }

  lemma GatherInsert(batchsize: nat, lo: int, hi: nat, buf: seq<Evaluated>,
                     rs: seq<Batch>, i: nat, kept: seq<Batch>, j: nat)
    requires InsertInv(batchsize, lo, hi, buf, rs, i, kept, j) && j < batchsize
    ensures InsertInv(batchsize, lo, hi, Insert(buf, rs[i].results[j]), rs, i, kept, j + 1)
  {
    var b := rs[i];
    var e := b.results[j];
    assert WellFormedBatch(b, batchsize);
    assert e.jobId == b.firstId + j;
    assert forall u :: 0 <= u < |buf| ==> buf[u].jobId != e.jobId;
    InsertSorted(buf, e);
    InsertMembers(buf, e);
    var buf' := Insert(buf, e);
    forall u | 0 <= u < |buf'|
      ensures lo < buf'[u].jobId < hi && buf'[u].accepted == buf'[u].result.accepted
      ensures forall k :: i + 1 <= k < |rs| ==> !InBatch(buf'[u].jobId, rs[k], batchsize)
      ensures forall a :: 0 <= a < |kept| ==> !InBatch(buf'[u].jobId, kept[a], batchsize)
      ensures InBatch(buf'[u].jobId, b, batchsize) ==> buf'[u].jobId < b.firstId + j + 1
    {
      assert buf'[u] in buf';
      if buf'[u] != e {
        var v :| 0 <= v < |buf| && buf[v] == buf'[u];
      } else {
        forall k | i + 1 <= k < |rs|
          ensures !InBatch(e.jobId, rs[k], batchsize)
        {
          assert rs[i].firstId + batchsize <= rs[k].firstId;
        }
        forall a | 0 <= a < |kept|
          ensures !InBatch(e.jobId, kept[a], batchsize)
        {
          assert kept[a].firstId + batchsize <= rs[i].firstId;
        }
      }
    }
  }

  lemma GatherLeave(batchsize: nat, lo: int, hi: nat, buf: seq<Evaluated>,
                    rs: seq<Batch>, i: nat, kept: seq<Batch>)
    requires InsertInv(batchsize, lo, hi, buf, rs, i, kept, batchsize)
    ensures GatherInv(batchsize, lo, hi, buf, rs, i + 1, kept)
  {
  }

  /** Adding the results of `rs[i]` one by one keeps the inner invariant. */
  lemma {:induction false} BatchInserted(batchsize: nat, lo: int, hi: nat, buf: seq<Evaluated>,
                                         rs: seq<Batch>, i: nat, kept: seq<Batch>, j: nat)
    requires InsertInv(batchsize, lo, hi, buf, rs, i, kept, 0) && j <= batchsize
    ensures |rs[i].results| == batchsize
    ensures InsertInv(batchsize, lo, hi, InsertAll(buf, rs[i].results[..j]), rs, i, kept, j)
  {
    assert WellFormedBatch(rs[i], batchsize);
    if j == 0 {
      assert rs[i].results[..0] == [];
    } else {
      BatchInserted(batchsize, lo, hi, buf, rs, i, kept, j - 1);
      PrefixStep(buf, rs[i].results, j - 1);
      GatherInsert(batchsize, lo, hi, InsertAll(buf, rs[i].results[..j - 1]), rs, i, kept, j - 1);
    }
  }

  /** Buffering all results of a finished batch keeps the gathering
      invariant, with that batch no longer running. */
  lemma GatherFinished(batchsize: nat, lo: int, hi: nat, buf: seq<Evaluated>,
                       rs: seq<Batch>, i: nat, kept: seq<Batch>)
    requires GatherInv(batchsize, lo, hi, buf, rs, i, kept) && i < |rs|
    ensures GatherInv(batchsize, lo, hi, InsertAll(buf, rs[i].results), rs, i + 1, kept)
  {
    GatherEnter(batchsize, lo, hi, buf, rs, i, kept);
    BatchInserted(batchsize, lo, hi, buf, rs, i, kept, batchsize);
    assert rs[i].results[..batchsize] == rs[i].results;
    GatherLeave(batchsize, lo, hi, InsertAll(buf, rs[i].results), rs, i, kept);
  }

  /** Visiting one more batch keeps the gathering invariant of the gathered
      buffer and the kept batches. */
  lemma GatherVisit(batchsize: nat, lo: int, hi: nat, buf0: seq<Evaluated>,
                    rs: seq<Batch>, finished: set<nat>, i: nat)
    requires i < |rs|
    requires GatherInv(batchsize, lo, hi, InsertAll(buf0, Gathered(rs[..i], finished)), rs, i,
                       StillRunning(rs[..i], finished))
    ensures GatherInv(batchsize, lo, hi, InsertAll(buf0, Gathered(rs[..i + 1], finished)), rs, i + 1,
                      StillRunning(rs[..i + 1], finished))
  {
    GatheredStep(rs, i, finished);
    var gathered := Gathered(rs[..i], finished);
    var buf := InsertAll(buf0, gathered);
    var kept := StillRunning(rs[..i], finished);
    var buf' := InsertAll(buf0, Gathered(rs[..i + 1], finished));
    var kept' := StillRunning(rs[..i + 1], finished);
    if rs[i].firstId in finished {
      GatherFinished(batchsize, lo, hi, buf, rs, i, kept);
      InsertAllConcat(buf0, gathered, rs[i].results);
      assert buf' == InsertAll(buf, rs[i].results);
      assert kept' == kept;
    } else {
      GatherKeep(batchsize, lo, hi, buf, rs, i, kept);
      assert gathered + [] == gathered;
      assert buf' == buf;
      assert kept' == kept + [rs[i]];
    }
  }

  /** After visiting `rs[..i]`, the gathered buffer and the kept batches
      satisfy the gathering invariant. */
  lemma {:induction false} GatherPrefix(batchsize: nat, lo: int, hi: nat, buf0: seq<Evaluated>,
                                        rs: seq<Batch>, finished: set<nat>, i: nat)
    requires i <= |rs|
    requires RunningValid(rs, batchsize, lo, hi) && BufferValid(buf0, lo, hi)
    requires Disjoint(buf0, rs, 0, batchsize)
    ensures GatherInv(batchsize, lo, hi, InsertAll(buf0, Gathered(rs[..i], finished)), rs, i,
                      StillRunning(rs[..i], finished))
  {
    if i == 0 {
      assert rs[..0] == [];
    } else {
      GatherPrefix(batchsize, lo, hi, buf0, rs, finished, i - 1);
      GatherVisit(batchsize, lo, hi, buf0, rs, finished, i - 1);
    }
  }

  /** Inserting entries adds their flags to the count. */
  lemma {:induction false} InsertAllCount(s: seq<Evaluated>, es: seq<Evaluated>)
    ensures FlagCount(InsertAll(s, es)) == FlagCount(s) + FlagCount(es)
  {
    if es != [] {
      InsertAllCount(s, es[..|es| - 1]);
      InsertCount(InsertAll(s, es[..|es| - 1]), es[|es| - 1]);
    }
  }

  /** Gathering keeps the invariant of the main loop's state. */
  lemma GatherPreservesInv(batchsize: nat, nextValidIndex: int, nextJobId: nat,
                           all: seq<Consumed>, buf: seq<Evaluated>, running: seq<Batch>,
                           acceptedSequential: nat, acceptedTotal: nat, finished: set<nat>)
    requires Inv(batchsize, nextValidIndex, nextJobId, all, buf, running, acceptedSequential, acceptedTotal)
    ensures Inv(batchsize, nextValidIndex, nextJobId, all,
                InsertAll(buf, Gathered(running, finished)), StillRunning(running, finished),
                acceptedSequential, acceptedTotal + FlagCount(Gathered(running, finished)))
  {
    GatherPrefix(batchsize, nextValidIndex, nextJobId, buf, running, finished, |running|);
    assert running[..|running|] == running;
    InsertAllCount(buf, Gathered(running, finished));
  }

  /** The inner loop of gathering: every result of a finished batch goes
      into the sorted buffer, and each accepted one is counted. */
  method BufferBatch(buf: seq<Evaluated>, total: nat, batch: seq<Evaluated>)
    returns (buf': seq<Evaluated>, total': nat)
    ensures buf' == InsertAll(buf, batch)
    ensures total' == total + FlagCount(batch)
  {
    buf', total' := buf, total;
    for j := 0 to |batch|
      invariant buf' == InsertAll(buf, batch[..j])
      invariant total' == total + FlagCount(batch[..j])
    {
      var remoteEvaluated := batch[j];
      PrefixStep(buf, batch, j);
      buf' := Insert(buf', remoteEvaluated);
      if remoteEvaluated.accepted {
        total' := total' + 1;
      }
    }
    assert batch[..|batch|] == batch;
  }

  /** The gathering loop over the running batches: a finished batch is
      dropped from the running ones and its results are buffered and
      counted; an unfinished one stays running. */
  method GatherRunning(jobs: seq<Batch>, finished: set<nat>, buf0: seq<Evaluated>, total0: nat)
    returns (kept: seq<Batch>, buf: seq<Evaluated>, total: nat)
    ensures kept == StillRunning(jobs, finished)
    ensures buf == InsertAll(buf0, Gathered(jobs, finished))
    ensures total == total0 + FlagCount(Gathered(jobs, finished))
  {
    kept, buf, total := [], buf0, total0;
    for i := 0 to |jobs|
      invariant kept == StillRunning(jobs[..i], finished)
      invariant buf == InsertAll(buf0, Gathered(jobs[..i], finished))
      invariant total == total0 + FlagCount(Gathered(jobs[..i], finished))
    {
      var curJob := jobs[i];
      GatheredStep(jobs, i, finished);
      if curJob.firstId in finished {
        var remoteBatch := curJob.results;
        buf, total := BufferBatch(buf, total, remoteBatch);
        InsertAllConcat(buf0, Gathered(jobs[..i], finished), remoteBatch);
        FlagCountConcat(Gathered(jobs[..i], finished), remoteBatch);
      } else {
        assert Gathered(jobs[..i], finished) + [] == Gathered(jobs[..i], finished);
        kept := kept + [curJob];
      }
    }
    assert jobs[..|jobs|] == jobs;
  }

  /** The state the sequential drain works on. */
  datatype DrainState = DrainState(index: int, all: seq<Consumed>, buf: seq<Evaluated>, sequential: nat)

  /** Sequential consumption as a function: while the head of the buffer is
      the next id in order, move it to the consumed results. */
  function Drained(s: DrainState): (r: DrainState)
    ensures r.buf == [] || r.buf[0].jobId != r.index + 1
    ensures |s.all| <= |r.all| && r.all[..|s.all|] == s.all
    ensures |r.all| + |r.buf| == |s.all| + |s.buf|
    ensures r.index == s.index + (|r.all| - |s.all|)
    decreases |s.buf|
  {
    if s.buf != [] && s.buf[0].jobId == s.index + 1 then Drained(DrainNext(s)) else s
  }

  /** Draining keeps the invariant, and leaves a buffer whose smallest id is
      beyond the next id in order. */
  lemma {:induction false} DrainedInv(batchsize: nat, nextJobId: nat, running: seq<Batch>,
                                      acceptedTotal: nat, s: DrainState)
    requires Inv(batchsize, s.index, nextJobId, s.all, s.buf, running, s.sequential, acceptedTotal)
    ensures var d := Drained(s);
            && Inv(batchsize, d.index, nextJobId, d.all, d.buf, running, d.sequential, acceptedTotal)
            && (d.buf == [] || d.buf[0].jobId > d.index + 1)
    decreases |s.buf|
  {
    if s.buf != [] && s.buf[0].jobId == s.index + 1 {
      var next := DrainNext(s);
      DrainStep(batchsize, s.index, nextJobId, s.all, s.buf, running, s.sequential, acceptedTotal);
      assert Inv(batchsize, next.index, nextJobId, next.all, next.buf, running, next.sequential,
                 acceptedTotal);
      DrainedInv(batchsize, nextJobId, running, acceptedTotal, next);
      assert Drained(s) == Drained(next);
    }
  }

  /** One step of the drain. */
  function DrainNext(s: DrainState): (r: DrainState)
    requires s.buf != []
    ensures r.index == s.index + 1
    ensures |r.all| == |s.all| + 1 && r.all[..|s.all|] == s.all
    ensures |r.all| + |r.buf| == |s.all| + |s.buf|
  {
    DrainState(s.index + 1, s.all + [Consumed(s.buf[0].jobId, s.buf[0].result)], s.buf[1..],
               s.sequential + (if s.buf[0].accepted then 1 else 0))
  }

  /** Consuming the head `buf[0]` and then the first `m` of the rest is
      consuming the first `m + 1` entries of `buf`. */
  lemma MovesStep(all: seq<Consumed>, buf: seq<Evaluated>, m: nat,
                  dAll: seq<Consumed>, dBuf: seq<Evaluated>)
    requires buf != [] && m <= |buf| - 1
    requires dBuf == buf[1..][m..]
    requires dAll == (all + [Consumed(buf[0].jobId, buf[0].result)]) + ConsumedOf(buf[1..][..m])
    ensures dBuf == buf[m + 1..]
    ensures dAll == all + ConsumedOf(buf[..m + 1])
  {
    var c := Consumed(buf[0].jobId, buf[0].result);
    var rest := ConsumedOf(buf[1..][..m]);
    assert buf[..m + 1] == [buf[0]] + buf[1..][..m];
    ConsumedOfConcat([buf[0]], buf[1..][..m]);
    assert ConsumedOf([buf[0]]) == [c];
    assert (all + [c]) + rest == all + ([c] + rest);
  }

  /** If `d` arises from the state after one drain step by moving a prefix of
      its buffer, it arises from `s` by moving a prefix one longer. */
  lemma MovesFromNext(s: DrainState, d: DrainState)
    requires s.buf != []
    requires var next := DrainNext(s);
             var m := |d.all| - |next.all|;
             && 0 <= m <= |next.buf|
             && d.buf == next.buf[m..]
             && d.all == next.all + ConsumedOf(next.buf[..m])
    ensures var m := |d.all| - |s.all|;
            && 0 <= m <= |s.buf|
            && d.buf == s.buf[m..]
            && d.all == s.all + ConsumedOf(s.buf[..m])
  {
    var next := DrainNext(s);
    MovesStep(s.all, s.buf, |d.all| - |next.all|, d.all, d.buf);
  }

  /** Draining moves a prefix of the buffer, in order, to the end of the
      consumed results, and leaves the rest of the buffer. */
  lemma {:induction false} DrainedMoves(s: DrainState)
    ensures var d := Drained(s);
            var m := |d.all| - |s.all|;
            && 0 <= m <= |s.buf|
            && d.buf == s.buf[m..]
            && d.all == s.all + ConsumedOf(s.buf[..m])
    decreases |s.buf|
  {
    if s.buf != [] && s.buf[0].jobId == s.index + 1 {
      var next := DrainNext(s);
      assert Drained(s) == Drained(next);
      DrainedMoves(next);
      MovesFromNext(s, Drained(next));
    } else {
      assert s.buf[..0] == [];
      assert s.all + ConsumedOf([]) == s.all;
    }
  }

  /** The drain loop: while the smallest buffered id is the next id in
      order, pops it, appends it to the consumed results and counts it when
      accepted. */
  method DrainLoop(index0: int, all0: seq<Consumed>, buf0: seq<Evaluated>, sequential0: nat)
    returns (index: int, all: seq<Consumed>, buf: seq<Evaluated>, sequential: nat)
    ensures DrainState(index, all, buf, sequential) == Drained(DrainState(index0, all0, buf0, sequential0))
  {
    index, all, buf, sequential := index0, all0, buf0, sequential0;
    while buf != [] && buf[0].jobId == index + 1
      invariant Drained(DrainState(index, all, buf, sequential))
             == Drained(DrainState(index0, all0, buf0, sequential0))
      decreases |buf|
    {
      var seqEvaluated := buf[0];
      assert Drained(DrainState(index, all, buf, sequential))
          == Drained(DrainNext(DrainState(index, all, buf, sequential)));
      buf := buf[1..];
      all := all + [Consumed(seqEvaluated.jobId, seqEvaluated.result)];
      if seqEvaluated.accepted {
        sequential := sequential + 1;
      }
      index := index + 1;
    }
  }

  /** The submission loop: `k` batches, batch `t` drawing and evaluating
      `batchsize` parameters under the consecutive ids from
      `firstId + t * batchsize`. */
  method IssueBatches(options: SamplerOptions, batchsize: nat, k: nat, firstId: nat)
    returns (batches: seq<Batch>, nextId: nat)
    ensures |batches| == k
    ensures nextId == firstId + k * batchsize
    ensures AreIssuedBatches(batches, options, batchsize, firstId)
    ensures batches == IssuedBatches(options, batchsize, k, firstId)
  {
    batches := [];
    nextId := firstId;
    for t := 0 to k
      invariant |batches| == t && nextId == firstId + t * batchsize
      invariant forall t' :: 0 <= t' < t ==>
                  IsIssuedBatch(batches[t'], options, batchsize, firstId + t' * batchsize)
    {
      var first := nextId;
      var paraBatch: seq<Parameter> := [];
      var jobIdBatch: seq<nat> := [];
      for i := 0 to batchsize
        invariant |paraBatch| == i && |jobIdBatch| == i && nextId == first + i
        invariant forall j :: 0 <= j < i ==>
                    paraBatch[j] == options.sampleOne(first + j) && jobIdBatch[j] == first + j
      {
        paraBatch := paraBatch + [options.sampleOne(nextId)];
        jobIdBatch := jobIdBatch + [nextId];
        nextId := nextId + 1;
      }
      var results := EvaluateBatch(options.simulEvalOne, batchsize, paraBatch, jobIdBatch);
      batches := batches + [Batch(first, results)];
    }
    IssuedBatchesUnique(batches, options, batchsize, firstId);
  }

  /** `bs` are well-formed batches whose ids follow on from `first`,
      `batchsize` per batch. */
  ghost predicate ConsecutiveBatches(bs: seq<Batch>, batchsize: nat, first: nat)
  {
    forall t :: 0 <= t < |bs| ==>
      bs[t].firstId == first + t * batchsize && WellFormedBatch(bs[t], batchsize)
  }

  /** Batches issued at consecutive ids are well formed. */
  lemma IssuedAreConsecutive(bs: seq<Batch>, options: SamplerOptions, batchsize: nat, first: nat)
    requires AreIssuedBatches(bs, options, batchsize, first)
    ensures ConsecutiveBatches(bs, batchsize, first)
  {
    forall t | 0 <= t < |bs|
      ensures bs[t].firstId == first + t * batchsize && WellFormedBatch(bs[t], batchsize)
    {
      assert IsIssuedBatch(bs[t], options, batchsize, first + t * batchsize);
    }
  }

  /** Submitting well-formed batches at consecutive ids from the next id keeps
      the buffer and the running batches admissible. */
  lemma {:induction false} AdmitBatches(batchsize: nat, lo: int, hi: nat, buf: seq<Evaluated>,
                                        running: seq<Batch>, batches: seq<Batch>)
    requires Admissible(batchsize, lo, hi, buf, running)
    requires ConsecutiveBatches(batches, batchsize, hi)
    ensures Admissible(batchsize, lo, hi + |batches| * batchsize, buf, running + batches)
  {
    if batches == [] {
      assert running + batches == running;
    } else {
      var m := |batches| - 1;
      var init := batches[..m];
      var last := batches[m];
      assert ConsecutiveBatches(init, batchsize, hi) by {
        forall t | 0 <= t < |init|
          ensures init[t].firstId == hi + t * batchsize && WellFormedBatch(init[t], batchsize)
        {
          assert init[t] == batches[t];
        }
      }
      AdmitBatches(batchsize, lo, hi, buf, running, init);
      var id := hi + m * batchsize;
      AdmitStep(batchsize, lo, id, buf, running + init, last);
      var hi' := hi + |batches| * batchsize;
      var rs := running + batches;
      assert hi' == id + batchsize by {
        assert |batches| * batchsize == m * batchsize + batchsize;
      }
      assert rs == (running + init) + [last];
    }
  }

  /** Submitting batches issued at consecutive ids from the next id keeps the
      invariant. */
  lemma AdmitPreservesInv(batchsize: nat, nextValidIndex: int, nextJobId: nat,
                          all: seq<Consumed>, buf: seq<Evaluated>, running: seq<Batch>,
                          acceptedSequential: nat, acceptedTotal: nat,
                          options: SamplerOptions, batches: seq<Batch>)
    requires Inv(batchsize, nextValidIndex, nextJobId, all, buf, running, acceptedSequential, acceptedTotal)
    requires AreIssuedBatches(batches, options, batchsize, nextJobId)
    ensures Inv(batchsize, nextValidIndex, nextJobId + |batches| * batchsize, all, buf, running + batches,
                acceptedSequential, acceptedTotal)
  {
    IssuedAreConsecutive(batches, options, batchsize, nextJobId);
    AdmitBatches(batchsize, nextValidIndex, nextJobId, buf, running, batches);
  }

  // ---------------------------------------------------------------------
  // Results are the evaluations of their draws

  /** `p` is what evaluating the parameter drawn under job id `id` returns. */
  ghost predicate EvaluationOf(options: SamplerOptions, id: nat, p: Particle)
  {
    p == options.simulEvalOne(options.sampleOne(id))
  }

  /** Every entry of `s` holds the evaluation of the draw under its id. */
  ghost predicate AllEvaluated(options: SamplerOptions, s: seq<Evaluated>)
  {
    forall i :: 0 <= i < |s| ==> EvaluationOf(options, s[i].jobId, s[i].result)
  }

  /** Every result of every batch of `rs` is the evaluation of its draw. */
  ghost predicate RunningEvaluated(options: SamplerOptions, rs: seq<Batch>)
  {
    forall t :: 0 <= t < |rs| ==> AllEvaluated(options, rs[t].results)
  }

  /** Every consumed result is the evaluation of the draw under its id. */
  ghost predicate ConsumedEvaluated(options: SamplerOptions, all: seq<Consumed>)
  {
    forall i :: 0 <= i < |all| ==> EvaluationOf(options, all[i].jobId, all[i].result)
  }

  /** The loop state holds nothing but evaluations of the draws made under
      the ids it carries: in the consumed results, the buffer and the running
      batches alike. */
  ghost predicate EvaluatedState(options: SamplerOptions, all: seq<Consumed>, buf: seq<Evaluated>,
                                 running: seq<Batch>)
  {
    && ConsumedEvaluated(options, all)
    && AllEvaluated(options, buf)
    && RunningEvaluated(options, running)
  }

  /** Inserting an evaluation into a buffer of evaluations gives a buffer of
      evaluations. */
  lemma InsertEvaluated(options: SamplerOptions, s: seq<Evaluated>, e: Evaluated)
    requires AllEvaluated(options, s) && EvaluationOf(options, e.jobId, e.result)
    ensures AllEvaluated(options, Insert(s, e))
  {
    var k := BisectRight(s, e.jobId);
    var r := s[..k] + [e] + s[k..];
    forall i | 0 <= i < |r|
      ensures EvaluationOf(options, r[i].jobId, r[i].result)
    {
      if i < k {
        assert r[i] == s[i];
      } else if k < i {
        assert r[i] == s[i - 1];
      }
    }
  }

  /** Inserting evaluations into a buffer of evaluations gives a buffer of
      evaluations. */
  lemma {:induction false} InsertAllEvaluated(options: SamplerOptions, s: seq<Evaluated>, es: seq<Evaluated>)
    requires AllEvaluated(options, s) && AllEvaluated(options, es)
    ensures AllEvaluated(options, InsertAll(s, es))
  {
    if es != [] {
      var init := es[..|es| - 1];
      var e := es[|es| - 1];
      assert AllEvaluated(options, init) by {
        forall i | 0 <= i < |init|
          ensures EvaluationOf(options, init[i].jobId, init[i].result)
        {
          assert init[i] == es[i];
        }
      }
      InsertAllEvaluated(options, s, init);
      InsertEvaluated(options, InsertAll(s, init), e);
    }
  }

  /** Gathering running evaluations yields evaluations, and so do the
      batches left running. */
  lemma {:induction false} GatheredEvaluated(options: SamplerOptions, rs: seq<Batch>, finished: set<nat>)
    requires RunningEvaluated(options, rs)
    ensures AllEvaluated(options, Gathered(rs, finished))
    ensures RunningEvaluated(options, StillRunning(rs, finished))
  {
    if rs != [] {
      var init := rs[..|rs| - 1];
      var last := rs[|rs| - 1];
      GatheredEvaluated(options, init, finished);
      var g := Gathered(init, finished);
      var k := StillRunning(init, finished);
      assert AllEvaluated(options, last.results);
      if last.firstId in finished {
        var g' := g + last.results;
        assert Gathered(rs, finished) == g';
        forall i | 0 <= i < |g'|
          ensures EvaluationOf(options, g'[i].jobId, g'[i].result)
        {
          if i >= |g| {
            assert g'[i] == last.results[i - |g|];
          }
        }
        assert StillRunning(rs, finished) == k + [];
      } else {
        assert Gathered(rs, finished) == g + [];
        assert StillRunning(rs, finished) == k + [last];
      }
    }
  }

  /** Moving the first `m` buffered evaluations to the consumed results
      leaves evaluations on both sides. */
  lemma MovedEvaluated(options: SamplerOptions, all: seq<Consumed>, buf: seq<Evaluated>, m: nat,
                       all': seq<Consumed>, buf': seq<Evaluated>)
    requires ConsumedEvaluated(options, all) && AllEvaluated(options, buf)
    requires m <= |buf| && buf' == buf[m..] && all' == all + ConsumedOf(buf[..m])
    ensures ConsumedEvaluated(options, all') && AllEvaluated(options, buf')
  {
    var moved := ConsumedOf(buf[..m]);
    forall i | |all| <= i < |all'|
      ensures EvaluationOf(options, all'[i].jobId, all'[i].result)
    {
      var k := i - |all|;
      assert all'[i] == moved[k] == Consumed(buf[k].jobId, buf[k].result);
    }
    forall j | 0 <= j < |buf'|
      ensures EvaluationOf(options, buf'[j].jobId, buf'[j].result)
    {
      assert buf'[j] == buf[m + j];
    }
  }

  /** Draining moves evaluations from the buffer to the consumed results. */
  lemma DrainedEvaluated(options: SamplerOptions, s: DrainState)
    requires ConsumedEvaluated(options, s.all) && AllEvaluated(options, s.buf)
    ensures ConsumedEvaluated(options, Drained(s).all) && AllEvaluated(options, Drained(s).buf)
  {
    DrainedMoves(s);
    var d := Drained(s);
    MovedEvaluated(options, s.all, s.buf, |d.all| - |s.all|, d.all, d.buf);
  }

  /** Submitted batches hold evaluations of the draws under their ids. */
  lemma AdmitEvaluated(options: SamplerOptions, batchsize: nat, first: nat,
                       running: seq<Batch>, batches: seq<Batch>)
    requires RunningEvaluated(options, running)
    requires AreIssuedBatches(batches, options, batchsize, first)
    ensures RunningEvaluated(options, running + batches)
  {
    var rs := running + batches;
    forall t | 0 <= t < |rs|
      ensures AllEvaluated(options, rs[t].results)
    {
      if t >= |running| {
        var u := t - |running|;
        assert rs[t] == batches[u];
        assert IsIssuedBatch(batches[u], options, batchsize, first + u * batchsize);
      }
    }
  }

  /** Gathering keeps the state made of evaluations. */
  lemma GatherKeepsEvaluated(options: SamplerOptions, all: seq<Consumed>, buf: seq<Evaluated>,
                             running: seq<Batch>, finished: set<nat>)
    requires EvaluatedState(options, all, buf, running)
    ensures EvaluatedState(options, all, InsertAll(buf, Gathered(running, finished)),
                           StillRunning(running, finished))
  {
    GatheredEvaluated(options, running, finished);
    InsertAllEvaluated(options, buf, Gathered(running, finished));
  }

  /** With no gaps, consumed result `i` is the evaluation of draw `i`. */
  lemma ConsumedInOrder(options: SamplerOptions, all: seq<Consumed>)
    requires NoGaps(all, |all| - 1) && ConsumedEvaluated(options, all)
    ensures forall i :: 0 <= i < |all| ==> all[i].result == options.simulEvalOne(options.sampleOne(i))
  {
  }

  // ---------------------------------------------------------------------
  // The main loop as a function of the environment's rounds

  /** The values of the main loop's locals. */
  datatype LoopState = LoopState(numAcceptedTotal: nat, numAcceptedSequential: nat, nextJobId: nat,
                                 runningJobs: seq<Batch>, unprocessedResults: seq<Evaluated>,
                                 allResults: seq<Consumed>, nextValidIndex: int)

  /** The locals before the first iteration. */
  function Initial(): LoopState
  {
    LoopState(0, 0, 0, [], [], [], -1)
  }

  /** Gathering the batches whose handles are in `finished`. */
  function GatherState(st: LoopState, finished: set<nat>): LoopState
  {
    var g := Gathered(st.runningJobs, finished);
    st.(runningJobs := StillRunning(st.runningJobs, finished),
        unprocessedResults := InsertAll(st.unprocessedResults, g),
        numAcceptedTotal := st.numAcceptedTotal + FlagCount(g))
  }

  /** Sequential consumption of the buffer. */
  function DrainedState(st: LoopState): LoopState
  {
    var d := Drained(DrainState(st.nextValidIndex, st.allResults, st.unprocessedResults,
                                st.numAcceptedSequential));
    st.(nextValidIndex := d.index, allResults := d.all, unprocessedResults := d.buf,
        numAcceptedSequential := d.sequential)
  }

  /** Admission control with `cores` reported by the client. */
  function AdmitState(options: SamplerOptions, config: EpsConfig, cores: nat, st: LoopState): LoopState
  {
    var k := BatchesToSubmit(|st.runningJobs|, config.clientMaxJobs, cores, st.numAcceptedTotal, options.n);
    st.(runningJobs := st.runningJobs + IssuedBatches(options, config.batchsize, k, st.nextJobId),
        nextJobId := st.nextJobId + k * config.batchsize)
  }

  /** One iteration up to the exit check: gather, then drain. */
  function Collected(st: LoopState, r: Round): LoopState
  {
    DrainedState(GatherState(st, r.finished))
  }

  /** The end of a run: whether the loop exited, and its locals. */
  datatype RunEnd = RunEnd(done: bool, state: LoopState)

  /** The main loop over the rounds: each round gathers and drains, then
      exits once `n` sequential accepted results exist, and otherwise
      admits batches and goes on with the next round. */
  function Run(options: SamplerOptions, config: EpsConfig, st: LoopState, rounds: seq<Round>): (r: RunEnd)
    ensures r.done ==> r.state.numAcceptedSequential >= options.n
    ensures !r.done ==> rounds == [] || r.state.numAcceptedSequential < options.n
    decreases |rounds|
  {
    if rounds == [] then RunEnd(false, st)
    else
      var c := Collected(st, rounds[0]);
      if c.numAcceptedSequential >= options.n then RunEnd(true, c)
      else Run(options, config, AdmitState(options, config, rounds[0].cores, c), rounds[1..])
  }

  /** The loop invariant of a state, and every result it holds is the
      evaluation of the draw under its job id. */
  ghost predicate StateValid(options: SamplerOptions, batchsize: nat, st: LoopState)
  {
    && Inv(batchsize, st.nextValidIndex, st.nextJobId, st.allResults, st.unprocessedResults,
           st.runningJobs, st.numAcceptedSequential, st.numAcceptedTotal)
    && EvaluatedState(options, st.allResults, st.unprocessedResults, st.runningJobs)
  }

  /** In the example below the first round finds nothing done: gathering and
      draining leave the initial state as it is. */
  lemma FirstCollectedExample()
    ensures Collected(Initial(), Round({}, 1)) == Initial()
  {
    GatherNothing();
    DrainNothing();
  }

  /** Gathering from the initial state, with nothing running, changes nothing. */
  lemma GatherNothing()
    ensures GatherState(Initial(), {}) == Initial()
  {
    assert Gathered([], {}) == [] && StillRunning([], {}) == [] && InsertAll([], []) == [];
  }

  /** Draining the initial state, with nothing buffered, changes nothing. */
  lemma DrainNothing()
    ensures DrainedState(Initial()) == Initial()
  {
    assert Drained(DrainState(-1, [], [], 0)) == DrainState(-1, [], [], 0);
  }

  /** With `n = 1`, batches of one and one job at a time on one core,
      admission from the initial state submits batch 0 and nothing else. */
  lemma FirstAdmitExample(options: SamplerOptions)
    requires options.n == 1
    ensures AdmitState(options, EpsConfig(1, 1), 1, Initial())
            == LoopState(0, 0, 1, [IssuedBatch(options, 1, 0)], [], [], -1)
  {
    assert BatchesToSubmit(0, 1, 1, 0, 1) == 1;
    var b := IssuedBatch(options, 1, 0);
    assert AreIssuedBatches([b], options, 1, 0) by {
      assert [b][0] == b;
    }
    IssuedBatchesUnique([b], options, 1, 0);
  }

  /** The second round of the example finds batch 0 done: its one result,
      accepted, is buffered and consumed, and the loop exits. */
  lemma SecondRoundExample(options: SamplerOptions)
    requires options.n == 1
    requires options.simulEvalOne(options.sampleOne(0)).accepted
    ensures Collected(LoopState(0, 0, 1, [IssuedBatch(options, 1, 0)], [], [], -1), Round({0}, 1))
              .numAcceptedSequential == 1
  {
    var b := IssuedBatch(options, 1, 0);
    var p0 := options.simulEvalOne(options.sampleOne(0));
    var e := Evaluated(p0, p0.accepted, 0);
    assert b.results == [e];
    assert [b][..0] == [] && [e][..0] == [];
    assert Gathered([b], {0}) == [e];
    assert StillRunning([b], {0}) == [];
    assert Insert([], e) == [e];
    assert InsertAll([], [e]) == [e];
    assert FlagCount([e]) == 1;
    var st := LoopState(0, 0, 1, [b], [], [], -1);
    assert GatherState(st, {0}) == LoopState(1, 0, 1, [], [e], [], -1);
    var d := DrainState(-1, [], [e], 0);
    assert DrainNext(d) == DrainState(0, [Consumed(0, p0)], [], 1);
    assert Drained(DrainNext(d)) == DrainNext(d);
    assert Drained(d).sequential == 1;
  }

  /** The first round of the example leaves the loop going on from the
      state with batch 0 running. */
  lemma FirstRunExample(options: SamplerOptions)
    requires options.n == 1
    ensures Run(options, EpsConfig(1, 1), Initial(), [Round({}, 1), Round({0}, 1)])
            == Run(options, EpsConfig(1, 1), LoopState(0, 0, 1, [IssuedBatch(options, 1, 0)], [], [], -1),
                   [Round({0}, 1)])
  {
    FirstCollectedExample();
    FirstAdmitExample(options);
    RunGoesOn(options, EpsConfig(1, 1), Initial(), Round({}, 1), [Round({0}, 1)]);
  }

  /** A round that leaves fewer than `n` sequential accepted results hands
      the admitted state on to the remaining rounds. */
  lemma RunGoesOn(options: SamplerOptions, config: EpsConfig, st: LoopState, r: Round, rest: seq<Round>)
    requires Collected(st, r).numAcceptedSequential < options.n
    ensures Run(options, config, st, [r] + rest)
            == Run(options, config, AdmitState(options, config, r.cores, Collected(st, r)), rest)
  {
    assert ([r] + rest)[0] == r && ([r] + rest)[1..] == rest;
  }

  /** With `n = 1`, batches of one, one job at a time and every draw
      accepted, the loop exits in the second round: the first finds nothing
      done and submits batch 0, the second finds it done. */
  lemma RunFinishesExample(options: SamplerOptions)
    requires options.n == 1
    requires forall k :: options.simulEvalOne(options.sampleOne(k)).accepted
    ensures Run(options, EpsConfig(1, 1), Initial(), [Round({}, 1), Round({0}, 1)]).done
  {
    FirstRunExample(options);
    SecondRoundExample(options);
  }

  /** Gathering keeps a valid state valid. */
  lemma GatherStateValid(options: SamplerOptions, batchsize: nat, st: LoopState, finished: set<nat>)
    requires StateValid(options, batchsize, st)
    ensures StateValid(options, batchsize, GatherState(st, finished))
  {
    GatherPreservesInv(batchsize, st.nextValidIndex, st.nextJobId, st.allResults, st.unprocessedResults,
                       st.runningJobs, st.numAcceptedSequential, st.numAcceptedTotal, finished);
    GatherKeepsEvaluated(options, st.allResults, st.unprocessedResults, st.runningJobs, finished);
  }

  /** Draining keeps a valid state valid, and leaves the buffer empty or with
      its smallest id beyond the next id in order. */
  lemma DrainedStateValid(options: SamplerOptions, batchsize: nat, st: LoopState)
    requires StateValid(options, batchsize, st)
    ensures var d := DrainedState(st);
            && StateValid(options, batchsize, d)
            && (d.unprocessedResults == [] || d.unprocessedResults[0].jobId > d.nextValidIndex + 1)
  {
    var s := DrainState(st.nextValidIndex, st.allResults, st.unprocessedResults, st.numAcceptedSequential);
    DrainedInv(batchsize, st.nextJobId, st.runningJobs, st.numAcceptedTotal, s);
    DrainedEvaluated(options, s);
  }

  /** Admission keeps a valid state valid. */
  lemma AdmitStateValid(options: SamplerOptions, config: EpsConfig, cores: nat, st: LoopState)
    requires StateValid(options, config.batchsize, st)
    ensures StateValid(options, config.batchsize, AdmitState(options, config, cores, st))
  {
    var k := BatchesToSubmit(|st.runningJobs|, config.clientMaxJobs, cores, st.numAcceptedTotal, options.n);
    var batches := IssuedBatches(options, config.batchsize, k, st.nextJobId);
    AdmitPreservesInv(config.batchsize, st.nextValidIndex, st.nextJobId, st.allResults, st.unprocessedResults,
                      st.runningJobs, st.numAcceptedSequential, st.numAcceptedTotal, options, batches);
    AdmitEvaluated(options, config.batchsize, st.nextJobId, st.runningJobs, batches);
  }

  /** Gathering on the values of the locals. */
  method GatherStep(options: SamplerOptions, batchsize: nat, st: LoopState, finished: set<nat>)
    returns (st': LoopState)
    requires StateValid(options, batchsize, st)
    ensures st' == GatherState(st, finished)
    ensures StateValid(options, batchsize, GatherState(st, finished))
  {
    var kept, buf, total := GatherRunning(st.runningJobs, finished, st.unprocessedResults, st.numAcceptedTotal);
    GatherStateValid(options, batchsize, st, finished);
    st' := st.(runningJobs := kept, unprocessedResults := buf, numAcceptedTotal := total);
  }

  /** The local state of `sample_until_n_accepted`'s main loop, with the
      options it draws and evaluates by. */
  class Scheduler {
    const options: SamplerOptions
    const batchsize: nat
    var numAcceptedTotal: nat
    var numAcceptedSequential: nat
    var nextJobId: nat
    var runningJobs: seq<Batch>
    var unprocessedResults: seq<Evaluated>
    var allResults: seq<Consumed>
    var nextValidIndex: int

    /** The loop invariant, and every result held is the evaluation of the
        draw under its job id. */
    ghost predicate Valid()
      reads this
    {
      StateValid(options, batchsize, State())
    }

    /** The values of the locals. */
    function State(): LoopState
      reads this
    {
      LoopState(numAcceptedTotal, numAcceptedSequential, nextJobId, runningJobs, unprocessedResults,
                allResults, nextValidIndex)
    }

    constructor (options: SamplerOptions, batchsize: nat)
      requires batchsize >= 1
      ensures Valid() && State() == Initial()
      ensures this.options == options && this.batchsize == batchsize
      ensures numAcceptedTotal == 0 && numAcceptedSequential == 0 && nextJobId == 0
      ensures runningJobs == [] && unprocessedResults == [] && allResults == []
      ensures nextValidIndex == -1
    {
      this.options := options;
      this.batchsize := batchsize;
      numAcceptedTotal := 0;
      numAcceptedSequential := 0;
      nextJobId := 0;
      runningJobs := [];
      unprocessedResults := [];
      allResults := [];
      nextValidIndex := -1;
    }

    /** Gathers the running batches whose handles are in `finished`: each of
        their results goes into the buffer at its place by job id, and the
        any-order accepted count grows by the accepted results among them. */
    method Gather(finished: set<nat>)
      requires Valid()
      modifies this
      ensures Valid()
      ensures runningJobs == StillRunning(old(runningJobs), finished)
      ensures unprocessedResults == InsertAll(old(unprocessedResults), Gathered(old(runningJobs), finished))
      ensures numAcceptedTotal == old(numAcceptedTotal) + FlagCount(Gathered(old(runningJobs), finished))
      ensures numAcceptedSequential == old(numAcceptedSequential)
      ensures allResults == old(allResults) && nextValidIndex == old(nextValidIndex)
      ensures nextJobId == old(nextJobId)
      ensures State() == GatherState(old(State()), finished)
    {
      var st := GatherStep(options, batchsize, State(), finished);
      runningJobs := st.runningJobs;
      unprocessedResults := st.unprocessedResults;
      numAcceptedTotal := st.numAcceptedTotal;
    }

    /** Sequential consumption: moves buffered results to the consumed list
        while the smallest buffered id is the next id in order. Afterwards the
        buffer is empty or its smallest id lies beyond the next id in order. */
    method DrainSequential()
      requires Valid()
      modifies this
      ensures Valid()
      ensures DrainState(nextValidIndex, allResults, unprocessedResults, numAcceptedSequential)
           == Drained(DrainState(old(nextValidIndex), old(allResults), old(unprocessedResults),
                                 old(numAcceptedSequential)))
      ensures unprocessedResults == [] || unprocessedResults[0].jobId > nextValidIndex + 1
      ensures runningJobs == old(runningJobs) && nextJobId == old(nextJobId)
      ensures numAcceptedTotal == old(numAcceptedTotal)
      ensures State() == DrainedState(old(State()))
    {
      var index, all, buf, sequential :=
        DrainLoop(nextValidIndex, allResults, unprocessedResults, numAcceptedSequential);
      DrainedStateValid(options, batchsize, State());
      allResults := all;
      unprocessedResults := buf;
      numAcceptedSequential := sequential;
      nextValidIndex := index;
    }

    /** Admission control: tops the running batches up to the smaller of the
        two limits when both leave room and fewer than `n` accepted results
        were gathered; each new batch gets `batchsize` fresh consecutive ids. */
    method Admit(clientMaxJobs: nat, cores: nat)
      requires Valid()
      modifies this
      ensures Valid()
      ensures var k := BatchesToSubmit(|old(runningJobs)|, clientMaxJobs, cores, old(numAcceptedTotal), options.n);
              && |runningJobs| == |old(runningJobs)| + k
              && runningJobs[..|old(runningJobs)|] == old(runningJobs)
              && nextJobId == old(nextJobId) + k * batchsize
              && AreIssuedBatches(runningJobs[|old(runningJobs)|..], options, batchsize, old(nextJobId))
      ensures unprocessedResults == old(unprocessedResults) && allResults == old(allResults)
      ensures nextValidIndex == old(nextValidIndex)
      ensures numAcceptedTotal == old(numAcceptedTotal)
      ensures numAcceptedSequential == old(numAcceptedSequential)
      ensures State() == AdmitState(options, EpsConfig(batchsize, clientMaxJobs), cores, old(State()))
    {
      var k := BatchesToSubmit(|runningJobs|, clientMaxJobs, cores, numAcceptedTotal, options.n);
      var batches, nextId := IssueBatches(options, batchsize, k, nextJobId);
      AdmitStateValid(options, EpsConfig(batchsize, clientMaxJobs), cores, State());
      assert (runningJobs + batches)[..|runningJobs|] == runningJobs;
      assert (runningJobs + batches)[|runningJobs|..] == batches;
      runningJobs := runningJobs + batches;
      nextJobId := nextId;
    }
  }

  // ---------------------------------------------------------------------
  // Final assembly

  /** The particles of consumed results, in order. */
  function ParticlesOf(s: seq<Consumed>): (r: seq<Particle>)
    ensures |r| == |s|
    ensures forall i :: 0 <= i < |s| ==> r[i] == s[i].result
  {
    if s == [] then [] else ParticlesOf(s[..|s| - 1]) + [s[|s| - 1].result]
  }

  lemma ConsumedAcceptedSnoc(s: seq<Consumed>, c: Consumed)
    ensures ConsumedAccepted(s + [c]) == ConsumedAccepted(s) + (if c.result.accepted then 1 else 0)
  {
    assert (s + [c])[..|s|] == s;
  }

  lemma ParticlesOfSnoc(s: seq<Consumed>, c: Consumed)
    ensures ParticlesOf(s + [c]) == ParticlesOf(s) + [c.result]
  {
    assert (s + [c])[..|s|] == s;
  }

  /** The accepted count of consumed results is the number of accepted
      particles among them. */
  lemma {:induction false} CountAcceptedParticlesOf(s: seq<Consumed>)
    ensures CountAccepted(ParticlesOf(s)) == ConsumedAccepted(s)
  {
    if s != [] {
      var init := s[..|s| - 1];
      assert s == init + [s[|s| - 1]];
      CountAcceptedParticlesOf(init);
      ParticlesOfSnoc(init, s[|s| - 1]);
      AcceptedOfSnoc(ParticlesOf(init), s[|s| - 1].result);
    }
  }

  /** Popping one more consumed result extends the count and the retained
      particles by that result. */
  lemma AssemblyStep(all: seq<Consumed>, popped: nat, record: bool)
    requires popped < |all|
    ensures ConsumedAccepted(all[..popped + 1])
         == ConsumedAccepted(all[..popped]) + (if all[popped].result.accepted then 1 else 0)
    ensures Retained(ParticlesOf(all[..popped + 1]), record)
         == Retained(ParticlesOf(all[..popped]), record)
            + (if all[popped].result.accepted || record then [all[popped].result] else [])
  {
    assert all[..popped + 1] == all[..popped] + [all[popped]];
    ConsumedAcceptedSnoc(all[..popped], all[popped]);
    ParticlesOfSnoc(all[..popped], all[popped]);
    RetainedSnoc(ParticlesOf(all[..popped]), all[popped].result, record);
  }

  /** The state of the assembly loop after popping `popped` results:
      `counter` of them are accepted, at most `n`, the last popped one is
      accepted once `n` are reached, and the sample holds what `append`
      keeps of them. */
  ghost predicate Assembling(all: seq<Consumed>, n: nat, record: bool,
                             popped: nat, counter: nat, particles: seq<Particle>)
  {
    && popped <= |all|
    && counter == ConsumedAccepted(all[..popped]) <= n
    && (counter < n || popped == 0 || all[popped - 1].result.accepted)
    && (0 < n || popped == 0)
    && particles == Retained(ParticlesOf(all[..popped]), record)
  }

  /** While fewer than `n` accepted results are popped, a result is left to
      pop. */
  lemma AssemblyNext(all: seq<Consumed>, n: nat, record: bool,
                     popped: nat, counter: nat, particles: seq<Particle>)
    requires ConsumedAccepted(all) >= n
    requires Assembling(all, n, record, popped, counter, particles) && counter < n
    ensures all[popped..] != []
  {
    assert all[..|all|] == all;
  }

  /** Popping the next result, counting it when accepted and appending its
      particle as a Sample does keeps the loop state. */
  lemma AssemblyAdvance(all: seq<Consumed>, n: nat, record: bool,
                        popped: nat, counter: nat, particles: seq<Particle>,
                        counter': nat, particles': seq<Particle>)
    requires Assembling(all, n, record, popped, counter, particles) && counter < n
    requires popped < |all|
    requires counter' == counter + (if all[popped].result.accepted then 1 else 0)
    requires particles' == if all[popped].result.accepted || record
                           then particles + [all[popped].result] else particles
    ensures Assembling(all, n, record, popped + 1, counter', particles')
  {
    AssemblyStep(all, popped, record);
  }

  /** Once `n` accepted results are popped, the popped prefix ends at the
      `n`-th accepted one and the sample holds exactly `n` accepted. */
  lemma AssemblyDone(all: seq<Consumed>, n: nat, record: bool,
                     popped: nat, counter: nat, particles: seq<Particle>)
    requires Assembling(all, n, record, popped, counter, particles) && counter >= n
    ensures popped <= |all|
    ensures ConsumedAccepted(all[..popped]) == n
    ensures n > 0 ==> popped > 0 && all[popped - 1].result.accepted
    ensures n == 0 ==> popped == 0
    ensures CountAccepted(particles) == n
  {
    AcceptedOfRetained(ParticlesOf(all[..popped]), record);
    CountAcceptedParticlesOf(all[..popped]);
  }

  /** One iteration of the assembly loop: pops the next result, appends its
      particle to `sample` and counts it when accepted. */
  method PopOne(sample: Sample, allResults: seq<Consumed>, n: nat, record: bool,
                popped: nat, counterAccepted: nat)
    returns (popped': nat, counterAccepted': nat)
    requires ConsumedAccepted(allResults) >= n && counterAccepted < n
    requires sample.recordAllSumStats == record
    requires Assembling(allResults, n, record, popped, counterAccepted, sample.particles)
    modifies sample
    ensures sample.recordAllSumStats == record
    ensures popped' == popped + 1
    ensures Assembling(allResults, n, record, popped', counterAccepted', sample.particles)
  {
    AssemblyNext(allResults, n, record, popped, counterAccepted, sample.particles);
    ghost var particles := sample.particles;
    var curRes := allResults[popped];
    var particle := curRes.result;
    sample.Append(particle);
    counterAccepted' := counterAccepted;
    if particle.accepted {
      counterAccepted' := counterAccepted + 1;
    }
    popped' := popped + 1;
    AssemblyAdvance(allResults, n, record, popped, counterAccepted, particles,
                    counterAccepted', sample.particles);
  }

  /** Pops consumed results in job-id order into a new sample until `n`
      accepted particles are in it. Returns the number popped: the popped
      results end at the `n`-th accepted one. */
  method FinalAssembly(allResults: seq<Consumed>, n: nat, record: bool)
    returns (sample: Sample, popped: nat)
    requires ConsumedAccepted(allResults) >= n
    ensures fresh(sample)
    ensures popped <= |allResults|
    ensures ConsumedAccepted(allResults[..popped]) == n
    ensures n > 0 ==> popped > 0 && allResults[popped - 1].result.accepted
    ensures n == 0 ==> popped == 0
    ensures sample.recordAllSumStats == record
    ensures sample.particles == Retained(ParticlesOf(allResults[..popped]), record)
    ensures sample.NAccepted() == n
  {
    sample := new Sample(record);
    var counterAccepted: nat := 0;
    popped := 0;
    assert allResults[..0] == [];
    while counterAccepted < n
      invariant fresh(sample) && sample.recordAllSumStats == record
      invariant Assembling(allResults, n, record, popped, counterAccepted, sample.particles)
      decreases |allResults| - popped
    {
      popped, counterAccepted := PopOne(sample, allResults, n, record, popped, counterAccepted);
    }
    AssemblyDone(allResults, n, record, popped, counterAccepted, sample.particles);
  }

  /** `nr_evaluations_` as the source sets it: the job id of the last popped
      result. */
  function NrEvaluationsAsWritten(allResults: seq<Consumed>, popped: nat): (r: int)
    requires 0 < popped <= |allResults|
    ensures (forall i :: 0 <= i < |allResults| ==> allResults[i].jobId == i) ==> r == popped - 1
  {
    allResults[popped - 1].jobId
  }

  /** The number of evaluations up to and including the last popped result
      (ids start at 0). */
  function NrEvaluations(allResults: seq<Consumed>, popped: nat): (r: nat)
    requires 0 < popped <= |allResults|
    requires forall i :: 0 <= i < |allResults| ==> allResults[i].jobId == i
    ensures r == popped
  {
    allResults[popped - 1].jobId + 1
  }

  /** Since job ids start at 0, the last popped id is one less than the
      number of evaluations popped. */
  lemma AsWrittenCountsOneShort(allResults: seq<Consumed>, popped: nat)
    requires 0 < popped <= |allResults|
    requires forall i :: 0 <= i < |allResults| ==> allResults[i].jobId == i
    ensures NrEvaluationsAsWritten(allResults, popped) == popped - 1
    ensures NrEvaluationsAsWritten(allResults, popped) < NrEvaluations(allResults, popped)
  {
  }

  /** With one always-accepted evaluation and n = 1, the source reports 0
      evaluations although one was consumed: fewer than n. */
  lemma AsWrittenBelowN(p: Particle)
    requires p.accepted
    ensures var all := [Consumed(0, p)];
            && ConsumedAccepted(all) == 1
            && NrEvaluationsAsWritten(all, 1) == 0
            && NrEvaluations(all, 1) == 1
  {
    var all := [Consumed(0, p)];
    assert all[..0] == [];
  }

  /** The population's popped prefix holds at least `n` results: reported
      evaluations are never below the population size. */
  lemma PoppedAtLeastN(allResults: seq<Consumed>, popped: nat, n: nat)
    requires popped <= |allResults|
    requires ConsumedAccepted(allResults[..popped]) == n
    ensures n <= popped
  {
    ConsumedAcceptedBound(allResults[..popped]);
  }

  // ---------------------------------------------------------------------
  // The round

  /** One iteration of the main loop: gather, sequential drain, exit check
      and, when the loop goes on, admission. */
  method Iterate(sched: Scheduler, config: EpsConfig, r: Round) returns (stop: bool)
    requires sched.Valid() && sched.batchsize == config.batchsize
    modifies sched
    ensures sched.Valid()
    ensures var c := Collected(old(sched.State()), r);
            && stop == (c.numAcceptedSequential >= sched.options.n)
            && sched.State() == if stop then c else AdmitState(sched.options, config, r.cores, c)
  {
    sched.Gather(r.finished);
    sched.DrainSequential();
    stop := sched.numAcceptedSequential >= sched.options.n;
    if !stop {
      sched.Admit(config.clientMaxJobs, r.cores);
    }
  }

  /** The main loop of `sample_until_n_accepted` over the environment's
      rounds. It ends exactly as `Run` does on them, and returns its state. */
  method MainLoop(config: EpsConfig, options: SamplerOptions, rounds: seq<Round>)
    returns (done: bool, sched: Scheduler)
    requires config.batchsize >= 1
    ensures fresh(sched) && sched.Valid()
    ensures sched.options == options && sched.batchsize == config.batchsize
    ensures RunEnd(done, sched.State()) == Run(options, config, Initial(), rounds)
    ensures NoGaps(sched.allResults, |sched.allResults| - 1)
    ensures forall i :: 0 <= i < |sched.allResults| ==>
              sched.allResults[i].result == options.simulEvalOne(options.sampleOne(i))
    ensures forall k :: 0 <= k < |sched.runningJobs| ==> |sched.allResults| <= sched.runningJobs[k].firstId
    ensures done ==> ConsumedAccepted(sched.allResults) >= options.n
    ensures !done ==> |rounds| == 0 || ConsumedAccepted(sched.allResults) < options.n
  {
    sched := new Scheduler(options, config.batchsize);
    var i := 0;
    done := false;
    while i < |rounds| && !done
      invariant 0 <= i <= |rounds|
      invariant fresh(sched) && sched.Valid()
      invariant sched.options == options && sched.batchsize == config.batchsize
      invariant done ==> RunEnd(true, sched.State()) == Run(options, config, Initial(), rounds)
      invariant !done ==> Run(options, config, sched.State(), rounds[i..]) == Run(options, config, Initial(), rounds)
    {
      assert rounds[i..][0] == rounds[i] && rounds[i..][1..] == rounds[i + 1..];
      done := Iterate(sched, config, rounds[i]);
      i := i + 1;
    }
    ConsumedInOrder(options, sched.allResults);
  }

  /** The scheduling half of `sample_until_n_accepted`: the main loop, then
      the cancellation of every batch still running. The consumed results
      and the cancelled batches are those of the run's end state. */
  method Schedule(config: EpsConfig, options: SamplerOptions, rounds: seq<Round>)
    returns (done: bool, consumed: seq<Consumed>, cancelled: seq<Batch>)
    requires config.batchsize >= 1
    ensures var run := Run(options, config, Initial(), rounds);
            done == run.done && consumed == run.state.allResults && cancelled == run.state.runningJobs
    ensures NoGaps(consumed, |consumed| - 1)
    ensures forall i :: 0 <= i < |consumed| ==> consumed[i].result == options.simulEvalOne(options.sampleOne(i))
    ensures forall k :: 0 <= k < |cancelled| ==> |consumed| <= cancelled[k].firstId
    ensures done ==> ConsumedAccepted(consumed) >= options.n
    ensures !done ==> |rounds| == 0 || ConsumedAccepted(consumed) < options.n
  {
    var sched;
    done, sched := MainLoop(config, options, rounds);
    cancelled := sched.runningJobs;
    consumed := sched.allResults;
  }

  /** The end of `sample_until_n_accepted` once the loop has exited: the
      still-running batches are cancelled, the population is assembled from
      the consumed results and the evaluation count is recorded. */
  method Conclude(sampler: Sampler, options: SamplerOptions,
                  consumed: seq<Consumed>, cancelled: seq<Batch>)
    returns (outcome: Outcome)
    requires NoGaps(consumed, |consumed| - 1)
    requires ConsumedAccepted(consumed) >= options.n
    modifies sampler`nrEvaluations
    ensures outcome.Finished? && outcome.consumed == consumed && outcome.cancelled == cancelled
    ensures outcome.Finished? ==>
              && fresh(outcome.sample)
              && ConsumedAccepted(outcome.consumed) >= options.n
              && outcome.popped <= |outcome.consumed|
              && options.n <= outcome.popped
              && ConsumedAccepted(outcome.consumed[..outcome.popped]) == options.n
              && (options.n > 0 ==> outcome.consumed[outcome.popped - 1].result.accepted)
              && outcome.sample.recordAllSumStats == options.sampleOptions
              && outcome.sample.particles
                 == Retained(ParticlesOf(outcome.consumed[..outcome.popped]), options.sampleOptions)
              && outcome.sample.NAccepted() == options.n
              && sampler.nrEvaluations
                 == (if outcome.popped > 0 then outcome.popped else old(sampler.nrEvaluations))
              && (outcome.popped > 0 ==>
                    sampler.nrEvaluations == NrEvaluationsAsWritten(outcome.consumed, outcome.popped) + 1)
  {
    var sample, popped := FinalAssembly(consumed, options.n, options.sampleOptions);
    PoppedAtLeastN(consumed, popped, options.n);
    if popped > 0 {
      sampler.nrEvaluations := NrEvaluations(consumed, popped);
    }
    outcome := Finished(sample, consumed, popped, cancelled);
  }

  /** `sample_until_n_accepted`: runs the main loop, cancels the
      still-running batches on exit and assembles the population. */
  method SampleUntilNAccepted(sampler: Sampler, config: EpsConfig,
                              options: SamplerOptions, rounds: seq<Round>)
    returns (outcome: Outcome)
    requires config.batchsize >= 1
    modifies sampler`nrEvaluations
    ensures var run := Run(options, config, Initial(), rounds);
            && (outcome.Finished? <==> run.done)
            && outcome.consumed == run.state.allResults
            && (outcome.Finished? ==> outcome.cancelled == run.state.runningJobs)
    ensures NoGaps(outcome.consumed, |outcome.consumed| - 1)
    ensures forall i :: 0 <= i < |outcome.consumed| ==>
              outcome.consumed[i].result == options.simulEvalOne(options.sampleOne(i))
    ensures outcome.Unfinished? ==>
              && (|rounds| == 0 || ConsumedAccepted(outcome.consumed) < options.n)
              && sampler.nrEvaluations == old(sampler.nrEvaluations)
    ensures outcome.Finished? ==>
              && fresh(outcome.sample)
              && ConsumedAccepted(outcome.consumed) >= options.n
              && outcome.popped <= |outcome.consumed|
              && options.n <= outcome.popped
              && ConsumedAccepted(outcome.consumed[..outcome.popped]) == options.n
              && (options.n > 0 ==> outcome.consumed[outcome.popped - 1].result.accepted)
              && (forall k :: 0 <= k < |outcome.cancelled| ==>
                    |outcome.consumed| <= outcome.cancelled[k].firstId)
              && outcome.sample.recordAllSumStats == options.sampleOptions
              && outcome.sample.particles
                 == Retained(ParticlesOf(outcome.consumed[..outcome.popped]), options.sampleOptions)
              && outcome.sample.NAccepted() == options.n
              && sampler.nrEvaluations
                 == (if outcome.popped > 0 then outcome.popped else old(sampler.nrEvaluations))
              && (outcome.popped > 0 ==>
                    sampler.nrEvaluations == NrEvaluationsAsWritten(outcome.consumed, outcome.popped) + 1)
  {
    var done, consumed, cancelled := Schedule(config, options, rounds);
    if !done {
      return Unfinished(consumed);
    }
    outcome := Conclude(sampler, options, consumed, cancelled);
  }
}
