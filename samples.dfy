/** The Sample accumulator, its factory and the state every sampler starts
    with (pyabc/sampler/base.py), plus the per-round options record that the
    concrete samplers consume. */
module Samples {

  /** Summary statistics of one evaluation, kept abstract. */
  type SumStats = seq<int>

  /** One evaluated parameter point: only its acceptance flag and its summary
      statistics are looked at by the samplers. */
  datatype Particle = Particle(accepted: bool, sumStats: SumStats)

  /** A parameter vector drawn by `sampleOne`, kept abstract. */
  type Parameter = seq<int>

  /** Per-round options. `sampleOne(k)` is the k-th draw of the (random)
      parameter-draw function, `simulEvalOne` the evaluate-and-accept function
      and `sampleOptions` the record-rejected flag passed to new Samples. */
  datatype SamplerOptions = SamplerOptions(
    n: nat,
    sampleOne: nat -> Parameter,
    simulEvalOne: Parameter -> Particle,
    sampleOptions: bool)

  /** The smaller of two counts, as the samplers' `min` and `np.minimum`. */
  function Min(a: nat, b: nat): (r: nat)
    ensures r <= a && r <= b
    ensures r == a || r == b
  {
    if a <= b then a else b
  }

  /** The accepted particles of `ps`, in their original order. */
  function AcceptedOf(ps: seq<Particle>): (r: seq<Particle>)
    ensures |r| <= |ps|
    ensures forall i :: 0 <= i < |r| ==> r[i].accepted
  {
    if ps == [] then []
    else (if ps[0].accepted then [ps[0]] else []) + AcceptedOf(ps[1..])
  }

  /** The filter keeps exactly the accepted particles. */
  lemma {:induction false} AcceptedOfMembers(ps: seq<Particle>)
    ensures forall p :: p in AcceptedOf(ps) <==> p in ps && p.accepted
  {
    if ps != [] {
      AcceptedOfMembers(ps[1..]);
      assert ps == [ps[0]] + ps[1..];
    }
  }

  /** The number of accepted particles of `ps`. */
  function CountAccepted(ps: seq<Particle>): nat
  {
    |AcceptedOf(ps)|
  }

  /** The summary statistics of `ps`, one entry per particle. */
  function SumStatsOf(ps: seq<Particle>): (r: seq<SumStats>)
    ensures |r| == |ps|
    ensures forall i :: 0 <= i < |ps| ==> r[i] == ps[i].sumStats
  {
    if ps == [] then [] else [ps[0].sumStats] + SumStatsOf(ps[1..])
  }

  /** What a Sample keeps of the particles appended to it: everything when
      rejected statistics are recorded, the accepted ones otherwise. */
  function Retained(ps: seq<Particle>, record: bool): seq<Particle>
  {
    if record then ps else AcceptedOf(ps)
  }

  /** Filtering distributes over concatenation: the filter keeps order. */
  lemma {:induction false} AcceptedOfConcat(a: seq<Particle>, b: seq<Particle>)
    ensures AcceptedOf(a + b) == AcceptedOf(a) + AcceptedOf(b)
  {
    if a == [] {
      assert a + b == b;
    } else {
      assert (a + b)[1..] == a[1..] + b;
      AcceptedOfConcat(a[1..], b);
    }
  }

  lemma CountAcceptedConcat(a: seq<Particle>, b: seq<Particle>)
    ensures CountAccepted(a + b) == CountAccepted(a) + CountAccepted(b)
  {
    AcceptedOfConcat(a, b);
  }

  /** An accepted particle is appended at the end of the filter. */
  lemma AcceptedOfSnoc(ps: seq<Particle>, p: Particle)
    ensures AcceptedOf(ps + [p]) == AcceptedOf(ps) + (if p.accepted then [p] else [])
  {
    AcceptedOfConcat(ps, [p]);
    assert AcceptedOf([p]) == (if p.accepted then [p] else []) + AcceptedOf([]);
  }

  /** A particle list made only of accepted particles is its own filter. */
  lemma {:induction false} AcceptedOfAllAccepted(ps: seq<Particle>)
    requires forall i :: 0 <= i < |ps| ==> ps[i].accepted
    ensures AcceptedOf(ps) == ps
  {
    if ps != [] {
      AcceptedOfAllAccepted(ps[1..]);
    }
  }

  /** Appending to the retained list keeps the retained view consistent with
      appending to the list of everything produced. */
  lemma RetainedSnoc(ps: seq<Particle>, p: Particle, record: bool)
    ensures Retained(ps + [p], record)
         == Retained(ps, record) + (if p.accepted || record then [p] else [])
  {
    AcceptedOfSnoc(ps, p);
  }

  /** The accepted particles of what a Sample retained are the accepted
      particles of everything appended. */
  lemma AcceptedOfRetained(ps: seq<Particle>, record: bool)
    ensures AcceptedOf(Retained(ps, record)) == AcceptedOf(ps)
  {
    if !record {
      AcceptedOfAllAccepted(AcceptedOf(ps));
    }
  }

  /** Sample: a list of particles, appended to one at a time. */
  class Sample {
    var particles: seq<Particle>
    var recordAllSumStats: bool

    constructor (recordAllSumStats: bool)
      ensures this.particles == []
      ensures this.recordAllSumStats == recordAllSumStats
      ensures NAccepted() == 0
    {
      particles := [];
      this.recordAllSumStats := recordAllSumStats;
    }

    /** One summary-statistics entry per stored particle, in order. */
    function AllSumStats(): (r: seq<SumStats>)
      reads this
      ensures |r| == |particles|
      ensures forall i :: 0 <= i < |particles| ==> r[i] == particles[i].sumStats
    {
      SumStatsOf(particles)
    }

    /** The stored particles whose `accepted` flag is set, in order. */
    function AcceptedParticles(): (r: seq<Particle>)
      reads this
      ensures forall i :: 0 <= i < |r| ==> r[i].accepted
      ensures forall p :: p in r <==> p in particles && p.accepted
    {
      AcceptedOfMembers(particles);
      AcceptedOf(particles)
    }

    function NAccepted(): (r: nat)
      reads this
      ensures r <= |particles|
    {
      |AcceptedParticles()|
    }

    /** Stores `p` when it is accepted or when rejected statistics are
        recorded; otherwise leaves the sample as it was. */
    method Append(p: Particle)
      modifies this
      ensures recordAllSumStats == old(recordAllSumStats)
      ensures particles == if p.accepted || recordAllSumStats
                           then old(particles) + [p] else old(particles)
    {
      if p.accepted || recordAllSumStats {
        particles := particles + [p];
      }
    }

    /** `this + other`: a new sample with the flag of `this` holding the
        particles of `this` followed by those of `other`; neither operand
        changes (the method modifies nothing). */
    method Add(other: Sample) returns (sample: Sample)
      ensures fresh(sample)
      ensures sample.recordAllSumStats == recordAllSumStats
      ensures sample.particles == particles + other.particles
      ensures sample.NAccepted() == NAccepted() + other.NAccepted()
    {
      sample := new Sample(recordAllSumStats);
      sample.particles := particles + other.particles;
      CountAcceptedConcat(particles, other.particles);
    }
  }

  /** Creates empty samples carrying its `recordAllSumStats` flag. */
  class SampleFactory {
    var recordAllSumStats: bool

    constructor (recordAllSumStats: bool)
      ensures this.recordAllSumStats == recordAllSumStats
    {
      this.recordAllSumStats := recordAllSumStats;
    }

    method Call() returns (sample: Sample)
      ensures fresh(sample)
      ensures sample.particles == [] && sample.NAccepted() == 0
      ensures sample.recordAllSumStats == recordAllSumStats
    {
      sample := new Sample(recordAllSumStats);
    }
  }

  /** The state shared by every sampler: the evaluation counter of the last
      round and the factory of empty samples. */
  class Sampler {
    var nrEvaluations: int
    var sampleFactory: SampleFactory

    constructor ()
      ensures nrEvaluations == 0
      ensures fresh(sampleFactory)
      ensures !sampleFactory.recordAllSumStats
    {
      nrEvaluations := 0;
      sampleFactory := new SampleFactory(false);
    }

    method CreateEmptySample() returns (sample: Sample)
      ensures fresh(sample)
      ensures sample.particles == []
      ensures sample.recordAllSumStats == sampleFactory.recordAllSumStats
    {
      sample := sampleFactory.Call();
    }
  }
}
