/**
 When the three-digit campaign ids suffice, said before a run: every campaign
 takes at least two samples that had none, so up to 1999 distinct samples never
 exhaust them.
 */
module CampaignCapacity {
  import opened Common
  import opened Similarity
  import opened Campaigns
  import opened CampaignInvariants

  const SAFE_SAMPLES: nat := 1999

  /** Each campaign accounts for two mapped samples, and each mapped sample is in the corpus. */
  ghost predicate Spacious(m: Memory) {
    2 * (m.nextIndex - 1) <= |m.campOf.Keys| <= |m.corpus|
  }

  lemma {:induction false} SubsetSizes<T>(a: set<T>, b: set<T>)
    requires a <= b
    ensures |a| <= |b|
  {
    assert b == a + (b - a);
  }

  lemma {:induction false} ShasAtMostSamples(corpus: seq<Fingerprint>, shas: set<string>)
    requires forall sha | sha in shas :: InCorpus(corpus, sha)
    ensures |shas| <= |corpus|
    decreases |corpus|
  {
    if corpus == [] {
      assert shas == {};
    } else {
      var n := |corpus| - 1;
      var rest := shas - {corpus[n].sha};
      forall sha | sha in rest ensures InCorpus(corpus[..n], sha) {
        var i :| 0 <= i < |corpus| && corpus[i].sha == sha;
        assert corpus[..n][i].sha == sha;
      }
      ShasAtMostSamples(corpus[..n], rest);
      SubsetSizes(shas, rest + {corpus[n].sha});
    }
  }

  lemma MappedAtMostSamples(m: Memory)
    requires MemoryInv(m)
    ensures |m.campOf.Keys| <= |m.corpus|
  {
    ShasAtMostSamples(m.corpus, m.campOf.Keys);
  }

  /** A founding recruits some sample that had no campaign. */
  lemma SomeCofounder(e: Engine, soft: SoftSignals, m: Memory, s: Fingerprint) returns (x: string)
    requires UsesCalculator(e, soft)
    requires !InCorpus(m.corpus, s.sha) && Target(e, s, m.corpus, m.campOf).None?
    requires SeedsCampaign(SortDescending(RelatedTo(e, s, m.corpus, m.campOf)))
    ensures x in Founders([s.sha], SortDescending(RelatedTo(e, s, m.corpus, m.campOf)))
    ensures x != s.sha && x !in m.campOf && InCorpus(m.corpus, x)
  {
    var related := RelatedTo(e, s, m.corpus, m.campOf);
    var sorted := SortDescending(related);
    FoundersSpec([s.sha], sorted);
    var i: nat :| i < |sorted| && sorted[i].similarity >= SEED_THRESHOLD;
    x := sorted[i].sha;
    assert Seeds(sorted, x, i);
    SortKeepsMembers(related, sorted[i]);
    RelatedSpec(e, s, m.corpus, m.campOf, sorted[i]);
    CofounderFacts(e, soft, m, s, x);
  }

  /** A step that is refused finds at least 1999 samples in the corpus. */
  lemma RefusalNeedsManySamples(e: Engine, soft: SoftSignals, m: Memory, s: Fingerprint)
    requires UsesCalculator(e, soft)
    requires MemoryInv(m) && Spacious(m) && !InCorpus(m.corpus, s.sha) && OutOfIds(e, m, s)
    ensures |m.corpus| >= SAFE_SAMPLES
  {
    var x := SomeCofounder(e, soft, m, s);
    ShasAtMostSamples(m.corpus, m.campOf.Keys + {x});
  }

  lemma SpaciousStep(e: Engine, soft: SoftSignals, m: Memory, s: Fingerprint)
    requires UsesCalculator(e, soft)
    requires MemoryInv(m) && Spacious(m) && !InCorpus(m.corpus, s.sha) && !OutOfIds(e, m, s)
    ensures Spacious(MemoryStep(e, m, s).0)
  {
    hide MemoryStep, Founders, SortDescending, RelatedTo, Target, MemoryInv, WithAll, SeedsCampaign, Joined;
    var m' := MemoryStep(e, m, s).0;
    StepKeepsInvIffIdsLast(e, soft, m, s);
    MappedAtMostSamples(m');
    if Target(e, s, m.corpus, m.campOf).Some? {
      TargetIsStored(e, soft, m, s);
      StepIsJoin(e, m, s);
      SubsetSizes(m.campOf.Keys, m'.campOf.Keys);
    } else if SeedsCampaign(SortDescending(RelatedTo(e, s, m.corpus, m.campOf))) {
      StepIsFounding(e, m, s);
      var shas := Founders([s.sha], SortDescending(RelatedTo(e, s, m.corpus, m.campOf)));
      var x := SomeCofounder(e, soft, m, s);
      NewIsUnmapped(m, s);
      assert shas[0] == s.sha;
      FoundingMapsTwo(m, s, shas, x);
    } else {
      StepIsAlone(e, m, s);
    }
  }

  lemma FoundingMapsTwo(m: Memory, s: Fingerprint, shas: seq<string>, x: string)
    requires s.sha in shas && x in shas && x != s.sha && s.sha !in m.campOf && x !in m.campOf
    ensures |AfterFounding(m, s, shas).campOf.Keys| >= |m.campOf.Keys| + 2
  {
    var two := m.campOf.Keys + {s.sha, x};
    assert |two| == |m.campOf.Keys| + 2;
    SubsetSizes(two, AfterFounding(m, s, shas).campOf.Keys);
  }

  lemma NewIsUnmapped(m: Memory, s: Fingerprint)
    requires MemoryInv(m) && !InCorpus(m.corpus, s.sha)
    ensures s.sha !in m.campOf
  {
  }

  lemma {:induction false} SpaciousRun(e: Engine, soft: SoftSignals, samples: seq<Fingerprint>)
    requires UsesCalculator(e, soft)
    requires DistinctShas(samples) && Accepted(e, samples)
    ensures Spacious(MemoryRun(e, samples))
  {
    if samples != [] {
      var n := |samples| - 1;
      LastSampleIsNew(samples);
      SpaciousRun(e, soft, samples[..n]);
      RunInv(e, soft, samples[..n]);
      StepKeepsInvIffIdsLast(e, soft, MemoryRun(e, samples[..n]), samples[n]);
      SpaciousStep(e, soft, MemoryRun(e, samples[..n]), samples[n]);
    }
  }

  /**
   Up to 1999 distinct samples are all accepted, whatever they look like, so the
   results about accepted runs hold for every run of that length.
   */
  lemma {:induction false} ShortRunsAreAccepted(e: Engine, soft: SoftSignals, samples: seq<Fingerprint>)
    requires UsesCalculator(e, soft)
    requires DistinctShas(samples) && |samples| <= SAFE_SAMPLES
    ensures Accepted(e, samples)
  {
    if samples != [] {
      var n := |samples| - 1;
      LastSampleIsNew(samples);
      ShortRunsAreAccepted(e, soft, samples[..n]);
      RunInv(e, soft, samples[..n]);
      SpaciousRun(e, soft, samples[..n]);
      var m := MemoryRun(e, samples[..n]);
      StepKeepsInvIffIdsLast(e, soft, m, samples[n]);
      if OutOfIds(e, m, samples[n]) {
        RefusalNeedsManySamples(e, soft, m, samples[n]);
      }
    }
  }

  /* ---------- The bound is sharp ---------- */

  /** Different texts for the numbers of the run below. */
  ghost predicate Names(name: nat -> string) {
    forall i, j | 0 <= i < j <= SAFE_SAMPLES :: name(i) != name(j)
  }

  /** Sample `k` shares its signer and its Firebase project with one other sample, and nothing with the rest. */
  function PairedSample(name: nat -> string, k: nat): Fingerprint {
    Fingerprint(name(k), "", "", [name(k / 2)], [], [], [], [], [], [name(k / 2)], [], None)
  }

  function PairedSamples(name: nat -> string, n: nat): (r: seq<Fingerprint>)
    ensures |r| == n && forall k | 0 <= k < n :: r[k] == PairedSample(name, k)
  {
    if n == 0 then [] else PairedSamples(name, n - 1) + [PairedSample(name, n - 1)]
  }

  lemma PairsAreLinked(name: nat -> string, i: nat, k: nat)
    requires Names(name) && i < k <= SAFE_SAMPLES
    ensures var a, b := PairedSample(name, k), PairedSample(name, i);
            if i / 2 == k / 2 then Score(a, b) >= SEED_THRESHOLD else Score(a, b) == 0.0 && !HardLinked(a, b)
  {
    var a, b := PairedSample(name, k), PairedSample(name, i);
    if i / 2 == k / 2 {
      assert name(k / 2) in ToSet(a.signers) * ToSet(b.signers);
      assert name(k / 2) in ToSet(a.firebase) * ToSet(b.firebase);
    } else {
      assert name(i / 2) != name(k / 2);
      assert ToSet(a.signers) * ToSet(b.signers) == {} && ToSet(a.firebase) * ToSet(b.firebase) == {};
    }
    JaccardBounds(ToSet(a.dex), ToSet(b.dex));
    JaccardBounds(ToSet(a.behaviors), ToSet(b.behaviors));
    JaccardBounds(Infrastructure(a), Infrastructure(b));
  }

  lemma PairedAreDistinct(name: nat -> string, n: nat)
    requires Names(name) && n <= SAFE_SAMPLES + 1
    ensures DistinctShas(PairedSamples(name, n))
    ensures n <= SAFE_SAMPLES ==> !InCorpus(PairedSamples(name, n), name(n))
  {
  }

  /** After `n` samples every complete pair is a campaign, and nothing else is mapped. */
  ghost predicate PairsMapped(name: nat -> string, n: nat, m: Memory) {
    && m.corpus == PairedSamples(name, n) && m.nextIndex == n / 2 + 1
    && forall i: nat | i < n :: name(i) in m.campOf <==> i < n / 2 * 2
  }

  /** A sample finds no campaign, and someone to found one with exactly when it completes its pair. */
  lemma PairedLooks(e: Engine, soft: SoftSignals, name: nat -> string, n: nat, m: Memory)
    requires UsesCalculator(e, soft)
    requires Names(name) && n <= SAFE_SAMPLES && MemoryInv(m) && PairsMapped(name, n, m)
    ensures Target(e, PairedSample(name, n), m.corpus, m.campOf).None?
    ensures SeedsCampaign(SortDescending(RelatedTo(e, PairedSample(name, n), m.corpus, m.campOf))) <==> n % 2 == 1
  {
    hide HardLinked, Score, Target, SeedsCampaign, SortDescending, RelatedTo, MemoryInv;
    var s := PairedSample(name, n);
    forall i: nat | i < n
      ensures HardLinked(s, m.corpus[i]) ==> i / 2 == n / 2
      ensures Score(s, m.corpus[i]) >= SEED_THRESHOLD <==> i / 2 == n / 2
    {
      PairsAreLinked(name, i, n);
    }
    TargetSpec(e, soft, s, m.corpus, m.campOf);
    if SeedsCampaign(SortDescending(RelatedTo(e, s, m.corpus, m.campOf))) {
      SeedIsStrong(e, soft, m, s);
      var i: nat :| i < n && Attracts(m, s, i);
      assert i / 2 == n / 2;
    }
    if n % 2 == 1 {
      StrongSampleIsRelated(e, soft, s, m.corpus, m.campOf, n - 1);
    }
  }

  lemma PairCompleted(name: nat -> string, n: nat, m: Memory, founders: seq<string>)
    requires n % 2 == 1 && PairsMapped(name, n, m) && name(n - 1) in founders && name(n) in founders
    ensures PairsMapped(name, n + 1, AfterFounding(m, PairedSample(name, n), founders))
  {
    var m' := AfterFounding(m, PairedSample(name, n), founders);
    forall i: nat | i < n + 1 ensures name(i) in m'.campOf {
      assert i < n - 1 ==> name(i) in m.campOf;
    }
  }

  lemma LonerAdded(name: nat -> string, n: nat, m: Memory)
    requires n % 2 == 0 && PairsMapped(name, n, m) && name(n) !in m.campOf
    ensures PairsMapped(name, n + 1, m.(corpus := m.corpus + [PairedSample(name, n)]))
  {
  }

  lemma PairedStep(e: Engine, soft: SoftSignals, name: nat -> string, n: nat, m: Memory)
    requires UsesCalculator(e, soft)
    requires Names(name) && n < SAFE_SAMPLES && MemoryInv(m) && PairsMapped(name, n, m)
    ensures PairsMapped(name, n + 1, MemoryStep(e, m, PairedSample(name, n)).0)
  {
    hide HardLinked, Score, Target, SeedsCampaign, SortDescending, RelatedTo, MemoryInv, MemoryStep, Founders,
         AfterFounding;
    var s := PairedSample(name, n);
    PairedAreDistinct(name, n);
    PairedLooks(e, soft, name, n, m);
    NewIsUnmapped(m, s);
    if n % 2 == 0 {
      StepIsAlone(e, m, s);
      LonerAdded(name, n, m);
    } else {
      StepIsFounding(e, m, s);
      PairIsFounder(e, soft, name, n, m);
      PairCompleted(name, n, m, Founders([s.sha], SortDescending(RelatedTo(e, s, m.corpus, m.campOf))));
    }
  }

  lemma PairIsFounder(e: Engine, soft: SoftSignals, name: nat -> string, n: nat, m: Memory)
    requires UsesCalculator(e, soft)
    requires Names(name) && n < SAFE_SAMPLES && n % 2 == 1 && MemoryInv(m) && PairsMapped(name, n, m)
    ensures var s := PairedSample(name, n);
            var founders := Founders([s.sha], SortDescending(RelatedTo(e, s, m.corpus, m.campOf)));
            name(n - 1) in founders && name(n) in founders
  {
    hide HardLinked, Score, Target, SortDescending, RelatedTo;
    var s := PairedSample(name, n);
    PairedAreDistinct(name, n);
    PairedLooks(e, soft, name, n, m);
    var x := SomeCofounder(e, soft, m, s);
    var i: nat :| i < n && m.corpus[i].sha == x;
    assert i == n - 1;
  }

  lemma {:induction false} PairedRun(e: Engine, soft: SoftSignals, name: nat -> string, n: nat)
    requires UsesCalculator(e, soft)
    requires Names(name) && n <= SAFE_SAMPLES
    ensures MemoryInv(MemoryRun(e, PairedSamples(name, n)))
    ensures PairsMapped(name, n, MemoryRun(e, PairedSamples(name, n)))
  {
    hide MemoryStep, MemoryInv;
    var samples := PairedSamples(name, n);
    PairedAreDistinct(name, n);
    ShortRunsAreAccepted(e, soft, samples);
    RunInv(e, soft, samples);
    if n > 0 {
      assert samples[..n - 1] == PairedSamples(name, n - 1);
      PairedRun(e, soft, name, n - 1);
      PairedStep(e, soft, name, n - 1, MemoryRun(e, samples[..n - 1]));
    }
  }

  /**
   2000 distinct samples can be too many: 999 pairs, a loner, and a sample
   linked to the loner, which is refused.
   */
  lemma CapacityIsSharp(e: Engine, soft: SoftSignals, name: nat -> string)
    requires UsesCalculator(e, soft) && Names(name)
    ensures var samples := PairedSamples(name, SAFE_SAMPLES + 1);
            && DistinctShas(samples) && Accepted(e, samples[..SAFE_SAMPLES])
            && MemoryStep(e, MemoryRun(e, samples[..SAFE_SAMPLES]), samples[SAFE_SAMPLES]).1.InvalidCampaignId?
            && !Accepted(e, samples)
  {
    hide MemoryStep, MemoryInv;
    var samples, n := PairedSamples(name, SAFE_SAMPLES + 1), SAFE_SAMPLES;
    assert samples[..n] == PairedSamples(name, n);
    PairedAreDistinct(name, n);
    PairedAreDistinct(name, n + 1);
    ShortRunsAreAccepted(e, soft, samples[..n]);
    PairedRun(e, soft, name, n);
    var m := MemoryRun(e, samples[..n]);
    PairedLooks(e, soft, name, n, m);
    StepKeepsInvIffIdsLast(e, soft, m, samples[n]);
  }
}
