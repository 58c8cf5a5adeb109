/**
 The campaign theorems for the tables, on every run of distinct samples. A
 refused sample leaves no trace there, so the tables hold what the dictionaries
 hold after the run without its refused samples.
 */
module CampaignTables {
  import opened Common
  import opened Similarity
  import opened Campaigns
  import opened CampaignInvariants
  import opened CampaignRefinement

  /** The samples of a run that are not refused when the refused ones are left out before them. */
  function AcceptedPart(e: Engine, samples: seq<Fingerprint>): seq<Fingerprint> {
    if samples == [] then []
    else
      var n := |samples| - 1;
      var before := AcceptedPart(e, samples[..n]);
      if MemoryStep(e, MemoryRun(e, before), samples[n]).1.Correlated? then before + [samples[n]] else before
  }

  lemma {:induction false} PartOfRun(e: Engine, samples: seq<Fingerprint>)
    ensures forall x | x in AcceptedPart(e, samples) :: x in samples
    ensures Accepted(e, AcceptedPart(e, samples))
  {
    hide MemoryStep;
    if samples != [] {
      var n := |samples| - 1;
      var before := AcceptedPart(e, samples[..n]);
      PartOfRun(e, samples[..n]);
      assert (before + [samples[n]])[..|before|] == before;
    }
  }

  lemma PartIsNew(e: Engine, samples: seq<Fingerprint>, part: seq<Fingerprint>, s: Fingerprint)
    requires !InCorpus(samples, s.sha) && forall x | x in part :: x in samples
    ensures !InCorpus(part, s.sha)
  {
    forall i | 0 <= i < |part| ensures part[i].sha != s.sha {
      assert part[i] in samples;
    }
  }

  /** The tables after a run are the tables, and the dictionaries, after its accepted part. */
  lemma {:induction false} RefusedSamplesLeaveNoTrace(e: Engine, soft: SoftSignals, pick: Picker,
                                                      samples: seq<Fingerprint>)
    requires UsesCalculator(e, soft) && Picks(pick)
    requires DistinctShas(samples)
    ensures DistinctShas(AcceptedPart(e, samples))
    ensures Same(MemoryRun(e, AcceptedPart(e, samples)), StoreRun(e, pick, samples))
    ensures StoreRun(e, pick, samples) == StoreRun(e, pick, AcceptedPart(e, samples))
  {
    hide MemoryStep, StoreStep, MemoryInv, OutOfIds, Same;
    if samples == [] {
      EmptyIsSame();
    } else {
      var n := |samples| - 1;
      var s, before := samples[n], AcceptedPart(e, samples[..n]);
      LastSampleIsNew(samples);
      RefusedSamplesLeaveNoTrace(e, soft, pick, samples[..n]);
      PartOfRun(e, samples[..n]);
      PartIsNew(e, samples[..n], before, s);
      RunInv(e, soft, before);
      var m := MemoryRun(e, before);
      StepKeepsInvIffIdsLast(e, soft, m, s);
      StepsAgree(e, soft, pick, m, StoreRun(e, pick, samples[..n]), s);
      DistinctShasGrow(before, s);
      assert (before + [s])[..|before|] == before;
    }
  }

  lemma EmptyIsSame()
    ensures Same(EMPTY_MEMORY, EMPTY_STORE)
  {
  }

  /** A path of hard links between stored members of a campaign. */
  ghost predicate StoredPath(d: Store, c: nat, p: seq<string>) {
    && p != []
    && (forall i | 0 <= i < |p| :: (c, p[i]) in d.members)
    && forall i: nat | i + 1 < |p| :: LinkedIn(d.rows, p[i], p[i + 1])
  }

  ghost predicate StoredConnected(d: Store, c: nat, a: string, b: string) {
    exists p :: StoredPath(d, c, p) && p[0] == a && p[|p| - 1] == b
  }

  /** In the tables, too, any two members of a campaign are joined by a chain of hard links inside it. */
  lemma StoredCampaignsAreConnected(e: Engine, soft: SoftSignals, pick: Picker, samples: seq<Fingerprint>,
                                    c: nat, a: string, b: string)
    requires UsesCalculator(e, soft) && Picks(pick) && DistinctShas(samples)
    requires (c, a) in StoreRun(e, pick, samples).members && (c, b) in StoreRun(e, pick, samples).members
    ensures StoredConnected(StoreRun(e, pick, samples), c, a, b)
  {
    var part, d := AcceptedPart(e, samples), StoreRun(e, pick, samples);
    PartOfRun(e, samples);
    RefusedSamplesLeaveNoTrace(e, soft, pick, samples);
    var m := MemoryRun(e, part);
    RunInv(e, soft, part);
    assert IsMember(m, c, a) && IsMember(m, c, b);
    CampaignsAreConnected(e, soft, part, c, a, b);
    var members := m.campaigns[c].members;
    var p :| Path(part, members, p) && p[0] == a && p[|p| - 1] == b;
    forall i | 0 <= i < |p| ensures (c, p[i]) in d.members {
      assert IsMember(m, c, p[i]);
    }
    assert StoredPath(d, c, p);
  }

  /** Some order of the stored members explains the stored aggregates. */
  ghost predicate StoredAggregates(d: Store, c: nat)
    requires c in d.campaigns
  {
    exists members :: NoDuplicates(members) && ToSet(members) == MembersOf(d.members, c)
                      && Aggregated(d.rows, Campaign(d.campaigns[c], members))
  }

  /**
   And the memberships partition the stored samples: each belongs to a campaign
   row and a stored sample, no sample has two, and the aggregates are exact.
   */
  lemma StoredPartition(e: Engine, soft: SoftSignals, pick: Picker, samples: seq<Fingerprint>)
    requires UsesCalculator(e, soft) && Picks(pick) && DistinctShas(samples)
    ensures var d := StoreRun(e, pick, samples);
            && (forall c: nat, sha | (c, sha) in d.members :: c in d.campaigns && InCorpus(d.rows, sha))
            && (forall b: nat, c: nat, sha | (b, sha) in d.members && (c, sha) in d.members :: b == c)
            && (forall c | c in d.campaigns :: d.campaigns[c].index == c && StoredAggregates(d, c))
  {
    var part, d := AcceptedPart(e, samples), StoreRun(e, pick, samples);
    PartOfRun(e, samples);
    RefusedSamplesLeaveNoTrace(e, soft, pick, samples);
    RunInv(e, soft, part);
    Partition(e, soft, part);
    var m := MemoryRun(e, part);
    forall c: nat, sha | (c, sha) in d.members
      ensures c in d.campaigns && InCorpus(d.rows, sha) && Get(m.campOf, sha) == Some(c)
    {
      assert IsMember(m, c, sha);
    }
    forall c | c in d.campaigns ensures d.campaigns[c].index == c && StoredAggregates(d, c) {
      assert CampaignInv(m.corpus, m.campOf, c, m.campaigns[c]);
      MembersAre(m, d, c);
      var members := m.campaigns[c].members;
      assert m.campaigns[c] == Campaign(d.campaigns[c], members);
    }
  }
}
