/**
 The database-backed correlator and the in-memory one agree: on every run of
 distinct samples they answer the same campaign id, row, member set and ordered
 related samples, and hold the same campaigns afterwards.
 */
module CampaignRefinement {
  import opened Common
  import opened Similarity
  import opened Campaigns
  import opened CampaignInvariants
  import opened Correlator

  ghost predicate IsMember(m: Memory, c: nat, sha: string) {
    c in m.campaigns && sha in m.campaigns[c].members
  }

  ghost predicate Same(m: Memory, d: Store) {
    && d.rows == m.corpus
    && d.campaigns.Keys == m.campaigns.Keys
    && (forall c | c in m.campaigns :: d.campaigns[c] == m.campaigns[c].row)
    && (forall c: nat, sha :: (c, sha) in d.members <==> IsMember(m, c, sha))
  }

  ghost predicate SameCampaign(c: Option<Campaign>, c': Option<StoredCampaign>) {
    && (c.Some? <==> c'.Some?)
    && (c.Some? ==> c.value.row == c'.value.row && ToSet(c.value.members) == c'.value.members)
  }

  ghost predicate SameOutcome(o: Outcome, o': StoreOutcome) {
    match o
    case Correlated(c, related) => o'.StoreCorrelated? && SameCampaign(c, o'.campaign) && related == o'.related
    case InvalidCampaignId => o'.StoreInvalidId?
  }

  /* ---------- What a step looks up ---------- */

  lemma SameLookup(pick: Picker, m: Memory, d: Store, sha: string)
    requires Picks(pick) && MemoryInv(m) && Same(m, d)
    ensures CampaignOf(pick, d, sha) == Get(m.campOf, sha)
  {
    var ids := CampaignsHolding(d.members, sha);
    if sha in m.campOf {
      assert IsMember(m, m.campOf[sha], sha);
      assert m.campOf[sha] in ids;
    }
    if ids != {} {
      var c := pick(ids);
      assert c in ids && (c, sha) in d.members;
      assert IsMember(m, c, sha);
      assert CampaignInv(m.corpus, m.campOf, c, m.campaigns[c]);
    }
  }

  lemma SameMap(pick: Picker, m: Memory, d: Store)
    requires Picks(pick) && MemoryInv(m) && Same(m, d)
    ensures CampaignMap(pick, d) == m.campOf
  {
    forall sha ensures Get(CampaignMap(pick, d), sha) == Get(m.campOf, sha) {
      CampaignMapIsCampaignOf(pick, d, sha);
      SameLookup(pick, m, d, sha);
    }
    assert forall sha :: sha in CampaignMap(pick, d) <==> Get(CampaignMap(pick, d), sha).Some?;
    assert forall sha :: sha in m.campOf <==> Get(m.campOf, sha).Some?;
  }

  lemma {:induction false} OthersOfNew(corpus: seq<Fingerprint>, sha: string)
    requires !InCorpus(corpus, sha)
    ensures Others(corpus, sha) == corpus
  {
    if corpus != [] {
      forall i | 0 <= i < |corpus[1..]| ensures corpus[1..][i].sha != sha {
        assert corpus[1..][i] == corpus[i + 1];
      }
      OthersOfNew(corpus[1..], sha);
    }
  }

  lemma SameCorpus(m: Memory, d: Store, s: Fingerprint)
    requires Same(m, d) && !InCorpus(m.corpus, s.sha)
    ensures Upsert(d.rows, s) == m.corpus + [s]
    ensures Others(Upsert(d.rows, s), s.sha) == m.corpus
  {
    UpsertNew(m.corpus, s);
    OthersOfNew(m.corpus, s.sha);
    OthersAppend(m.corpus, s, s.sha);
  }

  lemma SameNextIndex(m: Memory, d: Store)
    requires MemoryInv(m) && Same(m, d)
    ensures NextIndex(d.campaigns.Keys) == m.nextIndex
  {
    assert forall c: nat :: c in d.campaigns.Keys <==> c in m.campaigns;
    NextIndexIsUnique(d.campaigns.Keys, m.nextIndex);
  }

  /* ---------- The related samples ---------- */

  /** Every entry names a corpus sample other than the new one, with the campaign the map holds for it. */
  ghost predicate Reported(m: Memory, s: Fingerprint, r: Related) {
    r.sha != s.sha && r.campaign == Get(m.campOf, r.sha)
  }

  lemma RelatedAreReported(e: Engine, m: Memory, s: Fingerprint)
    ensures forall r | r in SortDescending(RelatedTo(e, s, m.corpus, m.campOf)) :: Reported(m, s, r)
  {
    var related := RelatedTo(e, s, m.corpus, m.campOf);
    forall r | r in SortDescending(related) ensures Reported(m, s, r) {
      SortKeepsMembers(related, r);
      RelatedSpec(e, s, m.corpus, m.campOf, r);
    }
  }

  /**
   Filling in unknown campaign ids, as the dictionaries do, and claiming the
   members of the assigned campaign, as the tables do, give the same list when
   the campaign's other members were either already mapped to it or to nothing.
   */
  lemma FillIsClaim(m: Memory, s: Fingerprint, rs: seq<Related>, campOf: map<string, nat>, members: set<string>, c: nat)
    requires forall r | r in rs :: Reported(m, s, r)
    requires forall x | x != s.sha && x in members :: Get(m.campOf, x) in {None, Some(c)} && Get(campOf, x) == Some(c)
    requires forall x | x != s.sha && x !in members :: Get(campOf, x) == Get(m.campOf, x)
    ensures FillCampaign(rs, campOf) == Assign(rs, members, c)
  {
    FillIsPointwise(rs, campOf);
    AssignIsPointwise(rs, members, c);
    forall i | 0 <= i < |rs| ensures FillCampaign(rs, campOf)[i] == Assign(rs, members, c)[i] {
      assert Reported(m, s, rs[i]);
    }
  }

  lemma {:induction false} FillChangesNothing(m: Memory, s: Fingerprint, rs: seq<Related>)
    requires forall r | r in rs :: Reported(m, s, r)
    ensures FillCampaign(rs, m.campOf) == rs
  {
    FillIsPointwise(rs, m.campOf);
    forall i | 0 <= i < |rs| ensures FillCampaign(rs, m.campOf)[i] == rs[i] {
      assert Reported(m, s, rs[i]);
    }
  }

  /* ---------- The three kinds of step ---------- */

  lemma MembersAre(m: Memory, d: Store, t: nat)
    requires Same(m, d) && t in m.campaigns
    ensures MembersOf(d.members, t) == ToSet(m.campaigns[t].members)
  {
    forall sha ensures sha in MembersOf(d.members, t) <==> sha in m.campaigns[t].members {
      assert (t, sha) in d.members <==> IsMember(m, t, sha);
    }
  }

  lemma JoinAgrees(e: Engine, soft: SoftSignals, pick: Picker, m: Memory, d: Store, s: Fingerprint)
    requires UsesCalculator(e, soft) && Picks(pick)
    requires MemoryInv(m) && Same(m, d) && !InCorpus(m.corpus, s.sha)
    requires Target(e, s, m.corpus, m.campOf).Some?
    ensures SameOutcome(MemoryStep(e, m, s).1, StoreStep(e, pick, d, s).1)
    ensures Same(MemoryStep(e, m, s).0, StoreStep(e, pick, d, s).0)
  {
    hide SortDescending, RelatedTo, Target, Enriched, FillCampaign, Assign, Upsert, Others, CampaignMap, CampaignOf,
         Founders, MembersOf, NextIndex, CampaignInv, WithAll;
    var t := Target(e, s, m.corpus, m.campOf).value;
    var sorted := SortDescending(RelatedTo(e, s, m.corpus, m.campOf));
    SameMap(pick, m, d);
    SameCorpus(m, d, s);
    TargetIsStored(e, soft, m, s);
    StepIsJoin(e, m, s);
    RelatedAreReported(e, m, s);
    MembersAre(m, d, t);
    NewIsNoMember(m, s, t);
    var members := ToSet(m.campaigns[t].members) + {s.sha};
    MembersAreMapped(m, t);
    FillIsClaim(m, s, sorted, m.campOf[s.sha := t], members, t);
    assert ToSet(Joined(m.campaigns[t], s).members) == members;
    JoinedStoresAgree(m, d, s, t);
  }

  lemma MembersAreMapped(m: Memory, t: nat)
    requires MemoryInv(m) && t in m.campaigns
    ensures forall sha :: sha in m.campaigns[t].members <==> Get(m.campOf, sha) == Some(t)
  {
    assert CampaignInv(m.corpus, m.campOf, t, m.campaigns[t]);
  }

  lemma NewIsNoMember(m: Memory, s: Fingerprint, t: nat)
    requires MemoryInv(m) && !InCorpus(m.corpus, s.sha) && t in m.campaigns
    ensures s.sha !in m.campaigns[t].members && s.sha !in m.campOf
  {
    assert CampaignInv(m.corpus, m.campOf, t, m.campaigns[t]);
  }

  lemma JoinedStoresAgree(m: Memory, d: Store, s: Fingerprint, t: nat)
    requires Same(m, d) && t in m.campaigns && s.sha !in m.campaigns[t].members
    ensures Same(AfterJoin(m, s, t),
                 Store(m.corpus + [s], d.campaigns[t := Enriched(d.campaigns[t], s)], d.members + {(t, s.sha)}))
  {
    var m', members := AfterJoin(m, s, t), d.members + {(t, s.sha)};
    forall c: nat, sha ensures (c, sha) in members <==> IsMember(m', c, sha) {
      assert (c, sha) in d.members <==> IsMember(m, c, sha);
    }
  }

  lemma FoundingAgrees(e: Engine, soft: SoftSignals, pick: Picker, m: Memory, d: Store, s: Fingerprint)
    requires UsesCalculator(e, soft) && Picks(pick)
    requires MemoryInv(m) && Same(m, d) && !InCorpus(m.corpus, s.sha) && m.nextIndex <= MAX_INDEX
    requires Target(e, s, m.corpus, m.campOf).None?
    requires SeedsCampaign(SortDescending(RelatedTo(e, s, m.corpus, m.campOf)))
    ensures SameOutcome(MemoryStep(e, m, s).1, StoreStep(e, pick, d, s).1)
    ensures Same(MemoryStep(e, m, s).0, StoreStep(e, pick, d, s).0)
  {
    hide SortDescending, RelatedTo, Target, FillCampaign, Assign, Upsert, Others, CampaignMap, CampaignOf,
         Founders, MembersOf, NextIndex, CampaignInv;
    var sorted := SortDescending(RelatedTo(e, s, m.corpus, m.campOf));
    var shas := Founders([s.sha], sorted);
    SameMap(pick, m, d);
    SameCorpus(m, d, s);
    SameNextIndex(m, d);
    SameLookup(pick, m, d, s.sha);
    StepIsFounding(e, m, s);
    RelatedAreReported(e, m, s);
    forall x | x in shas && x != s.sha ensures x !in m.campOf {
      CofounderFacts(e, soft, m, s, x);
    }
    FillIsClaim(m, s, sorted, WithAll(m.campOf, shas, m.nextIndex), ToSet(shas), m.nextIndex);
    FoundedStoresAgree(m, d, s, shas);
  }

  lemma FoundedStoresAgree(m: Memory, d: Store, s: Fingerprint, shas: seq<string>)
    requires MemoryInv(m) && Same(m, d)
    ensures Same(AfterFounding(m, s, shas),
                 Store(m.corpus + [s], d.campaigns[m.nextIndex := FoundedRow(m.nextIndex, s)],
                       d.members + (set sha | sha in ToSet(shas) :: (m.nextIndex, sha))))
  {
    var m' := AfterFounding(m, s, shas);
    var members := d.members + (set sha | sha in ToSet(shas) :: (m.nextIndex, sha));
    forall c: nat, sha ensures (c, sha) in members <==> IsMember(m', c, sha) {
      assert (c, sha) in d.members <==> IsMember(m, c, sha);
    }
  }

  lemma StandingAloneAgrees(e: Engine, soft: SoftSignals, pick: Picker, m: Memory, d: Store, s: Fingerprint)
    requires UsesCalculator(e, soft) && Picks(pick)
    requires MemoryInv(m) && Same(m, d) && !InCorpus(m.corpus, s.sha)
    requires Target(e, s, m.corpus, m.campOf).None?
    requires !SeedsCampaign(SortDescending(RelatedTo(e, s, m.corpus, m.campOf)))
    ensures SameOutcome(MemoryStep(e, m, s).1, StoreStep(e, pick, d, s).1)
    ensures Same(MemoryStep(e, m, s).0, StoreStep(e, pick, d, s).0)
  {
    var sorted := SortDescending(RelatedTo(e, s, m.corpus, m.campOf));
    SameMap(pick, m, d);
    SameCorpus(m, d, s);
    SameLookup(pick, m, d, s.sha);
    StepIsAlone(e, m, s);
    RelatedAreReported(e, m, s);
    FillChangesNothing(m, s, sorted);
    forall c: nat, sha ensures IsMember(m, c, sha) <==> IsMember(m.(corpus := m.corpus + [s]), c, sha) {
    }
  }

  lemma RefusalAgrees(e: Engine, soft: SoftSignals, pick: Picker, m: Memory, d: Store, s: Fingerprint)
    requires UsesCalculator(e, soft) && Picks(pick)
    requires MemoryInv(m) && Same(m, d) && !InCorpus(m.corpus, s.sha) && OutOfIds(e, m, s)
    ensures SameOutcome(MemoryStep(e, m, s).1, StoreStep(e, pick, d, s).1)
    ensures StoreStep(e, pick, d, s).0 == d
  {
    SameMap(pick, m, d);
    SameCorpus(m, d, s);
    SameNextIndex(m, d);
    SameLookup(pick, m, d, s.sha);
  }

  /**
   One step on a new sample: equal answers always, and equal states unless the
   campaign ids have run out. In that case the transaction is undone while the
   dictionaries keep the half-done founding.
   */
  lemma StepsAgree(e: Engine, soft: SoftSignals, pick: Picker, m: Memory, d: Store, s: Fingerprint)
    requires UsesCalculator(e, soft) && Picks(pick)
    requires MemoryInv(m) && Same(m, d) && !InCorpus(m.corpus, s.sha)
    ensures SameOutcome(MemoryStep(e, m, s).1, StoreStep(e, pick, d, s).1)
    ensures Same(MemoryStep(e, m, s).0, StoreStep(e, pick, d, s).0) || OutOfIds(e, m, s)
    ensures OutOfIds(e, m, s) ==> StoreStep(e, pick, d, s).0 == d && !MapAgrees(MemoryStep(e, m, s).0)
  {
    if Target(e, s, m.corpus, m.campOf).Some? {
      JoinAgrees(e, soft, pick, m, d, s);
    } else if OutOfIds(e, m, s) {
      RefusalAgrees(e, soft, pick, m, d, s);
      OverflowLeavesDanglingSample(e, m, s);
    } else if SeedsCampaign(SortDescending(RelatedTo(e, s, m.corpus, m.campOf))) {
      FoundingAgrees(e, soft, pick, m, d, s);
    } else {
      StandingAloneAgrees(e, soft, pick, m, d, s);
    }
  }

  /** After any accepted run of distinct samples the tables hold what the dictionaries hold. */
  lemma {:induction false} RunsAgree(e: Engine, soft: SoftSignals, pick: Picker, samples: seq<Fingerprint>)
    requires UsesCalculator(e, soft) && Picks(pick)
    requires DistinctShas(samples) && Accepted(e, samples)
    ensures Same(MemoryRun(e, samples), StoreRun(e, pick, samples))
  {
    if samples != [] {
      var n := |samples| - 1;
      LastSampleIsNew(samples);
      RunsAgree(e, soft, pick, samples[..n]);
      RunInv(e, soft, samples[..n]);
      StepKeepsInvIffIdsLast(e, soft, MemoryRun(e, samples[..n]), samples[n]);
      StepsAgree(e, soft, pick, MemoryRun(e, samples[..n]), StoreRun(e, pick, samples[..n]), samples[n]);
    }
  }

  /** Every answer of a run of distinct samples is the same on both paths, a first refusal included. */
  lemma AnswersAgree(e: Engine, soft: SoftSignals, pick: Picker, samples: seq<Fingerprint>, s: Fingerprint)
    requires UsesCalculator(e, soft) && Picks(pick)
    requires DistinctShas(samples) && Accepted(e, samples) && !InCorpus(samples, s.sha)
    ensures SameOutcome(MemoryStep(e, MemoryRun(e, samples), s).1, StoreStep(e, pick, StoreRun(e, pick, samples), s).1)
  {
    RunInv(e, soft, samples);
    RunsAgree(e, soft, pick, samples);
    StepsAgree(e, soft, pick, MemoryRun(e, samples), StoreRun(e, pick, samples), s);
  }

  /* ---------- Resubmission, where the two paths part ---------- */

  lemma {:induction false} OthersBeforeLast(corpus: seq<Fingerprint>, sha: string)
    requires corpus != []
    ensures var n := |corpus| - 1;
            Others(corpus, sha) == Others(corpus[..n], sha) + if corpus[n].sha == sha then [] else [corpus[n]]
  {
    var n := |corpus| - 1;
    OthersAppend(corpus[..n], corpus[n], sha);
    assert corpus[..n] + [corpus[n]] == corpus;
  }

  /** The scan never looks at the sample's own earlier row. */
  lemma {:induction false} ScanSkipsOwnRow(e: Engine, s: Fingerprint, corpus: seq<Fingerprint>,
                                           campOf: map<string, nat>)
    ensures RelatedTo(e, s, Others(corpus, s.sha), campOf) == RelatedTo(e, s, corpus, campOf)
    ensures Target(e, s, Others(corpus, s.sha), campOf) == Target(e, s, corpus, campOf)
  {
    if corpus != [] {
      var n := |corpus| - 1;
      ScanSkipsOwnRow(e, s, corpus[..n], campOf);
      OthersBeforeLast(corpus, s.sha);
      var others := Others(corpus[..n], s.sha);
      if corpus[n].sha != s.sha {
        assert (others + [corpus[n]])[..|others|] == others;
      } else {
        assert others + [] == others;
        assert RelatedEntry(e, s, corpus[n], campOf) == [] && !Anchors(e, s, corpus[n], campOf);
      }
    }
  }

  lemma {:induction false} UpsertKeepsOthers(corpus: seq<Fingerprint>, s: Fingerprint)
    requires DistinctShas(corpus)
    ensures Others(Upsert(corpus, s), s.sha) == Others(corpus, s.sha)
  {
    if corpus != [] && corpus[0].sha != s.sha {
      forall i, j | 0 <= i < j < |corpus[1..]| ensures corpus[1..][i].sha != corpus[1..][j].sha {
        assert corpus[1..][i] == corpus[i + 1] && corpus[1..][j] == corpus[j + 1];
      }
      UpsertKeepsOthers(corpus[1..], s);
    }
  }

  lemma EnrichedKeepsIndex(row: CampaignRow, s: Fingerprint)
    ensures Enriched(row, s).index == row.index
  {
  }

  /**
   The dictionaries do not enrich a campaign again with a sample it already
   has; the tables do.
   */
  ghost predicate EnrichmentAgrees(m: Memory, s: Fingerprint, t: nat) {
    t in m.campaigns && s.sha in m.campOf
    && (t != m.campOf[s.sha] || Enriched(m.campaigns[t].row, s) == m.campaigns[t].row)
  }

  lemma AnchoredSampleAgreesIff(e: Engine, soft: SoftSignals, pick: Picker, m: Memory, d: Store, s: Fingerprint)
    requires UsesCalculator(e, soft) && Picks(pick)
    requires MemoryInv(m) && Same(m, d) && Target(e, s, m.corpus, m.campOf).Some?
    ensures SameOutcome(MemoryStep(e, m, s).1, StoreStep(e, pick, d, s).1) <==>
              s.sha !in m.campOf || EnrichmentAgrees(m, s, Target(e, s, m.corpus, m.campOf).value)
  {
    hide SortDescending, RelatedTo, Target, Enriched, FillCampaign, Assign, Upsert, Others, CampaignMap, CampaignOf,
         Founders, MembersOf, NextIndex, CampaignInv, WithAll;
    var t := Target(e, s, m.corpus, m.campOf).value;
    var sorted := SortDescending(RelatedTo(e, s, m.corpus, m.campOf));
    SameMap(pick, m, d);
    UpsertKeepsOthers(m.corpus, s);
    ScanSkipsOwnRow(e, s, m.corpus, m.campOf);
    TargetIsStored(e, soft, m, s);
    RelatedAreReported(e, m, s);
    MembersAre(m, d, t);
    MembersAreMapped(m, t);
    var members := ToSet(m.campaigns[t].members) + {s.sha};
    FillIsClaim(m, s, sorted, m.campOf[s.sha := t], members, t);
    assert ToSet(Joined(m.campaigns[t], s).members) == members;
    assert s.sha in m.campaigns[t].members <==> Get(m.campOf, s.sha) == Some(t);
  }

  /** A sample without campaign and anchor is answered equally, whether it founds one, is refused, or stands alone. */
  lemma UnmappedSampleAgrees(e: Engine, soft: SoftSignals, pick: Picker, m: Memory, d: Store, s: Fingerprint)
    requires UsesCalculator(e, soft) && Picks(pick)
    requires MemoryInv(m) && Same(m, d)
    requires s.sha !in m.campOf && Target(e, s, m.corpus, m.campOf).None?
    ensures SameOutcome(MemoryStep(e, m, s).1, StoreStep(e, pick, d, s).1)
  {
    hide SortDescending, RelatedTo, Target, Enriched, FillCampaign, Assign, Upsert, Others, CampaignMap, CampaignOf,
         Founders, MembersOf, NextIndex, CampaignInv, WithAll, SeedsCampaign;
    var sorted := SortDescending(RelatedTo(e, s, m.corpus, m.campOf));
    var shas := Founders([s.sha], sorted);
    SameMap(pick, m, d);
    SameLookup(pick, m, d, s.sha);
    UpsertKeepsOthers(m.corpus, s);
    ScanSkipsOwnRow(e, s, m.corpus, m.campOf);
    SameNextIndex(m, d);
    RelatedAreReported(e, m, s);
    FillChangesNothing(m, s, sorted);
    forall x | x in shas && x != s.sha ensures x !in m.campOf {
      CofounderFacts(e, soft, m, s, x);
    }
    WithAllLookup(m.campOf, shas, m.nextIndex);
    FillIsClaim(m, s, sorted, WithAll(m.campOf, shas, m.nextIndex), ToSet(shas), m.nextIndex);
  }

  lemma WithAllLookup(campOf: map<string, nat>, shas: seq<string>, index: nat)
    ensures forall x :: Get(WithAll(campOf, shas, index), x) == if x in shas then Some(index) else Get(campOf, x)
  {
  }

  /** Without an anchor the tables keep the sample's campaign; the dictionaries answer another or none. */
  lemma UnanchoredSampleDisagrees(e: Engine, soft: SoftSignals, pick: Picker, m: Memory, d: Store, s: Fingerprint)
    requires UsesCalculator(e, soft) && Picks(pick)
    requires MemoryInv(m) && Same(m, d)
    requires s.sha in m.campOf && Target(e, s, m.corpus, m.campOf).None?
    ensures StoreStep(e, pick, d, s).1.StoreCorrelated?
    ensures var c := StoreStep(e, pick, d, s).1.campaign; c.Some? && c.value.row.index == m.campOf[s.sha]
    ensures !SameOutcome(MemoryStep(e, m, s).1, StoreStep(e, pick, d, s).1)
  {
    hide SortDescending, RelatedTo, Target, Enriched, FillCampaign, Assign, Upsert, Others, CampaignMap, CampaignOf,
         Founders, MembersOf, NextIndex, WithAll, SeedsCampaign;
    SameMap(pick, m, d);
    SameLookup(pick, m, d, s.sha);
    UpsertKeepsOthers(m.corpus, s);
    ScanSkipsOwnRow(e, s, m.corpus, m.campOf);
    var c := m.campOf[s.sha];
    assert CampaignInv(m.corpus, m.campOf, c, m.campaigns[c]);
    assert c < m.nextIndex;
    EnrichedKeepsIndex(d.campaigns[c], s);
  }

  /**
   The whole condition, over new and repeated samples: the two paths give the
   same answer if and only if the sample has no campaign yet, or it anchors to
   a campaign that is another one than its own, or one its values add nothing to.
   */
  lemma AnswersAgreeIff(e: Engine, soft: SoftSignals, pick: Picker, m: Memory, d: Store, s: Fingerprint)
    requires UsesCalculator(e, soft) && Picks(pick)
    requires MemoryInv(m) && Same(m, d)
    ensures SameOutcome(MemoryStep(e, m, s).1, StoreStep(e, pick, d, s).1) <==>
              || s.sha !in m.campOf
              || (Target(e, s, m.corpus, m.campOf).Some?
                  && EnrichmentAgrees(m, s, Target(e, s, m.corpus, m.campOf).value))
  {
    if Target(e, s, m.corpus, m.campOf).Some? {
      AnchoredSampleAgreesIff(e, soft, pick, m, d, s);
    } else if s.sha in m.campOf {
      UnanchoredSampleDisagrees(e, soft, pick, m, d, s);
    } else {
      UnmappedSampleAgrees(e, soft, pick, m, d, s);
    }
  }
}
