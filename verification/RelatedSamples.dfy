/**
 Which samples a correlation reports as related, with what, and in which order,
 said over the fingerprints themselves.
 */
module RelatedSamples {
  import opened Common
  import opened SortedTexts
  import opened Similarity
  import opened Campaigns
  import opened CampaignInvariants
  import opened CampaignIndependence
  import opened CampaignRefinement
  import opened Correlator

  /* ---------- Similarity, said without its own functions ---------- */

  ghost predicate Share(a: seq<string>, b: seq<string>) {
    exists v :: v in a && v in b
  }

  /** Jaccard similarity by counting: of the values of either, those of both are the fraction. */
  lemma JaccardCounts(a: set<string>, b: set<string>)
    ensures a + b != {} ==>
              Jaccard(a, b) * (|a - b| + |a * b| + |b - a|) as real == |a * b| as real
              && |a - b| + |a * b| + |b - a| > 0
    ensures a + b == {} ==> Jaccard(a, b) == 0.0
  {
    assert a + b == (a - b) + a * b + (b - a);
    assert |a + b| == |a - b| + |a * b| + |b - a|;
    if a + b != {} {
      var n, m := |a * b|, |a + b|;
      assert m > 0;
      assert n as real / m as real * m as real == n as real;
    }
  }

  lemma OverlapMeansShare(a: seq<string>, b: seq<string>)
    ensures Overlap(a, b) <==> Share(a, b)
  {
    if v :| v in a && v in b {
      assert v in ToSet(a) * ToSet(b);
    }
    if v :| v in ToSet(a) * ToSet(b) {
      assert v in a && v in b;
    }
  }

  function DexLikeness(a: Fingerprint, b: Fingerprint): real {
    Jaccard(ToSet(a.dex), ToSet(b.dex))
  }

  function BehaviorLikeness(a: Fingerprint, b: Fingerprint): real {
    Jaccard(ToSet(a.behaviors), ToSet(b.behaviors))
  }

  function NetworkLikeness(a: Fingerprint, b: Fingerprint): real {
    Jaccard(ToSet(a.domains + a.urls + a.ips), ToSet(b.domains + b.urls + b.ips))
  }

  predicate PackagesLookAlike(soft: SoftSignals, a: Fingerprint, b: Fingerprint) {
    var p, q := soft.normalize(a.packageName), soft.normalize(b.packageName);
    p != q && soft.package(p, q) >= 0.90
  }

  predicate IconsLookAlike(soft: SoftSignals, a: Fingerprint, b: Fingerprint) {
    soft.icon(a.icon, b.icon).Some? && soft.icon(a.icon, b.icon).value >= 0.85
  }

  /** Every way in which two different samples are related. */
  ghost predicate LooksRelated(threshold: real, soft: SoftSignals, a: Fingerprint, b: Fingerprint) {
    || Score(a, b) >= threshold
    || Share(a.signers, b.signers) || Share(a.firebase, b.firebase) || Share(a.payloads, b.payloads)
    || DexLikeness(a, b) >= 0.80 || BehaviorLikeness(a, b) >= 0.60 || NetworkLikeness(a, b) >= 0.30
    || IconsLookAlike(soft, a, b) || PackagesLookAlike(soft, a, b)
  }

  ghost predicate Given(soft: SoftSignals, a: Fingerprint, b: Fingerprint, r: Reason) {
    match r
    case SameSigner => Share(a.signers, b.signers)
    case SameFirebase => Share(a.firebase, b.firebase)
    case SamePayload => Share(a.payloads, b.payloads)
    case SharedInfrastructure => NetworkLikeness(a, b) >= 0.30
    case DexSimilar(p) => DexLikeness(a, b) >= 0.80 && p == Percent(DexLikeness(a, b))
    case BehaviorOverlap(p) => BehaviorLikeness(a, b) >= 0.60 && p == Percent(BehaviorLikeness(a, b))
    case IconSimilar(p) =>
      IconsLookAlike(soft, a, b) && p == Percent(soft.icon(a.icon, b.icon).value)
    case PackageSimilar(p) =>
      PackagesLookAlike(soft, a, b)
      && p == Percent(soft.package(soft.normalize(a.packageName), soft.normalize(b.packageName)))
    case IdenticalSample => false
  }

  lemma InReasons(soft: SoftSignals, a: Fingerprint, b: Fingerprint, r: Reason)
    ensures r in Reasons(soft, a, b) <==>
              || (Overlap(a.signers, b.signers) && r == SameSigner)
              || r in PackageReason(soft, a, b)
              || (DexSimilarity(a, b).Some? && DexLikeness(a, b) >= 0.80 && r == DexSimilar(Percent(DexLikeness(a, b))))
              || (BehaviorLikeness(a, b) >= 0.60 && r == BehaviorOverlap(Percent(BehaviorLikeness(a, b))))
              || r in IconReason(soft, a, b)
              || (NetworkLikeness(a, b) >= 0.30 && r == SharedInfrastructure)
              || (Overlap(a.firebase, b.firebase) && r == SameFirebase)
              || (Overlap(a.payloads, b.payloads) && r == SamePayload)
  {
    hide Jaccard, Percent, Overlap, DexSimilarity, PackageReason, IconReason;
  }

  lemma InSoftReasons(soft: SoftSignals, a: Fingerprint, b: Fingerprint, r: Reason)
    ensures r in PackageReason(soft, a, b) <==>
              PackagesLookAlike(soft, a, b)
              && r == PackageSimilar(Percent(soft.package(soft.normalize(a.packageName),
                                                          soft.normalize(b.packageName))))
    ensures r in IconReason(soft, a, b) <==>
              IconsLookAlike(soft, a, b) && r == IconSimilar(Percent(soft.icon(a.icon, b.icon).value))
  {
    hide Percent;
  }

  /** When each reason is given. */
  lemma ReasonsIff(soft: SoftSignals, a: Fingerprint, b: Fingerprint, r: Reason)
    ensures r in Reasons(soft, a, b) <==> Given(soft, a, b, r)
  {
    hide Reasons, PackageReason, IconReason, Share, Overlap, Percent, DexLikeness, BehaviorLikeness, NetworkLikeness,
         IconsLookAlike, PackagesLookAlike;
    OverlapMeansShare(a.signers, b.signers);
    OverlapMeansShare(a.firebase, b.firebase);
    OverlapMeansShare(a.payloads, b.payloads);
    NoDexNoLikeness(a, b);
    InReasons(soft, a, b, r);
    InSoftReasons(soft, a, b, r);
  }

  lemma NoDexNoLikeness(a: Fingerprint, b: Fingerprint)
    ensures a.dex == [] && b.dex == [] ==> DexLikeness(a, b) == 0.0
  {
    if a.dex == [] && b.dex == [] {
      JaccardCounts(ToSet(a.dex), ToSet(b.dex));
      assert ToSet(a.dex) + ToSet(b.dex) == {};
    }
  }

  /** A percentage is cut to a whole number, not rounded. */
  lemma PercentIs(x: real)
    ensures Percent(x) as real <= x * 100.0 < Percent(x) as real + 1.0
  {
  }

  /** A sample compared with itself: alike in whatever it has, and nothing else. */
  lemma IdenticalSampleIs(soft: SoftSignals, a: Fingerprint, b: Fingerprint)
    requires a.sha == b.sha
    ensures var c := Compared(soft, a, b);
            && c.overall == 1.0 && c.reasons == [IdenticalSample]
            && c.packageSimilarity == 1.0 && c.dexSimilarity == Some(1.0) && c.behaviorSimilarity == 1.0
            && (c.signerMatch <==> a.signers != []) && (c.firebaseOverlap <==> a.firebase != [])
            && (c.payloadOverlap <==> a.payloads != [])
            && c.iconSimilarity == (if a.icon.Some? && a.icon.value != "" then Some(1.0) else None)
            && c.infrastructureOverlap == (if a.domains + a.urls + a.ips != [] then 1.0 else 0.0)
  {
  }

  /** Two different samples: each component is its own similarity. */
  lemma ComponentsAre(soft: SoftSignals, a: Fingerprint, b: Fingerprint)
    requires a.sha != b.sha
    ensures var c := Compared(soft, a, b);
            && (c.signerMatch <==> Share(a.signers, b.signers))
            && (c.firebaseOverlap <==> Share(a.firebase, b.firebase))
            && (c.payloadOverlap <==> Share(a.payloads, b.payloads))
            && c.packageSimilarity == soft.package(soft.normalize(a.packageName), soft.normalize(b.packageName))
            && (c.dexSimilarity.None? <==> a.dex == [] && b.dex == [])
            && (c.dexSimilarity.Some? ==> c.dexSimilarity.value == DexLikeness(a, b))
            && c.behaviorSimilarity == BehaviorLikeness(a, b) && c.infrastructureOverlap == NetworkLikeness(a, b)
            && c.iconSimilarity == soft.icon(a.icon, b.icon)
  {
    hide Jaccard, Reasons, Score, Share, Overlap;
    OverlapMeansShare(a.signers, b.signers);
    OverlapMeansShare(a.firebase, b.firebase);
    OverlapMeansShare(a.payloads, b.payloads);
  }

  /** Two different samples have a reason exactly when they look related by more than their score. */
  lemma ReasonsExactly(soft: SoftSignals, a: Fingerprint, b: Fingerprint, threshold: real)
    ensures Reasons(soft, a, b) != [] || Score(a, b) >= threshold <==> LooksRelated(threshold, soft, a, b)
  {
    hide Reasons, Score, DexLikeness, BehaviorLikeness, NetworkLikeness, Share, IconsLookAlike, PackagesLookAlike,
         Percent;
    var rs := Reasons(soft, a, b);
    forall r ensures r in rs <==> Given(soft, a, b, r) {
      ReasonsIff(soft, a, b, r);
    }
    if rs != [] {
      assert rs[0] in rs;
      assert Given(soft, a, b, rs[0]);
    }
    assert Given(soft, a, b, SameSigner) <==> Share(a.signers, b.signers);
    assert Given(soft, a, b, SameFirebase) <==> Share(a.firebase, b.firebase);
    assert Given(soft, a, b, SamePayload) <==> Share(a.payloads, b.payloads);
    assert Given(soft, a, b, SharedInfrastructure) <==> NetworkLikeness(a, b) >= 0.30;
    assert Given(soft, a, b, DexSimilar(Percent(DexLikeness(a, b)))) <==> DexLikeness(a, b) >= 0.80;
    assert Given(soft, a, b, BehaviorOverlap(Percent(BehaviorLikeness(a, b)))) <==> BehaviorLikeness(a, b) >= 0.60;
    if IconsLookAlike(soft, a, b) {
      IconValue(soft, a, b);
      assert Given(soft, a, b, IconSimilar(Percent(soft.icon(a.icon, b.icon).value)));
    }
    assert PackagesLookAlike(soft, a, b) <==>
        Given(soft, a, b, PackageSimilar(Percent(soft.package(soft.normalize(a.packageName),
                                                              soft.normalize(b.packageName)))));
  }

  lemma IconValue(soft: SoftSignals, a: Fingerprint, b: Fingerprint)
    requires IconsLookAlike(soft, a, b)
    ensures soft.icon(a.icon, b.icon).Some?
  {
  }

  /* ---------- The list ---------- */

  ghost predicate Names(rs: seq<Related>, sha: string) {
    exists i :: 0 <= i < |rs| && rs[i].sha == sha
  }

  ghost predicate Describes(soft: SoftSignals, s: Fingerprint, o: Fingerprint, r: Related) {
    && r.sha == o.sha != s.sha && r.similarity == Score(s, o) && r.reasons == Reasons(soft, s, o)
    && r.appLabel == o.appLabel && r.packageName == o.packageName
  }

  /** The pass over the corpus finds the related samples, all of them, and describes them. */
  lemma {:induction false} RelatedExactly(e: Engine, soft: SoftSignals, s: Fingerprint, corpus: seq<Fingerprint>,
                                          campOf: map<string, nat>)
    requires UsesCalculator(e, soft) && DistinctShas(corpus)
    ensures forall i | 0 <= i < |corpus| && corpus[i].sha != s.sha ::
              Names(RelatedTo(e, s, corpus, campOf), corpus[i].sha) <==>
              LooksRelated(e.threshold, soft, s, corpus[i])
    ensures forall r | r in RelatedTo(e, s, corpus, campOf) ::
              exists i :: 0 <= i < |corpus| && Describes(soft, s, corpus[i], r)
  {
    hide LooksRelated, Score, Reasons;
    if corpus != [] {
      var n := |corpus| - 1;
      var before, entry := RelatedTo(e, s, corpus[..n], campOf), RelatedEntry(e, s, corpus[n], campOf);
      var all := RelatedTo(e, s, corpus, campOf);
      RelatedExactly(e, soft, s, corpus[..n], campOf);
      EntryExactly(e, soft, s, corpus[n], campOf);
      assert all == before + entry;
      forall r | r in all ensures exists i :: 0 <= i < |corpus| && Describes(soft, s, corpus[i], r) {
        if r in before {
          var i :| 0 <= i < n && Describes(soft, s, corpus[..n][i], r);
          assert Describes(soft, s, corpus[i], r);
        } else {
          assert Describes(soft, s, corpus[n], r);
        }
      }
      forall i | 0 <= i < |corpus| && corpus[i].sha != s.sha
        ensures Names(all, corpus[i].sha) <==> LooksRelated(e.threshold, soft, s, corpus[i])
      {
        NamesOfConcat(before, entry, corpus[i].sha);
        if i < n {
          assert corpus[..n][i] == corpus[i];
        } else {
          NotNamedBefore(e, soft, s, corpus, campOf);
        }
      }
    }
  }

  lemma EntryExactly(e: Engine, soft: SoftSignals, s: Fingerprint, o: Fingerprint, campOf: map<string, nat>)
    requires UsesCalculator(e, soft)
    ensures forall r | r in RelatedEntry(e, s, o, campOf) :: Describes(soft, s, o, r)
    ensures o.sha != s.sha ==>
              (Names(RelatedEntry(e, s, o, campOf), o.sha) <==> LooksRelated(e.threshold, soft, s, o))
  {
    hide LooksRelated, Score, Reasons;
    assert ComparesWith(e, soft, s, o);
    ReasonsExactly(soft, s, o, e.threshold);
    if o.sha != s.sha && LooksRelated(e.threshold, soft, s, o) {
      assert RelatedEntry(e, s, o, campOf)[0].sha == o.sha;
    }
  }

  lemma NamesOfConcat(a: seq<Related>, b: seq<Related>, sha: string)
    ensures Names(a + b, sha) <==> Names(a, sha) || Names(b, sha)
  {
    if i :| 0 <= i < |a| && a[i].sha == sha {
      assert (a + b)[i].sha == sha;
    }
    if i :| 0 <= i < |b| && b[i].sha == sha {
      assert (a + b)[|a| + i].sha == sha;
    }
    if i :| 0 <= i < |a + b| && (a + b)[i].sha == sha {
      assert if i < |a| then a[i].sha == sha else b[i - |a|].sha == sha;
    }
  }

  lemma NotNamedBefore(e: Engine, soft: SoftSignals, s: Fingerprint, corpus: seq<Fingerprint>,
                       campOf: map<string, nat>)
    requires DistinctShas(corpus) && corpus != []
    ensures var n := |corpus| - 1; !Names(RelatedTo(e, s, corpus[..n], campOf), corpus[n].sha)
  {
    var n := |corpus| - 1;
    var before := RelatedTo(e, s, corpus[..n], campOf);
    forall k | 0 <= k < |before| ensures before[k].sha != corpus[n].sha {
      RelatedSpec(e, s, corpus[..n], campOf, before[k]);
    }
  }

  /* ---------- The order ---------- */

  function WithSimilarity(rs: seq<Related>, x: real): seq<Related> {
    if rs == [] then []
    else (if rs[0].similarity == x then [rs[0]] else []) + WithSimilarity(rs[1..], x)
  }

  /** Most similar first, and equally similar ones in the order they were found. */
  lemma {:induction false} SortOrders(rs: seq<Related>)
    ensures Descending(SortDescending(rs))
    ensures forall x :: WithSimilarity(SortDescending(rs), x) == WithSimilarity(rs, x)
  {
    SortIsDescending(rs);
    if rs != [] {
      SortOrders(rs[1..]);
      InsertOrders(rs[0], SortDescending(rs[1..]));
    }
  }

  lemma {:induction false} InsertOrders(r: Related, rs: seq<Related>)
    requires Descending(rs)
    ensures forall x :: WithSimilarity(InsertDescending(r, rs), x) ==
                        (if r.similarity == x then [r] else []) + WithSimilarity(rs, x)
  {
    if rs == [] || rs[0].similarity <= r.similarity {
      assert ([r] + rs)[1..] == rs;
    } else {
      InsertOrders(r, rs[1..]);
      assert ([rs[0]] + InsertDescending(r, rs[1..]))[1..] == InsertDescending(r, rs[1..]);
    }
  }

  /* ---------- The answer ---------- */

  /**
   What a correlation answers: exactly the samples that look related, each with
   its own score, reasons and labels and with the campaign it is in afterwards,
   the most similar first.
   */
  lemma AnswerIsExact(e: Engine, soft: SoftSignals, m: Memory, s: Fingerprint)
    requires UsesCalculator(e, soft) && MemoryInv(m) && MemoryStep(e, m, s).1.Correlated?
    ensures var rs := MemoryStep(e, m, s).1.related;
            && Descending(rs)
            && (forall i | 0 <= i < |m.corpus| && m.corpus[i].sha != s.sha ::
                  Names(rs, m.corpus[i].sha) <==> LooksRelated(e.threshold, soft, s, m.corpus[i]))
            && (forall r | r in rs ::
                  && r.campaign == Get(MemoryStep(e, m, s).0.campOf, r.sha)
                  && exists i :: 0 <= i < |m.corpus| && Describes(soft, s, m.corpus[i], r))
  {
    hide LooksRelated, Score, Reasons, SortDescending, RelatedTo, Target, Founders, CampaignInv, SeedsCampaign, Upsert,
         FillCampaign;
    var found := RelatedTo(e, s, m.corpus, m.campOf);
    var sorted := SortDescending(found);
    var rs, after := MemoryStep(e, m, s).1.related, MemoryStep(e, m, s).0.campOf;
    RelatedExactly(e, soft, s, m.corpus, m.campOf);
    SortOrders(found);
    TargetIsStored(e, soft, m, s);
    RelatedAreReported(e, m, s);
    assert rs == FillCampaign(sorted, after);
    FillIsPointwise(sorted, after);
    forall i | 0 <= i < |m.corpus| && m.corpus[i].sha != s.sha
      ensures Names(rs, m.corpus[i].sha) <==> LooksRelated(e.threshold, soft, s, m.corpus[i])
    {
      SortedNames(found, m.corpus[i].sha);
      SameNames(sorted, rs, m.corpus[i].sha);
    }
    forall k | 0 <= k < |rs|
      ensures rs[k].campaign == Get(after, rs[k].sha)
      ensures exists i :: 0 <= i < |m.corpus| && Describes(soft, s, m.corpus[i], rs[k])
    {
      assert sorted[k] in sorted && Reported(m, s, sorted[k]);
      SortKeepsMembers(found, sorted[k]);
      var i :| 0 <= i < |m.corpus| && Describes(soft, s, m.corpus[i], sorted[k]);
      assert Describes(soft, s, m.corpus[i], rs[k]);
      MappedStaysMapped(e, soft, m, s, sorted[k].sha);
    }
  }

  /** A step gives no other sample a second campaign. */
  lemma MappedStaysMapped(e: Engine, soft: SoftSignals, m: Memory, s: Fingerprint, x: string)
    requires UsesCalculator(e, soft) && MemoryInv(m) && MemoryStep(e, m, s).1.Correlated? && x != s.sha
    ensures x in m.campOf ==> Get(MemoryStep(e, m, s).0.campOf, x) == Get(m.campOf, x)
  {
    hide SortDescending, RelatedTo, Target, Founders, CampaignInv, SeedsCampaign, Upsert, FillCampaign;
    TargetIsStored(e, soft, m, s);
    if Target(e, s, m.corpus, m.campOf).None? && SeedsCampaign(SortDescending(RelatedTo(e, s, m.corpus, m.campOf))) {
      var members := Founders([s.sha], SortDescending(RelatedTo(e, s, m.corpus, m.campOf)));
      if x in members {
        CofounderFacts(e, soft, m, s, x);
      }
    }
  }

  lemma SortedNames(rs: seq<Related>, sha: string)
    ensures Names(SortDescending(rs), sha) <==> Names(rs, sha)
  {
    var sorted := SortDescending(rs);
    if i :| 0 <= i < |rs| && rs[i].sha == sha {
      SortKeepsMembers(rs, rs[i]);
      var j :| 0 <= j < |sorted| && sorted[j] == rs[i];
    }
    if j :| 0 <= j < |sorted| && sorted[j].sha == sha {
      SortKeepsMembers(rs, sorted[j]);
      var i :| 0 <= i < |rs| && rs[i] == sorted[j];
    }
  }

  lemma SameNames(a: seq<Related>, b: seq<Related>, sha: string)
    requires |a| == |b| && forall i | 0 <= i < |a| :: a[i].sha == b[i].sha
    ensures Names(a, sha) <==> Names(b, sha)
  {
    if i :| 0 <= i < |a| && a[i].sha == sha {
      assert b[i].sha == sha;
    }
    if i :| 0 <= i < |b| && b[i].sha == sha {
      assert a[i].sha == sha;
    }
  }

  /** The tables answer the same samples: exactly the stored ones that look related, whatever they hold. */
  lemma StoredAnswerIsExact(e: Engine, soft: SoftSignals, pick: Picker, d: Store, s: Fingerprint)
    requires UsesCalculator(e, soft) && DistinctShas(d.rows) && StoreStep(e, pick, d, s).1.StoreCorrelated?
    ensures var rs := StoreStep(e, pick, d, s).1.related;
            && Descending(rs)
            && (forall i | 0 <= i < |d.rows| && d.rows[i].sha != s.sha ::
                  Names(rs, d.rows[i].sha) <==> LooksRelated(e.threshold, soft, s, d.rows[i]))
            && (forall r | r in rs :: exists i :: 0 <= i < |d.rows| && Describes(soft, s, d.rows[i], r))
  {
    hide LooksRelated, Score, Reasons, SortDescending, RelatedTo, Target, Founders, SeedsCampaign, Upsert, Others,
         Assign, CampaignMap, CampaignOf, Enriched, MembersOf, NextIndex;
    var campOf := CampaignMap(pick, d);
    var found := RelatedTo(e, s, d.rows, campOf);
    var sorted := SortDescending(found);
    UpsertKeepsOthers(d.rows, s);
    ScanSkipsOwnRow(e, s, d.rows, campOf);
    RelatedExactly(e, soft, s, d.rows, campOf);
    SortOrders(found);
    forall members: set<string>, c: nat ensures SameSamples(Assign(sorted, members, c), sorted) {
      AssignIsPointwise(sorted, members, c);
    }
    var rs := StoreStep(e, pick, d, s).1.related;
    assert SameSamples(rs, sorted);
    forall i | 0 <= i < |d.rows| && d.rows[i].sha != s.sha
      ensures Names(rs, d.rows[i].sha) <==> LooksRelated(e.threshold, soft, s, d.rows[i])
    {
      SortedNames(found, d.rows[i].sha);
      SameNames(sorted, rs, d.rows[i].sha);
    }
    forall k | 0 <= k < |rs| ensures exists i :: 0 <= i < |d.rows| && Describes(soft, s, d.rows[i], rs[k]) {
      assert sorted[k] in sorted;
      SortKeepsMembers(found, sorted[k]);
      var i :| 0 <= i < |d.rows| && Describes(soft, s, d.rows[i], sorted[k]);
      assert Describes(soft, s, d.rows[i], rs[k]);
    }
  }

  /** The same entries, but for the campaign. */
  predicate SameSamples(a: seq<Related>, b: seq<Related>) {
    |a| == |b| && forall i | 0 <= i < |a| :: a[i] == b[i].(campaign := a[i].campaign)
  }

  /** A list in ascending order, without repeats, of the values of two. */
  ghost predicate SortedUnion(r: seq<string>, a: seq<string>, b: seq<string>) {
    Ascending(r) && NoDuplicates(r) && forall v :: v in r <==> v in a || v in b
  }

  /** A campaign that a sample joins keeps number and title, and merges the sample's values into its sorted lists. */
  lemma EnrichedRowIs(row: CampaignRow, s: Fingerprint)
    ensures var r := Enriched(row, s);
            && r.index == row.index && r.title == row.title
            && SortedUnion(r.signatures, row.signatures, s.behaviors)
            && SortedUnion(r.infrastructure, row.infrastructure, s.domains + s.urls)
            && SortedUnion(r.firebase, row.firebase, s.firebase)
            && SortedUnion(r.signers, row.signers, s.signers)
  {
    hide SortedUnion;
    assert row.infrastructure + s.domains + s.urls == row.infrastructure + (s.domains + s.urls);
    SortedSetIsUnion(row.signatures, s.behaviors);
    SortedSetIsUnion(row.infrastructure, s.domains + s.urls);
    SortedSetIsUnion(row.firebase, s.firebase);
    SortedSetIsUnion(row.signers, s.signers);
  }

  lemma SortedSetIsUnion(a: seq<string>, b: seq<string>)
    ensures SortedUnion(SortedSet(a + b), a, b)
  {
    var r := SortedSet(a + b);
    SortedSetAscends(a + b);
    forall v ensures v in r <==> v in a || v in b {
      SortedSetIsTheSet(a + b, v);
    }
    forall i, j | 0 <= i < j < |r| ensures r[i] != r[j] {
      LaterIsGreater(r, i, j);
      TextLessIsTotal(r[i], r[j]);
    }
  }

  lemma LaterIsGreater(r: seq<string>, i: nat, j: nat)
    requires Ascending(r) && i < j < |r|
    ensures TextLess(r[i], r[j])
  {
    assert forall k | 0 <= k < |r[i..]| - 1 :: TextLess(r[i..][k], r[i..][k + 1]) by {
      forall k | 0 <= k < |r[i..]| - 1 ensures TextLess(r[i..][k], r[i..][k + 1]) {
        assert r[i..][k] == r[i + k] && r[i..][k + 1] == r[i + k + 1];
      }
    }
    FirstIsLeast(r[i..], j - i);
  }

  /** A founded campaign bears the next number and the label of the sample that founds it. */
  lemma FoundedCampaignIsNamed(e: Engine, m: Memory, s: Fingerprint)
    requires Target(e, s, m.corpus, m.campOf).None? && m.nextIndex <= MAX_INDEX
    requires SeedsCampaign(SortDescending(RelatedTo(e, s, m.corpus, m.campOf)))
    ensures var c := MemoryStep(e, m, s).1.campaign;
            && c.Some? && c.value.row.index == m.nextIndex && c.value.members != [] && c.value.members[0] == s.sha
            && (s.appLabel != "" ==> c.value.row.title == s.appLabel)
            && (s.appLabel == "" ==> c.value.row.title == s.packageName)
            && MemoryStep(e, m, s).0.campaigns == m.campaigns[m.nextIndex := c.value]
  {
    var members := Founders([s.sha], SortDescending(RelatedTo(e, s, m.corpus, m.campOf)));
    assert members[0] == s.sha;
  }
}
