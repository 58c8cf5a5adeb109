/**
 The safety rule of the correlator: icon and package similarity never merge
 campaigns. Stated as non-interference: two correlators whose soft signals and
 relatedness thresholds differ in any way build the same campaigns.
 */
module CampaignIndependence {
  import opened Common
  import opened Similarity
  import opened Campaigns
  import opened CampaignInvariants

  type Scored = (string, real)

  /** The entries at or above the seed threshold, without what soft signals can change. */
  function Strong(rs: seq<Related>): seq<Scored> {
    if rs == [] then []
    else if rs[0].similarity >= SEED_THRESHOLD then [(rs[0].sha, rs[0].similarity)] + Strong(rs[1..])
    else Strong(rs[1..])
  }

  function InsertScored(p: Scored, sorted: seq<Scored>): seq<Scored> {
    if sorted == [] || sorted[0].1 <= p.1 then [p] + sorted else [sorted[0]] + InsertScored(p, sorted[1..])
  }

  function SortScored(ps: seq<Scored>): seq<Scored> {
    if ps == [] then [] else InsertScored(ps[0], SortScored(ps[1..]))
  }

  function FoundersOf(members: seq<string>, ps: seq<Scored>): seq<string>
    decreases |ps|
  {
    if ps == [] then members
    else FoundersOf(if ps[0].0 !in members then members + [ps[0].0] else members, ps[1..])
  }

  /** The strong samples of a corpus, by score alone. */
  function StrongSamples(s: Fingerprint, corpus: seq<Fingerprint>): seq<Scored> {
    if corpus == [] then []
    else
      var n := |corpus| - 1;
      StrongSamples(s, corpus[..n]) +
      (if corpus[n].sha != s.sha && Score(s, corpus[n]) >= SEED_THRESHOLD
       then [(corpus[n].sha, Score(s, corpus[n]))] else [])
  }

  predicate Descending(rs: seq<Related>) {
    forall i, j | 0 <= i < j < |rs| :: rs[i].similarity >= rs[j].similarity
  }

  lemma {:induction false} InsertStaysDescending(r: Related, rs: seq<Related>)
    requires Descending(rs)
    ensures Descending(InsertDescending(r, rs))
  {
    if !(rs == [] || rs[0].similarity <= r.similarity) {
      InsertStaysDescending(r, rs[1..]);
      var rest := InsertDescending(r, rs[1..]);
      InsertDescendingAdds(r, rs[1..]);
      forall x | x in rest ensures rs[0].similarity >= x.similarity {
        assert x in multiset(rest);
        assert x in rs[1..] || x == r;
      }
    }
  }

  lemma {:induction false} SortIsDescending(rs: seq<Related>)
    ensures Descending(SortDescending(rs))
  {
    if rs != [] {
      SortIsDescending(rs[1..]);
      InsertStaysDescending(rs[0], SortDescending(rs[1..]));
    }
  }

  lemma {:induction false} WeakTailHasNoStrong(rs: seq<Related>)
    requires Descending(rs) && (rs != [] ==> rs[0].similarity < SEED_THRESHOLD)
    ensures Strong(rs) == []
  {
    if rs != [] {
      WeakTailHasNoStrong(rs[1..]);
    }
  }

  lemma {:induction false} StrongOfInsert(r: Related, rs: seq<Related>)
    requires Descending(rs)
    ensures Strong(InsertDescending(r, rs)) ==
              if r.similarity >= SEED_THRESHOLD then InsertScored((r.sha, r.similarity), Strong(rs)) else Strong(rs)
  {
    if rs == [] || rs[0].similarity <= r.similarity {
      assert ([r] + rs)[1..] == rs;
      if rs != [] && rs[0].similarity < SEED_THRESHOLD {
        WeakTailHasNoStrong(rs);
      }
    } else {
      StrongOfInsert(r, rs[1..]);
      var rest := InsertDescending(r, rs[1..]);
      assert ([rs[0]] + rest)[1..] == rest;
      if rs[0].similarity >= SEED_THRESHOLD {
        assert Strong(rs)[1..] == Strong(rs[1..]);
      }
    }
  }

  /** Selecting the strong entries commutes with the stable sort. */
  lemma {:induction false} StrongOfSort(rs: seq<Related>)
    ensures Strong(SortDescending(rs)) == SortScored(Strong(rs))
  {
    if rs != [] {
      StrongOfSort(rs[1..]);
      SortIsDescending(rs[1..]);
      StrongOfInsert(rs[0], SortDescending(rs[1..]));
      if rs[0].similarity >= SEED_THRESHOLD {
        assert Strong(rs)[1..] == Strong(rs[1..]);
      }
    }
  }

  lemma {:induction false} FoundersByStrong(members: seq<string>, rs: seq<Related>)
    ensures Founders(members, rs) == FoundersOf(members, Strong(rs))
    decreases |rs|
  {
    if rs != [] {
      var members' := if rs[0].similarity >= SEED_THRESHOLD && rs[0].sha !in members
                      then members + [rs[0].sha] else members;
      FoundersByStrong(members', rs[1..]);
      if rs[0].similarity >= SEED_THRESHOLD {
        assert Strong(rs)[1..] == Strong(rs[1..]);
      }
    }
  }

  lemma {:induction false} SeedsIffStrong(rs: seq<Related>)
    ensures SeedsCampaign(rs) <==> Strong(rs) != []
  {
    if rs != [] {
      SeedsIffStrong(rs[1..]);
      if i :| 0 <= i < |rs| && rs[i].similarity >= SEED_THRESHOLD {
        assert i > 0 ==> rs[1..][i - 1].similarity >= SEED_THRESHOLD;
      }
    }
  }

  lemma {:induction false} StrongOfConcat(a: seq<Related>, b: seq<Related>)
    ensures Strong(a + b) == Strong(a) + Strong(b)
  {
    if a == [] {
      assert a + b == b;
    } else {
      assert (a + b)[1..] == a[1..] + b;
      StrongOfConcat(a[1..], b);
    }
  }

  lemma {:induction false} StrongOfRelated(e: Engine, soft: SoftSignals, s: Fingerprint, corpus: seq<Fingerprint>,
                                           campOf: map<string, nat>)
    requires UsesCalculator(e, soft)
    ensures Strong(RelatedTo(e, s, corpus, campOf)) == StrongSamples(s, corpus)
  {
    if corpus != [] {
      var n := |corpus| - 1;
      StrongOfRelated(e, soft, s, corpus[..n], campOf);
      StrongOfEntry(e, soft, s, corpus[n], campOf);
      StrongOfConcat(RelatedTo(e, s, corpus[..n], campOf), RelatedEntry(e, s, corpus[n], campOf));
    }
  }

  lemma StrongOfEntry(e: Engine, soft: SoftSignals, s: Fingerprint, other: Fingerprint, campOf: map<string, nat>)
    requires UsesCalculator(e, soft)
    ensures Strong(RelatedEntry(e, s, other, campOf)) ==
              if other.sha != s.sha && Score(s, other) >= SEED_THRESHOLD then [(other.sha, Score(s, other))] else []
  {
    hide Reasons, Score, HardLinked, PackageReason, Jaccard;
    assert ComparesWith(e, soft, s, other);
    if other.sha != s.sha && Score(s, other) >= SEED_THRESHOLD {
      SeedImpliesHardLink(s, other);
      HardLinkHasReason(soft, s, other);
    }
  }

  /** The campaign-relevant part of a step, by hard links and scores alone. */
  lemma FoundersAreHard(e: Engine, soft: SoftSignals, s: Fingerprint, corpus: seq<Fingerprint>,
                        campOf: map<string, nat>)
    requires UsesCalculator(e, soft)
    ensures var sorted := SortDescending(RelatedTo(e, s, corpus, campOf));
            && Founders([s.sha], sorted) == FoundersOf([s.sha], SortScored(StrongSamples(s, corpus)))
            && (SeedsCampaign(sorted) <==> SortScored(StrongSamples(s, corpus)) != [])
  {
    var related := RelatedTo(e, s, corpus, campOf);
    StrongOfRelated(e, soft, s, corpus, campOf);
    StrongOfSort(related);
    FoundersByStrong([s.sha], SortDescending(related));
    SeedsIffStrong(SortDescending(related));
  }

  lemma {:induction false} SameTarget(e: Engine, soft: SoftSignals, e': Engine, soft': SoftSignals,
                                      s: Fingerprint, corpus: seq<Fingerprint>, campOf: map<string, nat>)
    requires UsesCalculator(e, soft) && UsesCalculator(e', soft')
    ensures Target(e, s, corpus, campOf) == Target(e', s, corpus, campOf)
  {
    if corpus != [] {
      var n := |corpus| - 1;
      SameTarget(e, soft, e', soft', s, corpus[..n], campOf);
      AnchorsMeansHardLinked(e, soft, s, corpus[n], campOf);
      AnchorsMeansHardLinked(e', soft', s, corpus[n], campOf);
    }
  }

  lemma SameStep(e: Engine, soft: SoftSignals, e': Engine, soft': SoftSignals, m: Memory, s: Fingerprint)
    requires UsesCalculator(e, soft) && UsesCalculator(e', soft')
    ensures MemoryStep(e, m, s).0 == MemoryStep(e', m, s).0
    ensures MemoryStep(e, m, s).1.Correlated? == MemoryStep(e', m, s).1.Correlated?
  {
    SameTarget(e, soft, e', soft', s, m.corpus, m.campOf);
    FoundersAreHard(e, soft, s, m.corpus, m.campOf);
    FoundersAreHard(e', soft', s, m.corpus, m.campOf);
  }

  /**
   Soft signals never decide membership: on every run, resubmissions and id
   exhaustion included, correlators that differ only in their package and icon
   similarity or their relatedness threshold reach the same state.
   */
  lemma {:induction false} SoftSignalsNeverMerge(e: Engine, soft: SoftSignals, e': Engine, soft': SoftSignals,
                                                 samples: seq<Fingerprint>)
    requires UsesCalculator(e, soft) && UsesCalculator(e', soft')
    ensures MemoryRun(e, samples) == MemoryRun(e', samples)
    ensures Accepted(e, samples) <==> Accepted(e', samples)
  {
    if samples != [] {
      var n := |samples| - 1;
      SoftSignalsNeverMerge(e, soft, e', soft', samples[..n]);
      SameStep(e, soft, e', soft', MemoryRun(e, samples[..n]), samples[n]);
    }
  }

  lemma SameStoreStep(e: Engine, soft: SoftSignals, e': Engine, soft': SoftSignals, pick: Picker, d: Store,
                      s: Fingerprint)
    requires UsesCalculator(e, soft) && UsesCalculator(e', soft')
    ensures StoreStep(e, pick, d, s).0 == StoreStep(e', pick, d, s).0
    ensures StoreStep(e, pick, d, s).1.StoreCorrelated? == StoreStep(e', pick, d, s).1.StoreCorrelated?
  {
    hide RelatedTo, SortDescending, Target, Founders, SeedsCampaign, FoundersOf, SortScored, StrongSamples, Enriched,
         Assign, CampaignMap, CampaignOf, NextIndex, MembersOf, Upsert, Others;
    var corpus, campOf := Others(Upsert(d.rows, s), s.sha), CampaignMap(pick, d);
    SameTarget(e, soft, e', soft', s, corpus, campOf);
    FoundersAreHard(e, soft, s, corpus, campOf);
    FoundersAreHard(e', soft', s, corpus, campOf);
  }

  /** The same for the tables: on every run the stored campaigns do not depend on the soft signals. */
  lemma {:induction false} SoftSignalsNeverMergeStored(e: Engine, soft: SoftSignals, e': Engine, soft': SoftSignals,
                                                       pick: Picker, samples: seq<Fingerprint>)
    requires UsesCalculator(e, soft) && UsesCalculator(e', soft')
    ensures StoreRun(e, pick, samples) == StoreRun(e', pick, samples)
  {
    if samples != [] {
      var n := |samples| - 1;
      SoftSignalsNeverMergeStored(e, soft, e', soft', pick, samples[..n]);
      SameStoreStep(e, soft, e', soft', pick, StoreRun(e, pick, samples[..n]), samples[n]);
    }
  }
}
