/**
 The correlator as the program runs it: `FraudDNARepository` over its three
 tables and `CampaignCorrelator` with its dictionaries. Each `correlate` is
 proved to take exactly the step that the `Campaigns` module defines.
 */
module Correlator {
  import opened Common
  import opened Similarity
  import opened Campaigns

  lemma {:induction false} FillIsPointwise(rs: seq<Related>, campOf: map<string, nat>)
    ensures |FillCampaign(rs, campOf)| == |rs|
    ensures forall i | 0 <= i < |rs| ::
              FillCampaign(rs, campOf)[i] ==
              if rs[i].campaign.None? then rs[i].(campaign := Get(campOf, rs[i].sha)) else rs[i]
  {
    if rs != [] {
      FillIsPointwise(rs[1..], campOf);
    }
  }

  lemma {:induction false} AssignIsPointwise(rs: seq<Related>, members: set<string>, c: nat)
    ensures |Assign(rs, members, c)| == |rs|
    ensures forall i | 0 <= i < |rs| ::
              Assign(rs, members, c)[i] == if rs[i].sha in members then rs[i].(campaign := Some(c)) else rs[i]
  {
    if rs != [] {
      AssignIsPointwise(rs[1..], members, c);
    }
  }

  lemma {:induction false} UpsertAt(rows: seq<Fingerprint>, s: Fingerprint, i: nat)
    requires i <= |rows| && forall k | 0 <= k < i :: rows[k].sha != s.sha
    requires i < |rows| ==> rows[i].sha == s.sha
    ensures Upsert(rows, s) == if i < |rows| then rows[i := s] else rows + [s]
  {
    if i > 0 {
      UpsertAt(rows[1..], s, i - 1);
      assert rows == [rows[0]] + rows[1..];
    }
  }

  lemma {:induction false} OthersAppend(corpus: seq<Fingerprint>, f: Fingerprint, sha: string)
    ensures Others(corpus + [f], sha) == Others(corpus, sha) + if f.sha == sha then [] else [f]
  {
    if corpus == [] {
      assert corpus + [f] == [f];
    } else {
      assert (corpus + [f])[1..] == corpus[1..] + [f];
      OthersAppend(corpus[1..], f, sha);
    }
  }

  lemma FounderIsMappedToo(campOf: map<string, nat>, shas: seq<string>, index: nat)
    requires shas != []
    ensures WithAll(campOf, shas[1..], index)[shas[0] := index] == WithAll(campOf, shas, index)
  {
    assert shas == [shas[0]] + shas[1..];
  }

  lemma OneMoreIsMapped(campOf: map<string, nat>, shas: seq<string>, sha: string, index: nat)
    ensures WithAll(campOf, [], index) == campOf
    ensures WithAll(campOf, shas, index)[sha := index] == WithAll(campOf, shas + [sha], index)
  {
  }

  lemma ScanStep(e: Engine, s: Fingerprint, others: seq<Fingerprint>, i: nat, campOf: map<string, nat>)
    requires i < |others|
    ensures RelatedTo(e, s, others[..i + 1], campOf) ==
              RelatedTo(e, s, others[..i], campOf) + RelatedEntry(e, s, others[i], campOf)
    ensures Target(e, s, others[..i + 1], campOf) ==
              var t := Target(e, s, others[..i], campOf);
              if t.None? && Anchors(e, s, others[i], campOf) then Some(campOf[others[i].sha]) else t
  {
    assert others[..i + 1][..i] == others[..i];
  }

  /** Campaign look-ups do not depend on the fingerprint rows. */
  lemma SameCampaigns(pick: Picker, d: Store, d': Store)
    requires d.campaigns == d'.campaigns && d.members == d'.members
    ensures CampaignMap(pick, d) == CampaignMap(pick, d')
    ensures forall sha :: CampaignOf(pick, d, sha) == CampaignOf(pick, d', sha)
  {
    forall sha ensures CampaignOf(pick, d, sha) == CampaignOf(pick, d', sha) {
    }
  }

  /** `related.sort(key=similarity, reverse=True)`: a stable insertion from the right. */
  method SortRelated(rs: seq<Related>) returns (sorted: seq<Related>)
    ensures sorted == SortDescending(rs)
  {
    sorted := [];
    var i := |rs|;
    while i > 0
      invariant 0 <= i <= |rs|
      invariant sorted == SortDescending(rs[i..])
    {
      i := i - 1;
      sorted := InsertDescending(rs[i], sorted);
      assert rs[i..][0] == rs[i] && rs[i..][1..] == rs[i + 1..];
    }
    assert rs[0..] == rs;
  }

  method AnySeed(rs: seq<Related>) returns (any: bool)
    ensures any <==> SeedsCampaign(rs)
  {
    any := false;
    var i := 0;
    while i < |rs| && !any
      invariant 0 <= i <= |rs|
      invariant any <==> exists j :: 0 <= j < i && rs[j].similarity >= SEED_THRESHOLD
    {
      any := rs[i].similarity >= SEED_THRESHOLD;
      i := i + 1;
    }
  }

  class FraudDNARepository {
    var rows: seq<Fingerprint>
    var campaigns: map<nat, CampaignRow>
    var members: set<(nat, string)>
    const limitOne: Picker

    ghost function Contents(): Store
      reads this
    {
      Store(rows, campaigns, members)
    }

    constructor (limitOne: Picker)
      ensures Contents() == EMPTY_STORE && this.limitOne == limitOne
    {
      rows, campaigns, members, this.limitOne := [], map[], {}, limitOne;
    }

    /** Insert, or update in place keeping the creation time. */
    method SaveFingerprint(s: Fingerprint)
      modifies this`rows
      ensures rows == Upsert(old(rows), s)
    {
      var i := 0;
      while i < |rows| && rows[i].sha != s.sha
        invariant 0 <= i <= |rows|
        invariant forall k | 0 <= k < i :: rows[k].sha != s.sha
      {
        i := i + 1;
      }
      UpsertAt(rows, s, i);
      rows := if i < |rows| then rows[i := s] else rows + [s];
    }

    method ListFingerprints(exclude: string) returns (corpus: seq<Fingerprint>)
      ensures corpus == Others(rows, exclude)
    {
      corpus := [];
      var i := 0;
      while i < |rows|
        invariant 0 <= i <= |rows|
        invariant corpus == Others(rows[..i], exclude)
      {
        assert rows[..i + 1] == rows[..i] + [rows[i]];
        OthersAppend(rows[..i], rows[i], exclude);
        if rows[i].sha != exclude {
          corpus := corpus + [rows[i]];
        }
        i := i + 1;
      }
      assert rows[..i] == rows;
    }

    method GetCampaignForSample(sha: string) returns (c: Option<nat>)
      ensures c == CampaignOf(limitOne, Contents(), sha)
    {
      var ids := CampaignsHolding(members, sha);
      if ids == {} {
        return None;
      }
      c := if limitOne(ids) in campaigns then Some(limitOne(ids)) else None;
    }

    /** Upsert the row, then insert each membership that is not there yet. */
    method SaveCampaign(index: nat, row: CampaignRow, shas: set<string>)
      modifies this`campaigns, this`members
      ensures campaigns == old(campaigns)[index := row]
      ensures members == old(members) + set sha | sha in shas :: (index, sha)
    {
      campaigns := campaigns[index := row];
      var rest := shas;
      while rest != {}
        invariant rest <= shas
        invariant campaigns == old(campaigns)[index := row]
        invariant members == old(members) + set sha | sha in shas - rest :: (index, sha)
        decreases |rest|
      {
        var sha :| sha in rest;
        members := members + {(index, sha)};
        rest := rest - {sha};
      }
    }

    method GenerateNextIndex() returns (next: nat)
      ensures next == NextIndex(campaigns.Keys)
    {
      var largest, rest := 0, campaigns.Keys;
      while rest != {}
        invariant rest <= campaigns.Keys
        invariant forall i | i in campaigns.Keys - rest :: i <= largest
        invariant largest == 0 || largest in campaigns.Keys
        decreases |rest|
      {
        var i :| i in rest;
        assert forall j | j in campaigns.Keys - (rest - {i}) :: j == i || j in campaigns.Keys - rest;
        if i > largest {
          largest := i;
        }
        rest := rest - {i};
      }
      assert forall i | i in campaigns.Keys :: i in campaigns.Keys - rest;
      next := largest + 1;
      NextIndexIsUnique(campaigns.Keys, next);
    }
  }

  class CampaignCorrelator {
    const calculator: FraudDNASimilarityCalculator
    const threshold: real
    var corpus: seq<Fingerprint>
    var campaigns: map<nat, Campaign>
    var campOf: map<string, nat>
    var nextIndex: nat

    ghost function Contents(): Memory
      reads this
    {
      Memory(corpus, campaigns, campOf, nextIndex)
    }

    ghost function TheEngine(): Engine {
      var soft := calculator.soft;
      Engine((a, b) => Compared(soft, a, b), threshold)
    }

    lemma EngineUsesCalculator()
      ensures UsesCalculator(TheEngine(), calculator.soft)
    {
      forall a, b ensures ComparesWith(TheEngine(), calculator.soft, a, b) {
      }
    }

    constructor (calculator: FraudDNASimilarityCalculator, threshold: real)
      ensures Contents() == EMPTY_MEMORY && this.calculator == calculator && this.threshold == threshold
    {
      this.calculator, this.threshold := calculator, threshold;
      corpus, campaigns, campOf, nextIndex := [], map[], map[], 1;
    }

    /**
     One corpus sample: its related entry if there is one, and the campaign it
     anchors the new sample to. Campaigns are looked up in the tables, or in the
     correlator's own dictionary when there is no repository.
     */
    method Inspect(db: FraudDNARepository?, s: Fingerprint, other: Fingerprint, ghost campaignMap: map<string, nat>)
      returns (entry: seq<Related>, anchor: Option<nat>)
      requires campaignMap == if db == null then campOf else CampaignMap(db.limitOne, db.Contents())
      ensures entry == RelatedEntry(TheEngine(), s, other, campaignMap)
      ensures anchor == if Anchors(TheEngine(), s, other, campaignMap) then Some(campaignMap[other.sha]) else None
    {
      hide Compared, CampaignMap, CampaignOf;
      if other.sha == s.sha {
        return [], None;
      }
      var cmp := calculator.Compare(s, other);
      assert cmp == TheEngine().compare(s, other);
      if !(cmp.overall >= threshold || cmp.reasons != []) {
        return [], None;
      }
      var campaign := Get(campOf, other.sha);
      if db != null {
        campaign := db.GetCampaignForSample(other.sha);
        CampaignMapIsCampaignOf(db.limitOne, db.Contents(), other.sha);
      }
      entry := [Related(other.sha, cmp.overall, cmp.reasons, campaign, other.appLabel, other.packageName)];
      anchor := if HasHardAnchor(cmp) then campaign else None;
    }

    /** One pass: the related samples in corpus order, and the first anchor. */
    method Scan(db: FraudDNARepository?, s: Fingerprint, others: seq<Fingerprint>, ghost campaignMap: map<string, nat>)
      returns (related: seq<Related>, target: Option<nat>)
      requires campaignMap == if db == null then campOf else CampaignMap(db.limitOne, db.Contents())
      ensures related == RelatedTo(TheEngine(), s, others, campaignMap)
      ensures target == Target(TheEngine(), s, others, campaignMap)
    {
      hide CampaignMap, RelatedEntry, Anchors;
      related, target := [], None;
      var i := 0;
      while i < |others|
        invariant 0 <= i <= |others|
        invariant related == RelatedTo(TheEngine(), s, others[..i], campaignMap)
        invariant target == Target(TheEngine(), s, others[..i], campaignMap)
      {
        ScanStep(TheEngine(), s, others, i, campaignMap);
        var entry, anchor := Inspect(db, s, others[i], campaignMap);
        related := related + entry;
        if target.None? {
          target := anchor;
        }
        i := i + 1;
      }
      assert others[..i] == others;
    }

    method JoinInMemory(s: Fingerprint, t: nat) returns (c: Campaign)
      requires t in campaigns
      modifies this`campaigns, this`campOf
      ensures c == Joined(old(campaigns)[t], s)
      ensures campaigns == old(campaigns)[t := c] && campOf == old(campOf)[s.sha := t]
    {
      c := campaigns[t];
      if s.sha !in c.members {
        c := Campaign(Enriched(c.row, s), c.members + [s.sha]);
      }
      campaigns := campaigns[t := c];
      campOf := campOf[s.sha := t];
    }

    /** Returns no campaign when the id is refused, with the map and the counter already changed. */
    method FoundInMemory(s: Fingerprint, related: seq<Related>) returns (c: Option<Campaign>)
      modifies this`campaigns, this`campOf, this`nextIndex
      ensures nextIndex == old(nextIndex) + 1
      ensures var shas := Founders([s.sha], related);
              var index := old(nextIndex);
              if index > MAX_INDEX then
                c == None && campaigns == old(campaigns) && campOf == WithAll(old(campOf), shas[1..], index)
              else
                && c == Some(Campaign(FoundedRow(index, s), shas))
                && campaigns == old(campaigns)[index := c.value] && campOf == WithAll(old(campOf), shas, index)
    {
      hide WithAll, Founders;
      var index := nextIndex;
      nextIndex := nextIndex + 1;
      var shas := Recruit(s, related, index);
      if index > MAX_INDEX {
        return None;
      }
      c := Some(Campaign(FoundedRow(index, s), shas));
      campaigns := campaigns[index := c.value];
      campOf := campOf[s.sha := index];
      FounderIsMappedToo(old(campOf), shas, index);
    }

    /** The in-memory path. */
    method CorrelateInMemory(s: Fingerprint) returns (outcome: Outcome)
      modifies this
      ensures (Contents(), outcome) == MemoryStep(TheEngine(), old(Contents()), s)
    {
      hide WithAll, Founders, FillCampaign, SortDescending, RelatedTo, Target, Upsert;
      var found, target := Scan(null, s, corpus, campOf);
      var related := SortRelated(found);
      var seeds := AnySeed(related);
      var joined: Option<Campaign> := None;
      if target.Some? && target.value in campaigns {
        var c := JoinInMemory(s, target.value);
        joined := Some(c);
      } else if seeds {
        joined := FoundInMemory(s, related);
        if joined.None? {
          return InvalidCampaignId;
        }
      }
      corpus := Upsert(corpus, s);
      related := FillIn(related);
      outcome := Correlated(joined, related);
    }

    /** The founding loop: it maps every recruited sample before the campaign exists. */
    method Recruit(s: Fingerprint, related: seq<Related>, index: nat) returns (shas: seq<string>)
      modifies this`campOf
      ensures shas == Founders([s.sha], related) && shas[0] == s.sha
      ensures campOf == WithAll(old(campOf), shas[1..], index)
    {
      hide WithAll;
      shas := [s.sha];
      assert shas[1..] == [];
      OneMoreIsMapped(campOf, [], s.sha, index);
      var i := 0;
      while i < |related|
        invariant 0 <= i <= |related|
        invariant |shas| > 0 && shas[0] == s.sha
        invariant Founders(shas, related[i..]) == Founders([s.sha], related)
        invariant campOf == WithAll(old(campOf), shas[1..], index)
      {
        var r := related[i];
        assert related[i..][0] == r && related[i..][1..] == related[i + 1..];
        if r.similarity >= SEED_THRESHOLD && r.sha !in shas {
          assert (shas + [r.sha])[1..] == shas[1..] + [r.sha];
          OneMoreIsMapped(old(campOf), shas[1..], r.sha, index);
          shas := shas + [r.sha];
          campOf := campOf[r.sha := index];
        }
        i := i + 1;
      }
    }

    /** The closing loop fills in campaign ids that were unknown during the scan. */
    method FillIn(related: seq<Related>) returns (filled: seq<Related>)
      ensures filled == FillCampaign(related, campOf)
    {
      hide FillCampaign;
      FillIsPointwise(related, campOf);
      filled := related;
      var i := 0;
      while i < |related|
        invariant 0 <= i <= |related| == |filled|
        invariant forall j | i <= j < |related| :: filled[j] == related[j]
        invariant forall j | 0 <= j < i :: filled[j] == FillCampaign(related, campOf)[j]
      {
        if filled[i].campaign.None? {
          filled := filled[i := filled[i].(campaign := Get(campOf, filled[i].sha))];
        }
        i := i + 1;
      }
    }

    /** The related samples that belong to the assigned campaign report its id. */
    method ClaimMembers(related: seq<Related>, shas: set<string>, index: nat) returns (claimed: seq<Related>)
      ensures claimed == Assign(related, shas, index)
    {
      hide Assign;
      AssignIsPointwise(related, shas, index);
      claimed := related;
      var i := 0;
      while i < |related|
        invariant 0 <= i <= |related| == |claimed|
        invariant forall j | i <= j < |related| :: claimed[j] == related[j]
        invariant forall j | 0 <= j < i :: claimed[j] == Assign(related, shas, index)[j]
      {
        if claimed[i].sha in shas {
          claimed := claimed[i := claimed[i].(campaign := Some(index))];
        }
        i := i + 1;
      }
    }

    method ListFounders(s: Fingerprint, related: seq<Related>) returns (shas: seq<string>)
      ensures shas == Founders([s.sha], related)
    {
      shas := [s.sha];
      var i := 0;
      while i < |related|
        invariant 0 <= i <= |related|
        invariant Founders(shas, related[i..]) == Founders([s.sha], related)
      {
        var r := related[i];
        assert related[i..][0] == r && related[i..][1..] == related[i + 1..];
        if r.similarity >= SEED_THRESHOLD && r.sha !in shas {
          shas := shas + [r.sha];
        }
        i := i + 1;
      }
    }

    /** The database path: one transaction, undone when the new id is refused. */
    method CorrelateInDatabase(db: FraudDNARepository, s: Fingerprint) returns (outcome: StoreOutcome)
      modifies db
      ensures (db.Contents(), outcome) == StoreStep(TheEngine(), db.limitOne, old(db.Contents()), s)
    {
      hide Founders, Assign, SortDescending, RelatedTo, Target, Upsert, Others, CampaignMap, CampaignOf;
      ghost var before := db.Contents();
      var snapshot := (db.rows, db.campaigns, db.members);
      db.SaveFingerprint(s);
      var others := db.ListFingerprints(s.sha);
      ghost var campaignMap := CampaignMap(db.limitOne, before);
      SameCampaigns(db.limitOne, before, db.Contents());
      var found, target := Scan(db, s, others, campaignMap);
      var related := SortRelated(found);
      var seeds := AnySeed(related);
      if target.None? {
        target := db.GetCampaignForSample(s.sha);
      }
      if target.Some? {
        if target.value !in db.campaigns {
          return StoreCorrelated(None, related);
        }
        var row := Enriched(db.campaigns[target.value], s);
        var shas := MembersOf(db.members, target.value) + {s.sha};
        db.SaveCampaign(target.value, row, shas);
        assert db.members == before.members + {(target.value, s.sha)};
        related := ClaimMembers(related, shas, target.value);
        outcome := StoreCorrelated(Some(StoredCampaign(row, shas)), related);
      } else if seeds {
        var index := db.GenerateNextIndex();
        var shas := ListFounders(s, related);
        if index > MAX_INDEX {
          db.rows, db.campaigns, db.members := snapshot.0, snapshot.1, snapshot.2;
          return StoreInvalidId;
        }
        var row := FoundedRow(index, s);
        db.SaveCampaign(index, row, ToSet(shas));
        related := ClaimMembers(related, ToSet(shas), index);
        outcome := StoreCorrelated(Some(StoredCampaign(row, ToSet(shas))), related);
      } else {
        outcome := StoreCorrelated(None, related);
      }
    }
  }
}
