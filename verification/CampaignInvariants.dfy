/**
 What every run of distinct samples keeps: campaigns partition their samples,
 each campaign is connected by hard links, and its aggregate lists hold exactly
 the values of its founding sample and of the samples that joined later.
 */
module CampaignInvariants {
  import opened Common
  import opened SortedTexts
  import opened Similarity
  import opened Campaigns

  /* ---------- Passes over the corpus ---------- */

  ghost predicate InCorpus(corpus: seq<Fingerprint>, sha: string) {
    exists i :: 0 <= i < |corpus| && corpus[i].sha == sha
  }

  ghost predicate DistinctShas(corpus: seq<Fingerprint>) {
    forall i, j | 0 <= i < j < |corpus| :: corpus[i].sha != corpus[j].sha
  }

  lemma AnchorsMeansHardLinked(e: Engine, soft: SoftSignals, s: Fingerprint, other: Fingerprint,
                               campOf: map<string, nat>)
    requires UsesCalculator(e, soft)
    ensures Anchors(e, s, other, campOf) <==>
              other.sha != s.sha && HardLinked(s, other) && other.sha in campOf
  {
    assert ComparesWith(e, soft, s, other);
    if other.sha != s.sha && HardLinked(s, other) {
      HardLinkHasReason(soft, s, other);
    }
  }

  /** The sample is hard-linked to the i-th of the corpus, and that has a campaign. */
  ghost predicate LinksTo(s: Fingerprint, corpus: seq<Fingerprint>, campOf: map<string, nat>, i: nat) {
    i < |corpus| && corpus[i].sha != s.sha && HardLinked(s, corpus[i]) && corpus[i].sha in campOf
  }

  /** And it is the first such sample whose campaign is the target. */
  lemma {:induction false} TargetIsFirst(e: Engine, soft: SoftSignals, s: Fingerprint, corpus: seq<Fingerprint>,
                                         campOf: map<string, nat>)
    requires UsesCalculator(e, soft)
    ensures Target(e, s, corpus, campOf).Some? ==>
              exists i: nat :: LinksTo(s, corpus, campOf, i)
                               && Target(e, s, corpus, campOf) == Some(campOf[corpus[i].sha])
                               && forall j: nat | j < i :: !LinksTo(s, corpus, campOf, j)
    ensures Target(e, s, corpus, campOf).None? ==> forall i: nat :: !LinksTo(s, corpus, campOf, i)
  {
    hide HardLinked, Anchors;
    if corpus != [] {
      var n := |corpus| - 1;
      TargetIsFirst(e, soft, s, corpus[..n], campOf);
      AnchorsMeansHardLinked(e, soft, s, corpus[n], campOf);
      forall i: nat | i < n ensures LinksTo(s, corpus[..n], campOf, i) <==> LinksTo(s, corpus, campOf, i) {
        assert corpus[..n][i] == corpus[i];
      }
      if Target(e, s, corpus[..n], campOf).Some? {
        var i: nat :| LinksTo(s, corpus[..n], campOf, i)
                      && Target(e, s, corpus[..n], campOf) == Some(campOf[corpus[..n][i].sha])
                      && forall j: nat | j < i :: !LinksTo(s, corpus[..n], campOf, j);
        assert LinksTo(s, corpus, campOf, i) && corpus[i] == corpus[..n][i];
      } else if Anchors(e, s, corpus[n], campOf) {
        assert LinksTo(s, corpus, campOf, n);
      }
    }
  }

  /** The target is the campaign of some hard-linked sample, and is missing only if there is none. */
  lemma {:induction false} TargetSpec(e: Engine, soft: SoftSignals, s: Fingerprint, corpus: seq<Fingerprint>,
                                      campOf: map<string, nat>)
    requires UsesCalculator(e, soft)
    ensures Target(e, s, corpus, campOf).Some? ==>
              exists i :: 0 <= i < |corpus| && corpus[i].sha != s.sha && HardLinked(s, corpus[i])
                          && Get(campOf, corpus[i].sha) == Target(e, s, corpus, campOf)
    ensures Target(e, s, corpus, campOf).None? ==>
              forall i | 0 <= i < |corpus| && corpus[i].sha != s.sha && HardLinked(s, corpus[i]) ::
                corpus[i].sha !in campOf
  {
    if corpus != [] {
      var n := |corpus| - 1;
      TargetSpec(e, soft, s, corpus[..n], campOf);
      AnchorsMeansHardLinked(e, soft, s, corpus[n], campOf);
      if Target(e, s, corpus[..n], campOf).Some? {
        var i :| 0 <= i < n && corpus[..n][i].sha != s.sha && HardLinked(s, corpus[..n][i])
                 && Get(campOf, corpus[..n][i].sha) == Target(e, s, corpus[..n], campOf);
        assert corpus[i] == corpus[..n][i];
      } else if Target(e, s, corpus, campOf).None? {
        forall i | 0 <= i < |corpus| && corpus[i].sha != s.sha && HardLinked(s, corpus[i])
          ensures corpus[i].sha !in campOf
        {
          if i < n {
            assert corpus[..n][i] == corpus[i];
          }
        }
      }
    }
  }

  ghost predicate EntryOf(e: Engine, s: Fingerprint, corpus: seq<Fingerprint>, campOf: map<string, nat>, r: Related,
                          i: nat) {
    i < |corpus| && corpus[i].sha == r.sha != s.sha && r.similarity == e.compare(s, corpus[i]).overall
    && r.campaign == Get(campOf, r.sha)
  }

  /** Every related entry reports some corpus sample and its score. */
  lemma {:induction false} RelatedSpec(e: Engine, s: Fingerprint, corpus: seq<Fingerprint>, campOf: map<string, nat>,
                                       r: Related)
    requires r in RelatedTo(e, s, corpus, campOf)
    ensures exists i: nat :: EntryOf(e, s, corpus, campOf, r, i)
  {
    var n := |corpus| - 1;
    if r in RelatedTo(e, s, corpus[..n], campOf) {
      RelatedSpec(e, s, corpus[..n], campOf, r);
      var i: nat :| EntryOf(e, s, corpus[..n], campOf, r, i);
      assert EntryOf(e, s, corpus, campOf, r, i);
    } else {
      assert r in RelatedEntry(e, s, corpus[n], campOf);
      assert EntryOf(e, s, corpus, campOf, r, n);
    }
  }

  lemma {:induction false} InsertDescendingAdds(r: Related, rs: seq<Related>)
    ensures multiset(InsertDescending(r, rs)) == multiset(rs) + multiset{r}
  {
    if !(rs == [] || rs[0].similarity <= r.similarity) {
      InsertDescendingAdds(r, rs[1..]);
      assert rs == [rs[0]] + rs[1..];
    }
  }

  lemma {:induction false} SortKeeps(rs: seq<Related>)
    ensures multiset(SortDescending(rs)) == multiset(rs)
  {
    if rs != [] {
      SortKeeps(rs[1..]);
      InsertDescendingAdds(rs[0], SortDescending(rs[1..]));
      assert rs == [rs[0]] + rs[1..];
    }
  }

  lemma SortKeepsMembers(rs: seq<Related>, r: Related)
    ensures r in SortDescending(rs) <==> r in rs
  {
    SortKeeps(rs);
    assert r in multiset(SortDescending(rs)) <==> r in multiset(rs);
  }

  predicate Seeds(rs: seq<Related>, sha: string, i: nat) {
    i < |rs| && rs[i].sha == sha && rs[i].similarity >= 0.45
  }

  /** Founders are the given members and, once each, the samples at or above the seed threshold. */
  lemma {:induction false} FoundersSpec(members: seq<string>, rs: seq<Related>)
    requires NoDuplicates(members)
    ensures NoDuplicates(Founders(members, rs))
    ensures forall x :: x in Founders(members, rs) <==> x in members || exists i: nat :: Seeds(rs, x, i)
    decreases |rs|
  {
    if rs != [] {
      var members' := if rs[0].similarity >= SEED_THRESHOLD && rs[0].sha !in members
                      then members + [rs[0].sha] else members;
      FoundersSpec(members', rs[1..]);
      forall x ensures x in Founders(members, rs) <==> x in members || exists i: nat :: Seeds(rs, x, i) {
        if i: nat :| Seeds(rs[1..], x, i) {
          assert Seeds(rs, x, i + 1);
        }
        if i: nat :| Seeds(rs, x, i) {
          assert i == 0 || Seeds(rs[1..], x, i - 1);
        }
        if rs[0].similarity >= SEED_THRESHOLD {
          assert Seeds(rs, rs[0].sha, 0);
        }
      }
    }
  }

  lemma {:induction false} UpsertNew(corpus: seq<Fingerprint>, s: Fingerprint)
    requires !InCorpus(corpus, s.sha)
    ensures Upsert(corpus, s) == corpus + [s]
  {
    if corpus != [] {
      assert corpus[0].sha != s.sha;
      forall i | 0 <= i < |corpus[1..]| ensures corpus[1..][i].sha != s.sha {
        assert corpus[1..][i] == corpus[i + 1];
      }
      UpsertNew(corpus[1..], s);
    }
  }

  /* ---------- The invariant ---------- */

  ghost predicate LinkedIn(corpus: seq<Fingerprint>, a: string, b: string) {
    exists i, j :: 0 <= i < |corpus| && 0 <= j < |corpus| && corpus[i].sha == a && corpus[j].sha == b
                   && HardLinked(corpus[i], corpus[j])
  }

  /** Every member but the founder is hard-linked to a member listed before it. */
  ghost predicate HasParent(corpus: seq<Fingerprint>, members: seq<string>, i: nat)
    requires i < |members|
  {
    exists j: nat :: j < i && LinkedIn(corpus, members[i], members[j])
  }

  ghost predicate Tree(corpus: seq<Fingerprint>, members: seq<string>) {
    members != [] && NoDuplicates(members) && forall i: nat | 0 < i < |members| :: HasParent(corpus, members, i)
  }

  /** Corpus position `k` holds the founding sample of a campaign or a member that came after it. */
  ghost predicate Contributes(corpus: seq<Fingerprint>, members: seq<string>, k: nat) {
    k < |corpus| && members != [] && corpus[k].sha in members
    && exists f: nat :: f <= k && corpus[f].sha == members[0]
  }

  ghost predicate GathersValue(values: seq<string>, corpus: seq<Fingerprint>, members: seq<string>,
                               field: Fingerprint -> seq<string>, v: string)
  {
    v in values <==> exists k: nat :: Contributes(corpus, members, k) && v in field(corpus[k])
  }

  ghost predicate Gathers(values: seq<string>, corpus: seq<Fingerprint>, members: seq<string>,
                          field: Fingerprint -> seq<string>)
  {
    forall v :: GathersValue(values, corpus, members, field, v)
  }

  const BEHAVIORS := (s: Fingerprint) => s.behaviors
  const INFRASTRUCTURE := (s: Fingerprint) => s.domains + s.urls
  const FIREBASE := (s: Fingerprint) => s.firebase
  const SIGNERS := (s: Fingerprint) => s.signers

  ghost predicate Aggregated(corpus: seq<Fingerprint>, c: Campaign) {
    && Gathers(c.row.signatures, corpus, c.members, BEHAVIORS)
    && Gathers(c.row.infrastructure, corpus, c.members, INFRASTRUCTURE)
    && Gathers(c.row.firebase, corpus, c.members, FIREBASE)
    && Gathers(c.row.signers, corpus, c.members, SIGNERS)
  }

  ghost predicate CampaignInv(corpus: seq<Fingerprint>, campOf: map<string, nat>, index: nat, c: Campaign) {
    && c.row.index == index
    && Tree(corpus, c.members)
    && (forall sha | sha in c.members :: Get(campOf, sha) == Some(index))
    && Aggregated(corpus, c)
  }

  ghost predicate MapAgrees(m: Memory) {
    forall sha | sha in m.campOf ::
      InCorpus(m.corpus, sha) && m.campOf[sha] in m.campaigns && sha in m.campaigns[m.campOf[sha]].members
  }

  ghost predicate MemoryInv(m: Memory) {
    && DistinctShas(m.corpus)
    && 1 <= m.nextIndex <= MAX_INDEX + 1
    && (forall c :: c in m.campaigns <==> 1 <= c < m.nextIndex)
    && MapAgrees(m)
    && forall c | c in m.campaigns :: CampaignInv(m.corpus, m.campOf, c, m.campaigns[c])
  }

  /* ---------- A new sample leaves the other campaigns alone ---------- */

  lemma LinkedInGrows(corpus: seq<Fingerprint>, s: Fingerprint, a: string, b: string)
    requires LinkedIn(corpus, a, b)
    ensures LinkedIn(corpus + [s], a, b)
  {
    var i, j :| 0 <= i < |corpus| && 0 <= j < |corpus| && corpus[i].sha == a && corpus[j].sha == b
                && HardLinked(corpus[i], corpus[j]);
    assert (corpus + [s])[i] == corpus[i] && (corpus + [s])[j] == corpus[j];
  }

  lemma ParentKept(corpus: seq<Fingerprint>, s: Fingerprint, members: seq<string>, more: seq<string>, i: nat)
    requires i < |members| && HasParent(corpus, members, i)
    ensures HasParent(corpus + [s], members + more, i)
  {
    var j: nat :| j < i && LinkedIn(corpus, members[i], members[j]);
    LinkedInGrows(corpus, s, members[i], members[j]);
    assert (members + more)[i] == members[i] && (members + more)[j] == members[j];
  }

  lemma ContributesGrows(corpus: seq<Fingerprint>, s: Fingerprint, members: seq<string>, more: seq<string>, k: nat)
    requires k < |corpus| && members != [] && corpus[k].sha !in more
    ensures Contributes(corpus, members, k) <==> Contributes(corpus + [s], members + more, k)
  {
    var corpus' := corpus + [s];
    assert corpus'[k] == corpus[k] && (members + more)[0] == members[0];
    if f: nat :| f <= k && corpus[f].sha == members[0] {
      assert corpus'[f].sha == (members + more)[0];
    }
    if f: nat :| f <= k && corpus'[f].sha == (members + more)[0] {
      assert corpus[f].sha == members[0];
    }
  }

  lemma GathersKept(values: seq<string>, corpus: seq<Fingerprint>, s: Fingerprint, members: seq<string>,
                    field: Fingerprint -> seq<string>)
    requires Gathers(values, corpus, members, field) && members != [] && s.sha !in members
    ensures Gathers(values, corpus + [s], members, field)
  {
    var corpus' := corpus + [s];
    forall v ensures GathersValue(values, corpus', members, field, v) {
      assert GathersValue(values, corpus, members, field, v);
      assert members + [] == members;
      if k: nat :| Contributes(corpus, members, k) && v in field(corpus[k]) {
        ContributesGrows(corpus, s, members, [], k);
        assert v in field(corpus'[k]);
      }
      if k: nat :| Contributes(corpus', members, k) && v in field(corpus'[k]) {
        assert k < |corpus|;
        ContributesGrows(corpus, s, members, [], k);
        assert v in field(corpus[k]);
      }
    }
  }

  lemma CampaignInvKept(corpus: seq<Fingerprint>, s: Fingerprint, campOf: map<string, nat>, campOf': map<string, nat>,
                        index: nat, c: Campaign)
    requires CampaignInv(corpus, campOf, index, c) && s.sha !in c.members
    requires forall sha | sha in c.members :: Get(campOf', sha) == Get(campOf, sha)
    ensures CampaignInv(corpus + [s], campOf', index, c)
  {
    forall i: nat | 0 < i < |c.members| ensures HasParent(corpus + [s], c.members, i) {
      ParentKept(corpus, s, c.members, [], i);
      assert c.members + [] == c.members;
    }
    GathersKept(c.row.signatures, corpus, s, c.members, BEHAVIORS);
    GathersKept(c.row.infrastructure, corpus, s, c.members, INFRASTRUCTURE);
    GathersKept(c.row.firebase, corpus, s, c.members, FIREBASE);
    GathersKept(c.row.signers, corpus, s, c.members, SIGNERS);
  }

  lemma InCorpusGrows(corpus: seq<Fingerprint>, s: Fingerprint, sha: string)
    ensures InCorpus(corpus + [s], sha) <==> InCorpus(corpus, sha) || sha == s.sha
  {
    var corpus' := corpus + [s];
    assert corpus'[|corpus|] == s;
    if i :| 0 <= i < |corpus| && corpus[i].sha == sha {
      assert corpus'[i].sha == sha;
    }
    if i :| 0 <= i < |corpus'| && corpus'[i].sha == sha {
      assert i < |corpus| ==> corpus[i].sha == sha;
    }
  }

  lemma DistinctShasGrow(corpus: seq<Fingerprint>, s: Fingerprint)
    requires DistinctShas(corpus) && !InCorpus(corpus, s.sha)
    ensures DistinctShas(corpus + [s])
  {
  }

  /* ---------- Joining ---------- */

  lemma GathersJoined(values: seq<string>, values': seq<string>, corpus: seq<Fingerprint>, s: Fingerprint,
                      members: seq<string>, field: Fingerprint -> seq<string>)
    requires Gathers(values, corpus, members, field)
    requires members != [] && !InCorpus(corpus, s.sha) && InCorpus(corpus, members[0])
    requires forall v :: v in values' <==> v in values || v in field(s)
    ensures Gathers(values', corpus + [s], members + [s.sha], field)
  {
    var corpus', members', n := corpus + [s], members + [s.sha], |corpus|;
    assert Contributes(corpus', members', n) by {
      var f: nat :| f < |corpus| && corpus[f].sha == members[0];
      assert corpus'[f].sha == members'[0] && corpus'[n] == s;
    }
    forall v ensures GathersValue(values', corpus', members', field, v) {
      assert GathersValue(values, corpus, members, field, v);
      if k: nat :| Contributes(corpus, members, k) && v in field(corpus[k]) {
        ContributesGrows(corpus, s, members, [s.sha], k);
        assert v in field(corpus'[k]);
      }
      if k: nat :| Contributes(corpus', members', k) && v in field(corpus'[k]) {
        if k < n {
          assert corpus'[k] == corpus[k] && corpus[k].sha != s.sha;
          ContributesGrows(corpus, s, members, [s.sha], k);
          assert v in field(corpus[k]);
        }
      }
    }
  }

  lemma EnrichedValues(row: CampaignRow, s: Fingerprint)
    ensures forall v :: v in Enriched(row, s).signatures <==> v in row.signatures || v in s.behaviors
    ensures forall v :: v in Enriched(row, s).infrastructure <==> v in row.infrastructure || v in s.domains + s.urls
    ensures forall v :: v in Enriched(row, s).firebase <==> v in row.firebase || v in s.firebase
    ensures forall v :: v in Enriched(row, s).signers <==> v in row.signers || v in s.signers
  {
    forall v ensures v in Enriched(row, s).signatures <==> v in row.signatures || v in s.behaviors {
      SortedSetIsTheSet(row.signatures + s.behaviors, v);
    }
    forall v ensures v in Enriched(row, s).infrastructure <==> v in row.infrastructure || v in s.domains + s.urls {
      SortedSetIsTheSet(row.infrastructure + s.domains + s.urls, v);
    }
    forall v ensures v in Enriched(row, s).firebase <==> v in row.firebase || v in s.firebase {
      SortedSetIsTheSet(row.firebase + s.firebase, v);
    }
    forall v ensures v in Enriched(row, s).signers <==> v in row.signers || v in s.signers {
      SortedSetIsTheSet(row.signers + s.signers, v);
    }
  }

  lemma JoinedCampaign(corpus: seq<Fingerprint>, campOf: map<string, nat>, t: nat, c: Campaign, s: Fingerprint,
                       link: nat)
    requires CampaignInv(corpus, campOf, t, c) && !InCorpus(corpus, s.sha)
    requires forall sha | sha in c.members :: InCorpus(corpus, sha)
    requires link < |corpus| && HardLinked(s, corpus[link]) && corpus[link].sha in c.members
    ensures CampaignInv(corpus + [s], campOf[s.sha := t], t, Joined(c, s))
    ensures Joined(c, s).members == c.members + [s.sha]
  {
    var corpus', members', n := corpus + [s], c.members + [s.sha], |c.members|;
    assert s.sha !in c.members;
    forall i: nat | 0 < i < |members'| ensures HasParent(corpus', members', i) {
      if i < n {
        ParentKept(corpus, s, c.members, [s.sha], i);
      } else {
        var j: nat :| j < n && c.members[j] == corpus[link].sha;
        assert corpus'[|corpus|] == s && corpus'[link] == corpus[link];
        assert LinkedIn(corpus', members'[n], members'[j]);
      }
    }
    assert c.members[0] in c.members;
    EnrichedValues(c.row, s);
    var row := Enriched(c.row, s);
    GathersJoined(c.row.signatures, row.signatures, corpus, s, c.members, BEHAVIORS);
    GathersJoined(c.row.infrastructure, row.infrastructure, corpus, s, c.members, INFRASTRUCTURE);
    GathersJoined(c.row.firebase, row.firebase, corpus, s, c.members, FIREBASE);
    GathersJoined(c.row.signers, row.signers, corpus, s, c.members, SIGNERS);
  }

  /* ---------- Founding ---------- */

  lemma GathersFounded(corpus: seq<Fingerprint>, s: Fingerprint, members: seq<string>,
                       field: Fingerprint -> seq<string>)
    requires !InCorpus(corpus, s.sha) && members != [] && members[0] == s.sha
    ensures Gathers(field(s), corpus + [s], members, field)
  {
    var corpus', n := corpus + [s], |corpus|;
    assert corpus'[n] == s && Contributes(corpus', members, n);
    assert forall i | 0 <= i < n :: corpus'[i].sha != s.sha;
    forall v ensures GathersValue(field(s), corpus', members, field, v) {
      if k: nat :| Contributes(corpus', members, k) && v in field(corpus'[k]) {
        var f: nat :| f <= k && corpus'[f].sha == members[0];
        assert k == n;
      }
    }
  }

  /** What is known of a member of a new campaign other than its founder. */
  lemma CofounderFacts(e: Engine, soft: SoftSignals, m: Memory, s: Fingerprint, x: string)
    requires UsesCalculator(e, soft)
    requires Target(e, s, m.corpus, m.campOf).None?
    requires x in Founders([s.sha], SortDescending(RelatedTo(e, s, m.corpus, m.campOf))) && x != s.sha
    ensures InCorpus(m.corpus, x) && x !in m.campOf && LinkedIn(m.corpus + [s], x, s.sha)
  {
    var related := RelatedTo(e, s, m.corpus, m.campOf);
    var sorted := SortDescending(related);
    FoundersSpec([s.sha], sorted);
    var k: nat :| Seeds(sorted, x, k);
    SortKeepsMembers(related, sorted[k]);
    RelatedSpec(e, s, m.corpus, m.campOf, sorted[k]);
    var i: nat :| EntryOf(e, s, m.corpus, m.campOf, sorted[k], i);
    assert ComparesWith(e, soft, s, m.corpus[i]);
    SeedImpliesHardLink(s, m.corpus[i]);
    ScoreBounds(s, m.corpus[i]);
    TargetSpec(e, soft, s, m.corpus, m.campOf);
    var corpus' := m.corpus + [s];
    assert corpus'[i] == m.corpus[i] && corpus'[|m.corpus|] == s;
  }

  lemma FoundedCampaign(e: Engine, soft: SoftSignals, m: Memory, s: Fingerprint)
    requires UsesCalculator(e, soft)
    requires Target(e, s, m.corpus, m.campOf).None? && !InCorpus(m.corpus, s.sha)
    ensures var members := Founders([s.sha], SortDescending(RelatedTo(e, s, m.corpus, m.campOf)));
            CampaignInv(m.corpus + [s], WithAll(m.campOf, members, m.nextIndex), m.nextIndex,
                        Campaign(FoundedRow(m.nextIndex, s), members))
  {
    var sorted := SortDescending(RelatedTo(e, s, m.corpus, m.campOf));
    var members, corpus' := Founders([s.sha], sorted), m.corpus + [s];
    FoundersSpec([s.sha], sorted);
    assert members[0] == s.sha;
    forall i: nat | 0 < i < |members| ensures HasParent(corpus', members, i) {
      CofounderFacts(e, soft, m, s, members[i]);
      assert LinkedIn(corpus', members[i], members[0]);
    }
    GathersFounded(m.corpus, s, members, BEHAVIORS);
    GathersFounded(m.corpus, s, members, INFRASTRUCTURE);
    GathersFounded(m.corpus, s, members, FIREBASE);
    GathersFounded(m.corpus, s, members, SIGNERS);
  }

  /* ---------- One step ---------- */

  lemma TargetIsStored(e: Engine, soft: SoftSignals, m: Memory, s: Fingerprint)
    requires UsesCalculator(e, soft)
    requires MemoryInv(m)
    ensures Target(e, s, m.corpus, m.campOf).Some? ==> Target(e, s, m.corpus, m.campOf).value in m.campaigns
  {
    TargetSpec(e, soft, s, m.corpus, m.campOf);
  }

  function AfterJoin(m: Memory, s: Fingerprint, t: nat): Memory
    requires t in m.campaigns
  {
    Memory(m.corpus + [s], m.campaigns[t := Joined(m.campaigns[t], s)], m.campOf[s.sha := t], m.nextIndex)
  }

  lemma JoinKeepsCampaigns(m: Memory, s: Fingerprint, t: nat, link: nat)
    requires MemoryInv(m) && !InCorpus(m.corpus, s.sha) && t in m.campaigns
    requires link < |m.corpus| && HardLinked(s, m.corpus[link]) && Get(m.campOf, m.corpus[link].sha) == Some(t)
    ensures Joined(m.campaigns[t], s).members == m.campaigns[t].members + [s.sha]
    ensures forall i | i in m.campaigns ::
              CampaignInv(m.corpus + [s], m.campOf[s.sha := t], i, AfterJoin(m, s, t).campaigns[i])
  {
    assert CampaignInv(m.corpus, m.campOf, t, m.campaigns[t]);
    JoinedCampaign(m.corpus, m.campOf, t, m.campaigns[t], s, link);
    forall i | i in m.campaigns
      ensures CampaignInv(m.corpus + [s], m.campOf[s.sha := t], i, AfterJoin(m, s, t).campaigns[i])
    {
      if i != t {
        assert CampaignInv(m.corpus, m.campOf, i, m.campaigns[i]);
        CampaignInvKept(m.corpus, s, m.campOf, m.campOf[s.sha := t], i, m.campaigns[i]);
      }
    }
  }

  lemma JoinKeepsInv(m: Memory, s: Fingerprint, t: nat, link: nat)
    requires MemoryInv(m) && !InCorpus(m.corpus, s.sha) && t in m.campaigns
    requires link < |m.corpus| && HardLinked(s, m.corpus[link]) && Get(m.campOf, m.corpus[link].sha) == Some(t)
    ensures MemoryInv(AfterJoin(m, s, t))
  {
    var m' := AfterJoin(m, s, t);
    DistinctShasGrow(m.corpus, s);
    JoinKeepsCampaigns(m, s, t, link);
    forall sha | sha in m'.campOf
      ensures InCorpus(m'.corpus, sha) && m'.campOf[sha] in m'.campaigns && sha in m'.campaigns[m'.campOf[sha]].members
    {
      InCorpusGrows(m.corpus, s, sha);
    }
    assert MapAgrees(m');
  }

  lemma JoinStep(e: Engine, soft: SoftSignals, m: Memory, s: Fingerprint)
    requires UsesCalculator(e, soft)
    requires MemoryInv(m) && !InCorpus(m.corpus, s.sha) && Target(e, s, m.corpus, m.campOf).Some?
    ensures MemoryStep(e, m, s).1.Correlated? && MemoryInv(MemoryStep(e, m, s).0)
  {
    var t := Target(e, s, m.corpus, m.campOf).value;
    TargetSpec(e, soft, s, m.corpus, m.campOf);
    var link: nat :| link < |m.corpus| && HardLinked(s, m.corpus[link]) && Get(m.campOf, m.corpus[link].sha) == Some(t);
    assert t in m.campaigns;
    JoinKeepsInv(m, s, t, link);
    StepIsJoin(e, m, s);
  }

  lemma StepIsJoin(e: Engine, m: Memory, s: Fingerprint)
    requires !InCorpus(m.corpus, s.sha) && Target(e, s, m.corpus, m.campOf).Some?
    requires Target(e, s, m.corpus, m.campOf).value in m.campaigns
    ensures MemoryStep(e, m, s).1.Correlated?
    ensures MemoryStep(e, m, s).0 == AfterJoin(m, s, Target(e, s, m.corpus, m.campOf).value)
  {
    UpsertNew(m.corpus, s);
  }

  function AfterFounding(m: Memory, s: Fingerprint, members: seq<string>): Memory {
    Memory(m.corpus + [s], m.campaigns[m.nextIndex := Campaign(FoundedRow(m.nextIndex, s), members)],
           WithAll(m.campOf, members, m.nextIndex), m.nextIndex + 1)
  }

  lemma FoundingKeepsInv(m: Memory, s: Fingerprint, members: seq<string>)
    requires MemoryInv(m) && !InCorpus(m.corpus, s.sha) && m.nextIndex <= MAX_INDEX
    requires forall x | x in members :: x !in m.campOf && (x == s.sha || InCorpus(m.corpus, x))
    requires CampaignInv(m.corpus + [s], WithAll(m.campOf, members, m.nextIndex), m.nextIndex,
                         Campaign(FoundedRow(m.nextIndex, s), members))
    ensures MemoryInv(AfterFounding(m, s, members))
  {
    var m' := AfterFounding(m, s, members);
    DistinctShasGrow(m.corpus, s);
    forall i | i in m'.campaigns ensures CampaignInv(m'.corpus, m'.campOf, i, m'.campaigns[i]) {
      if i != m.nextIndex {
        assert CampaignInv(m.corpus, m.campOf, i, m.campaigns[i]);
        CampaignInvKept(m.corpus, s, m.campOf, m'.campOf, i, m.campaigns[i]);
      }
    }
    forall sha | sha in m'.campOf
      ensures InCorpus(m'.corpus, sha) && m'.campOf[sha] in m'.campaigns && sha in m'.campaigns[m'.campOf[sha]].members
    {
      InCorpusGrows(m.corpus, s, sha);
    }
    assert MapAgrees(m');
  }

  lemma FoundStep(e: Engine, soft: SoftSignals, m: Memory, s: Fingerprint)
    requires UsesCalculator(e, soft)
    requires MemoryInv(m) && !InCorpus(m.corpus, s.sha) && Target(e, s, m.corpus, m.campOf).None?
    requires SeedsCampaign(SortDescending(RelatedTo(e, s, m.corpus, m.campOf))) && m.nextIndex <= MAX_INDEX
    ensures MemoryStep(e, m, s).1.Correlated? && MemoryInv(MemoryStep(e, m, s).0)
  {
    var members := Founders([s.sha], SortDescending(RelatedTo(e, s, m.corpus, m.campOf)));
    FoundedCampaign(e, soft, m, s);
    forall x | x in members ensures x !in m.campOf && (x == s.sha || InCorpus(m.corpus, x)) {
      if x != s.sha {
        CofounderFacts(e, soft, m, s, x);
      }
    }
    FoundingKeepsInv(m, s, members);
    StepIsFounding(e, m, s);
  }

  lemma StepIsFounding(e: Engine, m: Memory, s: Fingerprint)
    requires !InCorpus(m.corpus, s.sha) && Target(e, s, m.corpus, m.campOf).None?
    requires SeedsCampaign(SortDescending(RelatedTo(e, s, m.corpus, m.campOf))) && m.nextIndex <= MAX_INDEX
    ensures MemoryStep(e, m, s).1.Correlated?
    ensures MemoryStep(e, m, s).0 ==
              AfterFounding(m, s, Founders([s.sha], SortDescending(RelatedTo(e, s, m.corpus, m.campOf))))
  {
    UpsertNew(m.corpus, s);
  }

  lemma StandingAloneKeepsInv(m: Memory, s: Fingerprint)
    requires MemoryInv(m) && !InCorpus(m.corpus, s.sha)
    ensures MemoryInv(m.(corpus := m.corpus + [s]))
  {
    var m' := m.(corpus := m.corpus + [s]);
    DistinctShasGrow(m.corpus, s);
    forall i | i in m'.campaigns ensures CampaignInv(m'.corpus, m'.campOf, i, m'.campaigns[i]) {
      assert CampaignInv(m.corpus, m.campOf, i, m.campaigns[i]);
      CampaignInvKept(m.corpus, s, m.campOf, m'.campOf, i, m.campaigns[i]);
    }
    forall sha | sha in m'.campOf ensures InCorpus(m'.corpus, sha) {
      InCorpusGrows(m.corpus, s, sha);
    }
    assert MapAgrees(m');
  }

  lemma StepIsAlone(e: Engine, m: Memory, s: Fingerprint)
    requires !InCorpus(m.corpus, s.sha) && Target(e, s, m.corpus, m.campOf).None?
    requires !SeedsCampaign(SortDescending(RelatedTo(e, s, m.corpus, m.campOf)))
    ensures MemoryStep(e, m, s).1.Correlated? && MemoryStep(e, m, s).0 == m.(corpus := m.corpus + [s])
  {
    UpsertNew(m.corpus, s);
  }

  ghost predicate OutOfIds(e: Engine, m: Memory, s: Fingerprint) {
    && Target(e, s, m.corpus, m.campOf).None? && m.nextIndex > MAX_INDEX
    && SeedsCampaign(SortDescending(RelatedTo(e, s, m.corpus, m.campOf)))
  }

  /**
   On a new sample the in-memory step keeps its invariant exactly when it does
   not run out of campaign ids. When it does, it raises after having mapped the
   would-be members to a campaign that does not exist.
   */
  lemma StepKeepsInvIffIdsLast(e: Engine, soft: SoftSignals, m: Memory, s: Fingerprint)
    requires UsesCalculator(e, soft)
    requires MemoryInv(m) && !InCorpus(m.corpus, s.sha)
    ensures MemoryStep(e, m, s).1.InvalidCampaignId? <==> OutOfIds(e, m, s)
    ensures MemoryInv(MemoryStep(e, m, s).0) <==> !OutOfIds(e, m, s)
    ensures OutOfIds(e, m, s) ==> !MapAgrees(MemoryStep(e, m, s).0)
  {
    TargetIsStored(e, soft, m, s);
    var sorted := SortDescending(RelatedTo(e, s, m.corpus, m.campOf));
    if Target(e, s, m.corpus, m.campOf).Some? {
      JoinStep(e, soft, m, s);
    } else if SeedsCampaign(sorted) {
      if m.nextIndex <= MAX_INDEX {
        FoundStep(e, soft, m, s);
      } else {
        OverflowLeavesDanglingSample(e, m, s);
      }
    } else {
      StandingAloneKeepsInv(m, s);
      StepIsAlone(e, m, s);
    }
  }

  lemma OverflowLeavesDanglingSample(e: Engine, m: Memory, s: Fingerprint)
    requires MemoryInv(m) && !InCorpus(m.corpus, s.sha) && OutOfIds(e, m, s)
    ensures !MapAgrees(MemoryStep(e, m, s).0)
  {
    var related := RelatedTo(e, s, m.corpus, m.campOf);
    var sorted := SortDescending(related);
    var members := Founders([s.sha], sorted);
    FoundersSpec([s.sha], sorted);
    var i: nat :| i < |sorted| && sorted[i].similarity >= SEED_THRESHOLD;
    var x := sorted[i].sha;
    assert Seeds(sorted, x, i);
    SortKeepsMembers(related, sorted[i]);
    RelatedSpec(e, s, m.corpus, m.campOf, sorted[i]);
    assert x in members && x != s.sha;
    var j: nat :| j < |members| && members[j] == x;
    assert members[1..][j - 1] == x;
    var m' := MemoryStep(e, m, s).0;
    assert x in m'.campOf && m'.campOf[x] == m.nextIndex && m.nextIndex !in m'.campaigns;
  }

  /* ---------- Whole runs ---------- */

  lemma LastSampleIsNew(samples: seq<Fingerprint>)
    requires DistinctShas(samples) && samples != []
    ensures var n := |samples| - 1;
            DistinctShas(samples[..n]) && !InCorpus(samples[..n], samples[n].sha)
            && samples == samples[..n] + [samples[n]]
  {
  }

  lemma {:induction false} RunInv(e: Engine, soft: SoftSignals, samples: seq<Fingerprint>)
    requires UsesCalculator(e, soft)
    requires DistinctShas(samples) && Accepted(e, samples)
    ensures MemoryInv(MemoryRun(e, samples)) && MemoryRun(e, samples).corpus == samples
  {
    if samples != [] {
      var n := |samples| - 1;
      LastSampleIsNew(samples);
      RunInv(e, soft, samples[..n]);
      StepExtendsRun(e, soft, MemoryRun(e, samples[..n]), samples[n]);
    }
  }

  lemma StepExtendsRun(e: Engine, soft: SoftSignals, m: Memory, s: Fingerprint)
    requires UsesCalculator(e, soft)
    requires MemoryInv(m) && !InCorpus(m.corpus, s.sha) && MemoryStep(e, m, s).1.Correlated?
    ensures MemoryInv(MemoryStep(e, m, s).0) && MemoryStep(e, m, s).0.corpus == m.corpus + [s]
  {
    StepKeepsInvIffIdsLast(e, soft, m, s);
    UpsertNew(m.corpus, s);
  }

  /**
   Partition: every sample is in at most one campaign, the sample map agrees
   with the member lists both ways, and the aggregate lists are exact.
   */
  lemma Partition(e: Engine, soft: SoftSignals, samples: seq<Fingerprint>)
    requires UsesCalculator(e, soft)
    requires DistinctShas(samples) && Accepted(e, samples)
    ensures var m := MemoryRun(e, samples);
            && (forall c, sha | c in m.campaigns :: sha in m.campaigns[c].members <==> Get(m.campOf, sha) == Some(c))
            && (forall c, d, sha | c in m.campaigns && d in m.campaigns
                                   && sha in m.campaigns[c].members && sha in m.campaigns[d].members :: c == d)
            && (forall c | c in m.campaigns :: NoDuplicates(m.campaigns[c].members)
                                               && Aggregated(samples, m.campaigns[c]))
  {
    RunInv(e, soft, samples);
    var m := MemoryRun(e, samples);
    forall c, sha | c in m.campaigns
      ensures sha in m.campaigns[c].members <==> Get(m.campOf, sha) == Some(c)
    {
      assert CampaignInv(m.corpus, m.campOf, c, m.campaigns[c]);
    }
    forall c | c in m.campaigns ensures NoDuplicates(m.campaigns[c].members) && Aggregated(samples, m.campaigns[c]) {
      assert CampaignInv(m.corpus, m.campOf, c, m.campaigns[c]);
    }
  }

  /* ---------- Connectivity ---------- */

  /** A path of hard links inside a campaign. */
  ghost predicate Path(corpus: seq<Fingerprint>, members: seq<string>, p: seq<string>) {
    && p != []
    && (forall i | 0 <= i < |p| :: p[i] in members)
    && forall i: nat | i + 1 < |p| :: LinkedIn(corpus, p[i], p[i + 1])
  }

  ghost predicate Connected(corpus: seq<Fingerprint>, members: seq<string>, a: string, b: string) {
    exists p :: Path(corpus, members, p) && p[0] == a && p[|p| - 1] == b
  }

  lemma LinkedInSymmetric(corpus: seq<Fingerprint>, a: string, b: string)
    requires LinkedIn(corpus, a, b)
    ensures LinkedIn(corpus, b, a)
  {
    var i, j :| 0 <= i < |corpus| && 0 <= j < |corpus| && corpus[i].sha == a && corpus[j].sha == b
                && HardLinked(corpus[i], corpus[j]);
    ScoreBounds(corpus[i], corpus[j]);
  }

  /** Up the tree: from any member to the founder. */
  lemma {:induction false} PathToFounder(corpus: seq<Fingerprint>, members: seq<string>, i: nat)
    returns (p: seq<string>)
    requires Tree(corpus, members) && i < |members|
    ensures Path(corpus, members, p) && p[0] == members[i] && p[|p| - 1] == members[0]
  {
    if i == 0 {
      p := [members[0]];
    } else {
      assert HasParent(corpus, members, i);
      var j: nat :| j < i && LinkedIn(corpus, members[i], members[j]);
      var rest := PathToFounder(corpus, members, j);
      p := [members[i]] + rest;
      forall k: nat | k + 1 < |p| ensures LinkedIn(corpus, p[k], p[k + 1]) {
        assert k > 0 ==> LinkedIn(corpus, rest[k - 1], rest[k]);
      }
    }
  }

  /** Down again: extending a path from the founder to any member. */
  lemma {:induction false} PathToMember(corpus: seq<Fingerprint>, members: seq<string>, p: seq<string>, i: nat)
    returns (q: seq<string>)
    requires Tree(corpus, members) && i < |members|
    requires Path(corpus, members, p) && p[|p| - 1] == members[0]
    ensures Path(corpus, members, q) && q[0] == p[0] && q[|q| - 1] == members[i]
    decreases i
  {
    if i == 0 {
      q := p;
    } else {
      assert HasParent(corpus, members, i);
      var j: nat :| j < i && LinkedIn(corpus, members[i], members[j]);
      LinkedInSymmetric(corpus, members[i], members[j]);
      var up := PathToMember(corpus, members, p, j);
      q := up + [members[i]];
      forall k: nat | k + 1 < |q| ensures LinkedIn(corpus, q[k], q[k + 1]) {
        assert k + 1 < |up| ==> LinkedIn(corpus, up[k], up[k + 1]);
      }
    }
  }

  /**
   After any run of distinct samples every campaign is connected: any two
   members are joined by a chain of hard links between members of it.
   */
  lemma CampaignsAreConnected(e: Engine, soft: SoftSignals, samples: seq<Fingerprint>, c: nat, a: string, b: string)
    requires UsesCalculator(e, soft)
    requires DistinctShas(samples) && Accepted(e, samples)
    requires c in MemoryRun(e, samples).campaigns
    requires a in MemoryRun(e, samples).campaigns[c].members && b in MemoryRun(e, samples).campaigns[c].members
    ensures Connected(samples, MemoryRun(e, samples).campaigns[c].members, a, b)
  {
    RunInv(e, soft, samples);
    var m := MemoryRun(e, samples);
    var members := m.campaigns[c].members;
    assert CampaignInv(m.corpus, m.campOf, c, m.campaigns[c]);
    var i: nat :| i < |members| && members[i] == a;
    var j: nat :| j < |members| && members[j] == b;
    var p := PathToFounder(samples, members, i);
    var q := PathToMember(samples, members, p, j);
  }

  lemma {:induction false} RelatedContains(e: Engine, s: Fingerprint, corpus: seq<Fingerprint>,
                                           campOf: map<string, nat>, i: nat, r: Related)
    requires i < |corpus| && r in RelatedEntry(e, s, corpus[i], campOf)
    ensures r in RelatedTo(e, s, corpus, campOf)
    decreases |corpus|
  {
    var n := |corpus| - 1;
    var rest := corpus[..n];
    if i < n {
      assert rest[i] == corpus[i];
      RelatedContains(e, s, rest, campOf, i, r);
    }
    assert RelatedTo(e, s, corpus, campOf) == RelatedTo(e, s, rest, campOf) + RelatedEntry(e, s, corpus[n], campOf);
  }

  lemma StrongSampleIsRelated(e: Engine, soft: SoftSignals, s: Fingerprint, corpus: seq<Fingerprint>,
                              campOf: map<string, nat>, i: nat)
    requires UsesCalculator(e, soft)
    requires i < |corpus| && corpus[i].sha != s.sha && Score(s, corpus[i]) >= SEED_THRESHOLD
    ensures SeedsCampaign(SortDescending(RelatedTo(e, s, corpus, campOf)))
  {
    assert ComparesWith(e, soft, s, corpus[i]);
    SeedImpliesHardLink(s, corpus[i]);
    HardLinkHasReason(soft, s, corpus[i]);
    var r := RelatedEntry(e, s, corpus[i], campOf)[0];
    RelatedContains(e, s, corpus, campOf, i, r);
    SortKeepsMembers(RelatedTo(e, s, corpus, campOf), r);
    var sorted := SortDescending(RelatedTo(e, s, corpus, campOf));
    var k :| 0 <= k < |sorted| && sorted[k] == r;
  }

  lemma StepAssigns(e: Engine, m: Memory, s: Fingerprint)
    requires s.sha !in m.campOf && MemoryStep(e, m, s).1.Correlated?
    requires Target(e, s, m.corpus, m.campOf).Some? ==> Target(e, s, m.corpus, m.campOf).value in m.campaigns
    ensures s.sha in MemoryStep(e, m, s).0.campOf <==>
              Target(e, s, m.corpus, m.campOf).Some?
                || SeedsCampaign(SortDescending(RelatedTo(e, s, m.corpus, m.campOf)))
  {
    var members := Founders([s.sha], SortDescending(RelatedTo(e, s, m.corpus, m.campOf)));
    assert members[0] == s.sha;
  }

  /**
   Completeness of one step: a new sample gets a campaign exactly when some
   hard-linked sample is already in one or some sample reaches the seed threshold.
   */
  lemma AssignedIffAnchoredOrSeeding(e: Engine, soft: SoftSignals, m: Memory, s: Fingerprint)
    requires UsesCalculator(e, soft)
    requires MemoryInv(m) && !InCorpus(m.corpus, s.sha) && MemoryStep(e, m, s).1.Correlated?
    ensures s.sha in MemoryStep(e, m, s).0.campOf <==>
              exists i: nat :: i < |m.corpus| && Attracts(m, s, i)
  {
    var target, related := Target(e, s, m.corpus, m.campOf), RelatedTo(e, s, m.corpus, m.campOf);
    TargetIsStored(e, soft, m, s);
    StepAssigns(e, m, s);
    TargetSpec(e, soft, s, m.corpus, m.campOf);
    if target.Some? {
      var i: nat :| i < |m.corpus| && HardLinked(s, m.corpus[i]) && Get(m.campOf, m.corpus[i].sha) == target;
      assert Attracts(m, s, i);
    } else if SeedsCampaign(SortDescending(related)) {
      SeedIsStrong(e, soft, m, s);
    } else if i: nat :| i < |m.corpus| && Attracts(m, s, i) {
      StrongSampleIsRelated(e, soft, s, m.corpus, m.campOf, i);
    }
  }

  predicate Attracts(m: Memory, s: Fingerprint, i: nat)
    requires i < |m.corpus|
  {
    (HardLinked(s, m.corpus[i]) && m.corpus[i].sha in m.campOf) || Score(s, m.corpus[i]) >= 0.45
  }

  lemma SeedIsStrong(e: Engine, soft: SoftSignals, m: Memory, s: Fingerprint)
    requires UsesCalculator(e, soft)
    requires SeedsCampaign(SortDescending(RelatedTo(e, s, m.corpus, m.campOf)))
    ensures exists i: nat :: i < |m.corpus| && Attracts(m, s, i)
  {
    var related := RelatedTo(e, s, m.corpus, m.campOf);
    var sorted := SortDescending(related);
    var k :| 0 <= k < |sorted| && sorted[k].similarity >= SEED_THRESHOLD;
    SortKeepsMembers(related, sorted[k]);
    RelatedSpec(e, s, m.corpus, m.campOf, sorted[k]);
    var i: nat :| EntryOf(e, s, m.corpus, m.campOf, sorted[k], i);
    assert ComparesWith(e, soft, s, m.corpus[i]);
    assert Attracts(m, s, i);
  }
}
