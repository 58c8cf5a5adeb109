/**
 `CampaignCorrelator`: incremental clustering of samples into campaigns, as step
 functions on values for its two paths, the dictionaries and the tables. The
 `Correlator` module proves the imperative code against them. A campaign id
 `CAMP-ddd` is represented by its number.
 */
module Campaigns {
  import opened Common
  import opened SortedTexts
  import opened Similarity

  /** The columns of the `campaigns` table. */
  datatype CampaignRow = CampaignRow(
    index: nat, title: string, signatures: seq<string>, infrastructure: seq<string>,
    firebase: seq<string>, signers: seq<string>)

  datatype Campaign = Campaign(row: CampaignRow, members: seq<string>)

  datatype Related = Related(
    sha: string, similarity: real, reasons: seq<Reason>, campaign: Option<nat>, appLabel: string, packageName: string)

  /** The calculator a correlator is built with, and its relatedness threshold. */
  datatype Engine = Engine(compare: (Fingerprint, Fingerprint) -> Comparison, threshold: real)

  ghost predicate ComparesWith(e: Engine, soft: SoftSignals, a: Fingerprint, b: Fingerprint) {
    e.compare(a, b) == Compared(soft, a, b)
  }

  /** The calculator is the repository's own, with some soft signals. */
  ghost predicate UsesCalculator(e: Engine, soft: SoftSignals) {
    forall a, b :: ComparesWith(e, soft, a, b)
  }

  const SEED_THRESHOLD := 0.45
  const DEX_ANCHOR := 0.85
  const MAX_INDEX: nat := 999

  /* ---------- One pass over the corpus ---------- */

  predicate IsRelated(e: Engine, cmp: Comparison) {
    cmp.overall >= e.threshold || cmp.reasons != []
  }

  predicate HasHardAnchor(cmp: Comparison) {
    cmp.firebaseOverlap || cmp.signerMatch || cmp.payloadOverlap
    || (cmp.dexSimilarity.Some? && cmp.dexSimilarity.value >= DEX_ANCHOR)
  }

  function Get(m: map<string, nat>, key: string): Option<nat> {
    if key in m then Some(m[key]) else None
  }

  function RelatedEntry(e: Engine, sample: Fingerprint, other: Fingerprint, campOf: map<string, nat>): seq<Related> {
    var cmp := e.compare(sample, other);
    if other.sha != sample.sha && IsRelated(e, cmp)
    then [Related(other.sha, cmp.overall, cmp.reasons, Get(campOf, other.sha), other.appLabel, other.packageName)]
    else []
  }

  function RelatedTo(e: Engine, sample: Fingerprint, corpus: seq<Fingerprint>, campOf: map<string, nat>): seq<Related> {
    if corpus == [] then []
    else
      var n := |corpus| - 1;
      RelatedTo(e, sample, corpus[..n], campOf) + RelatedEntry(e, sample, corpus[n], campOf)
  }

  predicate Anchors(e: Engine, sample: Fingerprint, other: Fingerprint, campOf: map<string, nat>) {
    var cmp := e.compare(sample, other);
    other.sha != sample.sha && IsRelated(e, cmp) && HasHardAnchor(cmp) && other.sha in campOf
  }

  /** The campaign of the first hard-linked sample that has one. */
  function Target(e: Engine, sample: Fingerprint, corpus: seq<Fingerprint>, campOf: map<string, nat>): Option<nat> {
    if corpus == [] then None
    else
      var n := |corpus| - 1;
      var t := Target(e, sample, corpus[..n], campOf);
      if t.Some? then t
      else if Anchors(e, sample, corpus[n], campOf) then Some(campOf[corpus[n].sha])
      else None
  }

  /* ---------- sort(key=similarity, reverse=True) is stable ---------- */

  function InsertDescending(r: Related, sorted: seq<Related>): seq<Related> {
    if sorted == [] || sorted[0].similarity <= r.similarity then [r] + sorted
    else [sorted[0]] + InsertDescending(r, sorted[1..])
  }

  function SortDescending(rs: seq<Related>): seq<Related> {
    if rs == [] then [] else InsertDescending(rs[0], SortDescending(rs[1..]))
  }

  /* ---------- Membership and aggregates ---------- */

  /** Who founds a campaign: the sample, then every related sample of at least the seed threshold. */
  function Founders(members: seq<string>, rs: seq<Related>): (all: seq<string>)
    ensures members <= all
    decreases |rs|
  {
    if rs == [] then members
    else
      var joins := rs[0].similarity >= SEED_THRESHOLD && rs[0].sha !in members;
      Founders(if joins then members + [rs[0].sha] else members, rs[1..])
  }

  predicate SeedsCampaign(rs: seq<Related>) {
    exists i :: 0 <= i < |rs| && rs[i].similarity >= SEED_THRESHOLD
  }

  function Enriched(row: CampaignRow, s: Fingerprint): CampaignRow {
    row.(signatures := SortedSet(row.signatures + s.behaviors),
         infrastructure := SortedSet(row.infrastructure + s.domains + s.urls),
         firebase := SortedSet(row.firebase + s.firebase),
         signers := SortedSet(row.signers + s.signers))
  }

  function FoundedRow(index: nat, s: Fingerprint): CampaignRow {
    CampaignRow(index, if s.appLabel != "" then s.appLabel else s.packageName,
                s.behaviors, s.domains + s.urls, s.firebase, s.signers)
  }

  /** An ordered dictionary keeps the place of a key it already has. */
  function Upsert(corpus: seq<Fingerprint>, s: Fingerprint): seq<Fingerprint> {
    if corpus == [] then [s]
    else if corpus[0].sha == s.sha then [s] + corpus[1..]
    else [corpus[0]] + Upsert(corpus[1..], s)
  }

  function WithAll(campOf: map<string, nat>, shas: seq<string>, index: nat): map<string, nat> {
    map sha | sha in campOf.Keys + ToSet(shas) :: if sha in shas then index else campOf[sha]
  }

  /* ---------- The in-memory path ---------- */

  datatype Memory = Memory(
    corpus: seq<Fingerprint>, campaigns: map<nat, Campaign>, campOf: map<string, nat>, nextIndex: nat)

  const EMPTY_MEMORY := Memory([], map[], map[], 1)

  datatype Outcome = Correlated(campaign: Option<Campaign>, related: seq<Related>) | InvalidCampaignId

  function FillCampaign(rs: seq<Related>, campOf: map<string, nat>): seq<Related> {
    if rs == [] then []
    else [if rs[0].campaign.None? then rs[0].(campaign := Get(campOf, rs[0].sha)) else rs[0]]
         + FillCampaign(rs[1..], campOf)
  }

  function Joined(c: Campaign, s: Fingerprint): Campaign {
    if s.sha in c.members then c else Campaign(Enriched(c.row, s), c.members + [s.sha])
  }

  function Finish(m: Memory, s: Fingerprint, c: Option<Campaign>, related: seq<Related>): (Memory, Outcome) {
    (m.(corpus := Upsert(m.corpus, s)), Correlated(c, FillCampaign(related, m.campOf)))
  }

  function MemoryStep(e: Engine, m: Memory, s: Fingerprint): (Memory, Outcome) {
    var related := SortDescending(RelatedTo(e, s, m.corpus, m.campOf));
    var target := Target(e, s, m.corpus, m.campOf);
    if target.Some? && target.value in m.campaigns then
      var t := target.value;
      var c := Joined(m.campaigns[t], s);
      Finish(m.(campaigns := m.campaigns[t := c], campOf := m.campOf[s.sha := t]), s, Some(c), related)
    else if SeedsCampaign(related) then
      var members := Founders([s.sha], related);
      if m.nextIndex > MAX_INDEX then
        // The id no longer fits its pattern: the exception leaves the map and the counter changed.
        (m.(campOf := WithAll(m.campOf, members[1..], m.nextIndex), nextIndex := m.nextIndex + 1), InvalidCampaignId)
      else
        var c := Campaign(FoundedRow(m.nextIndex, s), members);
        Finish(m.(campaigns := m.campaigns[m.nextIndex := c], campOf := WithAll(m.campOf, members, m.nextIndex),
                  nextIndex := m.nextIndex + 1), s, Some(c), related)
    else
      Finish(m, s, None, related)
  }

  /** The state after correlating a run of samples in order. */
  function MemoryRun(e: Engine, samples: seq<Fingerprint>): Memory {
    if samples == [] then EMPTY_MEMORY
    else var n := |samples| - 1; MemoryStep(e, MemoryRun(e, samples[..n]), samples[n]).0
  }

  /** No step of the run ran out of campaign ids. */
  predicate Accepted(e: Engine, samples: seq<Fingerprint>) {
    samples == [] || (
      var n := |samples| - 1;
      Accepted(e, samples[..n]) && MemoryStep(e, MemoryRun(e, samples[..n]), samples[n]).1.Correlated?)
  }

  /* ---------- The database path ---------- */

  /** Fingerprint rows in order of creation, campaign rows, and the membership relation. */
  datatype Store = Store(rows: seq<Fingerprint>, campaigns: map<nat, CampaignRow>, members: set<(nat, string)>)

  const EMPTY_STORE := Store([], map[], {})

  datatype StoredCampaign = StoredCampaign(row: CampaignRow, members: set<string>)

  datatype StoreOutcome = StoreCorrelated(campaign: Option<StoredCampaign>, related: seq<Related>) | StoreInvalidId

  /** How `LIMIT 1` picks one campaign id when the order of rows is not specified. */
  type Picker = set<nat> -> nat

  ghost predicate Picks(pick: Picker) {
    forall ids: set<nat> | ids != {} :: pick(ids) in ids
  }

  function CampaignsHolding(members: set<(nat, string)>, sha: string): set<nat> {
    set p | p in members && p.1 == sha :: p.0
  }

  /** `get_campaign_for_sample`: a campaign row for one of the sample's memberships. */
  function CampaignOf(pick: Picker, d: Store, sha: string): Option<nat> {
    var ids := CampaignsHolding(d.members, sha);
    if ids != {} && pick(ids) in d.campaigns then Some(pick(ids)) else None
  }

  function CampaignMap(pick: Picker, d: Store): map<string, nat> {
    map sha | sha in (set p | p in d.members :: p.1) && CampaignOf(pick, d, sha).Some? :: CampaignOf(pick, d, sha).value
  }

  lemma CampaignMapIsCampaignOf(pick: Picker, d: Store, sha: string)
    ensures Get(CampaignMap(pick, d), sha) == CampaignOf(pick, d, sha)
  {
    var ids := CampaignsHolding(d.members, sha);
    if ids != {} {
      var c :| c in ids;
      assert (c, sha) in d.members;
    }
  }

  function MembersOf(members: set<(nat, string)>, c: nat): set<string> {
    set p | p in members && p.0 == c :: p.1
  }

  /** One more than the largest number, starting from 1. */
  predicate IsNextIndex(indexes: set<nat>, next: nat) {
    && 1 <= next
    && (forall i | i in indexes :: i < next)
    && (next == 1 || next - 1 in indexes)
  }

  lemma {:induction false} NextIndexExists(indexes: set<nat>)
    ensures exists next: nat :: IsNextIndex(indexes, next)
  {
    if indexes == {} {
      assert IsNextIndex(indexes, 1);
    } else {
      var i :| i in indexes;
      NextIndexExists(indexes - {i});
      var rest: nat :| IsNextIndex(indexes - {i}, rest);
      forall j | j in indexes ensures j < Max(i + 1, rest) {
        assert j == i || j in indexes - {i};
      }
      assert IsNextIndex(indexes, Max(i + 1, rest));
    }
  }

  /** `generate_next_campaign_id`. */
  ghost function NextIndex(indexes: set<nat>): (next: nat)
    ensures IsNextIndex(indexes, next)
  {
    NextIndexExists(indexes);
    var next: nat :| IsNextIndex(indexes, next);
    next
  }

  lemma NextIndexIsUnique(indexes: set<nat>, next: nat)
    requires IsNextIndex(indexes, next)
    ensures NextIndex(indexes) == next
  {
  }

  function Assign(rs: seq<Related>, members: set<string>, c: nat): seq<Related> {
    if rs == [] then []
    else [if rs[0].sha in members then rs[0].(campaign := Some(c)) else rs[0]] + Assign(rs[1..], members, c)
  }

  function Others(corpus: seq<Fingerprint>, sha: string): seq<Fingerprint> {
    if corpus == [] then []
    else (if corpus[0].sha == sha then [] else [corpus[0]]) + Others(corpus[1..], sha)
  }

  ghost function StoreStep(e: Engine, pick: Picker, d: Store, s: Fingerprint): (Store, StoreOutcome) {
    var saved := d.(rows := Upsert(d.rows, s));
    var corpus, campOf := Others(saved.rows, s.sha), CampaignMap(pick, d);
    var related := SortDescending(RelatedTo(e, s, corpus, campOf));
    var found := Target(e, s, corpus, campOf);
    var target := if found.Some? then found else CampaignOf(pick, d, s.sha);
    if target.Some? then
      var t := target.value;
      if t in d.campaigns then
        var row, members := Enriched(d.campaigns[t], s), MembersOf(d.members, t) + {s.sha};
        (saved.(campaigns := d.campaigns[t := row], members := d.members + {(t, s.sha)}),
         StoreCorrelated(Some(StoredCampaign(row, members)), Assign(related, members, t)))
      else (saved, StoreCorrelated(None, related))
    else if SeedsCampaign(related) then
      var index := NextIndex(d.campaigns.Keys);
      if index > MAX_INDEX then (d, StoreInvalidId)  // the transaction rolls back
      else
        var row, members := FoundedRow(index, s), ToSet(Founders([s.sha], related));
        (saved.(campaigns := d.campaigns[index := row],
                members := d.members + (set sha | sha in members :: (index, sha))),
         StoreCorrelated(Some(StoredCampaign(row, members)), Assign(related, members, index)))
    else (saved, StoreCorrelated(None, related))
  }

  ghost function StoreRun(e: Engine, pick: Picker, samples: seq<Fingerprint>): Store {
    if samples == [] then EMPTY_STORE
    else var n := |samples| - 1; StoreStep(e, pick, StoreRun(e, pick, samples[..n]), samples[n]).0
  }
}
