/**
 The AI investigator around the verifier: what is accepted from the AI, how
 verdicts and feedback are merged, and what the AI can and cannot change.
 */
module Investigation {
  import opened Common
  import opened Timestamps
  import opened Evidence
  import opened Verifier

  /* ---------- Limited lists ---------- */

  function ClipAll(squeeze: string -> string, values: seq<string>, width: nat): seq<string> {
    if values == [] then [] else [Clip(squeeze(values[0]), width)] + ClipAll(squeeze, values[1..], width)
  }

  /** `_limited_strings`; a value that is not a list is absent. */
  function LimitedStrings(squeeze: string -> string, value: Option<seq<string>>, limit: nat, width: nat): seq<string> {
    if value.None? then [] else UniqueStrings(ClipAll(squeeze, value.value, width), limit)
  }

  lemma {:induction false} ClipAllIsClip(squeeze: string -> string, values: seq<string>, width: nat)
    ensures |ClipAll(squeeze, values, width)| == |values|
    ensures forall i | 0 <= i < |values| :: ClipAll(squeeze, values, width)[i] == Clip(squeeze(values[i]), width)
  {
    if values != [] {
      ClipAllIsClip(squeeze, values[1..], width);
    }
  }

  method CollectLimited(squeeze: string -> string, value: Option<seq<string>>, limit: nat, width: nat)
    returns (r: seq<string>)
    requires limit >= 1
    ensures r == LimitedStrings(squeeze, value, limit, width)
  {
    if value.None? {
      return [];
    }
    var values := value.value;
    ghost var clipped := ClipAll(squeeze, values, width);
    ClipAllIsClip(squeeze, values, width);
    r := [];
    assert Distinct(clipped[..0]) == [];
    hide Distinct, Clip, ClipAll;
    var i := 0;
    while i < |values|
      invariant 0 <= i <= |values|
      invariant r == Distinct(clipped[..i]) && |r| < limit
    {
      DistinctNext(clipped, i);
      var text := Clip(squeeze(values[i]), width);
      if text != "" && text !in r {
        r := r + [text];
      }
      i := i + 1;
      if |r| >= limit {
        DistinctPrefix(clipped, i);
        return;
      }
    }
    assert clipped[..i] == clipped;
  }

  function KeepIn(values: seq<string>, known: set<string>): (r: seq<string>)
    ensures |r| <= |values|
    ensures forall x | x in r :: x in values && x in known
    ensures forall x | x in values && x in known :: x in r
  {
    if values == [] then []
    else (if values[0] in known then [values[0]] else []) + KeepIn(values[1..], known)
  }

  function KnownIds(squeeze: string -> string, value: Option<seq<string>>, known: set<string>): seq<string> {
    KeepIn(LimitedStrings(squeeze, value, 30, 12), known)
  }

  lemma LimitedFits(squeeze: string -> string, value: Option<seq<string>>, limit: nat, width: nat)
    ensures |LimitedStrings(squeeze, value, limit, width)| <= limit
    ensures NoDuplicates(LimitedStrings(squeeze, value, limit, width))
  {
    if value.Some? {
      UniqueStringsSpec(ClipAll(squeeze, value.value, width), limit);
    }
  }

  /* ---------- The output model ---------- */

  predicate IdChar(c: char) {
    'a' <= c <= 'z' || 'A' <= c <= 'Z' || '0' <= c <= '9' || c in "_.:-"
  }

  predicate IsHypothesisId(id: string) {
    1 <= |id| <= 80 && forall i | 0 <= i < |id| :: IdChar(id[i])
  }

  predicate IsEvidenceId(id: string) {
    |id| == 4 && id[0] == 'E' && forall i | 1 <= i < 4 :: '0' <= id[i] <= '9'
  }

  predicate CitesEvidence(ids: seq<string>) {
    |ids| <= 30 && forall i | 0 <= i < |ids| :: IsEvidenceId(ids[i])
  }

  /** `AIHypothesis`: a hypothesis outside this predicate aborts the whole output. */
  predicate FitsModel(h: Hypothesis) {
    && IsHypothesisId(h.id) && 0.0 <= h.confidence <= 1.0 && 0.0 <= h.strength <= 1.0
    && 1 <= |h.title| <= 200 && 1 <= |h.reasoning| <= 1200
    && CitesEvidence(h.supporting) && CitesEvidence(h.contradicting)
    && (h.supporting != [] || h.contradicting != [])
    && |h.missing| <= 12 && |h.experiments| <= 12 && |h.nextSteps| <= 12 && |h.limitations| <= 12
    && |h.runtimeIds| <= 30
  }

  /* ---------- Evidence ids ---------- */

  /** A normalised static finding; equal ones are kept once. */
  datatype RawEvidence = RawEvidence(kind: string, source: string, title: string, value: string)

  datatype Numbered = Numbered(id: string, raw: RawEvidence)

  function EvidenceId(n: nat): string {
    "E" + Digits(n, 3)
  }

  lemma {:induction false} DigitsAreDigits(n: nat, width: nat)
    ensures |Digits(n, width)| == width
    ensures forall i | 0 <= i < width :: '0' <= Digits(n, width)[i] <= '9'
  {
    if width > 0 {
      DigitsAreDigits(n / 10, width - 1);
    }
  }

  lemma EvidenceIdFits(m: nat, n: nat)
    requires m <= 999 && n <= 999
    ensures IsEvidenceId(EvidenceId(n))
    ensures EvidenceId(m) == EvidenceId(n) <==> m == n
  {
    DigitsAreDigits(n, 3);
    assert Pow10(3) == 1000 by {
      assert Pow10(1) == 10 && Pow10(2) == 100;
    }
    DigitsOrder(m, n, 3);
    if EvidenceId(m) == EvidenceId(n) {
      assert EvidenceId(m)[1..] == EvidenceId(n)[1..];
    }
  }

  ghost predicate RawsAreDistinct(items: seq<Numbered>) {
    forall i, j | 0 <= i < j < |items| :: items[i].raw != items[j].raw
  }

  predicate Kept(items: seq<Numbered>, x: RawEvidence) {
    exists i :: 0 <= i < |items| && items[i].raw == x
  }

  /** The findings in order of first occurrence. */
  function FirstOnes(raw: seq<RawEvidence>): seq<RawEvidence> {
    if raw == [] then []
    else
      var n := |raw| - 1;
      var before := FirstOnes(raw[..n]);
      if raw[n] in before then before else before + [raw[n]]
  }

  lemma {:induction false} FirstOnesAre(raw: seq<RawEvidence>)
    ensures forall x :: x in FirstOnes(raw) <==> x in raw
  {
    if raw != [] {
      FirstOnesAre(raw[..|raw| - 1]);
      assert raw == raw[..|raw| - 1] + [raw[|raw| - 1]];
    }
  }

  lemma {:induction false} FirstOnesPrefix(raw: seq<RawEvidence>, i: nat)
    requires i <= |raw|
    ensures FirstOnes(raw[..i]) <= FirstOnes(raw)
    decreases |raw|
  {
    if i == |raw| {
      assert raw[..i] == raw;
    } else {
      assert raw[..|raw| - 1][..i] == raw[..i];
      FirstOnesPrefix(raw[..|raw| - 1], i);
    }
  }

  function Raws(items: seq<Numbered>): (r: seq<RawEvidence>)
    ensures |r| == |items| && forall i | 0 <= i < |items| :: r[i] == items[i].raw
  {
    seq(|items|, i requires 0 <= i < |items| => items[i].raw)
  }

  /** `_assign_ids`: dense, unique, well-formed ids; every finding is kept unless the limit is reached. */
  method AssignIds(raw: seq<RawEvidence>, limit: nat) returns (items: seq<Numbered>)
    requires 1 <= limit <= 999
    ensures |items| <= limit && RawsAreDistinct(items)
    ensures forall i | 0 <= i < |items| :: items[i].id == EvidenceId(i + 1) && items[i].raw in raw
    ensures |items| < limit ==> forall x | x in raw :: Kept(items, x)
    ensures Raws(items) <= FirstOnes(raw) && |items| == Min(limit, |FirstOnes(raw)|)
  {
    items := [];
    var seen: set<RawEvidence> := {};
    assert raw[..0] == [];
    hide EvidenceId, Kept, RawsAreDistinct, FirstOnes, Raws, AreNumbered, ToSet;
    NoFirstOnes();
    ghost var kept: seq<RawEvidence> := [];
    var i := 0;
    while i < |raw|
      invariant 0 <= i <= |raw| && |items| == |kept| < limit
      invariant kept == FirstOnes(raw[..i]) && AreNumbered(items, kept)
      invariant seen == ToSet(kept)
    {
      FirstOnesNext(raw, i);
      FirstOnesPrefix(raw, i + 1);
      SetNext(kept, raw[i]);
      if raw[i] !in seen {
        NumberedNext(items, kept, raw[i]);
        seen := seen + {raw[i]};
        items := items + [Numbered(EvidenceId(|items| + 1), raw[i])];
        kept := kept + [raw[i]];
        if |items| >= limit {
          AssignedAre(raw, i + 1, items);
          return;
        }
      }
      i := i + 1;
    }
    assert raw[..i] == raw;
    AssignedAre(raw, i, items);
  }

  ghost predicate AreNumbered(items: seq<Numbered>, raw: seq<RawEvidence>) {
    |items| == |raw| <= 999 && forall k | 0 <= k < |items| :: items[k] == Numbered(EvidenceId(k + 1), raw[k])
  }

  lemma SetNext(kept: seq<RawEvidence>, x: RawEvidence)
    ensures ToSet(kept + [x]) == ToSet(kept) + {x}
    ensures x in ToSet(kept) <==> x in kept
  {
  }

  lemma NumberedNext(items: seq<Numbered>, kept: seq<RawEvidence>, x: RawEvidence)
    requires AreNumbered(items, kept) && |kept| < 999
    ensures AreNumbered(items + [Numbered(EvidenceId(|items| + 1), x)], kept + [x])
  {
    hide EvidenceId;
  }

  lemma NoFirstOnes()
    ensures FirstOnes([]) == [] && AreNumbered([], []) && ToSet<RawEvidence>([]) == {}
  {
  }

  lemma FirstOnesNext(raw: seq<RawEvidence>, i: nat)
    requires i < |raw|
    ensures var before := FirstOnes(raw[..i]);
            FirstOnes(raw[..i + 1]) == if raw[i] in before then before else before + [raw[i]]
  {
    assert raw[..i + 1][..i] == raw[..i];
  }

  lemma {:induction false} FirstOnesDiffer(raw: seq<RawEvidence>)
    ensures forall i, j | 0 <= i < j < |FirstOnes(raw)| :: FirstOnes(raw)[i] != FirstOnes(raw)[j]
  {
    if raw != [] {
      FirstOnesDiffer(raw[..|raw| - 1]);
    }
  }

  /** What follows for the numbered findings. */
  lemma AssignedAre(raw: seq<RawEvidence>, i: nat, items: seq<Numbered>)
    requires i <= |raw| && AreNumbered(items, FirstOnes(raw[..i]))
    ensures Raws(items) == FirstOnes(raw[..i])
    ensures forall k | 0 <= k < |items| :: items[k].id == EvidenceId(k + 1)
    ensures RawsAreDistinct(items) && forall k | 0 <= k < |items| :: items[k].raw in raw
    ensures i == |raw| ==> forall x | x in raw :: Kept(items, x)
  {
    FirstOnesAre(raw[..i]);
    FirstOnesDiffer(raw[..i]);
    forall k | 0 <= k < |items| ensures items[k].raw in raw {
      assert Raws(items)[k] in FirstOnes(raw[..i]);
    }
    if i == |raw| {
      assert raw[..i] == raw;
      forall x | x in raw ensures Kept(items, x) {
        KeptAreRaws(items, x);
      }
    }
  }

  lemma KeptAreRaws(items: seq<Numbered>, x: RawEvidence)
    ensures Kept(items, x) <==> x in Raws(items)
  {
    if x in Raws(items) {
      var i :| 0 <= i < |items| && Raws(items)[i] == x;
    }
  }

  /** Known ids of assigned evidence always satisfy the id pattern, so citing them never invalidates a hypothesis. */
  lemma KnownIdsFit(squeeze: string -> string, value: Option<seq<string>>, items: seq<Numbered>)
    requires |items| <= 999 && forall i | 0 <= i < |items| :: items[i].id == EvidenceId(i + 1)
    ensures CitesEvidence(KnownIds(squeeze, value, set i | 0 <= i < |items| :: items[i].id))
  {
    var known := set i | 0 <= i < |items| :: items[i].id;
    var ids := KnownIds(squeeze, value, known);
    LimitedFits(squeeze, value, 30, 12);
    forall k | 0 <= k < |ids| ensures IsEvidenceId(ids[k]) {
      assert ids[k] in known;
      var i :| 0 <= i < |items| && items[i].id == ids[k];
      EvidenceIdFits(i + 1, i + 1);
    }
  }

  /* ---------- Accepting hypotheses ---------- */

  /**
   A decoded object: texts are `str(...)` of what was there, enumerated fields are
   absent when not in the enumeration.
   */
  datatype RawHypothesis = RawHypothesis(
    id: string, category: Option<Category>, status: Option<Status>, confidence: Option<real>, title: string,
    reasoning: string, supporting: Option<seq<string>>, contradicting: Option<seq<string>>,
    missing: Option<seq<string>>, experiments: Option<seq<string>>, nextSteps: Option<seq<string>>,
    limitations: Option<seq<string>>)

  datatype RawItem = NotAnObject | Object(raw: RawHypothesis)

  datatype Problem =
    | NotAList | ItemNotAnObject(index: nat) | NothingKnownCited(index: nat) | Invalid(index: nat)
    | UnknownHypothesis(index: nat) | ForbiddenFieldsIgnored(index: nat)

  datatype Reading = Reading(accepted: seq<Hypothesis>, problems: seq<Problem>)

  function Cleaned(squeeze: string -> string, raw: RawHypothesis, known: set<string>,
                   allowed: set<string>): Option<Hypothesis> {
    if raw.category.None? || raw.status.None? || raw.confidence.None? then None
    else
      var h := Hypothesis(
        Clip(squeeze(raw.id), 80), raw.category.value, raw.status.value, raw.confidence.value,
        Clip(squeeze(raw.title), 200), Clip(squeeze(raw.reasoning), 1200),
        KnownIds(squeeze, raw.supporting, known), KnownIds(squeeze, raw.contradicting, known),
        LimitedStrings(squeeze, raw.missing, 12, 300),
        KeepIn(LimitedStrings(squeeze, raw.experiments, 12, 80), allowed),
        LimitedStrings(squeeze, raw.nextSteps, 12, 300), LimitedStrings(squeeze, raw.limitations, 12, 300), 0.0, []);
      if FitsModel(h) then Some(h) else None
  }

  function ReadItem(squeeze: string -> string, item: RawItem, index: nat, known: set<string>,
                    allowed: set<string>): Reading {
    match item
    case NotAnObject => Reading([], [ItemNotAnObject(index)])
    case Object(raw) =>
      if KnownIds(squeeze, raw.supporting, known) == [] && KnownIds(squeeze, raw.contradicting, known) == []
      then Reading([], [NothingKnownCited(index)])
      else match Cleaned(squeeze, raw, known, allowed)
        case Some(h) => Reading([h], [])
        case None => Reading([], [Invalid(index)])
  }

  function ReadItems(squeeze: string -> string, items: seq<RawItem>, known: set<string>,
                     allowed: set<string>): Reading {
    if items == [] then Reading([], [])
    else
      var n := |items| - 1;
      var before, last :=
        ReadItems(squeeze, items[..n], known, allowed), ReadItem(squeeze, items[n], n, known, allowed);
      Reading(before.accepted + last.accepted, before.problems + last.problems)
  }

  function FirstTen(problems: seq<Problem>): seq<Problem> {
    if |problems| <= 10 then problems else problems[..10]
  }

  function First20<T>(items: seq<T>): seq<T> {
    if |items| <= 20 then items else items[..20]
  }

  method ValidateHypothesisPayload(squeeze: string -> string, payload: Option<seq<RawItem>>, known: set<string>,
                                   allowed: set<string>)
    returns (r: Reading)
    ensures payload.None? ==> r == Reading([], [NotAList])
    ensures payload.Some? ==>
              var all := ReadItems(squeeze, First20(payload.value), known, allowed);
              r == Reading(all.accepted, FirstTen(all.problems))
  {
    hide ReadItem;
    if payload.None? {
      return Reading([], [NotAList]);
    }
    var items := First20(payload.value);
    var accepted, problems := [], [];
    var i := 0;
    while i < |items|
      invariant 0 <= i <= |items|
      invariant ReadItems(squeeze, items[..i], known, allowed) == Reading(accepted, problems)
    {
      assert items[..i + 1][..i] == items[..i] && items[..i + 1][i] == items[i];
      var one := ReadItem(squeeze, items[i], i, known, allowed);
      accepted, problems := accepted + one.accepted, problems + one.problems;
      i := i + 1;
    }
    assert items[..i] == items;
    r := Reading(accepted, FirstTen(problems));
  }

  ghost predicate Grounded(h: Hypothesis, known: set<string>) {
    && FitsModel(h)
    && (forall x | x in h.supporting :: x in known)
    && (forall x | x in h.contradicting :: x in known)
  }

  /**
   Whatever the AI sends, an accepted hypothesis fits the output model and cites
   known evidence only, at least one.
   */
  lemma {:induction false} AcceptedAreGrounded(squeeze: string -> string, items: seq<RawItem>, known: set<string>,
                                               allowed: set<string>)
    ensures forall i | 0 <= i < |ReadItems(squeeze, items, known, allowed).accepted| ::
              Grounded(ReadItems(squeeze, items, known, allowed).accepted[i], known)
    ensures |ReadItems(squeeze, items, known, allowed).accepted| + |ReadItems(squeeze, items, known, allowed).problems|
            == |items|
  {
    hide FitsModel, LimitedStrings;
    if items != [] {
      AcceptedAreGrounded(squeeze, items[..|items| - 1], known, allowed);
    }
  }

  /* ---------- Feedback ---------- */

  datatype RawFeedback = RawFeedback(
    id: string, reasoning: string, missing: Option<seq<string>>, nextSteps: Option<seq<string>>,
    limitations: Option<seq<string>>, hasForbiddenField: bool)

  datatype FeedbackItem = FeedbackNotAnObject | FeedbackObject(raw: RawFeedback)

  datatype FeedbackPayload = NoUpdates | UpdatesNotAList | Updates(items: seq<FeedbackItem>)

  /** The kept fields of an update; an empty list or text stands for an absent key. */
  datatype Feedback = Feedback(reasoning: string, missing: seq<string>, nextSteps: seq<string>,
                               limitations: seq<string>)

  datatype FeedbackReading = FeedbackReading(updates: map<string, Feedback>, problems: seq<Problem>)

  function CleanedFeedback(squeeze: string -> string, raw: RawFeedback): Feedback {
    Feedback(Clip(squeeze(raw.reasoning), 1200), LimitedStrings(squeeze, raw.missing, 12, 300),
             LimitedStrings(squeeze, raw.nextSteps, 12, 300), LimitedStrings(squeeze, raw.limitations, 12, 300))
  }

  function ReadFeedback(squeeze: string -> string, items: seq<FeedbackItem>, ids: set<string>): FeedbackReading {
    if items == [] then FeedbackReading(map[], [])
    else
      var n := |items| - 1;
      var before := ReadFeedback(squeeze, items[..n], ids);
      match items[n]
      case FeedbackNotAnObject => before.(problems := before.problems + [ItemNotAnObject(n)])
      case FeedbackObject(raw) =>
        var id := Clip(squeeze(raw.id), 80);
        if id !in ids then before.(problems := before.problems + [UnknownHypothesis(n)])
        else FeedbackReading(
          before.updates[id := CleanedFeedback(squeeze, raw)],
          before.problems + if raw.hasForbiddenField then [ForbiddenFieldsIgnored(n)] else [])
  }

  method ValidateFeedbackPayload(squeeze: string -> string, payload: FeedbackPayload, ids: set<string>)
    returns (r: FeedbackReading)
    ensures payload.NoUpdates? ==> r == FeedbackReading(map[], [])
    ensures payload.UpdatesNotAList? ==> r == FeedbackReading(map[], [NotAList])
    ensures payload.Updates? ==>
              var all := ReadFeedback(squeeze, First20(payload.items), ids);
              r == FeedbackReading(all.updates, FirstTen(all.problems))
  {
    hide CleanedFeedback;
    match payload {
      case NoUpdates => return FeedbackReading(map[], []);
      case UpdatesNotAList => return FeedbackReading(map[], [NotAList]);
      case Updates(all) =>
        var items := First20(all);
        r := FeedbackReading(map[], []);
        var i := 0;
        while i < |items|
          invariant 0 <= i <= |items|
          invariant r == ReadFeedback(squeeze, items[..i], ids)
        {
          assert items[..i + 1][..i] == items[..i] && items[..i + 1][i] == items[i];
          match items[i] {
            case FeedbackNotAnObject => r := r.(problems := r.problems + [ItemNotAnObject(i)]);
            case FeedbackObject(raw) =>
              var id := Clip(squeeze(raw.id), 80);
              if id !in ids {
                r := r.(problems := r.problems + [UnknownHypothesis(i)]);
              } else {
                r := FeedbackReading(r.updates[id := CleanedFeedback(squeeze, raw)],
                                     r.problems + if raw.hasForbiddenField then [ForbiddenFieldsIgnored(i)] else []);
              }
          }
          i := i + 1;
        }
        assert items[..i] == items;
        r := r.(problems := FirstTen(r.problems));
    }
  }

  /* ---------- Merging ---------- */

  /** `{item["hypothesis_id"]: item}`: a later verification of an id replaces an earlier one. */
  function ById(vs: seq<Verification>, id: string): Option<Verification> {
    if vs == [] then None
    else
      var n := |vs| - 1;
      if vs[n].hypothesisId == id then Some(vs[n]) else ById(vs[..n], id)
  }

  function WithVerdict(h: Hypothesis, v: Option<Verification>): Hypothesis {
    match v
    case None => h
    case Some(w) =>
      h.(status := w.status, strength := w.strength, runtimeIds := w.runtimeIds,
         missing := if w.missing != [] then UniqueStrings(h.missing + w.missing, 12) else h.missing)
  }

  function WithFeedback(h: Hypothesis, fb: Option<Feedback>): Hypothesis {
    match fb
    case None => h
    case Some(u) =>
      h.(reasoning := if u.reasoning != "" then u.reasoning else h.reasoning,
         nextSteps := if u.nextSteps != [] then u.nextSteps else h.nextSteps,
         limitations := if u.limitations != [] then u.limitations else h.limitations,
         missing := if u.missing != [] then UniqueStrings(h.missing + u.missing, 12) else h.missing)
  }

  function FeedbackFor(updates: map<string, Feedback>, id: string): Option<Feedback> {
    if id in updates then Some(updates[id]) else None
  }

  function Merged(h: Hypothesis, vs: seq<Verification>, updates: map<string, Feedback>): Hypothesis {
    WithFeedback(WithVerdict(h, ById(vs, h.id)), FeedbackFor(updates, h.id))
  }

  method ApplyVerifications(hs: seq<Hypothesis>, vs: seq<Verification>, updates: map<string, Feedback>)
    returns (final: seq<Hypothesis>)
    ensures |final| == |hs|
    ensures forall i | 0 <= i < |hs| :: final[i] == Merged(hs[i], vs, updates)
  {
    final := [];
    var i := 0;
    while i < |hs|
      invariant 0 <= i <= |hs| && |final| == i
      invariant forall j | 0 <= j < i :: final[j] == Merged(hs[j], vs, updates)
    {
      var item := hs[i];
      var v := ById(vs, item.id);
      if v.Some? {
        item := item.(status := v.value.status, strength := v.value.strength, runtimeIds := v.value.runtimeIds);
        if v.value.missing != [] {
          var missing := CollectUnique(item.missing + v.value.missing, 12);
          item := item.(missing := missing);
        }
      }
      if item.id in updates {
        var u := updates[item.id];
        if u.reasoning != "" { item := item.(reasoning := u.reasoning); }
        if u.nextSteps != [] { item := item.(nextSteps := u.nextSteps); }
        if u.limitations != [] { item := item.(limitations := u.limitations); }
        if u.missing != [] {
          var missing := CollectUnique(item.missing + u.missing, 12);
          item := item.(missing := missing);
        }
      }
      final := final + [item];
      i := i + 1;
    }
  }

  /** Merging never touches identity, category, confidence or the cited evidence. */
  lemma MergeKeepsIdentity(h: Hypothesis, vs: seq<Verification>, updates: map<string, Feedback>)
    ensures var m := Merged(h, vs, updates);
            && m.id == h.id && m.category == h.category && m.confidence == h.confidence && m.title == h.title
            && m.supporting == h.supporting && m.contradicting == h.contradicting && m.experiments == h.experiments
  {
  }

  ghost predicate UniqueHypothesisIds(hs: seq<Hypothesis>) {
    forall i, j | 0 <= i < j < |hs| :: hs[i].id != hs[j].id
  }

  /** The last hypothesis with the id of the i-th. */
  function LastWithId(hs: seq<Hypothesis>, id: string): nat {
    if hs == [] then 0
    else
      var n := |hs| - 1;
      if hs[n].id == id then n else LastWithId(hs[..n], id)
  }

  lemma {:induction false} ByIdIsLast(hs: seq<Hypothesis>, vs: seq<Verification>, i: nat)
    requires |vs| == |hs| && forall k | 0 <= k < |hs| :: vs[k].hypothesisId == hs[k].id
    requires i < |hs|
    ensures var k := LastWithId(hs, hs[i].id);
            i <= k < |hs| && hs[k].id == hs[i].id && ById(vs, hs[i].id) == Some(vs[k])
  {
    var n := |hs| - 1;
    if hs[n].id != hs[i].id {
      ByIdIsLast(hs[..n], vs[..n], i);
    }
  }

  /**
   Every final status is a verdict of the verifier: that of the last hypothesis
   with the same id. Feedback has no say in it.
   */
  lemma FinalStatusIsAVerdict(hs: seq<Hypothesis>, f: Findings, evidence: seq<StaticEvidence>,
                              mentionsDumpsys: Item -> bool, updates: map<string, Feedback>, i: nat)
    requires i < |hs|
    ensures var final := Merged(hs[i], VerifyAll(hs, f, evidence, mentionsDumpsys), updates);
            var k := LastWithId(hs, hs[i].id);
            && k < |hs|
            && final.status == Decide(hs[k], f, mentionsDumpsys).status
            && final.strength == Decide(hs[k], f, mentionsDumpsys).strength
  {
    hide Decide;
    var vs := VerifyAll(hs, f, evidence, mentionsDumpsys);
    ByIdIsLast(hs, vs, i);
    var k := LastWithId(hs, hs[i].id);
    StrengthSeparates(hs[k], f, mentionsDumpsys);
  }

  /** With unique ids every hypothesis ends with its own verdict and strength, whatever the feedback says. */
  lemma FinalStatusIsItsOwnVerdict(hs: seq<Hypothesis>, f: Findings, evidence: seq<StaticEvidence>,
                                   mentionsDumpsys: Item -> bool, updates: map<string, Feedback>, i: nat)
    requires UniqueHypothesisIds(hs) && i < |hs|
    ensures var final := Merged(hs[i], VerifyAll(hs, f, evidence, mentionsDumpsys), updates);
            && final.status == Decide(hs[i], f, mentionsDumpsys).status
            && final.strength == Decide(hs[i], f, mentionsDumpsys).strength
  {
    hide Decide, Merged, VerifyAll, ById, LastWithId;
    FinalStatusIsAVerdict(hs, f, evidence, mentionsDumpsys, updates, i);
    ByIdIsLast(hs, VerifyAll(hs, f, evidence, mentionsDumpsys), i);
    assert LastWithId(hs, hs[i].id) == i;
  }

  /** A final confirmation always rests on the findings, for some hypothesis of the same id. */
  lemma FinalConfirmationIsEvidenced(hs: seq<Hypothesis>, f: Findings, evidence: seq<StaticEvidence>,
                                     mentionsDumpsys: Item -> bool, updates: map<string, Feedback>, i: nat)
    requires i < |hs|
    requires Merged(hs[i], VerifyAll(hs, f, evidence, mentionsDumpsys), updates).status == Confirmed
    ensures exists k :: 0 <= k < |hs| && hs[k].id == hs[i].id && Confirming(hs[k].category, f, mentionsDumpsys)
  {
    hide Decide, Confirming;
    FinalStatusIsAVerdict(hs, f, evidence, mentionsDumpsys, updates, i);
    ByIdIsLast(hs, VerifyAll(hs, f, evidence, mentionsDumpsys), i);
    ConfirmedIff(hs[LastWithId(hs, hs[i].id)], f, mentionsDumpsys);
  }

  /**
   Ids are not checked for uniqueness, and a repeated id breaks the rule: a
   device-reconnaissance hypothesis, which no evidence can confirm, is reported
   as confirmed when an OTP hypothesis with the same id follows it.
   */
  lemma RepeatedIdBorrowsAVerdict(h: Hypothesis, f: Findings, evidence: seq<StaticEvidence>,
                                  mentionsDumpsys: Item -> bool, updates: map<string, Feedback>)
    requires Confirming(OtpInterception, f, mentionsDumpsys)
    ensures var first, second := h.(category := DeviceReconnaissance), h.(category := OtpInterception);
            var vs := VerifyAll([first, second], f, evidence, mentionsDumpsys);
            && Merged(first, vs, updates).status == Confirmed
            && Decide(first, f, mentionsDumpsys).status != Confirmed
  {
    var first, second := h.(category := DeviceReconnaissance), h.(category := OtpInterception);
    var hs := [first, second];
    assert hs[0] == first && hs[1] == second;
    hide Confirming, Decide;
    FinalStatusIsAVerdict(hs, f, evidence, mentionsDumpsys, updates, 0);
    assert LastWithId(hs, h.id) == 1;
    ConfirmedIff(second, f, mentionsDumpsys);
    AiCannotConfirm(first, first, f, mentionsDumpsys);
  }

  predicate Confirmable(c: Category) {
    c in {OtpInterception, DataExfiltration, AccessibilityAbuse}
  }

  const NOTHING_STATIC := Static({}, false, false, false, false, false, false, false, false, false, false)

  function Record(id: string, kind: string, trust: Trust): Item {
    Item(id, 0, kind, trust, "", "", 1.0, [])
  }

  /** Findings that confirm one category and no other. */
  function Separating(c: Category): Findings {
    match c
    case OtpInterception =>
      Findings(NOTHING_STATIC.(smsReceiver := true),
               [Record("R001", SMS_DELIVERED, Instrumented), Record("R002", SMS_ACCESS, Instrumented)], [])
    case DataExfiltration =>
      Findings(NOTHING_STATIC,
               [Record("R001", MARKER_CORRELATION, PayloadCorrelated), Record("R002", NETWORK, Instrumented)], [])
    case _ =>
      Findings(NOTHING_STATIC.(accessibilityService := true), [Record("R001", ACCESSIBILITY, SystemObserved)], [])
  }

  lemma KindsDiffer()
    ensures MARKER_CORRELATION !in {SMS_DELIVERED, SMS_ACCESS, ACCESSIBILITY, NETWORK, DNS}
    ensures SMS_DELIVERED != SMS_ACCESS && NETWORK != ACCESSIBILITY
  {
    assert |MARKER_CORRELATION| == 28 && |SMS_DELIVERED| == 23 && |SMS_ACCESS| == 10 && |ACCESSIBILITY| == 22;
    assert |NETWORK| == 19 && |DNS| == 15;
  }

  lemma SeparatingConfirms(c: Category, mentionsDumpsys: Item -> bool)
    requires Confirmable(c)
    ensures Confirming(c, Separating(c), mentionsDumpsys)
  {
    var f := Separating(c);
    match c {
      case OtpInterception =>
        assert f.runtime[0] in f.runtime && TrustedDelivery(f.runtime[0]);
        assert f.runtime[1] in f.runtime && TrustedAccess(f.runtime[1]);
      case DataExfiltration =>
        assert f.runtime[0] in f.runtime && f.runtime[1] in f.runtime;
        assert InOrder(f.runtime[0], f.runtime[1]) && Claiming(f.runtime[0]);
      case AccessibilityAbuse =>
        assert f.runtime[0] in f.runtime && ShowsBinding(f.runtime[0], mentionsDumpsys);
    }
  }

  lemma SeparatingConfirmsNoOther(c: Category, d: Category, mentionsDumpsys: Item -> bool)
    requires Confirmable(c) && d != c
    ensures !Confirming(d, Separating(c), mentionsDumpsys)
  {
    KindsDiffer();
    var f := Separating(c);
    if d == DataExfiltration {
      forall m, n | m in f.runtime && n in f.runtime ensures !InOrder(m, n) {
      }
    }
  }

  /** Whatever the findings and the feedback, the final confirmation of the i-th hypothesis is its own. */
  ghost predicate OwnConfirmation(hs: seq<Hypothesis>, evidence: seq<StaticEvidence>, mentionsDumpsys: Item -> bool,
                                  i: nat)
    requires i < |hs|
  {
    forall f, updates ::
      Merged(hs[i], VerifyAll(hs, f, evidence, mentionsDumpsys), updates).status == Confirmed
      <==> Decide(hs[i], f, mentionsDumpsys).status == Confirmed
  }

  /** The last hypothesis with the id of the i-th has its category, or neither of the two can be confirmed. */
  predicate SharesFate(hs: seq<Hypothesis>, i: nat)
    requires i < |hs| && LastWithId(hs, hs[i].id) < |hs|
  {
    var c, d := hs[i].category, hs[LastWithId(hs, hs[i].id)].category;
    c == d || (!Confirmable(c) && !Confirmable(d))
  }

  /**
   A final confirmation is the hypothesis's own, for all findings and feedback,
   if and only if the last hypothesis with its id shares its category or both
   categories are among those that are never confirmed.
   */
  lemma OwnConfirmationIff(hs: seq<Hypothesis>, evidence: seq<StaticEvidence>, mentionsDumpsys: Item -> bool, i: nat)
    requires i < |hs|
    ensures LastWithId(hs, hs[i].id) < |hs|
    ensures OwnConfirmation(hs, evidence, mentionsDumpsys, i) <==> SharesFate(hs, i)
  {
    hide Decide, Merged, VerifyAll, ById, LastWithId, Confirming, Separating;
    var none: map<string, Feedback> := map[];
    FinalStatusIsAVerdict(hs, Separating(OtpInterception), evidence, mentionsDumpsys, none, i);
    var k := LastWithId(hs, hs[i].id);
    var c, d := hs[i].category, hs[k].category;
    if SharesFate(hs, i) {
      forall f: Findings, updates: map<string, Feedback>
        ensures Merged(hs[i], VerifyAll(hs, f, evidence, mentionsDumpsys), updates).status == Confirmed
           <==> Decide(hs[i], f, mentionsDumpsys).status == Confirmed
      {
        FinalStatusIsAVerdict(hs, f, evidence, mentionsDumpsys, updates, i);
        SameFateSameVerdict(hs[i], hs[k], f, mentionsDumpsys);
      }
    } else {
      var f := Separating(if Confirmable(c) then c else d);
      FinalStatusIsAVerdict(hs, f, evidence, mentionsDumpsys, none, i);
      ConfirmedIff(hs[i], f, mentionsDumpsys);
      ConfirmedIff(hs[k], f, mentionsDumpsys);
      if Confirmable(c) {
        SeparatingConfirms(c, mentionsDumpsys);
        SeparatingConfirmsNoOther(c, d, mentionsDumpsys);
      } else {
        SeparatingConfirms(d, mentionsDumpsys);
        SeparatingConfirmsNoOther(d, c, mentionsDumpsys);
      }
      assert !(Merged(hs[i], VerifyAll(hs, f, evidence, mentionsDumpsys), none).status == Confirmed
               <==> Decide(hs[i], f, mentionsDumpsys).status == Confirmed);
    }
  }

  lemma SameFateSameVerdict(h: Hypothesis, g: Hypothesis, f: Findings, mentionsDumpsys: Item -> bool)
    requires h.category == g.category || (!Confirmable(h.category) && !Confirmable(g.category))
    ensures Decide(h, f, mentionsDumpsys).status == Confirmed <==> Decide(g, f, mentionsDumpsys).status == Confirmed
  {
    hide Decide;
    ConfirmedIff(h, f, mentionsDumpsys);
    ConfirmedIff(g, f, mentionsDumpsys);
  }

  /* ---------- The output always fits its model ---------- */

  predicate FeedbackFits(u: Feedback) {
    |u.reasoning| <= 1200 && |u.missing| <= 12 && |u.nextSteps| <= 12 && |u.limitations| <= 12
  }

  lemma {:induction false} ReadFeedbackFits(squeeze: string -> string, items: seq<FeedbackItem>, ids: set<string>)
    ensures forall id | id in ReadFeedback(squeeze, items, ids).updates ::
              id in ids && FeedbackFits(ReadFeedback(squeeze, items, ids).updates[id])
  {
    hide LimitedStrings;
    if items != [] {
      var n := |items| - 1;
      ReadFeedbackFits(squeeze, items[..n], ids);
      if items[n].FeedbackObject? {
        var raw := items[n].raw;
        LimitedFits(squeeze, raw.missing, 12, 300);
        LimitedFits(squeeze, raw.nextSteps, 12, 300);
        LimitedFits(squeeze, raw.limitations, 12, 300);
        assert FeedbackFits(CleanedFeedback(squeeze, raw));
      }
    }
  }

  /** Verdicts and feedback keep every list and number inside the limits of the output model. */
  lemma MergeFits(h: Hypothesis, h': Hypothesis, f: Findings, evidence: seq<StaticEvidence>,
                  mentionsDumpsys: Item -> bool, fb: Option<Feedback>)
    requires FitsModel(h) && (fb.Some? ==> FeedbackFits(fb.value))
    ensures FitsModel(WithFeedback(WithVerdict(h, Some(Verify(h', f, evidence, mentionsDumpsys))), fb))
  {
    hide Decide, IsHypothesisId, CitesEvidence, UniqueStrings;
    var v := Verify(h', f, evidence, mentionsDumpsys);
    UniqueStringsSpec(RuntimeIdsOf(f.runtime, RuntimeKinds(h'.category)), 30);
    UniqueStringsSpec(h.missing + v.missing, 12);
    var w := WithVerdict(h, Some(v));
    if fb.Some? {
      UniqueStringsSpec(w.missing + fb.value.missing, 12);
    }
  }

  /** What the feedback round returns: nothing when it does not run or fails. */
  datatype Reply = NoReply | Reply(payload: FeedbackPayload)

  predicate FeedbackRuns(hs: seq<Hypothesis>, f: Findings, rounds: int) {
    hs != [] && (f.runtime != [] || f.experiments != []) && rounds > 0
  }

  function IdsOf(hs: seq<Hypothesis>): set<string> {
    set i | 0 <= i < |hs| :: hs[i].id
  }

  class AIInvestigatorClient {
    const squeeze: string -> string
    const rounds: int

    constructor (squeeze: string -> string, rounds: int)
      ensures this.squeeze == squeeze && this.rounds == rounds
    {
      this.squeeze, this.rounds := squeeze, rounds;
    }

    /**
     `verify_and_finalize`: for hypotheses that fit the model, the output fits
     it too, keeps order, ids and citations, and carries the verifier's verdicts.
     */
    method VerifyAndFinalize(hs: seq<Hypothesis>, f: Findings, evidence: seq<StaticEvidence>,
                             mentionsDumpsys: Item -> bool, reply: Reply)
      returns (final: seq<Hypothesis>, vs: seq<Verification>)
      requires |hs| <= 20 && forall i | 0 <= i < |hs| :: FitsModel(hs[i])
      ensures vs == VerifyAll(hs, f, evidence, mentionsDumpsys) && |vs| <= 20
      ensures |final| == |hs|
      ensures forall i | 0 <= i < |hs| :: FitsModel(final[i])
      ensures forall i | 0 <= i < |hs| ::
                final[i].id == hs[i].id && final[i].category == hs[i].category
                && final[i].supporting == hs[i].supporting && final[i].contradicting == hs[i].contradicting
      ensures var asked := |hs| > 0 && |f.runtime| + |f.experiments| > 0 && rounds >= 1;
              var updates := if asked && reply.Reply? && reply.payload.Updates?
                             then ReadFeedback(squeeze, First20(reply.payload.items), IdsOf(hs)).updates else map[];
              forall i | 0 <= i < |hs| :: final[i] == Merged(hs[i], vs, updates)
      ensures UniqueHypothesisIds(hs) ==>
                forall i | 0 <= i < |hs| :: final[i].status == Decide(hs[i], f, mentionsDumpsys).status
                                            && final[i].strength == Decide(hs[i], f, mentionsDumpsys).strength
    {
      hide Decide, FitsModel, Merged, FeedbackFits;
      vs := VerifyAll(hs, f, evidence, mentionsDumpsys);
      var updates: map<string, Feedback> := map[];
      if FeedbackRuns(hs, f, rounds) && reply.Reply? {
        var read := ValidateFeedbackPayload(squeeze, reply.payload, IdsOf(hs));
        updates := read.updates;
        if reply.payload.Updates? {
          ReadFeedbackFits(squeeze, First20(reply.payload.items), IdsOf(hs));
        }
      }
      final := ApplyVerifications(hs, vs, updates);
      forall i | 0 <= i < |hs|
        ensures FitsModel(final[i]) && final[i].id == hs[i].id && final[i].category == hs[i].category
                && final[i].supporting == hs[i].supporting && final[i].contradicting == hs[i].contradicting
        ensures UniqueHypothesisIds(hs) ==>
                  final[i].status == Decide(hs[i], f, mentionsDumpsys).status
                  && final[i].strength == Decide(hs[i], f, mentionsDumpsys).strength
      {
        FinalFits(hs, f, evidence, mentionsDumpsys, updates, i);
        MergeKeepsIdentity(hs[i], vs, updates);
        if UniqueHypothesisIds(hs) {
          FinalStatusIsItsOwnVerdict(hs, f, evidence, mentionsDumpsys, updates, i);
        }
      }
    }
  }

  lemma FinalFits(hs: seq<Hypothesis>, f: Findings, evidence: seq<StaticEvidence>, mentionsDumpsys: Item -> bool,
                  updates: map<string, Feedback>, i: nat)
    requires i < |hs| && FitsModel(hs[i]) && forall id | id in updates :: FeedbackFits(updates[id])
    ensures FitsModel(Merged(hs[i], VerifyAll(hs, f, evidence, mentionsDumpsys), updates))
  {
    hide Decide, FitsModel, FeedbackFits;
    var vs := VerifyAll(hs, f, evidence, mentionsDumpsys);
    ByIdIsLast(hs, vs, i);
    MergeFits(hs[i], hs[LastWithId(hs, hs[i].id)], f, evidence, mentionsDumpsys, FeedbackFor(updates, hs[i].id));
  }
}
