/**
 What the AI stage keeps of what the AI sends: which hypotheses it accepts, what
 they then say, which feedback counts, and what the final report takes from
 hypothesis, verdict and feedback.
 */
module InvestigationMeaning {
  import opened Common
  import opened Evidence
  import opened Verifier
  import opened Investigation

  /* ---------- Lists from the AI ---------- */

  ghost predicate Listed(squeeze: string -> string, value: Option<seq<string>>, width: nat, x: string) {
    value.Some? && x != "" && exists raw :: raw in value.value && x == Clip(squeeze(raw), width)
  }

  /** A limited list holds, once each, clipped texts of the given list, and below the limit all that are not empty. */
  lemma LimitedMeans(squeeze: string -> string, value: Option<seq<string>>, limit: nat, width: nat)
    ensures var r := LimitedStrings(squeeze, value, limit, width);
            && NoDuplicates(r) && |r| <= limit
            && (forall x | x in r :: Listed(squeeze, value, width, x))
            && (|r| < limit ==> forall x | Listed(squeeze, value, width, x) :: x in r)
  {
    hide Clip, UniqueStrings;
    if value.Some? {
      var clipped, r := ClipAll(squeeze, value.value, width), LimitedStrings(squeeze, value, limit, width);
      ClipAllIsClip(squeeze, value.value, width);
      UniqueStringsSpec(clipped, limit);
      forall x | x in r ensures Listed(squeeze, value, width, x) {
        assert x in ToSet(r) && x in ToSet(clipped);
        var i :| 0 <= i < |clipped| && clipped[i] == x;
        assert value.value[i] in value.value;
      }
      if |r| < limit {
        forall x | Listed(squeeze, value, width, x) ensures x in r {
          var raw :| raw in value.value && x == Clip(squeeze(raw), width);
          var i :| 0 <= i < |value.value| && value.value[i] == raw;
          assert clipped[i] == x;
          assert x in ToSet(clipped) - {""} && x in ToSet(r);
        }
      }
    }
  }

  /** Known ids stay in the order of the list. */
  lemma {:induction false} KnownInOrder(a: seq<string>, b: seq<string>, known: set<string>)
    ensures KeepIn(a + b, known) == KeepIn(a, known) + KeepIn(b, known)
  {
    if a == [] {
      assert a + b == b;
    } else {
      assert (a + b)[1..] == a[1..] + b;
      KnownInOrder(a[1..], b, known);
    }
  }

  /** Read from the front, item by item. */
  function ReadFrom(squeeze: string -> string, items: seq<RawItem>, index: nat, known: set<string>,
                    allowed: set<string>): Reading
  {
    if items == [] then Reading([], [])
    else
      var first := ReadItem(squeeze, items[0], index, known, allowed);
      var rest := ReadFrom(squeeze, items[1..], index + 1, known, allowed);
      Reading(first.accepted + rest.accepted, first.problems + rest.problems)
  }

  lemma {:induction false} ReadFromConcat(squeeze: string -> string, a: seq<RawItem>, b: seq<RawItem>, index: nat,
                                          known: set<string>, allowed: set<string>)
    ensures var x := ReadFrom(squeeze, a, index, known, allowed);
            var y := ReadFrom(squeeze, b, index + |a|, known, allowed);
            ReadFrom(squeeze, a + b, index, known, allowed) ==
              Reading(x.accepted + y.accepted, x.problems + y.problems)
  {
    hide ReadItem;
    if a == [] {
      assert a + b == b;
    } else {
      assert (a + b)[1..] == a[1..] + b;
      ReadFromConcat(squeeze, a[1..], b, index + 1, known, allowed);
    }
  }

  /** Accepted hypotheses and problems come in the order of the items. */
  lemma {:induction false} ReadInOrder(squeeze: string -> string, items: seq<RawItem>, known: set<string>,
                                       allowed: set<string>)
    ensures ReadItems(squeeze, items, known, allowed) == ReadFrom(squeeze, items, 0, known, allowed)
  {
    hide ReadItem;
    if items != [] {
      var n := |items| - 1;
      ReadInOrder(squeeze, items[..n], known, allowed);
      assert items == items[..n] + [items[n]];
      ReadFromConcat(squeeze, items[..n], [items[n]], 0, known, allowed);
      assert [items[n]][1..] == [];
    }
  }

  /* ---------- Which hypotheses are accepted ---------- */

  ghost predicate CitesKnown(squeeze: string -> string, value: Option<seq<string>>, known: set<string>) {
    exists x :: x in known && x in LimitedStrings(squeeze, value, 30, 12)
  }

  lemma KnownIdsMean(squeeze: string -> string, value: Option<seq<string>>, known: set<string>)
    ensures forall x :: x in KnownIds(squeeze, value, known) <==>
                        x in known && x in LimitedStrings(squeeze, value, 30, 12)
    ensures KnownIds(squeeze, value, known) != [] <==> CitesKnown(squeeze, value, known)
    ensures |KnownIds(squeeze, value, known)| <= 30
  {
    hide LimitedStrings;
    LimitedFits(squeeze, value, 30, 12);
    var ids := KnownIds(squeeze, value, known);
    if ids != [] {
      assert ids[0] in ids;
    }
  }

  ghost predicate IdsAreAssigned(known: set<string>) {
    forall x | x in known :: IsEvidenceId(x)
  }

  /** Letters, digits and four signs. */
  predicate AllowedChar(c: char) {
    || 65 <= c as int <= 90 || 97 <= c as int <= 122 || 48 <= c as int <= 57
    || c == '_' || c == '.' || c == ':' || c == '-'
  }

  /** The output model, limit by limit. */
  lemma FitsModelIff(h: Hypothesis)
    ensures FitsModel(h) <==>
              && 1 <= |h.id| <= 80 && (forall c | c in h.id :: AllowedChar(c))
              && 0.0 <= h.confidence <= 1.0 && 0.0 <= h.strength <= 1.0
              && 1 <= |h.title| <= 200 && 1 <= |h.reasoning| <= 1200
              && |h.supporting| <= 30 && |h.contradicting| <= 30 && |h.supporting| + |h.contradicting| > 0
              && (forall id | id in h.supporting + h.contradicting :: IsEvidenceId(id))
              && |h.missing| <= 12 && |h.experiments| <= 12 && |h.nextSteps| <= 12 && |h.limitations| <= 12
              && |h.runtimeIds| <= 30
  {
    hide IsEvidenceId;
    assert IsHypothesisId(h.id) <==> 1 <= |h.id| <= 80 && forall c | c in h.id :: AllowedChar(c) by {
      IdMeans(h.id);
    }
    CitesMeans(h.supporting);
    CitesMeans(h.contradicting);
    hide IsHypothesisId, CitesEvidence;
    assert forall id :: id in h.supporting + h.contradicting <==> id in h.supporting || id in h.contradicting;
  }

  lemma CharsAgree()
    ensures forall c :: AllowedChar(c) <==> IdChar(c)
  {
  }

  lemma IdMeans(id: string)
    ensures IsHypothesisId(id) <==> 1 <= |id| <= 80 && forall c | c in id :: AllowedChar(c)
  {
    hide IdChar, AllowedChar;
    CharsAgree();
    assert forall i | 0 <= i < |id| :: id[i] in id;
  }

  lemma CitesMeans(ids: seq<string>)
    ensures CitesEvidence(ids) <==> |ids| <= 30 && forall id | id in ids :: IsEvidenceId(id)
  {
    hide IsEvidenceId;
    assert forall i | 0 <= i < |ids| :: ids[i] in ids;
  }

  /** What the output model asks of an item beyond a known citation. */
  ghost predicate Acceptable(squeeze: string -> string, raw: RawHypothesis) {
    && raw.category.Some? && raw.status.Some?
    && raw.confidence.Some? && 0.0 <= raw.confidence.value <= 1.0
    && squeeze(raw.id) != "" && (forall i | 0 <= i < Min(80, |squeeze(raw.id)|) :: AllowedChar(squeeze(raw.id)[i]))
    && squeeze(raw.title) != "" && squeeze(raw.reasoning) != ""
  }

  /**
   An item is accepted if and only if it is an object that cites known evidence
   and has an enumerated category and status, a confidence in range, an id of
   the allowed characters, a title and a reasoning.  Otherwise the first of
   these that fails is reported.
   */
  lemma AcceptedIff(squeeze: string -> string, item: RawItem, index: nat, known: set<string>, allowed: set<string>)
    requires IdsAreAssigned(known)
    ensures var r := ReadItem(squeeze, item, index, known, allowed);
            && |r.accepted| + |r.problems| == 1
            && (r.accepted != [] <==>
                  && item.Object? && Acceptable(squeeze, item.raw)
                  && (CitesKnown(squeeze, item.raw.supporting, known)
                      || CitesKnown(squeeze, item.raw.contradicting, known)))
            && (r.problems != [] ==>
                  r.problems[0] ==
                    if item.NotAnObject? then ItemNotAnObject(index)
                    else if !CitesKnown(squeeze, item.raw.supporting, known)
                            && !CitesKnown(squeeze, item.raw.contradicting, known) then NothingKnownCited(index)
                    else Invalid(index))
  {
    hide LimitedStrings, KnownIds, IdChar, AllowedChar;
    CharsAgree();
    if item.Object? {
      var raw := item.raw;
      KnownIdsMean(squeeze, raw.supporting, known);
      KnownIdsMean(squeeze, raw.contradicting, known);
      LimitedFits(squeeze, raw.missing, 12, 300);
      LimitedFits(squeeze, raw.experiments, 12, 80);
      LimitedFits(squeeze, raw.nextSteps, 12, 300);
      LimitedFits(squeeze, raw.limitations, 12, 300);
      CitesAssigned(KnownIds(squeeze, raw.supporting, known), known);
      CitesAssigned(KnownIds(squeeze, raw.contradicting, known), known);
      KeptExperiments(squeeze, raw.experiments, allowed);
    }
  }

  lemma CitesAssigned(ids: seq<string>, known: set<string>)
    requires IdsAreAssigned(known) && |ids| <= 30 && forall x | x in ids :: x in known
    ensures CitesEvidence(ids)
  {
    forall i | 0 <= i < |ids| ensures IsEvidenceId(ids[i]) {
      assert ids[i] in ids;
    }
  }

  lemma KeptExperiments(squeeze: string -> string, value: Option<seq<string>>, allowed: set<string>)
    ensures |KeepIn(LimitedStrings(squeeze, value, 12, 80), allowed)| <= 12
  {
    LimitedFits(squeeze, value, 12, 80);
  }

  /** An accepted hypothesis says what was sent, as far as it fits. */
  lemma AcceptedAsSent(squeeze: string -> string, raw: RawHypothesis, index: nat, known: set<string>,
                       allowed: set<string>)
    requires ReadItem(squeeze, Object(raw), index, known, allowed).accepted != []
    ensures var h := ReadItem(squeeze, Object(raw), index, known, allowed).accepted[0];
            && Some(h.category) == raw.category && Some(h.status) == raw.status && Some(h.confidence) == raw.confidence
            && Common.Kept(h.id, squeeze(raw.id), 80) && Common.Kept(h.title, squeeze(raw.title), 200)
            && Common.Kept(h.reasoning, squeeze(raw.reasoning), 1200)
            && (forall x :: x in h.supporting <==> x in known && x in LimitedStrings(squeeze, raw.supporting, 30, 12))
            && (forall x :: x in h.contradicting <==>
                  x in known && x in LimitedStrings(squeeze, raw.contradicting, 30, 12))
            && (forall x :: x in h.experiments <==>
                  x in allowed && x in LimitedStrings(squeeze, raw.experiments, 12, 80))
            && h.missing == LimitedStrings(squeeze, raw.missing, 12, 300)
            && h.nextSteps == LimitedStrings(squeeze, raw.nextSteps, 12, 300)
            && h.limitations == LimitedStrings(squeeze, raw.limitations, 12, 300)
            && h.strength == 0.0 && h.runtimeIds == []
  {
    hide LimitedStrings, FitsModel;
    KnownIdsMean(squeeze, raw.supporting, known);
    KnownIdsMean(squeeze, raw.contradicting, known);
  }

  /* ---------- Which feedback counts ---------- */

  ghost predicate Addresses(squeeze: string -> string, item: FeedbackItem, id: string) {
    item.FeedbackObject? && Clip(squeeze(item.raw.id), 80) == id
  }

  ghost predicate IsLastUpdate(squeeze: string -> string, items: seq<FeedbackItem>, id: string, i: nat) {
    i < |items| && Addresses(squeeze, items[i], id) && forall j | i < j < |items| :: !Addresses(squeeze, items[j], id)
  }

  /** An id is updated if it is known and some object addresses it, and then by the last that does. */
  lemma {:induction false} LastUpdateCounts(squeeze: string -> string, items: seq<FeedbackItem>, ids: set<string>,
                                            id: string)
    ensures var updates := ReadFeedback(squeeze, items, ids).updates;
            && (id in updates <==> id in ids && exists i :: 0 <= i < |items| && Addresses(squeeze, items[i], id))
            && (id in updates ==>
                  exists i: nat :: i < |items| && items[i].FeedbackObject? && IsLastUpdate(squeeze, items, id, i)
                                   && updates[id] == CleanedFeedback(squeeze, items[i].raw))
  {
    hide CleanedFeedback, Clip, IsLastUpdate;
    if items != [] {
      var n := |items| - 1;
      var before, after := ReadFeedback(squeeze, items[..n], ids).updates, ReadFeedback(squeeze, items, ids).updates;
      LastUpdateCounts(squeeze, items[..n], ids, id);
      UpdatedBefore(squeeze, items, id);
      if id in after {
        if Addresses(squeeze, items[n], id) {
          LastIsLast(squeeze, items, id);
        } else {
          var i: nat :| i < n && items[..n][i].FeedbackObject? && IsLastUpdate(squeeze, items[..n], id, i)
                        && before[id] == CleanedFeedback(squeeze, items[..n][i].raw);
          StaysLast(squeeze, items, id, i);
        }
      }
    }
  }

  lemma LastIsLast(squeeze: string -> string, items: seq<FeedbackItem>, id: string)
    requires items != [] && Addresses(squeeze, items[|items| - 1], id)
    ensures IsLastUpdate(squeeze, items, id, |items| - 1)
  {
  }

  lemma StaysLast(squeeze: string -> string, items: seq<FeedbackItem>, id: string, i: nat)
    requires items != [] && !Addresses(squeeze, items[|items| - 1], id)
    requires IsLastUpdate(squeeze, items[..|items| - 1], id, i)
    ensures IsLastUpdate(squeeze, items, id, i) && items[i] == items[..|items| - 1][i]
  {
    var n := |items| - 1;
    forall j | i < j < |items| ensures !Addresses(squeeze, items[j], id) {
      assert j < n ==> items[..n][j] == items[j];
    }
  }

  lemma UpdatedBefore(squeeze: string -> string, items: seq<FeedbackItem>, id: string)
    requires items != []
    ensures var n := |items| - 1;
            (exists i :: 0 <= i < |items| && Addresses(squeeze, items[i], id)) <==>
              Addresses(squeeze, items[n], id)
              || exists i :: 0 <= i < |items[..n]| && Addresses(squeeze, items[..n][i], id)
  {
    var n := |items| - 1;
    if i :| 0 <= i < |items| && Addresses(squeeze, items[i], id) {
      assert i < n ==> items[..n][i] == items[i];
    }
    if i :| 0 <= i < |items[..n]| && Addresses(squeeze, items[..n][i], id) {
      assert items[i] == items[..n][i];
    }
  }

  /** Problems are reported for the items that are no objects, address unknown ids, or try to set a verdict. */
  lemma {:induction false} FeedbackProblems(squeeze: string -> string, items: seq<FeedbackItem>, ids: set<string>,
                                            p: Problem)
    ensures p in ReadFeedback(squeeze, items, ids).problems <==>
              exists i: nat :: i < |items| && (
                || (p == ItemNotAnObject(i) && items[i].FeedbackNotAnObject?)
                || (p == UnknownHypothesis(i) && items[i].FeedbackObject?
                    && Clip(squeeze(items[i].raw.id), 80) !in ids)
                || (p == ForbiddenFieldsIgnored(i) && items[i].FeedbackObject? && items[i].raw.hasForbiddenField
                    && Clip(squeeze(items[i].raw.id), 80) in ids))
  {
    hide CleanedFeedback, Clip;
    if items != [] {
      FeedbackProblems(squeeze, items[..|items| - 1], ids, p);
      assert forall i: nat | i < |items| - 1 :: items[..|items| - 1][i] == items[i];
    }
  }

  /** What an update says: its own texts and lists, clipped. */
  lemma UpdateSays(squeeze: string -> string, raw: RawFeedback)
    ensures var u := CleanedFeedback(squeeze, raw);
            && Common.Kept(u.reasoning, squeeze(raw.reasoning), 1200)
            && (forall x | x in u.missing :: Listed(squeeze, raw.missing, 300, x))
            && (forall x | x in u.nextSteps :: Listed(squeeze, raw.nextSteps, 300, x))
            && (forall x | x in u.limitations :: Listed(squeeze, raw.limitations, 300, x))
            && (|u.missing| < 12 ==> forall x | Listed(squeeze, raw.missing, 300, x) :: x in u.missing)
            && (|u.nextSteps| < 12 ==> forall x | Listed(squeeze, raw.nextSteps, 300, x) :: x in u.nextSteps)
            && (|u.limitations| < 12 ==> forall x | Listed(squeeze, raw.limitations, 300, x) :: x in u.limitations)
  {
    hide LimitedStrings, Listed;
    LimitedMeans(squeeze, raw.missing, 12, 300);
    LimitedMeans(squeeze, raw.nextSteps, 12, 300);
    LimitedMeans(squeeze, raw.limitations, 12, 300);
  }

  /* ---------- The final report ---------- */

  /** What the final hypothesis takes from where. */
  lemma FinalSays(h: Hypothesis, vs: seq<Verification>, updates: map<string, Feedback>)
    requires ById(vs, h.id).Some?
    ensures var m, v := Merged(h, vs, updates), ById(vs, h.id).value;
            && m.status == v.status && m.strength == v.strength && m.runtimeIds == v.runtimeIds
            && (h.id !in updates ==> m.reasoning == h.reasoning && m.nextSteps == h.nextSteps
                                     && m.limitations == h.limitations)
            && (h.id in updates ==>
                  var u := updates[h.id];
                  && m.reasoning == (if u.reasoning != "" then u.reasoning else h.reasoning)
                  && m.nextSteps == (if u.nextSteps != [] then u.nextSteps else h.nextSteps)
                  && m.limitations == (if u.limitations != [] then u.limitations else h.limitations))
  {
  }

  /** What is missing is what hypothesis, verdict and feedback miss, at most twelve. */
  lemma FinalMisses(h: Hypothesis, vs: seq<Verification>, updates: map<string, Feedback>)
    requires |h.missing| < 12 && "" !in h.missing && NoDuplicates(h.missing)
    ensures var m := Merged(h, vs, updates);
            var sources := ToSet(h.missing)
                           + (if ById(vs, h.id).Some? then ToSet(ById(vs, h.id).value.missing) else {})
                           + (if h.id in updates then ToSet(updates[h.id].missing) else {});
            && ToSet(m.missing) <= sources
            && (|m.missing| < 12 ==> ToSet(m.missing) == sources - {""})
  {
    hide UniqueStrings;
    var w := WithVerdict(h, ById(vs, h.id));
    var more := if ById(vs, h.id).Some? then ById(vs, h.id).value.missing else [];
    UniqueStringsSpec(h.missing + more, 12);
    assert ToSet(h.missing + more) == ToSet(h.missing) + ToSet(more);
    assert "" !in ToSet(h.missing);
    if h.id in updates {
      var u := updates[h.id];
      UniqueStringsSpec(w.missing + u.missing, 12);
      assert ToSet(w.missing + u.missing) == ToSet(w.missing) + ToSet(u.missing);
      if |w.missing| >= 12 {
        FewerBefore(w.missing, u.missing);
      }
    }
  }

  /** A list that is already full stays full. */
  lemma FewerBefore(a: seq<string>, b: seq<string>)
    requires |a| >= 12 && NoDuplicates(a) && "" !in a
    ensures |UniqueStrings(a + b, 12)| == 12
  {
    DistinctIsASet(a);
    DistinctPrefix(a + b, |a|);
    assert (a + b)[..|a|] == a;
    NoRepeatsKept(a);
  }

  lemma {:induction false} NoRepeatsKept(a: seq<string>)
    requires NoDuplicates(a) && "" !in a
    ensures Distinct(a) == a
  {
    if a != [] {
      var n := |a| - 1;
      NoRepeatsKept(a[..n]);
      assert a == a[..n] + [a[n]];
    }
  }
}
