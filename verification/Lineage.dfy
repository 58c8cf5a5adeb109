/**
 `DataLineageCorrelator`: tracing an active marker through the evidence, and
 the exact condition under which an exfiltration counts as complete.
 */
module Lineage {
  import opened Common
  import opened Evidence

  datatype MarkerType = Otp | Username | Password | AccountNumber | CardReference

  datatype Marker = Marker(number: nat, kind: MarkerType, value: string)

  datatype Phase = Ingress | Egress | Transformation | InternalState

  datatype Step = Step(
    index: nat, evidenceId: string, phase: Phase, api: string, transform: string, matched: string, description: string)

  /** `P001`, `P002`, ... are represented by their numbers. */
  datatype PayloadLineage = PayloadLineage(
    number: nat, marker: Marker, chain: seq<string>, steps: seq<Step>, source: string, sink: Option<string>,
    complete: bool)

  const INGRESS_INDICATORS: seq<string> := [
    "createfrompdu", "onreceive", "onnotificationposted", "gettext", "synthetic_sms_delivered", "sms_access"]
  const EGRESS_INDICATORS: seq<string> := [
    "sendtextmessage", "sendmultiparttextmessage", "newcall", "openconnection", "connect",
    "http_request_observed", "socket_connect_observed", "network_destination"]
  const BODY_FIELDS: seq<string> := ["body", "body_preview_redacted", "payload", "request_body", "body_bytes_decoded"]

  /* ---------- Markers ---------- */

  /** `rstrip("=")`. */
  function WithoutPadding(text: string): string {
    if text != "" && text[|text| - 1] == '=' then WithoutPadding(text[..|text| - 1]) else text
  }

  /** Names and texts of the transformations, in the order they are tried. */
  function Transformations(lib: Library, m: Marker): seq<(string, string)> {
    [("raw", m.value), ("utf8", m.value), ("base64", lib.base64(m.value)),
     ("base64_url", WithoutPadding(lib.base64(m.value))), ("hex", lib.hex(m.value)),
     ("hex_upper", Upper(lib.hex(m.value))), ("url_encoded", lib.quote(m.value))]
  }

  function FirstIn(transforms: seq<(string, string)>, text: string): Option<string> {
    if transforms == [] then None
    else if Contains(text, transforms[0].1) then Some(transforms[0].0)
    else FirstIn(transforms[1..], text)
  }

  function MatchesPayload(lib: Library, m: Marker, text: string): Option<string> {
    if text == "" then None else FirstIn(Transformations(lib, m), text)
  }

  /** The text carries the marker in one of its encodings. */
  ghost predicate Carries(lib: Library, m: Marker, text: string) {
    text != "" && exists i :: 0 <= i < |Transformations(lib, m)| && Contains(text, Transformations(lib, m)[i].1)
  }

  lemma {:induction false} FirstInFinds(transforms: seq<(string, string)>, text: string)
    ensures FirstIn(transforms, text).Some? <==>
              exists i :: 0 <= i < |transforms| && Contains(text, transforms[i].1)
  {
    if transforms != [] {
      FirstInFinds(transforms[1..], text);
      if i :| 0 <= i < |transforms| && Contains(text, transforms[i].1) {
        assert i > 0 ==> transforms[1..][i - 1] == transforms[i];
      }
      if i :| 0 <= i < |transforms[1..]| && Contains(text, transforms[1..][i].1) {
        assert transforms[i + 1] == transforms[1..][i];
      }
    }
  }

  lemma MatchIsCarrying(lib: Library, m: Marker, text: string)
    ensures MatchesPayload(lib, m, text).Some? <==> Carries(lib, m, text)
  {
    FirstInFinds(Transformations(lib, m), text);
  }

  /* ---------- Attribution ---------- */

  /** `str(value or "")`. */
  function Shown(lib: Library, v: Option<Value>): string {
    match v
    case Some(Text(t)) => t
    case Some(Flag(on)) => if on then "True" else ""
    case Some(Number(n)) => if n == 0 then "" else lib.show(Number(n))
    case Some(Items(vs)) => if vs == [] then "" else lib.show(Items(vs))
    case Some(Table(es)) => if es == [] then "" else lib.show(Table(es))
    case Some(Bytes(d)) => if d == "" then "" else lib.show(Bytes(d))
    case Some(Nothing) => ""
    case None => ""
  }

  predicate PackageMatches(candidate: string, target: string) {
    candidate == target || target + ":" <= candidate
  }

  predicate Attributed(lib: Library, e: Item, target: string) {
    var declared := Shown(lib, Lookup(e.metadata, "target_package"));
    && (e.process != "" || declared != "")
    && (e.process != "" ==> PackageMatches(e.process, target))
    && (declared != "" ==> PackageMatches(declared, target))
  }

  /* ---------- One evidence item ---------- */

  function TableTexts(entries: seq<Entry>): seq<string> {
    if entries == [] then []
    else (if entries[0].value.Text? && entries[0].value.text != "" then [entries[0].value.text] else [])
         + TableTexts(entries[1..])
  }

  function EntryTexts(v: Value): seq<string> {
    match v
    case Text(t) => if t != "" then [t] else []
    case Table(entries) => TableTexts(entries)
    case _ => []
  }

  function MetadataTexts(entries: seq<Entry>): seq<string> {
    if entries == [] then [] else EntryTexts(entries[0].value) + MetadataTexts(entries[1..])
  }

  function FieldsToCheck(e: Item): seq<string> {
    (if e.description != "" then [e.description] else []) + MetadataTexts(e.metadata)
  }

  function FirstMatch(lib: Library, m: Marker, texts: seq<string>): Option<string> {
    if texts == [] then None
    else
      var t := MatchesPayload(lib, m, texts[0]);
      if t.Some? then t else FirstMatch(lib, m, texts[1..])
  }

  predicate AnyIn(indicators: seq<string>, api: string, kind: string) {
    exists i :: 0 <= i < |indicators| && (Contains(api, indicators[i]) || Contains(kind, indicators[i]))
  }

  function ApiOf(lib: Library, e: Item): string {
    Lower(Shown(lib, Lookup(e.metadata, "api")))
  }

  function PhaseOf(lib: Library, e: Item, transform: string): Phase {
    var api, kind := ApiOf(lib, e), Lower(e.kind);
    if AnyIn(INGRESS_INDICATORS, api, kind) then Ingress
    else if AnyIn(EGRESS_INDICATORS, api, kind) then Egress
    else if transform in ["base64", "hex", "url_encoded"] || Contains(Lower(e.description), "transform")
    then Transformation
    else InternalState
  }

  function TextOf(transforms: seq<(string, string)>, name: string, default: string): string {
    if transforms == [] then default
    else if transforms[0].0 == name then transforms[0].1
    else TextOf(transforms[1..], name, default)
  }

  /** An absent target package is the empty text, and switches the attribution check off. */
  function StepOf(lib: Library, target: string, m: Marker, e: Item, index: nat): Option<Step> {
    if e.id == "" || (target != "" && !Attributed(lib, e, target)) then None
    else match FirstMatch(lib, m, FieldsToCheck(e))
      case None => None
      case Some(t) =>
        var api := ApiOf(lib, e);
        Some(Step(index, e.id, PhaseOf(lib, e, t), if api != "" then api else Lower(e.kind), t,
                  TextOf(Transformations(lib, m), t, m.value), e.description))
  }

  predicate BodyFieldCarries(lib: Library, m: Marker, v: Option<Value>) {
    match v
    case Some(Text(t)) => MatchesPayload(lib, m, t).Some?
    case Some(Bytes(d)) => MatchesPayload(lib, m, d).Some?
    case _ => false
  }

  /** One of the explicit body fields carries the marker. */
  predicate BodyCarries(lib: Library, m: Marker, e: Item) {
    exists i :: 0 <= i < |BODY_FIELDS| && BodyFieldCarries(lib, m, Lookup(e.metadata, BODY_FIELDS[i]))
  }

  /** `_is_verified_body_egress`: the first item with the id decides if it is not instrumented. */
  predicate VerifiedBody(lib: Library, m: Marker, items: seq<Item>, id: string) {
    items != [] && (
      if items[0].id != id then VerifiedBody(lib, m, items[1..], id)
      else items[0].trust == Instrumented
           && (BodyCarries(lib, m, items[0]) || VerifiedBody(lib, m, items[1..], id)))
  }

  /* ---------- One marker ---------- */

  function StepsOf(lib: Library, target: string, m: Marker, items: seq<Item>): seq<Step> {
    if items == [] then []
    else
      var n := |items| - 1;
      var before := StepsOf(lib, target, m, items[..n]);
      match StepOf(lib, target, m, items[n], |before| + 1)
      case None => before
      case Some(s) => before + [s]
  }

  function ChainOf(steps: seq<Step>): seq<string> {
    if steps == [] then []
    else
      var n := |steps| - 1;
      var before := ChainOf(steps[..n]);
      if steps[n].evidenceId in before then before else before + [steps[n].evidenceId]
  }

  predicate HasPhase(steps: seq<Step>, phase: Phase) {
    exists i :: 0 <= i < |steps| && steps[i].phase == phase
  }

  predicate HasVerifiedEgress(lib: Library, m: Marker, items: seq<Item>, steps: seq<Step>) {
    exists i :: 0 <= i < |steps| && steps[i].phase == Egress && VerifiedBody(lib, m, items, steps[i].evidenceId)
  }

  function LastEgress(steps: seq<Step>): Option<string> {
    if steps == [] then None
    else
      var n := |steps| - 1;
      if steps[n].phase == Egress then Some(steps[n].evidenceId) else LastEgress(steps[..n])
  }

  predicate Complete(lib: Library, m: Marker, items: seq<Item>, steps: seq<Step>) {
    HasPhase(steps, Ingress) && HasVerifiedEgress(lib, m, items, steps)
  }

  function LineageOf(lib: Library, target: string, m: Marker, items: seq<Item>, number: nat): Option<PayloadLineage> {
    var steps := StepsOf(lib, target, m, items);
    if steps == [] then None
    else Some(PayloadLineage(number, m, ChainOf(steps), steps, steps[0].evidenceId, LastEgress(steps),
                             Complete(lib, m, items, steps)))
  }

  /* ---------- All markers ---------- */

  const MAX_LINEAGE: nat := 999

  /** The lineages and the next number; a number that no longer fits its pattern is an exception. */
  datatype Correlation = Correlation(lineages: seq<PayloadLineage>, next: nat) | NumbersExhausted(next: nat)

  function Correlated(lib: Library, target: string, markers: seq<Marker>, items: seq<Item>, next: nat): Correlation {
    if markers == [] then Correlation([], next)
    else
      var n := |markers| - 1;
      match Correlated(lib, target, markers[..n], items, next)
      case NumbersExhausted(k) => NumbersExhausted(k)
      case Correlation(lineages, k) =>
        match LineageOf(lib, target, markers[n], items, k)
        case None => Correlation(lineages, k)
        case Some(l) => if k > MAX_LINEAGE then NumbersExhausted(k) else Correlation(lineages + [l], k + 1)
  }

  class DataLineageCorrelator {
    const lib: Library
    var counter: nat

    constructor (lib: Library)
      ensures this.lib == lib && counter == 1
    {
      this.lib, counter := lib, 1;
    }

    /** `_find_marker_match`: collect the text fields, then try each. */
    method FindMarkerMatch(e: Item, m: Marker) returns (transform: Option<string>)
      ensures transform == FirstMatch(lib, m, FieldsToCheck(e))
    {
      var texts := FieldsToCheck(e);
      var i := 0;
      while i < |texts|
        invariant 0 <= i <= |texts|
        invariant FirstMatch(lib, m, texts) == FirstMatch(lib, m, texts[i..])
      {
        transform := MatchesPayload(lib, m, texts[i]);
        if transform.Some? {
          return;
        }
        assert texts[i..][1..] == texts[i + 1..];
        i := i + 1;
      }
      transform := None;
    }

    method IsVerifiedBodyEgress(id: string, items: seq<Item>, m: Marker) returns (ok: bool)
      ensures ok <==> VerifiedBody(lib, m, items, id)
    {
      var i := 0;
      while i < |items|
        invariant 0 <= i <= |items|
        invariant VerifiedBody(lib, m, items, id) <==> VerifiedBody(lib, m, items[i..], id)
      {
        assert items[i..][1..] == items[i + 1..];
        if items[i].id == id {
          if items[i].trust != Instrumented {
            return false;
          }
          if BodyCarries(lib, m, items[i]) {
            return true;
          }
        }
        i := i + 1;
      }
      ok := false;
    }

    /** The steps of one marker, and the distinct evidence ids along them. */
    method Trace(target: string, m: Marker, items: seq<Item>) returns (steps: seq<Step>, chain: seq<string>)
      ensures steps == StepsOf(lib, target, m, items) && chain == ChainOf(steps)
    {
      hide FirstMatch, FieldsToCheck, PhaseOf, Attributed, ApiOf, TextOf, Transformations, Lower;
      steps, chain := [], [];
      var i := 0;
      while i < |items|
        invariant 0 <= i <= |items|
        invariant steps == StepsOf(lib, target, m, items[..i]) && chain == ChainOf(steps)
      {
        assert items[..i + 1][..i] == items[..i];
        var e := items[i];
        if e.id != "" && (target == "" || Attributed(lib, e, target)) {
          var transform := FindMarkerMatch(e, m);
          if transform.Some? {
            var step := StepOf(lib, target, m, e, |steps| + 1).value;
            assert (steps + [step])[..|steps|] == steps;
            steps := steps + [step];
            if e.id !in chain {
              chain := chain + [e.id];
            }
          }
        }
        i := i + 1;
      }
      assert items[..i] == items;
    }

    method Conclude(m: Marker, items: seq<Item>, steps: seq<Step>) returns (complete: bool, sink: Option<string>)
      ensures complete == Complete(lib, m, items, steps) && sink == LastEgress(steps)
    {
      var ingress, egress := false, false;
      sink := None;
      var i := 0;
      while i < |steps|
        invariant 0 <= i <= |steps|
        invariant ingress == HasPhase(steps[..i], Ingress)
        invariant egress == HasVerifiedEgress(lib, m, items, steps[..i])
        invariant sink == LastEgress(steps[..i])
      {
        assert steps[..i + 1][..i] == steps[..i] && steps[..i + 1][i] == steps[i];
        var verified := IsVerifiedBodyEgress(steps[i].evidenceId, items, m);
        PhasesGrow(lib, m, items, steps, i);
        if steps[i].phase == Ingress {
          ingress := true;
        } else if steps[i].phase == Egress {
          egress, sink := egress || verified, Some(steps[i].evidenceId);
        }
        i := i + 1;
      }
      assert steps[..i] == steps;
      complete := ingress && egress;
    }

    method Correlate(items: seq<Item>, markers: seq<Marker>, target: string) returns (r: Correlation)
      modifies this
      ensures r == Correlated(lib, target, markers, items, old(counter)) && counter == r.next
    {
      hide StepsOf, ChainOf, LastEgress, Complete;
      var lineages := [];
      var i := 0;
      while i < |markers|
        invariant 0 <= i <= |markers|
        invariant Correlated(lib, target, markers[..i], items, old(counter)) == Correlation(lineages, counter)
      {
        assert markers[..i + 1][..i] == markers[..i] && markers[..i + 1][i] == markers[i];
        var m := markers[i];
        var steps, chain := Trace(target, m, items);
        if steps != [] {
          var complete, sink := Conclude(m, items, steps);
          if counter > MAX_LINEAGE {
            ExhaustedStays(lib, target, markers, items, old(counter), i + 1);
            return NumbersExhausted(counter);
          }
          lineages := lineages
            + [PayloadLineage(counter, m, chain, steps, steps[0].evidenceId, sink, complete)];
          counter := counter + 1;
        }
        i := i + 1;
      }
      assert markers[..i] == markers;
      r := Correlation(lineages, counter);
    }
  }

  lemma PhasesGrow(lib: Library, m: Marker, items: seq<Item>, steps: seq<Step>, i: nat)
    requires i < |steps|
    ensures HasPhase(steps[..i + 1], Ingress) <==> HasPhase(steps[..i], Ingress) || steps[i].phase == Ingress
    ensures HasVerifiedEgress(lib, m, items, steps[..i + 1]) <==>
              HasVerifiedEgress(lib, m, items, steps[..i])
              || (steps[i].phase == Egress && VerifiedBody(lib, m, items, steps[i].evidenceId))
  {
    var a, b := steps[..i], steps[..i + 1];
    assert b[i] == steps[i];
    assert forall k | 0 <= k < i :: a[k] == b[k];
  }

  lemma {:induction false} ExhaustedStays(lib: Library, target: string, markers: seq<Marker>, items: seq<Item>,
                                          next: nat, i: nat)
    requires i <= |markers| && Correlated(lib, target, markers[..i], items, next).NumbersExhausted?
    ensures Correlated(lib, target, markers, items, next) == Correlated(lib, target, markers[..i], items, next)
    decreases |markers|
  {
    if i == |markers| {
      assert markers[..i] == markers;
    } else {
      var n := |markers| - 1;
      assert markers[..n][..i] == markers[..i];
      ExhaustedStays(lib, target, markers[..n], items, next, i);
    }
  }

  /* ---------- What a lineage reports ---------- */

  /** The chain lists the ids of the steps, each once, in order of first appearance. */
  lemma {:induction false} ChainSpec(steps: seq<Step>)
    ensures NoDuplicates(ChainOf(steps))
    ensures forall id :: id in ChainOf(steps) <==> exists i :: 0 <= i < |steps| && steps[i].evidenceId == id
    ensures steps != [] ==> ChainOf(steps) != [] && ChainOf(steps)[0] == steps[0].evidenceId
  {
    if steps != [] {
      var n := |steps| - 1;
      ChainSpec(steps[..n]);
      assert forall i | 0 <= i < n :: steps[..n][i] == steps[i];
      forall id ensures id in ChainOf(steps) <==> exists i :: 0 <= i < |steps| && steps[i].evidenceId == id {
        if i :| 0 <= i < |steps| && steps[i].evidenceId == id {
          assert i < n ==> steps[..n][i].evidenceId == id;
        }
      }
    }
  }

  /** The sink is the last step that leaves the app, if there is one. */
  lemma {:induction false} SinkSpec(steps: seq<Step>)
    ensures LastEgress(steps).None? <==> !HasPhase(steps, Egress)
    ensures LastEgress(steps).Some? ==>
              exists i :: 0 <= i < |steps| && steps[i].phase == Egress && Some(steps[i].evidenceId) == LastEgress(steps)
                          && !HasPhase(steps[i + 1..], Egress)
  {
    assert !HasPhase([], Egress);
    hide HasPhase;
    if steps != [] {
      var n := |steps| - 1;
      SinkSpec(steps[..n]);
      assert steps == steps[..n] + [steps[n]];
      PhaseOfAppend(steps[..n], steps[n], Egress);
      if steps[n].phase == Egress {
        assert steps[n + 1..] == [];
      } else if LastEgress(steps[..n]).Some? {
        var i :| 0 <= i < n && steps[..n][i].phase == Egress
                 && Some(steps[..n][i].evidenceId) == LastEgress(steps[..n]) && !HasPhase(steps[..n][i + 1..], Egress);
        assert steps[i] == steps[..n][i];
        assert steps[i + 1..] == steps[..n][i + 1..] + [steps[n]];
        PhaseOfAppend(steps[..n][i + 1..], steps[n], Egress);
      }
    }
  }

  lemma PhaseOfAppend(steps: seq<Step>, s: Step, phase: Phase)
    ensures HasPhase(steps + [s], phase) <==> HasPhase(steps, phase) || s.phase == phase
  {
    var all := steps + [s];
    assert all[|steps|] == s && forall i | 0 <= i < |steps| :: all[i] == steps[i];
  }

  lemma {:induction false} FirstInNames(transforms: seq<(string, string)>, text: string, default: string)
    requires FirstIn(transforms, text).Some?
    requires forall i, j | 0 <= i < j < |transforms| :: transforms[i].0 != transforms[j].0
    ensures Contains(text, TextOf(transforms, FirstIn(transforms, text).value, default))
  {
    if !Contains(text, transforms[0].1) {
      FirstInNames(transforms[1..], text, default);
      var name := FirstIn(transforms[1..], text).value;
      NameIsListed(transforms[1..], text);
    }
  }

  lemma {:induction false} NameIsListed(transforms: seq<(string, string)>, text: string)
    requires FirstIn(transforms, text).Some?
    ensures exists i :: 0 <= i < |transforms| && transforms[i].0 == FirstIn(transforms, text).value
  {
    if !Contains(text, transforms[0].1) {
      NameIsListed(transforms[1..], text);
      var i :| 0 <= i < |transforms[1..]| && transforms[1..][i].0 == FirstIn(transforms[1..], text).value;
      assert transforms[i + 1] == transforms[1..][i];
    }
  }

  lemma TransformNamesDiffer(lib: Library, m: Marker)
    ensures forall i, j | 0 <= i < j < |Transformations(lib, m)| ::
              Transformations(lib, m)[i].0 != Transformations(lib, m)[j].0
  {
    assert |"raw"| == 3 && |"utf8"| == 4 && |"base64"| == 6 && |"base64_url"| == 10;
    assert |"hex"| == 3 && |"hex_upper"| == 9 && |"url_encoded"| == 11 && "raw"[0] != "hex"[0];
  }

  lemma {:induction false} FirstMatchNames(lib: Library, m: Marker, texts: seq<string>)
    requires FirstMatch(lib, m, texts).Some?
    ensures exists i :: 0 <= i < |texts|
                        && Contains(texts[i], TextOf(Transformations(lib, m), FirstMatch(lib, m, texts).value, m.value))
  {
    hide Transformations;
    if MatchesPayload(lib, m, texts[0]).Some? {
      TransformNamesDiffer(lib, m);
      FirstInNames(Transformations(lib, m), texts[0], m.value);
    } else {
      FirstMatchNames(lib, m, texts[1..]);
      var name := TextOf(Transformations(lib, m), FirstMatch(lib, m, texts[1..]).value, m.value);
      var i :| 0 <= i < |texts[1..]| && Contains(texts[1..][i], name);
      assert texts[i + 1] == texts[1..][i];
    }
  }

  /** The matched value a step reports does occur in a text field of its item. */
  lemma MatchedTextOccurs(lib: Library, target: string, m: Marker, e: Item, index: nat)
    requires StepOf(lib, target, m, e, index).Some?
    ensures var s := StepOf(lib, target, m, e, index).value;
            exists i :: 0 <= i < |FieldsToCheck(e)| && Contains(FieldsToCheck(e)[i], s.matched)
  {
    hide FieldsToCheck, Transformations, FirstMatch, TextOf;
    FirstMatchNames(lib, m, FieldsToCheck(e));
  }

  /** Lineages are numbered without gaps, in the order of their markers. */
  lemma {:induction false} NumbersAreDense(lib: Library, target: string, markers: seq<Marker>, items: seq<Item>,
                                           next: nat)
    requires Correlated(lib, target, markers, items, next).Correlation?
    ensures var r := Correlated(lib, target, markers, items, next);
            && r.next == next + |r.lineages|
            && (forall i | 0 <= i < |r.lineages| :: r.lineages[i].number == next + i && r.lineages[i].marker in markers)
            && (forall m | m in markers && StepsOf(lib, target, m, items) != [] ::
                  exists i :: 0 <= i < |r.lineages| && r.lineages[i].marker == m)
  {
    hide StepsOf, ChainOf, LastEgress, Complete;
    if markers != [] {
      var n := |markers| - 1;
      NumbersAreDense(lib, target, markers[..n], items, next);
      var before := Correlated(lib, target, markers[..n], items, next).lineages;
      var after := Correlated(lib, target, markers, items, next).lineages;
      assert before <= after;
      assert markers == markers[..n] + [markers[n]];
      forall m | m in markers && StepsOf(lib, target, m, items) != []
        ensures exists i :: 0 <= i < |after| && after[i].marker == m
      {
        if m in markers[..n] {
          var i :| 0 <= i < |before| && before[i].marker == m;
          assert after[i] == before[i];
        } else {
          assert after[|before|].marker == m;
        }
      }
    }
  }

  /* ---------- What completeness means ---------- */

  /** The item is attributed to the target and carries the marker in a text field. */
  ghost predicate Relevant(lib: Library, target: string, m: Marker, e: Item) {
    e.id != "" && (target == "" || Attributed(lib, e, target)) && CarriesSomewhere(lib, m, e)
  }

  ghost predicate CarriesSomewhere(lib: Library, m: Marker, e: Item) {
    exists i :: 0 <= i < |FieldsToCheck(e)| && Carries(lib, m, FieldsToCheck(e)[i])
  }

  predicate IsIngress(lib: Library, e: Item) {
    AnyIn(INGRESS_INDICATORS, ApiOf(lib, e), Lower(e.kind))
  }

  predicate IsEgress(lib: Library, e: Item) {
    !IsIngress(lib, e) && AnyIn(EGRESS_INDICATORS, ApiOf(lib, e), Lower(e.kind))
  }

  ghost predicate MarkerIngress(lib: Library, target: string, m: Marker, e: Item) {
    Relevant(lib, target, m, e) && IsIngress(lib, e)
  }

  /** An outbound item from trusted instrumentation whose body carries the marker. */
  ghost predicate BodyEgress(lib: Library, target: string, m: Marker, e: Item) {
    Relevant(lib, target, m, e) && IsEgress(lib, e) && e.trust == Instrumented && BodyCarries(lib, m, e)
  }

  lemma {:induction false} FirstMatchFinds(lib: Library, m: Marker, texts: seq<string>)
    ensures FirstMatch(lib, m, texts).Some? <==> exists i :: 0 <= i < |texts| && Carries(lib, m, texts[i])
  {
    if texts != [] {
      MatchIsCarrying(lib, m, texts[0]);
      FirstMatchFinds(lib, m, texts[1..]);
      if i :| 0 <= i < |texts| && Carries(lib, m, texts[i]) {
        assert i > 0 ==> texts[1..][i - 1] == texts[i];
      }
      if i :| 0 <= i < |texts[1..]| && Carries(lib, m, texts[1..][i]) {
        assert texts[i + 1] == texts[1..][i];
      }
    }
  }

  lemma StepIffRelevant(lib: Library, target: string, m: Marker, e: Item, index: nat)
    ensures StepOf(lib, target, m, e, index).Some? <==> Relevant(lib, target, m, e)
    ensures var s := StepOf(lib, target, m, e, index);
            s.Some? ==> s.value.evidenceId == e.id
                        && (s.value.phase == Ingress <==> IsIngress(lib, e))
                        && (s.value.phase == Egress <==> IsEgress(lib, e))
  {
    FirstMatchFinds(lib, m, FieldsToCheck(e));
  }

  ghost predicate StepComesFrom(lib: Library, target: string, m: Marker, items: seq<Item>, s: Step, k: nat) {
    k < |items| && Relevant(lib, target, m, items[k]) && s.evidenceId == items[k].id
    && (s.phase == Ingress <==> IsIngress(lib, items[k])) && (s.phase == Egress <==> IsEgress(lib, items[k]))
  }

  ghost predicate HasSource(lib: Library, target: string, m: Marker, items: seq<Item>, s: Step) {
    exists k: nat :: StepComesFrom(lib, target, m, items, s, k)
  }

  ghost predicate HasStep(lib: Library, target: string, m: Marker, items: seq<Item>, steps: seq<Step>, k: nat) {
    exists i: nat :: i < |steps| && StepComesFrom(lib, target, m, items, steps[i], k)
  }

  /** Every step comes from a relevant item. */
  lemma {:induction false} StepsHaveSources(lib: Library, target: string, m: Marker, items: seq<Item>, i: nat)
    requires i < |StepsOf(lib, target, m, items)|
    ensures HasSource(lib, target, m, items, StepsOf(lib, target, m, items)[i])
  {
    hide Relevant, IsIngress, IsEgress, StepOf;
    var n := |items| - 1;
    var before := StepsOf(lib, target, m, items[..n]);
    StepIffRelevant(lib, target, m, items[n], |before| + 1);
    var s := StepsOf(lib, target, m, items)[i];
    if i < |before| {
      StepsHaveSources(lib, target, m, items[..n], i);
      var k: nat :| StepComesFrom(lib, target, m, items[..n], s, k);
      assert StepComesFrom(lib, target, m, items, s, k);
    } else {
      assert StepComesFrom(lib, target, m, items, s, n);
    }
  }

  /** Every relevant item has a step. */
  lemma {:induction false} RelevantItemsHaveSteps(lib: Library, target: string, m: Marker, items: seq<Item>, k: nat)
    requires k < |items| && Relevant(lib, target, m, items[k])
    ensures HasStep(lib, target, m, items, StepsOf(lib, target, m, items), k)
  {
    hide Relevant, IsIngress, IsEgress, StepOf;
    var n := |items| - 1;
    var before, steps := StepsOf(lib, target, m, items[..n]), StepsOf(lib, target, m, items);
    StepIffRelevant(lib, target, m, items[n], |before| + 1);
    if k < n {
      RelevantItemsHaveSteps(lib, target, m, items[..n], k);
      var i: nat :| i < |before| && StepComesFrom(lib, target, m, items[..n], before[i], k);
      assert steps[i] == before[i];
      assert StepComesFrom(lib, target, m, items, steps[i], k);
    } else {
      assert StepComesFrom(lib, target, m, items, steps[|before|], k);
    }
  }

  /** A verified id names an instrumented item whose body carries the marker. */
  lemma {:induction false} VerifiedBodyNames(lib: Library, m: Marker, items: seq<Item>, id: string)
    requires VerifiedBody(lib, m, items, id)
    ensures exists k: nat :: k < |items| && items[k].id == id && items[k].trust == Instrumented
              && BodyCarries(lib, m, items[k])
  {
    if !(items[0].id == id && BodyCarries(lib, m, items[0])) {
      VerifiedBodyNames(lib, m, items[1..], id);
      var k: nat :| k < |items[1..]| && items[1..][k].id == id && items[1..][k].trust == Instrumented
                    && BodyCarries(lib, m, items[1..][k]);
      assert items[k + 1] == items[1..][k];
    }
  }

  lemma {:induction false} OnlyItemDecides(lib: Library, m: Marker, items: seq<Item>, k: nat)
    requires UniqueIds(items) && k < |items| && items[k].trust == Instrumented && BodyCarries(lib, m, items[k])
    ensures VerifiedBody(lib, m, items, items[k].id)
  {
    if k > 0 {
      assert items[1..][k - 1] == items[k];
      OnlyItemDecides(lib, m, items[1..], k - 1);
    }
  }

  ghost predicate MarkerEnters(lib: Library, target: string, m: Marker, items: seq<Item>) {
    exists a: nat :: a < |items| && MarkerIngress(lib, target, m, items[a])
  }

  ghost predicate MarkerLeaves(lib: Library, target: string, m: Marker, items: seq<Item>) {
    exists b: nat :: b < |items| && BodyEgress(lib, target, m, items[b])
  }

  lemma IngressStepIff(lib: Library, target: string, m: Marker, items: seq<Item>)
    ensures HasPhase(StepsOf(lib, target, m, items), Ingress) <==> MarkerEnters(lib, target, m, items)
  {
    hide Relevant, IsIngress, IsEgress, StepsOf;
    var steps := StepsOf(lib, target, m, items);
    if i: nat :| i < |steps| && steps[i].phase == Ingress {
      StepsHaveSources(lib, target, m, items, i);
      var k: nat :| StepComesFrom(lib, target, m, items, steps[i], k);
      assert MarkerIngress(lib, target, m, items[k]);
    }
    if a: nat :| a < |items| && MarkerIngress(lib, target, m, items[a]) {
      RelevantItemsHaveSteps(lib, target, m, items, a);
      var i: nat :| i < |steps| && StepComesFrom(lib, target, m, items, steps[i], a);
      assert steps[i].phase == Ingress;
    }
  }

  lemma EgressStepIff(lib: Library, target: string, m: Marker, items: seq<Item>)
    requires UniqueIds(items)
    ensures HasVerifiedEgress(lib, m, items, StepsOf(lib, target, m, items)) <==> MarkerLeaves(lib, target, m, items)
  {
    hide Relevant, IsIngress, IsEgress, StepsOf, BodyCarries, VerifiedBody;
    var steps := StepsOf(lib, target, m, items);
    if i: nat :| i < |steps| && steps[i].phase == Egress && VerifiedBody(lib, m, items, steps[i].evidenceId) {
      StepsHaveSources(lib, target, m, items, i);
      var k: nat :| StepComesFrom(lib, target, m, items, steps[i], k);
      VerifiedBodyNames(lib, m, items, steps[i].evidenceId);
      assert BodyEgress(lib, target, m, items[k]);
    }
    if b: nat :| b < |items| && BodyEgress(lib, target, m, items[b]) {
      RelevantItemsHaveSteps(lib, target, m, items, b);
      var i: nat :| i < |steps| && StepComesFrom(lib, target, m, items, steps[i], b);
      OnlyItemDecides(lib, m, items, b);
      assert steps[i].phase == Egress;
    }
  }

  /**
   With unique evidence ids, as the builder gives, a lineage is complete exactly
   when some attributed item brings the marker in and some attributed,
   instrumented item carries it out in a body field. Order and timing play no
   part, and neither do descriptions, URLs or log lines.
   */
  lemma CompleteIff(lib: Library, target: string, m: Marker, items: seq<Item>)
    requires UniqueIds(items)
    ensures Complete(lib, m, items, StepsOf(lib, target, m, items)) <==>
              MarkerEnters(lib, target, m, items) && MarkerLeaves(lib, target, m, items)
  {
    IngressStepIff(lib, target, m, items);
    EgressStepIff(lib, target, m, items);
  }

  /** Even with colliding ids: without an instrumented item whose body carries the marker nothing is complete. */
  lemma OnlyBodiesProveExfiltration(lib: Library, target: string, m: Marker, items: seq<Item>)
    requires forall k: nat | k < |items| :: items[k].trust != Instrumented || !BodyCarries(lib, m, items[k])
    ensures !Complete(lib, m, items, StepsOf(lib, target, m, items))
  {
    var steps := StepsOf(lib, target, m, items);
    if i :| 0 <= i < |steps| && steps[i].phase == Egress && VerifiedBody(lib, m, items, steps[i].evidenceId) {
      VerifiedBodyNames(lib, m, items, steps[i].evidenceId);
    }
  }

  /** Completeness only depends on which items there are. */
  lemma CompletenessIgnoresOrder(lib: Library, target: string, m: Marker, items: seq<Item>, items': seq<Item>)
    requires UniqueIds(items) && UniqueIds(items') && multiset(items) == multiset(items')
    ensures Complete(lib, m, items, StepsOf(lib, target, m, items))
       <==> Complete(lib, m, items', StepsOf(lib, target, m, items'))
  {
    hide MarkerIngress, BodyEgress, Complete;
    CompleteIff(lib, target, m, items);
    CompleteIff(lib, target, m, items');
    SameMembers(items, items');
    SameMembers(items', items);
  }

  lemma SameMembers(items: seq<Item>, items': seq<Item>)
    requires multiset(items) == multiset(items')
    ensures forall k: nat | k < |items| :: exists j: nat :: j < |items'| && items'[j] == items[k]
  {
    forall k: nat | k < |items| ensures exists j: nat :: j < |items'| && items'[j] == items[k] {
      assert items[k] in multiset(items);
      assert items[k] in items';
    }
  }

  /** More evidence under fresh ids never makes a lineage incomplete. */
  lemma CompletenessIsStable(lib: Library, target: string, m: Marker, items: seq<Item>, more: seq<Item>)
    requires UniqueIds(items + more)
    requires Complete(lib, m, items, StepsOf(lib, target, m, items))
    ensures Complete(lib, m, items + more, StepsOf(lib, target, m, items + more))
  {
    assert UniqueIds(items) by {
      forall i, j | 0 <= i < j < |items| ensures items[i].id != items[j].id {
        assert (items + more)[i] == items[i] && (items + more)[j] == items[j];
      }
    }
    hide MarkerIngress, BodyEgress, Complete;
    CompleteIff(lib, target, m, items);
    CompleteIff(lib, target, m, items + more);
    var a: nat :| a < |items| && MarkerIngress(lib, target, m, items[a]);
    var b: nat :| b < |items| && BodyEgress(lib, target, m, items[b]);
    assert (items + more)[a] == items[a] && (items + more)[b] == items[b];
  }

  /**
   Attribution is enforced exactly when a target package is given: an item of a
   foreign process is traced if and only if the target is the empty text.
   */
  lemma EmptyTargetTracesForeignItems(lib: Library, target: string, m: Marker, e: Item, index: nat)
    requires e.id != "" && CarriesSomewhere(lib, m, e) && !Attributed(lib, e, target)
    ensures StepOf(lib, target, m, e, index).Some? <==> target == ""
  {
    StepIffRelevant(lib, target, m, e, index);
  }
}
