/**
 What the lineage looks at: encodings of a marker, attribution, text fields,
 entering, leaving and the steps it reports, said without its lists and loops.
 */
module LineageMeaning {
  import opened Common
  import opened Evidence
  import opened Collectors
  import opened Lineage

  /* ---------- Encodings ---------- */

  /** The text is not empty and contains the marker as it is, or in one of five encodings. */
  lemma CarriesIff(lib: Library, m: Marker, text: string)
    ensures Carries(lib, m, text) <==>
              text != "" && (
                || Contains(text, m.value)
                || Contains(text, lib.base64(m.value)) || Contains(text, WithoutPadding(lib.base64(m.value)))
                || Contains(text, lib.hex(m.value)) || Contains(text, Upper(lib.hex(m.value)))
                || Contains(text, lib.quote(m.value)))
  {
    hide Contains, Upper, WithoutPadding;
    var t := Transformations(lib, m);
    assert |t| == 7 && t[0].1 == t[1].1 == m.value && t[2].1 == lib.base64(m.value);
    assert t[3].1 == WithoutPadding(lib.base64(m.value)) && t[4].1 == lib.hex(m.value);
    assert t[5].1 == Upper(lib.hex(m.value)) && t[6].1 == lib.quote(m.value);
  }

  /** Without padding means without the equality signs at the end, and nothing else. */
  lemma {:induction false} PaddingIsDropped(text: string)
    ensures WithoutPadding(text) <= text
    ensures forall i | |WithoutPadding(text)| <= i < |text| :: text[i] == '='
    ensures WithoutPadding(text) != "" ==> WithoutPadding(text)[|WithoutPadding(text)| - 1] != '='
  {
    if text != "" && text[|text| - 1] == '=' {
      PaddingIsDropped(text[..|text| - 1]);
    }
  }

  /** Lower and upper case move exactly the 26 letters of the other case. */
  lemma CaseIs(c: char)
    ensures LowerChar(c) as int == c as int + (if 65 <= c as int <= 90 then 32 else 0)
    ensures UpperChar(c) as int == c as int - (if 97 <= c as int <= 122 then 32 else 0)
  {
  }

  /* ---------- Attribution ---------- */

  /** `str(value or "")`: nothing for a false value, a text as it is, anything else as it prints. */
  lemma ShownMeans(lib: Library, v: Value)
    ensures Shown(lib, None) == ""
    ensures !Truthy(v) ==> Shown(lib, Some(v)) == ""
    ensures Truthy(v) && v.Text? ==> Shown(lib, Some(v)) == v.text
    ensures Truthy(v) && v.Flag? ==> Shown(lib, Some(v)) == "True"
    ensures Truthy(v) && !v.Text? && !v.Flag? ==> Shown(lib, Some(v)) == lib.show(v)
  {
  }

  predicate Of(name: string, target: string) {
    name == target || target + ":" <= name
  }

  /** The process and the declared package that are given, at least one, are all of the target. */
  lemma AttributedIff(lib: Library, e: Item, target: string)
    ensures var declared := Shown(lib, Lookup(e.metadata, "target_package"));
            Attributed(lib, e, target) <==>
              if e.process == "" then declared != "" && Of(declared, target)
              else Of(e.process, target) && (declared == "" || Of(declared, target))
  {
  }

  /* ---------- Text fields ---------- */

  /** A text at the top of the metadata, or in a dictionary there. */
  ghost predicate TextIn(entries: seq<Entry>, t: string) {
    exists x :: x in entries
      && (x.value == Text(t) || (x.value.Table? && exists y :: y in x.value.entries && y.value == Text(t)))
  }

  lemma {:induction false} TableTextsAre(entries: seq<Entry>, t: string)
    ensures t in TableTexts(entries) <==> t != "" && exists y :: y in entries && y.value == Text(t)
  {
    if entries != [] {
      TableTextsAre(entries[1..], t);
      assert forall y :: y in entries <==> y == entries[0] || y in entries[1..];
    }
  }

  lemma EntryTextsAre(v: Value, t: string)
    ensures t in EntryTexts(v) <==>
              t != "" && (v == Text(t) || (v.Table? && exists y :: y in v.entries && y.value == Text(t)))
  {
    if v.Table? {
      TableTextsAre(v.entries, t);
    }
  }

  lemma {:induction false} MetadataTextsAre(entries: seq<Entry>, t: string)
    ensures t in MetadataTexts(entries) <==> t != "" && TextIn(entries, t)
  {
    if entries != [] {
      MetadataTextsAre(entries[1..], t);
      EntryTextsAre(entries[0].value, t);
      assert forall x :: x in entries <==> x == entries[0] || x in entries[1..];
    }
  }

  /** An item carries the marker in its description or in a text of its metadata. */
  lemma CarriesSomewhereIff(lib: Library, m: Marker, e: Item)
    ensures CarriesSomewhere(lib, m, e) <==>
              Carries(lib, m, e.description) || exists t :: TextIn(e.metadata, t) && Carries(lib, m, t)
  {
    hide Transformations, TextIn;
    var fields := FieldsToCheck(e);
    if i :| 0 <= i < |fields| && Carries(lib, m, fields[i]) {
      assert fields[i] in fields;
      MetadataTextsAre(e.metadata, fields[i]);
    }
    if Carries(lib, m, e.description) {
      assert fields[0] == e.description;
    }
    if t :| TextIn(e.metadata, t) && Carries(lib, m, t) {
      MetadataTextsAre(e.metadata, t);
      assert t in fields;
      var i :| 0 <= i < |fields| && fields[i] == t;
    }
  }

  ghost predicate CarriesUnder(lib: Library, m: Marker, e: Item, key: string) {
    var v := Lookup(e.metadata, key);
    v.Some? && ((v.value.Text? && Carries(lib, m, v.value.text))
                || (v.value.Bytes? && Carries(lib, m, v.value.decoded)))
  }

  /** The body fields are five, as text or as bytes. */
  lemma BodyCarriesIff(lib: Library, m: Marker, e: Item)
    ensures BodyCarries(lib, m, e) <==>
              || CarriesUnder(lib, m, e, "body") || CarriesUnder(lib, m, e, "body_preview_redacted")
              || CarriesUnder(lib, m, e, "payload") || CarriesUnder(lib, m, e, "request_body")
              || CarriesUnder(lib, m, e, "body_bytes_decoded")
  {
    hide MatchesPayload, Carries, Lookup;
    forall v: Option<Value>
      ensures BodyFieldCarries(lib, m, v) <==>
                v.Some? && ((v.value.Text? && Carries(lib, m, v.value.text))
                            || (v.value.Bytes? && Carries(lib, m, v.value.decoded)))
    {
      if v.Some? && v.value.Text? {
        MatchIsCarrying(lib, m, v.value.text);
      } else if v.Some? && v.value.Bytes? {
        MatchIsCarrying(lib, m, v.value.decoded);
      }
    }
    assert |BODY_FIELDS| == 5 && BODY_FIELDS[0] == "body" && BODY_FIELDS[1] == "body_preview_redacted";
    assert BODY_FIELDS[2] == "payload" && BODY_FIELDS[3] == "request_body" && BODY_FIELDS[4] == "body_bytes_decoded";
  }

  /* ---------- Entering and leaving ---------- */

  ghost predicate Reads(lib: Library, e: Item, part: string) {
    Contains(Lower(Shown(lib, Lookup(e.metadata, "api"))), part) || Contains(Lower(e.kind), part)
  }

  /** An item enters when its API name or its kind reads like one of six sources. */
  lemma IsIngressIff(lib: Library, e: Item)
    ensures IsIngress(lib, e) <==>
              || Reads(lib, e, "createfrompdu") || Reads(lib, e, "onreceive") || Reads(lib, e, "onnotificationposted")
              || Reads(lib, e, "gettext") || Reads(lib, e, "synthetic_sms_delivered") || Reads(lib, e, "sms_access")
  {
    hide Contains, Lower, Shown, Lookup;
    var parts := INGRESS_INDICATORS;
    assert |parts| == 6 && parts[0] == "createfrompdu" && parts[1] == "onreceive";
    assert parts[2] == "onnotificationposted" && parts[3] == "gettext";
    assert parts[4] == "synthetic_sms_delivered" && parts[5] == "sms_access";
    assert forall i | 0 <= i < 6 :: (Contains(ApiOf(lib, e), parts[i]) || Contains(Lower(e.kind), parts[i])) ==
                                    Reads(lib, e, parts[i]);
  }

  /** It leaves when it does not enter and reads like one of eight sinks. */
  lemma IsEgressIff(lib: Library, e: Item)
    ensures IsEgress(lib, e) <==>
              !IsIngress(lib, e) && (
                || Reads(lib, e, "sendtextmessage") || Reads(lib, e, "sendmultiparttextmessage")
                || Reads(lib, e, "newcall") || Reads(lib, e, "openconnection") || Reads(lib, e, "connect")
                || Reads(lib, e, "http_request_observed") || Reads(lib, e, "socket_connect_observed")
                || Reads(lib, e, "network_destination"))
  {
    hide Contains, Lower, Shown, Lookup, IsIngress;
    var parts := EGRESS_INDICATORS;
    assert |parts| == 8 && parts[0] == "sendtextmessage" && parts[1] == "sendmultiparttextmessage";
    assert parts[2] == "newcall" && parts[3] == "openconnection" && parts[4] == "connect";
    assert parts[5] == "http_request_observed" && parts[6] == "socket_connect_observed";
    assert parts[7] == "network_destination";
    assert forall i | 0 <= i < 8 :: (Contains(ApiOf(lib, e), parts[i]) || Contains(Lower(e.kind), parts[i])) ==
                                    Reads(lib, e, parts[i]);
    EgressPart(lib, e);
  }

  lemma EgressPart(lib: Library, e: Item)
    ensures IsEgress(lib, e) <==> !IsIngress(lib, e) && AnyIn(EGRESS_INDICATORS, ApiOf(lib, e), Lower(e.kind))
  {
  }

  /* ---------- Steps ---------- */

  /** The step is that of the item: its id, its description, its API name or else its kind, and its phase. */
  ghost predicate Reports(lib: Library, m: Marker, e: Item, s: Step) {
    var api := Lower(Shown(lib, Lookup(e.metadata, "api")));
    && s.evidenceId == e.id && s.description == e.description
    && s.api == (if api != "" then api else Lower(e.kind))
    && (s.phase == Ingress <==> IsIngress(lib, e)) && (s.phase == Egress <==> IsEgress(lib, e))
    && (s.phase == Transformation <==>
          !IsIngress(lib, e) && !IsEgress(lib, e)
          && (s.transform == "base64" || s.transform == "hex" || s.transform == "url_encoded"
              || Contains(Lower(e.description), "transform")))
  }

  lemma StepReports(lib: Library, target: string, m: Marker, e: Item, index: nat)
    requires StepOf(lib, target, m, e, index).Some?
    ensures Reports(lib, m, e, StepOf(lib, target, m, e, index).value)
    ensures StepOf(lib, target, m, e, index).value.index == index
  {
    hide AnyIn, Contains, Lower, FirstMatch, Transformations, FieldsToCheck, Attributed, TextOf;
    assert IsIngress(lib, e) <==> AnyIn(INGRESS_INDICATORS, ApiOf(lib, e), Lower(e.kind));
  }

  /** A lineage starts at the first traced item, ends at its last leaving step, and is complete as its steps are. */
  lemma LineageIs(lib: Library, target: string, m: Marker, items: seq<Item>, number: nat)
    ensures var l, traced := LineageOf(lib, target, m, items, number), Traced(lib, target, m, items);
            && (l.None? <==> traced == [])
            && (l.Some? ==>
                  && l.value.number == number && l.value.marker == m && l.value.steps == StepsOf(lib, target, m, items)
                  && l.value.source == traced[0].id && l.value.chain != [] && l.value.chain[0] == l.value.source
                  && (l.value.sink.Some? <==> exists i :: 0 <= i < |traced| && IsEgress(lib, traced[i]))
                  && (l.value.complete <==> Complete(lib, m, items, l.value.steps)))
  {
    hide StepsOf, ChainOf, LastEgress, Complete, IsEgress, IsIngress, Traced, Contains, Lower;
    var steps, traced := StepsOf(lib, target, m, items), Traced(lib, target, m, items);
    StepsAreTheTracedItems(lib, target, m, items);
    ChainSpec(steps);
    SinkSpec(steps);
    if steps != [] {
      assert Reports(lib, m, traced[0], steps[0]);
      assert forall i | 0 <= i < |steps| :: Reports(lib, m, traced[i], steps[i]);
    }
  }

  /** The markers that are traced anywhere, in order. */
  function SeenMarkers(lib: Library, target: string, markers: seq<Marker>, items: seq<Item>): seq<Marker> {
    if markers == [] then []
    else
      var n := |markers| - 1;
      SeenMarkers(lib, target, markers[..n], items)
      + if StepsOf(lib, target, markers[n], items) != [] then [markers[n]] else []
  }

  /** One lineage per traced marker, in the order of the markers, under consecutive numbers. */
  lemma {:induction false} LineagesAre(lib: Library, target: string, markers: seq<Marker>, items: seq<Item>, next: nat)
    requires Correlated(lib, target, markers, items, next).Correlation?
    ensures var r := Correlated(lib, target, markers, items, next).lineages;
            var seen := SeenMarkers(lib, target, markers, items);
            |r| == |seen| && Correlated(lib, target, markers, items, next).next == next + |r|
            && forall i | 0 <= i < |r| :: Some(r[i]) == LineageOf(lib, target, seen[i], items, next + i)
  {
    hide StepsOf, ChainOf, LastEgress, Complete;
    if markers != [] {
      LineagesAre(lib, target, markers[..|markers| - 1], items, next);
    }
  }

  /** The items that have a step, in order. */
  ghost function Traced(lib: Library, target: string, m: Marker, items: seq<Item>): seq<Item> {
    if items == [] then []
    else
      var n := |items| - 1;
      Traced(lib, target, m, items[..n]) + if Relevant(lib, target, m, items[n]) then [items[n]] else []
  }

  /** One step per relevant item, in the order of the items, numbered from one. */
  lemma {:induction false} StepsAreTheTracedItems(lib: Library, target: string, m: Marker, items: seq<Item>)
    ensures var steps, traced := StepsOf(lib, target, m, items), Traced(lib, target, m, items);
            |steps| == |traced|
            && forall i | 0 <= i < |steps| :: steps[i].index == i + 1 && Reports(lib, m, traced[i], steps[i])
  {
    hide StepOf, Relevant, Reports;
    if items != [] {
      var n := |items| - 1;
      var before := StepsOf(lib, target, m, items[..n]);
      StepsAreTheTracedItems(lib, target, m, items[..n]);
      StepIffRelevant(lib, target, m, items[n], |before| + 1);
      if StepOf(lib, target, m, items[n], |before| + 1).Some? {
        StepReports(lib, target, m, items[n], |before| + 1);
      }
    }
  }
}
