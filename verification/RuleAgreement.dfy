/**
 Where verification and scoring part: a confirmed exfiltration need not fire
 the runtime exfiltration rule, which looks at confident network records only.
 */
module RuleAgreement {
  import opened Common
  import opened Evidence
  import opened Collectors
  import opened Lineage
  import opened Verifier
  import opened EndToEnd
  import opened DeviceEgress
  import opened Scoring

  lemma RecordIsScored(number: nat, package: string, otp: Marker)
    requires number < 10_000
    ensures var r := CorrelationRecord(number, package, otp);
            IsMarker(r) && ScoredClaim(r) && !ConfidentNetwork(r)
  {
    assert MARKER_CORRELATION[0] == 's' && NETWORK[0] == 'n' && DNS[0] == 'd';
  }

  /**
   On the evidence of the pipeline a confirmed exfiltration fires
   RUNTIME-EXFIL-001 if and only if some collected network record has a
   confidence of at least 0.7; the marker and the claim are always there.
   */
  lemma ConfirmedExfiltrationFiresIff(lib: Library, package: string, markers: seq<Marker>, otp: Marker,
                                      items: seq<Item>, f: Findings, mentionsDumpsys: Item -> bool)
    requires Collected(items) && |markers| <= MAX_LINEAGE
    requires f.runtime == PipelineEvidence(lib, package, markers, otp, items)
    requires Confirming(DataExfiltration, f, mentionsDumpsys)
    ensures Fires(ExfilRule, f.runtime) <==> exists n :: n in items && ConfidentNetwork(n)
  {
    hide PipelineEvidence, Exfiltrated, Confirming, CorrelationRecord;
    RecordedIffExfiltrated(lib, package, markers, otp, items);
    ExfiltrationConfirmedExactly(lib, package, markers, otp, items, f, mentionsDumpsys);
    var record := CorrelationRecord(|items| + 1, package, otp);
    RecordIsScored(|items| + 1, package, otp);
    assert record in f.runtime;
    AnyHas(f.runtime, record, IsMarker);
    AnyHas(f.runtime, record, ScoredClaim);
    if n :| n in items && ConfidentNetwork(n) {
      assert n in f.runtime;
      AnyHas(f.runtime, n, ConfidentNetwork);
    }
    if Any(f.runtime, ConfidentNetwork) {
      var i :| 0 <= i < |f.runtime| && ConfidentNetwork(f.runtime[i]);
      assert f.runtime[i] in items;
    }
  }

  /* ---------- Over the collectors ---------- */

  /** Where a network record may come from: logcat, or an event of the device. */
  ghost predicate Gathered(lib: Library, package: string, e: Item) {
    IsNetworkKind(e.kind) ==> FromLog(package, e) || exists ev :: RecordedFrom(lib, package, ev, e)
  }

  /** The collectors promise nothing else. */
  lemma CollectorsGather(lib: Library, package: string, events: seq<Event>, e: Item)
    ensures SmsEvidence(package, e) || FromLog(package, e) || HasEvent(lib, package, events, e) ==>
              Gathered(lib, package, e)
  {
    hide EventKey, ClaimsNothing;
    assert SMS_DELIVERED[0] == 's' && NETWORK[0] == 'n' && DNS[0] == 'd';
    if HasEvent(lib, package, events, e) {
      var j :| 0 <= j < |events| && MadeOf(lib, package, events, j, e);
      assert RecordedFrom(lib, package, events[j], e);
    }
  }

  /** A network record is confident exactly when the device reported it. */
  lemma ConfidentIffReported(lib: Library, package: string, e: Item)
    requires Gathered(lib, package, e)
    ensures ConfidentNetwork(e) <==> e.kind == NETWORK && exists ev :: RecordedFrom(lib, package, ev, e)
  {
    hide CanonicalKind, EventMetadata, EventDescription, ClaimsNothing;
    if IsNetworkKind(e.kind) && FromLog(package, e) {
      assert e.confidence == 0.60 && e.trust == LogObserved;
    }
    if ev :| RecordedFrom(lib, package, ev, e) {
      DeviceCannotForgeKinds(ev.observer, ev.eventType);
    }
  }

  ghost predicate DeviceSawNetwork(lib: Library, package: string, items: seq<Item>) {
    exists n :: n in items && n.kind == NETWORK && exists ev :: RecordedFrom(lib, package, ev, n)
  }

  /** So a confirmed exfiltration fires the rule if and only if the device reported some network event. */
  lemma FiresIffDeviceSawNetwork(lib: Library, package: string, markers: seq<Marker>, otp: Marker,
                                 items: seq<Item>, f: Findings, mentionsDumpsys: Item -> bool)
    requires Collected(items) && |markers| <= MAX_LINEAGE
    requires f.runtime == PipelineEvidence(lib, package, markers, otp, items)
    requires Confirming(DataExfiltration, f, mentionsDumpsys)
    requires forall i | 0 <= i < |items| :: Gathered(lib, package, items[i])
    ensures Fires(ExfilRule, f.runtime) <==> DeviceSawNetwork(lib, package, items)
  {
    hide PipelineEvidence, Confirming, Fires, RecordedFrom, Gathered, ConfidentNetwork;
    ConfirmedExfiltrationFiresIff(lib, package, markers, otp, items, f, mentionsDumpsys);
    forall n | n in items
      ensures ConfidentNetwork(n) <==> n.kind == NETWORK && exists ev :: RecordedFrom(lib, package, ev, n)
    {
      ConfidentIffReported(lib, package, n);
    }
  }

  /* ---------- With the shipped observers it always fires ---------- */

  /** No body field at all, as in every record that is not made from a device event. */
  predicate HasNoBody(e: Item) {
    forall i | 0 <= i < |BODY_FIELDS| :: Lookup(e.metadata, BODY_FIELDS[i]).None?
  }

  /** Of the shipped observers only the network observer reports a body preview. */
  ghost predicate ShippedSource(lib: Library, package: string, e: Item) {
    HasNoBody(e)
    || exists ev :: RecordedFrom(lib, package, ev, e)
                    && (Lookup(ev.metadata, BODY_PREVIEW).Some? ==> CanonicalKind(ev.observer, ev.eventType) == NETWORK)
  }

  lemma BaseHasNoBody(ev: Event, i: nat)
    requires i < |BODY_FIELDS|
    ensures Lookup(BaseMetadata(ev), BODY_FIELDS[i]).None?
    ensures BODY_FIELDS[i] in COPIED_KEYS ==> BODY_FIELDS[i] in {BODY_PREVIEW, "payload"}
  {
    var base := BaseMetadata(ev);
    assert |"schema"| == 6 && |"observer"| == 8 && |"event_type"| == 10 && |"api"| == 3 && |"target_package"| == 14;
    assert |"event_metadata"| == 14 && |"body"| == 4 && |"request_body"| == 12 && |"body_bytes_decoded"| == 18;
    CopiedKeyLengths();
    LookupAbsent(base, BODY_FIELDS[i]);
  }

  /** Without a preview in the event, normalisation creates no body field. */
  lemma NoPreviewNoBodyField(ev: Event, i: nat)
    requires Lookup(ev.metadata, BODY_PREVIEW).None? && i < |BODY_FIELDS|
    ensures ShortUniqueKeys(EventMetadata(ev)) && Lookup(EventMetadata(ev), BODY_FIELDS[i]).None?
  {
    hide Lookup, EventMetadata, BaseMetadata;
    BaseHasNoBody(ev, i);
    EventLookup(ev, BODY_FIELDS[i]);
  }

  lemma NoPreviewNoBody(lib: Library, package: string, ev: Event, e: Item)
    requires RecordedFrom(lib, package, ev, e) && Lookup(ev.metadata, BODY_PREVIEW).None?
    ensures HasNoBody(e)
  {
    hide EventMetadata, EventDescription, CompactMetadata;
    forall i | 0 <= i < |BODY_FIELDS| ensures Lookup(e.metadata, BODY_FIELDS[i]).None? {
      NoPreviewNoBodyField(ev, i);
      CompactLookup(lib, EventMetadata(ev), [], BODY_FIELDS[i]);
    }
  }

  lemma NoBodyCarriesNothing(lib: Library, m: Marker, e: Item)
    requires HasNoBody(e)
    ensures !BodyCarries(lib, m, e)
  {
  }

  /** If every instrumented record comes from a shipped source, every confirmed exfiltration fires the rule. */
  lemma ShippedObserversAgree(lib: Library, package: string, markers: seq<Marker>, otp: Marker,
                              items: seq<Item>, f: Findings, mentionsDumpsys: Item -> bool)
    requires Collected(items) && |markers| <= MAX_LINEAGE
    requires f.runtime == PipelineEvidence(lib, package, markers, otp, items)
    requires forall i | 0 <= i < |items| && items[i].trust == Instrumented :: ShippedSource(lib, package, items[i])
    ensures Confirming(DataExfiltration, f, mentionsDumpsys) ==> Fires(ExfilRule, f.runtime)
  {
    hide PipelineEvidence, Confirming, MarkerEnters, Relevant, IsEgress, BodyCarries, RecordedFrom, HasNoBody, Fires;
    if Confirming(DataExfiltration, f, mentionsDumpsys) {
      ExfiltrationConfirmedExactly(lib, package, markers, otp, items, f, mentionsDumpsys);
      var j :| 0 <= j < |markers| && MarkerEnters(lib, package, markers[j], items)
               && MarkerLeaves(lib, package, markers[j], items);
      var b: nat :| b < |items| && BodyEgress(lib, package, markers[j], items[b]);
      ShippedBodyIsConfident(lib, package, markers[j], items[b]);
      ConfirmedExfiltrationFiresIff(lib, package, markers, otp, items, f, mentionsDumpsys);
    }
  }

  lemma ShippedBodyIsConfident(lib: Library, package: string, m: Marker, e: Item)
    requires ShippedSource(lib, package, e) && BodyCarries(lib, m, e)
    ensures ConfidentNetwork(e)
  {
    hide BodyCarries, EventMetadata, EventDescription, CompactMetadata, HasNoBody;
    if HasNoBody(e) {
      NoBodyCarriesNothing(lib, m, e);
    } else {
      var ev :| RecordedFrom(lib, package, ev, e)
                && (Lookup(ev.metadata, BODY_PREVIEW).Some? ==> CanonicalKind(ev.observer, ev.eventType) == NETWORK);
      if Lookup(ev.metadata, BODY_PREVIEW).None? {
        NoPreviewNoBody(lib, package, ev, e);
      }
    }
  }

  /* ---------- Evidence on which it does not fire ---------- */

  /** A script executed in a web view, whose body preview is the marker. */
  function SilentEvent(package: string, m: Marker): Event {
    Event("webview", "WEBVIEW_JS_EXECUTED", 1, "connect", package, [Entry(BODY_PREVIEW, Text(m.value))])
  }

  /** The records of a delivery, of that event, and of a destination on a logcat line. */
  function Silent(lib: Library, package: string, m: Marker, destination: string): seq<Item> {
    [Item(RuntimeId(1), 0, SMS_DELIVERED, Instrumented, package, Clip(lib.squeeze(DELIVERED), 500), 1.0,
          CompactMetadata(lib, DeliveryMetadata(m.value), [])),
     Item(RuntimeId(2), 1, WEBVIEW, Instrumented, package,
          Clip(lib.squeeze(EventDescription(SilentEvent(package, m))), 500), 0.95,
          CompactMetadata(lib, EventMetadata(SilentEvent(package, m)), [])),
     Item(RuntimeId(3), 2, DestinationKind(destination), LogObserved, package, Clip(lib.squeeze(DESTINATION_SEEN), 500),
          0.60, CompactMetadata(lib, DestinationMetadata(lib, destination), []))]
  }

  /** Normalisation of white space leaves the texts of these records alone. */
  predicate KeepsTexts(lib: Library, package: string, m: Marker) {
    && Plain(lib, m) && PlainPackage(lib, package) && |package| <= 200
    && lib.squeeze("connect") == "connect"
    && lib.squeeze(DELIVERED) == DELIVERED && lib.squeeze(DESTINATION_SEEN) == DESTINATION_SEEN
    && lib.squeeze(EventDescription(SilentEvent(package, m))) == EventDescription(SilentEvent(package, m))
  }

  /** Each record is one that its collector makes and the evidence model accepts. */
  ghost predicate Genuine(lib: Library, package: string, m: Marker, destination: string, items: seq<Item>) {
    && Collected(items) && |items| == 3
    && Delivery(package, items[0]) && ItemKey(items[0]) == DeliveryKey(lib, m.value)
    && HostAccepts(SilentEvent(package, m)) && RecordedAt(lib, package, SilentEvent(package, m), items[1])
    && FromLog(package, items[2]) && ItemKey(items[2]) == DestinationKey(lib, destination)
    && forall i | 0 <= i < |items| :: FieldsFit(items[i].kind, items[i].process, items[i].description)
  }

  lemma NoOccurrence(text: string, part: string, i: nat)
    requires part != "" && (i + |part| <= |text| ==> text[i] != part[0])
    ensures !OccursAt(text, part, i)
  {
    if i + |part| <= |text| {
      assert text[i..i + |part|][0] == text[i];
    }
  }

  lemma NoFirstLetterNoPart(text: string, part: string)
    requires part != "" && part[0] !in text
    ensures !Contains(text, part)
  {
    forall i: nat | i <= |text| ensures !OccursAt(text, part, i) {
      NoOccurrence(text, part, i);
    }
  }

  lemma TooLongNoPart(text: string, part: string)
    requires |part| > |text|
    ensures !Contains(text, part)
  {
  }

  lemma WebViewHas(part: string)
    requires part == "createfrompdu"
    ensures !Contains(WEBVIEW, part)
  {
    assert |WEBVIEW| == 16 && |part| == 13 && part[0] == 'c';
    assert WEBVIEW[0] == 'w' && WEBVIEW[1] == 'e' && WEBVIEW[2] == 'b' && WEBVIEW[3] == 'v';
    forall i: nat | i <= 16 ensures !OccursAt(WEBVIEW, part, i) {
      NoOccurrence(WEBVIEW, part, i);
    }
  }

  lemma ConnectHas(part: string)
    requires |part| == 7 && part[0] == 'g'
    ensures !Contains("connect", part)
  {
    NoFirstLetterNoPart("connect", part);
  }

  /** Neither the API name nor the kind reads like an entry point. */
  lemma WebViewIsNoIngress()
    ensures !AnyIn(INGRESS_INDICATORS, "connect", WEBVIEW)
  {
    assert |"connect"| == 7;
    forall i | 0 <= i < |INGRESS_INDICATORS|
      ensures !Contains("connect", INGRESS_INDICATORS[i]) && !Contains(WEBVIEW, INGRESS_INDICATORS[i])
    {
      var part := INGRESS_INDICATORS[i];
      if i == 0 {
        WebViewHas(part);
        TooLongNoPart("connect", part);
      } else {
        assert part[0] in "ogs" && 'o' !in WEBVIEW && 'g' !in WEBVIEW && 's' !in WEBVIEW;
        NoFirstLetterNoPart(WEBVIEW, part);
        if i == 3 {
          ConnectHas(part);
        } else {
          TooLongNoPart("connect", part);
        }
      }
    }
  }

  lemma WebViewEventKind()
    ensures CanonicalKind("webview", "WEBVIEW_JS_EXECUTED") == WEBVIEW
  {
    LowerKeeps("webview");
    var evt := "WEBVIEW_JS_EXECUTED";
    assert Upper(evt) == evt;
    assert evt[0] == 'W' && |"webview"| == 7 && "webview"[0] == 'w';
    assert |"sms"| == 3 && "network"[0] == 'n' && |"accessibility"| == 13 && |"notification"| == 12;
    assert |"dynamic_dex"| == 11;
    assert "HTTP_REQUEST_OBSERVED"[0] == 'H' && "SOCKET_CONNECT_OBSERVED"[0] == 'S' && "URL_OPENED"[0] == 'U';
    assert "DEX_CLASS_LOADER_INIT"[0] == 'D' && "PATH_CLASS_LOADER_INIT"[0] == 'P';
    assert "IN_MEMORY_DEX_LOADED"[0] == 'I' && "DEX_FILE_LOADED"[0] == 'D';
    assert evt !in NETWORK_EVENTS && evt !in DEX_EVENTS;
  }

  lemma SilentEventCarriesOut(lib: Library, package: string, m: Marker)
    requires KeepsTexts(lib, package, m)
    ensures CarriesOut(lib, package, m, SilentEvent(package, m))
  {
    hide CompactMetadata, EventMetadata, Carries, CanonicalKind, EventDescription;
    var ev := SilentEvent(package, m);
    var e := DeviceEgress.Recorded(lib, ev);
    RecordedLookups(lib, ev);
    WebViewEventKind();
    assert |"connect"| == 7;
    LowerKeeps("connect");
    LowerKeeps(WEBVIEW);
    assert ApiOf(lib, e) == "connect" && Lower(e.kind) == WEBVIEW;
    WebViewIsNoIngress();
    ContainsItself("connect");
    assert EGRESS_INDICATORS[4] == "connect";
    MarkerCarriesItself(lib, m);
    assert Lookup(ev.metadata, BODY_PREVIEW) == Some(Text(m.value));
  }

  lemma MarkerCarriesItself(lib: Library, m: Marker)
    requires m.value != ""
    ensures Carries(lib, m, m.value)
  {
    ContainsItself(m.value);
    assert Transformations(lib, m)[0].1 == m.value;
  }

  lemma SilentIsGenuine(lib: Library, package: string, m: Marker, destination: string)
    requires KeepsTexts(lib, package, m)
    ensures Genuine(lib, package, m, destination, Silent(lib, package, m, destination))
  {
    hide CompactMetadata, EventMetadata, CanonicalKind, RuntimeId, Lookup, DestinationMetadata;
    var ev, items := SilentEvent(package, m), Silent(lib, package, m, destination);
    WebViewEventKind();
    EventMetadataClaimsNothing(ev);
    SilentClaims(lib, m, destination);
    CompactionAddsNoClaim(lib, DeliveryMetadata(m.value), []);
    CompactionAddsNoClaim(lib, EventMetadata(ev), []);
    CompactionAddsNoClaim(lib, DestinationMetadata(lib, destination), []);
    assert |WEBVIEW| == 16 && |SMS_DELIVERED| == 23 && |NETWORK| == 19 && |DNS| == 15 && |"connect"| == 7;
    assert EventDescription(ev) != "" && DELIVERED != "" && DESTINATION_SEEN != "";
    assert DenseIds(items);
  }

  lemma SilentClaims(lib: Library, m: Marker, destination: string)
    ensures Unclaiming(DeliveryMetadata(m.value)) && Unclaiming(DestinationMetadata(lib, destination))
    ensures Lookup([], PAYLOAD_FLAG) != Some(Flag(true))
  {
    assert |PAYLOAD_FLAG| == 18 && |"marker"| == 6 && |"test_data"| == 9;
  }

  /**
   An event the host accepts, with the marker in the body preview of a script
   executed in a web view, next to a destination known from logcat: the
   exfiltration is confirmed and the rule is silent.
   */
  lemma ConfirmedButSilent(lib: Library, package: string, m: Marker, destination: string, f: Findings,
                           mentionsDumpsys: Item -> bool)
    requires KeepsTexts(lib, package, m)
    requires f.runtime == PipelineEvidence(lib, package, [m], m, Silent(lib, package, m, destination))
    ensures Genuine(lib, package, m, destination, Silent(lib, package, m, destination))
    ensures Confirming(DataExfiltration, f, mentionsDumpsys) && !Fires(ExfilRule, f.runtime)
  {
    hide CompactMetadata, PipelineEvidence, Confirming, BodyEgress, MarkerIngress, Fires, RuntimeId, Lookup,
         CarriesOut, EventMetadata, EventDescription, DestinationMetadata;
    var items := Silent(lib, package, m, destination);
    SilentIsGenuine(lib, package, m, destination);
    CollectedIdsAreUnique(items);
    DeliveryIsAnIngress(lib, package, m, items[0]);
    SilentEventCarriesOut(lib, package, m);
    DeviceBodyLeaves(lib, package, m, SilentEvent(package, m), items[1]);
    assert MarkerEnters(lib, package, m, items) && MarkerLeaves(lib, package, m, items);
    assert [m][0] == m && Exfiltrated(lib, package, [m], items);
    assert items[2] in items && IsNetworkKind(items[2].kind);
    ExfiltrationConfirmedExactly(lib, package, [m], m, items, f, mentionsDumpsys);
    ConfirmedExfiltrationFiresIff(lib, package, [m], m, items, f, mentionsDumpsys);
    forall n | n in items ensures !ConfidentNetwork(n) {
      assert |WEBVIEW| == 16 && |SMS_DELIVERED| == 23 && |NETWORK| == 19 && |DNS| == 15;
    }
  }
}
