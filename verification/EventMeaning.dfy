/**
 What normalisation makes of a device event: its kind, its description and its
 metadata, and what compaction keeps of them.
 */
module EventMeaning {
  import opened Common
  import opened Evidence
  import opened Collectors
  import opened Lineage
  import opened EndToEnd
  import opened DeviceEgress

  /* ---------- Kinds ---------- */

  const SMS_EVENTS := {"SMS_PDU_PARSED", "SMS_SEND_ATTEMPT", "SMS_MULTIPART_SEND", "SMS_ABORT_BROADCAST"}
  const NOTICE_EVENTS := {"NOTIFICATION_TEXT_READ", "NOTIFICATION_TITLE_READ", "NOTIFICATION_PACKAGE_READ"}
  const ACCESS_EVENTS := {"ACCESSIBILITY_TEXT_READ", "ACCESSIBILITY_VIEW_INSPECTED",
                          "ACCESSIBILITY_ACTION_PERFORMED", "ACCESSIBILITY_GESTURE_DISPATCHED"}
  const WEB_EVENTS := {"WEBVIEW_INTERFACE_ADDED", "WEBVIEW_URL_LOADED", "WEBVIEW_JS_EXECUTED"}

  /** The accepted events are those of the six observers. */
  lemma ValidEventsAre()
    ensures VALID_EVENTS == SMS_EVENTS + NOTICE_EVENTS + ACCESS_EVENTS + NETWORK_EVENTS + DEX_EVENTS + WEB_EVENTS
  {
  }

  lemma UpperKeeps(s: string)
    requires forall i | 0 <= i < |s| :: !('a' <= s[i] <= 'z')
    ensures Upper(s) == s
  {
  }

  lemma SmsEvents(evt: string)
    requires evt in SMS_EVENTS
    ensures Upper(evt) == evt && "SMS_" <= evt && evt[0] == 'S'
  {
    UpperKeeps(evt);
  }

  lemma NoticeEvents(evt: string)
    requires evt in NOTICE_EVENTS
    ensures Upper(evt) == evt && "NOTIFICATION_" <= evt && evt[0] == 'N'
  {
    UpperKeeps(evt);
  }

  lemma AccessEvents(evt: string)
    requires evt in ACCESS_EVENTS
    ensures Upper(evt) == evt && "ACCESSIBILITY_" <= evt && evt[0] == 'A'
  {
    UpperKeeps(evt);
  }

  lemma WebEvents(evt: string)
    requires evt in WEB_EVENTS
    ensures Upper(evt) == evt && "WEBVIEW_" <= evt && evt[0] == 'W'
  {
    UpperKeeps(evt);
  }

  lemma NetworkEvents(evt: string)
    requires evt in NETWORK_EVENTS
    ensures Upper(evt) == evt && !("SMS_" <= evt) && evt[0] in "HSU"
  {
    UpperKeeps(evt);
    assert "SOCKET_CONNECT_OBSERVED"[1] == 'O' && "SMS_"[1] == 'M';
  }

  lemma DexEvents(evt: string)
    requires evt in DEX_EVENTS
    ensures Upper(evt) == evt && evt[0] in "DPI"
  {
    UpperKeeps(evt);
  }

  /** First letters tell the groups of events apart. */
  lemma PrefixesOf(evt: string)
    requires evt in VALID_EVENTS
    ensures Upper(evt) == evt
    ensures "SMS_" <= evt <==> evt in SMS_EVENTS
    ensures "NOTIFICATION_" <= evt <==> evt in NOTICE_EVENTS
    ensures "ACCESSIBILITY_" <= evt <==> evt in ACCESS_EVENTS
    ensures "WEBVIEW_" <= evt <==> evt in WEB_EVENTS
  {
    hide Upper;
    ValidEventsAre();
    if evt in SMS_EVENTS { SmsEvents(evt); }
    if evt in NOTICE_EVENTS { NoticeEvents(evt); }
    if evt in ACCESS_EVENTS { AccessEvents(evt); }
    if evt in WEB_EVENTS { WebEvents(evt); }
    if evt in NETWORK_EVENTS { NetworkEvents(evt); }
    if evt in DEX_EVENTS { DexEvents(evt); }
    assert "SMS_"[0] == 'S' && "NOTIFICATION_"[0] == 'N' && "ACCESSIBILITY_"[0] == 'A' && "WEBVIEW_"[0] == 'W';
  }

  lemma ObserversAreLower(observer: string)
    requires observer in VALID_OBSERVERS
    ensures Lower(observer) == observer
  {
    LowerKeeps(observer);
  }

  /**
   The kind of an accepted event, by its observer or its type: either puts it
   among SMS access, then network, accessibility, code loading; what is left is
   web view activity, and no accepted event has a kind of its own.
   */
  lemma KindOfEvent(ev: Event)
    requires HostAccepts(ev)
    ensures CanonicalKind(ev.observer, ev.eventType) ==
              if ev.observer == "sms" || ev.eventType in SMS_EVENTS then "sms_access"
              else if ev.observer == "network" || ev.eventType in NETWORK_EVENTS then "network_destination"
              else if ev.observer in {"accessibility", "notification"} || ev.eventType in ACCESS_EVENTS + NOTICE_EVENTS
              then "accessibility_behavior"
              else if ev.observer == "dynamic_dex" || ev.eventType in DEX_EVENTS then "dynamic_code_load"
              else "webview_activity"
  {
    hide Upper, Lower;
    ObserversAreLower(ev.observer);
    PrefixesOf(ev.eventType);
  }

  /* ---------- Metadata ---------- */

  /** The destination is the endpoint, else the URL, else the destination the event names. */
  function NamedDestination(fields: seq<Entry>): Option<Value> {
    if Lookup(fields, "endpoint").Some? then Lookup(fields, "endpoint")
    else if Lookup(fields, "url").Some? then Lookup(fields, "url")
    else Lookup(fields, "destination")
  }

  /** The recorded metadata: what describes the event, and the copied fields, each from its own source. */
  lemma RecordedFields(ev: Event)
    ensures var m, f := EventMetadata(ev), ev.metadata;
            && Lookup(m, "schema") == Some(Text("deceptiscope.runtime.v1"))
            && Lookup(m, "observer") == Some(Text(ev.observer)) && Lookup(m, "event_type") == Some(Text(ev.eventType))
            && Lookup(m, "api") == Some(Text(ev.api)) && Lookup(m, "target_package") == Some(Text(ev.targetPackage))
            && Lookup(m, "event_metadata") == Some(Table(f))
            && Lookup(m, "destination") == NamedDestination(f)
            && Lookup(m, "url") == Lookup(f, "url") && Lookup(m, "dex_path") == Lookup(f, "dex_path")
            && Lookup(m, "source_path") == Lookup(f, "source_path") && Lookup(m, "body_size") == Lookup(f, "body_size")
            && Lookup(m, BODY_PREVIEW) == Lookup(f, BODY_PREVIEW) && Lookup(m, "payload") == Lookup(f, BODY_PREVIEW)
  {
    hide EventMetadata, NamedDestination, BaseMetadata, Lookup;
    CopiedKeysAre();
    DescribingFields(ev);
    CopiedFields(ev);
    EventLookup(ev, "schema");
    EventLookup(ev, "observer");
    EventLookup(ev, "event_type");
    EventLookup(ev, "api");
    EventLookup(ev, "target_package");
    EventLookup(ev, "event_metadata");
    EventLookup(ev, BODY_PREVIEW);
    EventLookup(ev, "payload");
  }

  lemma DescribingFields(ev: Event)
    ensures var b := BaseMetadata(ev);
            && Lookup(b, "schema") == Some(Text("deceptiscope.runtime.v1"))
            && Lookup(b, "observer") == Some(Text(ev.observer)) && Lookup(b, "event_type") == Some(Text(ev.eventType))
            && Lookup(b, "api") == Some(Text(ev.api)) && Lookup(b, "target_package") == Some(Text(ev.targetPackage))
            && Lookup(b, "event_metadata") == Some(Table(ev.metadata))
            && forall k | k in COPIED_KEYS :: Lookup(b, k).None?
    ensures {"schema", "observer", "event_type", "api", "target_package", "event_metadata"} !! ToSet(COPIED_KEYS)
  {
    var b := BaseMetadata(ev);
    BaseKeys(ev);
    BaseAt(b, 0);
    BaseAt(b, 1);
    BaseAt(b, 2);
    BaseAt(b, 3);
    BaseAt(b, 4);
    BaseAt(b, 5);
    CopiedKeyLengths();
    assert |"schema"| == 6 && |"observer"| == 8 && |"event_type"| == 10 && |"api"| == 3 && |"target_package"| == 14;
    assert |"event_metadata"| == 14 && "api"[0] == 'a' && "url"[0] == 'u';
    assert "observer"[0] == 'o' && "dex_path"[0] == 'd';
    forall k | k in COPIED_KEYS ensures Lookup(b, k).None? {
      LookupAbsent(b, k);
    }
  }

  lemma CopiedKeysAre()
    ensures "destination" in COPIED_KEYS && "url" in COPIED_KEYS && "dex_path" in COPIED_KEYS
    ensures "source_path" in COPIED_KEYS && BODY_PREVIEW in COPIED_KEYS && "payload" in COPIED_KEYS
    ensures "body_size" in COPIED_KEYS
  {
    assert COPIED_KEYS[0] == "destination" && COPIED_KEYS[1] == "url" && COPIED_KEYS[2] == "dex_path";
    assert COPIED_KEYS[3] == "source_path" && COPIED_KEYS[4] == BODY_PREVIEW && COPIED_KEYS[5] == "payload";
    assert COPIED_KEYS[6] == "body_size";
  }

  /** The chain of copies, for the keys that are copied. */
  lemma CopiedFields(ev: Event)
    ensures var m, f := EventMetadata(ev), ev.metadata;
            && Lookup(m, "destination") == NamedDestination(f)
            && Lookup(m, "url") == Lookup(f, "url") && Lookup(m, "dex_path") == Lookup(f, "dex_path")
            && Lookup(m, "source_path") == Lookup(f, "source_path") && Lookup(m, "body_size") == Lookup(f, "body_size")
  {
    hide EventMetadata, NamedDestination, BaseMetadata, Lookup;
    CopiedKeysAre();
    DescribingFields(ev);
    BaseKeys(ev);
    forall k | k in ["destination", "url", "dex_path", "source_path", "body_size"]
      ensures Lookup(EventMetadata(ev), k) ==
                if k == "destination" then NamedDestination(ev.metadata) else Lookup(ev.metadata, k)
    {
      CopiedField(ev, k);
    }
  }

  lemma CopiedField(ev: Event, k: string)
    requires ShortUniqueKeys(BaseMetadata(ev)) && Lookup(BaseMetadata(ev), k).None?
    requires k in ["destination", "url", "dex_path", "source_path", "body_size"]
    ensures Lookup(EventMetadata(ev), k) ==
              if k == "destination" then NamedDestination(ev.metadata) else Lookup(ev.metadata, k)
  {
    CopiedKeyLengths();
    hide Lookup, Copied, ShortUniqueKeys;
    var base, f := BaseMetadata(ev), ev.metadata;
    var m1 := Copied(base, f, "destination", "destination");
    var m2 := Copied(m1, f, "url", "destination");
    var m3 := Copied(m2, f, "url", "url");
    var m4 := Copied(m3, f, "endpoint", "destination");
    var m5 := Copied(m4, f, "dex_path", "dex_path");
    var m6 := Copied(m5, f, "source_path", "source_path");
    var m7 := Copied(m6, f, BODY_PREVIEW, BODY_PREVIEW);
    var m8 := Copied(m7, f, BODY_PREVIEW, "payload");
    assert EventMetadata(ev) == Copied(m8, f, "body_size", "body_size");
    CopiedLookup(base, f, "destination", "destination", k);
    CopiedLookup(m1, f, "url", "destination", k);
    CopiedLookup(m2, f, "url", "url", k);
    CopiedLookup(m3, f, "endpoint", "destination", k);
    CopiedLookup(m4, f, "dex_path", "dex_path", k);
    CopiedLookup(m5, f, "source_path", "source_path", k);
    CopiedLookup(m6, f, BODY_PREVIEW, BODY_PREVIEW, k);
    CopiedLookup(m7, f, BODY_PREVIEW, "payload", k);
    CopiedLookup(m8, f, "body_size", "body_size", k);
  }

  /* ---------- Description ---------- */

  lemma PartOccurs(a: string, b: string, c: string)
    ensures Contains(a + b + c, b)
  {
    assert (a + b + c)[|a|..|a| + |b|] == b;
    assert OccursAt(a + b + c, b, |a|);
  }

  function Head(ev: Event): string {
    "Instrumented " + Upper(ev.observer) + " observation: "
  }

  function Note(ev: Event): string {
    var flag := Lookup(ev.metadata, "has_synthetic_marker");
    if flag.Some? && Truthy(flag.value) then " (synthetic marker detected in memory)" else ""
  }

  lemma DescriptionParts(ev: Event)
    ensures EventDescription(ev) == Head(ev) + ev.eventType + (" at " + ev.api) + Note(ev)
  {
    hide Upper, Lookup, Truthy;
    assert ev.eventType + " at " + ev.api == ev.eventType + (" at " + ev.api);
  }

  /** The description names type and API of the event, and says so when the device flagged a marker. */
  lemma DescriptionNames(ev: Event)
    ensures Contains(EventDescription(ev), ev.eventType) && Contains(EventDescription(ev), " at " + ev.api)
    ensures EventDescription(ev) == EventDescription(ev.(metadata := [])) + Note(ev)
  {
    hide EventDescription, Contains, Head;
    var head, api, note := Head(ev), " at " + ev.api, Note(ev);
    DescriptionParts(ev);
    DescriptionParts(ev.(metadata := []));
    HeadIgnoresMetadata(ev);
    assert head + ev.eventType + api + note == head + ev.eventType + (api + note);
    PartOccurs(head, ev.eventType, api + note);
    PartOccurs(head + ev.eventType, api, note);
  }

  lemma HeadIgnoresMetadata(ev: Event)
    ensures Head(ev.(metadata := [])) == Head(ev) && Note(ev.(metadata := [])) == ""
  {
  }

  /* ---------- Compaction ---------- */

  /** Nothing in a compacted value is longer than 1000 characters or fifty entries, at any depth. */
  predicate Bounded(v: Value)
    decreases v
  {
    match v
    case Text(t) => |t| <= 1000
    case Bytes(_) => false
    case Items(values) => |values| <= 50 && forall i | 0 <= i < |values| :: Bounded(values[i])
    case Table(entries) =>
      |entries| <= 20 && forall i | 0 <= i < |entries| :: |entries[i].key| <= 80 && Bounded(entries[i].value)
    case _ => true
  }

  lemma {:induction false} CompactedIsBounded(lib: Library, v: Value)
    ensures Bounded(CompactValue(lib, v))
    decreases v, 0
  {
    match v
    case Items(values) => CompactedItems(lib, if |values| <= 50 then values else values[..50]);
    case Table(entries) => CompactedEntries(lib, if |entries| <= 20 then entries else entries[..20], []);
    case _ =>
  }

  /** A list keeps its first entries, each compacted. */
  lemma {:induction false} CompactedItems(lib: Library, values: seq<Value>)
    ensures |CompactItems(lib, values)| == |values|
    ensures forall i | 0 <= i < |values| ::
              CompactItems(lib, values)[i] == CompactValue(lib, values[i]) && Bounded(CompactItems(lib, values)[i])
    decreases values
  {
    if values != [] {
      CompactedIsBounded(lib, values[0]);
      CompactedItems(lib, values[1..]);
    }
  }

  lemma {:induction false} PutSize(entries: seq<Entry>, key: string, value: Value)
    ensures |Put(entries, key, value)| <= |entries| + 1
    ensures forall i | 0 <= i < |Put(entries, key, value)| ::
              Put(entries, key, value)[i] == Entry(key, value) || Put(entries, key, value)[i] in entries
  {
    if entries != [] && entries[0].key != key {
      PutSize(entries[1..], key, value);
    }
  }

  lemma {:induction false} CompactedEntries(lib: Library, entries: seq<Entry>, done: seq<Entry>)
    requires forall i | 0 <= i < |done| :: |done[i].key| <= 80 && Bounded(done[i].value)
    ensures var r := CompactEntries(lib, entries, done);
            |r| <= |done| + |entries| && forall i | 0 <= i < |r| :: |r[i].key| <= 80 && Bounded(r[i].value)
    decreases entries
  {
    if entries != [] {
      var key, value := Clip(entries[0].key, 80), CompactValue(lib, entries[0].value);
      CompactedIsBounded(lib, entries[0].value);
      PutSize(done, key, value);
      CompactedEntries(lib, entries[1..], Put(done, key, value));
    }
  }

  /** What fits is kept: texts up to normalisation, flags and numbers as they are, a short list entry by entry. */
  lemma CompactionKeeps(lib: Library, v: Value)
    ensures v.Text? && |lib.squeeze(v.text)| <= 1000 ==> CompactValue(lib, v) == Text(lib.squeeze(v.text))
    ensures v.Flag? || v.Number? || v.Nothing? ==> CompactValue(lib, v) == v
    ensures v.Items? ==>
              var r := CompactValue(lib, v);
              r.Items? && |r.values| == Min(50, |v.values|)
              && forall i | 0 <= i < |r.values| :: r.values[i] == CompactValue(lib, v.values[i])
  {
    if v.Items? {
      CompactedItems(lib, if |v.values| <= 50 then v.values else v.values[..50]);
    }
  }
}
