/**
 The collectors of the dynamic analyzer: logcat scanning, the synthetic SMS
 experiment and the normalisation of device events. They may fail half-way, a
 refused item being an exception; whatever they have added by then is proved
 to be of the kinds and trust levels the collector may give.
 */
module Collectors {
  import opened Common
  import opened Evidence

  /* ---------- Logcat ---------- */

  /** The logcat texts a collector reads: lines, and the patterns of the evidence kinds. */
  datatype Logcat = Logcat(lines: seq<string>, matches: (string, string) -> bool, destinations: string -> seq<string>)

  const LOG_KINDS: seq<string> := [SMS_ACCESS, ACCESSIBILITY, CODE_LOAD, WEBVIEW]
  const NOISE_DOMAIN := "schemas.android.com"

  /** What a collector gives a logcat record of the kind. */
  function LogConfidence(kind: string): real {
    if kind in [NETWORK, DNS] then 0.60 else if kind == MARKER_CORRELATION then 1.0 else 0.75
  }

  /** Logcat evidence is never more than observed, whatever the line says. */
  predicate FromLog(package: string, e: Item) {
    && e.trust == LogObserved && e.process == package && ClaimsNothing(e)
    && e.confidence == LogConfidence(e.kind)
  }

  predicate Delivery(package: string, e: Item) {
    && e.kind == SMS_DELIVERED && e.trust == Instrumented && e.process == package && ClaimsNothing(e)
    && e.confidence == 1.0
  }

  predicate SmsEvidence(package: string, e: Item) {
    Delivery(package, e) || FromLog(package, e)
  }

  lemma LogKindConfidence(kind: string)
    requires kind in LOG_KINDS
    ensures LogConfidence(kind) == 0.75
  {
    assert SMS_ACCESS[1] == 'm' && ACCESSIBILITY[0] == 'a' && CODE_LOAD[1] == 'y' && WEBVIEW[0] == 'w';
    assert NETWORK[0] == 'n' && DNS[1] == 'n' && MARKER_CORRELATION[1] == 'y' && MARKER_CORRELATION[0] == 's';
    assert CODE_LOAD[0] == 'd' && DNS[0] == 'd';
  }

  twostate predicate GrewByLog(builder: RuntimeEvidenceBuilder, kinds: set<string>)
    reads builder
  {
    && old(builder.items) <= builder.items && Collected(builder.items)
    && forall i | |old(builder.items)| <= i < |builder.items| ::
         FromLog(builder.package, builder.items[i]) && builder.items[i].kind in kinds
  }

  /** `rstrip(".,;)")`. */
  function Trimmed(destination: string): string {
    if destination != "" && destination[|destination| - 1] in ".,;)" then Trimmed(destination[..|destination| - 1])
    else destination
  }

  function DestinationKind(destination: string): string {
    if "http://" <= destination || "https://" <= destination then NETWORK else DNS
  }

  function LineMetadata(lib: Library, line: string): seq<Entry> {
    [Entry("line", Text(Clip(lib.squeeze(line), 500)))]
  }

  function LineKey(lib: Library, kind: string, description: string, line: string): Key {
    KeyFor(lib, kind, description, LogObserved, LineMetadata(lib, line))
  }

  /** The keys of the lines that name the package and match the kind's pattern. */
  function TokenKeys(lib: Library, package: string, log: Logcat, kind: string, description: string, lines: seq<string>)
    : seq<Key>
  {
    if lines == [] then []
    else
      var n := |lines| - 1;
      TokenKeys(lib, package, log, kind, description, lines[..n]) +
      if Contains(lines[n], package) && log.matches(kind, lines[n])
      then [LineKey(lib, kind, description, lines[n])] else []
  }

  const DESTINATION_SEEN := "Runtime output referenced a network destination without trusting response content"

  function DestinationMetadata(lib: Library, destination: string): seq<Entry> {
    [Entry("destination", Text(Clip(lib.squeeze(destination), 300))),
     Entry("observation_source", Text("package-filtered logcat")),
     Entry("content_trusted", Flag(false)),
     Entry(PAYLOAD_FLAG, Flag(false))]
  }

  function DestinationKey(lib: Library, destination: string): Key {
    KeyFor(lib, DestinationKind(destination), DESTINATION_SEEN, LogObserved, DestinationMetadata(lib, destination))
  }

  function DestinationKeys(lib: Library, found: seq<string>): seq<Key> {
    if found == [] then []
    else
      var n := |found| - 1;
      var destination := Trimmed(found[n]);
      DestinationKeys(lib, found[..n])
      + if Lower(destination) != NOISE_DOMAIN then [DestinationKey(lib, destination)] else []
  }

  /** The keys of all destinations on lines that name the package, but for the platform's own schema domain. */
  function NetworkKeys(lib: Library, package: string, log: Logcat, lines: seq<string>): seq<Key> {
    if lines == [] then []
    else
      var n := |lines| - 1;
      NetworkKeys(lib, package, log, lines[..n]) +
      if Contains(lines[n], package) then DestinationKeys(lib, log.destinations(lines[n])) else []
  }

  function SecurityKeys(lib: Library, package: string, log: Logcat, descriptions: string -> string, kinds: seq<string>)
    : seq<Key>
  {
    if kinds == [] then []
    else
      var n := |kinds| - 1;
      SecurityKeys(lib, package, log, descriptions, kinds[..n])
      + TokenKeys(lib, package, log, kinds[n], descriptions(kinds[n]), log.lines)
  }

  lemma {:induction false} TokenKeysOfPrefix(lib: Library, package: string, log: Logcat, kind: string,
                                             description: string,
                                             lines: seq<string>, i: nat)
    requires i <= |lines|
    ensures TokenKeys(lib, package, log, kind, description, lines[..i])
         <= TokenKeys(lib, package, log, kind, description, lines)
    decreases |lines|
  {
    if i == |lines| {
      assert lines[..i] == lines;
    } else {
      assert lines[..|lines| - 1][..i] == lines[..i];
      TokenKeysOfPrefix(lib, package, log, kind, description, lines[..|lines| - 1], i);
    }
  }

  lemma {:induction false} DestinationKeysOfPrefix(lib: Library, found: seq<string>, i: nat)
    requires i <= |found|
    ensures DestinationKeys(lib, found[..i]) <= DestinationKeys(lib, found)
    decreases |found|
  {
    if i == |found| {
      assert found[..i] == found;
    } else {
      assert found[..|found| - 1][..i] == found[..i];
      DestinationKeysOfPrefix(lib, found[..|found| - 1], i);
    }
  }

  lemma {:induction false} NetworkKeysOfPrefix(lib: Library, package: string, log: Logcat, lines: seq<string>, i: nat)
    requires i <= |lines|
    ensures NetworkKeys(lib, package, log, lines[..i]) <= NetworkKeys(lib, package, log, lines)
    decreases |lines|
  {
    if i == |lines| {
      assert lines[..i] == lines;
    } else {
      assert lines[..|lines| - 1][..i] == lines[..i];
      NetworkKeysOfPrefix(lib, package, log, lines[..|lines| - 1], i);
    }
  }

  lemma {:induction false} SecurityKeysOfPrefix(lib: Library, package: string, log: Logcat,
                                                descriptions: string -> string,
                                                kinds: seq<string>, i: nat)
    requires i <= |kinds|
    ensures SecurityKeys(lib, package, log, descriptions, kinds[..i])
         <= SecurityKeys(lib, package, log, descriptions, kinds)
    decreases |kinds|
  {
    if i == |kinds| {
      assert kinds[..i] == kinds;
    } else {
      assert kinds[..|kinds| - 1][..i] == kinds[..i];
      SecurityKeysOfPrefix(lib, package, log, descriptions, kinds[..|kinds| - 1], i);
    }
  }

  function LogcatKeys(lib: Library, package: string, log: Logcat, descriptions: string -> string): seq<Key> {
    SecurityKeys(lib, package, log, descriptions, LOG_KINDS) + NetworkKeys(lib, package, log, log.lines)
  }

  const DELIVERED := "Synthetic OTP SMS marker was delivered to the emulator"
  const SEEN_AGAIN := "Synthetic OTP marker appeared later in an application-associated runtime data path"

  function DeliveryKey(lib: Library, marker: string): Key {
    KeyFor(lib, SMS_DELIVERED, DELIVERED, Instrumented, DeliveryMetadata(marker))
  }

  function ObservationMetadata(marker: string): seq<Entry> {
    [Entry("marker", Text(marker)), Entry("correlation_source", Text("package-filtered logcat"))]
  }

  function ObservationKey(lib: Library, marker: string): Key {
    KeyFor(lib, MARKER_CORRELATION, SEEN_AGAIN, LogObserved, ObservationMetadata(marker))
  }

  predicate SeenInLogcat(package: string, log: Logcat, marker: string) {
    exists i :: 0 <= i < |log.lines| && Contains(log.lines[i], marker) && Contains(log.lines[i], package)
  }

  /** What the synthetic SMS experiment records. */
  function SmsKeys(lib: Library, package: string, marker: string, log: Logcat,
                   descriptions: string -> string): seq<Key> {
    [DeliveryKey(lib, marker)] + LogcatKeys(lib, package, log, descriptions)
    + if SeenInLogcat(package, log, marker) then [ObservationKey(lib, marker)] else []
  }

  class DynamicLiteAnalyzer {
    const builder: RuntimeEvidenceBuilder

    constructor (builder: RuntimeEvidenceBuilder)
      ensures this.builder == builder
    {
      this.builder := builder;
    }

    /** Records exactly the matching lines that name the package; a kind without a pattern is an exception. */
    method ExtractTokenEvidence(log: Logcat, kind: string, description: string) returns (ok: bool)
      requires Collected(builder.items)
      modifies builder`items, builder`seen
      ensures GrewByLog(builder, {kind})
      ensures Records(old(builder.items), old(builder.seen), builder.items, builder.seen,
                      TokenKeys(builder.lib, builder.package, log, kind, description, log.lines), ok)
      ensures kind !in LOG_KINDS ==> !ok && builder.items == old(builder.items)
    {
      hide CompactMetadata, Lookup, RuntimeId, Clip, Records, WellFormed, NoClaims, FromLog, Contains, LineKey;
      var lib, package, lines := builder.lib, builder.package, log.lines;
      ghost var items0, seen0 := builder.items, builder.seen;
      RecordsNothing(items0, seen0, true);
      if kind !in LOG_KINDS {
        RecordsNothing(items0, seen0, false);
        RecordsInterrupted(items0, seen0, items0, seen0, [], TokenKeys(lib, package, log, kind, description, lines));
        return false;
      }
      ok := true;
      var i := 0;
      while i < |lines|
        invariant 0 <= i <= |lines|
        invariant GrewByLog(builder, {kind})
        invariant Records(items0, seen0, builder.items, builder.seen,
                          TokenKeys(lib, package, log, kind, description, lines[..i]), true)
      {
        ghost var items1, seen1, keys1 :=
          builder.items, builder.seen, TokenKeys(lib, package, log, kind, description, lines[..i]);
        assert lines[..i + 1][..i] == lines[..i];
        if Contains(lines[i], package) && log.matches(kind, lines[i]) {
          var added := AddLine(kind, description, lines[i]);
          ghost var key := LineKey(lib, kind, description, lines[i]);
          RecordsMore(items0, seen0, items1, seen1, keys1, builder.items, builder.seen, [key], added);
          assert TokenKeys(lib, package, log, kind, description, lines[..i + 1]) == keys1 + [key];
          if !added {
            TokenKeysOfPrefix(lib, package, log, kind, description, lines, i + 1);
            RecordsInterrupted(items0, seen0, builder.items, builder.seen, keys1 + [key],
                               TokenKeys(lib, package, log, kind, description, lines));
            return false;
          }
        } else {
          assert TokenKeys(lib, package, log, kind, description, lines[..i + 1]) == keys1;
        }
        i := i + 1;
      }
      assert lines[..i] == lines;
    }

    method AddLine(kind: string, description: string, line: string) returns (ok: bool)
      requires Collected(builder.items) && kind in LOG_KINDS
      modifies builder`items, builder`seen
      ensures GrewByLog(builder, {kind})
      ensures Records(old(builder.items), old(builder.seen), builder.items, builder.seen,
                      [LineKey(builder.lib, kind, description, line)], ok)
    {
      hide CompactMetadata, Lookup, RuntimeId, Clip, Records, LogConfidence;
      LogKindConfidence(kind);
      var r := builder.Add(kind, description, 0.75, LogObserved, LineMetadata(builder.lib, line), "", None);
      if r.Added? {
        assert ClaimsNothing(builder.items[|builder.items| - 1]);
      }
      ok := !r.Refused?;
    }

    /** Records exactly the destinations on lines that name the package. */
    method ExtractNetworkDestinations(log: Logcat) returns (ok: bool)
      requires Collected(builder.items)
      modifies builder`items, builder`seen
      ensures GrewByLog(builder, {NETWORK, DNS})
      ensures Records(old(builder.items), old(builder.seen), builder.items, builder.seen,
                      NetworkKeys(builder.lib, builder.package, log, log.lines), ok)
    {
      hide CompactMetadata, Lookup, RuntimeId, Clip, Records, DestinationKeys, WellFormed, NoClaims, FromLog, Contains;
      var lib, package, lines := builder.lib, builder.package, log.lines;
      ghost var items0, seen0 := builder.items, builder.seen;
      RecordsNothing(items0, seen0, true);
      ok := true;
      var i := 0;
      while i < |lines|
        invariant 0 <= i <= |lines|
        invariant GrewByLog(builder, {NETWORK, DNS})
        invariant Records(items0, seen0, builder.items, builder.seen, NetworkKeys(lib, package, log, lines[..i]), true)
      {
        ghost var items1, seen1, keys1 := builder.items, builder.seen, NetworkKeys(lib, package, log, lines[..i]);
        assert lines[..i + 1][..i] == lines[..i];
        if Contains(lines[i], package) {
          var added := AddDestinations(log.destinations(lines[i]));
          ghost var more := DestinationKeys(lib, log.destinations(lines[i]));
          RecordsMore(items0, seen0, items1, seen1, keys1, builder.items, builder.seen, more, added);
          assert NetworkKeys(lib, package, log, lines[..i + 1]) == keys1 + more;
          if !added {
            NetworkKeysOfPrefix(lib, package, log, lines, i + 1);
            RecordsInterrupted(items0, seen0, builder.items, builder.seen, keys1 + more,
                               NetworkKeys(lib, package, log, lines));
            return false;
          }
        } else {
          assert NetworkKeys(lib, package, log, lines[..i + 1]) == keys1;
        }
        i := i + 1;
      }
      assert lines[..i] == lines;
    }

    method AddDestinations(found: seq<string>) returns (ok: bool)
      requires Collected(builder.items)
      modifies builder`items, builder`seen
      ensures GrewByLog(builder, {NETWORK, DNS})
      ensures Records(old(builder.items), old(builder.seen), builder.items, builder.seen,
                      DestinationKeys(builder.lib, found), ok)
    {
      hide CompactMetadata, Lookup, RuntimeId, Clip, Records, Trimmed, DestinationKey, FromLog, WellFormed, NoClaims;
      var lib := builder.lib;
      ghost var items0, seen0 := builder.items, builder.seen;
      RecordsNothing(items0, seen0, true);
      ok := true;
      var i := 0;
      while i < |found|
        invariant 0 <= i <= |found|
        invariant GrewByLog(builder, {NETWORK, DNS})
        invariant Records(items0, seen0, builder.items, builder.seen, DestinationKeys(lib, found[..i]), true)
      {
        ghost var items1, seen1, keys1 := builder.items, builder.seen, DestinationKeys(lib, found[..i]);
        assert found[..i + 1][..i] == found[..i];
        var destination := Trimmed(found[i]);
        if Lower(destination) != NOISE_DOMAIN {
          var r := AddDestination(destination);
          ghost var key := DestinationKey(lib, destination);
          RecordsMore(items0, seen0, items1, seen1, keys1, builder.items, builder.seen, [key], r);
          assert DestinationKeys(lib, found[..i + 1]) == keys1 + [key];
          if !r {
            DestinationKeysOfPrefix(lib, found, i + 1);
            RecordsInterrupted(items0, seen0, builder.items, builder.seen, keys1 + [key], DestinationKeys(lib, found));
            return false;
          }
        } else {
          assert DestinationKeys(lib, found[..i + 1]) == keys1;
        }
        i := i + 1;
      }
      assert found[..i] == found;
    }

    method AddDestination(destination: string) returns (ok: bool)
      requires Collected(builder.items)
      modifies builder`items, builder`seen
      ensures GrewByLog(builder, {NETWORK, DNS})
      ensures Records(old(builder.items), old(builder.seen), builder.items, builder.seen,
                      [DestinationKey(builder.lib, destination)], ok)
    {
      hide CompactMetadata, Lookup, RuntimeId, Clip, Records;
      var metadata := DestinationMetadata(builder.lib, destination);
      assert Unclaiming(metadata);
      var r := builder.Add(DestinationKind(destination), DESTINATION_SEEN, 0.60, LogObserved, metadata, "", None);
      if r.Added? {
        assert ClaimsNothing(builder.items[|builder.items| - 1]);
      }
      ok := !r.Refused?;
    }

    /** All security kinds, then the destinations. */
    method ExtractLogcatEvidence(log: Logcat, descriptions: string -> string) returns (ok: bool)
      requires Collected(builder.items)
      modifies builder`items, builder`seen
      ensures GrewByLog(builder, ToSet(LOG_KINDS) + {NETWORK, DNS})
      ensures Records(old(builder.items), old(builder.seen), builder.items, builder.seen,
                      LogcatKeys(builder.lib, builder.package, log, descriptions), ok)
    {
      hide CompactMetadata, Lookup, RuntimeId, Clip, Records, TokenKeys, NetworkKeys;
      var lib, package := builder.lib, builder.package;
      ghost var items0, seen0 := builder.items, builder.seen;
      RecordsNothing(items0, seen0, true);
      ok := true;
      var i := 0;
      while i < |LOG_KINDS|
        invariant 0 <= i <= |LOG_KINDS|
        invariant GrewByLog(builder, ToSet(LOG_KINDS) + {NETWORK, DNS})
        invariant Records(items0, seen0, builder.items, builder.seen,
                          SecurityKeys(lib, package, log, descriptions, LOG_KINDS[..i]), true)
      {
        ghost var items1, seen1, keys1 :=
          builder.items, builder.seen, SecurityKeys(lib, package, log, descriptions, LOG_KINDS[..i]);
        assert LOG_KINDS[..i + 1][..i] == LOG_KINDS[..i];
        var kind := LOG_KINDS[i];
        var added := ExtractTokenEvidence(log, kind, descriptions(kind));
        ghost var more := TokenKeys(lib, package, log, kind, descriptions(kind), log.lines);
        RecordsMore(items0, seen0, items1, seen1, keys1, builder.items, builder.seen, more, added);
        assert SecurityKeys(lib, package, log, descriptions, LOG_KINDS[..i + 1]) == keys1 + more;
        if !added {
          SecurityKeysOfPrefix(lib, package, log, descriptions, LOG_KINDS, i + 1);
          RecordsInterrupted(items0, seen0, builder.items, builder.seen, keys1 + more,
                             LogcatKeys(lib, package, log, descriptions));
          return false;
        }
        i := i + 1;
      }
      assert LOG_KINDS[..i] == LOG_KINDS;
      ghost var items1, seen1 := builder.items, builder.seen;
      ok := ExtractNetworkDestinations(log);
      RecordsMore(items0, seen0, items1, seen1, SecurityKeys(lib, package, log, descriptions, LOG_KINDS),
                  builder.items, builder.seen, NetworkKeys(lib, package, log, log.lines), ok);
    }

    /** The record of the delivery, which the analyzer itself performed. */
    method AddDelivery(marker: string) returns (ok: bool)
      requires Collected(builder.items)
      modifies builder`items, builder`seen
      ensures old(builder.items) <= builder.items && Collected(builder.items)
      ensures |builder.items| <= |old(builder.items)| + 1
      ensures |builder.items| > |old(builder.items)| ==>
                var e := builder.items[|old(builder.items)|];
                Delivery(builder.package, e) && e.metadata == CompactMetadata(builder.lib, DeliveryMetadata(marker), [])
      ensures ok && DeliveryKey(builder.lib, marker) !in old(builder.seen) ==> |builder.items| > |old(builder.items)|
      ensures Records(old(builder.items), old(builder.seen), builder.items, builder.seen,
                      [DeliveryKey(builder.lib, marker)], ok)
    {
      hide CompactMetadata, Lookup, RuntimeId, Clip, Records;
      var r := builder.Add(SMS_DELIVERED, DELIVERED, 1.0, Instrumented, DeliveryMetadata(marker), "", None);
      ok := !r.Refused?;
      if r.Added? {
        assert ClaimsNothing(builder.items[|builder.items| - 1]);
      }
    }

    /** The marker was seen again: an observation, never more. */
    method AddMarkerObservation(marker: string) returns (ok: bool)
      requires Collected(builder.items)
      modifies builder`items, builder`seen
      ensures GrewByLog(builder, {MARKER_CORRELATION})
      ensures Records(old(builder.items), old(builder.seen), builder.items, builder.seen,
                      [ObservationKey(builder.lib, marker)], ok)
    {
      hide CompactMetadata, Lookup, RuntimeId, Clip, Records;
      var r := builder.Add(MARKER_CORRELATION, SEEN_AGAIN, 1.0, LogObserved, ObservationMetadata(marker), "", None);
      ok := !r.Refused?;
      if r.Added? {
        assert ClaimsNothing(builder.items[|builder.items| - 1]);
      }
    }

    /**
     The synthetic SMS experiment. Its delivery record is the only instrumented
     item it adds, and it adds it first; a marker seen again in logcat stays an
     observation.
     */
    method CollectSyntheticSms(marker: string, log: Logcat, descriptions: string -> string) returns (ok: bool)
      requires Collected(builder.items)
      modifies builder`items, builder`seen
      ensures old(builder.items) <= builder.items && Collected(builder.items)
      ensures forall i | |old(builder.items)| <= i < |builder.items| :: SmsEvidence(builder.package, builder.items[i])
      ensures forall i | |old(builder.items)| < i < |builder.items| :: FromLog(builder.package, builder.items[i])
      ensures marker == "" ==> !ok && builder.items == old(builder.items)
      ensures ok && DeliveryKey(builder.lib, marker) !in old(builder.seen) ==>
                && |builder.items| > |old(builder.items)|
                && Delivery(builder.package, builder.items[|old(builder.items)|])
                && builder.items[|old(builder.items)|].metadata
                   == CompactMetadata(builder.lib, DeliveryMetadata(marker), [])
      ensures marker != "" ==>
                Records(old(builder.items), old(builder.seen), builder.items, builder.seen,
                      SmsKeys(builder.lib, builder.package, marker, log, descriptions), ok)
    {
      hide CompactMetadata, Lookup, RuntimeId, Clip, FromLog, Delivery, WellFormed, NoClaims, Records, LogcatKeys,
           DeliveryKey, ObservationKey;
      if marker == "" {
        return false;
      }
      var lib, package := builder.lib, builder.package;
      ghost var items0, seen0, all :=
        builder.items, builder.seen, SmsKeys(lib, package, marker, log, descriptions);
      ok := AddDelivery(marker);
      ghost var items1, seen1, keys1 := builder.items, builder.seen, [DeliveryKey(lib, marker)];
      if !ok {
        RecordsInterrupted(items0, seen0, items1, seen1, keys1, all);
        return;
      }
      ok := ExtractLogcatEvidence(log, descriptions);
      ghost var items2, seen2, keys2 := builder.items, builder.seen, LogcatKeys(lib, package, log, descriptions);
      RecordsMore(items0, seen0, items1, seen1, keys1, items2, seen2, keys2, ok);
      if !ok {
        RecordsInterrupted(items0, seen0, items2, seen2, keys1 + keys2, all);
        return;
      }
      if SeenInLogcat(package, log, marker) {
        ok := AddMarkerObservation(marker);
        RecordsMore(items0, seen0, items2, seen2, keys1 + keys2,
                    builder.items, builder.seen, [ObservationKey(lib, marker)], ok);
      } else {
        assert all == keys1 + keys2;
      }
    }
  }

  function DeliveryMetadata(marker: string): seq<Entry> {
    [Entry("marker", Text(marker)), Entry("test_data", Flag(true))]
  }

  /* ---------- Device events ---------- */

  /** `FridaRuntimeEvent`: everything but the schema is reported by the device. */
  datatype Event = Event(
    observer: string, eventType: string, timestamp: nat, api: string, targetPackage: string, metadata: seq<Entry>)

  const VALID_OBSERVERS := {"sms", "notification", "accessibility", "network", "dynamic_dex", "webview"}
  const VALID_EVENTS := {
    "SMS_PDU_PARSED", "SMS_SEND_ATTEMPT", "SMS_MULTIPART_SEND", "SMS_ABORT_BROADCAST",
    "NOTIFICATION_TEXT_READ", "NOTIFICATION_TITLE_READ", "NOTIFICATION_PACKAGE_READ",
    "ACCESSIBILITY_TEXT_READ", "ACCESSIBILITY_VIEW_INSPECTED", "ACCESSIBILITY_ACTION_PERFORMED",
    "ACCESSIBILITY_GESTURE_DISPATCHED", "HTTP_REQUEST_OBSERVED", "SOCKET_CONNECT_OBSERVED", "URL_OPENED",
    "DEX_CLASS_LOADER_INIT", "PATH_CLASS_LOADER_INIT", "IN_MEMORY_DEX_LOADED", "DEX_FILE_LOADED",
    "WEBVIEW_INTERFACE_ADDED", "WEBVIEW_URL_LOADED", "WEBVIEW_JS_EXECUTED"}

  /** What `process_raw_message` lets through; observer and event type need not belong together. */
  predicate HostAccepts(ev: Event) {
    && ev.observer in VALID_OBSERVERS && ev.eventType in VALID_EVENTS
    && 1 <= |ev.api| <= 200 && 1 <= |ev.targetPackage| <= 200
  }

  const NETWORK_EVENTS := {"HTTP_REQUEST_OBSERVED", "SOCKET_CONNECT_OBSERVED", "URL_OPENED"}
  const DEX_EVENTS := {"DEX_CLASS_LOADER_INIT", "PATH_CLASS_LOADER_INIT", "IN_MEMORY_DEX_LOADED", "DEX_FILE_LOADED"}

  function CanonicalKind(observer: string, eventType: string): string {
    var obs, evt := Lower(observer), Upper(eventType);
    if obs == "sms" || "SMS_" <= evt then SMS_ACCESS
    else if obs == "network" || evt in NETWORK_EVENTS then NETWORK
    else if obs == "accessibility" || "ACCESSIBILITY_" <= evt then ACCESSIBILITY
    else if obs == "notification" || "NOTIFICATION_" <= evt then ACCESSIBILITY
    else if obs == "dynamic_dex" || evt in DEX_EVENTS then CODE_LOAD
    else if obs == "webview" || "WEBVIEW_" <= evt then WEBVIEW
    else "instrumented_" + obs
  }

  /** No device event is recorded as a delivery or as a marker correlation. */
  lemma DeviceCannotForgeKinds(observer: string, eventType: string)
    ensures CanonicalKind(observer, eventType) !in {SMS_DELIVERED, MARKER_CORRELATION, DNS}
  {
    var kind := CanonicalKind(observer, eventType);
    if kind == "instrumented_" + Lower(observer) {
      assert kind[0] == 'i';
    }
    assert SMS_ACCESS[1] != SMS_DELIVERED[1] && SMS_ACCESS[1] != MARKER_CORRELATION[1];
    assert NETWORK[0] == 'n' && ACCESSIBILITY[0] == 'a' && CODE_LOAD[1] == 'y' && CODE_LOAD[0] == 'd'
           && WEBVIEW[0] == 'w';
    assert DNS[1] == 'n' && SMS_DELIVERED[0] == 's' && MARKER_CORRELATION[0] == 's' && SMS_ACCESS[0] == 's'
           && DNS[0] == 'd';
  }

  /** `if key in event.metadata: metadata[target] = event.metadata[key]`. */
  function Copied(done: seq<Entry>, from: seq<Entry>, key: string, target: string): seq<Entry> {
    match Lookup(from, key)
    case Some(v) => Put(done, target, v)
    case None => done
  }

  function BaseMetadata(ev: Event): seq<Entry> {
    [Entry("schema", Text("deceptiscope.runtime.v1")), Entry("observer", Text(ev.observer)),
     Entry("event_type", Text(ev.eventType)), Entry("api", Text(ev.api)),
     Entry("target_package", Text(ev.targetPackage)), Entry("event_metadata", Table(ev.metadata))]
  }

  function EventMetadata(ev: Event): seq<Entry> {
    var base := BaseMetadata(ev);
    var m1 := Copied(base, ev.metadata, "destination", "destination");
    var m2 := Copied(Copied(m1, ev.metadata, "url", "destination"), ev.metadata, "url", "url");
    var m3 := Copied(m2, ev.metadata, "endpoint", "destination");
    var m4 := Copied(Copied(m3, ev.metadata, "dex_path", "dex_path"), ev.metadata, "source_path", "source_path");
    var m5 := Copied(Copied(m4, ev.metadata, BODY_PREVIEW, BODY_PREVIEW), ev.metadata, BODY_PREVIEW, "payload");
    Copied(m5, ev.metadata, "body_size", "body_size")
  }

  const BODY_PREVIEW := "body_preview_redacted"

  lemma {:induction false} PutKeepsUnclaiming(entries: seq<Entry>, key: string, value: Value)
    requires Unclaiming(entries) && key != PAYLOAD_FLAG
    ensures Unclaiming(Put(entries, key, value))
  {
    if entries != [] && entries[0].key != key {
      forall i | 0 <= i < |entries[1..]| ensures entries[1..][i] != Entry(PAYLOAD_FLAG, Flag(true)) {
        assert entries[1..][i] == entries[i + 1];
      }
      PutKeepsUnclaiming(entries[1..], key, value);
    }
  }

  lemma CopiedKeepsUnclaiming(done: seq<Entry>, from: seq<Entry>, key: string, target: string)
    requires Unclaiming(done) && target != PAYLOAD_FLAG
    ensures Unclaiming(Copied(done, from, key, target))
  {
    if Lookup(from, key).Some? {
      PutKeepsUnclaiming(done, target, Lookup(from, key).value);
    }
  }

  /** Whatever the device reports, the recorded metadata claims no correlation. */
  lemma EventMetadataClaimsNothing(ev: Event)
    ensures Unclaiming(EventMetadata(ev))
  {
    var base := BaseMetadata(ev);
    assert Unclaiming(base);
    var d, f := base, ev.metadata;
    CopiedKeepsUnclaiming(d, f, "destination", "destination");
    var m1 := Copied(d, f, "destination", "destination");
    CopiedKeepsUnclaiming(m1, f, "url", "destination");
    var m2 := Copied(m1, f, "url", "destination");
    CopiedKeepsUnclaiming(m2, f, "url", "url");
    var m3 := Copied(m2, f, "url", "url");
    CopiedKeepsUnclaiming(m3, f, "endpoint", "destination");
    var m4 := Copied(m3, f, "endpoint", "destination");
    CopiedKeepsUnclaiming(m4, f, "dex_path", "dex_path");
    var m5 := Copied(m4, f, "dex_path", "dex_path");
    CopiedKeepsUnclaiming(m5, f, "source_path", "source_path");
    var m6 := Copied(m5, f, "source_path", "source_path");
    CopiedKeepsUnclaiming(m6, f, BODY_PREVIEW, BODY_PREVIEW);
    var m7 := Copied(m6, f, BODY_PREVIEW, BODY_PREVIEW);
    CopiedKeepsUnclaiming(m7, f, BODY_PREVIEW, "payload");
    CopiedKeepsUnclaiming(Copied(m7, f, BODY_PREVIEW, "payload"), f, "body_size", "body_size");
  }

  /** An item made from a device event: instrumented, and never a delivery or a correlation. */
  predicate FromDevice(e: Item) {
    e.trust == Instrumented && e.kind !in {SMS_DELIVERED, MARKER_CORRELATION, DNS} && ClaimsNothing(e)
  }

  /** Python's truth value. */
  predicate Truthy(v: Value) {
    match v
    case Nothing => false
    case Text(t) => t != ""
    case Bytes(decoded) => decoded != ""
    case Flag(on) => on
    case Number(n) => n != 0
    case Items(values) => values != []
    case Table(entries) => entries != []
  }

  function EventDescription(ev: Event): string {
    var marked := match Lookup(ev.metadata, "has_synthetic_marker")
      case Some(v) => Truthy(v)
      case None => false;
    "Instrumented " + Upper(ev.observer) + " observation: " + ev.eventType + " at " + ev.api
    + if marked then " (synthetic marker detected in memory)" else ""
  }

  function EventKey(lib: Library, ev: Event): Key {
    KeyFor(lib, CanonicalKind(ev.observer, ev.eventType), EventDescription(ev), Instrumented, EventMetadata(ev))
  }

  function EventKeys(lib: Library, events: seq<Event>): seq<Key> {
    if events == [] then []
    else var n := |events| - 1; EventKeys(lib, events[..n]) + [EventKey(lib, events[n])]
  }

  lemma {:induction false} EventKeysHave(lib: Library, events: seq<Event>, i: nat)
    requires i <= |events|
    ensures EventKeys(lib, events[..i]) <= EventKeys(lib, events)
    ensures i < |events| ==> EventKey(lib, events[i]) in EventKeys(lib, events)
    decreases |events|
  {
    hide EventKey;
    if i == |events| {
      assert events[..i] == events;
    } else {
      var n := |events| - 1;
      assert events[..n][..i] == events[..i];
      EventKeysHave(lib, events[..n], i);
      assert i < n ==> events[..n][i] == events[i];
    }
  }

  /** The item the builder makes of a device event, apart from its id and time. */
  predicate RecordedFrom(lib: Library, package: string, ev: Event, e: Item) {
    && ItemKey(e) == EventKey(lib, ev) && e.confidence == 0.95
    && e.process == (if ev.targetPackage != "" then ev.targetPackage else package)
  }

  /** It bears the device's time, unless the device gave none. */
  predicate RecordedAt(lib: Library, package: string, ev: Event, e: Item) {
    RecordedFrom(lib, package, ev, e) && (ev.timestamp > 0 ==> e.timestamp == ev.timestamp)
  }

  /** The item is made of the first event with its key. */
  predicate MadeOf(lib: Library, package: string, events: seq<Event>, j: nat, e: Item)
    requires j < |events|
  {
    RecordedAt(lib, package, events[j], e) && forall k | 0 <= k < j :: EventKey(lib, events[k]) != ItemKey(e)
  }

  predicate HasEvent(lib: Library, package: string, events: seq<Event>, e: Item) {
    exists j :: 0 <= j < |events| && MadeOf(lib, package, events, j, e)
  }

  lemma FirstOfItsKey(lib: Library, package: string, events: seq<Event>, i: nat, items: seq<Item>, seen: set<Key>,
                      items': seq<Item>, seen': set<Key>, e: Item)
    requires i < |events| && Records(items, seen, items', seen', EventKeys(lib, events[..i]), true)
    requires EventKey(lib, events[i]) !in seen' && RecordedAt(lib, package, events[i], e)
    ensures MadeOf(lib, package, events, i, e)
  {
    hide EventKey;
    forall k | 0 <= k < i ensures EventKey(lib, events[k]) != ItemKey(e) {
      EventKeysHave(lib, events[..i], k);
      assert events[..i][k] == events[k];
    }
  }

  class FridaHost {
    /** Each event becomes one item unless an equal one was recorded before; no item comes from elsewhere. */
    method NormalizeToEvidence(events: seq<Event>, builder: RuntimeEvidenceBuilder) returns (added: seq<Item>, ok: bool)
      requires Collected(builder.items)
      modifies builder`items, builder`seen
      ensures builder.items == old(builder.items) + added && Collected(builder.items)
      ensures forall i | 0 <= i < |added| ::
                FromDevice(added[i]) && HasEvent(builder.lib, builder.package, events, added[i])
      ensures Records(old(builder.items), old(builder.seen), builder.items, builder.seen,
                      EventKeys(builder.lib, events), ok)
    {
      hide CompactMetadata, RuntimeId, Clip, EventMetadata, CanonicalKind, EventDescription, EventKey, Records,
           FromDevice, RecordedAt, MadeOf;
      var lib, package := builder.lib, builder.package;
      ghost var items0, seen0 := builder.items, builder.seen;
      RecordsNothing(items0, seen0, true);
      added := [];
      var i := 0;
      while i < |events|
        invariant 0 <= i <= |events|
        invariant builder.items == old(builder.items) + added && Collected(builder.items)
        invariant forall j | 0 <= j < |added| :: FromDevice(added[j]) && HasEvent(lib, package, events, added[j])
        invariant Records(items0, seen0, builder.items, builder.seen, EventKeys(lib, events[..i]), true)
      {
        ghost var items1, seen1, keys1 := builder.items, builder.seen, EventKeys(lib, events[..i]);
        assert events[..i + 1][..i] == events[..i];
        var r := AddEvent(events[i], builder);
        ghost var key := EventKey(lib, events[i]);
        RecordsMore(items0, seen0, items1, seen1, keys1, builder.items, builder.seen, [key], !r.Refused?);
        if r.Refused? {
          EventKeysHave(lib, events, i + 1);
          RecordsInterrupted(items0, seen0, builder.items, builder.seen, keys1 + [key], EventKeys(lib, events));
          return added, false;
        }
        if r.Added? {
          FirstOfItsKey(lib, package, events, i, items0, seen0, items1, seen1, r.item);
          assert HasEvent(lib, package, events, r.item);
          added := added + [r.item];
        }
        i := i + 1;
      }
      assert events[..i] == events;
      ok := true;
    }

    method AddEvent(ev: Event, builder: RuntimeEvidenceBuilder) returns (r: Added)
      requires Collected(builder.items)
      modifies builder`items, builder`seen
      ensures Collected(builder.items)
      ensures builder.items == old(builder.items) + if r.Added? then [r.item] else []
      ensures r.Added? ==> FromDevice(r.item) && RecordedAt(builder.lib, builder.package, ev, r.item)
      ensures r.Added? ==> EventKey(builder.lib, ev) !in old(builder.seen)
      ensures Records(old(builder.items), old(builder.seen), builder.items, builder.seen,
                      [EventKey(builder.lib, ev)], !r.Refused?)
    {
      hide CompactMetadata, RuntimeId, Clip, EventMetadata, CanonicalKind, EventDescription, Records;
      EventMetadataClaimsNothing(ev);
      DeviceCannotForgeKinds(ev.observer, ev.eventType);
      r := builder.Add(CanonicalKind(ev.observer, ev.eventType), EventDescription(ev), 0.95, Instrumented,
                       EventMetadata(ev), ev.targetPackage, if ev.timestamp > 0 then Some(ev.timestamp) else None);
      if r.Added? {
        assert ClaimsNothing(builder.items[|builder.items| - 1]);
      }
    }
  }
}
