/**
 From a device event to a proof of exfiltration: a request body reported by the
 instrumentation survives normalisation and compaction, and then counts as the
 marker leaving the app.
 */
module DeviceEgress {
  import opened Common
  import opened Evidence
  import opened Collectors
  import opened Lineage
  import opened Verifier
  import opened EndToEnd

  predicate ShortUniqueKeys(entries: seq<Entry>) {
    && (forall i | 0 <= i < |entries| :: |entries[i].key| <= 80)
    && (forall i, j | 0 <= i < j < |entries| :: entries[i].key != entries[j].key)
  }

  lemma {:induction false} LookupAbsent(entries: seq<Entry>, key: string)
    requires forall i | 0 <= i < |entries| :: entries[i].key != key
    ensures Lookup(entries, key).None?
  {
    if entries != [] {
      LookupAbsent(entries[1..], key);
    }
  }

  /** Compaction of a dictionary with short keys keeps every key and compacts its value. */
  lemma {:induction false} CompactLookup(lib: Library, entries: seq<Entry>, done: seq<Entry>, key: string)
    requires ShortUniqueKeys(entries)
    ensures Lookup(CompactMetadata(lib, entries, done), key) ==
              var v := Lookup(entries, key);
              if v.Some? && !v.value.Nothing? then Some(CompactValue(lib, v.value)) else Lookup(done, key)
    decreases entries
  {
    hide CompactValue;
    if entries != [] {
      var k, v := entries[0].key, entries[0].value;
      var done' := if v.Nothing? then done else Put(done, Clip(k, 80), CompactValue(lib, v));
      LookupPut(done, k, CompactValue(lib, v), key);
      CompactLookup(lib, entries[1..], done', key);
      if k == key {
        LookupAbsent(entries[1..], key);
      }
    }
  }

  predicate KeyIn(entries: seq<Entry>, key: string) {
    exists i :: 0 <= i < |entries| && entries[i].key == key
  }

  lemma {:induction false} PutAddsKey(entries: seq<Entry>, key: string, value: Value, k: string)
    ensures KeyIn(Put(entries, key, value), k) <==> k == key || KeyIn(entries, k)
  {
    if entries == [] {
      assert Put(entries, key, value)[0].key == key;
    } else {
      KeyInParts(entries, k);
      KeyInParts(Put(entries, key, value), k);
      if entries[0].key != key {
        PutAddsKey(entries[1..], key, value, k);
      }
    }
  }

  lemma KeyInParts(entries: seq<Entry>, k: string)
    requires entries != []
    ensures KeyIn(entries, k) <==> entries[0].key == k || KeyIn(entries[1..], k)
  {
    if KeyIn(entries[1..], k) {
      var j :| 0 <= j < |entries[1..]| && entries[1..][j].key == k;
      assert entries[j + 1].key == k;
    }
    if i :| 0 <= i < |entries| && entries[i].key == k {
      assert i > 0 ==> entries[1..][i - 1].key == k;
    }
  }

  lemma UniqueInParts(entries: seq<Entry>)
    requires entries != []
    ensures ShortUniqueKeys(entries) <==>
              |entries[0].key| <= 80 && !KeyIn(entries[1..], entries[0].key) && ShortUniqueKeys(entries[1..])
  {
    if ShortUniqueKeys(entries) {
      forall j | 0 <= j < |entries[1..]| ensures entries[1..][j].key != entries[0].key {
        assert entries[1..][j] == entries[j + 1];
      }
    } else if !KeyIn(entries[1..], entries[0].key) && ShortUniqueKeys(entries[1..]) {
      forall i, j | 0 <= i < j < |entries| ensures entries[i].key != entries[j].key {
        assert entries[1..][j - 1] == entries[j] && (i > 0 ==> entries[1..][i - 1] == entries[i]);
      }
      forall i | 0 <= i < |entries| ensures i > 0 ==> |entries[i].key| <= 80 {
        assert i > 0 ==> entries[1..][i - 1] == entries[i];
      }
    }
  }

  lemma {:induction false} PutKeys(entries: seq<Entry>, key: string, value: Value)
    requires ShortUniqueKeys(entries) && |key| <= 80
    ensures ShortUniqueKeys(Put(entries, key, value))
  {
    hide ShortUniqueKeys, KeyIn;
    if entries == [] {
      assert ShortUniqueKeys([Entry(key, value)]) by { OneKeyIsUnique(key, value); }
    } else {
      var all := Put(entries, key, value);
      UniqueInParts(entries);
      UniqueInParts(all);
      if entries[0].key != key {
        PutKeys(entries[1..], key, value);
        PutAddsKey(entries[1..], key, value, entries[0].key);
      }
    }
  }

  lemma OneKeyIsUnique(key: string, value: Value)
    requires |key| <= 80
    ensures ShortUniqueKeys([Entry(key, value)])
  {
  }

  /** What a chain of copies leaves under a key. */
  lemma CopiedLookup(done: seq<Entry>, from: seq<Entry>, key: string, target: string, k: string)
    requires ShortUniqueKeys(done) && |target| <= 80
    ensures ShortUniqueKeys(Copied(done, from, key, target))
    ensures Lookup(Copied(done, from, key, target), k) ==
              if k == target && Lookup(from, key).Some? then Lookup(from, key) else Lookup(done, k)
  {
    if Lookup(from, key).Some? {
      PutKeys(done, target, Lookup(from, key).value);
      LookupPut(done, target, Lookup(from, key).value, k);
    }
  }

  const COPIED_KEYS: seq<string> :=
    ["destination", "url", "dex_path", "source_path", BODY_PREVIEW, "payload", "body_size"]

  /** The fields an event is described by come first and are the event's own. */
  lemma BaseKeys(ev: Event)
    ensures ShortUniqueKeys(BaseMetadata(ev))
    ensures Lookup(BaseMetadata(ev), "api") == Some(Text(ev.api))
    ensures Lookup(BaseMetadata(ev), "target_package") == Some(Text(ev.targetPackage))
    ensures "api" !in COPIED_KEYS && "target_package" !in COPIED_KEYS
    ensures Lookup(BaseMetadata(ev), BODY_PREVIEW).None?
  {
    var base := BaseMetadata(ev);
    assert |"schema"| == 6 && |"observer"| == 8 && |"event_type"| == 10 && |"api"| == 3 && |"target_package"| == 14;
    assert |"event_metadata"| == 14 && |BODY_PREVIEW| == 21 && "target_package"[0] != "event_metadata"[0];
    CopiedKeyLengths();
    assert "api"[0] == 'a' && "url"[0] == 'u';
    BaseAt(base, 3);
    BaseAt(base, 4);
    LookupAbsent(base, BODY_PREVIEW);
  }

  lemma CopiedKeyLengths()
    ensures |"destination"| == 11 && |"url"| == 3 && |"dex_path"| == 8 && |"source_path"| == 11
    ensures |BODY_PREVIEW| == 21 && |"payload"| == 7 && |"body_size"| == 9
  {
  }

  /** Under unique keys every entry is found. */
  lemma {:induction false} BaseAt(entries: seq<Entry>, i: nat)
    requires ShortUniqueKeys(entries) && i < |entries|
    ensures Lookup(entries, entries[i].key) == Some(entries[i].value)
  {
    if i > 0 {
      assert entries[1..][i - 1] == entries[i];
      BaseAt(entries[1..], i - 1);
    }
  }

  /** What the seven copies leave under a key: only copied keys change, and the preview is the event's own. */
  lemma EventLookup(ev: Event, k: string)
    ensures ShortUniqueKeys(EventMetadata(ev))
    ensures k !in COPIED_KEYS ==> Lookup(EventMetadata(ev), k) == Lookup(BaseMetadata(ev), k)
    ensures k in {BODY_PREVIEW, "payload"} ==>
              Lookup(EventMetadata(ev), k) ==
              if Lookup(ev.metadata, BODY_PREVIEW).Some? then Lookup(ev.metadata, BODY_PREVIEW)
              else Lookup(BaseMetadata(ev), k)
  {
    CopiedKeyLengths();
    BaseKeys(ev);
    hide Lookup, Copied, ShortUniqueKeys;
    assert forall i | 0 <= i < |COPIED_KEYS| :: COPIED_KEYS[i] in COPIED_KEYS;
    assert COPIED_KEYS[0] == "destination" && COPIED_KEYS[1] == "url" && COPIED_KEYS[2] == "dex_path";
    assert COPIED_KEYS[3] == "source_path" && COPIED_KEYS[4] == BODY_PREVIEW && COPIED_KEYS[5] == "payload";
    assert COPIED_KEYS[6] == "body_size";
    var base, f := BaseMetadata(ev), ev.metadata;
    var m1 := Copied(base, f, "destination", "destination");
    var m2 := Copied(m1, f, "url", "destination");
    var m3 := Copied(m2, f, "url", "url");
    var m4 := Copied(m3, f, "endpoint", "destination");
    var m5 := Copied(m4, f, "dex_path", "dex_path");
    var m6 := Copied(m5, f, "source_path", "source_path");
    var m7 := Copied(m6, f, BODY_PREVIEW, BODY_PREVIEW);
    var m8 := Copied(m7, f, BODY_PREVIEW, "payload");
    assert EventMetadata(ev) == Copied(m8, f, "body_size", "body_size");
    CopiedLookup(base, f, "destination", "destination", k);
    CopiedLookup(m1, f, "url", "destination", k);
    CopiedLookup(m2, f, "url", "url", k);
    CopiedLookup(m3, f, "endpoint", "destination", k);
    CopiedLookup(m4, f, "dex_path", "dex_path", k);
    CopiedLookup(m5, f, "source_path", "source_path", k);
    CopiedLookup(m6, f, BODY_PREVIEW, BODY_PREVIEW, k);
    CopiedLookup(m7, f, BODY_PREVIEW, "payload", k);
    CopiedLookup(m8, f, "body_size", "body_size", k);
  }

  /** The recorded API name, target package and body preview are the event's own. */
  lemma EventMetadataKeeps(ev: Event)
    ensures ShortUniqueKeys(EventMetadata(ev))
    ensures Lookup(EventMetadata(ev), "api") == Some(Text(ev.api))
    ensures Lookup(EventMetadata(ev), "target_package") == Some(Text(ev.targetPackage))
    ensures Lookup(EventMetadata(ev), BODY_PREVIEW) == Lookup(ev.metadata, BODY_PREVIEW)
  {
    hide EventMetadata;
    BaseKeys(ev);
    EventLookup(ev, "api");
    EventLookup(ev, "target_package");
    EventLookup(ev, BODY_PREVIEW);
  }

  lemma {:induction false} TextIsChecked(entries: seq<Entry>, key: string, text: string)
    requires Lookup(entries, key) == Some(Text(text)) && text != ""
    ensures text in MetadataTexts(entries)
  {
    if entries[0].key != key {
      TextIsChecked(entries[1..], key, text);
    }
  }

  /** The parts of a recorded event that decide how it is traced. */
  function Recorded(lib: Library, ev: Event): Item {
    Item("", 0, CanonicalKind(ev.observer, ev.eventType), Instrumented, ev.targetPackage, "", 0.95,
         CompactMetadata(lib, EventMetadata(ev), []))
  }

  /**
   An event of the target package whose body preview still carries the marker
   after clipping, and whose kind or API name reads like leaving and not like
   entering.
   */
  ghost predicate CarriesOut(lib: Library, package: string, m: Marker, ev: Event) {
    && ev.targetPackage == package && IsEgress(lib, Recorded(lib, ev))
    && exists preview :: Lookup(ev.metadata, BODY_PREVIEW) == Some(Text(preview))
                         && Carries(lib, m, Clip(lib.squeeze(preview), 1000))
  }

  /** The package name survives normalisation. */
  predicate PlainPackage(lib: Library, package: string) {
    package != "" && Clip(lib.squeeze(package), 1000) == package
  }

  /** What compaction leaves of an event's API name, target package and body preview. */
  lemma RecordedLookups(lib: Library, ev: Event)
    ensures var kept := CompactMetadata(lib, EventMetadata(ev), []);
            && Lookup(kept, "api") == Some(Text(Clip(lib.squeeze(ev.api), 1000)))
            && Lookup(kept, "target_package") == Some(Text(Clip(lib.squeeze(ev.targetPackage), 1000)))
            && forall preview | Lookup(ev.metadata, BODY_PREVIEW) == Some(Text(preview)) ::
                 Lookup(kept, BODY_PREVIEW) == Some(Text(Clip(lib.squeeze(preview), 1000)))
  {
    hide CompactMetadata, EventMetadata, Clip;
    EventMetadataKeeps(ev);
    CompactLookup(lib, EventMetadata(ev), [], "api");
    CompactLookup(lib, EventMetadata(ev), [], "target_package");
    CompactLookup(lib, EventMetadata(ev), [], BODY_PREVIEW);
  }

  /** A body field in an attributed item makes the item relevant and carry the marker out. */
  lemma BodyMakesEgress(lib: Library, package: string, m: Marker, e: Item, kept: string)
    requires Attributed(lib, e, package) && IsEgress(lib, e) && e.trust == Instrumented && e.id != ""
    requires Lookup(e.metadata, BODY_PREVIEW) == Some(Text(kept)) && Carries(lib, m, kept)
    ensures BodyEgress(lib, package, m, e)
  {
    hide Transformations, IsEgress, Attributed;
    TextIsChecked(e.metadata, BODY_PREVIEW, kept);
    assert kept in FieldsToCheck(e);
    var i :| 0 <= i < |FieldsToCheck(e)| && FieldsToCheck(e)[i] == kept;
    assert CarriesSomewhere(lib, m, e);
    MatchIsCarrying(lib, m, kept);
    assert BODY_FIELDS[1] == BODY_PREVIEW;
    assert BodyFieldCarries(lib, m, Lookup(e.metadata, BODY_FIELDS[1]));
  }

  /** The item recorded from such an event is the evidence of leaving that the lineage asks for. */
  lemma DeviceBodyLeaves(lib: Library, package: string, m: Marker, ev: Event, e: Item)
    requires PlainPackage(lib, package) && CarriesOut(lib, package, m, ev)
    requires RecordedFrom(lib, package, ev, e) && e.id != ""
    ensures BodyEgress(lib, package, m, e)
  {
    hide CompactMetadata, EventMetadata, IsEgress, EventDescription, Carries, BodyEgress;
    var preview :| Lookup(ev.metadata, BODY_PREVIEW) == Some(Text(preview))
                   && Carries(lib, m, Clip(lib.squeeze(preview), 1000));
    RecordedLookups(lib, ev);
    assert Lookup(e.metadata, "target_package") == Some(Text(package));
    assert Attributed(lib, e, package);
    SameLooks(lib, Recorded(lib, ev), e);
    BodyMakesEgress(lib, package, m, e, Clip(lib.squeeze(preview), 1000));
  }

  /** Kind and metadata decide whether an item reads like leaving. */
  lemma SameLooks(lib: Library, a: Item, b: Item)
    requires a.kind == b.kind && a.metadata == b.metadata
    ensures IsEgress(lib, a) <==> IsEgress(lib, b)
  {
  }

  /** For network events that means an API name without an entering indicator. */
  lemma NetworkEventCarriesOutIff(lib: Library, package: string, m: Marker, ev: Event)
    requires CanonicalKind(ev.observer, ev.eventType) == NETWORK
    ensures CarriesOut(lib, package, m, ev) <==>
              && ev.targetPackage == package && !IsIngress(lib, Recorded(lib, ev))
              && exists preview :: Lookup(ev.metadata, BODY_PREVIEW) == Some(Text(preview))
                                   && Carries(lib, m, Clip(lib.squeeze(preview), 1000))
  {
    hide Carries, IsIngress;
    NetworkLeavesUnlessApiEnters(lib, Recorded(lib, ev));
  }

  /** Equal keys and one target package: an item recorded from one event is recorded from the other. */
  lemma SameKeySameRecord(lib: Library, package: string, ev: Event, other: Event, e: Item)
    requires RecordedFrom(lib, package, other, e) && EventKey(lib, ev) == ItemKey(e)
    requires ev.targetPackage == other.targetPackage == package
    ensures RecordedFrom(lib, package, ev, e)
  {
  }

  /**
   From device events to a marker that leaves. The hypotheses on `added` are
   what normalisation ensures. If it refuses nothing, all events name the target
   package, and some event not recorded before carries the marker out, then the
   evidence shows the marker leaving.
   */
  lemma NormalizedEventsLeave(lib: Library, package: string, m: Marker, events: seq<Event>, before: seq<Item>,
                              seen: set<Key>, added: seq<Item>, seen': set<Key>, i: nat)
    requires PlainPackage(lib, package) && Collected(before + added)
    requires forall k | 0 <= k < |added| :: HasEvent(lib, package, events, added[k])
    requires Records(before, seen, before + added, seen', EventKeys(lib, events), true)
    requires forall j | 0 <= j < |events| :: events[j].targetPackage == package
    requires i < |events| && CarriesOut(lib, package, m, events[i]) && EventKey(lib, events[i]) !in seen
    ensures MarkerLeaves(lib, package, m, before + added)
  {
    hide EventKey, RecordedFrom, CarriesOut, BodyEgress, WellFormed, NoClaims, EventKeys;
    var items, key := before + added, EventKey(lib, events[i]);
    EventKeysHave(lib, events, i);
    RecordsOnce(before, seen, items, seen', EventKeys(lib, events), true);
    var k :| |before| <= k < |items| && ItemKey(items[k]) == key;
    var e := items[k];
    assert e == added[k - |before|];
    var j :| 0 <= j < |events| && MadeOf(lib, package, events, j, e);
    assert RecordedFrom(lib, package, events[j], e);
    SameKeySameRecord(lib, package, events[i], events[j], e);
    ItemsHaveIds(items, k);
    DeviceBodyLeaves(lib, package, m, events[i], e);
  }

  lemma ItemsHaveIds(items: seq<Item>, k: nat)
    requires Collected(items) && k < |items|
    ensures items[k].id != ""
  {
    CollectedIdsAreUnique(items);
  }

  /** A device event of the SMS observer, a send included, is recorded as SMS access and never counts as leaving. */
  lemma SmsEventNeverLeaves(lib: Library, target: string, package: string, m: Marker, ev: Event, e: Item)
    requires RecordedFrom(lib, package, ev, e)
    requires Lower(ev.observer) == "sms" || "SMS_" <= Upper(ev.eventType)
    ensures e.kind == SMS_ACCESS && IsIngress(lib, e) && !BodyEgress(lib, target, m, e)
  {
    hide CompactMetadata, EventMetadata, EventDescription;
    SmsAccessIsAnIngress(lib, e);
  }
}
