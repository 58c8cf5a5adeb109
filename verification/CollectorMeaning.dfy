/**
 What the collectors record, line by line and destination by destination.
 */
module CollectorMeaning {
  import opened Common
  import opened Evidence
  import opened Collectors

  /* ---------- Logcat ---------- */

  /** A line that names the package. */
  predicate Names(line: string, package: string) {
    Contains(line, package)
  }

  /** The keys of a kind are those of the lines that name the package and match its pattern. */
  lemma {:induction false} TokenKeysAre(lib: Library, package: string, log: Logcat, kind: string, description: string,
                                        lines: seq<string>, key: Key)
    ensures key in TokenKeys(lib, package, log, kind, description, lines) <==>
              exists line :: line in lines && Names(line, package) && log.matches(kind, line)
                             && key == LineKey(lib, kind, description, line)
  {
    hide LineKey, Names;
    if lines != [] {
      var n := |lines| - 1;
      TokenKeysAre(lib, package, log, kind, description, lines[..n], key);
      assert forall line :: line in lines <==> line in lines[..n] || line == lines[n];
      assert Names(lines[n], package) <==> Contains(lines[n], package) by {
        NamesMeans(lines[n], package);
      }
    }
  }

  /** In the order of the lines. */
  lemma {:induction false} TokenKeysInOrder(lib: Library, package: string, log: Logcat, kind: string,
                                            description: string, a: seq<string>, b: seq<string>)
    ensures TokenKeys(lib, package, log, kind, description, a + b) ==
              TokenKeys(lib, package, log, kind, description, a) + TokenKeys(lib, package, log, kind, description, b)
  {
    if b == [] {
      assert a + b == a;
    } else {
      assert (a + b)[..|a + b| - 1] == a + b[..|b| - 1];
      TokenKeysInOrder(lib, package, log, kind, description, a, b[..|b| - 1]);
    }
  }

  /** In the order of the lines and, on a line, of the destinations. */
  lemma {:induction false} DestinationKeysInOrder(lib: Library, a: seq<string>, b: seq<string>)
    ensures DestinationKeys(lib, a + b) == DestinationKeys(lib, a) + DestinationKeys(lib, b)
  {
    if b == [] {
      assert a + b == a;
    } else {
      assert (a + b)[..|a + b| - 1] == a + b[..|b| - 1];
      DestinationKeysInOrder(lib, a, b[..|b| - 1]);
    }
  }

  lemma {:induction false} NetworkKeysInOrder(lib: Library, package: string, log: Logcat, a: seq<string>,
                                              b: seq<string>)
    ensures NetworkKeys(lib, package, log, a + b) ==
              NetworkKeys(lib, package, log, a) + NetworkKeys(lib, package, log, b)
  {
    if b == [] {
      assert a + b == a;
    } else {
      assert (a + b)[..|a + b| - 1] == a + b[..|b| - 1];
      NetworkKeysInOrder(lib, package, log, a, b[..|b| - 1]);
    }
  }

  /** In the order of the events. */
  lemma {:induction false} EventKeysInOrder(lib: Library, a: seq<Event>, b: seq<Event>)
    ensures EventKeys(lib, a + b) == EventKeys(lib, a) + EventKeys(lib, b)
  {
    if b == [] {
      assert a + b == a;
    } else {
      assert (a + b)[..|a + b| - 1] == a + b[..|b| - 1];
      EventKeysInOrder(lib, a, b[..|b| - 1]);
    }
  }

  lemma NamesMeans(line: string, package: string)
    ensures Names(line, package) <==> Contains(line, package)
  {
  }

  /** The signs that are cut off the end of a destination, and nothing else is. */
  lemma {:induction false} TrimmedIs(destination: string)
    ensures Trimmed(destination) <= destination
    ensures forall i | |Trimmed(destination)| <= i < |destination| :: destination[i] in {'.', ',', ';', ')'}
    ensures var t := Trimmed(destination); t != "" ==> t[|t| - 1] !in {'.', ',', ';', ')'}
  {
    if destination != "" && destination[|destination| - 1] in ".,;)" {
      TrimmedIs(destination[..|destination| - 1]);
    }
  }

  /** Web addresses are network destinations, everything else is a name. */
  lemma DestinationKindIs(destination: string)
    ensures DestinationKind(destination) ==
              if |destination| >= 7 && destination[..7] == "http://" then "network_destination"
              else if |destination| >= 8 && destination[..8] == "https://" then "network_destination"
              else "dns_destination"
  {
    assert |"http://"| == 7 && |"https://"| == 8;
  }

  ghost predicate Reported(found: seq<string>, destination: string) {
    exists raw :: raw in found && destination == Trimmed(raw) && Lower(destination) != "schemas.android.com"
  }

  lemma {:induction false} DestinationKeysAre(lib: Library, found: seq<string>, key: Key)
    ensures key in DestinationKeys(lib, found) <==>
              exists destination :: Reported(found, destination) && key == DestinationKey(lib, destination)
  {
    hide DestinationKey, Trimmed, Lower;
    if found != [] {
      var n := |found| - 1;
      DestinationKeysAre(lib, found[..n], key);
      ReportedBefore(found);
    }
  }

  lemma ReportedBefore(found: seq<string>)
    requires found != []
    ensures var n := |found| - 1;
            forall d :: Reported(found, d) <==>
                        Reported(found[..n], d) || (d == Trimmed(found[n]) && Lower(d) != "schemas.android.com")
  {
    var n := |found| - 1;
    assert forall raw :: raw in found <==> raw in found[..n] || raw == found[n];
  }

  /** The keys of all destinations on the lines that name the package, but for the platform's own schema domain. */
  lemma {:induction false} NetworkKeysAre(lib: Library, package: string, log: Logcat, lines: seq<string>, key: Key)
    ensures key in NetworkKeys(lib, package, log, lines) <==>
              exists line, destination ::
                line in lines && Names(line, package) && Reported(log.destinations(line), destination)
                && key == DestinationKey(lib, destination)
  {
    hide DestinationKey, DestinationKeys, Reported;
    if lines != [] {
      var n := |lines| - 1;
      NetworkKeysAre(lib, package, log, lines[..n], key);
      DestinationKeysAre(lib, log.destinations(lines[n]), key);
      assert forall line :: line in lines <==> line in lines[..n] || line == lines[n];
    }
  }

  lemma {:induction false} SecurityKeysAre(lib: Library, package: string, log: Logcat, descriptions: string -> string,
                                           kinds: seq<string>, key: Key)
    ensures key in SecurityKeys(lib, package, log, descriptions, kinds) <==>
              exists kind :: kind in kinds && key in TokenKeys(lib, package, log, kind, descriptions(kind), log.lines)
  {
    hide TokenKeys;
    if kinds != [] {
      var n := |kinds| - 1;
      SecurityKeysAre(lib, package, log, descriptions, kinds[..n], key);
      assert forall kind :: kind in kinds <==> kind in kinds[..n] || kind == kinds[n];
    }
  }

  /**
   What the synthetic SMS experiment records: its delivery, a line for every
   security kind it matches, the destinations, and a sighting of the marker if
   some line holds both marker and package.
   */
  lemma SmsKeysAre(lib: Library, package: string, marker: string, log: Logcat, descriptions: string -> string, key: Key)
    ensures key in SmsKeys(lib, package, marker, log, descriptions) <==>
              || key == DeliveryKey(lib, marker)
              || (exists kind :: kind in LOG_KINDS
                                 && key in TokenKeys(lib, package, log, kind, descriptions(kind), log.lines))
              || key in NetworkKeys(lib, package, log, log.lines)
              || (key == ObservationKey(lib, marker)
                  && exists line :: line in log.lines && Names(line, marker) && Names(line, package))
  {
    hide TokenKeys, NetworkKeys, DeliveryKey, ObservationKey;
    SecurityKeysAre(lib, package, log, descriptions, LOG_KINDS, key);
    SightingMeans(package, log, marker);
  }

  lemma SightingMeans(package: string, log: Logcat, marker: string)
    ensures SeenInLogcat(package, log, marker) <==>
              exists line :: line in log.lines && Names(line, marker) && Names(line, package)
  {
    if line :| line in log.lines && Names(line, marker) && Names(line, package) {
      var i :| 0 <= i < |log.lines| && log.lines[i] == line;
    }
    if i :| 0 <= i < |log.lines| && Contains(log.lines[i], marker) && Contains(log.lines[i], package) {
      assert log.lines[i] in log.lines && Names(log.lines[i], marker) && Names(log.lines[i], package);
    }
  }

  /** How sure a logcat record is, by its kind. */
  lemma LogConfidenceIs(kind: string)
    ensures kind in {"network_destination", "dns_destination"} ==> LogConfidence(kind) == 0.60
    ensures kind == "synthetic_marker_correlation" ==> LogConfidence(kind) == 1.0
    ensures kind in LOG_KINDS ==> LogConfidence(kind) == 0.75
  {
    assert MARKER_CORRELATION[0] == 's' && NETWORK[0] == 'n' && DNS[0] == 'd';
    if kind in LOG_KINDS {
      LogKindConfidence(kind);
    }
  }

  /* ---------- Device events ---------- */

  lemma {:induction false} EventKeysAre(lib: Library, events: seq<Event>, key: Key)
    ensures key in EventKeys(lib, events) <==> exists ev :: ev in events && key == EventKey(lib, ev)
  {
    hide EventKey;
    if events != [] {
      var n := |events| - 1;
      EventKeysAre(lib, events[..n], key);
      assert forall ev :: ev in events <==> ev in events[..n] || ev == events[n];
    }
  }

  /** The item of an event: its own process and time where it gives them, the package and the clock otherwise. */
  lemma RecordedMeans(lib: Library, package: string, ev: Event, e: Item)
    ensures RecordedAt(lib, package, ev, e) <==>
              && ItemKey(e) == EventKey(lib, ev) && e.confidence == 0.95
              && (ev.targetPackage != "" ==> e.process == ev.targetPackage)
              && (ev.targetPackage == "" ==> e.process == package)
              && (0 < ev.timestamp ==> e.timestamp == ev.timestamp)
  {
  }
}
