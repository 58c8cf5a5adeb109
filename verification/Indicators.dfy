/**
 `IndicatorRepository.upsert`: the stored row of an indicator is a fold over
 its history, with maxima and a count of distinct sources that do not depend on
 the order of the upserts.
 */
module Indicators {
  import opened Common

  datatype Severity = Low | Medium | High | Critical

  type Key = (string, string)

  /** An upsert that passed normalisation: its key, severity, clamped confidence and source analysis. */
  datatype Sighting = Sighting(key: Key, severity: Severity, confidence: real, source: Option<string>)

  datatype Row = Row(
    display: string, severity: Severity, confidence: real, firstSeen: string, lastSeen: string, count: nat,
    description: string)

  function Rank(s: Severity): nat {
    match s
    case Low => 0
    case Medium => 1
    case High => 2
    case Critical => 3
  }

  /** `max(..., key=SEVERITY_ORDER.get)` keeps the first of equals. */
  function MaxSeverity(a: Severity, b: Severity): Severity {
    if Rank(b) > Rank(a) then b else a
  }

  function MaxReal(a: real, b: real): real {
    if b > a then b else a
  }

  /** Lower-casing, trimming and the per-kind normalisation, which may refuse a value. */
  datatype Normalizer = Normalizer(kind: string -> string, value: (string, string) -> Option<string>,
                                   severity: string -> Option<Severity>, trim: string -> string)

  datatype Outcome = Stored | InvalidValue | InvalidSeverity

  /* ---------- The history of an indicator ---------- */

  predicate Touches(history: seq<Sighting>, key: Key) {
    exists i :: 0 <= i < |history| && history[i].key == key
  }

  function Sources(history: seq<Sighting>, key: Key): set<Option<string>> {
    set i | 0 <= i < |history| && history[i].key == key :: history[i].source
  }

  /** The severity is reached by some upsert of the key and exceeded by none. */
  ghost predicate IsMaxSeverity(history: seq<Sighting>, key: Key, s: Severity) {
    && (exists i :: 0 <= i < |history| && history[i].key == key && history[i].severity == s)
    && (forall i | 0 <= i < |history| && history[i].key == key :: Rank(history[i].severity) <= Rank(s))
  }

  ghost predicate IsMaxConfidence(history: seq<Sighting>, key: Key, c: real) {
    && (exists i :: 0 <= i < |history| && history[i].key == key && history[i].confidence == c)
    && (forall i | 0 <= i < |history| && history[i].key == key :: history[i].confidence <= c)
  }

  ghost predicate RowFits(history: seq<Sighting>, key: Key, row: Row) {
    && IsMaxSeverity(history, key, row.severity)
    && IsMaxConfidence(history, key, row.confidence)
    && row.count == |Sources(history, key)|
  }

  /** The tables hold exactly what the history says. */
  ghost predicate Reflects(rows: map<Key, Row>, sightings: set<(Key, Option<string>)>, history: seq<Sighting>) {
    && (forall key :: key in rows <==> Touches(history, key))
    && (forall key, source :: (key, source) in sightings <==> source in Sources(history, key))
    && (forall key | key in rows :: RowFits(history, key, rows[key]))
  }

  lemma TouchesNext(history: seq<Sighting>, x: Sighting, key: Key)
    ensures Touches(history + [x], key) <==> Touches(history, key) || x.key == key
    ensures Sources(history + [x], key) == Sources(history, key) + if x.key == key then {x.source} else {}
  {
    var all := history + [x];
    assert all[|history|] == x;
    if i :| 0 <= i < |history| && history[i].key == key {
      assert all[i].key == key;
    }
    forall s ensures s in Sources(all, key) <==> s in Sources(history, key) || (x.key == key && s == x.source) {
      if i :| 0 <= i < |history| && history[i].key == key && history[i].source == s {
        assert all[i] == history[i];
      }
      if i :| 0 <= i < |all| && all[i].key == key && all[i].source == s {
        assert i < |history| ==> history[i] == all[i];
      }
    }
  }

  lemma OtherRowsFit(history: seq<Sighting>, x: Sighting, key: Key, row: Row)
    requires RowFits(history, key, row) && x.key != key
    ensures RowFits(history + [x], key, row)
  {
    TouchesNext(history, x, key);
    var all := history + [x];
    assert all[|history|] == x && forall i | 0 <= i < |history| :: all[i] == history[i];
    var i :| 0 <= i < |history| && history[i].key == key && history[i].severity == row.severity;
    assert all[i].severity == row.severity;
    var j :| 0 <= j < |history| && history[j].key == key && history[j].confidence == row.confidence;
    assert all[j].confidence == row.confidence;
  }

  lemma MergedRowFits(history: seq<Sighting>, x: Sighting, row: Row, row': Row)
    requires RowFits(history, x.key, row)
    requires row'.severity == MaxSeverity(row.severity, x.severity)
    requires row'.confidence == MaxReal(row.confidence, x.confidence)
    requires row'.count == row.count + if x.source in Sources(history, x.key) then 0 else 1
    ensures RowFits(history + [x], x.key, row')
  {
    hide Sources;
    TouchesNext(history, x, x.key);
    SeverityNext(history, x, row.severity);
    ConfidenceNext(history, x, row.confidence);
    var sources := Sources(history, x.key);
    assert x.source in sources ==> sources + {x.source} == sources;
  }

  lemma SeverityNext(history: seq<Sighting>, x: Sighting, s: Severity)
    requires IsMaxSeverity(history, x.key, s)
    ensures IsMaxSeverity(history + [x], x.key, MaxSeverity(s, x.severity))
  {
    var all, n := history + [x], |history|;
    assert all[n] == x && forall i | 0 <= i < n :: all[i] == history[i];
    var i :| 0 <= i < n && history[i].key == x.key && history[i].severity == s;
    assert all[i].severity == s && all[n].severity == x.severity;
  }

  lemma ConfidenceNext(history: seq<Sighting>, x: Sighting, c: real)
    requires IsMaxConfidence(history, x.key, c)
    ensures IsMaxConfidence(history + [x], x.key, MaxReal(c, x.confidence))
  {
    var all, n := history + [x], |history|;
    assert all[n] == x && forall i | 0 <= i < n :: all[i] == history[i];
    var i :| 0 <= i < n && history[i].key == x.key && history[i].confidence == c;
    assert all[i].confidence == c && all[n].confidence == x.confidence;
  }

  lemma NewRowFits(history: seq<Sighting>, x: Sighting, row: Row)
    requires !Touches(history, x.key)
    requires row.severity == x.severity && row.confidence == x.confidence && row.count == 1
    ensures RowFits(history + [x], x.key, row)
  {
    TouchesNext(history, x, x.key);
    var all, n := history + [x], |history|;
    assert all[n] == x && forall i | 0 <= i < n :: all[i] == history[i];
    assert Sources(history, x.key) == {};
    assert Sources(all, x.key) == {x.source};
  }

  /* ---------- The repository ---------- */

  class IndicatorRepository {
    const norm: Normalizer
    var rows: map<Key, Row>
    var sightings: set<(Key, Option<string>)>
    ghost var history: seq<Sighting>

    ghost predicate Valid()
      reads this
    {
      Reflects(rows, sightings, history)
    }

    constructor (norm: Normalizer)
      ensures Valid() && history == [] && rows == map[] && this.norm == norm
    {
      this.norm, rows, sightings, history := norm, map[], {}, [];
    }

    /** Inserts or merges the row inside one transaction, then counts the source once. */
    method Upsert(kindText: string, valueText: string, severityText: string, confidence: real, description: string,
                  source: Option<string>, now: string)
      returns (outcome: Outcome)
      requires Valid()
      modifies this
      ensures Valid()
      ensures var kind := norm.kind(kindText);
              var value := norm.value(kind, valueText);
              var severity := norm.severity(severityText);
              outcome == if value.None? then InvalidValue else if severity.None? then InvalidSeverity else Stored
      ensures outcome != Stored ==> history == old(history) && rows == old(rows) && sightings == old(sightings)
      ensures outcome == Stored ==>
                var kind := norm.kind(kindText);
                var key := (kind, norm.value(kind, valueText).value);
                && history == old(history)
                   + [Sighting(key, norm.severity(severityText).value, Clamped(confidence), source)]
                && key in rows && rows.Keys == old(rows).Keys + {key}
                && (forall k | k in old(rows) && k != key :: rows[k] == old(rows)[k])
                && rows[key].lastSeen == now
                && (key !in old(rows) ==> rows[key].firstSeen == now && rows[key].display == norm.trim(valueText)
                                          && rows[key].description == Clip(description, 1000))
                && (key in old(rows) ==> rows[key].firstSeen == old(rows)[key].firstSeen
                                         && rows[key].display == old(rows)[key].display
                                         && rows[key].description ==
                                            if description != "" then Clip(description, 1000)
                                            else old(rows)[key].description)
    {
      hide Reflects, MaxSeverity, MaxReal, Clip, Clamped;
      var kind := norm.kind(kindText);
      var value := norm.value(kind, valueText);
      if value.None? {
        return InvalidValue;
      }
      var severity := norm.severity(severityText);
      if severity.None? {
        return InvalidSeverity;
      }
      var key := (kind, value.value);
      var x := Sighting(key, severity.value, Clamped(confidence), source);
      var existed := key in rows;
      if !existed {
        rows := rows[key := Row(norm.trim(valueText), x.severity, x.confidence, now, now, 1, Clip(description, 1000))];
      } else {
        var row := rows[key];
        rows := rows[key := row.(
          lastSeen := now, severity := MaxSeverity(row.severity, x.severity),
          confidence := MaxReal(row.confidence, x.confidence),
          description := if description != "" then Clip(description, 1000) else row.description)];
      }
      if (key, source) !in sightings {
        sightings := sightings + {(key, source)};
        if existed {
          rows := rows[key := rows[key].(count := rows[key].count + 1)];
        }
      }
      history := history + [x];
      StillReflects(old(rows), old(sightings), old(history), x, rows, sightings);
      outcome := Stored;
    }
  }

  function Clamped(x: real): real {
    if x < 0.0 then 0.0 else if x > 1.0 then 1.0 else x
  }

  /** A confidence inside 0..1 is kept, and one outside goes to the nearer bound. */
  lemma ClampedIs(x: real)
    ensures 0.0 <= x <= 1.0 ==> Clamped(x) == x
    ensures x < 0.0 ==> Clamped(x) == 0.0
    ensures x > 1.0 ==> Clamped(x) == 1.0
  {
  }

  /** The greater of two, in the order low, medium, high, critical, and of equal ones the first. */
  lemma GreaterIs(a: Severity, b: Severity, x: real, y: real)
    ensures MaxSeverity(a, b) == (if a == Critical || b == Critical then Critical
                                  else if a == High || b == High then High
                                  else if a == Medium || b == Medium then Medium else Low)
    ensures MaxReal(x, y) in {x, y} && x <= MaxReal(x, y) && y <= MaxReal(x, y)
  {
  }

  lemma StillReflects(rows: map<Key, Row>, sightings: set<(Key, Option<string>)>, history: seq<Sighting>, x: Sighting,
                      rows': map<Key, Row>, sightings': set<(Key, Option<string>)>)
    requires Reflects(rows, sightings, history)
    requires rows'.Keys == rows.Keys + {x.key} && forall k | k in rows && k != x.key :: rows'[k] == rows[k]
    requires sightings' == sightings + {(x.key, x.source)}
    requires x.key !in rows ==>
               rows'[x.key].severity == x.severity && rows'[x.key].confidence == x.confidence && rows'[x.key].count == 1
    requires x.key in rows ==>
               && rows'[x.key].severity == MaxSeverity(rows[x.key].severity, x.severity)
               && rows'[x.key].confidence == MaxReal(rows[x.key].confidence, x.confidence)
               && rows'[x.key].count == rows[x.key].count + if (x.key, x.source) in sightings then 0 else 1
    ensures Reflects(rows', sightings', history + [x])
  {
    hide RowFits, Sources, Touches;
    forall key ensures key in rows' <==> Touches(history + [x], key) {
      TouchesNext(history, x, key);
    }
    forall key, source ensures (key, source) in sightings' <==> source in Sources(history + [x], key) {
      TouchesNext(history, x, key);
      assert (key, source) in sightings <==> source in Sources(history, key);
    }
    forall key | key in rows' ensures RowFits(history + [x], key, rows'[key]) {
      if key != x.key {
        OtherRowsFit(history, x, key, rows[key]);
      } else if key in rows {
        MergedRowFits(history, x, rows[key], rows'[key]);
      } else {
        NewRowFits(history, x, rows'[key]);
      }
    }
  }

  /* ---------- Order does not matter ---------- */

  lemma SameSightings(a: seq<Sighting>, b: seq<Sighting>)
    requires multiset(a) == multiset(b)
    ensures forall x :: x in a <==> x in b
  {
    forall x ensures x in a <==> x in b {
      assert x in a <==> x in multiset(a);
      assert x in b <==> x in multiset(b);
    }
  }

  lemma SameSources(a: seq<Sighting>, b: seq<Sighting>, key: Key)
    requires forall x | x in a :: x in b
    ensures Sources(a, key) <= Sources(b, key)
  {
    forall s | s in Sources(a, key) ensures s in Sources(b, key) {
      var i :| 0 <= i < |a| && a[i].key == key && a[i].source == s;
      assert a[i] in b;
      var j :| 0 <= j < |b| && b[j] == a[i];
    }
  }

  lemma AtMostSeverity(a: seq<Sighting>, b: seq<Sighting>, key: Key, r: Row, q: Row)
    requires forall x | x in a :: x in b
    requires RowFits(a, key, r) && RowFits(b, key, q)
    ensures Rank(r.severity) <= Rank(q.severity) && r.confidence <= q.confidence
  {
    var i :| 0 <= i < |a| && a[i].key == key && a[i].severity == r.severity;
    assert a[i] in b;
    var k :| 0 <= k < |b| && b[k] == a[i];
    var j :| 0 <= j < |a| && a[j].key == key && a[j].confidence == r.confidence;
    assert a[j] in b;
    var m :| 0 <= m < |b| && b[m] == a[j];
  }

  /** Two histories with the same upserts in any order store the same severity, confidence and count. */
  lemma OrderDoesNotMatter(rows: map<Key, Row>, sightings: set<(Key, Option<string>)>, history: seq<Sighting>,
                           rows': map<Key, Row>, sightings': set<(Key, Option<string>)>, history': seq<Sighting>,
                           key: Key)
    requires Reflects(rows, sightings, history) && Reflects(rows', sightings', history')
    requires multiset(history) == multiset(history')
    ensures sightings == sightings'
    ensures key in rows <==> key in rows'
    ensures key in rows ==> rows[key].severity == rows'[key].severity && rows[key].confidence == rows'[key].confidence
                            && rows[key].count == rows'[key].count
  {
    SameSightings(history, history');
    forall k: Key ensures Sources(history, k) == Sources(history', k) {
      SameSources(history, history', k);
      SameSources(history', history, k);
    }
    forall p ensures p in sightings <==> p in sightings' {
      assert (p.0, p.1) in sightings <==> p.1 in Sources(history, p.0);
      assert (p.0, p.1) in sightings' <==> p.1 in Sources(history', p.0);
    }
    SameTouches(history, history', key);
    SameTouches(history', history, key);
    if key in rows {
      AtMostSeverity(history, history', key, rows[key], rows'[key]);
      AtMostSeverity(history', history, key, rows'[key], rows[key]);
    }
  }

  lemma SameTouches(a: seq<Sighting>, b: seq<Sighting>, key: Key)
    requires forall x | x in a :: x in b
    ensures Touches(a, key) ==> Touches(b, key)
  {
    if i :| 0 <= i < |a| && a[i].key == key {
      assert a[i] in b;
      var j :| 0 <= j < |b| && b[j] == a[i];
    }
  }
}
