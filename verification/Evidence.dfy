/**
 Runtime evidence and its collectors: the evidence builder, the logcat
 collectors and the normalisation of instrumentation events. What a collector
 reads from the emulator or from a device script is an arbitrary parameter;
 what it may write is proved, above all that it never claims a payload
 correlation.
 */
module Evidence {
  import opened Common
  import opened Timestamps

  datatype Trust = Inferred | LogObserved | SystemObserved | Instrumented | PayloadCorrelated

  /** A metadata value. `Bytes` carries the result of decoding it, `Items` and `Table` are lists and dictionaries. */
  datatype Value =
    | Nothing
    | Text(text: string)
    | Bytes(decoded: string)
    | Flag(on: bool)
    | Number(number: int)
    | Items(values: seq<Value>)
    | Table(entries: seq<Entry>)

  /** One dictionary entry; a dictionary is a sequence of entries in insertion order. */
  datatype Entry = Entry(key: string, value: Value)

  datatype Item = Item(
    id: string, timestamp: int, kind: string, trust: Trust, process: string, description: string,
    confidence: real, metadata: seq<Entry>)

  /** Foreign text functions: encodings, whitespace normalisation and `str` of a value that is not text. */
  datatype Library = Library(
    base64: string -> string, hex: string -> string, quote: string -> string,
    squeeze: string -> string, show: Value -> string)

  const SMS_DELIVERED := "synthetic_sms_delivered"
  const SMS_ACCESS := "sms_access"
  const MARKER_CORRELATION := "synthetic_marker_correlation"
  const NETWORK := "network_destination"
  const DNS := "dns_destination"
  const ACCESSIBILITY := "accessibility_behavior"
  const CODE_LOAD := "dynamic_code_load"
  const WEBVIEW := "webview_activity"
  const PAYLOAD_FLAG := "payload_correlated"

  /* ---------- Text ---------- */

  predicate OccursAt(text: string, part: string, i: nat) {
    i + |part| <= |text| && text[i..i + |part|] == part
  }

  predicate Contains(text: string, part: string) {
    exists i: nat :: i <= |text| && OccursAt(text, part, i)
  }

  function LowerChar(c: char): char {
    if 'A' <= c <= 'Z' then c - 'A' + 'a' else c
  }

  function UpperChar(c: char): char {
    if 'a' <= c <= 'z' then c - 'a' + 'A' else c
  }

  function Lower(s: string): string {
    seq(|s|, i requires 0 <= i < |s| => LowerChar(s[i]))
  }

  function Upper(s: string): string {
    seq(|s|, i requires 0 <= i < |s| => UpperChar(s[i]))
  }

  /* ---------- Dictionaries ---------- */

  function Lookup(entries: seq<Entry>, key: string): Option<Value> {
    if entries == [] then None
    else if entries[0].key == key then Some(entries[0].value)
    else Lookup(entries[1..], key)
  }

  /** Assignment to a key: a key that is present keeps its place. */
  function Put(entries: seq<Entry>, key: string, value: Value): seq<Entry> {
    if entries == [] then [Entry(key, value)]
    else if entries[0].key == key then [Entry(key, value)] + entries[1..]
    else [entries[0]] + Put(entries[1..], key, value)
  }

  lemma {:induction false} LookupPut(entries: seq<Entry>, key: string, value: Value, k: string)
    ensures Lookup(Put(entries, key, value), k) == if k == key then Some(value) else Lookup(entries, k)
  {
    if entries != [] && entries[0].key != key {
      LookupPut(entries[1..], key, value, k);
    }
  }

  /** `_compact_value`: texts are normalised and clipped, containers are bounded. */
  function CompactValue(lib: Library, v: Value): Value
    decreases v, 0
  {
    match v
    case Text(t) => Text(Clip(lib.squeeze(t), 1000))
    case Bytes(_) => Text(Clip(lib.squeeze(lib.show(v)), 1000))
    case Items(values) => Items(CompactItems(lib, if |values| <= 50 then values else values[..50]))
    case Table(entries) => Table(CompactEntries(lib, if |entries| <= 20 then entries else entries[..20], []))
    case _ => v
  }

  function CompactItems(lib: Library, values: seq<Value>): seq<Value>
    decreases values
  {
    if values == [] then [] else [CompactValue(lib, values[0])] + CompactItems(lib, values[1..])
  }

  function CompactEntries(lib: Library, entries: seq<Entry>, done: seq<Entry>): seq<Entry>
    decreases entries
  {
    if entries == [] then done
    else CompactEntries(lib, entries[1..], Put(done, Clip(entries[0].key, 80), CompactValue(lib, entries[0].value)))
  }

  /** `_compact_metadata`: missing values are dropped at the top level only. */
  function CompactMetadata(lib: Library, entries: seq<Entry>, done: seq<Entry>): seq<Entry>
    decreases entries
  {
    if entries == [] then done
    else
      CompactMetadata(lib, entries[1..],
        if entries[0].value.Nothing? then done
        else Put(done, Clip(entries[0].key, 80), CompactValue(lib, entries[0].value)))
  }

  /** No entry claims a payload correlation at the top level; nested dictionaries may hold anything. */
  predicate Unclaiming(entries: seq<Entry>) {
    forall i | 0 <= i < |entries| :: entries[i] != Entry(PAYLOAD_FLAG, Flag(true))
  }

  /** Compaction cannot turn nested or clipped data into a top-level claim. */
  lemma {:induction false} CompactionAddsNoClaim(lib: Library, entries: seq<Entry>, done: seq<Entry>)
    requires Unclaiming(entries) && Lookup(done, PAYLOAD_FLAG) != Some(Flag(true))
    ensures Lookup(CompactMetadata(lib, entries, done), PAYLOAD_FLAG) != Some(Flag(true))
    decreases entries
  {
    if entries != [] {
      var key, v := Clip(entries[0].key, 80), CompactValue(lib, entries[0].value);
      assert entries[0] != Entry(PAYLOAD_FLAG, Flag(true));
      LookupPut(done, key, v, PAYLOAD_FLAG);
      CompactionAddsNoClaim(lib, entries[1..], if entries[0].value.Nothing? then done else Put(done, key, v));
    }
  }

  /* ---------- Evidence ids ---------- */

  function RuntimeId(n: nat): string
    requires n < 10_000
  {
    "R" + Digits(n, if n < 1000 then 3 else 4)
  }

  lemma RuntimeIdInjective(m: nat, n: nat)
    requires m < 10_000 && n < 10_000
    ensures RuntimeId(m) == RuntimeId(n) <==> m == n
    ensures RuntimeId(m) != ""
  {
    assert Pow10(3) == 1000 && Pow10(4) == 10_000 by {
      assert Pow10(0) == 1 && Pow10(1) == 10 && Pow10(2) == 100;
    }
    DigitsOrder(m, m, if m < 1000 then 3 else 4);
    DigitsOrder(n, n, if n < 1000 then 3 else 4);
    if RuntimeId(m) == RuntimeId(n) {
      assert RuntimeId(m)[1..] == RuntimeId(n)[1..];
      DigitsOrder(m, n, if m < 1000 then 3 else 4);
    }
  }

  /* ---------- What collected evidence looks like ---------- */

  /** The item does not claim that a payload was correlated, in either of the two ways a consumer accepts. */
  predicate ClaimsNothing(e: Item) {
    e.trust != PayloadCorrelated && Lookup(e.metadata, PAYLOAD_FLAG) != Some(Flag(true))
  }

  predicate NoClaims(items: seq<Item>) {
    forall i | 0 <= i < |items| :: ClaimsNothing(items[i])
  }

  predicate DenseIds(items: seq<Item>) {
    |items| <= 999 && forall i | 0 <= i < |items| :: items[i].id == RuntimeId(i + 1)
  }

  predicate UniqueIds(items: seq<Item>) {
    forall i, j | 0 <= i < j < |items| :: items[i].id != items[j].id
  }

  predicate NonNegativeTimes(items: seq<Item>) {
    forall i | 0 <= i < |items| :: items[i].timestamp >= 0
  }

  /** What the builder keeps. */
  predicate WellFormed(items: seq<Item>) {
    DenseIds(items) && NonNegativeTimes(items)
  }

  /** What the collectors keep. */
  predicate Collected(items: seq<Item>) {
    WellFormed(items) && NoClaims(items)
  }

  lemma CollectedIdsAreUnique(items: seq<Item>)
    requires DenseIds(items)
    ensures UniqueIds(items)
    ensures forall i | 0 <= i < |items| :: items[i].id != ""
  {
    forall i, j | 0 <= i < j < |items| ensures items[i].id != items[j].id {
      RuntimeIdInjective(i + 1, j + 1);
    }
    forall i | 0 <= i < |items| ensures items[i].id != "" {
      RuntimeIdInjective(i + 1, i + 1);
    }
  }

  /* ---------- The builder ---------- */

  type Key = (string, string, seq<Entry>, Trust)

  function KeyFor(lib: Library, kind: string, description: string, trust: Trust, metadata: seq<Entry>): Key {
    (kind, Clip(lib.squeeze(description), 500), CompactMetadata(lib, metadata, []), trust)
  }

  function ItemKey(e: Item): Key {
    (e.kind, e.description, e.metadata, e.trust)
  }

  function ItemKeys(items: seq<Item>): (keys: seq<Key>)
    ensures |keys| == |items| && forall i | 0 <= i < |items| :: keys[i] == ItemKey(items[i])
  {
    seq(|items|, i requires 0 <= i < |items| => ItemKey(items[i]))
  }

  /** The keys not seen before, once each, in order. */
  function NewKeys(seen: set<Key>, keys: seq<Key>): seq<Key> {
    if keys == [] then []
    else
      var n := |keys| - 1;
      var before := NewKeys(seen, keys[..n]);
      if keys[n] in seen || keys[n] in before then before else before + [keys[n]]
  }

  lemma {:induction false} NewKeysSpec(seen: set<Key>, keys: seq<Key>)
    ensures forall key :: key in NewKeys(seen, keys) <==> key in keys && key !in seen
    ensures forall i, j | 0 <= i < j < |NewKeys(seen, keys)| :: NewKeys(seen, keys)[i] != NewKeys(seen, keys)[j]
  {
    if keys != [] {
      var n := |keys| - 1;
      NewKeysSpec(seen, keys[..n]);
      assert keys == keys[..n] + [keys[n]];
    }
  }

  lemma {:induction false} NewKeysConcat(seen: set<Key>, a: seq<Key>, b: seq<Key>)
    ensures NewKeys(seen, a + b) == NewKeys(seen, a) + NewKeys(seen + ToSet(a), b)
  {
    if b == [] {
      assert a + b == a;
    } else {
      var n := |b| - 1;
      assert (a + b)[..|a + b| - 1] == a + b[..n];
      NewKeysConcat(seen, a, b[..n]);
      NewKeysSpec(seen, a);
    }
  }

  /**
   What recording the items of some keys does to the builder: the keys not seen
   before get one item each, in order; all of them, or the first ones if an item
   was refused.
   */
  ghost predicate Records(items: seq<Item>, seen: set<Key>, items': seq<Item>, seen': set<Key>, keys: seq<Key>,
                          ok: bool) {
    && items <= items'
    && seen <= seen' <= seen + ToSet(keys)
    && ItemKeys(items'[|items|..]) <= NewKeys(seen, keys)
    && (ok ==> seen' == seen + ToSet(keys) && ItemKeys(items'[|items|..]) == NewKeys(seen, keys))
  }

  lemma OneKey(seen: set<Key>, key: Key)
    ensures NewKeys(seen, [key]) == if key in seen then [] else [key]
    ensures ToSet([key]) == {key}
  {
    assert [key][..0] == [] && NewKeys(seen, []) == [];
  }

  /** One item for a key seen for the first time. */
  lemma RecordsItem(items: seq<Item>, seen: set<Key>, item: Item)
    requires ItemKey(item) !in seen
    ensures Records(items, seen, items + [item], seen + {ItemKey(item)}, [ItemKey(item)], true)
  {
    OneKey(seen, ItemKey(item));
    assert (items + [item])[|items|..] == [item];
    assert ItemKeys([item]) == [ItemKey(item)];
  }

  /** None for a key seen before, nor for one whose item is refused. */
  lemma RecordsNoItem(items: seq<Item>, seen: set<Key>, key: Key)
    ensures Records(items, seen, items, seen + {key}, [key], key in seen)
  {
    OneKey(seen, key);
    assert items[|items|..] == [] && ItemKeys([]) == [];
  }

  lemma RecordsNothing(items: seq<Item>, seen: set<Key>, ok: bool)
    ensures Records(items, seen, items, seen, [], ok)
  {
  }

  lemma ItemKeysConcat(a: seq<Item>, b: seq<Item>)
    ensures ItemKeys(a + b) == ItemKeys(a) + ItemKeys(b)
  {
  }

  lemma ToSetConcat(a: seq<Key>, b: seq<Key>)
    ensures ToSet(a + b) == ToSet(a) + ToSet(b)
  {
  }

  lemma RecordsMore(items: seq<Item>, seen: set<Key>, items1: seq<Item>, seen1: set<Key>, keys1: seq<Key>,
                    items2: seq<Item>, seen2: set<Key>, keys2: seq<Key>, ok: bool)
    requires Records(items, seen, items1, seen1, keys1, true) && Records(items1, seen1, items2, seen2, keys2, ok)
    ensures Records(items, seen, items2, seen2, keys1 + keys2, ok)
  {
    hide NewKeys, ItemKeys, ToSet;
    NewKeysConcat(seen, keys1, keys2);
    assert items2[|items|..] == items1[|items|..] + items2[|items1|..];
    ItemKeysConcat(items1[|items|..], items2[|items1|..]);
    ToSetConcat(keys1, keys2);
  }

  lemma RecordsInterrupted(items: seq<Item>, seen: set<Key>, items': seq<Item>, seen': set<Key>, keys: seq<Key>,
                           more: seq<Key>)
    requires Records(items, seen, items', seen', keys, false) && keys <= more
    ensures Records(items, seen, items', seen', more, false)
  {
    NewKeysConcat(seen, keys, more[|keys|..]);
    assert keys + more[|keys|..] == more;
  }

  /** No key gets two items, and a key recorded for the first time gets one. */
  lemma RecordsOnce(items: seq<Item>, seen: set<Key>, items': seq<Item>, seen': set<Key>, keys: seq<Key>, ok: bool)
    requires Records(items, seen, items', seen', keys, ok)
    ensures forall i, j | |items| <= i < j < |items'| :: ItemKey(items'[i]) != ItemKey(items'[j])
    ensures forall i | |items| <= i < |items'| :: ItemKey(items'[i]) in keys && ItemKey(items'[i]) !in seen
    ensures ok ==> forall key | key in keys && key !in seen ::
              exists i :: |items| <= i < |items'| && ItemKey(items'[i]) == key
  {
    var added := ItemKeys(items'[|items|..]);
    NewKeysSpec(seen, keys);
    forall i | |items| <= i < |items'| ensures ItemKey(items'[i]) == added[i - |items|] {
      assert items'[|items|..][i - |items|] == items'[i];
    }
    assert forall i | 0 <= i < |added| :: added[i] == NewKeys(seen, keys)[i];
    if ok {
      forall key | key in keys && key !in seen
        ensures exists i :: |items| <= i < |items'| && ItemKey(items'[i]) == key
      {
        assert key in added;
        var k :| 0 <= k < |added| && added[k] == key;
        assert ItemKey(items'[|items| + k]) == key;
      }
    }
  }

  datatype Added = Added(item: Item) | Duplicate | Refused

  predicate FieldsFit(kind: string, process: string, description: string) {
    1 <= |kind| <= 80 && 1 <= |process| <= 200 && 1 <= |description| <= 500
  }

  /** `_RuntimeEvidenceBuilder`. */
  class RuntimeEvidenceBuilder {
    const lib: Library
    const package: string
    var items: seq<Item>
    var seen: set<Key>

    constructor (lib: Library, package: string)
      ensures this.lib == lib && this.package == package && items == [] && seen == {}
    {
      this.lib, this.package, items, seen := lib, package, [], {};
    }

    function KeyOf(kind: string, description: string, trust: Trust, metadata: seq<Entry>): Key {
      KeyFor(lib, kind, description, trust, metadata)
    }

    function ItemOf(n: nat, kind: string, description: string, confidence: real, trust: Trust,
                    metadata: seq<Entry>, process: string, time: int): Item
      requires n < 10_000
    {
      Item(RuntimeId(n), Max(0, time), kind, trust, if process != "" then process else package,
           Clip(lib.squeeze(description), 500),
           if confidence < 0.0 then 0.0 else if confidence > 1.0 then 1.0 else confidence,
           CompactMetadata(lib, metadata, []))
    }

    /**
     Records the item unless an equal one was recorded before. The key is
     remembered first, so an item the model refuses is never tried again.
     */
    method Add(kind: string, description: string, confidence: real, trust: Trust, metadata: seq<Entry>,
               process: string, time: Option<int>) returns (r: Added)
      requires WellFormed(items)
      modifies this`items, this`seen
      ensures var key := KeyOf(kind, description, trust, metadata);
              && seen == old(seen) + {key}
              && (r.Duplicate? <==> key in old(seen))
      ensures r.Added? ==>
                && items == old(items) + [r.item]
                && r.item == ItemOf(|old(items)| + 1, kind, description, confidence, trust, metadata, process,
                                    r.item.timestamp)
                && (time.Some? ==> r.item.timestamp == Max(0, time.value))
      ensures var from, text := if process != "" then process else package, Clip(lib.squeeze(description), 500);
              r.Added? <==>
                && KeyOf(kind, description, trust, metadata) !in old(seen) && |old(items)| < 999
                && 1 <= |kind| <= 80 && 1 <= |from| <= 200 && 1 <= |text| <= 500
      ensures !r.Added? ==> items == old(items)
      ensures Records(old(items), old(seen), items, seen, [KeyOf(kind, description, trust, metadata)], !r.Refused?)
      ensures WellFormed(items)
      ensures NoClaims(old(items)) && trust != PayloadCorrelated && Unclaiming(metadata) ==> NoClaims(items)
    {
      var key := KeyOf(kind, description, trust, metadata);
      hide Records, CompactMetadata, RuntimeId;
      RecordsNoItem(items, seen, key);
      if key in seen {
        seen := seen + {key};
        return Duplicate;
      }
      seen := seen + {key};
      var now: nat := *;
      var item := ItemOf(|items| + 1, kind, description, confidence, trust, metadata, process,
                         if time.Some? then time.value else now);
      if |items| >= 999 || !FieldsFit(item.kind, item.process, item.description) {
        return Refused;
      }
      if Unclaiming(metadata) {
        CompactionAddsNoClaim(lib, metadata, []);
      }
      assert ItemKey(item) == key;
      RecordsItem(items, old(seen), item);
      items := items + [item];
      r := Added(item);
    }
  }
}
