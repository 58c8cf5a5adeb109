/**
 `AuditRepository`: an append-only log whose rows are chained by keyed hashes,
 with a separate head record, key rotation and rows from before key ids existed.
 HMAC and the canonical JSON printer are parameters; what the theorems need of
 them is that together they are free of collisions.
 */
module AuditChain {
  import opened Common
  import opened SortedTexts

  /** The stored columns under the hash, apart from those that form the chain. */
  datatype Fields = Fields(
    id: string, occurredAt: string, requestId: string, actorId: string, authType: string, roles: seq<string>,
    action: string, resourceType: string, resourceId: Option<string>, httpMethod: string, path: string,
    statusCode: int, clientHash: string, agentHash: string, details: string)

  /** The integrity payload; `keyId` is absent in the legacy shape. */
  datatype Payload = Payload(sequence: int, fields: Fields, previousHash: string, keyId: Option<string>)

  datatype Row = Row(sequence: int, fields: Fields, previousHash: string, eventHash: string, keyId: string)

  datatype Head = Head(sequence: int, hash: string)

  datatype Log = Log(rows: seq<Row>, head: Head)

  datatype Crypto = Crypto(hmac: (string, string) -> string, dumps: Payload -> string)

  function Digest(c: Crypto, key: string, p: Payload): string {
    c.hmac(key, c.dumps(p))
  }

  predicate Collides(c: Crypto, k: string, p: Payload, k': string, p': Payload) {
    Digest(c, k, p) == Digest(c, k', p') && (k != k' || p != p')
  }

  ghost predicate CollisionFree(c: Crypto) {
    forall k, p, k', p' :: !Collides(c, k, p, k', p')
  }

  const LEGACY := "legacy"
  const GENESIS := Head(0, "")

  /** What a caller of `append` supplies, with the fresh id and the clock text. */
  datatype Entry = Entry(
    id: string, occurredAt: string, requestId: string, actorId: string, authType: string, roles: seq<string>,
    action: string, resourceType: string, resourceId: Option<string>, httpMethod: string, path: string,
    statusCode: int, clientAddress: string, userAgent: string, details: string)

  /** Who writes: the current code under a key id, or the code from before key ids. */
  datatype Writer = Writer(keyId: string, key: string) | LegacyWriter(key: string)

  datatype Write = Write(writer: Writer, entry: Entry)

  function OrUnknown(text: string): string {
    if text == "" then "unknown" else text
  }

  function ClippedRoles(roles: seq<string>): seq<string> {
    seq(|roles|, i requires 0 <= i < |roles| => Clip(roles[i], 64))
  }

  function StoredFields(c: Crypto, key: string, e: Entry): Fields {
    Fields(e.id, e.occurredAt, Clip(e.requestId, 128), Clip(e.actorId, 256), Clip(e.authType, 32),
           SortedSet(ClippedRoles(e.roles)),
           Clip(e.action, 128), Clip(e.resourceType, 128),
           if e.resourceId.Some? && e.resourceId.value != "" then Some(Clip(e.resourceId.value, 256)) else None,
           Clip(e.httpMethod, 16), Clip(e.path, 1000), e.statusCode,
           c.hmac(key, OrUnknown(e.clientAddress)), c.hmac(key, OrUnknown(e.userAgent)), e.details)
  }

  /** Every column of the row is the caller's own. */
  ghost predicate HoldsEntry(c: Crypto, key: string, row: Fields, e: Entry) {
    && row.id == e.id && row.occurredAt == e.occurredAt && row.statusCode == e.statusCode && row.details == e.details
    && Kept(row.requestId, e.requestId, 128) && Kept(row.actorId, e.actorId, 256)
    && Kept(row.authType, e.authType, 32) && Kept(row.action, e.action, 128)
    && Kept(row.resourceType, e.resourceType, 128)
    && Kept(row.httpMethod, e.httpMethod, 16) && Kept(row.path, e.path, 1000)
    && (row.resourceId.None? <==> e.resourceId.None? || e.resourceId.value == "")
    && (row.resourceId.Some? ==> Kept(row.resourceId.value, e.resourceId.value, 256))
    && row.clientHash == c.hmac(key, if e.clientAddress != "" then e.clientAddress else "unknown")
    && row.agentHash == c.hmac(key, if e.userAgent != "" then e.userAgent else "unknown")
    && SortedTexts.Ascending(row.roles)
    && (forall role :: role in row.roles <==> exists i :: 0 <= i < |e.roles| && role == Clip(e.roles[i], 64))
  }

  lemma StoredColumns(c: Crypto, key: string, e: Entry)
    ensures HoldsEntry(c, key, StoredFields(c, key, e), e)
  {
    var roles := ClippedRoles(e.roles);
    SortedSetAscends(roles);
    forall role ensures role in SortedSet(roles) <==> exists i :: 0 <= i < |e.roles| && role == Clip(e.roles[i], 64) {
      SortedSetIsTheSet(roles, role);
      if role in roles {
        var i :| 0 <= i < |roles| && roles[i] == role;
        assert role == Clip(e.roles[i], 64);
      }
      if i :| 0 <= i < |e.roles| && role == Clip(e.roles[i], 64) {
        assert roles[i] == role;
      }
    }
  }

  /** The roles are stored as a set: order and repeats leave no trace in the row, and nothing else is lost. */
  lemma RolesAreASet(c: Crypto, key: string, e: Entry, roles: seq<string>)
    ensures StoredFields(c, key, e) == StoredFields(c, key, e.(roles := roles)) <==>
              ToSet(ClippedRoles(e.roles)) == ToSet(ClippedRoles(roles))
  {
    SortedSetIgnoresOrder(ClippedRoles(e.roles), ClippedRoles(roles));
  }

  function ColumnOf(w: Writer): string {
    if w.LegacyWriter? then LEGACY else w.keyId
  }

  function NewRow(c: Crypto, head: Head, w: Write): Row {
    var fields := StoredFields(c, w.writer.key, w.entry);
    var payload := Payload(head.sequence + 1, fields, head.hash,
                           if w.writer.LegacyWriter? then None else Some(w.writer.keyId));
    Row(head.sequence + 1, fields, head.hash, Digest(c, w.writer.key, payload), ColumnOf(w.writer))
  }

  function Append(c: Crypto, log: Log, w: Write): Log {
    var row := NewRow(c, log.head, w);
    Log(log.rows + [row], Head(row.sequence, row.eventHash))
  }

  /** The log after a history of appends by any writers. */
  function Written(c: Crypto, history: seq<Write>): Log {
    if history == [] then Log([], GENESIS)
    else Append(c, Written(c, history[..|history| - 1]), history[|history| - 1])
  }

  /* ---------- Verification ---------- */

  /** The verifier's key ring: the current key under its id, and the previous keys. */
  datatype Keys = Keys(keyId: string, current: string, previous: map<string, string>)

  function Ring(k: Keys): map<string, string> {
    k.previous[k.keyId := k.current]
  }

  function ReadKeyId(column: string): string {
    if column == "" then LEGACY else column
  }

  function ResolveKey(k: Keys, column: string): Option<string> {
    var id := ReadKeyId(column);
    if id in Ring(k) then Some(Ring(k)[id])
    else if id == LEGACY then Some(k.current)
    else None
  }

  function ReadPayload(row: Row, previousHash: string): Payload {
    Payload(row.sequence, row.fields, previousHash,
            if ReadKeyId(row.keyId) == LEGACY then None else Some(ReadKeyId(row.keyId)))
  }

  datatype Reason = Checked | ChainMismatch | KeyUnavailable(keyId: string)

  datatype Verification = Verification(
    valid: bool, eventCount: int, verifiedCount: int, firstInvalid: Option<int>, headHash: Option<string>,
    reason: Reason)

  predicate LinkHolds(c: Crypto, key: string, row: Row, previousHash: string, expected: int) {
    && row.sequence == expected
    && row.previousHash == previousHash
    && row.eventHash == Digest(c, key, ReadPayload(row, previousHash))
  }

  /** The verification of the rows still to come. */
  function Check(c: Crypto, k: Keys, head: Head, rows: seq<Row>, previousHash: string, count: int): Verification {
    if rows == [] then
      var valid := head.sequence == count && head.hash == previousHash;
      Verification(valid, count, count, if valid then None else Some(count + 1), Some(previousHash), Checked)
    else
      var row := rows[0];
      var key := ResolveKey(k, row.keyId);
      if key.None? then
        Verification(false, head.sequence, count, Some(row.sequence), None, KeyUnavailable(ReadKeyId(row.keyId)))
      else if !LinkHolds(c, key.value, row, previousHash, count + 1) then
        Verification(false, head.sequence, count, Some(row.sequence), None, ChainMismatch)
      else
        Check(c, k, head, rows[1..], row.eventHash, count + 1)
  }

  /* ---------- WHERE sequence_number <= ? ORDER BY sequence_number ---------- */

  function InsertBySequence(row: Row, sorted: seq<Row>): seq<Row> {
    if sorted == [] || row.sequence <= sorted[0].sequence then [row] + sorted
    else [sorted[0]] + InsertBySequence(row, sorted[1..])
  }

  function Selected(rows: seq<Row>, limit: int): seq<Row> {
    if rows == [] then []
    else
      var rest := Selected(rows[1..], limit);
      if rows[0].sequence <= limit then InsertBySequence(rows[0], rest) else rest
  }

  predicate Ascending(rows: seq<Row>) {
    forall i, j | 0 <= i < j < |rows| :: rows[i].sequence <= rows[j].sequence
  }

  function RowsUpTo(rows: seq<Row>, limit: int): multiset<Row> {
    if rows == [] then multiset{}
    else (if rows[0].sequence <= limit then multiset{rows[0]} else multiset{}) + RowsUpTo(rows[1..], limit)
  }

  lemma {:induction false} InsertionAdds(row: Row, sorted: seq<Row>)
    ensures multiset(InsertBySequence(row, sorted)) == multiset(sorted) + multiset{row}
  {
    if !(sorted == [] || row.sequence <= sorted[0].sequence) {
      assert sorted == [sorted[0]] + sorted[1..];
      InsertionAdds(row, sorted[1..]);
    }
  }

  lemma {:induction false} InsertionIsSorted(row: Row, sorted: seq<Row>)
    requires Ascending(sorted)
    ensures Ascending(InsertBySequence(row, sorted))
  {
    if !(sorted == [] || row.sequence <= sorted[0].sequence) {
      InsertionIsSorted(row, sorted[1..]);
      InsertionAdds(row, sorted[1..]);
      var rest := InsertBySequence(row, sorted[1..]);
      forall x | x in rest ensures sorted[0].sequence <= x.sequence {
        assert x in multiset(rest);
        assert x in sorted[1..] || x == row;
      }
    }
  }

  /** The query returns exactly the rows up to the limit, in order of their sequence numbers. */
  lemma {:induction false} SelectedIsTheQuery(rows: seq<Row>, limit: int)
    ensures multiset(Selected(rows, limit)) == RowsUpTo(rows, limit)
    ensures Ascending(Selected(rows, limit))
  {
    if rows != [] {
      SelectedIsTheQuery(rows[1..], limit);
      if rows[0].sequence <= limit {
        InsertionAdds(rows[0], Selected(rows[1..], limit));
        InsertionIsSorted(rows[0], Selected(rows[1..], limit));
      }
    }
  }

  lemma {:induction false} SelectedOfAscending(rows: seq<Row>, limit: int)
    requires Ascending(rows) && forall r | r in rows :: r.sequence <= limit
    ensures Selected(rows, limit) == rows
  {
    if rows != [] {
      SelectedOfAscending(rows[1..], limit);
      assert rows == [rows[0]] + rows[1..];
    }
  }

  function Verify(c: Crypto, k: Keys, log: Log): Verification {
    Check(c, k, log.head, Selected(log.rows, log.head.sequence), "", 0)
  }

  /* ---------- The objects ---------- */

  class AuditDatabase {
    var rows: seq<Row>
    var head: Head

    constructor ()
      ensures rows == [] && head == GENESIS
    {
      rows, head := [], GENESIS;
    }
  }

  const DEVELOPMENT_KEY := "development-only-audit-integrity-key"

  class AuditRepository {
    const crypto: Crypto
    const keys: Keys
    const db: AuditDatabase

    constructor (crypto: Crypto, db: AuditDatabase, hmacKey: string, keyId: string, previous: map<string, string>)
      ensures this.crypto == crypto && this.db == db
      ensures keys == Keys(keyId, if hmacKey == "" then DEVELOPMENT_KEY else hmacKey, previous)
    {
      this.crypto := crypto;
      this.db := db;
      this.keys := Keys(keyId, if hmacKey == "" then DEVELOPMENT_KEY else hmacKey, previous);
    }

    method AppendEvent(e: Entry) returns (row: Row)
      modifies db
      ensures Log(db.rows, db.head) ==
                Append(crypto, Log(old(db.rows), old(db.head)), Write(Writer(keys.keyId, keys.current), e))
      ensures db.rows == old(db.rows) + [row]
      ensures HoldsEntry(crypto, keys.current, row.fields, e) && row.keyId == keys.keyId
      ensures row.sequence == old(db.head).sequence + 1 && row.previousHash == old(db.head).hash
    {
      hide HoldsEntry;
      StoredColumns(crypto, keys.current, e);
      var sequence, previousHash := db.head.sequence + 1, db.head.hash;
      var fields := StoredFields(crypto, keys.current, e);
      var payload := Payload(sequence, fields, previousHash, Some(keys.keyId));
      var eventHash := Digest(crypto, keys.current, payload);
      row := Row(sequence, fields, previousHash, eventHash, keys.keyId);
      db.rows := db.rows + [row];
      db.head := Head(sequence, eventHash);
    }

    /** The result does not depend on how many rows the cursor hands out at a time. */
    method VerifyChain(batchSize: nat) returns (r: Verification)
      requires batchSize > 0
      ensures r == Verify(crypto, keys, Log(db.rows, db.head))
    {
      var cursor := Selected(db.rows, db.head.sequence);
      var previousHash, expected, verified := "", 1, 0;
      var offset: nat := 0;
      while offset < |cursor|
        invariant offset <= |cursor| && expected == verified + 1
        invariant Check(crypto, keys, db.head, cursor[offset..], previousHash, verified) ==
                  Verify(crypto, keys, Log(db.rows, db.head))
      {
        var size := Min(batchSize, |cursor| - offset);
        for i := 0 to size
          invariant expected == verified + 1
          invariant Check(crypto, keys, db.head, cursor[offset + i..], previousHash, verified) ==
                    Verify(crypto, keys, Log(db.rows, db.head))
        {
          var row := cursor[offset + i];
          assert cursor[offset + i..][1..] == cursor[offset + i + 1..];
          var key := ResolveKey(keys, row.keyId);
          if key.None? {
            return Verification(false, db.head.sequence, verified, Some(row.sequence), None,
                                KeyUnavailable(ReadKeyId(row.keyId)));
          }
          var calculated := Digest(crypto, key.value, ReadPayload(row, previousHash));
          if row.sequence != expected || row.previousHash != previousHash || row.eventHash != calculated {
            return Verification(false, db.head.sequence, verified, Some(row.sequence), None, ChainMismatch);
          }
          previousHash := row.eventHash;
          expected := expected + 1;
          verified := verified + 1;
        }
        offset := offset + size;
      }
      var valid := db.head.sequence == verified && db.head.hash == previousHash;
      r := Verification(valid, verified, verified, if valid then None else Some(expected), Some(previousHash), Checked);
    }
  }

  /* ---------- The shape of an honest log ---------- */

  function HashBefore(rows: seq<Row>, i: nat): string
    requires i <= |rows|
  {
    if i == 0 then "" else rows[i - 1].eventHash
  }

  /** Sequence numbers are dense from 1 and every row was made on top of its predecessor. */
  ghost predicate HonestAt(c: Crypto, history: seq<Write>, rows: seq<Row>, i: nat)
    requires i < |rows| && i < |history|
  {
    rows[i] == NewRow(c, Head(i, HashBefore(rows, i)), history[i])
  }

  ghost predicate HonestRows(c: Crypto, history: seq<Write>, rows: seq<Row>) {
    |rows| == |history| && forall i | 0 <= i < |rows| :: HonestAt(c, history, rows, i)
  }

  lemma {:induction false} WrittenShape(c: Crypto, history: seq<Write>)
    ensures var log := Written(c, history);
            HonestRows(c, history, log.rows) && log.head == Head(|history|, HashBefore(log.rows, |history|))
  {
    if history != [] {
      var n := |history| - 1;
      WrittenShape(c, history[..n]);
      var before, log := Written(c, history[..n]), Written(c, history);
      forall i | 0 <= i <= n ensures HonestAt(c, history, log.rows, i) {
        assert HashBefore(log.rows, i) == HashBefore(before.rows, i);
        if i < n {
          assert HonestAt(c, history[..n], before.rows, i);
          assert log.rows[i] == before.rows[i] && history[..n][i] == history[i];
        }
      }
    }
  }

  lemma WrittenIsSelected(c: Crypto, history: seq<Write>)
    ensures Selected(Written(c, history).rows, |history|) == Written(c, history).rows
  {
    WrittenShape(c, history);
    var rows := Written(c, history).rows;
    forall i | 0 <= i < |rows| ensures rows[i].sequence == i + 1 {
      assert HonestAt(c, history, rows, i);
    }
    SelectedOfAscending(rows, |history|);
  }

  /* ---------- Round trip under key rotation ---------- */

  /**
   A verifier can read a writer's rows: it resolves the stored key id to the
   key used, and the id does not read back as the legacy shape.
   */
  predicate Readable(k: Keys, w: Writer) {
    && ResolveKey(k, ColumnOf(w)) == Some(w.key)
    && (w.Writer? ==> w.keyId != LEGACY && w.keyId != "")
  }

  /** The key a ring holds under an id: the current one under its own id, else a previous one. */
  predicate Retained(k: Keys, id: string, key: string) {
    if id == k.keyId then key == k.current else id in k.previous && k.previous[id] == key
  }

  /**
   Which writers a key ring reads.  The current code is read back under an id
   that is neither empty nor `legacy` and whose key was retained; the code from
   before key ids under a retained `legacy` key, and without one under the
   current key.
   */
  lemma ReadableIff(k: Keys, w: Writer)
    ensures w.Writer? ==> (Readable(k, w) <==> w.keyId != "" && w.keyId != "legacy" && Retained(k, w.keyId, w.key))
    ensures w.LegacyWriter? ==>
              (Readable(k, w) <==>
                if k.keyId == "legacy" || "legacy" in k.previous then Retained(k, "legacy", w.key)
                else w.key == k.current)
  {
    assert |"legacy"| == 6;
  }

  lemma HonestLink(c: Crypto, k: Keys, head: Head, w: Write, key: string)
    requires ResolveKey(k, ColumnOf(w.writer)) == Some(key)
    ensures Readable(k, w.writer) ==> LinkHolds(c, key, NewRow(c, head, w), head.hash, head.sequence + 1)
    ensures CollisionFree(c) && LinkHolds(c, key, NewRow(c, head, w), head.hash, head.sequence + 1) ==>
              Readable(k, w.writer)
  {
    var row := NewRow(c, head, w);
    var wrote := Payload(row.sequence, row.fields, head.hash,
                         if w.writer.LegacyWriter? then None else Some(w.writer.keyId));
    assert CollisionFree(c) ==> !Collides(c, key, ReadPayload(row, head.hash), w.writer.key, wrote);
  }

  lemma {:induction false} CheckHonest(c: Crypto, k: Keys, history: seq<Write>, rows: seq<Row>, i: nat)
    requires HonestRows(c, history, rows) && i <= |rows|
    requires forall w | w in history :: Readable(k, w.writer)
    ensures var head := Head(|rows|, HashBefore(rows, |rows|));
            Check(c, k, head, rows[i..], HashBefore(rows, i), i) ==
              Verification(true, |rows|, |rows|, None, Some(head.hash), Checked)
    decreases |rows| - i
  {
    if i < |rows| {
      assert history[i] in history && HonestAt(c, history, rows, i);
      HonestLink(c, k, Head(i, HashBefore(rows, i)), history[i], history[i].writer.key);
      assert rows[i..][0] == rows[i] && rows[i..][1..] == rows[i + 1..];
      CheckHonest(c, k, history, rows, i + 1);
    }
  }

  /** The first row the verifier cannot read is where verification stops. */
  lemma {:induction false} CheckStops(c: Crypto, k: Keys, head: Head, history: seq<Write>, rows: seq<Row>, i: nat,
                                      bad: nat)
    requires CollisionFree(c) && HonestRows(c, history, rows) && i <= bad < |rows|
    requires !Readable(k, history[bad].writer)
    requires forall j | 0 <= j < bad :: Readable(k, history[j].writer)
    ensures var r := Check(c, k, head, rows[i..], HashBefore(rows, i), i);
            !r.valid && r.verifiedCount == bad && r.firstInvalid == Some(bad + 1)
    decreases bad - i
  {
    assert rows[i..][0] == rows[i] && rows[i..][1..] == rows[i + 1..];
    assert HonestAt(c, history, rows, i);
    var key := ResolveKey(k, rows[i].keyId);
    if key.Some? {
      HonestLink(c, k, Head(i, HashBefore(rows, i)), history[i], key.value);
    }
    if i < bad {
      CheckStops(c, k, head, history, rows, i + 1, bad);
    }
  }

  /**
   Round trip: an untouched log verifies as valid, with full count and correct
   head, exactly when the verifier can read every writer that contributed to it.
   */
  lemma RoundTrip(c: Crypto, k: Keys, history: seq<Write>)
    requires CollisionFree(c)
    ensures Verify(c, k, Written(c, history)).valid <==>
              forall i | 0 <= i < |history| :: Readable(k, history[i].writer)
    ensures var r := Verify(c, k, Written(c, history));
            r.valid ==> r.verifiedCount == r.eventCount == |history|
                        && r.headHash == Some(Written(c, history).head.hash) && r.firstInvalid.None?
  {
    WrittenShape(c, history);
    WrittenIsSelected(c, history);
    var rows := Written(c, history).rows;
    assert rows[0..] == rows;
    if forall i | 0 <= i < |history| :: Readable(k, history[i].writer) {
      CheckHonest(c, k, history, rows, 0);
    } else {
      var bad := FirstUnreadable(k, history);
      CheckStops(c, k, Written(c, history).head, history, rows, 0, bad);
    }
  }

  lemma {:induction false} FirstUnreadable(k: Keys, history: seq<Write>) returns (bad: nat)
    requires exists i :: 0 <= i < |history| && !Readable(k, history[i].writer)
    ensures bad < |history| && !Readable(k, history[bad].writer)
    ensures forall j | 0 <= j < bad :: Readable(k, history[j].writer)
  {
    bad := 0;
    while Readable(k, history[bad].writer)
      invariant bad < |history|
      invariant forall j | 0 <= j < bad :: Readable(k, history[j].writer)
      decreases |history| - bad
    {
      bad := bad + 1;
    }
  }

  /**
   A repository configured with key id `legacy`, which the configuration
   accepts, writes rows that no verifier accepts, itself included: one such
   row anywhere makes the whole log invalid, under every set of keys.
   */
  lemma LegacyKeyIdNeverVerifies(c: Crypto, k: Keys, history: seq<Write>)
    requires CollisionFree(c)
    requires exists w :: w in history && w.writer.Writer? && w.writer.keyId == LEGACY
    ensures !Verify(c, k, Written(c, history)).valid
  {
    RoundTrip(c, k, history);
    var w :| w in history && w.writer.Writer? && w.writer.keyId == LEGACY;
    assert !Readable(k, w.writer);
  }

  /* ---------- Tamper evidence ---------- */

  /** Agreement on every field under the hash; an empty key id column reads as `legacy`. */
  predicate SameIntegrity(a: Row, b: Row) {
    && a.sequence == b.sequence && a.fields == b.fields && a.previousHash == b.previousHash
    && a.eventHash == b.eventHash && ReadKeyId(a.keyId) == ReadKeyId(b.keyId)
  }

  lemma {:induction false} ValidMeansLinked(c: Crypto, k: Keys, head: Head, rows: seq<Row>, previousHash: string,
                                            count: int)
    requires Check(c, k, head, rows, previousHash, count).valid
    ensures head.sequence == count + |rows|
    ensures head.hash == if rows == [] then previousHash else rows[|rows| - 1].eventHash
    ensures forall i | 0 <= i < |rows| ::
              && ResolveKey(k, rows[i].keyId).Some?
              && LinkHolds(c, ResolveKey(k, rows[i].keyId).value, rows[i],
                           if i == 0 then previousHash else rows[i - 1].eventHash, count + i + 1)
  {
    if rows != [] {
      ValidMeansLinked(c, k, head, rows[1..], rows[0].eventHash, count + 1);
      forall i | 0 < i < |rows|
        ensures ResolveKey(k, rows[i].keyId).Some?
        ensures LinkHolds(c, ResolveKey(k, rows[i].keyId).value, rows[i], rows[i - 1].eventHash, count + i + 1)
      {
        assert rows[1..][i - 1] == rows[i];
        assert i > 1 ==> rows[1..][i - 2] == rows[i - 1];
      }
    }
  }

  /** A log whose rows all link is checked to its end, and then the head decides. */
  lemma {:induction false} CheckToTheEnd(c: Crypto, k: Keys, head: Head, rows: seq<Row>, i: nat)
    requires i <= |rows| && forall j: nat | j < |rows| :: LinkedAt(c, k, rows, j)
    ensures var agrees := head == Head(|rows|, HashBefore(rows, |rows|));
            Check(c, k, head, rows[i..], HashBefore(rows, i), i) ==
              Verification(agrees, |rows|, |rows|, if agrees then None else Some(|rows| + 1),
                           Some(HashBefore(rows, |rows|)), Checked)
    decreases |rows| - i
  {
    if i < |rows| {
      assert rows[i..][0] == rows[i] && rows[i..][1..] == rows[i + 1..];
      assert LinkedAt(c, k, rows, i);
      CheckToTheEnd(c, k, head, rows, i + 1);
    }
  }

  /**
   Otherwise it stops at the first row that does not link, and says which one it
   is, how many were checked before it, and whether its key is missing.
   */
  lemma {:induction false} CheckStopsAtFirst(c: Crypto, k: Keys, head: Head, rows: seq<Row>, i: nat, bad: nat)
    requires i <= bad < |rows| && !LinkedAt(c, k, rows, bad)
    requires forall j: nat | j < bad :: LinkedAt(c, k, rows, j)
    ensures var missing := ResolveKey(k, rows[bad].keyId).None?;
            Check(c, k, head, rows[i..], HashBefore(rows, i), i) ==
              Verification(false, head.sequence, bad, Some(rows[bad].sequence), None,
                           if missing then KeyUnavailable(ReadKeyId(rows[bad].keyId)) else ChainMismatch)
    decreases bad - i
  {
    assert rows[i..][0] == rows[i] && rows[i..][1..] == rows[i + 1..];
    if i < bad {
      assert LinkedAt(c, k, rows, i);
      CheckStopsAtFirst(c, k, head, rows, i + 1, bad);
    }
  }

  /** Equal hashes mean equal payloads, so equal rows and equal predecessors. */
  lemma EqualLink(c: Crypto, key: string, a: Row, previousHash: string, head: Head, w: Write)
    requires CollisionFree(c)
    requires LinkHolds(c, key, a, previousHash, head.sequence + 1)
    requires a.eventHash == NewRow(c, head, w).eventHash
    ensures SameIntegrity(a, NewRow(c, head, w)) && previousHash == head.hash
  {
    var b := NewRow(c, head, w);
    var wrote := Payload(b.sequence, b.fields, head.hash,
                         if w.writer.LegacyWriter? then None else Some(w.writer.keyId));
    assert !Collides(c, key, ReadPayload(a, previousHash), w.writer.key, wrote);
  }

  ghost predicate LinkedAt(c: Crypto, k: Keys, rows: seq<Row>, i: nat)
    requires i < |rows|
  {
    && ResolveKey(k, rows[i].keyId).Some?
    && LinkHolds(c, ResolveKey(k, rows[i].keyId).value, rows[i], HashBefore(rows, i), i + 1)
  }

  /** Equal hashes at row `n` force equal rows from there down to the first. */
  lemma {:induction false} EqualDownTheChain(c: Crypto, k: Keys, history: seq<Write>, rows: seq<Row>,
                                             honest: seq<Row>, n: nat)
    requires CollisionFree(c) && HonestRows(c, history, honest) && n <= |rows| == |honest|
    requires forall i | 0 <= i < |rows| :: LinkedAt(c, k, rows, i)
    requires HashBefore(rows, n) == HashBefore(honest, n)
    ensures forall i | 0 <= i < n :: SameIntegrity(rows[i], honest[i])
  {
    if n > 0 {
      var i := n - 1;
      assert LinkedAt(c, k, rows, i) && HonestAt(c, history, honest, i);
      EqualLink(c, ResolveKey(k, rows[i].keyId).value, rows[i], HashBefore(rows, i),
                Head(i, HashBefore(honest, i)), history[i]);
      EqualDownTheChain(c, k, history, rows, honest, i);
    }
  }

  /**
   Tamper evidence: with the head record untouched, if verification reports
   valid then the stored rows up to the head are the appended rows, in order
   and number, on every integrity field. So an edit, deletion, insertion,
   reordering or truncation below the head is always reported.
   */
  lemma TamperEvidence(c: Crypto, k: Keys, history: seq<Write>, stored: seq<Row>)
    requires CollisionFree(c)
    requires Verify(c, k, Log(stored, Written(c, history).head)).valid
    ensures var found := Selected(stored, |history|);
            && |found| == |history| == |Written(c, history).rows|
            && forall i | 0 <= i < |history| :: SameIntegrity(found[i], Written(c, history).rows[i])
  {
    WrittenShape(c, history);
    var head := Written(c, history).head;
    var found := Selected(stored, |history|);
    ValidMeansLinked(c, k, head, found, "", 0);
    assert forall i | 0 <= i < |found| :: LinkedAt(c, k, found, i);
    EqualDownTheChain(c, k, history, found, Written(c, history).rows, |history|);
  }

  /** What verification does not see: rows beyond the head are not even read. */
  lemma BeyondHeadIsIgnored(c: Crypto, k: Keys, log: Log, extra: seq<Row>)
    requires forall r | r in extra :: r.sequence > log.head.sequence
    ensures Verify(c, k, Log(log.rows + extra, log.head)) == Verify(c, k, log)
  {
    SelectedOfConcat(log.rows, extra, log.head.sequence);
  }

  lemma {:induction false} SelectedOfConcat(rows: seq<Row>, extra: seq<Row>, limit: int)
    requires forall r | r in extra :: r.sequence > limit
    ensures Selected(rows + extra, limit) == Selected(rows, limit)
  {
    if rows == [] {
      assert rows + extra == extra;
      NothingSelected(extra, limit);
    } else {
      assert (rows + extra)[0] == rows[0] && (rows + extra)[1..] == rows[1..] + extra;
      SelectedOfConcat(rows[1..], extra, limit);
    }
  }

  lemma {:induction false} NothingSelected(extra: seq<Row>, limit: int)
    requires forall r | r in extra :: r.sequence > limit
    ensures Selected(extra, limit) == []
  {
    if extra != [] {
      NothingSelected(extra[1..], limit);
    }
  }
}
