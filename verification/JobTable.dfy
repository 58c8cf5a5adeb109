/**
 The `jobs` table and the write statements of `JobRepository`. One `Statement`
 is one transaction; `Apply` is what the database does with it, including
 leaving the table alone when the WHERE clause selects no row.

 Times are instants in microseconds (see Timestamps for the text columns).
 */
module JobTable {
  import opened Common

  datatype Status = Queued | Running | Completed | Failed | Cancelled

  type JobId = string

  datatype Failure = Failure(code: string, message: string)

  datatype Job = Job(
    kind: string,
    payload: string,
    key: Option<string>,
    priority: int,
    maxAttempts: int,
    createdBy: string,
    createdAt: int,
    status: Status,
    attempts: int,
    availableAt: int,
    owner: Option<string>,
    leaseExpires: Option<int>,
    startedAt: Option<int>,
    completedAt: Option<int>,
    result: Option<string>,
    failure: Option<Failure>)

  type Table = map<JobId, Job>

  /** What a caller of `enqueue` asks for; `payload` is the canonical JSON text. */
  datatype Request = Request(
    kind: string,
    payload: string,
    createdBy: string,
    priority: int,
    maxAttempts: int,
    key: Option<string>)

  const KEY_WIDTH: nat := 256
  const WORKER_WIDTH: nat := 256
  const JOB_KIND := "apk_analysis"
  const SECOND := 1_000_000

  datatype Statement =
    | Insert(id: JobId, request: Request, now: int)
    | Claim(id: JobId, worker: string, now: int, expires: int)
    | Renew(id: JobId, worker: string, expires: int)
    | Complete(id: JobId, worker: string, result: string, now: int)
    | Fail(id: JobId, worker: string, retry: bool, availableAt: int, now: int, failure: Failure)
    | Cancel(id: JobId, now: int)
    | Retry(id: JobId, now: int)

  /** The owner text stored for a worker id. */
  function Tag(worker: string): string {
    Clip(worker, WORKER_WIDTH)
  }

  /** An empty idempotency key counts as no key. */
  predicate HasKey(request: Request) {
    request.key.Some? && request.key.value != ""
  }

  function StoredKey(request: Request): Option<string> {
    if HasKey(request) then Some(Clip(request.key.value, KEY_WIDTH)) else None
  }

  function Clamp(low: int, high: int, value: int): int {
    Max(low, Min(high, value))
  }

  function NewRow(request: Request, now: int): Job {
    Job(request.kind, request.payload, StoredKey(request), Clamp(0, 1000, request.priority),
        Clamp(1, 20, request.maxAttempts), Clip(request.createdBy, 256), now,
        Queued, 0, now, None, None, None, None, None, None)
  }

  /** The UNIQUE constraint on the idempotency key column. */
  predicate KeyFree(t: Table, key: Option<string>) {
    key.Some? ==> forall id | id in t :: t[id].key != key
  }

  /** The WHERE clause of the claim query. */
  predicate Eligible(job: Job, now: int) {
    && job.attempts < job.maxAttempts
    && job.availableAt <= now
    && (job.status.Queued? || (job.status.Running? && job.leaseExpires.Some? && job.leaseExpires.value < now))
  }

  /** Whether the statement changes the table. */
  predicate Matches(t: Table, st: Statement) {
    match st
    case Insert(id, request, now) =>
      request.kind == JOB_KIND && id !in t && KeyFree(t, StoredKey(request))
    case Claim(id, _, now, _) => id in t && Eligible(t[id], now)
    case Renew(id, worker, _) => id in t && t[id].status.Running? && t[id].owner == Some(Tag(worker))
    case Complete(id, worker, _, _) => id in t && t[id].status.Running? && t[id].owner == Some(Tag(worker))
    case Fail(id, worker, _, _, _, _) => id in t && t[id].owner == Some(Tag(worker))
    case Cancel(id, _) => id in t && t[id].status.Queued?
    case Retry(id, _) => id in t && (t[id].status.Failed? || t[id].status.Cancelled?)
  }

  function CompletedRow(job: Job, result: string, now: int): Job {
    job.(status := Completed, result := Some(result), completedAt := Some(now), owner := None, leaseExpires := None)
  }

  function FailedRow(job: Job, retry: bool, availableAt: int, now: int, failure: Failure): Job {
    job.(status := if retry then Queued else Failed, availableAt := availableAt,
         completedAt := if retry then None else Some(now),
         failure := Some(Failure(Clip(failure.code, 128), Clip(failure.message, 1000))),
         owner := None, leaseExpires := None)
  }

  function RowAfter(t: Table, st: Statement): Job
    requires Matches(t, st)
  {
    match st
    case Insert(_, request, now) => NewRow(request, now)
    case Claim(id, worker, now, expires) =>
      t[id].(status := Running, owner := Some(Tag(worker)), leaseExpires := Some(expires),
             attempts := t[id].attempts + 1, failure := None,
             startedAt := if t[id].startedAt.Some? then t[id].startedAt else Some(now))
    case Renew(id, _, expires) => t[id].(leaseExpires := Some(expires))
    case Complete(id, _, result, now) => CompletedRow(t[id], result, now)
    case Fail(id, _, retry, availableAt, now, failure) => FailedRow(t[id], retry, availableAt, now, failure)
    case Cancel(id, now) => t[id].(status := Cancelled, completedAt := Some(now))
    case Retry(id, now) =>
      t[id].(status := Queued, attempts := 0, availableAt := now, completedAt := None,
             owner := None, leaseExpires := None, failure := None)
  }

  function Apply(t: Table, st: Statement): Table {
    if Matches(t, st) then t[st.id := RowAfter(t, st)] else t
  }

  function ApplyAll(t: Table, sts: seq<Statement>): Table
    decreases |sts|
  {
    if sts == [] then t else ApplyAll(Apply(t, sts[0]), sts[1..])
  }

  /* ---------- The row invariant ---------- */

  ghost predicate RowInv(job: Job) {
    && 0 <= job.priority <= 1000 && 1 <= job.maxAttempts <= 20
    && 0 <= job.attempts <= job.maxAttempts
    && (job.status.Running? <==> job.owner.Some?)
    && (job.owner.Some? <==> job.leaseExpires.Some?)
    && (job.status.Running? ==> job.attempts > 0 && job.startedAt.Some? && job.failure.None?)
    && (job.status.Queued? || job.status.Cancelled? ==> job.attempts < job.maxAttempts)
    && (job.status.Failed? ==> job.attempts == job.maxAttempts && job.failure.Some?)
    && (job.status.Completed? <==> job.result.Some?)
    && (job.completedAt.Some? <==> job.status.Completed? || job.status.Failed? || job.status.Cancelled?)
  }

  ghost predicate TableInv(t: Table) {
    forall id | id in t :: RowInv(t[id])
  }

  /** The read half of `fail` agrees with the row the write half finds. */
  predicate FreshDecision(t: Table, st: Statement) {
    st.Fail? && Matches(t, st) ==> st.retry == (t[st.id].attempts < t[st.id].maxAttempts)
  }

  lemma ApplyKeepsTableInv(t: Table, st: Statement)
    requires TableInv(t) && FreshDecision(t, st)
    ensures TableInv(Apply(t, st))
  {
    if Matches(t, st) {
      assert st.id in t ==> RowInv(t[st.id]);
      assert RowInv(RowAfter(t, st));
    }
  }

  /** A stale decision is not harmless: a row may end up failed with attempts to spare. */
  lemma StaleDecisionBreaksRows(t: Table, st: Statement)
    requires TableInv(t) && st.Fail? && Matches(t, st)
    ensures TableInv(Apply(t, st)) <==> FreshDecision(t, st)
  {
    assert RowInv(t[st.id]);
    assert Apply(t, st)[st.id] == RowAfter(t, st);
    if FreshDecision(t, st) {
      ApplyKeepsTableInv(t, st);
    }
  }

  /** Completed rows are final: no statement selects them. */
  lemma CompletedIsAbsorbing(t: Table, id: JobId, st: Statement)
    requires TableInv(t) && id in t && t[id].status.Completed?
    ensures id in Apply(t, st) && Apply(t, st)[id] == t[id]
  {
    assert RowInv(t[id]);
  }

  /** `complete` and `fail` leave the owner out of their WHERE clause when they get no worker id. */
  predicate OwnerClause(job: Job, worker: Option<string>) {
    worker.None? || worker.value == "" || job.owner == Some(Tag(worker.value))
  }

  /**
   Without a worker id `fail` selects the row in whatever state it is.  A fresh
   decision then still keeps the row invariant of queued, running, failed and
   cancelled rows, and never that of a completed one, which loses its finality.
   With a worker id no completed row is selected at all.
   */
  lemma FailKeepsRowsIff(t: Table, id: JobId, worker: Option<string>, availableAt: int, now: int, failure: Failure)
    requires TableInv(t) && id in t && OwnerClause(t[id], worker)
    ensures TableInv(t[id := FailedRow(t[id], t[id].attempts < t[id].maxAttempts, availableAt, now, failure)]) <==>
              !t[id].status.Completed?
    ensures worker.Some? && worker.value != "" ==> t[id].status.Running?
  {
    assert RowInv(t[id]);
    var row := FailedRow(t[id], t[id].attempts < t[id].maxAttempts, availableAt, now, failure);
    assert RowInv(row) <==> !t[id].status.Completed?;
    assert t[id := row][id] == row;
  }

  /** Rows are never deleted and what `enqueue` wrote of them is never rewritten. */
  predicate SameRequest(a: Job, b: Job) {
    && a.kind == b.kind && a.payload == b.payload && a.key == b.key && a.priority == b.priority
    && a.maxAttempts == b.maxAttempts && a.createdBy == b.createdBy && a.createdAt == b.createdAt
  }

  lemma RequestsAreKept(t: Table, id: JobId, st: Statement)
    requires id in t
    ensures id in Apply(t, st) && SameRequest(t[id], Apply(t, st)[id])
  {
  }

  /* ---------- Ownership ---------- */

  /**
   A statement that may run beside a worker's turn: anything another party
   issues, and any lease renewal, the worker's own heartbeat included.
   */
  predicate Concurrent(st: Statement, worker: string) {
    match st
    case Claim(_, w, _, _) => Tag(w) != Tag(worker)
    case Complete(_, w, _, _) => Tag(w) != Tag(worker)
    case Fail(_, w, _, _, _, _) => Tag(w) != Tag(worker)
    case _ => true
  }

  predicate SameButLease(a: Job, b: Job) {
    a == b.(leaseExpires := a.leaseExpires)
  }

  predicate Owns(t: Table, worker: string, id: JobId) {
    id in t && t[id].owner == Some(Tag(worker))
  }

  lemma ConcurrentStepOnOwnedRow(t: Table, st: Statement, worker: string, id: JobId)
    requires id in t && RowInv(t[id]) && Concurrent(st, worker)
    ensures id in Apply(t, st)
    ensures Owns(Apply(t, st), worker, id) ==> SameButLease(Apply(t, st)[id], t[id]) && RowInv(Apply(t, st)[id])
  {
    if Matches(t, st) && st.id == id && !st.Renew? {
      assert !Owns(Apply(t, st), worker, id);
    }
  }

  lemma {:induction false} NeverRegained(t: Table, sts: seq<Statement>, worker: string, id: JobId)
    requires id in t && !Owns(t, worker, id)
    requires forall st | st in sts :: Concurrent(st, worker)
    ensures id in ApplyAll(t, sts) && !Owns(ApplyAll(t, sts), worker, id)
    decreases |sts|
  {
    if sts != [] {
      assert sts[0] in sts;
      NeverRegained(Apply(t, sts[0]), sts[1..], worker, id);
    }
  }

  lemma {:induction false} OwnedThroughout(t: Table, sts: seq<Statement>, worker: string, id: JobId)
    requires Owns(t, worker, id) && RowInv(t[id])
    requires forall st | st in sts :: Concurrent(st, worker)
    ensures id in ApplyAll(t, sts)
    ensures Owns(ApplyAll(t, sts), worker, id) ==>
              SameButLease(ApplyAll(t, sts)[id], t[id]) && RowInv(ApplyAll(t, sts)[id])
    decreases |sts|
  {
    if sts != [] {
      assert sts[0] in sts;
      ConcurrentStepOnOwnedRow(t, sts[0], worker, id);
      var t' := Apply(t, sts[0]);
      if Owns(t', worker, id) {
        OwnedThroughout(t', sts[1..], worker, id);
      } else {
        NeverRegained(t', sts[1..], worker, id);
      }
    }
  }

  /**
   No concurrent statement hands ownership to a worker; and while the worker
   does keep ownership, nothing but the expiry of the lease moves in its row.
   */
  lemma OwnershipOnlyByClaim(t: Table, sts: seq<Statement>, worker: string, id: JobId)
    requires id in t && RowInv(t[id])
    requires forall st | st in sts :: Concurrent(st, worker)
    ensures id in ApplyAll(t, sts)
    ensures Owns(ApplyAll(t, sts), worker, id) ==>
              Owns(t, worker, id) && SameButLease(ApplyAll(t, sts)[id], t[id]) && RowInv(ApplyAll(t, sts)[id])
  {
    if Owns(t, worker, id) {
      OwnedThroughout(t, sts, worker, id);
    } else {
      NeverRegained(t, sts, worker, id);
    }
  }

  /* ---------- Which job a claim takes ---------- */

  predicate Precedes(a: Job, b: Job) {
    a.priority < b.priority || (a.priority == b.priority && a.createdAt <= b.createdAt)
  }

  /** ORDER BY priority ASC, created_at ASC LIMIT 1 over the eligible rows. */
  predicate IsNextClaim(t: Table, id: JobId, now: int) {
    && id in t && Eligible(t[id], now)
    && forall other | other in t && Eligible(t[other], now) :: Precedes(t[id], t[other])
  }

  lemma {:induction false} FirstOf(t: Table, ids: set<JobId>) returns (first: JobId)
    requires ids != {} && ids <= t.Keys
    ensures first in ids && forall other | other in ids :: Precedes(t[first], t[other])
    decreases |ids|
  {
    first :| first in ids;
    var rest := ids - {first};
    if rest != {} {
      var best := FirstOf(t, rest);
      if Precedes(t[best], t[first]) {
        first := best;
      }
    }
  }

  /** Some eligible row means some row the claim query returns. */
  lemma ClaimFindsOne(t: Table, now: int)
    requires exists id :: id in t && Eligible(t[id], now)
    ensures exists id :: IsNextClaim(t, id, now)
  {
    var ids := set id | id in t && Eligible(t[id], now);
    var some :| some in t && Eligible(t[some], now);
    assert some in ids;
    var first := FirstOf(t, ids);
    assert IsNextClaim(t, first, now);
  }
}
