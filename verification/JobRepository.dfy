/**
 `JobRepository`: the object whose methods are the transactions and reads on
 the jobs table, and `DurableWorker`, whose turn is a series of them. Between
 two transactions of one caller any other party may run; `Interfere` stands for
 those statements, so every postcondition below holds under every interleaving.
 */
module JobRepository {
  import opened Common
  import opened JobTable

  /** Result of `enqueue`: the row and the created flag, or the exception raised. */
  datatype EnqueueResult =
    | Enqueued(id: JobId, created: bool)
    | IdempotencyConflict
    | InvalidJobKind
    | DatabaseError

  datatype Decision = Decision(retry: bool, availableAt: int)

  /** A keyed request equal to the one that made the row. */
  predicate SamePayload(row: Job, request: Request) {
    row.kind == request.kind && row.payload == request.payload
  }

  /** The row carries the key of the request and was made by a different one. */
  predicate Clashes(row: Job, request: Request) {
    row.key == request.key && !SamePayload(row, request)
  }

  predicate KeyHeld(t: Table, key: string) {
    exists id :: id in t && t[id].key == Some(key)
  }

  class JobRepository {
    var jobs: Table

    constructor ()
      ensures jobs == map[]
    {
      jobs := map[];
    }

    /** Other parties' transactions, in the order the database serialised them. */
    method Interfere(sts: seq<Statement>)
      modifies this
      ensures jobs == ApplyAll(old(jobs), sts)
    {
      jobs := ApplyAll(jobs, sts);
    }

    method FindByIdempotencyKey(key: string) returns (found: Option<JobId>)
      ensures found.None? <==> !KeyHeld(jobs, key)
      ensures found.Some? ==> found.value in jobs && jobs[found.value].key == Some(key)
    {
      if exists id :: id in jobs && jobs[id].key == Some(key) {
        var id :| id in jobs && jobs[id].key == Some(key);
        found := Some(id);
      } else {
        found := None;
      }
    }

    /** The INSERT of `enqueue`; `false` is the constraint violation it raises. */
    method InsertJob(id: JobId, request: Request, now: int) returns (inserted: bool)
      modifies this
      ensures inserted == Matches(old(jobs), Insert(id, request, now))
      ensures jobs == Apply(old(jobs), Insert(id, request, now))
    {
      inserted := request.kind == JOB_KIND && id !in jobs && KeyFree(jobs, StoredKey(request));
      if inserted {
        jobs := jobs[id := NewRow(request, now)];
      }
    }

    /** `_idempotent_result`: never a new row, and a conflict exactly when kind or payload differ. */
    method IdempotentResult(id: JobId, request: Request) returns (r: EnqueueResult)
      requires id in jobs
      ensures r == IdempotencyConflict || r == Enqueued(id, false)
      ensures r.Enqueued? <==> SamePayload(jobs[id], request)
    {
      if jobs[id].kind != request.kind || jobs[id].payload != request.payload {
        r := IdempotencyConflict;
      } else {
        r := Enqueued(id, false);
      }
    }

    /**
     `enqueue`: search, insert, and on a refused insert search again. `before`
     and `between` run after the first search and after a refused insert.
     */
    method Enqueue(request: Request, id: JobId, now: int, before: seq<Statement>, between: seq<Statement>)
      returns (r: EnqueueResult)
      modifies this
      ensures request.kind != JOB_KIND ==> r == InvalidJobKind && jobs == old(jobs)
      ensures r.Enqueued? && r.created ==>
                && r.id == id
                && Matches(ApplyAll(old(jobs), before), Insert(id, request, now))
                && jobs == Apply(ApplyAll(old(jobs), before), Insert(id, request, now))
      ensures r.Enqueued? && !r.created ==>
                && HasKey(request) && r.id in jobs
                && jobs[r.id].key == request.key && SamePayload(jobs[r.id], request)
      ensures r == IdempotencyConflict ==>
                HasKey(request) && exists other :: other in jobs && Clashes(jobs[other], request)
      ensures !(r.Enqueued? && r.created) ==>
                || jobs == old(jobs)
                || jobs == ApplyAll(ApplyAll(old(jobs), before), between)
      ensures r == DatabaseError ==> !Matches(ApplyAll(old(jobs), before), Insert(id, request, now))
    {
      if request.kind != JOB_KIND {
        return InvalidJobKind;
      }
      if HasKey(request) {
        var existing := FindByIdempotencyKey(request.key.value);
        if existing.Some? {
          r := IdempotentResult(existing.value, request);
          return;
        }
      }
      Interfere(before);
      var inserted := InsertJob(id, request, now);
      if inserted {
        return Enqueued(id, true);
      }
      Interfere(between);
      if HasKey(request) {
        var existing := FindByIdempotencyKey(request.key.value);
        if existing.Some? {
          r := IdempotentResult(existing.value, request);
          return;
        }
      }
      r := DatabaseError;
    }

    /** `claim`: the next eligible row becomes the worker's, or nothing changes. */
    method Claim(worker: string, now: int, leaseFrom: int, leaseSeconds: int) returns (claimed: Option<JobId>)
      modifies this
      ensures claimed.None? <==> forall id | id in old(jobs) :: !Eligible(old(jobs)[id], now)
      ensures claimed.None? ==> jobs == old(jobs)
      ensures claimed.Some? ==>
                && IsNextClaim(old(jobs), claimed.value, now)
                && jobs == Apply(old(jobs),
                                 JobTable.Claim(claimed.value, worker, now, leaseFrom + leaseSeconds * SECOND))
    {
      if exists id :: id in jobs && Eligible(jobs[id], now) {
        ClaimFindsOne(jobs, now);
        var id :| id in jobs && IsNextClaim(jobs, id, now);
        var row := jobs[id];
        jobs := jobs[id := row.(status := Running, owner := Some(Tag(worker)),
                                leaseExpires := Some(leaseFrom + leaseSeconds * SECOND),
                                attempts := row.attempts + 1, failure := None,
                                startedAt := if row.startedAt.Some? then row.startedAt else Some(now))];
        claimed := Some(id);
      } else {
        claimed := None;
      }
    }

    method RenewLease(id: JobId, worker: string, now: int, leaseSeconds: int) returns (renewed: bool)
      modifies this
      ensures renewed <==> Matches(old(jobs), Renew(id, worker, now + Max(5, leaseSeconds) * SECOND))
      ensures jobs == Apply(old(jobs), Renew(id, worker, now + Max(5, leaseSeconds) * SECOND))
    {
      renewed := id in jobs && jobs[id].status.Running? && jobs[id].owner == Some(Tag(worker));
      if renewed {
        jobs := jobs[id := jobs[id].(leaseExpires := Some(now + Max(5, leaseSeconds) * SECOND))];
      }
    }

    /** `false` is the ValidationError raised when no row was updated. */
    method Complete(id: JobId, worker: Option<string>, result: string, now: int) returns (done: bool)
      modifies this
      ensures done <==> id in old(jobs) && old(jobs)[id].status.Running? && OwnerClause(old(jobs)[id], worker)
      ensures jobs == if done then old(jobs)[id := CompletedRow(old(jobs)[id], result, now)] else old(jobs)
      ensures worker.Some? && worker.value != "" ==>
                jobs == Apply(old(jobs), JobTable.Complete(id, worker.value, result, now))
    {
      done := id in jobs && jobs[id].status.Running? && OwnerClause(jobs[id], worker);
      if done {
        jobs := jobs[id := jobs[id].(status := Completed, result := Some(result), completedAt := Some(now),
                                     owner := None, leaseExpires := None)];
      }
    }

    /** The read half of `fail`; `None` is NotFoundError. */
    method DecideFailure(id: JobId, now: int, retryDelaySeconds: int) returns (d: Option<Decision>)
      ensures d.None? <==> id !in jobs
      ensures d.Some? ==> d.value.retry == (jobs[id].attempts < jobs[id].maxAttempts)
      ensures d.Some? ==> d.value.availableAt == now + Max(0, retryDelaySeconds) * SECOND
    {
      if id in jobs {
        d := Some(Decision(jobs[id].attempts < jobs[id].maxAttempts, now + Max(0, retryDelaySeconds) * SECOND));
      } else {
        d := None;
      }
    }

    /** The write half of `fail`, in a later transaction. */
    method RecordFailure(id: JobId, worker: Option<string>, d: Decision, failure: Failure, now: int)
      returns (done: bool)
      modifies this
      ensures done <==> id in old(jobs) && OwnerClause(old(jobs)[id], worker)
      ensures jobs == if done then old(jobs)[id := FailedRow(old(jobs)[id], d.retry, d.availableAt, now, failure)]
                      else old(jobs)
      ensures worker.Some? && worker.value != "" ==>
                jobs == Apply(old(jobs), Fail(id, worker.value, d.retry, d.availableAt, now, failure))
    {
      done := id in jobs && OwnerClause(jobs[id], worker);
      if done {
        jobs := jobs[id := jobs[id].(status := if d.retry then Queued else Failed, availableAt := d.availableAt,
                                     completedAt := if d.retry then None else Some(now),
                                     failure := Some(Failure(Clip(failure.code, 128), Clip(failure.message, 1000))),
                                     owner := None, leaseExpires := None)];
      }
    }

    method Cancel(id: JobId, now: int) returns (done: bool)
      modifies this
      ensures done <==> Matches(old(jobs), JobTable.Cancel(id, now))
      ensures jobs == Apply(old(jobs), JobTable.Cancel(id, now))
    {
      done := id in jobs && jobs[id].status.Queued?;
      if done {
        jobs := jobs[id := jobs[id].(status := Cancelled, completedAt := Some(now))];
      }
    }

    method Retry(id: JobId, now: int) returns (done: bool)
      modifies this
      ensures done <==> Matches(old(jobs), JobTable.Retry(id, now))
      ensures jobs == Apply(old(jobs), JobTable.Retry(id, now))
    {
      done := id in jobs && (jobs[id].status.Failed? || jobs[id].status.Cancelled?);
      if done {
        jobs := jobs[id := jobs[id].(status := Queued, attempts := 0, availableAt := now, completedAt := None,
                                     owner := None, leaseExpires := None, failure := None)];
      }
    }
  }

  /** How the job body of one turn ends. */
  datatype Outcome = Succeeded(result: string) | Raised(failure: Failure)

  /** The clock readings of one turn, in the order they are taken. */
  datatype Clock = Clock(claimAt: int, leaseFrom: int, completeAt: int, decideAt: int, failAt: int)

  const RETRY_DELAY := 30
  const COMPLETE_REFUSED := Failure("job_not_running", "Only a running job can be completed")

  /** What the worker's constructor falls back to when it gets no worker id, or an empty one, is never empty. */
  type WorkerId = id: string | id != "" witness "host:1"

  class DurableWorker {
    const workerId: WorkerId
    const repository: JobRepository
    const leaseSeconds: int

    constructor (repository: JobRepository, workerId: Option<string>, host: string, pid: string, leaseSeconds: int)
      ensures this.repository == repository && this.leaseSeconds == leaseSeconds
      ensures workerId.Some? && workerId.value != "" ==> this.workerId == workerId.value
      ensures workerId.None? || workerId.value == "" ==> this.workerId == host + ":" + pid
    {
      this.repository := repository;
      this.workerId := if workerId.Some? && workerId.value != "" then workerId.value else host + ":" + pid;
      this.leaseSeconds := leaseSeconds;
    }

    /**
     `process_next`. The three gaps are what runs beside the turn, other parties
     and the worker's own heartbeat: while the job runs, between a refused
     completion and the read half of `fail`, and between its two halves. Either
     the worker still owns the row it claimed and its outcome is recorded with
     the verdict the row's own attempt counter asks for, or another party took
     the row and the whole turn leaves no trace.
     */
    method ProcessNext(outcome: Outcome, clock: Clock,
                       running: seq<Statement>, refused: seq<Statement>, split: seq<Statement>)
        returns (processed: bool, claimed: Option<JobId>)
      requires TableInv(repository.jobs)
      requires forall st | st in running + refused + split :: Concurrent(st, workerId)
      modifies repository
      ensures processed == claimed.Some?
      ensures processed <==> exists id ::
                id in old(repository.jobs) && Eligible(old(repository.jobs)[id], clock.claimAt)
      ensures !processed ==> repository.jobs == old(repository.jobs)
      ensures processed ==>
                var id := claimed.value;
                var t0 := old(repository.jobs);
                && IsNextClaim(t0, id, clock.claimAt)
                && var expires := clock.leaseFrom + leaseSeconds * SECOND;
                   var t1 := Apply(t0, JobTable.Claim(id, workerId, clock.claimAt, expires));
                   var t2 := ApplyAll(t1, running);
                   var t3 := ApplyAll(t2, refused + split);
                   && id in t2 && id in t3
                   && (outcome.Succeeded? && Owns(t2, workerId, id) ==>
                        repository.jobs == t2[id := t1[id].(status := Completed, result := Some(outcome.result),
                                                            completedAt := Some(clock.completeAt),
                                                            owner := None, leaseExpires := None)])
                   && (!Owns(t2, workerId, id) ==> repository.jobs == t3)
                   && (outcome.Raised? && !Owns(t3, workerId, id) ==> repository.jobs == t3)
                   && (outcome.Raised? && Owns(t3, workerId, id) ==>
                        var retry := t1[id].attempts < t1[id].maxAttempts;
                        repository.jobs ==
                          t3[id := t1[id].(status := if retry then Queued else Failed,
                                           availableAt := clock.decideAt + RETRY_DELAY * SECOND,
                                           completedAt := if retry then None else Some(clock.failAt),
                                           failure := Some(Failure(Clip(outcome.failure.code, 128),
                                                                   Clip(outcome.failure.message, 1000))),
                                           owner := None, leaseExpires := None)])
    {
      hide ApplyAll, Concurrent;
      ghost var t0 := repository.jobs;
      claimed := repository.Claim(workerId, clock.claimAt, clock.leaseFrom, leaseSeconds);
      if claimed.None? {
        return false, None;
      }
      processed := true;
      var id := claimed.value;
      ghost var st1 := JobTable.Claim(id, workerId, clock.claimAt, clock.leaseFrom + leaseSeconds * SECOND);
      ghost var t1 := repository.jobs;
      ApplyKeepsTableInv(t0, st1);
      repository.Interfere(running);
      ghost var t2 := repository.jobs;
      OwnershipOnlyByClaim(t1, running, workerId, id);
      var failure := COMPLETE_REFUSED;
      if outcome.Succeeded? {
        var done := repository.Complete(id, Some(workerId), outcome.result, clock.completeAt);
        if done {
          ReachesBoth(t2, refused, split, id);
          return;
        }
      } else {
        failure := outcome.failure;
      }
      assert repository.jobs == t2;
      repository.Interfere(refused);
      ghost var tr := repository.jobs;
      var decision := repository.DecideFailure(id, clock.decideAt, RETRY_DELAY);
      repository.Interfere(split);
      ghost var t3 := repository.jobs;
      AppliedInTwoParts(t2, refused, split);
      ReachesBoth(t2, refused, split, id);
      if Owns(t2, workerId, id) {
        OwnedThroughout(t2, refused, workerId, id);
        if Owns(tr, workerId, id) {
          OwnedThroughout(tr, split, workerId, id);
        } else {
          NeverRegained(tr, split, workerId, id);
        }
      } else {
        NeverRegained(t2, refused, workerId, id);
        NeverRegained(tr, split, workerId, id);
      }
      if decision.Some? {
        var recorded := repository.RecordFailure(id, Some(workerId), decision.value, failure, clock.failAt);
      }
    }
  }

  lemma {:induction false} AppliedInTwoParts(t: Table, a: seq<Statement>, b: seq<Statement>)
    ensures ApplyAll(t, a + b) == ApplyAll(ApplyAll(t, a), b)
    decreases |a|
  {
    if a == [] {
      assert a + b == b;
    } else {
      assert (a + b)[0] == a[0] && (a + b)[1..] == a[1..] + b;
      AppliedInTwoParts(Apply(t, a[0]), a[1..], b);
    }
  }

  lemma {:induction false} RowsStay(t: Table, sts: seq<Statement>, id: JobId)
    requires id in t
    ensures id in ApplyAll(t, sts) && SameRequest(t[id], ApplyAll(t, sts)[id])
    decreases |sts|
  {
    if sts != [] {
      RequestsAreKept(t, id, sts[0]);
      RowsStay(Apply(t, sts[0]), sts[1..], id);
    }
  }

  lemma ReachesBoth(t: Table, a: seq<Statement>, b: seq<Statement>, id: JobId)
    requires id in t
    ensures id in ApplyAll(t, a) && id in ApplyAll(t, a + b)
  {
    RowsStay(t, a, id);
    RowsStay(t, a + b, id);
  }
}
