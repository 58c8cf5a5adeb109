/**
 The queue as a protocol: any number of workers, each one sequential process
 with its own id, an admin, submitters and a clock, interleaved in any order.
 A run is any sequence of events. An event that is not possible where it occurs
 changes nothing, so the theorems quantify over all sequences.
 */
module QueueProtocol {
  import opened Common
  import opened JobTable

  /** Where a worker is in `process_next`. */
  datatype Phase =
    | Idle
    | Working(job: JobId, leaseFrom: int)  // heartbeat on; last expiry was computed from `leaseFrom`
    | Failing(job: JobId)                  // an exception is being handled
    | Decided(job: JobId, retry: bool, availableAt: int)  // between the two halves of `fail`

  datatype State = State(jobs: Table, workers: map<string, Phase>, clock: int, leaseSeconds: int)

  datatype Event =
    | Tick(micros: nat)
    | Submit(newId: JobId, request: Request)
    | TryClaim(worker: string, target: JobId, asOf: int, leaseFrom: int)
    | Heartbeat(worker: string, target: JobId, asOf: int)
    | Finish(worker: string, result: string)
    | Abort(worker: string)
    | DecideFail(worker: string, delaySeconds: int)
    | RecordFail(worker: string, failure: Failure)
    | Die(worker: string)
    | AdminCancel(target: JobId)
    | AdminRetry(target: JobId)

  function PhaseOf(s: State, worker: string): Phase {
    if worker in s.workers then s.workers[worker] else Idle
  }

  /** A reading of the clock taken before the transaction that uses it. */
  function Reading(s: State, asOf: int): int {
    Min(asOf, s.clock)
  }

  function JobOf(p: Phase): Option<JobId> {
    if p.Idle? then None else Some(p.job)
  }

  /** The write statement an event issues in a state, if it is possible there. */
  function StatementOf(s: State, e: Event): Option<Statement> {
    match e
    case Submit(id, request) => Some(Insert(id, request, s.clock))
    case TryClaim(w, id, asOf, leaseFrom) =>
      if w in s.workers && s.workers[w].Idle?
      then Some(Claim(id, w, Reading(s, asOf), Reading(s, leaseFrom) + s.leaseSeconds * SECOND))
      else None
    case Heartbeat(w, id, asOf) =>
      if w in s.workers
      then Some(Renew(id, w, Reading(s, asOf) + Max(5, s.leaseSeconds) * SECOND))
      else None
    case Finish(w, result) =>
      if PhaseOf(s, w).Working? then Some(Complete(PhaseOf(s, w).job, w, result, s.clock)) else None
    case RecordFail(w, failure) =>
      if PhaseOf(s, w).Decided?
      then var p := PhaseOf(s, w); Some(Fail(p.job, w, p.retry, p.availableAt, s.clock, failure))
      else None
    case AdminCancel(id) => Some(Cancel(id, s.clock))
    case AdminRetry(id) => Some(Retry(id, s.clock))
    case _ => None
  }

  predicate Effective(s: State, e: Event) {
    StatementOf(s, e).Some? && Matches(s.jobs, StatementOf(s, e).value)
  }

  function JobsAfter(s: State, e: Event): Table {
    if StatementOf(s, e).Some? then Apply(s.jobs, StatementOf(s, e).value) else s.jobs
  }

  function PhaseAfter(s: State, e: Event, w: string): Phase {
    var p := PhaseOf(s, w);
    match e
    case TryClaim(v, id, _, leaseFrom) =>
      if v == w && Effective(s, e) then Working(id, Reading(s, leaseFrom)) else p
    case Heartbeat(v, id, asOf) =>
      if v == w && p.Working? && p.job == id && Effective(s, e) then Working(id, Reading(s, asOf)) else p
    case Finish(v, _) =>
      if v == w && p.Working? then (if Effective(s, e) then Idle else Failing(p.job)) else p
    case Abort(v) => if v == w && p.Working? then Failing(p.job) else p
    case DecideFail(v, delay) =>
      if v != w || !p.Failing? then p
      else if p.job !in s.jobs then Idle
      else Decided(p.job, s.jobs[p.job].attempts < s.jobs[p.job].maxAttempts, s.clock + Max(0, delay) * SECOND)
    case RecordFail(v, _) => if v == w && p.Decided? then Idle else p
    case Die(v) => if v == w then Idle else p
    case _ => p
  }

  function Step(s: State, e: Event): State {
    State(JobsAfter(s, e),
          map w | w in s.workers :: PhaseAfter(s, e, w),
          if e.Tick? then s.clock + e.micros else s.clock,
          s.leaseSeconds)
  }

  function Run(s: State, es: seq<Event>): State
    decreases |es|
  {
    if es == [] then s else Run(Step(s, es[0]), es[1..])
  }

  /** An empty queue and its workers. */
  function Start(workers: set<string>, leaseSeconds: int): State {
    State(map[], map w | w in workers :: Idle, 0, leaseSeconds)
  }

  /* ---------- The invariant ---------- */

  /** Worker ids are non-empty and stay distinct when cut to the column width. */
  ghost predicate DistinctWorkers(workers: set<string>) {
    && "" !in workers
    && forall v, w | v in workers && w in workers && Tag(v) == Tag(w) :: v == w
  }

  ghost predicate PhaseInv(s: State, w: string)
    requires w in s.workers
  {
    var p := s.workers[w];
    && (!p.Idle? ==> p.job in s.jobs)
    && (p.Decided? && Owns(s.jobs, w, p.job) ==>
          p.retry == (s.jobs[p.job].attempts < s.jobs[p.job].maxAttempts))
    && (p.Working? && Owns(s.jobs, w, p.job) ==>
          && s.jobs[p.job].leaseExpires.Some?
          && s.jobs[p.job].leaseExpires.value >= p.leaseFrom + s.leaseSeconds * SECOND)
  }

  ghost predicate Inv(s: State) {
    && TableInv(s.jobs)
    && DistinctWorkers(s.workers.Keys)
    && forall w | w in s.workers :: PhaseInv(s, w)
  }

  lemma DecisionIsFresh(s: State, e: Event)
    requires Inv(s) && StatementOf(s, e).Some?
    ensures FreshDecision(s.jobs, StatementOf(s, e).value)
  {
    if e.RecordFail? && e.worker in s.workers {
      assert PhaseInv(s, e.worker);
    }
  }

  /** No event makes a worker the owner of a job it is not claiming. */
  lemma OwnershipStep(s: State, e: Event, w: string, id: JobId)
    requires Inv(s) && w in s.workers && id in s.jobs
    requires !(e.TryClaim? && e.worker == w && PhaseOf(s, w).Idle?)
    requires Owns(JobsAfter(s, e), w, id)
    ensures Owns(s.jobs, w, id)
    ensures JobsAfter(s, e)[id].attempts == s.jobs[id].attempts
    ensures JobsAfter(s, e)[id].maxAttempts == s.jobs[id].maxAttempts
    ensures JobsAfter(s, e)[id].leaseExpires == s.jobs[id].leaseExpires
              || (e.Heartbeat? && e.worker == w && e.target == id && Effective(s, e))
  {
    assert RowInv(s.jobs[id]);
    if e.TryClaim? && e.worker in s.workers {
      assert Tag(e.worker) == Tag(w) ==> e.worker == w;
    }
    if e.Heartbeat? && e.worker in s.workers {
      assert Tag(e.worker) == Tag(w) ==> e.worker == w;
    }
    if e.Finish? && PhaseOf(s, e.worker).Working? {
      assert Tag(e.worker) == Tag(w) ==> e.worker == w;
    }
    if e.RecordFail? && PhaseOf(s, e.worker).Decided? {
      assert Tag(e.worker) == Tag(w) ==> e.worker == w;
    }
  }

  lemma PhaseInvStep(s: State, e: Event, w: string)
    requires Inv(s) && w in s.workers
    ensures PhaseInv(Step(s, e), w)
  {
    var s' := Step(s, e);
    var p, p' := s.workers[w], s'.workers[w];
    assert PhaseInv(s, w);
    if e.TryClaim? && e.worker == w && p.Idle? {
    } else if !p'.Idle? {
      assert p'.job == p.job && p.job in s.jobs;
      if Owns(s'.jobs, w, p'.job) {
        OwnershipStep(s, e, w, p'.job);
        assert RowInv(s.jobs[p.job]);
      }
    }
  }

  lemma InvStep(s: State, e: Event)
    requires Inv(s)
    ensures Inv(Step(s, e))
  {
    var s' := Step(s, e);
    if StatementOf(s, e).Some? {
      DecisionIsFresh(s, e);
      ApplyKeepsTableInv(s.jobs, StatementOf(s, e).value);
    }
    assert s'.workers.Keys == s.workers.Keys;
    forall w | w in s'.workers ensures PhaseInv(s', w) {
      PhaseInvStep(s, e, w);
    }
  }

  lemma {:induction false} InvRun(s: State, es: seq<Event>)
    requires Inv(s)
    ensures Inv(Run(s, es))
    decreases |es|
  {
    if es != [] {
      InvStep(s, es[0]);
      InvRun(Step(s, es[0]), es[1..]);
    }
  }

  /** Every reachable row meets the row invariant, whatever the interleaving. */
  lemma QueueInvariant(workers: set<string>, leaseSeconds: int, es: seq<Event>)
    requires DistinctWorkers(workers)
    ensures forall id | id in Run(Start(workers, leaseSeconds), es).jobs ::
              RowInv(Run(Start(workers, leaseSeconds), es).jobs[id])
  {
    InvRun(Start(workers, leaseSeconds), es);
  }

  /** A completed job keeps its result and every other column for ever. */
  lemma {:induction false} CompletedForever(s: State, es: seq<Event>, id: JobId)
    requires Inv(s) && id in s.jobs && s.jobs[id].status.Completed?
    ensures id in Run(s, es).jobs && Run(s, es).jobs[id] == s.jobs[id]
    decreases |es|
  {
    if es != [] {
      if StatementOf(s, es[0]).Some? {
        CompletedIsAbsorbing(s.jobs, id, StatementOf(s, es[0]).value);
      }
      InvStep(s, es[0]);
      CompletedForever(Step(s, es[0]), es[1..], id);
    }
  }

  /* ---------- Fencing ---------- */

  predicate IsBy(e: Event, w: string) {
    match e
    case TryClaim(v, _, _, _) => v == w
    case Heartbeat(v, _, _) => v == w
    case Finish(v, _) => v == w
    case Abort(v) => v == w
    case DecideFail(v, _) => v == w
    case RecordFail(v, _) => v == w
    case Die(v) => v == w
    case _ => false
  }

  /** The worker is in a turn on a job whose row names another owner, or none. */
  predicate Fenced(s: State, w: string, id: JobId) {
    w in s.workers && JobOf(PhaseOf(s, w)) == Some(id) && id in s.jobs && !Owns(s.jobs, w, id)
  }

  /** Up to the end of the turn, the row is untouched by every event of the worker. */
  predicate TurnLeavesRow(s: State, es: seq<Event>, w: string, id: JobId)
    decreases |es|
  {
    es == [] || PhaseOf(s, w).Idle? || (
      var s' := Step(s, es[0]);
      && (IsBy(es[0], w) ==> id in s.jobs && id in s'.jobs && s'.jobs[id] == s.jobs[id])
      && TurnLeavesRow(s', es[1..], w, id))
  }

  /** Another worker's claim of the job a worker is busy with fences that worker. */
  lemma ReclaimFences(s: State, e: Event, w: string, id: JobId)
    requires Inv(s) && w in s.workers && JobOf(PhaseOf(s, w)) == Some(id)
    requires e.TryClaim? && e.worker != w && e.target == id && Effective(s, e)
    ensures Fenced(Step(s, e), w, id)
  {
    assert Tag(e.worker) != Tag(w);
  }

  lemma FencedStep(s: State, e: Event, w: string, id: JobId)
    requires Inv(s) && Fenced(s, w, id)
    ensures Fenced(Step(s, e), w, id) || PhaseOf(Step(s, e), w).Idle?
    ensures IsBy(e, w) ==> id in Step(s, e).jobs && Step(s, e).jobs[id] == s.jobs[id]
  {
    var s' := Step(s, e);
    assert RowInv(s.jobs[id]);
    if StatementOf(s, e).Some? {
      RequestsAreKept(s.jobs, id, StatementOf(s, e).value);
    }
    if Owns(s'.jobs, w, id) {
      OwnershipStep(s, e, w, id);
    }
  }

  /**
   From the moment a worker has lost its job, nothing it does in the rest of
   that turn (renewal, completion, either half of `fail`) touches the row,
   whatever the others do in between.
   */
  lemma {:induction false} FencedForTheTurn(s: State, es: seq<Event>, w: string, id: JobId)
    requires Inv(s) && Fenced(s, w, id)
    ensures TurnLeavesRow(s, es, w, id)
    decreases |es|
  {
    if es != [] {
      FencedStep(s, es[0], w, id);
      InvStep(s, es[0]);
      if !PhaseOf(Step(s, es[0]), w).Idle? {
        FencedForTheTurn(Step(s, es[0]), es[1..], w, id);
      } else {
        IdleEndsTurn(Step(s, es[0]), es[1..], w, id);
      }
    }
  }

  lemma IdleEndsTurn(s: State, es: seq<Event>, w: string, id: JobId)
    requires PhaseOf(s, w).Idle?
    ensures TurnLeavesRow(s, es, w, id)
  {
  }

  /* ---------- Bounded work ---------- */

  /** What is left of a row's attempts, counting the attempt in progress. */
  function Measure(job: Job): int {
    2 * (job.maxAttempts - job.attempts) + (if job.status.Running? then 1 else 0)
  }

  lemma MeasureDecreases(t: Table, st: Statement)
    requires TableInv(t) && Matches(t, st)
    ensures st.Claim? || st.Fail? || st.Complete? ==>
              0 <= Measure(Apply(t, st)[st.id]) < Measure(t[st.id])
    ensures st.Renew? || st.Cancel? ==> Measure(Apply(t, st)[st.id]) == Measure(t[st.id])
    ensures st.Retry? ==> Measure(Apply(t, st)[st.id]) == 2 * t[st.id].maxAttempts
  {
    if st.id in t {
      assert RowInv(t[st.id]);
    }
  }

  predicate IsClaimOf(s: State, e: Event, id: JobId) {
    e.TryClaim? && e.target == id && Effective(s, e)
  }

  predicate IsRetryOf(s: State, e: Event, id: JobId) {
    e.AdminRetry? && e.target == id && Effective(s, e)
  }

  function Claims(s: State, es: seq<Event>, id: JobId): nat
    decreases |es|
  {
    if es == [] then 0
    else (if IsClaimOf(s, es[0], id) then 1 else 0) + Claims(Step(s, es[0]), es[1..], id)
  }

  function Retries(s: State, es: seq<Event>, id: JobId): nat
    decreases |es|
  {
    if es == [] then 0
    else (if IsRetryOf(s, es[0], id) then 1 else 0) + Retries(Step(s, es[0]), es[1..], id)
  }

  /** Attempts left to a job; a job not yet submitted has its whole limit. */
  function AttemptsLeft(s: State, id: JobId, limit: int): int {
    if id in s.jobs then s.jobs[id].maxAttempts - s.jobs[id].attempts else limit
  }

  lemma BudgetStep(s: State, e: Event, id: JobId, limit: int)
    requires Inv(s)
    requires id in Step(s, e).jobs ==> Step(s, e).jobs[id].maxAttempts == limit
    ensures (if IsClaimOf(s, e, id) then 1 else 0) + AttemptsLeft(Step(s, e), id, limit)
              <= AttemptsLeft(s, id, limit) + (if IsRetryOf(s, e, id) then limit else 0)
  {
    if id in s.jobs {
      assert RowInv(s.jobs[id]);
      if StatementOf(s, e).Some? {
        RequestsAreKept(s.jobs, id, StatementOf(s, e).value);
      }
    }
  }

  lemma OneMore(count: nat, limit: int)
    ensures (count + 1) * limit == count * limit + limit
  {
  }

  lemma {:induction false} ClaimsBounded(s: State, es: seq<Event>, id: JobId, limit: int)
    requires Inv(s)
    requires id in Run(s, es).jobs && Run(s, es).jobs[id].maxAttempts == limit
    ensures Claims(s, es, id) <= Retries(s, es, id) * limit + AttemptsLeft(s, id, limit)
    decreases |es|
  {
    if es == [] {
      assert RowInv(s.jobs[id]);
    } else {
      var s' := Step(s, es[0]);
      if id in s'.jobs {
        RowsKept(s', es[1..], id);
      }
      BudgetStep(s, es[0], id, limit);
      InvStep(s, es[0]);
      ClaimsBounded(s', es[1..], id, limit);
      OneMore(Retries(s', es[1..], id), limit);
    }
  }

  lemma {:induction false} RowsKept(s: State, es: seq<Event>, id: JobId)
    requires id in s.jobs
    ensures id in Run(s, es).jobs && SameRequest(s.jobs[id], Run(s, es).jobs[id])
    decreases |es|
  {
    if es != [] {
      if StatementOf(s, es[0]).Some? {
        RequestsAreKept(s.jobs, id, StatementOf(s, es[0]).value);
      }
      RowsKept(Step(s, es[0]), es[1..], id);
    }
  }

  /** A history with r admin retries claims a job at most (r + 1) * max_attempts times. */
  lemma AttemptBudget(workers: set<string>, leaseSeconds: int, es: seq<Event>, id: JobId)
    requires DistinctWorkers(workers)
    requires id in Run(Start(workers, leaseSeconds), es).jobs
    ensures var s := Start(workers, leaseSeconds);
            Claims(s, es, id) <= (Retries(s, es, id) + 1) * Run(s, es).jobs[id].maxAttempts
  {
    var s := Start(workers, leaseSeconds);
    InvRun(s, es);
    assert RowInv(Run(s, es).jobs[id]);
    var limit := Run(s, es).jobs[id].maxAttempts;
    ClaimsBounded(s, es, id, limit);
    OneMore(Retries(s, es, id), limit);
  }

  /* ---------- The limit of recovery ---------- */

  /** The last attempt of a job belongs to a worker that is no longer busy with it. */
  predicate Stranded(s: State, w: string, id: JobId) {
    && w in s.workers && JobOf(PhaseOf(s, w)) != Some(id)
    && Owns(s.jobs, w, id) && s.jobs[id].status.Running?
    && s.jobs[id].attempts == s.jobs[id].maxAttempts
  }

  lemma StrandedRowStep(s: State, e: Event, w: string, id: JobId)
    requires Inv(s) && Stranded(s, w, id)
    ensures id in JobsAfter(s, e) && SameButLease(JobsAfter(s, e)[id], s.jobs[id])
  {
    assert RowInv(s.jobs[id]);
    assert forall v | v in s.workers && Tag(v) == Tag(w) :: v == w;
  }

  /**
   A worker that dies on the last attempt leaves the job running for ever: the
   claim query skips it and neither the admin nor any worker can move it. So
   there is no unconditional liveness, only the bound above.
   */
  lemma {:induction false} StrandedForever(s: State, es: seq<Event>, w: string, id: JobId)
    requires Inv(s) && Stranded(s, w, id)
    ensures Stranded(Run(s, es), w, id)
    decreases |es|
  {
    if es != [] {
      var s' := Step(s, es[0]);
      StrandedRowStep(s, es[0], w, id);
      InvStep(s, es[0]);
      assert RowInv(s'.jobs[id]);
      assert JobOf(PhaseAfter(s, es[0], w)) != Some(id);
      StrandedForever(s', es[1..], w, id);
    }
  }

  /** The worker is away from a running job that its id still owns: it died, or its turn ended abnormally. */
  predicate Abandoned(s: State, w: string, id: JobId) {
    w in s.workers && JobOf(PhaseOf(s, w)) != Some(id) && Owns(s.jobs, w, id) && s.jobs[id].status.Running?
  }

  lemma {:induction false} NeverClaimedAgain(s: State, es: seq<Event>, w: string, id: JobId)
    requires Inv(s) && Stranded(s, w, id)
    ensures Claims(s, es, id) == 0
    decreases |es|
  {
    if es != [] {
      StrandedForever(s, es[..1], w, id);
      assert Run(s, es[..1]) == Step(s, es[0]) by {
        assert es[..1][1..] == [];
        assert Run(Step(s, es[0]), []) == Step(s, es[0]);
      }
      InvStep(s, es[0]);
      NeverClaimedAgain(Step(s, es[0]), es[1..], w, id);
    }
  }

  /** While attempts are left, the same worker restarted can claim the job once its lease is past. */
  lemma RecoveryRun(s: State, w: string, id: JobId) returns (es: seq<Event>)
    requires Inv(s) && Abandoned(s, w, id) && s.jobs[id].attempts < s.jobs[id].maxAttempts
    ensures Claims(s, es, id) > 0
  {
    assert RowInv(s.jobs[id]);
    var row := s.jobs[id];
    var due := Max(row.availableAt, row.leaseExpires.value + 1);
    var wait: nat := Max(0, due - s.clock);
    var die, tick := Die(w), Tick(wait);
    var s1 := Step(s, die);
    var s2 := Step(s1, tick);
    var claim := TryClaim(w, id, s2.clock, s2.clock);
    assert s2.jobs == s.jobs && s2.workers[w] == Idle && s2.clock >= due;
    assert IsClaimOf(s2, claim, id);
    es := [die, tick, claim];
    assert es[1..] == [tick, claim] && es[1..][1..] == [claim];
    assert Claims(s2, [claim], id) >= 1;
    assert Claims(s1, [tick, claim], id) >= 1;
    assert Claims(s, es, id) >= 1;
  }

  /**
   An abandoned job can be claimed again in some continuation if and only if it
   has attempts left. So the claim query's guard on attempts is the whole limit
   of recovery: the last attempt is the one that cannot be recovered.
   */
  lemma RecoverableIffAttemptsLeft(s: State, w: string, id: JobId)
    requires Inv(s) && Abandoned(s, w, id)
    ensures (exists es :: Claims(s, es, id) > 0) <==> s.jobs[id].attempts < s.jobs[id].maxAttempts
  {
    assert RowInv(s.jobs[id]);
    if s.jobs[id].attempts < s.jobs[id].maxAttempts {
      var es := RecoveryRun(s, w, id);
    } else {
      forall es ensures Claims(s, es, id) == 0 {
        NeverClaimedAgain(s, es, w, id);
      }
    }
  }

  /** Stranded states do occur: one submission with a single attempt, one claim, one death. */
  lemma StrandedIsReachable(w: string, id: JobId, request: Request, leaseSeconds: int)
    requires request.kind == JOB_KIND && request.maxAttempts <= 1
    ensures Stranded(Run(Start({w}, leaseSeconds), [Submit(id, request), TryClaim(w, id, 0, 0), Die(w)]), w, id)
  {
    var s := Start({w}, leaseSeconds);
    var submit, claim, die := Submit(id, request), TryClaim(w, id, 0, 0), Die(w);
    var s1 := Step(s, submit);
    assert s1.jobs == map[id := NewRow(request, 0)];
    var s2 := Step(s1, claim);
    assert Effective(s1, claim);
    assert Owns(s2.jobs, w, id) && s2.jobs[id].attempts == 1 == s2.jobs[id].maxAttempts;
    var s3 := Step(s2, die);
    assert Stranded(s3, w, id);
    assert [submit, claim, die][1..] == [claim, die] && [claim, die][1..] == [die] && [die][1..] == [];
    assert Run(s3, []) == s3;
    assert Run(s2, [die]) == s3;
    assert Run(s1, [claim, die]) == s3;
  }
}
