/**
 Timed safety of leases: how late a heartbeat may be before another worker can
 take the job. All parties read one clock, the clock of the run.
 */
module LeaseTiming {
  import opened Common
  import opened JobTable
  import opened QueueProtocol

  /** Seconds between heartbeats for a lease of `lease` seconds. */
  function Interval(lease: int): real {
    var third := lease as real / 3.0;
    var atLeastTwo := if third < 2.0 then 2.0 else third;
    if atLeastTwo > 60.0 then 60.0 else atLeastTwo
  }

  /** The lateness of a heartbeat that a lease tolerates, in seconds. */
  function Slack(lease: int): real {
    lease as real - Interval(lease)
  }

  /** Three seconds is the least whole lease that tolerates any lateness at all. */
  lemma SlackIsPositive(lease: int)
    ensures Slack(lease) > 0.0 <==> lease >= 3
    ensures Slack(lease) >= 0.0 <==> lease >= 2
    ensures Interval(lease) >= 2.0
  {
  }

  /** A third of the lease, but never more often than every two seconds nor more seldom than every minute. */
  lemma IntervalIs(lease: int)
    ensures lease <= 6 ==> Interval(lease) == 2.0
    ensures 6 <= lease <= 180 ==> Interval(lease) * 3.0 == lease as real
    ensures lease >= 180 ==> Interval(lease) == 60.0
    ensures Slack(lease) + Interval(lease) == lease as real
  {
  }

  /**
   While the heartbeat of worker `w` runs on job `id`, no renewal is ever more
   than `late` seconds behind its due time, which is one interval after the
   reading the current expiry was computed from.
   */
  predicate PunctualNow(s: State, w: string, id: JobId, late: real) {
    PhaseOf(s, w).Working? && PhaseOf(s, w).job == id ==>
      (s.clock - PhaseOf(s, w).leaseFrom) as real <= (Interval(s.leaseSeconds) + late) * SECOND as real
  }

  predicate Punctual(s: State, es: seq<Event>, w: string, id: JobId, late: real)
    decreases |es|
  {
    && PunctualNow(s, w, id, late)
    && (es == [] || Punctual(Step(s, es[0]), es[1..], w, id, late))
  }

  predicate WorksOn(s: State, w: string, id: JobId) {
    w in s.workers && PhaseOf(s, w).Working? && PhaseOf(s, w).job == id
  }

  /** Until the worker leaves its job body, it owns the running row and no claim selects that row. */
  predicate LeaseHeld(s: State, es: seq<Event>, w: string, id: JobId)
    decreases |es|
  {
    WorksOn(s, w, id) ==>
      && Owns(s.jobs, w, id) && s.jobs[id].status.Running?
      && (es != [] ==>
            && !IsClaimOf(s, es[0], id)
            && LeaseHeld(Step(s, es[0]), es[1..], w, id))
  }

  lemma UnexpiredRowIsNotClaimed(s: State, e: Event, w: string, id: JobId, late: real)
    requires Inv(s) && WorksOn(s, w, id) && Owns(s.jobs, w, id)
    requires late <= Slack(s.leaseSeconds) && PunctualNow(s, w, id, late)
    ensures !IsClaimOf(s, e, id)
  {
    assert PhaseInv(s, w) && RowInv(s.jobs[id]);
    var from := PhaseOf(s, w).leaseFrom;
    var allowed := (Interval(s.leaseSeconds) + late) * SECOND as real;
    assert allowed <= s.leaseSeconds as real * SECOND as real;
    assert (s.clock - from) as real <= (s.leaseSeconds * SECOND) as real;
    assert s.clock <= s.jobs[id].leaseExpires.value;
  }

  lemma OwnedRowIsKept(s: State, e: Event, w: string, id: JobId)
    requires Inv(s) && WorksOn(s, w, id) && Owns(s.jobs, w, id) && !IsClaimOf(s, e, id)
    requires WorksOn(Step(s, e), w, id)
    ensures Owns(Step(s, e).jobs, w, id)
  {
    assert RowInv(s.jobs[id]);
    assert forall v | v in s.workers && Tag(v) == Tag(w) :: v == w;
  }

  /**
   If every heartbeat of a worker is at most `Slack` late, then over the whole
   run, whatever the other parties do, the worker keeps its lease from its
   claim to the end of the job body: no other claim can select the job.
   */
  lemma {:induction false} PunctualHeartbeatKeepsLease(s: State, es: seq<Event>, w: string, id: JobId, late: real)
    requires Inv(s) && (WorksOn(s, w, id) ==> Owns(s.jobs, w, id))
    requires late <= Slack(s.leaseSeconds) && Punctual(s, es, w, id, late)
    ensures LeaseHeld(s, es, w, id)
    decreases |es|
  {
    if WorksOn(s, w, id) {
      assert RowInv(s.jobs[id]);
      if es != [] {
        UnexpiredRowIsNotClaimed(s, es[0], w, id, late);
        InvStep(s, es[0]);
        if WorksOn(Step(s, es[0]), w, id) {
          OwnedRowIsKept(s, es[0], w, id);
        }
        PunctualHeartbeatKeepsLease(Step(s, es[0]), es[1..], w, id, late);
      }
    }
  }

  /**
   The lease from the claim on: in any run, a claim that takes effect is
   followed by a held lease for as long as the heartbeats are punctual.
   */
  lemma ClaimedLeaseIsKept(workers: set<string>, leaseSeconds: int, before: seq<Event>, e: Event, after: seq<Event>,
                           late: real)
    requires DistinctWorkers(workers) && late <= Slack(leaseSeconds)
    requires var s := Run(Start(workers, leaseSeconds), before);
             && e.TryClaim? && Effective(s, e)
             && Punctual(Step(s, e), after, e.worker, e.target, late)
    ensures var s' := Step(Run(Start(workers, leaseSeconds), before), e);
            WorksOn(s', e.worker, e.target) && LeaseHeld(s', after, e.worker, e.target)
  {
    var s := Run(Start(workers, leaseSeconds), before);
    InvRun(Start(workers, leaseSeconds), before);
    LeaseSecondsAreKept(Start(workers, leaseSeconds), before);
    InvStep(s, e);
    PunctualHeartbeatKeepsLease(Step(s, e), after, e.worker, e.target, late);
  }

  lemma {:induction false} LeaseSecondsAreKept(s: State, es: seq<Event>)
    ensures Run(s, es).leaseSeconds == s.leaseSeconds
    decreases |es|
  {
    if es != [] {
      LeaseSecondsAreKept(Step(s, es[0]), es[1..]);
    }
  }

  /** The bound is exact: one microsecond past the lease, a second worker's claim goes through. */
  lemma OverdueLeaseIsClaimed(s: State, w: string, id: JobId, other: string)
    requires Inv(s) && WorksOn(s, w, id) && Owns(s.jobs, w, id)
    requires s.jobs[id].leaseExpires == Some(PhaseOf(s, w).leaseFrom + s.leaseSeconds * SECOND)
    requires s.clock > PhaseOf(s, w).leaseFrom + s.leaseSeconds * SECOND
    requires other in s.workers && other != w && s.workers[other].Idle? && s.jobs[id].availableAt <= s.clock
    ensures var e := TryClaim(other, id, s.clock, s.clock);
            IsClaimOf(s, e, id) <==> s.jobs[id].attempts < s.jobs[id].maxAttempts
    ensures var e := TryClaim(other, id, s.clock, s.clock);
            IsClaimOf(s, e, id) ==> Fenced(Step(s, e), w, id)
  {
    assert RowInv(s.jobs[id]);
    var e := TryClaim(other, id, s.clock, s.clock);
    if IsClaimOf(s, e, id) {
      ReclaimFences(s, e, w, id);
    }
  }
}
