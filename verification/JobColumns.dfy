/**
 What the statements of the queue do to a row, column by column, and when the
 row can be claimed afterwards.
 */
module JobColumns {
  import opened Common
  import opened JobTable

  /** The value itself inside the bounds, and the nearer bound outside. */
  predicate Nearest(stored: int, low: int, high: int, value: int) {
    && low <= stored <= high
    && (low <= value <= high ==> stored == value)
    && (value < low ==> stored == low) && (value > high ==> stored == high)
  }

  /** What a caller of `enqueue` finds stored. */
  lemma EnqueuedRow(t: Table, id: JobId, r: Request, now: int)
    requires Matches(t, Insert(id, r, now))
    ensures var row := Apply(t, Insert(id, r, now))[id];
            && row.kind == r.kind && row.payload == r.payload && Kept(row.createdBy, r.createdBy, 256)
            && (row.key.Some? <==> r.key.Some? && r.key.value != "")
            && (row.key.Some? ==> Kept(row.key.value, r.key.value, 256))
            && Nearest(row.priority, 0, 1000, r.priority) && Nearest(row.maxAttempts, 1, 20, r.maxAttempts)
            && row.status.Queued? && row.attempts == 0 && row.createdAt == row.availableAt == now
            && row.owner.None? && row.leaseExpires.None? && row.startedAt.None? && row.completedAt.None?
            && row.result.None? && row.failure.None?
    ensures forall other | other in t :: Apply(t, Insert(id, r, now))[other] == t[other]
  {
  }

  /** Of every column, which statements change it and to what. */
  ghost predicate ColumnsChange(b: Job, st: Statement, a: Job) {
    && a.attempts == (if st.Claim? then b.attempts + 1 else if st.Retry? then 0 else b.attempts)
    && a.startedAt == (if st.Claim? && b.startedAt.None? then Some(st.now) else b.startedAt)
    && a.result == (if st.Complete? then Some(st.result) else b.result)
    && (if st.Fail?
        then a.failure.Some? && Kept(a.failure.value.code, st.failure.code, 128)
             && Kept(a.failure.value.message, st.failure.message, 1000)
        else a.failure == if st.Claim? || st.Retry? then None else b.failure)
    && a.completedAt == (if st.Complete? || st.Cancel? || (st.Fail? && !st.retry) then Some(st.now)
                         else if st.Fail? || st.Retry? then None else b.completedAt)
    && (if st.Claim? then a.owner.Some? && Kept(a.owner.value, st.worker, 256)
        else a.owner == if st.Renew? || st.Cancel? then b.owner else None)
    && a.leaseExpires == (if st.Claim? || st.Renew? then Some(st.expires)
                          else if st.Cancel? then b.leaseExpires else None)
    && a.availableAt == (if st.Fail? then st.availableAt else if st.Retry? then st.now else b.availableAt)
    && a.status == (if st.Claim? then Running else if st.Complete? then Completed else if st.Cancel? then Cancelled
                    else if st.Retry? || (st.Fail? && st.retry) then Queued else if st.Fail? then Failed else b.status)
    && SameRequest(a, b)
  }

  lemma ColumnsOfStatement(t: Table, st: Statement)
    requires Matches(t, st) && !st.Insert?
    ensures ColumnsChange(t[st.id], st, Apply(t, st)[st.id])
    ensures forall other | other in t && other != st.id :: Apply(t, st)[other] == t[other]
  {
  }

  /** Which rows each statement selects, by their status and owner. */
  lemma SelectedRows(t: Table, st: Statement)
    requires TableInv(t)
    ensures match st
            case Insert(id, r, _) =>
              Matches(t, st) <==>
                r.kind == "apk_analysis" && id !in t
                && (r.key.Some? && r.key.value != "" ==>
                      forall k | k in t && t[k].key.Some? :: !Kept(t[k].key.value, r.key.value, 256))
            case Claim(id, _, now, _) =>
              Matches(t, st) <==>
                id in t && t[id].attempts < t[id].maxAttempts && t[id].availableAt <= now
                && !t[id].status.Completed? && !t[id].status.Failed? && !t[id].status.Cancelled?
                && (t[id].leaseExpires.Some? ==> t[id].leaseExpires.value < now)
            case Renew(id, w, _) => Matches(t, st) <==> Owns(t, w, id)
            case Complete(id, w, _, _) => Matches(t, st) <==> Owns(t, w, id)
            case Fail(id, w, _, _, _, _) => Matches(t, st) <==> Owns(t, w, id)
            case Cancel(id, _) => Matches(t, st) <==> id in t && t[id].status.Queued?
            case Retry(id, _) =>
              Matches(t, st) <==>
                id in t && !t[id].status.Queued? && !t[id].status.Running? && !t[id].status.Completed?
  {
    assert st.id in t ==> RowInv(t[st.id]);
    if st.Insert? && HasKey(st.request) {
      assert |"apk_analysis"| == 12;
      forall k | k in t && t[k].key.Some?
        ensures Kept(t[k].key.value, st.request.key.value, 256) <==> t[k].key == StoredKey(st.request)
      {
        KeptIsClip(t[k].key.value, st.request.key.value, 256);
      }
    }
  }

  lemma KeptIsClip(column: string, text: string, width: nat)
    ensures Kept(column, text, width) <==> column == Clip(text, width)
  {
    if Kept(column, text, width) {
      assert column == text[..|column|];
    }
  }

  /**
   From when on a row can be claimed after a statement: a new or requeued row
   at once, a failed turn's row after its delay, a claimed row past its lease
   while attempts are left, and a finished row never.
   */
  lemma ClaimableAfter(t: Table, st: Statement, now: int)
    requires TableInv(t) && FreshDecision(t, st) && Matches(t, st)
    ensures var row := Apply(t, st)[st.id];
            match st
            case Insert(_, _, at) => Eligible(row, now) <==> at <= now
            case Retry(_, at) => Eligible(row, now) <==> at <= now
            case Fail(_, _, retry, at, _, _) => Eligible(row, now) <==> retry && at <= now
            case Claim(_, _, _, expires) =>
              Eligible(row, now) <==> t[st.id].attempts + 1 < row.maxAttempts && row.availableAt <= now && expires < now
            case Renew(_, _, expires) =>
              Eligible(row, now) <==> row.attempts < row.maxAttempts && row.availableAt <= now && expires < now
            case Complete(_, _, _, _) => !Eligible(row, now)
            case Cancel(_, _) => !Eligible(row, now)
  {
    ApplyKeepsTableInv(t, st);
    assert RowInv(Apply(t, st)[st.id]);
    assert st.id in t ==> RowInv(t[st.id]);
  }

  /** Of two jobs that can be claimed, one of larger priority value, or as urgent and younger, is not the next. */
  lemma LessUrgentWaits(t: Table, a: JobId, b: JobId, now: int)
    requires a in t && b in t && Eligible(t[a], now)
    requires t[a].priority < t[b].priority || (t[a].priority == t[b].priority && t[a].createdAt < t[b].createdAt)
    ensures !IsNextClaim(t, b, now)
  {
  }

  /**
   The order from the caller's side: two jobs submitted to a queue in which
   nothing else can be claimed are claimed by the requested priority, the
   smaller value first, and by age when that is the same.
   */
  lemma ClaimedInRequestedOrder(t: Table, a: JobId, ra: Request, na: int, b: JobId, rb: Request, nb: int, now: int)
    requires Matches(t, Insert(a, ra, na)) && Matches(Apply(t, Insert(a, ra, na)), Insert(b, rb, nb))
    requires forall id | id in t :: !Eligible(t[id], now)
    requires na <= now && nb <= now && 0 <= ra.priority <= 1000 && 0 <= rb.priority <= 1000
    requires ra.priority < rb.priority || (ra.priority == rb.priority && na < nb)
    ensures var t' := Apply(Apply(t, Insert(a, ra, na)), Insert(b, rb, nb));
            forall id :: IsNextClaim(t', id, now) <==> id == a
  {
    var t1 := Apply(t, Insert(a, ra, na));
    var t' := Apply(t1, Insert(b, rb, nb));
    EnqueuedRow(t, a, ra, na);
    EnqueuedRow(t1, b, rb, nb);
    hide Apply, Matches;
    assert t'.Keys == t.Keys + {a, b} by {
      KeysAfterInsert(t, a, ra, na);
      KeysAfterInsert(t1, b, rb, nb);
    }
    assert t'[a] == t1[a] && Eligible(t'[a], now);
    LessUrgentWaits(t', a, b, now);
    forall id | id in t ensures !Eligible(t'[id], now) {
      assert t'[id] == t1[id] == t[id];
    }
  }

  lemma KeysAfterInsert(t: Table, id: JobId, r: Request, now: int)
    requires Matches(t, Insert(id, r, now))
    ensures Apply(t, Insert(id, r, now)).Keys == t.Keys + {id}
  {
  }
}
