/**
 `enqueue` under concurrency: any number of callers, each between its search,
 its insert and its recovery read, interleaved with each other and with every
 other statement on the table.
 */
module IdempotentEnqueue {
  import opened Common
  import opened JobTable

  datatype Outcome =
    | Created(id: JobId)
    | Existing(id: JobId)
    | Conflict(id: JobId)
    | InvalidKind
    | Raised(keyTaken: bool)  // the database error escapes; was it the key constraint?

  datatype Call =
    | Searched(request: Request)
    | Refused(request: Request, keyTaken: bool)
    | Returned(request: Request, outcome: Outcome)

  datatype State = State(jobs: Table, calls: map<nat, Call>)

  datatype Event =
    | Begin(call: nat, request: Request)
    | TryInsert(call: nat, newId: JobId, now: int, broken: bool)  // `broken`: an unrelated database error
    | Recover(call: nat)
    | Background(statement: Statement)

  ghost predicate Holds(t: Table, key: string, id: JobId) {
    id in t && t[id].key == Some(key)
  }

  /** `find_by_idempotency_key`. */
  ghost function Lookup(t: Table, key: string): Option<JobId> {
    if exists id :: Holds(t, key, id) then var id :| Holds(t, key, id); Some(id) else None
  }

  ghost function Resolve(t: Table, id: JobId, request: Request): Outcome
    requires id in t
  {
    if t[id].kind == request.kind && t[id].payload == request.payload then Existing(id) else Conflict(id)
  }

  ghost function Search(t: Table, request: Request): Option<JobId> {
    if HasKey(request) then Lookup(t, request.key.value) else None
  }

  ghost function CallAfter(s: State, e: Event): Option<Call> {
    match e
    case Begin(c, request) =>
      if c in s.calls then None
      else if request.kind != JOB_KIND then Some(Returned(request, InvalidKind))
      else if Search(s.jobs, request).Some?
      then Some(Returned(request, Resolve(s.jobs, Search(s.jobs, request).value, request)))
      else Some(Searched(request))
    case TryInsert(c, newId, now, broken) =>
      if c !in s.calls || !s.calls[c].Searched? then None
      else var request := s.calls[c].request;
        if !broken && Matches(s.jobs, Insert(newId, request, now)) then Some(Returned(request, Created(newId)))
        else if HasKey(request) then Some(Refused(request, !KeyFree(s.jobs, StoredKey(request))))
        else Some(Returned(request, Raised(false)))
    case Recover(c) =>
      if c !in s.calls || !s.calls[c].Refused? then None
      else var request := s.calls[c].request;
        if Search(s.jobs, request).Some?
        then Some(Returned(request, Resolve(s.jobs, Search(s.jobs, request).value, request)))
        else Some(Returned(request, Raised(s.calls[c].keyTaken)))
    case Background(_) => None
  }

  ghost function JobsAfter(s: State, e: Event): Table {
    match e
    case TryInsert(c, newId, now, broken) =>
      if c in s.calls && s.calls[c].Searched? && !broken then Apply(s.jobs, Insert(newId, s.calls[c].request, now))
      else s.jobs
    case Background(st) => if st.Insert? then s.jobs else Apply(s.jobs, st)
    case _ => s.jobs
  }

  ghost function Step(s: State, e: Event): State {
    State(JobsAfter(s, e), if CallAfter(s, e).Some? then s.calls[e.call := CallAfter(s, e).value] else s.calls)
  }

  ghost function Run(s: State, es: seq<Event>): State
    decreases |es|
  {
    if es == [] then s else Run(Step(s, es[0]), es[1..])
  }

  const EMPTY := State(map[], map[])

  /* ---------- The invariant ---------- */

  ghost predicate DidCreate(s: State, c: nat, id: JobId) {
    c in s.calls && s.calls[c].Returned? && s.calls[c].outcome == Created(id)
  }

  ghost predicate UniqueKeys(t: Table) {
    forall i, j | i in t && j in t && t[i].key.Some? && t[i].key == t[j].key :: i == j
  }

  ghost predicate CallInv(t: Table, call: Call) {
    match call
    case Searched(request) => request.kind == JOB_KIND
    case Refused(request, keyTaken) =>
      HasKey(request) && request.kind == JOB_KIND && (keyTaken ==> !KeyFree(t, StoredKey(request)))
    case Returned(request, outcome) => (
      match outcome
      case Created(id) => id in t && t[id].key == StoredKey(request) && t[id].payload == request.payload
                          && t[id].kind == request.kind
      case Existing(id) => HasKey(request) && Holds(t, request.key.value, id)
                           && t[id].kind == request.kind && t[id].payload == request.payload
      case Conflict(id) => HasKey(request) && Holds(t, request.key.value, id)
                           && !(t[id].kind == request.kind && t[id].payload == request.payload)
      case InvalidKind => request.kind != JOB_KIND
      case Raised(keyTaken) => keyTaken ==> HasKey(request) && |request.key.value| > KEY_WIDTH)
  }

  ghost predicate Inv(s: State) {
    && UniqueKeys(s.jobs)
    && (forall id | id in s.jobs && s.jobs[id].key.Some? :: |s.jobs[id].key.value| <= KEY_WIDTH)
    && (forall c | c in s.calls :: CallInv(s.jobs, s.calls[c]))
    && (forall id | id in s.jobs :: exists c :: DidCreate(s, c, id))
    && (forall c, d, id | DidCreate(s, c, id) && DidCreate(s, d, id) :: c == d)
  }

  /** Every row of `t` is still there in `u` with what was requested. */
  ghost predicate Extends(t: Table, u: Table) {
    forall id | id in t :: id in u && SameRequest(t[id], u[id])
  }

  lemma CallInvKept(t: Table, u: Table, call: Call)
    requires CallInv(t, call) && Extends(t, u)
    ensures CallInv(u, call)
  {
    if call.Refused? && call.keyTaken {
      var id :| id in t && t[id].key == StoredKey(call.request);
      assert id in u && u[id].key == StoredKey(call.request);
    }
  }

  lemma TableExtends(s: State, e: Event)
    ensures Extends(s.jobs, JobsAfter(s, e))
  {
    forall id | id in s.jobs ensures id in JobsAfter(s, e) && SameRequest(s.jobs[id], JobsAfter(s, e)[id]) {
      match e
      case TryInsert(c, newId, now, broken) =>
        if c in s.calls { RequestsAreKept(s.jobs, id, Insert(newId, s.calls[c].request, now)); }
      case Background(st) => RequestsAreKept(s.jobs, id, st);
      case _ =>
    }
  }

  ghost predicate Inserts(s: State, e: Event) {
    && e.TryInsert? && !e.broken && e.call in s.calls && s.calls[e.call].Searched?
    && Matches(s.jobs, Insert(e.newId, s.calls[e.call].request, e.now))
  }

  lemma OnlyInsertsAddRows(s: State, e: Event, id: JobId)
    requires id in JobsAfter(s, e) && id !in s.jobs
    ensures Inserts(s, e) && id == e.newId
  {
  }

  lemma TableInvStep(s: State, e: Event)
    requires Inv(s)
    ensures UniqueKeys(JobsAfter(s, e))
    ensures forall id | id in JobsAfter(s, e) && JobsAfter(s, e)[id].key.Some? ::
              |JobsAfter(s, e)[id].key.value| <= KEY_WIDTH
  {
    TableExtends(s, e);
    forall i, j | i in JobsAfter(s, e) && j in JobsAfter(s, e)
                  && JobsAfter(s, e)[i].key.Some? && JobsAfter(s, e)[i].key == JobsAfter(s, e)[j].key
      ensures i == j
    {
      if i !in s.jobs { OnlyInsertsAddRows(s, e, i); }
      if j !in s.jobs { OnlyInsertsAddRows(s, e, j); }
    }
  }

  lemma NewCallInv(s: State, e: Event)
    requires Inv(s) && CallAfter(s, e).Some?
    ensures CallInv(JobsAfter(s, e), CallAfter(s, e).value)
  {
    match e
    case Begin(c, request) =>
    case TryInsert(c, newId, now, broken) =>
      assert CallInv(s.jobs, s.calls[c]);
    case Recover(c) =>
      assert CallInv(s.jobs, s.calls[c]);
      var request, taken := s.calls[c].request, s.calls[c].keyTaken;
      if Search(s.jobs, request).None? && taken {
        var id :| id in s.jobs && s.jobs[id].key == StoredKey(request);
        assert |request.key.value| <= KEY_WIDTH ==> Holds(s.jobs, request.key.value, id);
      }
    case Background(_) =>
  }

  lemma CreatorStep(s: State, e: Event, c: nat, id: JobId)
    requires Inv(s)
    ensures DidCreate(s, c, id) ==> DidCreate(Step(s, e), c, id)
    ensures DidCreate(Step(s, e), c, id) ==> DidCreate(s, c, id) || (Inserts(s, e) && e.call == c && e.newId == id)
  {
  }

  lemma InvStep(s: State, e: Event)
    requires Inv(s)
    ensures Inv(Step(s, e))
  {
    var s' := Step(s, e);
    TableExtends(s, e);
    TableInvStep(s, e);
    forall c | c in s'.calls ensures CallInv(s'.jobs, s'.calls[c]) {
      if CallAfter(s, e).Some? && c == e.call {
        NewCallInv(s, e);
      } else {
        CallInvKept(s.jobs, s'.jobs, s.calls[c]);
      }
    }
    forall id | id in s'.jobs ensures exists c :: DidCreate(s', c, id) {
      if id in s.jobs {
        var c :| DidCreate(s, c, id);
        CreatorStep(s, e, c, id);
      } else {
        OnlyInsertsAddRows(s, e, id);
        assert DidCreate(s', e.call, id);
      }
    }
    forall c, d, id | DidCreate(s', c, id) && DidCreate(s', d, id) ensures c == d {
      CreatorStep(s, e, c, id);
      CreatorStep(s, e, d, id);
      if Inserts(s, e) && e.newId == id {
        assert forall x | DidCreate(s, x, id) :: CallInv(s.jobs, s.calls[x]);
      }
    }
  }

  lemma {:induction false} InvRun(s: State, es: seq<Event>)
    requires Inv(s)
    ensures Inv(Run(s, es))
    decreases |es|
  {
    if es != [] {
      InvStep(s, es[0]);
      InvRun(Step(s, es[0]), es[1..]);
    }
  }

  /* ---------- The theorems ---------- */

  /** The callers that were told they created the job stored under a key. */
  ghost predicate CreatedUnder(s: State, c: nat, key: string) {
    c in s.calls && s.calls[c].Returned? && s.calls[c].outcome.Created? && StoredKey(s.calls[c].request) == Some(key)
  }

  /**
   At most one row ever carries a key, at most one caller is told that it
   created it, and there is such a caller exactly when there is such a row.
   */
  lemma OneCreatorPerKey(es: seq<Event>, key: string)
    ensures var s := Run(EMPTY, es);
            && (forall i, j | Holds(s.jobs, key, i) && Holds(s.jobs, key, j) :: i == j)
            && (forall c, d | CreatedUnder(s, c, key) && CreatedUnder(s, d, key) :: c == d)
            && ((exists c :: CreatedUnder(s, c, key)) <==> (exists id :: Holds(s.jobs, key, id)))
  {
    InvRun(EMPTY, es);
    var s := Run(EMPTY, es);
    forall c, d | CreatedUnder(s, c, key) && CreatedUnder(s, d, key) ensures c == d {
      assert CallInv(s.jobs, s.calls[c]) && CallInv(s.jobs, s.calls[d]);
      var i, j := s.calls[c].outcome.id, s.calls[d].outcome.id;
      assert i == j;
      assert DidCreate(s, c, i) && DidCreate(s, d, i);
    }
    if c :| CreatedUnder(s, c, key) {
      assert CallInv(s.jobs, s.calls[c]);
      assert Holds(s.jobs, key, s.calls[c].outcome.id);
    }
    if id :| Holds(s.jobs, key, id) {
      var c :| DidCreate(s, c, id);
      assert CallInv(s.jobs, s.calls[c]);
      assert CreatedUnder(s, c, key);
    }
  }

  /** Whether a call brought the key of width at most 256 that the call `c` brought. */
  ghost predicate Replays(s: State, d: nat, c: nat) {
    c in s.calls && d in s.calls && s.calls[c].Returned? && s.calls[d].Returned? && c != d
    && HasKey(s.calls[c].request) && s.calls[c].request.key == s.calls[d].request.key
    && s.calls[c].request.kind == s.calls[d].request.kind == JOB_KIND
  }

  /**
   A later or concurrent caller with the creator's key gets the creator's row if
   its request is equal, a conflict if it is not, and never a second row; unless
   the database itself failed on it.
   */
  lemma ReplayGetsTheSameRow(es: seq<Event>, c: nat, d: nat)
    requires var s := Run(EMPTY, es); Replays(s, d, c) && s.calls[c].outcome.Created?
    requires |Run(EMPTY, es).calls[c].request.key.value| <= KEY_WIDTH
    ensures var s := Run(EMPTY, es);
            var id := s.calls[c].outcome.id;
            s.calls[d].outcome ==
              if s.calls[d].outcome.Raised? then Raised(false)
              else if s.calls[d].request.payload == s.calls[c].request.payload then Existing(id)
              else Conflict(id)
  {
    InvRun(EMPTY, es);
    var s := Run(EMPTY, es);
    assert CallInv(s.jobs, s.calls[c]) && CallInv(s.jobs, s.calls[d]);
    OneCreatorPerKey(es, s.calls[c].request.key.value);
    var key := s.calls[c].request.key.value;
    assert Holds(s.jobs, key, s.calls[c].outcome.id);
    assert CreatedUnder(s, c, key);
    assert s.calls[d].outcome.Created? ==> CreatedUnder(s, d, key);
  }

  /**
   The stored key is cut to 256 characters but looked up whole. So a caller
   refused because its key is taken is answered from the stored row exactly when
   its key fits the column; a longer key lets the database error escape.
   */
  lemma RefusedCallIsAnsweredIffKeyFits(s: State, c: nat)
    requires Inv(s) && c in s.calls && s.calls[c].Refused? && s.calls[c].keyTaken
    ensures HasKey(s.calls[c].request)
    ensures var s', key := Step(s, Recover(c)), s.calls[c].request.key.value;
            && s'.jobs == s.jobs && s'.calls[c].Returned?
            && (|key| <= KEY_WIDTH <==> s'.calls[c].outcome.Existing? || s'.calls[c].outcome.Conflict?)
            && (|key| > KEY_WIDTH <==> s'.calls[c].outcome == Raised(true))
  {
    assert CallInv(s.jobs, s.calls[c]);
    NewCallInv(s, Recover(c));
    var request := s.calls[c].request;
    if Search(s.jobs, request).Some? {
      assert Holds(s.jobs, request.key.value, Search(s.jobs, request).value);
    }
  }

  /**
   This needs no race: the same request sent again after the first call has
   returned is answered from its row if the key fits, and by the escaping
   database error if it does not.
   */
  lemma SequentialReplay(r: Request, a: JobId, b: JobId)
    requires r.kind == JOB_KIND && HasKey(r) && a != b
    ensures var s := Run(EMPTY, [Begin(0, r), TryInsert(0, a, 0, false),
                                 Begin(1, r), TryInsert(1, b, 0, false), Recover(1)]);
            && s.jobs == map[a := NewRow(r, 0)]
            && s.calls == map[0 := Returned(r, Created(a)),
                              1 := Returned(r, if |r.key.value| <= KEY_WIDTH then Existing(a) else Raised(true))]
  {
    var e1, e2, e3, e4, e5 :=
      Begin(0, r), TryInsert(0, a, 0, false), Begin(1, r), TryInsert(1, b, 0, false), Recover(1);
    var s2 := State(map[a := NewRow(r, 0)], map[0 := Returned(r, Created(a))]);
    NobodyHolds(map[], r.key.value);
    assert Step(EMPTY, e1) == State(map[], map[0 := Searched(r)]);
    assert Step(Step(EMPTY, e1), e2) == s2;
    ReplaySearch(r, a);
    var s3 := Step(s2, e3);
    var s5 := Step(Step(s3, e4), e5);
    if |r.key.value| <= KEY_WIDTH {
      assert s3 == State(s2.jobs, s2.calls[1 := Returned(r, Existing(a))]);
      assert Step(s3, e4) == s3 && s5 == s3;
    } else {
      assert s3 == State(s2.jobs, s2.calls[1 := Searched(r)]);
      assert s2.jobs[a].key == StoredKey(r);
      assert Step(s3, e4) == State(s2.jobs, s2.calls[1 := Refused(r, true)]);
      assert s5 == State(s2.jobs, s2.calls[1 := Returned(r, Raised(true))]);
    }
    RunOfFive(EMPTY, e1, e2, e3, e4, e5);
  }

  lemma NobodyHolds(t: Table, key: string)
    requires t == map[]
    ensures Lookup(t, key).None?
  {
  }

  /** The search of the replay. */
  lemma ReplaySearch(r: Request, a: JobId)
    requires HasKey(r)
    ensures Search(map[a := NewRow(r, 0)], r) == if |r.key.value| <= KEY_WIDTH then Some(a) else None
  {
    var t := map[a := NewRow(r, 0)];
    assert Holds(t, r.key.value, a) <==> |r.key.value| <= KEY_WIDTH;
  }

  lemma RunOfFive(s: State, e1: Event, e2: Event, e3: Event, e4: Event, e5: Event)
    ensures Run(s, [e1, e2, e3, e4, e5]) == Step(Step(Step(Step(Step(s, e1), e2), e3), e4), e5)
  {
    hide Step;
    var s1 := Step(s, e1);
    var s2 := Step(s1, e2);
    var s3 := Step(s2, e3);
    var s4 := Step(s3, e4);
    RunOn(s, e1, [e2, e3, e4, e5], [e1, e2, e3, e4, e5]);
    RunOn(s1, e2, [e3, e4, e5], [e2, e3, e4, e5]);
    RunOn(s2, e3, [e4, e5], [e3, e4, e5]);
    RunOn(s3, e4, [e5], [e4, e5]);
    RunOn(s4, e5, [], [e5]);
  }

  lemma RunOn(s: State, e: Event, rest: seq<Event>, all: seq<Event>)
    requires all == [e] + rest
    ensures Run(s, all) == Run(Step(s, e), rest)
  {
    assert all[1..] == rest;
  }
}
