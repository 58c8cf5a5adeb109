/**
 The claim query compares the printed texts of instants, the queue model
 compares instants. Both pick the same row.
 */
module ClaimTexts {
  import opened Common
  import opened Timestamps
  import opened JobTable

  /** The time columns of a row, as they are stored. */
  datatype TimeTexts = TimeTexts(available: string, created: string, lease: Option<string>)

  ghost predicate IsTextOf(text: string, micros: int) {
    exists t :: ValidInstant(t) && IsoFormat(t) == text && Micros(t) == micros
  }

  ghost predicate Printed(job: Job, c: TimeTexts) {
    && IsTextOf(c.available, job.availableAt) && IsTextOf(c.created, job.createdAt)
    && (c.lease.Some? <==> job.leaseExpires.Some?)
    && (c.lease.Some? ==> IsTextOf(c.lease.value, job.leaseExpires.value))
  }

  ghost predicate AllPrinted(t: Table, texts: map<JobId, TimeTexts>) {
    texts.Keys == t.Keys && forall id | id in t :: Printed(t[id], texts[id])
  }

  /** The WHERE clause over texts. */
  predicate EligibleText(job: Job, c: TimeTexts, now: string) {
    && job.attempts < job.maxAttempts
    && !TextLess(now, c.available)
    && (job.status.Queued? || (job.status.Running? && c.lease.Some? && TextLess(c.lease.value, now)))
  }

  /** The ORDER BY clause over texts. */
  predicate PrecedesText(a: Job, ca: TimeTexts, b: Job, cb: TimeTexts) {
    a.priority < b.priority || (a.priority == b.priority && !TextLess(cb.created, ca.created))
  }

  predicate IsNextClaimText(t: Table, texts: map<JobId, TimeTexts>, id: JobId, now: string)
    requires texts.Keys == t.Keys
  {
    && id in t && EligibleText(t[id], texts[id], now)
    && forall other | other in t && EligibleText(t[other], texts[other], now) ::
         PrecedesText(t[id], texts[id], t[other], texts[other])
  }

  lemma TextsCompare(x: string, m: int, y: string, n: int)
    requires IsTextOf(x, m) && IsTextOf(y, n)
    ensures TextLess(x, y) <==> m < n
    ensures x == y <==> m == n
  {
    var s :| ValidInstant(s) && IsoFormat(s) == x && Micros(s) == m;
    var t :| ValidInstant(t) && IsoFormat(t) == y && Micros(t) == n;
    TextOrderIsInstantOrder(s, t);
  }

  lemma EligibleAsText(job: Job, c: TimeTexts, now: string, instant: int)
    requires Printed(job, c) && IsTextOf(now, instant)
    ensures EligibleText(job, c, now) <==> Eligible(job, instant)
  {
    hide IsTextOf;
    TextsCompare(now, instant, c.available, job.availableAt);
    if c.lease.Some? {
      TextsCompare(c.lease.value, job.leaseExpires.value, now, instant);
    }
  }

  /** The query over the stored texts returns exactly the rows the queue model claims. */
  lemma ClaimQueryOverTexts(t: Table, texts: map<JobId, TimeTexts>, id: JobId, now: string, instant: int)
    requires AllPrinted(t, texts) && IsTextOf(now, instant)
    ensures IsNextClaimText(t, texts, id, now) <==> IsNextClaim(t, id, instant)
  {
    hide IsTextOf, EligibleText, Eligible;
    forall k | k in t ensures EligibleText(t[k], texts[k], now) <==> Eligible(t[k], instant) {
      assert Printed(t[k], texts[k]);
      EligibleAsText(t[k], texts[k], now, instant);
    }
    if id in t {
      forall k | k in t ensures PrecedesText(t[id], texts[id], t[k], texts[k]) <==> Precedes(t[id], t[k]) {
        assert Printed(t[k], texts[k]) && Printed(t[id], texts[id]);
        TextsCompare(texts[k].created, t[k].createdAt, texts[id].created, t[id].createdAt);
      }
    }
  }
}
