/**
 From evidence to impact: the lineage step of the pipeline, the banking impact
 and the theorem that joins collectors, lineage, verifier and impact. It says
 exactly which evidence makes a credential exfiltration or an account takeover
 count as confirmed.
 */
module EndToEnd {
  import opened Common
  import opened Evidence
  import opened Collectors
  import opened Lineage
  import opened Verifier

  /* ---------- The lineage step of the pipeline ---------- */

  predicate AnyComplete(lineages: seq<PayloadLineage>) {
    exists i :: 0 <= i < |lineages| && lineages[i].complete
  }

  predicate IsCorrelationRecord(e: Item) {
    e.kind == MARKER_CORRELATION && e.trust == PayloadCorrelated
  }

  predicate HasCorrelationRecord(items: seq<Item>) {
    exists i :: 0 <= i < |items| && IsCorrelationRecord(items[i])
  }

  /** The one record that may claim a payload correlation; its id follows the last collected one. */
  function CorrelationRecord(number: nat, package: string, otp: Marker): Item
    requires number < 10_000
  {
    Item(RuntimeId(number), 0, MARKER_CORRELATION, PayloadCorrelated, package,
         "Verified synthetic marker correlation in outbound network body: " + otp.value, 1.0,
         [Entry("marker", Text(otp.value)), Entry("marker_id", Number(otp.number)),
          Entry(PAYLOAD_FLAG, Flag(true)), Entry("target_package", Text(package))])
  }

  function Recorded(items: seq<Item>, lineages: seq<PayloadLineage>, package: string, otp: Marker): seq<Item>
    requires |items| <= 999
  {
    if AnyComplete(lineages) && !HasCorrelationRecord(items)
    then items + [CorrelationRecord(|items| + 1, package, otp)]
    else items
  }

  /** The evidence the verifier sees. An exception of the correlator leaves no evidence list to look at. */
  function PipelineEvidence(lib: Library, package: string, markers: seq<Marker>, otp: Marker,
                            items: seq<Item>): seq<Item>
    requires |items| <= 999
  {
    match Correlated(lib, package, markers, items, 1)
    case Correlation(lineages, _) => Recorded(items, lineages, package, otp)
    case NumbersExhausted(_) => items
  }

  class APKAnalysisPipeline {
    /** The evidence list after the lineage step, with the lineages. */
    method TraceLineage(correlator: DataLineageCorrelator, items: seq<Item>, markers: seq<Marker>, otp: Marker,
                        package: string)
      returns (items': seq<Item>, lineages: seq<PayloadLineage>)
      requires |items| <= 999 && correlator.counter == 1 && |markers| <= MAX_LINEAGE
      modifies correlator
      ensures Correlated(correlator.lib, package, markers, items, 1) == Correlation(lineages, correlator.counter)
      ensures items' == PipelineEvidence(correlator.lib, package, markers, otp, items)
    {
      hide Correlated, LineageOf;
      var r := correlator.Correlate(items, markers, package);
      NumbersSuffice(correlator.lib, package, markers, items, 1);
      lineages := r.lineages;
      var exfiltrated := false;
      for i := 0 to |lineages|
        invariant exfiltrated <==> exists j :: 0 <= j < i && lineages[j].complete
      {
        exfiltrated := exfiltrated || lineages[i].complete;
      }
      items' := items;
      if exfiltrated {
        var correlated := false;
        for i := 0 to |items|
          invariant correlated <==> exists j :: 0 <= j < i && IsCorrelationRecord(items[j])
        {
          correlated := correlated || IsCorrelationRecord(items[i]);
        }
        if !correlated {
          items' := items' + [CorrelationRecord(|items| + 1, package, otp)];
        }
      }
    }
  }

  lemma {:induction false} NumbersSuffice(lib: Library, target: string, markers: seq<Marker>, items: seq<Item>,
                                          next: nat)
    requires next + |markers| <= MAX_LINEAGE + 1
    ensures Correlated(lib, target, markers, items, next).Correlation?
    ensures Correlated(lib, target, markers, items, next).next <= next + |markers|
  {
    if markers != [] {
      NumbersSuffice(lib, target, markers[..|markers| - 1], items, next);
    }
  }

  /** Some marker both enters and leaves through attributed evidence. */
  ghost predicate Exfiltrated(lib: Library, target: string, markers: seq<Marker>, items: seq<Item>) {
    exists i :: 0 <= i < |markers|
      && MarkerEnters(lib, target, markers[i], items) && MarkerLeaves(lib, target, markers[i], items)
  }

  lemma {:induction false} CompleteLineageIff(lib: Library, target: string, markers: seq<Marker>, items: seq<Item>,
                                              next: nat)
    requires UniqueIds(items) && Correlated(lib, target, markers, items, next).Correlation?
    ensures AnyComplete(Correlated(lib, target, markers, items, next).lineages)
       <==> Exfiltrated(lib, target, markers, items)
  {
    hide MarkerEnters, MarkerLeaves, StepsOf;
    if markers != [] {
      var n := |markers| - 1;
      var before := Correlated(lib, target, markers[..n], items, next).lineages;
      var after := Correlated(lib, target, markers, items, next).lineages;
      CompleteLineageIff(lib, target, markers[..n], items, next);
      CompleteIff(lib, target, markers[n], items);
      EmptyTraceIsIncomplete(lib, target, markers[n], items);
      assert Exfiltrated(lib, target, markers, items) <==>
               Exfiltrated(lib, target, markers[..n], items)
               || (MarkerEnters(lib, target, markers[n], items) && MarkerLeaves(lib, target, markers[n], items)) by {
        assert forall i | 0 <= i < n :: markers[..n][i] == markers[i];
      }
      LastCompletes(before, after);
    }
  }

  lemma EmptyTraceIsIncomplete(lib: Library, target: string, m: Marker, items: seq<Item>)
    ensures StepsOf(lib, target, m, items) == [] ==> !Complete(lib, m, items, StepsOf(lib, target, m, items))
  {
  }

  lemma LastCompletes(before: seq<PayloadLineage>, after: seq<PayloadLineage>)
    requires before <= after && |after| <= |before| + 1
    ensures AnyComplete(after) <==>
              AnyComplete(before) || (|after| == |before| + 1 && after[|before|].complete)
  {
    if i :| 0 <= i < |before| && before[i].complete {
      assert after[i].complete;
    }
  }

  /* ---------- When exfiltration is confirmed ---------- */

  ghost predicate SawNetwork(items: seq<Item>) {
    exists n :: n in items && IsNetworkKind(n.kind)
  }

  /** What the pipeline does with collected evidence: it appends its record exactly when a marker was exfiltrated. */
  lemma RecordedIffExfiltrated(lib: Library, package: string, markers: seq<Marker>, otp: Marker, items: seq<Item>)
    requires Collected(items) && |markers| <= MAX_LINEAGE
    ensures PipelineEvidence(lib, package, markers, otp, items) ==
              if Exfiltrated(lib, package, markers, items)
              then items + [CorrelationRecord(|items| + 1, package, otp)] else items
  {
    hide Correlated, Exfiltrated, RuntimeId, UniqueIds;
    CollectedIdsAreUnique(items);
    NumbersSuffice(lib, package, markers, items, 1);
    CompleteLineageIff(lib, package, markers, items, 1);
    NoRecordYet(items);
  }

  /**
   On collected evidence the verifier's exfiltration conditions hold exactly when
   a marker came in, left in an instrumented body, and some network destination
   was recorded. The collectors' own claims can play no part: they make none.
   */
  lemma ExfiltrationConfirmedExactly(lib: Library, package: string, markers: seq<Marker>, otp: Marker,
                                     items: seq<Item>, f: Findings, mentionsDumpsys: Item -> bool)
    requires Collected(items) && |markers| <= MAX_LINEAGE
    requires f.runtime == PipelineEvidence(lib, package, markers, otp, items)
    ensures Confirming(DataExfiltration, f, mentionsDumpsys) <==>
              Exfiltrated(lib, package, markers, items) && SawNetwork(items)
  {
    hide PipelineEvidence, Exfiltrated, Confirming, CorrelationRecord;
    RecordedIffExfiltrated(lib, package, markers, otp, items);
    if Exfiltrated(lib, package, markers, items) {
      RecordConfirms(items, package, otp, f, mentionsDumpsys);
    } else {
      NoClaimNoConfirmation(f, mentionsDumpsys);
    }
  }

  lemma NoRecordYet(items: seq<Item>)
    requires NoClaims(items)
    ensures !HasCorrelationRecord(items)
  {
    forall i | 0 <= i < |items| ensures !IsCorrelationRecord(items[i]) {
      assert ClaimsNothing(items[i]);
    }
  }

  lemma NoClaimNoConfirmation(f: Findings, mentionsDumpsys: Item -> bool)
    requires NoClaims(f.runtime)
    ensures !Confirming(DataExfiltration, f, mentionsDumpsys)
  {
    forall c | c in f.runtime ensures !Claiming(c) {
      var i :| 0 <= i < |f.runtime| && f.runtime[i] == c;
      assert ClaimsNothing(f.runtime[i]);
    }
  }

  /** The pipeline's record has time zero, so it precedes every collected network record. */
  lemma RecordConfirms(items: seq<Item>, package: string, otp: Marker, f: Findings, mentionsDumpsys: Item -> bool)
    requires |items| <= 999 && NonNegativeTimes(items)
    requires f.runtime == items + [CorrelationRecord(|items| + 1, package, otp)]
    ensures Confirming(DataExfiltration, f, mentionsDumpsys) <==> SawNetwork(items)
  {
    var record := CorrelationRecord(|items| + 1, package, otp);
    assert record in f.runtime && Claiming(record);
    assert !IsNetworkKind(record.kind) by {
      assert MARKER_CORRELATION[0] == 's' && NETWORK[0] == 'n' && DNS[0] == 'd';
    }
    if n :| n in items && IsNetworkKind(n.kind) {
      var i :| 0 <= i < |items| && items[i] == n;
      assert InOrder(record, n);
      assert n in f.runtime;
    }
    if m, n :| m in f.runtime && n in f.runtime && InOrder(m, n) {
      assert n in items;
    }
  }

  /* ---------- Banking impact ---------- */

  datatype ImpactStatus = ImpactConfirmed | ImpactSupported | Possible | NotObserved

  datatype ImpactItem = ImpactItem(status: ImpactStatus, ids: seq<string>)

  datatype Impact = Impact(
    otp: ImpactItem, credentials: ImpactItem, takeover: ImpactItem, accessibility: ImpactItem,
    transactions: ImpactItem, codeLoading: ImpactItem, payload: ImpactItem)

  /** `{category: verification}`: a later verification of a category replaces an earlier one. */
  function LastOf(vs: seq<Verification>, c: Category): Option<Verification> {
    if vs == [] then None
    else
      var n := |vs| - 1;
      if vs[n].category == c then Some(vs[n]) else LastOf(vs[..n], c)
  }

  function Judged(v: Option<Verification>, hasStatic: bool): ImpactStatus {
    if v.Some? && v.value.status == Confirmed then ImpactConfirmed
    else if (v.Some? && v.value.status == Supported) || hasStatic then ImpactSupported
    else NotObserved
  }

  function JudgedIds(v: Option<Verification>, status: ImpactStatus): seq<string> {
    if v.None? || status == NotObserved then []
    else if status == ImpactConfirmed then v.value.runtimeIds + v.value.staticIds
    else v.value.staticIds
  }

  predicate HasStaticCredentialSignal(s: Static) {
    s.credentialTheft || s.phishing || (OVERLAY in s.permissions && (INTERNET in s.permissions || s.urls))
  }

  const CLASSLOADER := "classloader_event"

  predicate TrustedLoad(e: Item) {
    e.kind in [CODE_LOAD, CLASSLOADER] && e.trust in {Instrumented, PayloadCorrelated, SystemObserved}
  }

  function LoadIds(items: seq<Item>): seq<string> {
    if items == [] then []
    else (if items[0].kind in [CODE_LOAD, CLASSLOADER] && items[0].id != "" then [items[0].id] else [])
         + LoadIds(items[1..])
  }

  predicate AnyTrustedLoad(items: seq<Item>) {
    exists i :: 0 <= i < |items| && TrustedLoad(items[i])
  }

  /** `derive_banking_impact`; recovered payloads are given by their ids. */
  function DeriveImpact(f: Findings, vs: seq<Verification>, payloads: seq<string>): Impact {
    var s := f.static_;
    var vOtp, vCred := LastOf(vs, OtpInterception), LastOf(vs, DataExfiltration);
    var vAcc, vDcl := LastOf(vs, AccessibilityAbuse), LastOf(vs, Category.DynamicCodeLoading);
    var otp := Judged(vOtp, SmsCapable(s));
    var cred := Judged(vCred, HasStaticCredentialSignal(s));
    var acc := Judged(vAcc, s.accessibilityService || s.inputInjection);
    var dcl := if AnyTrustedLoad(f.runtime) then ImpactConfirmed else Judged(vDcl, s.codeLoading);
    var otpIds, credIds, accIds := JudgedIds(vOtp, otp), JudgedIds(vCred, cred), JudgedIds(vAcc, acc);
    var dclIds := if dcl == ImpactConfirmed then LoadIds(f.runtime) else JudgedIds(vDcl, dcl);
    var takeover :=
      if otp == ImpactConfirmed && cred == ImpactConfirmed then ImpactConfirmed
      else if otp != NotObserved || cred != NotObserved then Possible
      else NotObserved;
    var transactions :=
      if acc == ImpactConfirmed then ImpactConfirmed else if acc == ImpactSupported then Possible else NotObserved;
    Impact(ImpactItem(otp, Distinct(otpIds)), ImpactItem(cred, Distinct(credIds)),
           ImpactItem(takeover, Distinct(if takeover == NotObserved then [] else otpIds + credIds)),
           ImpactItem(acc, Distinct(accIds)),
           ImpactItem(transactions, Distinct(if transactions == NotObserved then [] else accIds)),
           ImpactItem(dcl, Distinct(dclIds)),
           ImpactItem(if payloads != [] then ImpactConfirmed else NotObserved, Distinct(payloads)))
  }

  ghost predicate Investigated(hs: seq<Hypothesis>, c: Category) {
    exists i :: 0 <= i < |hs| && hs[i].category == c
  }

  lemma {:induction false} LastOfSpec(vs: seq<Verification>, c: Category)
    ensures LastOf(vs, c).Some? ==> LastOf(vs, c).value in vs && LastOf(vs, c).value.category == c
    ensures LastOf(vs, c).Some? <==> exists i :: 0 <= i < |vs| && vs[i].category == c
  {
    if vs != [] {
      var n := |vs| - 1;
      LastOfSpec(vs[..n], c);
      if i :| 0 <= i < |vs| && vs[i].category == c {
        assert i < n ==> vs[..n][i] == vs[i];
      }
    }
  }

  /** Whichever verification of a category is the last, it is confirmed exactly when the category's conditions hold. */
  lemma JudgedConfirmedIff(hs: seq<Hypothesis>, f: Findings, evidence: seq<StaticEvidence>,
                           mentionsDumpsys: Item -> bool,
                           c: Category, hasStatic: bool)
    ensures Judged(LastOf(VerifyAll(hs, f, evidence, mentionsDumpsys), c), hasStatic) == ImpactConfirmed <==>
              Investigated(hs, c) && Confirming(c, f, mentionsDumpsys)
  {
    hide Confirming, Decide;
    var vs := VerifyAll(hs, f, evidence, mentionsDumpsys);
    LastOfSpec(vs, c);
    if LastOf(vs, c).Some? {
      var i :| 0 <= i < |vs| && vs[i] == LastOf(vs, c).value;
      assert vs[i] == Verify(hs[i], f, evidence, mentionsDumpsys);
      ConfirmedIff(hs[i], f, mentionsDumpsys);
    } else {
      assert forall i | 0 <= i < |hs| :: vs[i].category == hs[i].category;
    }
  }

  ghost predicate Cited(f: Findings, evidence: seq<StaticEvidence>, id: string) {
    (exists e :: e in f.runtime && e.id == id) || (exists s :: s in evidence && s.id == id)
  }

  lemma {:induction false} RuntimeIdsAreCited(items: seq<Item>, kinds: seq<string>, id: string)
    requires id in RuntimeIdsOf(items, kinds)
    ensures exists e :: e in items && e.id == id && e.kind in kinds
  {
    if !(items[0].kind in kinds && items[0].id == id) {
      RuntimeIdsAreCited(items[1..], kinds, id);
    }
  }

  lemma {:induction false} MatchingIdsAreCited(evidence: seq<StaticEvidence>, tokens: seq<string>, id: string)
    requires id in MatchingIds(evidence, tokens)
    ensures exists s :: s in evidence && s.id == id && AnyToken(tokens, s.text)
  {
    if !(AnyToken(tokens, evidence[0].text) && evidence[0].id == id) {
      MatchingIdsAreCited(evidence[1..], tokens, id);
    }
  }

  lemma VerificationCites(h: Hypothesis, f: Findings, evidence: seq<StaticEvidence>, mentionsDumpsys: Item -> bool,
                          id: string)
    requires var v := Verify(h, f, evidence, mentionsDumpsys); id in v.runtimeIds || id in v.staticIds
    ensures Cited(f, evidence, id)
  {
    hide Decide, UniqueStrings, AnyToken;
    var runtime := RuntimeIdsOf(f.runtime, RuntimeKinds(h.category));
    var static_ := MatchingIds(evidence, StaticTokens(h.category));
    UniqueStringsSpec(runtime, 30);
    UniqueStringsSpec(static_, 30);
    if id in UniqueStrings(runtime, 30) {
      assert id in ToSet(runtime);
      RuntimeIdsAreCited(f.runtime, RuntimeKinds(h.category), id);
    } else {
      assert id in ToSet(UniqueStrings(static_, 30));
      assert id in ToSet(static_);
      MatchingIdsAreCited(evidence, StaticTokens(h.category), id);
    }
  }

  lemma JudgedIdsAreCited(hs: seq<Hypothesis>, f: Findings, evidence: seq<StaticEvidence>,
                          mentionsDumpsys: Item -> bool,
                          c: Category, status: ImpactStatus, id: string)
    requires id in JudgedIds(LastOf(VerifyAll(hs, f, evidence, mentionsDumpsys), c), status)
    ensures Cited(f, evidence, id)
  {
    hide Verify, Cited;
    var vs := VerifyAll(hs, f, evidence, mentionsDumpsys);
    LastOfSpec(vs, c);
    var v := LastOf(vs, c).value;
    var i :| 0 <= i < |vs| && vs[i] == v;
    VerificationCites(hs[i], f, evidence, mentionsDumpsys, id);
  }

  /** Every id an impact item of the four verified chains cites belongs to runtime or static evidence. */
  lemma ImpactCitesEvidence(hs: seq<Hypothesis>, f: Findings, evidence: seq<StaticEvidence>,
                            mentionsDumpsys: Item -> bool,
                            payloads: seq<string>, id: string)
    requires var r := DeriveImpact(f, VerifyAll(hs, f, evidence, mentionsDumpsys), payloads);
             id in r.otp.ids || id in r.credentials.ids || id in r.takeover.ids
             || id in r.accessibility.ids || id in r.transactions.ids
    ensures Cited(f, evidence, id)
  {
    hide Cited, Judged, JudgedIds, LastOf, VerifyAll, AnyTrustedLoad, LoadIds, Distinct, SmsCapable,
         HasStaticCredentialSignal;
    var vs := VerifyAll(hs, f, evidence, mentionsDumpsys);
    var s := f.static_;
    var otp := Judged(LastOf(vs, OtpInterception), SmsCapable(s));
    var cred := Judged(LastOf(vs, DataExfiltration), HasStaticCredentialSignal(s));
    var acc := Judged(LastOf(vs, AccessibilityAbuse), s.accessibilityService || s.inputInjection);
    var otpIds, credIds := JudgedIds(LastOf(vs, OtpInterception), otp), JudgedIds(LastOf(vs, DataExfiltration), cred);
    var accIds := JudgedIds(LastOf(vs, AccessibilityAbuse), acc);
    DistinctIsASet(otpIds);
    DistinctIsASet(credIds);
    DistinctIsASet(accIds);
    DistinctIsASet(otpIds + credIds);
    DistinctIsASet([]);
    assert id in ToSet(otpIds) || id in ToSet(credIds) || id in ToSet(accIds) || id in ToSet(otpIds + credIds) by {
      assert forall x :: x in Distinct(otpIds) ==> x in ToSet(Distinct(otpIds));
      assert forall x :: x in Distinct(credIds) ==> x in ToSet(Distinct(credIds));
      assert forall x :: x in Distinct(accIds) ==> x in ToSet(Distinct(accIds));
      assert forall x :: x in Distinct(otpIds + credIds) ==> x in ToSet(Distinct(otpIds + credIds));
      assert forall x :: x in Distinct([]) ==> x in ToSet(Distinct([]));
    }
    if id in otpIds {
      JudgedIdsAreCited(hs, f, evidence, mentionsDumpsys, OtpInterception, otp, id);
    } else if id in credIds {
      JudgedIdsAreCited(hs, f, evidence, mentionsDumpsys, DataExfiltration, cred, id);
    } else {
      JudgedIdsAreCited(hs, f, evidence, mentionsDumpsys, AccessibilityAbuse, acc, id);
    }
  }

  /* ---------- The end-to-end theorem ---------- */

  /**
   A credential exfiltration is confirmed if and only if such a hypothesis was
   investigated, some marker entered and left through attributed evidence, the
   leaving one an instrumented body, and a network destination was recorded.
   */
  lemma CredentialImpactExactly(lib: Library, package: string, markers: seq<Marker>, otp: Marker, items: seq<Item>,
                                hs: seq<Hypothesis>, f: Findings, evidence: seq<StaticEvidence>,
                                mentionsDumpsys: Item -> bool, payloads: seq<string>)
    requires Collected(items) && |markers| <= MAX_LINEAGE
    requires f.runtime == PipelineEvidence(lib, package, markers, otp, items)
    ensures DeriveImpact(f, VerifyAll(hs, f, evidence, mentionsDumpsys), payloads).credentials.status == ImpactConfirmed
       <==> Investigated(hs, DataExfiltration) && Exfiltrated(lib, package, markers, items) && SawNetwork(items)
  {
    hide PipelineEvidence, Exfiltrated, Confirming, Distinct;
    ExfiltrationConfirmedExactly(lib, package, markers, otp, items, f, mentionsDumpsys);
    JudgedConfirmedIff(hs, f, evidence, mentionsDumpsys, DataExfiltration, HasStaticCredentialSignal(f.static_));
  }

  /** An account takeover is confirmed exactly when OTP interception and credential exfiltration both are. */
  lemma TakeoverImpactExactly(lib: Library, package: string, markers: seq<Marker>, otp: Marker, items: seq<Item>,
                              hs: seq<Hypothesis>, f: Findings, evidence: seq<StaticEvidence>,
                              mentionsDumpsys: Item -> bool, payloads: seq<string>)
    requires Collected(items) && |markers| <= MAX_LINEAGE
    requires f.runtime == PipelineEvidence(lib, package, markers, otp, items)
    ensures DeriveImpact(f, VerifyAll(hs, f, evidence, mentionsDumpsys), payloads).takeover.status == ImpactConfirmed
              <==>
              && Investigated(hs, OtpInterception) && Confirming(OtpInterception, f, mentionsDumpsys)
              && Investigated(hs, DataExfiltration) && Exfiltrated(lib, package, markers, items) && SawNetwork(items)
  {
    hide PipelineEvidence, Exfiltrated, Confirming, Distinct, Judged;
    CredentialImpactExactly(lib, package, markers, otp, items, hs, f, evidence, mentionsDumpsys, payloads);
    JudgedConfirmedIff(hs, f, evidence, mentionsDumpsys, OtpInterception, SmsCapable(f.static_));
  }

  /** Two sets of hypotheses over the same categories confirm the same impacts, whatever else the AI says. */
  lemma ImpactIgnoresTheAi(hs: seq<Hypothesis>, hs': seq<Hypothesis>, f: Findings, evidence: seq<StaticEvidence>,
                           mentionsDumpsys: Item -> bool, payloads: seq<string>)
    requires forall c :: Investigated(hs, c) <==> Investigated(hs', c)
    ensures var a := DeriveImpact(f, VerifyAll(hs, f, evidence, mentionsDumpsys), payloads);
            var b := DeriveImpact(f, VerifyAll(hs', f, evidence, mentionsDumpsys), payloads);
            && (a.otp.status == ImpactConfirmed <==> b.otp.status == ImpactConfirmed)
            && (a.credentials.status == ImpactConfirmed <==> b.credentials.status == ImpactConfirmed)
            && (a.takeover.status == ImpactConfirmed <==> b.takeover.status == ImpactConfirmed)
            && (a.accessibility.status == ImpactConfirmed <==> b.accessibility.status == ImpactConfirmed)
            && (a.transactions.status == ImpactConfirmed <==> b.transactions.status == ImpactConfirmed)
  {
    hide Confirming, Distinct, Judged, Investigated, VerifyAll, LastOf, JudgedIds, LoadIds, AnyTrustedLoad, SmsCapable,
         HasStaticCredentialSignal;
    var s := f.static_;
    JudgedConfirmedIff(hs, f, evidence, mentionsDumpsys, OtpInterception, SmsCapable(s));
    JudgedConfirmedIff(hs', f, evidence, mentionsDumpsys, OtpInterception, SmsCapable(s));
    JudgedConfirmedIff(hs, f, evidence, mentionsDumpsys, DataExfiltration, HasStaticCredentialSignal(s));
    JudgedConfirmedIff(hs', f, evidence, mentionsDumpsys, DataExfiltration, HasStaticCredentialSignal(s));
    JudgedConfirmedIff(hs, f, evidence, mentionsDumpsys, AccessibilityAbuse,
                       s.accessibilityService || s.inputInjection);
    JudgedConfirmedIff(hs', f, evidence, mentionsDumpsys, AccessibilityAbuse,
                       s.accessibilityService || s.inputInjection);
  }

  /* ---------- The sandbox's own delivery ---------- */

  /** The marker text survives whitespace normalisation and fits the clip. */
  predicate Plain(lib: Library, m: Marker) {
    0 < |m.value| <= 100 && lib.squeeze(m.value) == m.value
  }

  lemma LowerKeeps(s: string)
    requires forall i | 0 <= i < |s| :: !('A' <= s[i] <= 'Z')
    ensures Lower(s) == s
  {
  }

  lemma ContainsItself(s: string)
    ensures Contains(s, s)
  {
    assert OccursAt(s, s, 0);
  }

  /**
   The record of the analyzer's own delivery already counts as the marker
   entering, so the entering half of the condition says nothing about the app.
   */
  lemma DeliveryIsAnIngress(lib: Library, package: string, m: Marker, e: Item)
    requires Plain(lib, m) && package != "" && e.id != "" && Delivery(package, e)
    requires e.metadata == CompactMetadata(lib, DeliveryMetadata(m.value), [])
    ensures MarkerIngress(lib, package, m, e)
  {
    assert IsIngress(lib, e) by {
      LowerKeeps(SMS_DELIVERED);
      ContainsItself(SMS_DELIVERED);
      assert INGRESS_INDICATORS[4] == SMS_DELIVERED;
    }
    var text := Entry("marker", Text(m.value));
    assert e.metadata == [text, Entry("test_data", Flag(true))] by {
      DeliveryMetadataIsKept(lib, m);
    }
    assert Attributed(lib, e, package) by {
      var rest := e.metadata[1..];
      assert rest == [Entry("test_data", Flag(true))] && rest[1..] == [];
      assert |"marker"| == 6 && |"test_data"| == 9 && |"target_package"| == 14;
      assert Lookup(rest, "target_package") == None;
    }
    assert CarriesSomewhere(lib, m, e) by {
      ContainsItself(m.value);
      assert Transformations(lib, m)[0].1 == m.value;
      assert Carries(lib, m, m.value);
      assert MetadataTexts(e.metadata)[0] == m.value;
      var k := if e.description != "" then 1 else 0;
      assert FieldsToCheck(e)[k] == m.value;
    }
  }

  lemma DeliveryMetadataIsKept(lib: Library, m: Marker)
    requires Plain(lib, m)
    ensures CompactMetadata(lib, DeliveryMetadata(m.value), []) ==
              [Entry("marker", Text(m.value)), Entry("test_data", Flag(true))]
  {
    var given, flag := DeliveryMetadata(m.value), Entry("test_data", Flag(true));
    var one := [Entry("marker", Text(m.value))];
    assert given[1..] == [flag] && [flag][1..] == [] && one[1..] == [];
    assert |"marker"| == 6 && |"test_data"| == 9;
    assert CompactValue(lib, Text(m.value)) == Text(m.value);
    assert Put([], "marker", Text(m.value)) == one;
    assert CompactMetadata(lib, given, []) == CompactMetadata(lib, [flag], one);
    assert Put(one[1..], "test_data", Flag(true)) == [flag];
    assert Put(one, "test_data", Flag(true)) == one + [flag];
    assert CompactMetadata(lib, [flag], one) == CompactMetadata(lib, [], one + [flag]);
  }

  /**
   After a successful synthetic SMS experiment, therefore, a marker is
   exfiltrated exactly when an instrumented body of the app carries it.
   */
  lemma AfterDeliveryOnlyTheBodyCounts(lib: Library, package: string, m: Marker, items: seq<Item>, d: nat)
    requires Collected(items) && Plain(lib, m) && package != ""
    requires d < |items| && Delivery(package, items[d])
    requires items[d].metadata == CompactMetadata(lib, DeliveryMetadata(m.value), [])
    ensures Exfiltrated(lib, package, [m], items) <==> MarkerLeaves(lib, package, m, items)
  {
    CollectedIdsAreUnique(items);
    hide MarkerIngress, BodyEgress, CompactMetadata, Delivery;
    DeliveryIsAnIngress(lib, package, m, items[d]);
    assert MarkerEnters(lib, package, m, items);
    assert [m][0] == m;
  }

  /* ---------- What counts as leaving ---------- */

  /** SMS access counts as entering, whatever API it names. */
  lemma SmsAccessIsAnIngress(lib: Library, e: Item)
    requires e.kind == SMS_ACCESS
    ensures IsIngress(lib, e)
  {
    LowerKeeps(SMS_ACCESS);
    ContainsItself(SMS_ACCESS);
    assert INGRESS_INDICATORS[5] == SMS_ACCESS;
  }

  /** A network record leaves unless the API name it reports contains an entering indicator. */
  lemma NetworkLeavesUnlessApiEnters(lib: Library, e: Item)
    requires e.kind == NETWORK
    ensures IsEgress(lib, e) <==> !IsIngress(lib, e)
  {
    LowerKeeps(NETWORK);
    ContainsItself(NETWORK);
    assert EGRESS_INDICATORS[7] == NETWORK;
  }
}
