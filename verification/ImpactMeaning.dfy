/**
 The reported banking impact, item by item: when each is confirmed, supported,
 possible or not observed, over static facts, runtime evidence, hypotheses and
 payloads, and which ids it cites.
 */
module ImpactMeaning {
  import opened Common
  import opened Evidence
  import opened Lineage
  import opened Verifier
  import opened EndToEnd
  import opened VerdictMeaning

  /* ---------- The record of a proven exfiltration ---------- */

  /**
   The record the pipeline appends: a claim at time zero, attributed to the
   package, that names the OTP marker, whichever marker it was that left.
   */
  lemma RecordSays(number: nat, package: string, otp: Marker)
    requires number < 10_000
    ensures var r := CorrelationRecord(number, package, otp);
            && r.id == RuntimeId(number) && r.timestamp == 0 && r.process == package && r.confidence == 1.0
            && r.kind == "synthetic_marker_correlation" && r.trust == PayloadCorrelated && IsCorrelationRecord(r)
            && Lookup(r.metadata, "marker") == Some(Text(otp.value))
            && Lookup(r.metadata, "marker_id") == Some(Number(otp.number))
            && Lookup(r.metadata, "payload_correlated") == Some(Flag(true))
            && Lookup(r.metadata, "target_package") == Some(Text(package))
            && Contains(r.description, otp.value)
  {
    var r := CorrelationRecord(number, package, otp);
    var m := r.metadata;
    assert |"marker"| == 6 && |"marker_id"| == 9 && |"payload_correlated"| == 18 && |"target_package"| == 14;
    assert m[1..][1..] == m[2..] && m[2..][1..] == m[3..] && m[3..][1..] == [];
    assert Lookup(m[3..], "target_package") == Some(Text(package));
    assert Lookup(m[2..], "payload_correlated") == Some(Flag(true));
    assert Lookup(m[1..], "marker_id") == Some(Number(otp.number));
    assert Lookup(m[2..], "target_package") == Lookup(m[3..], "target_package");
    assert Lookup(m[1..], "target_package") == Lookup(m[2..], "target_package");
    assert Lookup(m[1..], "payload_correlated") == Lookup(m[2..], "payload_correlated");
    var n := |r.description| - |otp.value|;
    assert r.description[n..n + |otp.value|] == otp.value;
    assert OccursAt(r.description, otp.value, n);
  }

  /* ---------- The last hypothesis of a category decides ---------- */

  function LastHypothesis(hs: seq<Hypothesis>, c: Category): Option<Hypothesis> {
    if hs == [] then None
    else
      var n := |hs| - 1;
      if hs[n].category == c then Some(hs[n]) else LastHypothesis(hs[..n], c)
  }

  lemma {:induction false} LastVerification(hs: seq<Hypothesis>, f: Findings, evidence: seq<StaticEvidence>,
                                            mentionsDumpsys: Item -> bool, c: Category)
    ensures var v, h := LastOf(VerifyAll(hs, f, evidence, mentionsDumpsys), c), LastHypothesis(hs, c);
            && (v.Some? <==> h.Some?) && (h.Some? <==> Investigated(hs, c))
            && (h.Some? ==> v.value == Verify(h.value, f, evidence, mentionsDumpsys) && h.value.category == c)
  {
    hide Verify, VerifyAll, Investigated;
    var vs := VerifyAll(hs, f, evidence, mentionsDumpsys);
    if hs == [] {
      NothingInvestigated(c);
    } else {
      var n := |hs| - 1;
      LastVerification(hs[..n], f, evidence, mentionsDumpsys, c);
      VerifyAllBefore(hs, f, evidence, mentionsDumpsys);
      InvestigatedBefore(hs, c);
      VerifyKeepsCategory(hs[n], f, evidence, mentionsDumpsys);
      assert vs[n] == Verify(hs[n], f, evidence, mentionsDumpsys);
    }
  }

  lemma NothingInvestigated(c: Category)
    ensures !Investigated([], c)
  {
  }

  lemma VerifyKeepsCategory(h: Hypothesis, f: Findings, evidence: seq<StaticEvidence>, mentionsDumpsys: Item -> bool)
    ensures Verify(h, f, evidence, mentionsDumpsys).category == h.category
  {
  }

  lemma VerifyAllBefore(hs: seq<Hypothesis>, f: Findings, evidence: seq<StaticEvidence>, mentionsDumpsys: Item -> bool)
    requires hs != []
    ensures var n := |hs| - 1;
            VerifyAll(hs, f, evidence, mentionsDumpsys)[..n] == VerifyAll(hs[..n], f, evidence, mentionsDumpsys)
  {
    hide Verify, VerifyAll;
  }

  lemma InvestigatedBefore(hs: seq<Hypothesis>, c: Category)
    requires hs != []
    ensures var n := |hs| - 1; Investigated(hs, c) <==> hs[n].category == c || Investigated(hs[..n], c)
  {
    var n := |hs| - 1;
    if i :| 0 <= i < |hs| && hs[i].category == c {
      assert i < n ==> hs[..n][i] == hs[i];
    }
    if i :| 0 <= i < |hs[..n]| && hs[..n][i].category == c {
      assert hs[i].category == c;
    }
  }

  /** The last hypothesis of the category is supported by its verdict. */
  ghost predicate LastSupported(hs: seq<Hypothesis>, c: Category, f: Findings, mentionsDumpsys: Item -> bool) {
    LastHypothesis(hs, c).Some? && Decide(LastHypothesis(hs, c).value, f, mentionsDumpsys).status == Supported
  }

  ghost predicate Proven(hs: seq<Hypothesis>, c: Category, f: Findings, mentionsDumpsys: Item -> bool) {
    Investigated(hs, c) && Confirming(c, f, mentionsDumpsys)
  }

  lemma JudgedIs(hs: seq<Hypothesis>, f: Findings, evidence: seq<StaticEvidence>, mentionsDumpsys: Item -> bool,
                 c: Category, hasStatic: bool)
    ensures Judged(LastOf(VerifyAll(hs, f, evidence, mentionsDumpsys), c), hasStatic) ==
              if Proven(hs, c, f, mentionsDumpsys) then ImpactConfirmed
              else if hasStatic || LastSupported(hs, c, f, mentionsDumpsys) then ImpactSupported
              else NotObserved
  {
    hide Decide, Confirming, Investigated, LastHypothesis, VerifyAll, LastOf;
    LastVerification(hs, f, evidence, mentionsDumpsys, c);
    JudgedConfirmedIff(hs, f, evidence, mentionsDumpsys, c, hasStatic);
  }

  /* ---------- OTP interception ---------- */

  ghost predicate CanReadSms(s: Static) {
    || "android.permission.READ_SMS" in s.permissions || "android.permission.RECEIVE_SMS" in s.permissions
    || s.smsReceiver || s.smsApi
  }

  /** Reported as confirmed when proven, as supported on the mere capability, and not at all without it. */
  lemma OtpImpactIs(hs: seq<Hypothesis>, f: Findings, evidence: seq<StaticEvidence>, mentionsDumpsys: Item -> bool,
                    payloads: seq<string>)
    ensures DeriveImpact(f, VerifyAll(hs, f, evidence, mentionsDumpsys), payloads).otp.status ==
              if Proven(hs, OtpInterception, f, mentionsDumpsys) then ImpactConfirmed
              else if CanReadSms(f.static_) then ImpactSupported
              else NotObserved
  {
    hide Decide, Judged, LastOf, VerifyAll, Confirming, LastHypothesis, Distinct, Investigated;
    CapabilitiesMean(f.static_);
    JudgedIs(hs, f, evidence, mentionsDumpsys, OtpInterception, SmsCapable(f.static_));
    LastVerification(hs, f, evidence, mentionsDumpsys, OtpInterception);
    if LastSupported(hs, OtpInterception, f, mentionsDumpsys) {
      SupportedIff(LastHypothesis(hs, OtpInterception).value, f, mentionsDumpsys);
    }
  }

  /* ---------- Credential exfiltration ---------- */

  ghost predicate LooksLikePhishing(s: Static) {
    || s.credentialTheft || s.phishing
    || ("android.permission.SYSTEM_ALERT_WINDOW" in s.permissions
        && ("android.permission.INTERNET" in s.permissions || s.urls))
  }

  lemma CredentialImpactIs(hs: seq<Hypothesis>, f: Findings, evidence: seq<StaticEvidence>,
                           mentionsDumpsys: Item -> bool, payloads: seq<string>)
    ensures DeriveImpact(f, VerifyAll(hs, f, evidence, mentionsDumpsys), payloads).credentials.status ==
              if Proven(hs, DataExfiltration, f, mentionsDumpsys) then ImpactConfirmed
              else if LooksLikePhishing(f.static_) || LastSupported(hs, DataExfiltration, f, mentionsDumpsys)
              then ImpactSupported
              else NotObserved
  {
    hide Decide, Judged, LastOf, VerifyAll, Confirming, LastHypothesis, Distinct, Investigated, LastSupported;
    JudgedIs(hs, f, evidence, mentionsDumpsys, DataExfiltration, HasStaticCredentialSignal(f.static_));
  }

  /* ---------- Accessibility abuse and automated transactions ---------- */

  /** Transactions follow accessibility abuse: confirmed with it, and possible where it is supported. */
  lemma AccessibilityImpactIs(hs: seq<Hypothesis>, f: Findings, evidence: seq<StaticEvidence>,
                              mentionsDumpsys: Item -> bool, payloads: seq<string>)
    ensures var r := DeriveImpact(f, VerifyAll(hs, f, evidence, mentionsDumpsys), payloads);
            var proven := Proven(hs, AccessibilityAbuse, f, mentionsDumpsys);
            var supported := f.static_.accessibilityService || f.static_.inputInjection
                             || LastSupported(hs, AccessibilityAbuse, f, mentionsDumpsys);
            && r.accessibility.status ==
                 (if proven then ImpactConfirmed else if supported then ImpactSupported else NotObserved)
            && r.transactions.status ==
                 (if proven then ImpactConfirmed else if supported then Possible else NotObserved)
  {
    hide Decide, Judged, LastOf, VerifyAll, Confirming, LastHypothesis, Distinct, Investigated, LastSupported;
    JudgedIs(hs, f, evidence, mentionsDumpsys, AccessibilityAbuse,
             f.static_.accessibilityService || f.static_.inputInjection);
  }

  /* ---------- Account takeover ---------- */

  /** A takeover needs both halves to be confirmed, and is possible as soon as there is a sign of either. */
  lemma TakeoverImpactIs(hs: seq<Hypothesis>, f: Findings, evidence: seq<StaticEvidence>,
                         mentionsDumpsys: Item -> bool, payloads: seq<string>)
    ensures var otp := Proven(hs, OtpInterception, f, mentionsDumpsys);
            var credentials := Proven(hs, DataExfiltration, f, mentionsDumpsys);
            DeriveImpact(f, VerifyAll(hs, f, evidence, mentionsDumpsys), payloads).takeover.status ==
              if otp && credentials then ImpactConfirmed
              else if otp || credentials || CanReadSms(f.static_) || LooksLikePhishing(f.static_)
                      || LastSupported(hs, DataExfiltration, f, mentionsDumpsys)
              then Possible
              else NotObserved
  {
    hide Decide, Judged, LastOf, VerifyAll, Confirming, LastHypothesis, Distinct, Investigated, LastSupported,
         CanReadSms, LooksLikePhishing, SmsCapable, HasStaticCredentialSignal;
    OtpImpactIs(hs, f, evidence, mentionsDumpsys, payloads);
    CredentialImpactIs(hs, f, evidence, mentionsDumpsys, payloads);
  }

  /* ---------- Code loading and recovered payloads ---------- */

  /** A load that instrumentation or the system saw. */
  ghost predicate LoadWasSeen(f: Findings) {
    exists e :: e in f.runtime && e.kind in {"dynamic_code_load", "classloader_event"}
                && e.trust in {Instrumented, PayloadCorrelated, SystemObserved}
  }

  /** No hypothesis confirms code loading: a trusted runtime record does, whatever was investigated. */
  lemma CodeLoadingImpactIs(hs: seq<Hypothesis>, f: Findings, evidence: seq<StaticEvidence>,
                            mentionsDumpsys: Item -> bool, payloads: seq<string>)
    ensures DeriveImpact(f, VerifyAll(hs, f, evidence, mentionsDumpsys), payloads).codeLoading.status ==
              if LoadWasSeen(f) then ImpactConfirmed
              else if f.static_.codeLoading || LastSupported(hs, Category.DynamicCodeLoading, f, mentionsDumpsys)
              then ImpactSupported
              else NotObserved
  {
    hide Decide, Judged, LastOf, VerifyAll, LastHypothesis, Distinct, Investigated, LastSupported;
    JudgedIs(hs, f, evidence, mentionsDumpsys, Category.DynamicCodeLoading, f.static_.codeLoading);
    LoadSeenMeans(f);
  }

  lemma LoadSeenMeans(f: Findings)
    ensures AnyTrustedLoad(f.runtime) <==> LoadWasSeen(f)
  {
    if e :| e in f.runtime && e.kind in {"dynamic_code_load", "classloader_event"}
            && e.trust in {Instrumented, PayloadCorrelated, SystemObserved}
    {
      var i :| 0 <= i < |f.runtime| && f.runtime[i] == e;
      assert TrustedLoad(f.runtime[i]);
    }
    if i :| 0 <= i < |f.runtime| && TrustedLoad(f.runtime[i]) {
      assert f.runtime[i] in f.runtime;
    }
  }

  /** A recovered payload is always a confirmed one, cited by its id. */
  lemma PayloadImpactIs(f: Findings, vs: seq<Verification>, payloads: seq<string>)
    ensures var r := DeriveImpact(f, vs, payloads).payload;
            && r.status == (if payloads == [] then NotObserved else ImpactConfirmed)
            && ToSet(r.ids) == ToSet(payloads) - {""} && NoDuplicates(r.ids)
  {
    DistinctIsASet(payloads);
  }

  /* ---------- What the items cite ---------- */

  lemma {:induction false} LoadIdsAre(items: seq<Item>, id: string)
    ensures id in LoadIds(items) <==>
              id != "" && exists e :: e in items && e.id == id && e.kind in {"dynamic_code_load", "classloader_event"}
  {
    if items != [] {
      LoadIdsAre(items[1..], id);
      assert forall e :: e in items <==> e == items[0] || e in items[1..];
    }
  }

  lemma JudgedRange(v: Option<Verification>, hasStatic: bool)
    ensures Judged(v, hasStatic) != Possible
    ensures Judged(v, hasStatic) == NotObserved ==> JudgedIds(v, Judged(v, hasStatic)) == []
  {
  }

  /** Takeover and transactions cite what their parts cite; a confirmed load cites the load records. */
  lemma DerivedItemsCite(f: Findings, vs: seq<Verification>, payloads: seq<string>)
    ensures var r := DeriveImpact(f, vs, payloads);
            && (r.takeover.status != NotObserved ==>
                  ToSet(r.takeover.ids) == ToSet(r.otp.ids) + ToSet(r.credentials.ids))
            && (r.takeover.status == NotObserved ==> r.takeover.ids == [])
            && ToSet(r.transactions.ids) == ToSet(r.accessibility.ids)
            && (r.codeLoading.status == ImpactConfirmed ==>
                  forall id :: id in r.codeLoading.ids <==>
                    id != "" && exists e :: e in f.runtime && e.id == id
                                            && e.kind in {"dynamic_code_load", "classloader_event"})
  {
    hide Judged, LastOf, SmsCapable, HasStaticCredentialSignal, AnyTrustedLoad;
    var s := f.static_;
    var otp := Judged(LastOf(vs, OtpInterception), SmsCapable(s));
    var cred := Judged(LastOf(vs, DataExfiltration), HasStaticCredentialSignal(s));
    var acc := Judged(LastOf(vs, AccessibilityAbuse), s.accessibilityService || s.inputInjection);
    var otpIds, credIds := JudgedIds(LastOf(vs, OtpInterception), otp), JudgedIds(LastOf(vs, DataExfiltration), cred);
    var accIds := JudgedIds(LastOf(vs, AccessibilityAbuse), acc);
    hide Distinct, LoadIds;
    DistinctIsASet(otpIds);
    DistinctIsASet(credIds);
    DistinctIsASet(otpIds + credIds);
    DistinctIsASet(accIds);
    DistinctIsASet([]);
    JudgedRange(LastOf(vs, AccessibilityAbuse), s.accessibilityService || s.inputInjection);
    DistinctIsASet(LoadIds(f.runtime));
    assert ToSet(otpIds + credIds) == ToSet(otpIds) + ToSet(credIds);
    if DeriveImpact(f, vs, payloads).codeLoading.status == ImpactConfirmed {
      forall id ensures id in Distinct(LoadIds(f.runtime)) <==>
          id != "" && exists e :: e in f.runtime && e.id == id && e.kind in {"dynamic_code_load", "classloader_event"}
      {
        LoadIdsAre(f.runtime, id);
        assert id in ToSet(Distinct(LoadIds(f.runtime))) <==> id in ToSet(LoadIds(f.runtime)) - {""};
      }
    }
  }

  /** A judged item that is confirmed cites the runtime records that bear on its category. */
  lemma ConfirmedItemsCite(hs: seq<Hypothesis>, f: Findings, evidence: seq<StaticEvidence>,
                           mentionsDumpsys: Item -> bool, payloads: seq<string>, e: Item)
    requires e in f.runtime && e.id != "" && |f.runtime| < 30
    ensures var r := DeriveImpact(f, VerifyAll(hs, f, evidence, mentionsDumpsys), payloads);
            && (r.otp.status == ImpactConfirmed && e.kind in Bearing(OtpInterception) ==> e.id in r.otp.ids)
            && (r.credentials.status == ImpactConfirmed && e.kind in Bearing(DataExfiltration) ==>
                  e.id in r.credentials.ids)
            && (r.accessibility.status == ImpactConfirmed && e.kind in Bearing(AccessibilityAbuse) ==>
                  e.id in r.accessibility.ids)
  {
    hide Judged, LastOf, SmsCapable, HasStaticCredentialSignal, AnyTrustedLoad, Distinct, VerifyAll, LoadIds, Bearing,
         JudgedIds;
    var vs, s := VerifyAll(hs, f, evidence, mentionsDumpsys), f.static_;
    JudgedItemCites(hs, f, evidence, mentionsDumpsys, OtpInterception, SmsCapable(s), e);
    JudgedItemCites(hs, f, evidence, mentionsDumpsys, DataExfiltration, HasStaticCredentialSignal(s), e);
    JudgedItemCites(hs, f, evidence, mentionsDumpsys, AccessibilityAbuse,
                    s.accessibilityService || s.inputInjection, e);
  }

  lemma JudgedItemCites(hs: seq<Hypothesis>, f: Findings, evidence: seq<StaticEvidence>,
                        mentionsDumpsys: Item -> bool, c: Category, hasStatic: bool, e: Item)
    requires e in f.runtime && e.id != "" && |f.runtime| < 30
    ensures var v := LastOf(VerifyAll(hs, f, evidence, mentionsDumpsys), c);
            Judged(v, hasStatic) == ImpactConfirmed && e.kind in Bearing(c) ==>
              e.id in Distinct(JudgedIds(v, ImpactConfirmed))
  {
    hide LastOf, VerifyAll, Distinct, Bearing, Verify;
    LastVerification(hs, f, evidence, mentionsDumpsys, c);
    var v := LastOf(VerifyAll(hs, f, evidence, mentionsDumpsys), c);
    if Judged(v, hasStatic) == ImpactConfirmed && e.kind in Bearing(c) {
      var ids := JudgedIds(v, ImpactConfirmed);
      RecordIs(LastHypothesis(hs, c).value, f, evidence, mentionsDumpsys);
      FewRuntimeIds(LastHypothesis(hs, c).value, f, evidence, mentionsDumpsys);
      assert e.id in ids;
      DistinctIsASet(ids);
      assert e.id in ToSet(Distinct(ids));
    }
  }

  /** A judged item that is only supported cites static findings alone. */
  lemma SupportedItemsCite(hs: seq<Hypothesis>, f: Findings, evidence: seq<StaticEvidence>,
                           mentionsDumpsys: Item -> bool, payloads: seq<string>, id: string)
    ensures var r := DeriveImpact(f, VerifyAll(hs, f, evidence, mentionsDumpsys), payloads);
            && (r.otp.status == ImpactSupported && id in r.otp.ids ==>
                  exists s :: s in evidence && s.id == id && Speaks(OtpInterception, s.text))
            && (r.credentials.status == ImpactSupported && id in r.credentials.ids ==>
                  exists s :: s in evidence && s.id == id && Speaks(DataExfiltration, s.text))
            && (r.accessibility.status == ImpactSupported && id in r.accessibility.ids ==>
                  exists s :: s in evidence && s.id == id && Speaks(AccessibilityAbuse, s.text))
  {
    hide Judged, LastOf, SmsCapable, HasStaticCredentialSignal, AnyTrustedLoad, Distinct, VerifyAll, LoadIds, Speaks,
         JudgedIds;
    SupportedItemCites(hs, f, evidence, mentionsDumpsys, OtpInterception, id);
    SupportedItemCites(hs, f, evidence, mentionsDumpsys, DataExfiltration, id);
    SupportedItemCites(hs, f, evidence, mentionsDumpsys, AccessibilityAbuse, id);
  }

  lemma SupportedItemCites(hs: seq<Hypothesis>, f: Findings, evidence: seq<StaticEvidence>,
                           mentionsDumpsys: Item -> bool, c: Category, id: string)
    ensures var v := LastOf(VerifyAll(hs, f, evidence, mentionsDumpsys), c);
            id in Distinct(JudgedIds(v, ImpactSupported)) ==>
              exists s :: s in evidence && s.id == id && Speaks(c, s.text)
  {
    hide LastOf, VerifyAll, Distinct, Speaks, Verify;
    LastVerification(hs, f, evidence, mentionsDumpsys, c);
    var v := LastOf(VerifyAll(hs, f, evidence, mentionsDumpsys), c);
    var ids := JudgedIds(v, ImpactSupported);
    DistinctIsASet(ids);
    if id in Distinct(ids) {
      assert id in ToSet(Distinct(ids)) && id in ToSet(ids);
      RecordIs(LastHypothesis(hs, c).value, f, evidence, mentionsDumpsys);
    }
  }

  lemma FewRuntimeIds(h: Hypothesis, f: Findings, evidence: seq<StaticEvidence>, mentionsDumpsys: Item -> bool)
    ensures |Verify(h, f, evidence, mentionsDumpsys).runtimeIds| <= |f.runtime|
  {
    hide Decide;
    var ids := RuntimeIdsOf(f.runtime, RuntimeKinds(h.category));
    RuntimeIdsAtMost(f.runtime, RuntimeKinds(h.category));
    DistinctIsASet(ids);
  }

  lemma {:induction false} RuntimeIdsAtMost(items: seq<Item>, kinds: seq<string>)
    ensures |RuntimeIdsOf(items, kinds)| <= |items|
  {
    if items != [] {
      RuntimeIdsAtMost(items[1..], kinds);
    }
  }
}
