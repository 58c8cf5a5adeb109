/**
 `HypothesisVerifier`: the deterministic decision procedures, what exactly
 confirms a hypothesis, and that nothing the AI says takes part in it.
 */
module Verifier {
  import opened Common
  import opened Evidence

  datatype Category =
    | OtpInterception | AccessibilityAbuse | CredentialPhishing | OverlayAttack | DataExfiltration
    | DynamicCodeLoading | DeviceReconnaissance | BankImpersonation | RemoteControl | UnknownBehavior

  datatype Status = Proposed | Supported | Contradicted | Confirmed | Inconclusive

  /** A hypothesis as the AI states it and the verifier completes it. */
  datatype Hypothesis = Hypothesis(
    id: string, category: Category, status: Status, confidence: real, title: string, reasoning: string,
    supporting: seq<string>, contradicting: seq<string>, missing: seq<string>, experiments: seq<string>,
    nextSteps: seq<string>, limitations: seq<string>, strength: real, runtimeIds: seq<string>)

  /** What the static extraction contributes to verification and impact. */
  datatype Static = Static(
    permissions: set<string>, smsReceiver: bool, smsApi: bool, accessibilityService: bool, accessibilityApi: bool,
    urls: bool, networkIndicators: bool, credentialTheft: bool, phishing: bool, inputInjection: bool, codeLoading: bool)

  datatype ExperimentType =
    | SyntheticSms | LogcatCapture | NetworkObservation | AccessibilityObservation | OtherType(name: string)
  datatype ExperimentStatus = Completed | Failed | TimedOut | OtherStatus(name: string)
  datatype Experiment = Experiment(id: string, kind: ExperimentType, status: ExperimentStatus)

  datatype Findings = Findings(static_: Static, runtime: seq<Item>, experiments: seq<Experiment>)

  /** Normalised static evidence: its id and its searched text, already lower-cased. */
  datatype StaticEvidence = StaticEvidence(id: string, text: string)

  datatype Verdict = Verdict(status: Status, strength: real, observed: seq<string>, missing: seq<string>, allowed: bool)

  datatype Verification = Verification(
    hypothesisId: string, category: Category, originalStatus: Status, status: Status, strength: real,
    aiConfidence: real, staticIds: seq<string>, runtimeIds: seq<string>, experimentIds: seq<string>,
    observed: seq<string>, missing: seq<string>, allowed: bool)

  /* ---------- _unique_strings ---------- */

  /** The non-empty values in order of first occurrence. */
  function Distinct(values: seq<string>): seq<string> {
    if values == [] then []
    else
      var n := |values| - 1;
      var before := Distinct(values[..n]);
      if values[n] == "" || values[n] in before then before else before + [values[n]]
  }

  function Take(values: seq<string>, limit: nat): seq<string> {
    if |values| <= limit then values else values[..limit]
  }

  function UniqueStrings(values: seq<string>, limit: nat): seq<string> {
    Take(Distinct(values), limit)
  }

  lemma {:induction false} DistinctIsASet(values: seq<string>)
    ensures NoDuplicates(Distinct(values))
    ensures ToSet(Distinct(values)) == ToSet(values) - {""}
    ensures |Distinct(values)| <= |values|
  {
    if values != [] {
      var n := |values| - 1;
      var before, last := Distinct(values[..n]), values[n];
      DistinctIsASet(values[..n]);
      assert values == values[..n] + [last];
      assert ToSet(values) == ToSet(values[..n]) + {last};
      assert ToSet(before + [last]) == ToSet(before) + {last};
      assert last in before <==> last in ToSet(before);
    }
  }

  lemma {:induction false} DistinctPrefix(values: seq<string>, i: nat)
    requires i <= |values|
    ensures Distinct(values[..i]) <= Distinct(values)
    decreases |values|
  {
    if i == |values| {
      assert values[..i] == values;
    } else {
      var n := |values| - 1;
      assert values[..n][..i] == values[..i];
      DistinctPrefix(values[..n], i);
    }
  }

  lemma DistinctNext(values: seq<string>, i: nat)
    requires i < |values|
    ensures Distinct(values[..0]) == []
    ensures var before := Distinct(values[..i]);
            Distinct(values[..i + 1]) ==
            if values[i] == "" || values[i] in before then before else before + [values[i]]
  {
    assert values[..i + 1][..i] == values[..i];
  }

  /** What a limited list guarantees: no duplicates, no empty text, nothing invented, nothing lost below the limit. */
  lemma UniqueStringsSpec(values: seq<string>, limit: nat)
    ensures var r := UniqueStrings(values, limit);
            && NoDuplicates(r) && "" !in r && |r| <= limit
            && ToSet(r) <= ToSet(values)
            && (|r| < limit ==> ToSet(r) == ToSet(values) - {""})
  {
    DistinctIsASet(values);
    var d, r := Distinct(values), UniqueStrings(values, limit);
    assert forall x | x in r :: x in d;
    assert forall x | x in d :: x in ToSet(d);
    assert |r| < limit ==> r == d;
  }

  /** The loop stops as soon as the limit is reached. */
  method CollectUnique(values: seq<string>, limit: nat) returns (r: seq<string>)
    requires limit >= 1
    ensures r == UniqueStrings(values, limit)
  {
    r := [];
    var seen: set<string> := {};
    assert values[..0] == [];
    var i := 0;
    while i < |values|
      invariant 0 <= i <= |values|
      invariant r == Distinct(values[..i]) && seen == ToSet(r) && |r| < limit
    {
      DistinctNext(values, i);
      if values[i] != "" && values[i] !in seen {
        r := r + [values[i]];
        seen := seen + {values[i]};
      }
      i := i + 1;
      if |r| >= limit {
        DistinctPrefix(values, i);
        return;
      }
    }
    assert values[..i] == values;
  }

  /* ---------- Indexes over the findings ---------- */

  function ByKind(items: seq<Item>, kind: string): seq<Item> {
    if items == [] then []
    else (if items[0].kind == kind then [items[0]] else []) + ByKind(items[1..], kind)
  }

  lemma {:induction false} InByKind(items: seq<Item>, kind: string, e: Item)
    ensures e in ByKind(items, kind) <==> e in items && e.kind == kind
  {
    if items != [] {
      InByKind(items[1..], kind, e);
    }
  }

  predicate AnyTrusted(items: seq<Item>, trusts: set<Trust>) {
    exists i :: 0 <= i < |items| && items[i].trust in trusts
  }

  predicate Ran(experiments: seq<Experiment>, kinds: set<ExperimentType>, statuses: set<ExperimentStatus>) {
    exists i :: 0 <= i < |experiments| && experiments[i].kind in kinds && experiments[i].status in statuses
  }

  const FAILURES := {Failed, TimedOut}

  function Earliest(items: seq<Item>): int
    requires items != []
  {
    if |items| == 1 then items[0].timestamp else Min(items[0].timestamp, Earliest(items[1..]))
  }

  lemma {:induction false} EarliestIsMinimum(items: seq<Item>)
    requires items != []
    ensures forall i | 0 <= i < |items| :: Earliest(items) <= items[i].timestamp
    ensures exists i :: 0 <= i < |items| && Earliest(items) == items[i].timestamp
  {
    if |items| == 1 {
      assert Earliest(items) == items[0].timestamp;
    } else {
      EarliestIsMinimum(items[1..]);
      var i :| 0 <= i < |items[1..]| && Earliest(items[1..]) == items[1..][i].timestamp;
      assert Earliest(items) == items[0].timestamp || Earliest(items) == items[i + 1].timestamp;
      forall j | 0 <= j < |items| ensures Earliest(items) <= items[j].timestamp {
        assert j > 0 ==> items[1..][j - 1] == items[j];
      }
    }
  }

  predicate MarkerPrecedesNetwork(markers: seq<Item>, network: seq<Item>) {
    markers != [] && network != []
    && exists i :: 0 <= i < |network| && network[i].timestamp >= Earliest(markers)
  }

  predicate ClaimsPayload(e: Item) {
    e.trust == PayloadCorrelated || Lookup(e.metadata, PAYLOAD_FLAG) == Some(Flag(true))
  }

  predicate AnyClaim(items: seq<Item>) {
    exists i :: 0 <= i < |items| && ClaimsPayload(items[i])
  }

  /* ---------- Static signals ---------- */

  const READ_SMS := "android.permission.READ_SMS"
  const RECEIVE_SMS := "android.permission.RECEIVE_SMS"
  const INTERNET := "android.permission.INTERNET"
  const OVERLAY := "android.permission.SYSTEM_ALERT_WINDOW"

  function If(condition: bool, text: string): seq<string> {
    if condition then [text] else []
  }

  function OtpStaticSignals(s: Static): seq<string> {
    If(READ_SMS in s.permissions, "READ_SMS") + If(RECEIVE_SMS in s.permissions, "RECEIVE_SMS")
    + If(s.smsReceiver, "sms_receiver") + If(s.smsApi, "SmsManager")
  }

  predicate SmsCapable(s: Static) {
    READ_SMS in s.permissions || RECEIVE_SMS in s.permissions || s.smsReceiver || s.smsApi
  }

  predicate NetworkCapable(s: Static) {
    INTERNET in s.permissions || s.urls || s.networkIndicators
  }

  predicate AccessibilityCapable(s: Static) {
    s.accessibilityService || s.accessibilityApi
  }

  function Downgraded(status: Status, hasStatic: bool): Status {
    if !hasStatic then Proposed
    else if status == Confirmed then Supported
    else status
  }

  /* ---------- The decision procedures ---------- */

  function VerifyOtp(h: Hypothesis, f: Findings): Verdict {
    var signals := OtpStaticSignals(f.static_);
    var delivered, access, marker :=
      ByKind(f.runtime, SMS_DELIVERED), ByKind(f.runtime, SMS_ACCESS), ByKind(f.runtime, MARKER_CORRELATION);
    var failed := Ran(f.experiments, {SyntheticSms, LogcatCapture}, FAILURES);
    var completed := Ran(f.experiments, {SyntheticSms}, {Completed});
    var observed := signals + If(delivered != [], SMS_DELIVERED) + If(access != [], SMS_ACCESS)
                    + If(marker != [], MARKER_CORRELATION);
    var missing := If(delivered == [], SMS_DELIVERED) + If(access == [], SMS_ACCESS)
                   + If(marker == [], MARKER_CORRELATION);
    var supported := signals != [];
    var accessed := access != [] || marker != [];
    var allowed := supported && delivered != [] && accessed
                   && AnyTrusted(delivered, {Instrumented, PayloadCorrelated, SystemObserved})
                   && AnyTrusted(access + marker, {Instrumented, PayloadCorrelated});
    if allowed then Verdict(Confirmed, 1.0, observed, missing, allowed)
    else if failed then Verdict(Inconclusive, if supported then 0.35 else 0.1, observed, missing, allowed)
    else if completed && delivered != [] && !accessed then Verdict(Contradicted, 0.25, observed, missing, allowed)
    else if supported && (delivered != [] || accessed) then
      Verdict(Supported, if accessed then 0.75 else 0.55, observed, missing, allowed)
    else if supported then Verdict(Supported, 0.45, observed, missing, allowed)
    else Verdict(Downgraded(h.status, supported), 0.15, observed, missing, allowed)
  }

  function VerifyExfiltration(h: Hypothesis, f: Findings): Verdict {
    var marker := ByKind(f.runtime, MARKER_CORRELATION);
    var network := ByKind(f.runtime, NETWORK) + ByKind(f.runtime, DNS);
    var supported := NetworkCapable(f.static_);
    var failed := Ran(f.experiments, {NetworkObservation, SyntheticSms}, FAILURES);
    var completed := Ran(f.experiments, {NetworkObservation}, {Completed});
    var ordered := MarkerPrecedesNetwork(marker, network);
    var observed := If(supported, "static_network_or_internet_signal") + If(marker != [], MARKER_CORRELATION)
                    + If(network != [], NETWORK);
    var missing := If(marker == [], MARKER_CORRELATION) + If(network == [], NETWORK);
    var allowed := marker != [] && network != [] && ordered && AnyClaim(marker + network);
    if allowed then Verdict(Confirmed, 0.95, observed, missing, allowed)
    else if failed then Verdict(Inconclusive, if supported then 0.35 else 0.1, observed, missing, allowed)
    else if completed && marker != [] && network == [] then Verdict(Contradicted, 0.3, observed, missing, allowed)
    else if marker != [] && network != [] && ordered then Verdict(Supported, 0.60, observed, missing, allowed)
    else if supported || marker != [] || network != [] then Verdict(Supported, 0.50, observed, missing, allowed)
    else Verdict(Downgraded(h.status, true), 0.15, observed, missing, allowed)
  }

  /** `dumpsys` in the printed metadata: searching that text is a parameter. */
  function VerifyAccessibility(h: Hypothesis, f: Findings, mentionsDumpsys: Item -> bool): Verdict {
    var items := ByKind(f.runtime, ACCESSIBILITY);
    var supported := AccessibilityCapable(f.static_);
    var failed := Ran(f.experiments, {AccessibilityObservation, LogcatCapture}, FAILURES);
    var completed := Ran(f.experiments, {AccessibilityObservation}, {Completed});
    var observed := If(supported, "static_accessibility_signal") + If(items != [], ACCESSIBILITY);
    var missing := If(!supported, "static_accessibility_signal") + If(items == [], ACCESSIBILITY);
    var allowed := supported && items != [] && AnyBinding(items, mentionsDumpsys);
    if allowed then Verdict(Confirmed, 0.95, observed, missing, allowed)
    else if failed then Verdict(Inconclusive, if supported then 0.35 else 0.1, observed, missing, allowed)
    else if completed && supported && items == [] then Verdict(Contradicted, 0.3, observed, missing, allowed)
    else if supported && items != [] then Verdict(Supported, 0.70, observed, missing, allowed)
    else if supported || items != [] then Verdict(Supported, 0.50, observed, missing, allowed)
    else Verdict(Downgraded(h.status, true), 0.15, observed, missing, allowed)
  }

  predicate ShowsBinding(e: Item, mentionsDumpsys: Item -> bool) {
    e.trust in {SystemObserved, Instrumented} || mentionsDumpsys(e)
  }

  predicate AnyBinding(items: seq<Item>, mentionsDumpsys: Item -> bool) {
    exists i :: 0 <= i < |items| && ShowsBinding(items[i], mentionsDumpsys)
  }

  predicate AnyFailure(experiments: seq<Experiment>) {
    exists i :: 0 <= i < |experiments| && experiments[i].status in FAILURES
  }

  function VerifyGeneral(h: Hypothesis, f: Findings): Verdict {
    if AnyFailure(f.experiments) then Verdict(Inconclusive, 0.25, [], [], false)
    else if h.status == Confirmed then Verdict(Supported, 0.45, [], [], false)
    else Verdict(h.status, if f.runtime != [] then 0.35 else 0.2, [], [], false)
  }

  function Decide(h: Hypothesis, f: Findings, mentionsDumpsys: Item -> bool): Verdict {
    match h.category
    case OtpInterception => VerifyOtp(h, f)
    case DataExfiltration => VerifyExfiltration(h, f)
    case AccessibilityAbuse => VerifyAccessibility(h, f, mentionsDumpsys)
    case _ => VerifyGeneral(h, f)
  }

  /* ---------- The verification record ---------- */

  function StaticTokens(c: Category): seq<string> {
    match c
    case OtpInterception => ["read_sms", "receive_sms", "sms_receiver", "smsmanager"]
    case DataExfiltration => ["internet", "network", "domain", "url", "ip"]
    case AccessibilityAbuse => ["accessibility_service", "accessibilityservice", "accessibility_api"]
    case _ => []
  }

  function RuntimeKinds(c: Category): seq<string> {
    match c
    case OtpInterception => [SMS_DELIVERED, SMS_ACCESS, MARKER_CORRELATION]
    case DataExfiltration => [MARKER_CORRELATION, NETWORK, DNS]
    case AccessibilityAbuse => [ACCESSIBILITY]
    case _ => []
  }

  function ExperimentKinds(c: Category): set<ExperimentType> {
    match c
    case OtpInterception => {SyntheticSms, LogcatCapture}
    case DataExfiltration => {NetworkObservation, SyntheticSms}
    case AccessibilityAbuse => {AccessibilityObservation, LogcatCapture}
    case _ => {}
  }

  predicate AnyToken(tokens: seq<string>, text: string) {
    exists i :: 0 <= i < |tokens| && Contains(text, tokens[i])
  }

  function MatchingIds(evidence: seq<StaticEvidence>, tokens: seq<string>): seq<string> {
    if evidence == [] then []
    else (if AnyToken(tokens, evidence[0].text) then [evidence[0].id] else []) + MatchingIds(evidence[1..], tokens)
  }

  function RuntimeIdsOf(items: seq<Item>, kinds: seq<string>): seq<string> {
    if items == [] then []
    else (if items[0].kind in kinds then [items[0].id] else []) + RuntimeIdsOf(items[1..], kinds)
  }

  function ExperimentIdsOf(experiments: seq<Experiment>, kinds: set<ExperimentType>): seq<string> {
    if experiments == [] then []
    else (if experiments[0].kind in kinds then [experiments[0].id] else []) + ExperimentIdsOf(experiments[1..], kinds)
  }

  function Clamp01(x: real): real {
    if x < 0.0 then 0.0 else if x > 1.0 then 1.0 else x
  }

  function Verify(h: Hypothesis, f: Findings, evidence: seq<StaticEvidence>, mentionsDumpsys: Item -> bool)
    : Verification
  {
    var v := Decide(h, f, mentionsDumpsys);
    Verification(h.id, h.category, h.status, v.status, Clamp01(v.strength), Clamp01(h.confidence),
                 UniqueStrings(MatchingIds(evidence, StaticTokens(h.category)), 30),
                 UniqueStrings(RuntimeIdsOf(f.runtime, RuntimeKinds(h.category)), 30),
                 UniqueStrings(ExperimentIdsOf(f.experiments, ExperimentKinds(h.category)), 30),
                 UniqueStrings(v.observed, 20), UniqueStrings(v.missing, 20), v.allowed)
  }

  function VerifyAll(hs: seq<Hypothesis>, f: Findings, evidence: seq<StaticEvidence>, mentionsDumpsys: Item -> bool)
    : (vs: seq<Verification>)
    ensures |vs| == |hs|
    ensures forall i | 0 <= i < |hs| :: vs[i] == Verify(hs[i], f, evidence, mentionsDumpsys)
  {
    if hs == [] then []
    else [Verify(hs[0], f, evidence, mentionsDumpsys)] + VerifyAll(hs[1..], f, evidence, mentionsDumpsys)
  }

  /* ---------- What confirms ---------- */

  ghost predicate TrustedDelivery(e: Item) {
    e.kind == SMS_DELIVERED && e.trust in {Instrumented, PayloadCorrelated, SystemObserved}
  }

  ghost predicate TrustedAccess(e: Item) {
    e.kind in {SMS_ACCESS, MARKER_CORRELATION} && e.trust in {Instrumented, PayloadCorrelated}
  }

  predicate IsNetworkKind(kind: string) {
    kind == NETWORK || kind == DNS
  }

  ghost predicate Claiming(e: Item) {
    (e.kind == MARKER_CORRELATION || IsNetworkKind(e.kind)) && ClaimsPayload(e)
  }

  /** A marker record no later than a network record. */
  ghost predicate InOrder(marker: Item, network: Item) {
    marker.kind == MARKER_CORRELATION && IsNetworkKind(network.kind) && marker.timestamp <= network.timestamp
  }

  lemma AnyTrustedMeans(items: seq<Item>, kind: string, trusts: set<Trust>)
    ensures AnyTrusted(ByKind(items, kind), trusts) <==> exists e :: e in items && e.kind == kind && e.trust in trusts
    ensures AnyTrusted(ByKind(items, kind), trusts) ==> ByKind(items, kind) != []
  {
    var found := ByKind(items, kind);
    if i :| 0 <= i < |found| && found[i].trust in trusts {
      InByKind(items, kind, found[i]);
    }
    if e :| e in items && e.kind == kind && e.trust in trusts {
      InByKind(items, kind, e);
      var i :| 0 <= i < |found| && found[i] == e;
    }
  }

  lemma AnyTrustedConcat(a: seq<Item>, b: seq<Item>, trusts: set<Trust>)
    ensures AnyTrusted(a + b, trusts) <==> AnyTrusted(a, trusts) || AnyTrusted(b, trusts)
  {
    if i :| 0 <= i < |a| && a[i].trust in trusts {
      assert (a + b)[i] == a[i];
    }
    if i :| 0 <= i < |b| && b[i].trust in trusts {
      assert (a + b)[|a| + i] == b[i];
    }
  }

  lemma SignalsMeanCapable(s: Static)
    ensures OtpStaticSignals(s) != [] <==> SmsCapable(s)
  {
  }

  /** An OTP hypothesis is confirmed exactly by a capability, a trusted delivery and a trusted access or correlation. */
  lemma OtpConfirmedIff(h: Hypothesis, f: Findings)
    ensures VerifyOtp(h, f).status == Confirmed <==>
              && SmsCapable(f.static_)
              && (exists d :: d in f.runtime && TrustedDelivery(d))
              && (exists a :: a in f.runtime && TrustedAccess(a))
    ensures VerifyOtp(h, f).status == Confirmed <==> VerifyOtp(h, f).allowed
  {
    hide ByKind, AnyTrusted, OtpStaticSignals, SmsCapable, Ran, If;
    SignalsMeanCapable(f.static_);
    var delivered, access, marker :=
      ByKind(f.runtime, SMS_DELIVERED), ByKind(f.runtime, SMS_ACCESS), ByKind(f.runtime, MARKER_CORRELATION);
    var trusted := {Instrumented, PayloadCorrelated};
    AnyTrustedMeans(f.runtime, SMS_DELIVERED, {Instrumented, PayloadCorrelated, SystemObserved});
    AnyTrustedMeans(f.runtime, SMS_ACCESS, trusted);
    AnyTrustedMeans(f.runtime, MARKER_CORRELATION, trusted);
    AnyTrustedConcat(access, marker, trusted);
    assert (exists a :: a in f.runtime && TrustedAccess(a)) <==>
           AnyTrusted(access, trusted) || AnyTrusted(marker, trusted);
    assert (exists d :: d in f.runtime && TrustedDelivery(d)) <==>
             AnyTrusted(delivered, {Instrumented, PayloadCorrelated, SystemObserved});
  }

  lemma OrderedMeans(items: seq<Item>)
    ensures var network := ByKind(items, NETWORK) + ByKind(items, DNS);
            MarkerPrecedesNetwork(ByKind(items, MARKER_CORRELATION), network)
            <==> exists m, n :: m in items && n in items && InOrder(m, n)
  {
    var marker, network := ByKind(items, MARKER_CORRELATION), ByKind(items, NETWORK) + ByKind(items, DNS);
    if MarkerPrecedesNetwork(marker, network) {
      EarliestIsMinimum(marker);
      var i :| 0 <= i < |marker| && Earliest(marker) == marker[i].timestamp;
      var j :| 0 <= j < |network| && network[j].timestamp >= Earliest(marker);
      InByKind(items, MARKER_CORRELATION, marker[i]);
      InByKind(items, NETWORK, network[j]);
      InByKind(items, DNS, network[j]);
      assert InOrder(marker[i], network[j]);
    }
    if m, n :| m in items && n in items && InOrder(m, n) {
      InByKind(items, MARKER_CORRELATION, m);
      InByKind(items, NETWORK, n);
      InByKind(items, DNS, n);
      EarliestIsMinimum(marker);
      assert n in network;
      var j :| 0 <= j < |network| && network[j] == n;
      var i :| 0 <= i < |marker| && marker[i] == m;
    }
  }

  lemma ClaimMeans(items: seq<Item>)
    ensures AnyClaim(ByKind(items, MARKER_CORRELATION) + (ByKind(items, NETWORK) + ByKind(items, DNS)))
            <==> exists c :: c in items && Claiming(c)
  {
    var all := ByKind(items, MARKER_CORRELATION) + (ByKind(items, NETWORK) + ByKind(items, DNS));
    if i :| 0 <= i < |all| && ClaimsPayload(all[i]) {
      InByKind(items, MARKER_CORRELATION, all[i]);
      InByKind(items, NETWORK, all[i]);
      InByKind(items, DNS, all[i]);
      assert Claiming(all[i]);
    }
    if c :| c in items && Claiming(c) {
      InByKind(items, MARKER_CORRELATION, c);
      InByKind(items, NETWORK, c);
      InByKind(items, DNS, c);
      assert c in all;
      var i :| 0 <= i < |all| && all[i] == c;
    }
  }

  /** An exfiltration hypothesis is confirmed exactly by an ordered marker and network pair and some payload claim. */
  lemma ExfiltrationConfirmedIff(h: Hypothesis, f: Findings)
    ensures VerifyExfiltration(h, f).status == Confirmed <==>
              && (exists m, n :: m in f.runtime && n in f.runtime && InOrder(m, n))
              && (exists c :: c in f.runtime && Claiming(c))
    ensures VerifyExfiltration(h, f).status == Confirmed <==> VerifyExfiltration(h, f).allowed
  {
    OrderedMeans(f.runtime);
    ClaimMeans(f.runtime);
  }

  lemma AccessibilityConfirmedIff(h: Hypothesis, f: Findings, mentionsDumpsys: Item -> bool)
    ensures VerifyAccessibility(h, f, mentionsDumpsys).status == Confirmed <==>
              && AccessibilityCapable(f.static_)
              && exists e :: e in f.runtime && e.kind == ACCESSIBILITY && ShowsBinding(e, mentionsDumpsys)
  {
    var items := ByKind(f.runtime, ACCESSIBILITY);
    if i :| 0 <= i < |items| && ShowsBinding(items[i], mentionsDumpsys) {
      InByKind(f.runtime, ACCESSIBILITY, items[i]);
    }
    if e :| e in f.runtime && e.kind == ACCESSIBILITY && ShowsBinding(e, mentionsDumpsys) {
      InByKind(f.runtime, ACCESSIBILITY, e);
      var i :| 0 <= i < |items| && items[i] == e;
    }
  }

  /** What must be in the findings for a category to be confirmed; no category but three ever is. */
  ghost predicate Confirming(c: Category, f: Findings, mentionsDumpsys: Item -> bool) {
    match c
    case OtpInterception =>
      && SmsCapable(f.static_)
      && (exists d :: d in f.runtime && TrustedDelivery(d)) && (exists a :: a in f.runtime && TrustedAccess(a))
    case DataExfiltration =>
      && (exists m, n :: m in f.runtime && n in f.runtime && InOrder(m, n))
      && (exists c :: c in f.runtime && Claiming(c))
    case AccessibilityAbuse =>
      && AccessibilityCapable(f.static_)
      && exists e :: e in f.runtime && e.kind == ACCESSIBILITY && ShowsBinding(e, mentionsDumpsys)
    case _ => false
  }

  /**
   A hypothesis is confirmed if and only if its category's conditions are in the
   findings. The AI's own status, confidence and texts take no part.
   */
  lemma ConfirmedIff(h: Hypothesis, f: Findings, mentionsDumpsys: Item -> bool)
    ensures Decide(h, f, mentionsDumpsys).status == Confirmed <==> Confirming(h.category, f, mentionsDumpsys)
  {
    hide VerifyOtp, VerifyExfiltration, VerifyAccessibility;
    match h.category {
      case OtpInterception => OtpConfirmedIff(h, f);
      case DataExfiltration => ExfiltrationConfirmedIff(h, f);
      case AccessibilityAbuse => AccessibilityConfirmedIff(h, f, mentionsDumpsys);
      case _ =>
    }
  }

  /* ---------- Stability and AI containment ---------- */

  /** More runtime evidence in any order, any other experiment results, the same static facts. */
  ghost predicate Extends(f': Findings, f: Findings) {
    f'.static_ == f.static_ && forall e | e in f.runtime :: e in f'.runtime
  }

  /** Confirmation is stable: later evidence and any experiment results never take it back. */
  lemma ConfirmationIsStable(h: Hypothesis, f: Findings, f': Findings, mentionsDumpsys: Item -> bool)
    requires Extends(f', f) && Decide(h, f, mentionsDumpsys).status == Confirmed
    ensures Decide(h, f', mentionsDumpsys).status == Confirmed
  {
    hide Decide, TrustedDelivery, TrustedAccess, InOrder, Claiming, ShowsBinding;
    ConfirmedIff(h, f, mentionsDumpsys);
    ConfirmedIff(h, f', mentionsDumpsys);
  }

  /** Confirmation depends on the category and the findings alone. */
  lemma AiCannotConfirm(h: Hypothesis, h': Hypothesis, f: Findings, mentionsDumpsys: Item -> bool)
    requires h.category == h'.category
    ensures Decide(h, f, mentionsDumpsys).status == Confirmed <==> Decide(h', f, mentionsDumpsys).status == Confirmed
    ensures Decide(h, f, mentionsDumpsys).status == Confirmed ==>
              h.category in {OtpInterception, DataExfiltration, AccessibilityAbuse}
  {
    hide Decide;
    ConfirmedIff(h, f, mentionsDumpsys);
    ConfirmedIff(h', f, mentionsDumpsys);
  }

  ghost predicate Separated(v: Verdict) {
    && (v.status == Confirmed <==> v.strength >= 0.95)
    && (v.status == Confirmed <==> v.allowed)
    && 0.1 <= v.strength <= 1.0 && (v.status != Confirmed ==> v.strength <= 0.75)
  }

  /** The strength of evidence separates confirmed hypotheses from all others. */
  lemma StrengthSeparates(h: Hypothesis, f: Findings, mentionsDumpsys: Item -> bool)
    ensures Separated(Decide(h, f, mentionsDumpsys))
  {
    hide ByKind, Ran, AnyTrusted, MarkerPrecedesNetwork, AnyClaim, AnyBinding, If;
  }

  /** The experiments whose failure leaves a category open. */
  predicate RelevantFailure(c: Category, f: Findings) {
    match c
    case OtpInterception => Ran(f.experiments, {SyntheticSms, LogcatCapture}, FAILURES)
    case DataExfiltration => Ran(f.experiments, {NetworkObservation, SyntheticSms}, FAILURES)
    case AccessibilityAbuse => Ran(f.experiments, {AccessibilityObservation, LogcatCapture}, FAILURES)
    case _ => AnyFailure(f.experiments)
  }

  ghost predicate Has(f: Findings, kind: string) {
    exists e :: e in f.runtime && e.kind == kind
  }

  /** The evidence that contradicts a category: the experiment ran to its end and the expected record is absent. */
  ghost predicate Contradicting(c: Category, f: Findings) {
    match c
    case OtpInterception =>
      Ran(f.experiments, {SyntheticSms}, {Completed})
      && Has(f, SMS_DELIVERED) && !Has(f, SMS_ACCESS) && !Has(f, MARKER_CORRELATION)
    case DataExfiltration =>
      Ran(f.experiments, {NetworkObservation}, {Completed})
      && Has(f, MARKER_CORRELATION) && !Has(f, NETWORK) && !Has(f, DNS)
    case AccessibilityAbuse =>
      Ran(f.experiments, {AccessibilityObservation}, {Completed})
      && AccessibilityCapable(f.static_) && !Has(f, ACCESSIBILITY)
    case _ => false
  }

  /** Nothing static and nothing at run time speaks for the category, so the AI's own status is looked at. */
  ghost predicate Unsupported(c: Category, f: Findings) {
    match c
    case OtpInterception => false
    case DataExfiltration =>
      !NetworkCapable(f.static_) && !Has(f, MARKER_CORRELATION) && !Has(f, NETWORK) && !Has(f, DNS)
    case AccessibilityAbuse => !AccessibilityCapable(f.static_) && !Has(f, ACCESSIBILITY)
    case _ => true
  }

  lemma ByKindHas(f: Findings, kind: string)
    ensures ByKind(f.runtime, kind) != [] <==> Has(f, kind)
  {
    var found := ByKind(f.runtime, kind);
    if found != [] {
      InByKind(f.runtime, kind, found[0]);
    }
    if e :| e in f.runtime && e.kind == kind {
      InByKind(f.runtime, kind, e);
    }
  }

  /** A failed or timed-out experiment never turns into a contradiction: short of confirmation it is inconclusive. */
  lemma FailureIsInconclusive(h: Hypothesis, f: Findings, mentionsDumpsys: Item -> bool)
    requires RelevantFailure(h.category, f)
    ensures var v := Decide(h, f, mentionsDumpsys);
            v.status == (if Confirming(h.category, f, mentionsDumpsys) then Confirmed else Inconclusive)
            && (v.status == Inconclusive ==> v.strength <= 0.35)
  {
    hide Confirming, ByKind, Ran, AnyFailure, MarkerPrecedesNetwork, AnyTrusted, AnyClaim, AnyBinding, If;
    StrengthSeparates(h, f, mentionsDumpsys);
    ConfirmedIff(h, f, mentionsDumpsys);
  }

  /**
   A hypothesis is contradicted if and only if its experiment ran without a
   relevant failure and its expected record is absent, or the AI had called it
   contradicted and nothing at all speaks for it.
   */
  lemma ContradictedIff(h: Hypothesis, f: Findings, mentionsDumpsys: Item -> bool)
    ensures Decide(h, f, mentionsDumpsys).status == Contradicted <==>
              && !RelevantFailure(h.category, f)
              && (Contradicting(h.category, f) || (h.status == Contradicted && Unsupported(h.category, f)))
  {
    hide ByKind, Ran, AnyFailure, MarkerPrecedesNetwork, AnyTrusted, AnyClaim, AnyBinding, If, Has,
         NetworkCapable, AccessibilityCapable, OtpStaticSignals;
    ByKindHas(f, SMS_DELIVERED);
    ByKindHas(f, SMS_ACCESS);
    ByKindHas(f, MARKER_CORRELATION);
    ByKindHas(f, NETWORK);
    ByKindHas(f, DNS);
    ByKindHas(f, ACCESSIBILITY);
  }

  /** No marker match is needed: any instrumented SMS access after the sandbox's own delivery confirms interception. */
  lemma OtpConfirmedWithoutMarker(h: Hypothesis, f: Findings, d: Item, a: Item)
    requires SmsCapable(f.static_) && d in f.runtime && a in f.runtime
    requires d.kind == SMS_DELIVERED && d.trust == Instrumented && a.kind == SMS_ACCESS && a.trust == Instrumented
    ensures VerifyOtp(h, f).status == Confirmed
  {
    assert TrustedDelivery(d) && TrustedAccess(a);
    OtpConfirmedIff(h, f);
  }
}
