/**
 Every verdict of the hypothesis verifier, with its strength, its signals and
 what it cites, said over the findings.
 */
module VerdictMeaning {
  import opened Common
  import opened Evidence
  import opened Verifier

  /* ---------- Static capabilities and experiments ---------- */

  lemma CapabilitiesMean(s: Static)
    ensures SmsCapable(s) <==>
              || "android.permission.READ_SMS" in s.permissions || "android.permission.RECEIVE_SMS" in s.permissions
              || s.smsReceiver || s.smsApi
    ensures NetworkCapable(s) <==> "android.permission.INTERNET" in s.permissions || s.urls || s.networkIndicators
    ensures AccessibilityCapable(s) <==> s.accessibilityService || s.accessibilityApi
  {
  }

  ghost predicate RanOne(experiments: seq<Experiment>, kind: ExperimentType, status: ExperimentStatus) {
    exists x :: x in experiments && x.kind == kind && x.status == status
  }

  ghost predicate Broke(experiments: seq<Experiment>, kind: ExperimentType) {
    RanOne(experiments, kind, Failed) || RanOne(experiments, kind, TimedOut)
  }

  lemma RanMeans(experiments: seq<Experiment>, kinds: set<ExperimentType>, statuses: set<ExperimentStatus>)
    ensures Ran(experiments, kinds, statuses) <==>
              exists kind, status :: kind in kinds && status in statuses && RanOne(experiments, kind, status)
  {
    if i :| 0 <= i < |experiments| && experiments[i].kind in kinds && experiments[i].status in statuses {
      assert RanOne(experiments, experiments[i].kind, experiments[i].status);
    }
    if kind, status :| kind in kinds && status in statuses && RanOne(experiments, kind, status) {
      var x :| x in experiments && x.kind == kind && x.status == status;
      var i :| 0 <= i < |experiments| && experiments[i] == x;
    }
  }

  lemma EitherBroke(experiments: seq<Experiment>, a: ExperimentType, b: ExperimentType)
    ensures Ran(experiments, {a, b}, FAILURES) <==> Broke(experiments, a) || Broke(experiments, b)
  {
    hide Ran;
    RanMeans(experiments, {a, b}, FAILURES);
  }

  lemma AnyFailureMeans(experiments: seq<Experiment>)
    ensures AnyFailure(experiments) <==> exists kind :: Broke(experiments, kind)
  {
    if i :| 0 <= i < |experiments| && experiments[i].status in FAILURES {
      assert RanOne(experiments, experiments[i].kind, experiments[i].status);
      assert Broke(experiments, experiments[i].kind);
    }
    if kind :| Broke(experiments, kind) {
      var status := if RanOne(experiments, kind, Failed) then Failed else TimedOut;
      assert RanOne(experiments, kind, status);
      var x :| x in experiments && x.kind == kind && x.status == status;
      var i :| 0 <= i < |experiments| && experiments[i] == x;
    }
  }

  /** Which failed or timed-out experiments leave a category open. */
  lemma RelevantFailureMeans(c: Category, f: Findings)
    ensures RelevantFailure(c, f) <==>
              match c
              case OtpInterception => Broke(f.experiments, SyntheticSms) || Broke(f.experiments, LogcatCapture)
              case DataExfiltration => Broke(f.experiments, NetworkObservation) || Broke(f.experiments, SyntheticSms)
              case AccessibilityAbuse =>
                Broke(f.experiments, AccessibilityObservation) || Broke(f.experiments, LogcatCapture)
              case _ => exists kind :: Broke(f.experiments, kind)
  {
    hide Ran, AnyFailure, Broke;
    EitherBroke(f.experiments, SyntheticSms, LogcatCapture);
    EitherBroke(f.experiments, NetworkObservation, SyntheticSms);
    EitherBroke(f.experiments, AccessibilityObservation, LogcatCapture);
    AnyFailureMeans(f.experiments);
  }

  /** The evidence that contradicts a category, record by record. */
  lemma ContradictingMeans(c: Category, f: Findings)
    ensures Contradicting(c, f) <==>
              match c
              case OtpInterception =>
                RanOne(f.experiments, SyntheticSms, Completed)
                && Has(f, "synthetic_sms_delivered") && !Has(f, "sms_access") && !Has(f, "synthetic_marker_correlation")
              case DataExfiltration =>
                RanOne(f.experiments, NetworkObservation, Completed)
                && Has(f, "synthetic_marker_correlation")
                && !Has(f, "network_destination") && !Has(f, "dns_destination")
              case AccessibilityAbuse =>
                RanOne(f.experiments, AccessibilityObservation, Completed)
                && AccessibilityCapable(f.static_) && !Has(f, "accessibility_behavior")
              case _ => false
  {
    hide Ran, Has, AccessibilityCapable;
    RanMeans(f.experiments, {SyntheticSms}, {Completed});
    RanMeans(f.experiments, {NetworkObservation}, {Completed});
    RanMeans(f.experiments, {AccessibilityObservation}, {Completed});
  }

  /* ---------- The status ---------- */

  /** Something in the findings speaks for the category. */
  ghost predicate Supports(c: Category, f: Findings) {
    match c
    case OtpInterception => SmsCapable(f.static_)
    case DataExfiltration =>
      NetworkCapable(f.static_) || Has(f, MARKER_CORRELATION) || Has(f, NETWORK) || Has(f, DNS)
    case AccessibilityAbuse => AccessibilityCapable(f.static_) || Has(f, ACCESSIBILITY)
    case _ => false
  }

  /** What is left of the AI's own status: no confirmation, and nothing for a hypothesis of OTP interception. */
  function Remaining(c: Category, claimed: Status): Status {
    if c == OtpInterception then Proposed else if claimed == Confirmed then Supported else claimed
  }

  /** The five verdicts, in the order in which the findings decide between them. */
  lemma StatusIs(h: Hypothesis, f: Findings, mentionsDumpsys: Item -> bool)
    ensures Decide(h, f, mentionsDumpsys).status ==
              if Confirming(h.category, f, mentionsDumpsys) then Confirmed
              else if RelevantFailure(h.category, f) then Inconclusive
              else if Contradicting(h.category, f) then Contradicted
              else if Supports(h.category, f) then Supported
              else Remaining(h.category, h.status)
  {
    hide ByKind, Ran, AnyFailure, MarkerPrecedesNetwork, AnyTrusted, AnyClaim, AnyBinding, If, Has,
         NetworkCapable, AccessibilityCapable, OtpStaticSignals, SmsCapable, Confirming;
    ConfirmedIff(h, f, mentionsDumpsys);
    SignalsMeanCapable(f.static_);
    ByKindHas(f, SMS_DELIVERED);
    ByKindHas(f, SMS_ACCESS);
    ByKindHas(f, MARKER_CORRELATION);
    ByKindHas(f, NETWORK);
    ByKindHas(f, DNS);
    ByKindHas(f, ACCESSIBILITY);
  }

  /**
   A hypothesis is supported if and only if it is neither confirmed, nor left
   open by a failure, nor contradicted, and something in the findings speaks for
   it, or the AI claims as much for another category than OTP interception.
   */
  lemma SupportedIff(h: Hypothesis, f: Findings, mentionsDumpsys: Item -> bool)
    ensures Decide(h, f, mentionsDumpsys).status == Supported <==>
              && !Confirming(h.category, f, mentionsDumpsys)
              && !RelevantFailure(h.category, f) && !Contradicting(h.category, f)
              && (Supports(h.category, f)
                  || (h.category != OtpInterception && h.status in {Supported, Confirmed}))
  {
    hide Decide, Confirming, RelevantFailure, Contradicting, Supports;
    StatusIs(h, f, mentionsDumpsys);
  }

  /* ---------- The strength ---------- */

  /** How strong the support is: what was seen at run time counts more than the capability. */
  ghost function Support(c: Category, f: Findings): real {
    match c
    case OtpInterception =>
      if Has(f, SMS_ACCESS) || Has(f, MARKER_CORRELATION) then 0.75 else if Has(f, SMS_DELIVERED) then 0.55 else 0.45
    case DataExfiltration =>
      if exists m, n :: m in f.runtime && n in f.runtime && InOrder(m, n) then 0.60 else 0.50
    case AccessibilityAbuse =>
      if AccessibilityCapable(f.static_) && Has(f, ACCESSIBILITY) then 0.70 else 0.50
    case _ => 0.0
  }

  lemma OtpStrengthIs(h: Hypothesis, f: Findings)
    ensures var v := VerifyOtp(h, f);
            v.strength ==
              if v.status == Confirmed then 1.0
              else if v.status == Inconclusive then (if SmsCapable(f.static_) then 0.35 else 0.1)
              else if v.status == Contradicted then 0.25
              else if v.status == Supported then Support(OtpInterception, f)
              else 0.15
  {
    hide ByKind, Ran, AnyTrusted, If, Has, OtpStaticSignals, SmsCapable;
    SignalsMeanCapable(f.static_);
    ByKindHas(f, SMS_DELIVERED);
    ByKindHas(f, SMS_ACCESS);
    ByKindHas(f, MARKER_CORRELATION);
  }

  lemma ExfiltrationStrengthIs(h: Hypothesis, f: Findings)
    ensures var v := VerifyExfiltration(h, f);
            v.strength ==
              if v.status == Confirmed then 0.95
              else if RelevantFailure(DataExfiltration, f) then (if NetworkCapable(f.static_) then 0.35 else 0.1)
              else if Contradicting(DataExfiltration, f) then 0.3
              else if Supports(DataExfiltration, f) then Support(DataExfiltration, f)
              else 0.15
  {
    hide ByKind, Ran, AnyClaim, If, Has, NetworkCapable, MarkerPrecedesNetwork, InOrder;
    OrderedMeans(f.runtime);
    OrderedNeedsBoth(f);
    ByKindHas(f, MARKER_CORRELATION);
    ByKindHas(f, NETWORK);
    ByKindHas(f, DNS);
  }

  lemma OrderedNeedsBoth(f: Findings)
    ensures var network := ByKind(f.runtime, NETWORK) + ByKind(f.runtime, DNS);
            MarkerPrecedesNetwork(ByKind(f.runtime, MARKER_CORRELATION), network) ==>
              ByKind(f.runtime, MARKER_CORRELATION) != [] && network != []
  {
  }

  lemma AccessibilityStrengthIs(h: Hypothesis, f: Findings, mentionsDumpsys: Item -> bool)
    ensures var v := VerifyAccessibility(h, f, mentionsDumpsys);
            v.strength ==
              if v.status == Confirmed then 0.95
              else if RelevantFailure(AccessibilityAbuse, f)
              then (if AccessibilityCapable(f.static_) then 0.35 else 0.1)
              else if Contradicting(AccessibilityAbuse, f) then 0.3
              else if Supports(AccessibilityAbuse, f) then Support(AccessibilityAbuse, f)
              else 0.15
  {
    hide ByKind, Ran, AnyBinding, If, Has, AccessibilityCapable;
    ByKindHas(f, ACCESSIBILITY);
  }

  /** Categories without a procedure of their own are never stronger than 0.45. */
  lemma GeneralStrengthIs(h: Hypothesis, f: Findings)
    ensures var v := VerifyGeneral(h, f);
            v.strength ==
              if exists kind :: Broke(f.experiments, kind) then 0.25
              else if h.status == Confirmed then 0.45
              else if f.runtime != [] then 0.35 else 0.2
  {
    RelevantFailureMeans(UnknownBehavior, f);
  }

  /* ---------- Signals and citations ---------- */

  lemma InIf(condition: bool, text: string, t: string)
    ensures t in If(condition, text) <==> condition && t == text
  {
  }

  /** What is observed and what is missing at run time: OTP interception. */
  lemma OtpSignalsMean(h: Hypothesis, f: Findings, kind: string)
    requires kind in {SMS_DELIVERED, SMS_ACCESS, MARKER_CORRELATION}
    ensures kind in VerifyOtp(h, f).observed <==> Has(f, kind)
    ensures kind in VerifyOtp(h, f).missing <==> !Has(f, kind)
  {
    hide ByKind, Ran, AnyTrusted, Has, OtpStaticSignals, If;
    ByKindHas(f, kind);
    DistinctSignals();
    var delivered, access := ByKind(f.runtime, SMS_DELIVERED) != [], ByKind(f.runtime, SMS_ACCESS) != [];
    var marker := ByKind(f.runtime, MARKER_CORRELATION) != [];
    InIf(delivered, SMS_DELIVERED, kind);
    InIf(access, SMS_ACCESS, kind);
    InIf(marker, MARKER_CORRELATION, kind);
    InIf(!delivered, SMS_DELIVERED, kind);
    InIf(!access, SMS_ACCESS, kind);
    InIf(!marker, MARKER_CORRELATION, kind);
  }

  /** The same for exfiltration, where either kind of network record counts as one. */
  lemma ExfiltrationSignalsMean(h: Hypothesis, f: Findings)
    ensures MARKER_CORRELATION in VerifyExfiltration(h, f).observed <==> Has(f, MARKER_CORRELATION)
    ensures MARKER_CORRELATION in VerifyExfiltration(h, f).missing <==> !Has(f, MARKER_CORRELATION)
    ensures NETWORK in VerifyExfiltration(h, f).observed <==> Has(f, NETWORK) || Has(f, DNS)
    ensures NETWORK in VerifyExfiltration(h, f).missing <==> !Has(f, NETWORK) && !Has(f, DNS)
  {
    hide ByKind, Ran, AnyClaim, MarkerPrecedesNetwork, Has, NetworkCapable, If;
    ByKindHas(f, MARKER_CORRELATION);
    ByKindHas(f, NETWORK);
    ByKindHas(f, DNS);
    DistinctSignals();
    var marker, capable := ByKind(f.runtime, MARKER_CORRELATION) != [], NetworkCapable(f.static_);
    var network := ByKind(f.runtime, NETWORK) + ByKind(f.runtime, DNS) != [];
    forall kind | kind == MARKER_CORRELATION || kind == NETWORK
      ensures kind in If(capable, "static_network_or_internet_signal") <==> false
      ensures kind in If(marker, MARKER_CORRELATION) <==> marker && kind == MARKER_CORRELATION
      ensures kind in If(network, NETWORK) <==> network && kind == NETWORK
      ensures kind in If(!marker, MARKER_CORRELATION) <==> !marker && kind == MARKER_CORRELATION
      ensures kind in If(!network, NETWORK) <==> !network && kind == NETWORK
    {
      InIf(capable, "static_network_or_internet_signal", kind);
      InIf(marker, MARKER_CORRELATION, kind);
      InIf(network, NETWORK, kind);
      InIf(!marker, MARKER_CORRELATION, kind);
      InIf(!network, NETWORK, kind);
    }
  }

  /** The same for accessibility abuse, where the declared capability is a signal as well. */
  lemma AccessibilitySignalsMean(h: Hypothesis, f: Findings, mentionsDumpsys: Item -> bool)
    ensures var v := VerifyAccessibility(h, f, mentionsDumpsys);
            && (ACCESSIBILITY in v.observed <==> Has(f, ACCESSIBILITY))
            && (ACCESSIBILITY in v.missing <==> !Has(f, ACCESSIBILITY))
            && ("static_accessibility_signal" in v.observed <==> AccessibilityCapable(f.static_))
            && ("static_accessibility_signal" in v.missing <==> !AccessibilityCapable(f.static_))
  {
    hide ByKind, Ran, AnyBinding, Has, AccessibilityCapable;
    ByKindHas(f, ACCESSIBILITY);
    DistinctSignals();
  }

  lemma DistinctSignals()
    ensures forall s: Static, t | t in OtpStaticSignals(s) ::
              t !in {SMS_DELIVERED, SMS_ACCESS, MARKER_CORRELATION}
    ensures SMS_DELIVERED != SMS_ACCESS && SMS_ACCESS != MARKER_CORRELATION && MARKER_CORRELATION != SMS_DELIVERED
    ensures MARKER_CORRELATION != NETWORK
    ensures "static_network_or_internet_signal" !in {MARKER_CORRELATION, NETWORK}
    ensures "static_accessibility_signal" != ACCESSIBILITY
  {
    assert |SMS_DELIVERED| == 23 && |SMS_ACCESS| == 10 && |MARKER_CORRELATION| == 28 && |NETWORK| == 19;
    assert |ACCESSIBILITY| == 22 && |"static_network_or_internet_signal"| == 33;
    assert |"static_accessibility_signal"| == 27;
    assert |"READ_SMS"| == 8 && |"RECEIVE_SMS"| == 11 && |"sms_receiver"| == 12 && |"SmsManager"| == 10;
    assert "SmsManager"[0] == 'S' && SMS_ACCESS[0] == 's';
  }

  lemma {:induction false} RuntimeIdsHave(items: seq<Item>, kinds: seq<string>, e: Item)
    requires e in items && e.kind in kinds
    ensures e.id in RuntimeIdsOf(items, kinds)
  {
    if items[0] != e {
      RuntimeIdsHave(items[1..], kinds, e);
    }
  }

  /** Of two listed texts, the one that comes first in the list came first among the values. */
  lemma {:induction false} FirstComeFirst(values: seq<string>, k: nat)
    requires k < |values|
    ensures values[k] != "" && values[k] !in values[..k] ==>
              Distinct(values[..k]) + [values[k]] <= Distinct(values)
  {
    DistinctNext(values, k);
    DistinctPrefix(values, k + 1);
    DistinctIsASet(values[..k]);
    if values[k] in Distinct(values[..k]) {
      assert values[k] in ToSet(Distinct(values[..k])) && values[k] in ToSet(values[..k]);
    }
  }

  /** Ids are listed in the order of their records and findings. */
  lemma {:induction false} RuntimeIdsInOrder(a: seq<Item>, b: seq<Item>, kinds: seq<string>)
    ensures RuntimeIdsOf(a + b, kinds) == RuntimeIdsOf(a, kinds) + RuntimeIdsOf(b, kinds)
  {
    if a == [] {
      assert a + b == b;
    } else {
      assert (a + b)[1..] == a[1..] + b;
      RuntimeIdsInOrder(a[1..], b, kinds);
    }
  }

  lemma {:induction false} MatchingIdsInOrder(a: seq<StaticEvidence>, b: seq<StaticEvidence>, tokens: seq<string>)
    ensures MatchingIds(a + b, tokens) == MatchingIds(a, tokens) + MatchingIds(b, tokens)
  {
    hide AnyToken;
    if a == [] {
      assert a + b == b;
    } else {
      assert (a + b)[1..] == a[1..] + b;
      MatchingIdsInOrder(a[1..], b, tokens);
    }
  }

  /** The kinds of runtime records that bear on a category. */
  function Bearing(c: Category): set<string> {
    match c
    case OtpInterception => {"synthetic_sms_delivered", "sms_access", "synthetic_marker_correlation"}
    case DataExfiltration => {"synthetic_marker_correlation", "network_destination", "dns_destination"}
    case AccessibilityAbuse => {"accessibility_behavior"}
    case _ => {}
  }

  lemma BearingAreTheKinds(c: Category)
    ensures forall kind :: kind in RuntimeKinds(c) <==> kind in Bearing(c)
  {
  }

  /** The static findings that speak for a category, by what their text contains. */
  ghost predicate Speaks(c: Category, text: string) {
    match c
    case OtpInterception =>
      || Contains(text, "read_sms") || Contains(text, "receive_sms")
      || Contains(text, "sms_receiver") || Contains(text, "smsmanager")
    case DataExfiltration =>
      || Contains(text, "internet") || Contains(text, "network") || Contains(text, "domain")
      || Contains(text, "url") || Contains(text, "ip")
    case AccessibilityAbuse =>
      || Contains(text, "accessibility_service") || Contains(text, "accessibilityservice")
      || Contains(text, "accessibility_api")
    case _ => false
  }

  lemma TokensSpeak(c: Category, text: string)
    ensures AnyToken(StaticTokens(c), text) <==> Speaks(c, text)
  {
    hide Contains;
    var tokens := StaticTokens(c);
    match c {
      case OtpInterception =>
        assert |tokens| == 4 && tokens[0] == "read_sms" && tokens[1] == "receive_sms";
        assert tokens[2] == "sms_receiver" && tokens[3] == "smsmanager";
      case DataExfiltration =>
        assert |tokens| == 5 && tokens[0] == "internet" && tokens[1] == "network" && tokens[2] == "domain";
        assert tokens[3] == "url" && tokens[4] == "ip";
      case AccessibilityAbuse =>
        assert |tokens| == 3 && tokens[0] == "accessibility_service" && tokens[1] == "accessibilityservice";
        assert tokens[2] == "accessibility_api";
      case _ =>
    }
  }

  lemma {:induction false} MatchingIdsAre(evidence: seq<StaticEvidence>, c: Category, id: string)
    ensures id in MatchingIds(evidence, StaticTokens(c)) <==>
              exists s :: s in evidence && s.id == id && Speaks(c, s.text)
  {
    hide Speaks, AnyToken, StaticTokens;
    if evidence != [] {
      TokensSpeak(c, evidence[0].text);
      MatchingIdsAre(evidence[1..], c, id);
      assert forall s :: s in evidence <==> s == evidence[0] || s in evidence[1..];
    }
  }

  lemma StaticCitations(h: Hypothesis, f: Findings, evidence: seq<StaticEvidence>, mentionsDumpsys: Item -> bool)
    ensures var ids := Verify(h, f, evidence, mentionsDumpsys).staticIds;
            && (forall s | s in evidence && Speaks(h.category, s.text) && s.id != "" && |ids| < 30 :: s.id in ids)
            && (forall id | id in ids :: exists s :: s in evidence && s.id == id && Speaks(h.category, s.text))
  {
    hide Decide, UniqueStrings, Speaks, AnyToken, StaticTokens;
    var all := MatchingIds(evidence, StaticTokens(h.category));
    var ids := Verify(h, f, evidence, mentionsDumpsys).staticIds;
    UniqueStringsSpec(all, 30);
    forall id ensures id in ids ==> id in all {
      assert id in ids ==> id in ToSet(ids);
      MatchingIdsAre(evidence, h.category, id);
    }
    forall id | id in ids ensures exists s :: s in evidence && s.id == id && Speaks(h.category, s.text) {
      MatchingIdsAre(evidence, h.category, id);
    }
    forall s | s in evidence && Speaks(h.category, s.text) && s.id != "" && |ids| < 30 ensures s.id in ids {
      MatchingIdsAre(evidence, h.category, s.id);
      assert s.id in ToSet(all) - {""};
      assert s.id in ToSet(ids);
    }
  }

  /** The experiments that concern a category. */
  predicate Concerns(c: Category, kind: ExperimentType) {
    match c
    case OtpInterception => kind == SyntheticSms || kind == LogcatCapture
    case DataExfiltration => kind == NetworkObservation || kind == SyntheticSms
    case AccessibilityAbuse => kind == AccessibilityObservation || kind == LogcatCapture
    case _ => false
  }

  lemma {:induction false} ExperimentIdsHave(experiments: seq<Experiment>, c: Category, x: Experiment)
    requires x in experiments && Concerns(c, x.kind)
    ensures x.id in ExperimentIdsOf(experiments, ExperimentKinds(c))
  {
    if experiments[0] != x {
      ExperimentIdsHave(experiments[1..], c, x);
    }
  }

  lemma ExperimentCitations(h: Hypothesis, f: Findings, evidence: seq<StaticEvidence>, mentionsDumpsys: Item -> bool)
    ensures var ids := Verify(h, f, evidence, mentionsDumpsys).experimentIds;
            forall x | x in f.experiments && Concerns(h.category, x.kind) && x.id != "" && |ids| < 30 :: x.id in ids
  {
    hide Decide, UniqueStrings, Concerns, ExperimentKinds;
    var all := ExperimentIdsOf(f.experiments, ExperimentKinds(h.category));
    var ids := Verify(h, f, evidence, mentionsDumpsys).experimentIds;
    UniqueStringsSpec(all, 30);
    forall x | x in f.experiments && Concerns(h.category, x.kind) && x.id != "" && |ids| < 30 ensures x.id in ids {
      ExperimentIdsHave(f.experiments, h.category, x);
      assert x.id in ToSet(all) - {""};
      assert x.id in ToSet(ids);
    }
  }

  /** A short list without an empty text. */
  predicate Few(values: seq<string>, limit: nat) {
    |values| <= limit && "" !in values
  }

  lemma IfIsFew(condition: bool, text: string)
    requires text != ""
    ensures Few(If(condition, text), 1)
  {
  }

  lemma FewAndFew(a: seq<string>, b: seq<string>, m: nat, n: nat)
    requires Few(a, m) && Few(b, n)
    ensures Few(a + b, m + n)
  {
  }

  lemma ThreeAreFew(p: bool, q: bool, r: bool, a: string, b: string, c: string)
    requires a != "" && b != "" && c != ""
    ensures Few(If(p, a) + If(q, b) + If(r, c), 3)
  {
    hide If, Few;
    IfIsFew(p, a);
    IfIsFew(q, b);
    IfIsFew(r, c);
    FewAndFew(If(p, a), If(q, b), 1, 1);
    FewAndFew(If(p, a) + If(q, b), If(r, c), 2, 1);
  }

  lemma OtpSignalsAreFew(h: Hypothesis, f: Findings)
    ensures Few(VerifyOtp(h, f).observed, 7) && Few(VerifyOtp(h, f).missing, 3)
  {
    hide If, ByKind, Ran, AnyTrusted, Few, OtpStaticSignals;
    var s := f.static_;
    var delivered, access := ByKind(f.runtime, SMS_DELIVERED) != [], ByKind(f.runtime, SMS_ACCESS) != [];
    var marker := ByKind(f.runtime, MARKER_CORRELATION) != [];
    OtpStaticAreFew(s);
    ThreeAreFew(delivered, access, marker, SMS_DELIVERED, SMS_ACCESS, MARKER_CORRELATION);
    ThreeAreFew(!delivered, !access, !marker, SMS_DELIVERED, SMS_ACCESS, MARKER_CORRELATION);
    var more := If(delivered, SMS_DELIVERED) + If(access, SMS_ACCESS) + If(marker, MARKER_CORRELATION);
    FewAndFew(OtpStaticSignals(s), more, 4, 3);
    assert VerifyOtp(h, f).observed == OtpStaticSignals(s) + more;
  }

  lemma OtpStaticAreFew(s: Static)
    ensures Few(OtpStaticSignals(s), 4)
  {
    hide If, Few;
    var p, q := READ_SMS in s.permissions, RECEIVE_SMS in s.permissions;
    ThreeAreFew(p, q, s.smsReceiver, "READ_SMS", "RECEIVE_SMS", "sms_receiver");
    IfIsFew(s.smsApi, "SmsManager");
    FewAndFew(If(p, "READ_SMS") + If(q, "RECEIVE_SMS") + If(s.smsReceiver, "sms_receiver"),
              If(s.smsApi, "SmsManager"), 3, 1);
  }

  lemma ExfiltrationSignalsAreFew(h: Hypothesis, f: Findings)
    ensures Few(VerifyExfiltration(h, f).observed, 3) && Few(VerifyExfiltration(h, f).missing, 2)
  {
    hide If, ByKind, Ran, AnyClaim, MarkerPrecedesNetwork, Few, NetworkCapable;
    var marker := ByKind(f.runtime, MARKER_CORRELATION) != [];
    var network := ByKind(f.runtime, NETWORK) + ByKind(f.runtime, DNS) != [];
    ThreeAreFew(NetworkCapable(f.static_), marker, network,
                "static_network_or_internet_signal", MARKER_CORRELATION, NETWORK);
    IfIsFew(!marker, MARKER_CORRELATION);
    IfIsFew(!network, NETWORK);
    FewAndFew(If(!marker, MARKER_CORRELATION), If(!network, NETWORK), 1, 1);
  }

  lemma AccessibilitySignalsAreFew(h: Hypothesis, f: Findings, mentionsDumpsys: Item -> bool)
    ensures Few(VerifyAccessibility(h, f, mentionsDumpsys).observed, 2)
    ensures Few(VerifyAccessibility(h, f, mentionsDumpsys).missing, 2)
  {
    hide If, ByKind, Ran, AnyBinding, Few, AccessibilityCapable;
    var seen, capable := ByKind(f.runtime, ACCESSIBILITY) != [], AccessibilityCapable(f.static_);
    IfIsFew(capable, "static_accessibility_signal");
    IfIsFew(!capable, "static_accessibility_signal");
    IfIsFew(seen, ACCESSIBILITY);
    IfIsFew(!seen, ACCESSIBILITY);
    FewAndFew(If(capable, "static_accessibility_signal"), If(seen, ACCESSIBILITY), 1, 1);
    FewAndFew(If(!capable, "static_accessibility_signal"), If(!seen, ACCESSIBILITY), 1, 1);
  }

  lemma FewSignals(h: Hypothesis, f: Findings, mentionsDumpsys: Item -> bool)
    ensures var d := Decide(h, f, mentionsDumpsys); Few(d.observed, 7) && Few(d.missing, 7)
  {
    hide VerifyOtp, VerifyExfiltration, VerifyAccessibility;
    OtpSignalsAreFew(h, f);
    ExfiltrationSignalsAreFew(h, f);
    AccessibilitySignalsAreFew(h, f, mentionsDumpsys);
  }

  lemma SignalsArePassedOn(h: Hypothesis, f: Findings, mentionsDumpsys: Item -> bool)
    ensures var d := Decide(h, f, mentionsDumpsys);
            && (forall t :: t in UniqueStrings(d.observed, 20) <==> t in d.observed)
            && (forall t :: t in UniqueStrings(d.missing, 20) <==> t in d.missing)
  {
    hide Decide, Distinct;
    FewSignals(h, f, mentionsDumpsys);
    var d := Decide(h, f, mentionsDumpsys);
    KeptWhole(d.observed);
    KeptWhole(d.missing);
  }

  /** Fewer than twenty texts, none of them empty, are all kept. */
  lemma KeptWhole(values: seq<string>)
    requires |values| < 20 && "" !in values
    ensures forall t :: t in UniqueStrings(values, 20) <==> t in values
  {
    hide Distinct;
    DistinctIsASet(values);
    UniqueStringsSpec(values, 20);
    var r := UniqueStrings(values, 20);
    assert ToSet(r) == ToSet(values) - {""};
    forall t ensures t in r <==> t in values {
      assert t in ToSet(r) <==> t in ToSet(values) && t != "";
    }
  }

  /** A verification passes the verdict on unchanged, and cites every runtime record that bears on it, up to thirty. */
  lemma RecordIs(h: Hypothesis, f: Findings, evidence: seq<StaticEvidence>, mentionsDumpsys: Item -> bool)
    ensures var v, d := Verify(h, f, evidence, mentionsDumpsys), Decide(h, f, mentionsDumpsys);
            && v.hypothesisId == h.id && v.category == h.category && v.originalStatus == h.status
            && v.status == d.status && v.strength == d.strength && v.allowed == d.allowed
            && (0.0 <= h.confidence <= 1.0 ==> v.aiConfidence == h.confidence)
            && (forall e | e in f.runtime && e.kind in Bearing(h.category) && e.id != "" && |v.runtimeIds| < 30 ::
                  e.id in v.runtimeIds)
            && (forall s | s in evidence && Speaks(h.category, s.text) && s.id != "" && |v.staticIds| < 30 ::
                  s.id in v.staticIds)
            && (forall id | id in v.staticIds :: exists s :: s in evidence && s.id == id && Speaks(h.category, s.text))
            && (forall t :: t in v.observed <==> t in d.observed) && (forall t :: t in v.missing <==> t in d.missing)
            && (forall x | x in f.experiments && Concerns(h.category, x.kind) && x.id != "" && |v.experimentIds| < 30 ::
                  x.id in v.experimentIds)
  {
    hide Decide, UniqueStrings;
    SignalsArePassedOn(h, f, mentionsDumpsys);
    ExperimentCitations(h, f, evidence, mentionsDumpsys);
    StaticCitations(h, f, evidence, mentionsDumpsys);
    StrengthSeparates(h, f, mentionsDumpsys);
    var v := Verify(h, f, evidence, mentionsDumpsys);
    var ids := RuntimeIdsOf(f.runtime, RuntimeKinds(h.category));
    UniqueStringsSpec(ids, 30);
    BearingAreTheKinds(h.category);
    forall e | e in f.runtime && e.kind in Bearing(h.category) && e.id != "" && |v.runtimeIds| < 30
      ensures e.id in v.runtimeIds
    {
      RuntimeIdsHave(f.runtime, RuntimeKinds(h.category), e);
      assert e.id in ToSet(ids) - {""};
      assert e.id in ToSet(v.runtimeIds);
    }
  }
}
