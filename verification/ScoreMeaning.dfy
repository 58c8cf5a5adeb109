/**
 What the risk score is worth: the points of every feature and runtime
 observation, the weight of every category, and the limits, said without the
 tables and functions of the scorer.
 */
module ScoreMeaning {
  import opened Common
  import opened Evidence
  import opened Verifier
  import opened Scoring
  import opened StaticRules
  import opened RiskScorer

  /* ---------- Categories and their weights ---------- */

  /** A category counts up to 100 points: more of them are not told apart. */
  lemma CategoriesSaturate(a: Totals, c: RiskCategory, more: nat, delta: real)
    requires AllCategories(a) && a[c] >= 100 && more >= 100
    ensures StaticScore(a, delta) == StaticScore(a[c := more], delta)
  {
    var b := a[c := more];
    assert forall d: RiskCategory :: Min(100, a[d]) == Min(100, b[d]);
  }

  /** Points out of 100. */
  function Percent(points: nat): nat {
    if points >= 100 then 100 else points
  }

  /** The nearest whole number, and of two equally near ones the even one. */
  predicate IsNearest(n: int, x: real) {
    && n as real - 0.5 <= x <= n as real + 0.5
    && ((x == n as real - 0.5 || x == n as real + 0.5) ==> n % 2 == 0)
  }

  lemma RoundIsNearest(x: real)
    ensures IsNearest(Round(x), x)
  {
  }

  lemma WholeIsNearest(x: real, n: int)
    requires x == n as real
    ensures Round(x) == n
  {
  }

  /** The weighted percents, in hundredths. */
  function WeightedPercents(t: Totals): nat
    requires AllCategories(t)
  {
    34 * Percent(t[CredentialTheft]) + 30 * Percent(t[PaymentManipulation])
    + 20 * Percent(t[FraudImpersonation]) + 16 * Percent(t[EvasionResilience])
  }

  /**
   The static score is the weighted mean of the four categories, 34, 30, 20
   and 16 hundredths, plus at most ten points for the fraud delta, to the
   nearest whole number inside 0 to 100.
   */
  lemma StaticScoreIsTheMean(t: Totals, delta: real)
    requires AllCategories(t)
    ensures var mean := WeightedPercents(t) as real / 100.0 + (if delta >= 1.0 then 10.0 else 10.0 * delta);
            && (0.0 <= mean <= 100.0 ==> IsNearest(StaticScore(t, delta), mean))
            && (mean < 0.0 ==> StaticScore(t, delta) == 0) && (mean > 100.0 ==> StaticScore(t, delta) == 100)
  {
    var mean := WeightedPercents(t) as real / 100.0 + (if delta >= 1.0 then 10.0 else 10.0 * delta);
    WeightedIsMean(t);
    RoundIsNearest(mean);
    RoundIsMonotone(0.0, 0.0);
    if 0.0 <= mean {
      RoundIsMonotone(0.0, mean);
      WholeIsNearest(0.0, 0);
    } else {
      RoundIsMonotone(mean, 0.0);
      WholeIsNearest(0.0, 0);
    }
    if mean <= 100.0 {
      RoundIsMonotone(mean, 100.0);
      WholeIsNearest(100.0, 100);
    } else {
      RoundIsMonotone(100.0, mean);
      WholeIsNearest(100.0, 100);
    }
  }

  lemma WeightedIsMean(t: Totals)
    requires AllCategories(t)
    ensures Weighted(t) == WeightedPercents(t) as real / 100.0
  {
    var p, q := Percent(t[CredentialTheft]), Percent(t[PaymentManipulation]);
    var r, s := Percent(t[FraudImpersonation]), Percent(t[EvasionResilience]);
    assert SubScore(t, CredentialTheft) == p as real && SubScore(t, PaymentManipulation) == q as real;
    assert SubScore(t, FraudImpersonation) == r as real && SubScore(t, EvasionResilience) == s as real;
  }

  /** One category alone scores at most its weight, and all of it from 100 points on. */
  lemma CategoryAlone(t: Totals, c: RiskCategory)
    requires AllCategories(t) && forall d: RiskCategory :: d != c ==> t[d] == 0
    ensures var weight := match c case CredentialTheft => 34 case PaymentManipulation => 30
                                  case FraudImpersonation => 20 case EvasionResilience => 16;
            && StaticScore(t, 0.0) <= weight
            && (t[c] >= 100 ==> StaticScore(t, 0.0) == weight)
  {
    StaticScoreIsTheMean(t, 0.0);
    match c
    case CredentialTheft => assert WeightedPercents(t) == 34 * Percent(t[c]);
    case PaymentManipulation => assert WeightedPercents(t) == 30 * Percent(t[c]);
    case FraudImpersonation => assert WeightedPercents(t) == 20 * Percent(t[c]);
    case EvasionResilience => assert WeightedPercents(t) == 16 * Percent(t[c]);
  }

  /* ---------- Static features ---------- */

  function Points(present: bool, points: nat): nat {
    if present then points else 0
  }

  lemma {:induction false} PointsNext(rules: seq<Rule>, r: Rule, f: Features, c: RiskCategory)
    ensures PointsOf(Matched(rules + [r], f), c) ==
              PointsOf(Matched(rules, f), c) + Points(Matches(r, f) && r.category == c, r.points)
  {
    AppendRule(rules, r, f);
    AppendRule(Matched(rules, f), r, f);
  }

  /** What one more rule contributes. */
  function PointsFrom(r: Rule, f: Features, c: RiskCategory): nat {
    Points(Matches(r, f) && r.category == c, r.points)
  }

  lemma Next2(rules: seq<Rule>, a: Rule, b: Rule, f: Features, c: RiskCategory)
    ensures PointsOf(Matched(rules + [a, b], f), c) ==
              PointsOf(Matched(rules, f), c) + PointsFrom(a, f, c) + PointsFrom(b, f, c)
  {
    assert rules + [a, b] == rules + [a] + [b];
    PointsNext(rules, a, f, c);
    PointsNext(rules + [a], b, f, c);
  }

  lemma Next3(rules: seq<Rule>, x: Rule, y: Rule, z: Rule, f: Features, c: RiskCategory)
    ensures PointsOf(Matched(rules + [x, y, z], f), c) ==
              PointsOf(Matched(rules, f), c) + PointsFrom(x, f, c) + PointsFrom(y, f, c) + PointsFrom(z, f, c)
  {
    assert rules + [x, y, z] == rules + [x, y] + [z];
    Next2(rules, x, y, f, c);
    PointsNext(rules + [x, y], z, f, c);
  }

  lemma Next5(rules: seq<Rule>, five: seq<Rule>, f: Features, c: RiskCategory)
    requires |five| == 5
    ensures PointsOf(Matched(rules + five, f), c) ==
              PointsOf(Matched(rules, f), c) + PointsFrom(five[0], f, c) + PointsFrom(five[1], f, c)
              + PointsFrom(five[2], f, c) + PointsFrom(five[3], f, c) + PointsFrom(five[4], f, c)
  {
    assert rules + five == rules + [five[0], five[1], five[2]] + [five[3], five[4]];
    Next3(rules, five[0], five[1], five[2], f, c);
    Next2(rules + [five[0], five[1], five[2]], five[3], five[4], f, c);
  }

  /** The five blocks of the rule table. */
  lemma Blocks(f: Features, c: RiskCategory)
    ensures var r := RULES;
            StaticTotals(f)[c] ==
              PointsFrom(r[0], f, c) + PointsFrom(r[1], f, c) + PointsFrom(r[2], f, c) + PointsFrom(r[3], f, c)
              + PointsFrom(r[4], f, c) + PointsFrom(r[5], f, c) + PointsFrom(r[6], f, c) + PointsFrom(r[7], f, c)
              + PointsFrom(r[8], f, c) + PointsFrom(r[9], f, c) + PointsFrom(r[10], f, c) + PointsFrom(r[11], f, c)
              + PointsFrom(r[12], f, c) + PointsFrom(r[13], f, c) + PointsFrom(r[14], f, c) + PointsFrom(r[15], f, c)
              + PointsFrom(SMS_COMBINATION, f, c) + PointsFrom(OVERLAY_COMBINATION, f, c)
              + PointsFrom(LOADER_COMBINATION, f, c)
  {
    hide PointsFrom, Matched, PointsOf;
    var r := RULES;
    assert |r| == 16;
    assert r[..5] == [] + r[..5] && r[..10] == r[..5] + r[5..10] && r[..15] == r[..10] + r[10..15];
    assert ALL_RULES == r[..15] + [r[15]] + [SMS_COMBINATION, OVERLAY_COMBINATION, LOADER_COMBINATION];
    assert PointsOf(Matched([], f), c) == 0 by { NoRulesNoPoints(f, c); }
    Next5([], r[..5], f, c);
    Next5(r[..5], r[5..10], f, c);
    Next5(r[..10], r[10..15], f, c);
    PointsNext(r[..15], r[15], f, c);
    PointIs(r[15], f, c);
    Next3(r[..15] + [r[15]], SMS_COMBINATION, OVERLAY_COMBINATION, LOADER_COMBINATION, f, c);
  }

  lemma PointIs(r: Rule, f: Features, c: RiskCategory)
    ensures PointsFrom(r, f, c) == Points(Matches(r, f) && r.category == c, r.points)
  {
  }

  lemma NoRulesNoPoints(f: Features, c: RiskCategory)
    ensures PointsOf(Matched([], f), c) == 0
  {
  }

  lemma OneTest(r: Rule, f: Features)
    requires |r.tests| == 1
    ensures Matches(r, f) <==> Holds(r.tests[0], f)
  {
  }

  lemma TestsOfTheTable(f: Features)
    ensures forall i | 0 <= i < 16 :: Matches(RULES[i], f) <==> Holds(RULES[i].tests[0], f)
    ensures Matches(SMS_COMBINATION, f) <==>
              && Holds(Permission(StaticRules.READ_SMS), f) && Holds(Permission(StaticRules.RECEIVE_SMS), f)
              && Holds(Component(SMS_RECEIVER), f)
    ensures Matches(OVERLAY_COMBINATION, f) <==>
              Holds(Permission(ALERT_WINDOW), f) && Holds(Component(ACCESSIBILITY_SERVICE), f)
    ensures Matches(LOADER_COMBINATION, f) <==> Holds(Signal(CODE_LOADING), f) && Holds(EmbeddedPayload, f)
  {
    hide Holds;
    forall i | 0 <= i < 16 ensures Matches(RULES[i], f) <==> Holds(RULES[i].tests[0], f) {
      assert |RULES[i].tests| == 1;
      OneTest(RULES[i], f);
    }
    var sms, overlay, loader := SMS_COMBINATION.tests, OVERLAY_COMBINATION.tests, LOADER_COMBINATION.tests;
    assert sms[0] == Permission(StaticRules.READ_SMS) && sms[1] == Permission(StaticRules.RECEIVE_SMS);
    assert sms[2] == Component(SMS_RECEIVER);
    assert overlay[0] == Permission(ALERT_WINDOW) && overlay[1] == Component(ACCESSIBILITY_SERVICE);
    assert loader[0] == Signal(CODE_LOADING) && loader[1] == EmbeddedPayload;
  }

  /** What every static feature is worth in the two categories about stealing. */
  lemma TheftPoints(f: Features)
    ensures var read := "android.permission.READ_SMS" in f.permissions;
            var receive := "android.permission.RECEIVE_SMS" in f.permissions;
            var overlay := "android.permission.SYSTEM_ALERT_WINDOW" in f.permissions;
            var receiver, service := "sms_receiver" in f.components, "accessibility_service" in f.components;
            && StaticTotals(f)[CredentialTheft] ==
                 Points(read, 18) + Points(receive, 14) + Points(receiver, 18) + Points(service, 22)
                 + Points("sms_api" in f.signals, 10) + Points(read && receive && receiver, 18)
            && StaticTotals(f)[PaymentManipulation] ==
                 Points(overlay, 22) + Points("installed_app_enumeration" in f.signals, 17)
                 + Points("input_injection" in f.signals, 28) + Points(service, 20) + Points(overlay && service, 22)
  {
    hide Matches;
    TestsOfTheTable(f);
    Blocks(f, CredentialTheft);
    Blocks(f, PaymentManipulation);
  }

  /** And in the two about deceiving and hiding. */
  lemma DeceptionPoints(f: Features)
    ensures StaticTotals(f)[FraudImpersonation] ==
              Points(f.bankImpersonation, 45)
              + Points("android.permission.REQUEST_INSTALL_PACKAGES" in f.permissions, 18)
    ensures StaticTotals(f)[EvasionResilience] ==
              Points("dynamic_code_loading" in f.signals, 25) + Points("reflection" in f.signals, 12)
              + Points("command_execution" in f.signals, 25) + Points(f.nameObfuscation, 18)
              + Points(f.payloads != [], 20)
              + Points("dynamic_code_loading" in f.signals && f.payloads != [], 15)
  {
    hide Matches;
    TestsOfTheTable(f);
    Blocks(f, FraudImpersonation);
    Blocks(f, EvasionResilience);
  }

  /* ---------- Engine findings ---------- */

  /** A finding that counts: marked as eligible, of one of the categories, and with a confidence of at least 0.7. */
  predicate Counts(x: EngineFinding, engine: string, c: RiskCategory) {
    x.eligible && x.confidence >= 0.7 && x.category == Some(c) && x.engine == engine
  }

  /** The points an engine asks for in a category; negative ones ask for nothing. */
  function Asked(findings: seq<EngineFinding>, engine: string, c: RiskCategory): nat {
    if findings == [] then 0
    else
      var n := |findings| - 1;
      Asked(findings[..n], engine, c) + if Counts(findings[n], engine, c) then Max(0, findings[n].points) else 0
  }

  /**
   An engine is granted in a category what it asks for, up to 25. The limit of
   30 for a single finding never makes a difference.
   */
  lemma {:induction false} GrantedIs(findings: seq<EngineFinding>, engine: string, c: RiskCategory)
    ensures Granted(findings, (engine, c)) == Min(25, Asked(findings, engine, c))
  {
    if findings != [] {
      GrantedIs(findings[..|findings| - 1], engine, c);
    }
  }

  /* ---------- Runtime observations ---------- */

  ghost predicate Seen(items: seq<Item>, kinds: set<string>) {
    exists e :: e in items && e.kind in kinds
  }

  /** A network record of at least 0.7. */
  ghost predicate SeenNetwork(items: seq<Item>) {
    exists e :: e in items && e.kind in {NETWORK, DNS} && e.confidence >= 0.7
  }

  lemma AnyMeans(items: seq<Item>, p: Item -> bool)
    ensures Any(items, p) <==> exists e :: e in items && p(e)
  {
    if e :| e in items && p(e) {
      AnyHas(items, e, p);
    }
  }

  /** What fires the OTP rule: a delivery, an access, and trust in some of the records. */
  lemma OtpRuleFires(items: seq<Item>)
    ensures Fires(OtpRule, items) <==>
              && Seen(items, {SMS_DELIVERED}) && Seen(items, {SMS_ACCESS, MARKER_CORRELATION})
              && exists e :: e in items && e.kind in {SMS_DELIVERED, SMS_ACCESS, MARKER_CORRELATION}
                             && (e.trust in {Instrumented, PayloadCorrelated} || e.confidence >= 0.8)
  {
    hide Any;
    AnyMeans(items, IsDelivery);
    AnyMeans(items, IsAccess);
    AnyMeans(items, TrustedSms);
  }

  /** What fires the exfiltration rule: a marker, a confident network record, and a claim by one of these. */
  lemma ExfilRuleFires(items: seq<Item>)
    ensures Fires(ExfilRule, items) <==>
              && Seen(items, {MARKER_CORRELATION}) && SeenNetwork(items)
              && exists e :: e in items && ClaimsPayload(e)
                             && (e.kind == MARKER_CORRELATION || (e.kind in {NETWORK, DNS} && e.confidence >= 0.7))
  {
    hide Any, ClaimsPayload;
    AnyMeans(items, IsMarker);
    AnyMeans(items, ConfidentNetwork);
    AnyMeans(items, ScoredClaim);
  }

  /** The other rules fire on the mere sight of their kinds. */
  lemma SightingRulesFire(items: seq<Item>)
    ensures Fires(AccessibilityRule, items) <==> Seen(items, {"accessibility_behavior", "accessibility_event"})
    ensures Fires(CodeLoadRule, items) <==> Seen(items, {"dynamic_code_load", "classloader_event"})
    ensures Fires(NetworkRule, items) <==> SeenNetwork(items)
    ensures Fires(WebViewRule, items) <==> Seen(items, {"webview_activity"})
  {
    hide Any;
    AnyMeans(items, ConfidentNetwork);
    AnyMeans(items, IsAccessibility);
    AnyMeans(items, IsCodeLoad);
    AnyMeans(items, IsWebView);
  }

  function PartOf(r: RuntimeRule, items: seq<Item>, c: RiskCategory): nat {
    if Fires(r, items) && RuleCategory(r) == c then RulePoints(r) else 0
  }

  lemma PartNext(i: nat, items: seq<Item>, c: RiskCategory)
    requires i < |RUNTIME_RULES|
    ensures RawRuntime(RUNTIME_RULES[..i + 1], items, c) ==
              RawRuntime(RUNTIME_RULES[..i], items, c) + PartOf(RUNTIME_RULES[i], items, c)
  {
    RawRuntimeNext(RUNTIME_RULES, i, items, c);
  }

  lemma RuntimeParts(items: seq<Item>, c: RiskCategory)
    ensures RawRuntime(RUNTIME_RULES, items, c) ==
              PartOf(OtpRule, items, c) + PartOf(ExfilRule, items, c) + PartOf(AccessibilityRule, items, c)
              + PartOf(CodeLoadRule, items, c) + PartOf(NetworkRule, items, c) + PartOf(WebViewRule, items, c)
  {
    hide PartOf, RawRuntime;
    NoRuntimeRules(items, c);
    PartNext(0, items, c);
    PartNext(1, items, c);
    PartNext(2, items, c);
    PartNext(3, items, c);
    PartNext(4, items, c);
    PartNext(5, items, c);
    assert RUNTIME_RULES[..6] == RUNTIME_RULES;
  }

  lemma NoRuntimeRules(items: seq<Item>, c: RiskCategory)
    ensures RawRuntime(RUNTIME_RULES[..0], items, c) == 0
  {
  }

  /**
   What the runtime rules add: OTP interception 20 and exfiltration 15, at most
   25 together; accessibility 18 and web views 12, at most 25 together; code
   loading 15; network contact 10; and at most 35 in all.
   */
  lemma RuntimeAdjustmentIs(items: seq<Item>)
    ensures RuntimePoints(items, CredentialTheft) ==
              Min(25, Points(Fires(OtpRule, items), 20) + Points(Fires(ExfilRule, items), 15))
    ensures RuntimePoints(items, PaymentManipulation) ==
              Min(25, Points(Fires(AccessibilityRule, items), 18) + Points(Fires(WebViewRule, items), 12))
    ensures RuntimePoints(items, EvasionResilience) == Points(Fires(CodeLoadRule, items), 15)
    ensures RuntimePoints(items, FraudImpersonation) == Points(Fires(NetworkRule, items), 10)
    ensures RuntimeAdjustment(items) ==
              Min(35, RuntimePoints(items, CredentialTheft) + RuntimePoints(items, PaymentManipulation)
                      + RuntimePoints(items, EvasionResilience) + RuntimePoints(items, FraudImpersonation))
  {
    hide Fires, RawRuntime;
    RuntimeParts(items, CredentialTheft);
    RuntimeParts(items, PaymentManipulation);
    RuntimeParts(items, EvasionResilience);
    RuntimeParts(items, FraudImpersonation);
  }

  /* ---------- Severity and confirmation ---------- */

  /** The bands of the overall score, and how far runtime evidence confirms it. */
  lemma BandsAndConfirmation(score: int, s: Setting, fired: nat, adjustment: nat)
    ensures SeverityOf(score) == Critical <==> 75 <= score
    ensures SeverityOf(score) == High <==> 50 <= score <= 74
    ensures SeverityOf(score) == Medium <==> 25 <= score <= 49
    ensures SeverityOf(score) == Low <==> score <= 24
    ensures Confirmation(s, fired, adjustment) == 0.0 <==> !s.coverage.runtime || fired == 0
    ensures var share := fired as real / 4.0 + 3.0 * adjustment as real / 140.0;
            s.coverage.runtime && fired > 0 ==>
              && (share >= 1.0 ==> Confirmation(s, fired, adjustment) == 1.0)
              && (share <= 1.0 ==> IsNearest(Round(share * 100.0), share * 100.0)
                                   && Confirmation(s, fired, adjustment) == Round(share * 100.0) as real / 100.0)
  {
    var share := fired as real / 4.0 + 3.0 * adjustment as real / 140.0;
    assert adjustment as real / 35.0 * 0.75 == 3.0 * adjustment as real / 140.0;
    RoundIsNearest(share * 100.0);
    if s.coverage.runtime && fired > 0 {
      WholeIsNearest(100.0, 100);
      RoundIsMonotone(25.0, if share < 1.0 then share * 100.0 else 100.0);
      WholeIsNearest(25.0, 25);
    }
  }
}
