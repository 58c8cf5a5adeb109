/**
 The static rules of `RiskScorer`: the rule table, the three combinations, and
 the points that the matching ones add up to per category.
 */
module StaticRules {
  import opened Common
  import opened Scoring

  /** The features rules look at; `components` and `signals` hold the names that are present and detected. */
  datatype Features = Features(
    permissions: set<string>, components: set<string>, signals: set<string>,
    bankImpersonation: bool, nameObfuscation: bool, payloads: seq<string>)

  datatype Test = Permission(name: string) | Component(name: string) | Signal(name: string)
                | BankImpersonation | NameObfuscation | EmbeddedPayload

  datatype Rule = Rule(id: string, category: RiskCategory, points: nat, tests: seq<Test>)

  const READ_SMS := "android.permission.READ_SMS"
  const RECEIVE_SMS := "android.permission.RECEIVE_SMS"
  const ALERT_WINDOW := "android.permission.SYSTEM_ALERT_WINDOW"
  const INSTALL_PACKAGES := "android.permission.REQUEST_INSTALL_PACKAGES"
  const SMS_RECEIVER := "sms_receiver"
  const ACCESSIBILITY_SERVICE := "accessibility_service"
  const CODE_LOADING := "dynamic_code_loading"

  const RULES: seq<Rule> := [
    Rule("APK-CRED-001", CredentialTheft, 18, [Permission(READ_SMS)]),
    Rule("APK-CRED-002", CredentialTheft, 14, [Permission(RECEIVE_SMS)]),
    Rule("APK-CRED-003", CredentialTheft, 18, [Component(SMS_RECEIVER)]),
    Rule("APK-CRED-004", CredentialTheft, 22, [Component(ACCESSIBILITY_SERVICE)]),
    Rule("APK-CRED-005", CredentialTheft, 10, [Signal("sms_api")]),
    Rule("APK-PAY-001", PaymentManipulation, 22, [Permission(ALERT_WINDOW)]),
    Rule("APK-PAY-002", PaymentManipulation, 17, [Signal("installed_app_enumeration")]),
    Rule("APK-PAY-003", PaymentManipulation, 28, [Signal("input_injection")]),
    Rule("APK-PAY-004", PaymentManipulation, 20, [Component(ACCESSIBILITY_SERVICE)]),
    Rule("APK-IMP-001", FraudImpersonation, 45, [BankImpersonation]),
    Rule("APK-IMP-002", FraudImpersonation, 18, [Permission(INSTALL_PACKAGES)]),
    Rule("APK-EVA-001", EvasionResilience, 25, [Signal(CODE_LOADING)]),
    Rule("APK-EVA-002", EvasionResilience, 12, [Signal("reflection")]),
    Rule("APK-EVA-003", EvasionResilience, 25, [Signal("command_execution")]),
    Rule("APK-EVA-004", EvasionResilience, 18, [NameObfuscation]),
    Rule("APK-EVA-005", EvasionResilience, 20, [EmbeddedPayload])]

  const SMS_COMBINATION :=
    Rule("APK-INT-001", CredentialTheft, 18, [Permission(READ_SMS), Permission(RECEIVE_SMS), Component(SMS_RECEIVER)])
  const OVERLAY_COMBINATION :=
    Rule("APK-INT-002", PaymentManipulation, 22, [Permission(ALERT_WINDOW), Component(ACCESSIBILITY_SERVICE)])
  const LOADER_COMBINATION :=
    Rule("APK-INT-003", EvasionResilience, 15, [Signal(CODE_LOADING), EmbeddedPayload])

  const ALL_RULES: seq<Rule> := RULES + [SMS_COMBINATION, OVERLAY_COMBINATION, LOADER_COMBINATION]

  predicate Holds(t: Test, f: Features) {
    match t
    case Permission(name) => name in f.permissions
    case Component(name) => name in f.components
    case Signal(name) => name in f.signals
    case BankImpersonation => f.bankImpersonation
    case NameObfuscation => f.nameObfuscation
    case EmbeddedPayload => f.payloads != []
  }

  predicate Matches(r: Rule, f: Features) {
    forall i | 0 <= i < |r.tests| :: Holds(r.tests[i], f)
  }

  function Matched(rules: seq<Rule>, f: Features): seq<Rule> {
    if rules == [] then []
    else
      var n := |rules| - 1;
      var before := Matched(rules[..n], f);
      if Matches(rules[n], f) then before + [rules[n]] else before
  }

  function PointsOf(rules: seq<Rule>, c: RiskCategory): nat {
    if rules == [] then 0
    else
      var n := |rules| - 1;
      PointsOf(rules[..n], c) + if rules[n].category == c then rules[n].points else 0
  }

  function MatchedRules(f: Features): seq<Rule> {
    Matched(ALL_RULES, f)
  }

  function StaticTotals(f: Features): (t: Totals)
    ensures AllCategories(t)
  {
    map c: RiskCategory | true :: PointsOf(MatchedRules(f), c)
  }

  lemma AppendRule(rules: seq<Rule>, r: Rule, f: Features)
    ensures Matched(rules + [r], f) == if Matches(r, f) then Matched(rules, f) + [r] else Matched(rules, f)
    ensures forall c :: PointsOf(rules + [r], c) == PointsOf(rules, c) + if r.category == c then r.points else 0
  {
    assert (rules + [r])[..|rules|] == rules;
  }

  ghost predicate Tally(totals: Totals, rules: seq<Rule>) {
    AllCategories(totals) && forall c: RiskCategory :: totals[c] == PointsOf(rules, c)
  }

  method AddRule(totals: Totals, matched: seq<Rule>, r: Rule) returns (totals': Totals, matched': seq<Rule>)
    requires Tally(totals, matched)
    ensures matched' == matched + [r] && Tally(totals', matched')
  {
    AppendRule(matched, r, Features({}, {}, {}, false, false, []));
    totals' := totals[r.category := totals[r.category] + r.points];
    matched' := matched + [r];
  }

  /** The first stage of `calculate`: the rule loop, then the three combinations. */
  method MatchRules(f: Features) returns (totals: Totals, matched: seq<Rule>)
    ensures matched == MatchedRules(f) && totals == StaticTotals(f)
  {
    hide Matches, PointsOf, Matched, Tally, MatchedRules;
    totals, matched := NO_POINTS, [];
    NothingMatched(f);
    var i := 0;
    while i < |RULES|
      invariant 0 <= i <= |RULES|
      invariant matched == Matched(RULES[..i], f) && Tally(totals, matched)
    {
      assert RULES[..i + 1] == RULES[..i] + [RULES[i]];
      AppendRule(RULES[..i], RULES[i], f);
      if Matches(RULES[i], f) {
        totals, matched := AddRule(totals, matched, RULES[i]);
      }
      i := i + 1;
    }
    assert RULES[..i] == RULES;
    Combinations(f);
    if READ_SMS in f.permissions && RECEIVE_SMS in f.permissions && SMS_RECEIVER in f.components {
      totals, matched := AddRule(totals, matched, SMS_COMBINATION);
    }
    if ALERT_WINDOW in f.permissions && ACCESSIBILITY_SERVICE in f.components {
      totals, matched := AddRule(totals, matched, OVERLAY_COMBINATION);
    }
    if CODE_LOADING in f.signals && f.payloads != [] {
      totals, matched := AddRule(totals, matched, LOADER_COMBINATION);
    }
    assert matched == MatchedRules(f);
    TallyIsTotals(totals, f);
  }

  lemma TallyIsTotals(totals: Totals, f: Features)
    requires Tally(totals, MatchedRules(f))
    ensures totals == StaticTotals(f)
  {
    hide PointsOf, MatchedRules;
    assert totals.Keys == StaticTotals(f).Keys;
  }

  lemma NothingMatched(f: Features)
    ensures Matched(RULES[..0], f) == [] && Tally(NO_POINTS, [])
  {
    forall c: RiskCategory ensures c in NO_POINTS && NO_POINTS[c] == 0 {
      match c
      case CredentialTheft =>
      case PaymentManipulation =>
      case FraudImpersonation =>
      case EvasionResilience =>
    }
  }

  /** What the three combinations add to the matched rules, and when. */
  lemma Combinations(f: Features)
    ensures var sms := READ_SMS in f.permissions && RECEIVE_SMS in f.permissions && SMS_RECEIVER in f.components;
            var overlay := ALERT_WINDOW in f.permissions && ACCESSIBILITY_SERVICE in f.components;
            var loader := CODE_LOADING in f.signals && f.payloads != [];
            MatchedRules(f) ==
              Matched(RULES, f) + (if sms then [SMS_COMBINATION] else [])
              + (if overlay then [OVERLAY_COMBINATION] else []) + (if loader then [LOADER_COMBINATION] else [])
  {
    hide Matched;
    var two := RULES + [SMS_COMBINATION] + [OVERLAY_COMBINATION];
    assert ALL_RULES == two + [LOADER_COMBINATION];
    AppendRule(RULES, SMS_COMBINATION, f);
    AppendRule(RULES + [SMS_COMBINATION], OVERLAY_COMBINATION, f);
    AppendRule(two, LOADER_COMBINATION, f);
    assert Matches(SMS_COMBINATION, f) <==>
        Holds(SMS_COMBINATION.tests[0], f) && Holds(SMS_COMBINATION.tests[1], f) && Holds(SMS_COMBINATION.tests[2], f);
    assert Matches(OVERLAY_COMBINATION, f) <==>
        Holds(OVERLAY_COMBINATION.tests[0], f) && Holds(OVERLAY_COMBINATION.tests[1], f);
    assert Matches(LOADER_COMBINATION, f) <==>
        Holds(LOADER_COMBINATION.tests[0], f) && Holds(LOADER_COMBINATION.tests[1], f);
  }

  /* ---------- More features never lower the points ---------- */

  /** Every feature of `f` is one of `g`. */
  predicate Within(f: Features, g: Features) {
    && f.permissions <= g.permissions && f.components <= g.components && f.signals <= g.signals
    && (f.bankImpersonation ==> g.bankImpersonation) && (f.nameObfuscation ==> g.nameObfuscation)
    && (f.payloads != [] ==> g.payloads != [])
  }

  lemma MoreFeaturesHold(r: Rule, f: Features, g: Features)
    requires Within(f, g)
    ensures Matches(r, f) ==> Matches(r, g)
  {
    if Matches(r, f) {
      forall i | 0 <= i < |r.tests| ensures Holds(r.tests[i], g) {
        assert Holds(r.tests[i], f);
      }
    }
  }

  lemma {:induction false} MoreFeaturesMatchMore(rules: seq<Rule>, f: Features, g: Features)
    requires Within(f, g)
    ensures |Matched(rules, f)| <= |Matched(rules, g)|
    ensures forall c :: PointsOf(Matched(rules, f), c) <= PointsOf(Matched(rules, g), c)
  {
    hide Matches, PointsOf, Within;
    if rules != [] {
      var n := |rules| - 1;
      MoreFeaturesMatchMore(rules[..n], f, g);
      MoreFeaturesHold(rules[n], f, g);
      AppendRule(Matched(rules[..n], f), rules[n], f);
      AppendRule(Matched(rules[..n], g), rules[n], g);
    }
  }
}
