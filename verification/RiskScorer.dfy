/**
 `RiskScorer.calculate`: the score, its severity and its confidence.  The
 confidence is a chain of roundings and caps over fractions; here it is shown to
 be a sum of whole thousandths, from which it follows which caps ever apply,
 that more evidence never lowers it, and when it depends on the order in which
 the engines report.
 */
module RiskScorer {
  import opened Common
  import opened Evidence
  import opened Scoring
  import opened StaticRules
  import opened AcceptanceOrder

  datatype Severity = Low | Medium | High | Critical

  datatype Coverage = Coverage(archive: bool, manifest: bool, dex: bool, certificate: bool, runtime: bool)

  /** What the confidence depends on besides the evidence. */
  datatype Setting = Setting(coverage: Coverage, partial: bool, unavailable: nat)

  datatype Assessment = Assessment(
    staticScore: int, runtimeAdjustment: nat, overall: int, severity: Severity, confidence: real,
    runtimeConfirmation: real, accepted: nat)

  function SeverityOf(score: int): Severity {
    if score >= 75 then Critical else if score >= 50 then High else if score >= 25 then Medium else Low
  }

  function One(present: bool): nat {
    if present then 1 else 0
  }

  function Covered(c: Coverage): nat {
    One(c.archive) + One(c.manifest) + One(c.dex) + One(c.certificate)
  }

  function Least(x: real, y: real): real {
    if x <= y then x else y
  }

  function Greatest(x: real, y: real): real {
    if x >= y then x else y
  }

  /** `round(x, 3)` and `round(x, 2)` on exact values. */
  function Round3(x: real): real {
    Round(x * 1000.0) as real / 1000.0
  }

  function Round2(x: real): real {
    Round(x * 100.0) as real / 100.0
  }

  /* ---------- Confidence ---------- */

  function BaseConfidence(covered: nat, rules: nat): real {
    Round3(Least(0.85, 0.45 + covered as real * 0.10 + Min(rules, 8) as real * 0.0125))
  }

  /** With `rules` static rules and accepted findings, and `fired` runtime rules. */
  function Confidence(s: Setting, rules: nat, fired: nat): real {
    var base := BaseConfidence(Covered(s.coverage), rules);
    var observed := if s.coverage.runtime && fired > 0
                    then Round3(Least(0.98, base + 0.06 + Least(0.08, fired as real * 0.03))) else base;
    var limited := if s.partial then Least(observed, 0.68) else observed;
    if s.unavailable > 0
    then Greatest(0.35, Round3(limited - Least(0.08, s.unavailable as real * 0.01))) else limited
  }

  /** What the rules contribute, in thousandths: 12.5 each, ties rounded to the even. */
  function Contribution(rules: nat): nat {
    [0, 12, 25, 38, 50, 62, 75, 88, 100][Min(rules, 8)]
  }

  function BaseThousandths(covered: nat, rules: nat): nat {
    Min(850, 450 + 100 * covered + Contribution(rules))
  }

  function Observed(s: Setting, rules: nat, fired: nat): nat {
    var base := BaseThousandths(Covered(s.coverage), rules);
    if s.coverage.runtime && fired > 0 then Min(980, base + 60 + Min(80, 30 * fired)) else base
  }

  function Thousandths(s: Setting, rules: nat, fired: nat): int {
    (if s.partial then Min(680, Observed(s, rules, fired)) else Observed(s, rules, fired))
    - Min(80, 10 * s.unavailable)
  }

  lemma BaseIsThousandths(covered: nat, rules: nat)
    requires covered <= 4
    ensures BaseConfidence(covered, rules) * 1000.0 == BaseThousandths(covered, rules) as real
  {
    var n := Min(rules, 8);
    assert n == 0 || n == 1 || n == 2 || n == 3 || n == 4 || n == 5 || n == 6 || n == 7 || n == 8;
  }

  lemma RoundWhole(x: real, n: int)
    requires x == n as real / 1000.0
    ensures Round3(x) == x
  {
    assert x * 1000.0 == n as real;
  }

  /** The roundings are exact and the lower limit of 0.35 never applies. */
  lemma ConfidenceIsThousandths(s: Setting, rules: nat, fired: nat)
    ensures Confidence(s, rules, fired) * 1000.0 == Thousandths(s, rules, fired) as real
  {
    hide BaseConfidence, BaseThousandths, Round3;
    var covered := Covered(s.coverage);
    BaseIsThousandths(covered, rules);
    BaseBounds(covered, rules);
    var base := BaseConfidence(covered, rules);
    var observed := Observed(s, rules, fired);
    if s.coverage.runtime && fired > 0 {
      var x := Least(0.98, base + 0.06 + Least(0.08, fired as real * 0.03));
      assert x == observed as real / 1000.0;
      RoundWhole(x, observed);
    }
    var limited: int := if s.partial then Min(680, observed) else observed;
    if s.unavailable > 0 {
      var y := limited as real / 1000.0 - Least(0.08, s.unavailable as real * 0.01);
      RoundWhole(y, limited - Min(80, 10 * s.unavailable));
    }
  }

  lemma BaseBounds(covered: nat, rules: nat)
    ensures 450 <= BaseThousandths(covered, rules) <= 850
  {
  }

  lemma ContributionGrows(rules: nat, rules': nat)
    ensures rules <= rules' ==> Contribution(rules) <= Contribution(rules')
    ensures Contribution(rules) == Contribution(rules') <==> Min(rules, 8) == Min(rules', 8)
    ensures Contribution(rules) <= 88 || Contribution(rules) == 100
  {
    var n, m := Min(rules, 8), Min(rules', 8);
    var steps := [0, 12, 25, 38, 50, 62, 75, 88, 100];
    assert forall i, j | 0 <= i < j < 9 :: steps[i] < steps[j];
    assert Contribution(rules) == steps[n] && Contribution(rules') == steps[m];
  }

  /** The confidence lies between 0.37 and 0.98, and stays lower for partial analyses and without runtime evidence. */
  lemma ConfidenceBounds(s: Setting, rules: nat, fired: nat)
    ensures 0.37 <= Confidence(s, rules, fired) <= 0.98
    ensures s.partial ==> Confidence(s, rules, fired) <= 0.68
    ensures !s.coverage.runtime || fired == 0 ==> Confidence(s, rules, fired) <= 0.85
  {
    hide BaseThousandths, Confidence;
    ConfidenceIsThousandths(s, rules, fired);
    BaseBounds(Covered(s.coverage), rules);
  }

  predicate NoWorse(s: Setting, s': Setting) {
    && Covered(s.coverage) <= Covered(s'.coverage) && (s.coverage.runtime ==> s'.coverage.runtime)
    && (s'.partial ==> s.partial) && s'.unavailable <= s.unavailable
  }

  /** More rules, more runtime rules, more coverage or fewer failed engines never lower the confidence. */
  lemma ConfidenceGrows(s: Setting, s': Setting, rules: nat, rules': nat, fired: nat, fired': nat)
    requires NoWorse(s, s') && rules <= rules' && fired <= fired'
    ensures Confidence(s, rules, fired) <= Confidence(s', rules', fired')
  {
    hide Confidence, Covered, Contribution;
    ConfidenceIsThousandths(s, rules, fired);
    ConfidenceIsThousandths(s', rules', fired');
    ContributionGrows(rules, rules');
  }

  /**
   What a different number of rules does not show in: saturation, full coverage, or
   the limit for partial analyses.
   */
  predicate Indifferent(s: Setting, rules: nat, rules': nat, fired: nat) {
    || Min(rules, 8) == Min(rules', 8)
    || Covered(s.coverage) == 4
    || (s.partial && Observed(s, rules, fired) >= 680 && Observed(s, rules', fired) >= 680)
  }

  lemma ConfidenceSeesRulesIff(s: Setting, rules: nat, rules': nat, fired: nat)
    ensures Confidence(s, rules, fired) == Confidence(s, rules', fired) <==> Indifferent(s, rules, rules', fired)
  {
    hide Confidence, Contribution;
    ConfidenceIsThousandths(s, rules, fired);
    ConfidenceIsThousandths(s, rules', fired);
    ContributionGrows(rules, rules');
    ContributionGrows(rules', rules);
  }

  /* ---------- The whole assessment ---------- */

  function RulesCounted(f: Features, findings: seq<EngineFinding>): nat {
    |MatchedRules(f)| + Accepted(findings)
  }

  function FiredCount(items: seq<Item>): nat {
    |Firing(RUNTIME_RULES, items)|
  }

  function Confirmation(s: Setting, fired: nat, adjustment: nat): real {
    if s.coverage.runtime && fired > 0
    then Round2(Least(1.0, fired as real * 0.25 + adjustment as real / GLOBAL_RUNTIME_CAP as real * 0.75))
    else 0.0
  }

  ghost function ConfidenceOf(f: Features, findings: seq<EngineFinding>, items: seq<Item>, s: Setting): real {
    Confidence(s, RulesCounted(f, findings), FiredCount(items))
  }

  class RiskScorer {
    method Calculate(f: Features, findings: seq<EngineFinding>, delta: real, items: seq<Item>, s: Setting)
      returns (r: Assessment)
      ensures r.overall == OverallScore(StaticTotals(f), findings, delta, items)
      ensures r.overall == Min(100, r.staticScore + r.runtimeAdjustment)
      ensures 0 <= r.staticScore <= 100 && r.runtimeAdjustment == RuntimeAdjustment(items) <= GLOBAL_RUNTIME_CAP
      ensures r.severity == SeverityOf(r.overall) && r.accepted == Accepted(findings)
      ensures r.confidence == ConfidenceOf(f, findings, items, s)
      ensures r.runtimeConfirmation == Confirmation(s, FiredCount(items), RuntimeAdjustment(items))
    {
      hide EnginePoints, Accepted, Firing, Confidence, Confirmation, Weighted, Round, RuntimePoints;
      var base, matched := MatchRules(f);
      var totals, awards := EngineEvidence(base, findings);
      assert totals == WithEngines(base, findings);
      var staticScore := StaticScore(totals, delta);
      var points, fired := RuntimeStage(items);
      var runtime := Min(GLOBAL_RUNTIME_CAP,
                         points[CredentialTheft] + points[PaymentManipulation]
                         + points[FraudImpersonation] + points[EvasionResilience]);
      var overall := Clamp100(staticScore + runtime);
      r := Assessment(staticScore, runtime, overall, SeverityOf(overall),
                      Confidence(s, |matched| + |awards|, |fired|), Confirmation(s, |fired|, runtime), |awards|);
    }
  }

  /** Adding features, findings, runtime evidence or coverage never lowers the score, nor the confidence. */
  lemma AssessmentNeverFalls(f: Features, f': Features, findings: seq<EngineFinding>, more: seq<EngineFinding>,
                             delta: real, delta': real, items: seq<Item>, items': seq<Item>, s: Setting, s': Setting)
    requires Within(f, f') && delta <= delta' && Includes(items', items) && NoWorse(s, s')
    ensures OverallScore(StaticTotals(f), findings, delta, items)
         <= OverallScore(StaticTotals(f'), findings + more, delta', items')
    ensures ConfidenceOf(f, findings, items, s) <= ConfidenceOf(f', findings + more, items', s')
  {
    hide OverallScore, Confidence, Firing, Accepted, PointsOf, Within, NoWorse, Includes;
    MoreFeaturesMatchMore(ALL_RULES, f, f');
    assert AtMost(StaticTotals(f), StaticTotals(f'));
    OverallNeverFalls(StaticTotals(f), StaticTotals(f'), findings, more, delta, delta', items, items');
    AcceptedGrows(findings, more);
    FiringGrows(RUNTIME_RULES, items, items');
    ConfidenceGrows(s, s', RulesCounted(f, findings), RulesCounted(f', findings + more),
                    FiredCount(items), FiredCount(items'));
  }

  lemma {:induction false} AcceptedGrows(findings: seq<EngineFinding>, more: seq<EngineFinding>)
    ensures Accepted(findings) <= Accepted(findings + more)
  {
    if more == [] {
      assert findings + more == findings;
    } else {
      var n := |more| - 1;
      assert (findings + more)[..|findings + more| - 1] == findings + more[..n];
      AcceptedGrows(findings, more[..n]);
    }
  }

  /* ---------- Confidence and the order of the findings ---------- */

  ghost predicate SameConfidenceInEveryOrder(f: Features, a: seq<EngineFinding>, items: seq<Item>, s: Setting) {
    forall b | multiset(b) == multiset(a) :: ConfidenceOf(f, b, items, s) == ConfidenceOf(f, a, items, s)
  }

  /**
   The confidence is the same for every order of the engine findings if and
   only if it does not tell the most generous order from the least generous one:
   both counts saturate, coverage is full, or the limit for partial analyses
   hides the difference.
   */
  lemma ConfidenceIgnoresOrderIff(f: Features, a: seq<EngineFinding>, items: seq<Item>, s: Setting)
    ensures SameConfidenceInEveryOrder(f, a, items, s) <==>
              Indifferent(s, RulesCounted(f, Ascending(a)), RulesCounted(f, Descending(a)), FiredCount(items))
  {
    hide Confidence, Indifferent, Accepted, Ascending, Descending, MatchedRules, FiredCount;
    var most, least := RulesCounted(f, Ascending(a)), RulesCounted(f, Descending(a));
    var fired := FiredCount(items);
    ExtremeOrders(a, a);
    ConfidenceSeesRulesIff(s, most, least, fired);
    if Indifferent(s, most, least, fired) {
      forall b | multiset(b) == multiset(a) ensures ConfidenceOf(f, b, items, s) == ConfidenceOf(f, a, items, s) {
        Squeezed(f, a, a, items, s);
        Squeezed(f, a, b, items, s);
      }
    }
    if SameConfidenceInEveryOrder(f, a, items, s) {
      assert ConfidenceOf(f, Ascending(a), items, s) == ConfidenceOf(f, a, items, s);
      assert ConfidenceOf(f, Descending(a), items, s) == ConfidenceOf(f, a, items, s);
    }
  }

  lemma Squeezed(f: Features, a: seq<EngineFinding>, b: seq<EngineFinding>, items: seq<Item>, s: Setting)
    requires multiset(b) == multiset(a)
    ensures ConfidenceOf(f, Descending(a), items, s) <= ConfidenceOf(f, b, items, s)
         <= ConfidenceOf(f, Ascending(a), items, s)
  {
    hide Confidence, Accepted, Ascending, Descending, MatchedRules, FiredCount;
    ExtremeOrders(a, b);
    ConfidenceGrows(s, s, RulesCounted(f, Descending(a)), RulesCounted(f, b), FiredCount(items), FiredCount(items));
    ConfidenceGrows(s, s, RulesCounted(f, b), RulesCounted(f, Ascending(a)), FiredCount(items), FiredCount(items));
  }

  /**
   Where nothing hides the count, two findings of one engine already make a
   difference: 30 points before 10 leave less confidence than 10 before 30.
   */
  lemma ConfidenceDependsOnOrder(f: Features, engine: string, c: RiskCategory, items: seq<Item>, s: Setting)
    requires |MatchedRules(f)| <= 6 && Covered(s.coverage) < 4 && !s.partial
    ensures var large := EngineFinding(engine, Some(c), 30, 1.0, true);
            var small := EngineFinding(engine, Some(c), 10, 1.0, true);
            ConfidenceOf(f, [large, small], items, s) < ConfidenceOf(f, [small, large], items, s)
  {
    hide Confidence, Accepted, MatchedRules, FiredCount;
    AcceptedDependsOnOrder(engine, c);
    var n, fired := |MatchedRules(f)|, FiredCount(items);
    ConfidenceSeesRulesIff(s, n + 1, n + 2, fired);
    ConfidenceGrows(s, s, n + 1, n + 2, fired, fired);
  }
}
