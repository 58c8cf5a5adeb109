/**
 `RiskScorer`: the capped, greedy accumulation of engine findings and runtime
 rules has a closed form, from which order independence, bounds and
 monotonicity of the overall score follow. Weights and rounding are exact.
 */
module Scoring {
  import opened Common
  import opened Evidence
  import opened Verifier

  datatype RiskCategory = CredentialTheft | PaymentManipulation | FraudImpersonation | EvasionResilience

  /** An engine finding; a category outside the four is absent. */
  datatype EngineFinding = EngineFinding(
    engine: string, category: Option<RiskCategory>, points: int, confidence: real, eligible: bool)

  type Totals = map<RiskCategory, nat>
  type Key = (string, RiskCategory)

  const ENGINE_CAP := 25
  const FINDING_CAP := 30

  /* ---------- Engine findings ---------- */

  predicate Eligible(x: EngineFinding) {
    x.eligible && x.confidence >= 0.7 && x.category.Some?
  }

  function KeyOf(x: EngineFinding): Key
    requires Eligible(x)
  {
    (x.engine, x.category.value)
  }

  predicate For(x: EngineFinding, key: Key) {
    Eligible(x) && KeyOf(x) == key
  }

  function Requested(x: EngineFinding): nat {
    Max(0, Min(FINDING_CAP, x.points))
  }

  function RequestedBy(x: EngineFinding, key: Key): nat {
    if For(x, key) then Requested(x) else 0
  }

  /** All points requested for an engine and category. */
  function RequestedIn(findings: seq<EngineFinding>, key: Key): nat {
    if findings == [] then 0
    else var n := |findings| - 1; RequestedIn(findings[..n], key) + RequestedBy(findings[n], key)
  }

  function Granted(findings: seq<EngineFinding>, key: Key): nat {
    Min(ENGINE_CAP, RequestedIn(findings, key))
  }

  function Engines(findings: seq<EngineFinding>): set<string> {
    set i | 0 <= i < |findings| :: findings[i].engine
  }

  ghost function SumGranted(engines: set<string>, findings: seq<EngineFinding>, c: RiskCategory): nat {
    if engines == {} then 0
    else var e :| e in engines; Granted(findings, (e, c)) + SumGranted(engines - {e}, findings, c)
  }

  lemma {:induction false} SumGrantedPick(engines: set<string>, findings: seq<EngineFinding>, c: RiskCategory,
                                          e: string)
    requires e in engines
    ensures SumGranted(engines, findings, c) == Granted(findings, (e, c)) + SumGranted(engines - {e}, findings, c)
  {
    var d :| d in engines && SumGranted(engines, findings, c) ==
                             Granted(findings, (d, c)) + SumGranted(engines - {d}, findings, c);
    if d != e {
      SumGrantedPick(engines - {d}, findings, c, e);
      SumGrantedPick(engines - {e}, findings, c, d);
      assert engines - {d} - {e} == engines - {e} - {d};
    }
  }

  /** The sum over engines only depends on what each engine is granted. */
  lemma {:induction false} SumGrantedSame(engines: set<string>, a: seq<EngineFinding>, b: seq<EngineFinding>,
                                          c: RiskCategory)
    requires forall e | e in engines :: Granted(a, (e, c)) == Granted(b, (e, c))
    ensures SumGranted(engines, a, c) == SumGranted(engines, b, c)
  {
    if engines != {} {
      var e :| e in engines;
      SumGrantedPick(engines, a, c, e);
      SumGrantedPick(engines, b, c, e);
      SumGrantedSame(engines - {e}, a, b, c);
    }
  }

  lemma {:induction false} SumGrantedGrows(engines: set<string>, a: seq<EngineFinding>, b: seq<EngineFinding>,
                                           c: RiskCategory)
    requires forall e | e in engines :: Granted(a, (e, c)) <= Granted(b, (e, c))
    ensures SumGranted(engines, a, c) <= SumGranted(engines, b, c)
  {
    if engines != {} {
      var e :| e in engines;
      SumGrantedPick(engines, a, c, e);
      SumGrantedPick(engines, b, c, e);
      SumGrantedGrows(engines - {e}, a, b, c);
    }
  }

  lemma {:induction false} SilentEnginesGrantNothing(engines: set<string>, more: set<string>,
                                                     findings: seq<EngineFinding>, c: RiskCategory)
    requires engines <= more && forall e | e in more - engines :: Granted(findings, (e, c)) == 0
    ensures SumGranted(more, findings, c) == SumGranted(engines, findings, c)
    decreases |more|
  {
    if more - engines == {} {
      assert more == engines;
    } else {
      var e :| e in more - engines;
      SumGrantedPick(more, findings, c, e);
      SilentEnginesGrantNothing(engines, more - {e}, findings, c);
    }
  }

  lemma {:induction false} AbsentEngineRequestsNothing(findings: seq<EngineFinding>, key: Key)
    requires key.0 !in Engines(findings)
    ensures RequestedIn(findings, key) == 0
  {
    if findings != [] {
      var n := |findings| - 1;
      assert findings[n].engine in Engines(findings);
      forall e | e in Engines(findings[..n]) ensures e in Engines(findings) {
        var i :| 0 <= i < n && findings[..n][i].engine == e;
        assert findings[i].engine == e;
      }
      AbsentEngineRequestsNothing(findings[..n], key);
    }
  }

  /** The points a category receives from all engines. */
  ghost function EnginePoints(findings: seq<EngineFinding>, c: RiskCategory): nat {
    SumGranted(Engines(findings), findings, c)
  }

  lemma EnginesGrow(findings: seq<EngineFinding>, x: EngineFinding)
    ensures Engines(findings + [x]) == Engines(findings) + {x.engine}
  {
    var all := findings + [x];
    assert all[|findings|] == x;
    forall e | e in Engines(findings) ensures e in Engines(all) {
      var i :| 0 <= i < |findings| && findings[i].engine == e;
      assert all[i].engine == e;
    }
    forall e | e in Engines(all) ensures e in Engines(findings) + {x.engine} {
      var i :| 0 <= i < |all| && all[i].engine == e;
      assert i < |findings| ==> findings[i].engine == e;
    }
  }

  /** One more finding adds what its own engine and category gain, and nothing elsewhere. */
  lemma OneMoreFinding(findings: seq<EngineFinding>, x: EngineFinding, c: RiskCategory)
    ensures EnginePoints(findings + [x], c) ==
              EnginePoints(findings, c)
              + if Eligible(x) && x.category.value == c
                then Granted(findings + [x], (x.engine, c)) - Granted(findings, (x.engine, c)) else 0
  {
    var all, engines, key := findings + [x], Engines(findings) + {x.engine}, (x.engine, c);
    EnginesGrow(findings, x);
    forall e | e in engines - Engines(findings) ensures Granted(findings, (e, c)) == 0 {
      AbsentEngineRequestsNothing(findings, (e, c));
    }
    SilentEnginesGrantNothing(Engines(findings), engines, findings, c);
    assert all[..|findings|] == findings;
    forall e | e in engines - {x.engine} ensures Granted(findings, (e, c)) == Granted(all, (e, c)) {
    }
    SumGrantedPick(engines, findings, c, x.engine);
    SumGrantedPick(engines, all, c, x.engine);
    SumGrantedSame(engines - {x.engine}, findings, all, c);
  }

  predicate AllCategories(totals: Totals) {
    forall c: RiskCategory :: c in totals
  }

  function Used(used: map<Key, nat>, key: Key): nat {
    if key in used then used[key] else 0
  }

  /** What one more finding is granted: what the cap still allows of its request. */
  lemma GrantedNext(before: seq<EngineFinding>, x: EngineFinding, key: Key)
    ensures Granted(before, key) <= ENGINE_CAP
    ensures Granted(before + [x], key) ==
              Granted(before, key) + if For(x, key) then Min(Requested(x), ENGINE_CAP - Granted(before, key)) else 0
  {
    assert (before + [x])[..|before|] == before;
  }

  function PointsFor(x: EngineFinding, used: map<Key, nat>): nat {
    if Eligible(x) then Min(Requested(x), Max(0, ENGINE_CAP - Used(used, (x.engine, x.category.value)))) else 0
  }

  /** The body of the loop for one finding. */
  method Award(used: map<Key, nat>, totals: Totals, x: EngineFinding)
    returns (used': map<Key, nat>, totals': Totals, award: seq<(Key, nat)>)
    requires AllCategories(totals)
    ensures AllCategories(totals')
    ensures forall key: Key :: Used(used', key) == Used(used, key) + if For(x, key) then PointsFor(x, used) else 0
    ensures forall c: RiskCategory ::
              totals'[c] == totals[c] + if Eligible(x) && x.category.value == c then PointsFor(x, used) else 0
    ensures award == if PointsFor(x, used) > 0 then [((x.engine, x.category.value), PointsFor(x, used))] else []
  {
    used', totals', award := used, totals, [];
    if Eligible(x) {
      var key := (x.engine, x.category.value);
      var remaining := Max(0, ENGINE_CAP - Used(used, key));
      var points := Min(Requested(x), remaining);
      if points > 0 {
        used' := used[key := Used(used, key) + points];
        totals' := totals[key.1 := totals[key.1] + points];
        award := [(key, points)];
      }
    }
  }

  /** `_engine_evidence`: greedy in the order of the findings, with the closed form it adds up to. */
  method EngineEvidence(totals: Totals, findings: seq<EngineFinding>) returns (after: Totals, awards: seq<(Key, nat)>)
    requires AllCategories(totals)
    ensures AllCategories(after)
    ensures forall c: RiskCategory :: after[c] == totals[c] + EnginePoints(findings, c)
    ensures |awards| == Accepted(findings)
    ensures forall key: Key :: AwardedTo(awards, key) == Granted(findings, key)
    ensures forall i | 0 <= i < |awards| :: awards[i].1 > 0
  {
    hide EnginePoints, Granted, PointsFor, Accepted;
    after, awards := totals, [];
    var used: map<Key, nat> := map[];
    NothingYet(findings);
    var i := 0;
    while i < |findings|
      invariant 0 <= i <= |findings|
      invariant AllCategories(after)
      invariant forall key: Key :: Used(used, key) == Granted(findings[..i], key)
      invariant forall c: RiskCategory :: after[c] == totals[c] + EnginePoints(findings[..i], c)
      invariant |awards| == Accepted(findings[..i])
      invariant forall key: Key :: AwardedTo(awards, key) == Granted(findings[..i], key)
      invariant forall k | 0 <= k < |awards| :: awards[k].1 > 0
    {
      ghost var before, x := findings[..i], findings[i];
      assert findings[..i + 1] == before + [x];
      OneStep(before, x, used);
      ghost var used' := used;
      var award;
      used, after, award := Award(used, after, findings[i]);
      AwardMore(awards, award);
      AwardIs(used', x, award);
      awards := awards + award;
      i := i + 1;
    }
    assert findings[..i] == findings;
  }

  /** The points of the entries for an engine and category. */
  function AwardedTo(awards: seq<(Key, nat)>, key: Key): nat {
    if awards == [] then 0
    else var n := |awards| - 1; AwardedTo(awards[..n], key) + if awards[n].0 == key then awards[n].1 else 0
  }

  lemma AwardIs(used: map<Key, nat>, x: EngineFinding, award: seq<(Key, nat)>)
    requires award == if PointsFor(x, used) > 0 then [((x.engine, x.category.value), PointsFor(x, used))] else []
    ensures forall key: Key :: AwardedTo(award, key) == if For(x, key) then PointsFor(x, used) else 0
  {
    assert award != [] ==> award[..0] == [];
  }

  lemma AwardMore(awards: seq<(Key, nat)>, award: seq<(Key, nat)>)
    requires |award| <= 1
    ensures forall key :: AwardedTo(awards + award, key) == AwardedTo(awards, key) + AwardedTo(award, key)
  {
    if award == [] {
      assert awards + award == awards;
    } else {
      assert (awards + award)[..|awards|] == awards && award[..0] == [];
    }
  }

  lemma NothingYet(findings: seq<EngineFinding>)
    ensures forall key: Key :: Granted(findings[..0], key) == 0
    ensures forall c: RiskCategory :: EnginePoints(findings[..0], c) == 0
    ensures Accepted(findings[..0]) == 0
  {
    assert findings[..0] == [];
    assert Engines(findings[..0]) == {};
  }

  lemma OneStep(before: seq<EngineFinding>, x: EngineFinding, used: map<Key, nat>)
    requires forall key: Key :: Used(used, key) == Granted(before, key)
    ensures forall key: Key ::
              Granted(before + [x], key) == Granted(before, key) + if For(x, key) then PointsFor(x, used) else 0
    ensures forall c: RiskCategory ::
              EnginePoints(before + [x], c) ==
              EnginePoints(before, c) + if Eligible(x) && x.category.value == c then PointsFor(x, used) else 0
    ensures Accepted(before + [x]) == Accepted(before) + if PointsFor(x, used) > 0 then 1 else 0
  {
    forall key: Key
      ensures Granted(before + [x], key) == Granted(before, key) + if For(x, key) then PointsFor(x, used) else 0
    {
      GrantedNext(before, x, key);
    }
    forall c: RiskCategory
      ensures EnginePoints(before + [x], c) ==
              EnginePoints(before, c) + if Eligible(x) && x.category.value == c then PointsFor(x, used) else 0
    {
      OneMoreFinding(before, x, c);
    }
    assert (before + [x])[..|before|] == before;
    if Eligible(x) {
      GrantedNext(before, x, (x.engine, x.category.value));
    }
  }

  /** How many findings are awarded points. */
  function Accepted(findings: seq<EngineFinding>): nat {
    if findings == [] then 0
    else
      var n := |findings| - 1;
      var x := findings[n];
      Accepted(findings[..n]) +
      if Asks(x) && Granted(findings[..n], KeyOf(x)) < ENGINE_CAP then 1 else 0
  }

  /* ---------- Order does not matter ---------- */

  lemma {:induction false} RequestedWithout(findings: seq<EngineFinding>, i: nat, key: Key)
    requires i < |findings|
    ensures RequestedIn(findings, key) ==
              RequestedIn(findings[..i] + findings[i + 1..], key) + RequestedBy(findings[i], key)
  {
    var n := |findings| - 1;
    var rest := findings[..i] + findings[i + 1..];
    if i == n {
      assert rest == findings[..n];
    } else {
      RequestedWithout(findings[..n], i, key);
      assert rest[..n - 1] == findings[..n][..i] + findings[..n][i + 1..];
      assert rest[n - 1] == findings[n];
    }
  }

  lemma WithoutOne(s: seq<EngineFinding>, i: nat)
    requires i < |s|
    ensures multiset(s[..i] + s[i + 1..]) == multiset(s) - multiset{s[i]}
  {
    assert s == s[..i] + [s[i]] + s[i + 1..];
  }

  lemma SameRest(a: seq<EngineFinding>, b: seq<EngineFinding>, i: nat)
    requires multiset(a) == multiset(b) && a != [] && i < |b| && b[i] == a[0]
    ensures multiset(a[..0] + a[1..]) == multiset(b[..i] + b[i + 1..])
  {
    WithoutOne(a, 0);
    WithoutOne(b, i);
  }

  lemma FindIn(x: EngineFinding, b: seq<EngineFinding>) returns (i: nat)
    requires x in multiset(b)
    ensures i < |b| && b[i] == x
  {
    i :| i < |b| && b[i] == x;
  }

  lemma {:induction false} RequestedIgnoresOrder(a: seq<EngineFinding>, b: seq<EngineFinding>, key: Key)
    requires multiset(a) == multiset(b)
    ensures RequestedIn(a, key) == RequestedIn(b, key)
    decreases |a|
  {
    hide RequestedIn, RequestedBy;
    if a == [] {
      assert |multiset(b)| == |multiset(a)| == 0;
      assert a == b;
    } else {
      var i := FindIn(a[0], b);
      var others, rest := a[..0] + a[1..], b[..i] + b[i + 1..];
      SameRest(a, b, i);
      RequestedWithout(b, i, key);
      RequestedWithout(a, 0, key);
      assert |others| < |a|;
      RequestedIgnoresOrder(others, rest, key);
    }
  }

  lemma SameEngines(a: seq<EngineFinding>, b: seq<EngineFinding>)
    requires forall x | x in a :: x in b
    ensures Engines(a) <= Engines(b)
  {
    forall e | e in Engines(a) ensures e in Engines(b) {
      var i :| 0 <= i < |a| && a[i].engine == e;
      assert a[i] in b;
      var j :| 0 <= j < |b| && b[j] == a[i];
    }
  }

  lemma MultisetMembers(a: seq<EngineFinding>, b: seq<EngineFinding>)
    requires multiset(a) <= multiset(b)
    ensures forall x | x in a :: x in b
  {
    forall x | x in a ensures x in b {
      assert x in multiset(a);
      assert x in multiset(b);
    }
  }

  /** The greedy accumulation gives every category the same points in any order of the findings. */
  lemma EnginePointsIgnoreOrder(a: seq<EngineFinding>, b: seq<EngineFinding>, c: RiskCategory)
    requires multiset(a) == multiset(b)
    ensures EnginePoints(a, c) == EnginePoints(b, c)
  {
    MultisetMembers(a, b);
    MultisetMembers(b, a);
    SameEngines(a, b);
    SameEngines(b, a);
    assert Engines(a) == Engines(b);
    forall e | e in Engines(a) ensures Granted(a, (e, c)) == Granted(b, (e, c)) {
      RequestedIgnoresOrder(a, b, (e, c));
    }
    SumGrantedSame(Engines(a), a, b, c);
  }

  /** Eligible findings that ask for points. */
  predicate Asks(x: EngineFinding) {
    Eligible(x) && Requested(x) > 0
  }

  function Asking(findings: seq<EngineFinding>): nat {
    if findings == [] then 0
    else var n := |findings| - 1; Asking(findings[..n]) + if Asks(findings[n]) then 1 else 0
  }

  /* ---------- More findings never lower the points ---------- */

  lemma {:induction false} RequestedOfConcat(a: seq<EngineFinding>, more: seq<EngineFinding>, key: Key)
    ensures RequestedIn(a + more, key) == RequestedIn(a, key) + RequestedIn(more, key)
  {
    if more == [] {
      assert a + more == a;
    } else {
      var n := |more| - 1;
      assert (a + more)[..|a| + n] == a + more[..n];
      RequestedOfConcat(a, more[..n], key);
    }
  }

  lemma MoreFindingsMorePoints(a: seq<EngineFinding>, more: seq<EngineFinding>, c: RiskCategory)
    ensures EnginePoints(a, c) <= EnginePoints(a + more, c)
  {
    var all := a + more;
    assert forall x | x in a :: x in all;
    SameEngines(a, all);
    forall e | e in Engines(all) - Engines(a) ensures Granted(a, (e, c)) == 0 {
      AbsentEngineRequestsNothing(a, (e, c));
    }
    SilentEnginesGrantNothing(Engines(a), Engines(all), a, c);
    forall e | e in Engines(all) ensures Granted(a, (e, c)) <= Granted(all, (e, c)) {
      RequestedOfConcat(a, more, (e, c));
    }
    SumGrantedGrows(Engines(all), a, all, c);
  }

  /* ---------- Rounding ---------- */

  /** `round`: to the nearest integer, ties to the even one. */
  function Round(x: real): int {
    var f := x.Floor;
    var d := x - f as real;
    if d < 0.5 || (d == 0.5 && f % 2 == 0) then f else f + 1
  }

  lemma RoundIsMonotone(x: real, y: real)
    requires x <= y
    ensures Round(x) <= Round(y)
  {
    assert x.Floor <= y.Floor;
  }

  /* ---------- The static score ---------- */

  function SubScore(totals: Totals, c: RiskCategory): real
    requires AllCategories(totals)
  {
    Min(100, totals[c]) as real
  }

  function Weighted(totals: Totals): real
    requires AllCategories(totals)
  {
    SubScore(totals, CredentialTheft) * 0.34 + SubScore(totals, PaymentManipulation) * 0.30
    + SubScore(totals, FraudImpersonation) * 0.20 + SubScore(totals, EvasionResilience) * 0.16
  }

  function Clamp100(x: int): int {
    Min(100, Max(0, x))
  }

  function StaticScore(totals: Totals, delta: real): int
    requires AllCategories(totals)
  {
    Clamp100(Round(Weighted(totals) + if delta * 10.0 < 10.0 then delta * 10.0 else 10.0))
  }

  /* ---------- Runtime rules ---------- */

  datatype RuntimeRule = OtpRule | ExfilRule | AccessibilityRule | CodeLoadRule | NetworkRule | WebViewRule

  const RUNTIME_RULES := [OtpRule, ExfilRule, AccessibilityRule, CodeLoadRule, NetworkRule, WebViewRule]

  function RuleCategory(r: RuntimeRule): RiskCategory {
    match r
    case OtpRule => CredentialTheft
    case ExfilRule => CredentialTheft
    case AccessibilityRule => PaymentManipulation
    case CodeLoadRule => EvasionResilience
    case NetworkRule => FraudImpersonation
    case WebViewRule => PaymentManipulation
  }

  function RulePoints(r: RuntimeRule): nat {
    match r
    case OtpRule => 20
    case ExfilRule => 15
    case AccessibilityRule => 18
    case CodeLoadRule => 15
    case NetworkRule => 10
    case WebViewRule => 12
  }

  function RuntimeCap(c: RiskCategory): nat {
    match c
    case CredentialTheft => 25
    case PaymentManipulation => 25
    case EvasionResilience => 20
    case FraudImpersonation => 15
  }

  const GLOBAL_RUNTIME_CAP: nat := 35

  predicate IsAccess(e: Item) {
    e.kind == SMS_ACCESS || e.kind == MARKER_CORRELATION
  }

  predicate ConfidentNetwork(e: Item) {
    IsNetworkKind(e.kind) && e.confidence >= 0.7
  }

  predicate IsDelivery(e: Item) {
    e.kind == SMS_DELIVERED
  }

  predicate TrustedSms(e: Item) {
    (IsDelivery(e) || IsAccess(e)) && (e.trust in {Instrumented, PayloadCorrelated} || e.confidence >= 0.8)
  }

  predicate IsMarker(e: Item) {
    e.kind == MARKER_CORRELATION
  }

  predicate ScoredClaim(e: Item) {
    (IsMarker(e) || ConfidentNetwork(e)) && ClaimsPayload(e)
  }

  predicate IsAccessibility(e: Item) {
    e.kind == ACCESSIBILITY || e.kind == "accessibility_event"
  }

  predicate IsCodeLoad(e: Item) {
    e.kind == CODE_LOAD || e.kind == "classloader_event"
  }

  predicate IsWebView(e: Item) {
    e.kind == WEBVIEW
  }

  predicate Any(items: seq<Item>, p: Item -> bool) {
    exists i :: 0 <= i < |items| && p(items[i])
  }

  predicate Fires(r: RuntimeRule, items: seq<Item>) {
    match r
    case OtpRule =>
      && Any(items, IsDelivery) && Any(items, IsAccess)
      && Any(items, TrustedSms)
    case ExfilRule =>
      && Any(items, IsMarker) && Any(items, ConfidentNetwork)
      && Any(items, ScoredClaim)
    case AccessibilityRule => Any(items, IsAccessibility)
    case CodeLoadRule => Any(items, IsCodeLoad)
    case NetworkRule => Any(items, ConfidentNetwork)
    case WebViewRule => Any(items, IsWebView)
  }

  /** Points of the rules that fire in a category, before the cap. */
  function RawRuntime(rules: seq<RuntimeRule>, items: seq<Item>, c: RiskCategory): nat {
    if rules == [] then 0
    else
      var n := |rules| - 1;
      RawRuntime(rules[..n], items, c)
      + if Fires(rules[n], items) && RuleCategory(rules[n]) == c then RulePoints(rules[n]) else 0
  }

  /** The rules that fire, in the order of the table. */
  function Firing(rules: seq<RuntimeRule>, items: seq<Item>): seq<RuntimeRule> {
    if rules == [] then []
    else
      var n := |rules| - 1;
      Firing(rules[..n], items) + if Fires(rules[n], items) then [rules[n]] else []
  }

  function RuntimePoints(items: seq<Item>, c: RiskCategory): nat {
    CappedRuntime(RUNTIME_RULES, items, c)
  }

  function RuntimeAdjustment(items: seq<Item>): nat {
    Min(GLOBAL_RUNTIME_CAP,
        RuntimePoints(items, CredentialTheft) + RuntimePoints(items, PaymentManipulation)
        + RuntimePoints(items, FraudImpersonation) + RuntimePoints(items, EvasionResilience))
  }

  const NO_POINTS: Totals :=
    map[CredentialTheft := 0, PaymentManipulation := 0, FraudImpersonation := 0, EvasionResilience := 0]

  lemma RawRuntimeNext(rules: seq<RuntimeRule>, i: nat, items: seq<Item>, c: RiskCategory)
    requires i < |rules|
    ensures RawRuntime(rules[..i + 1], items, c) ==
              RawRuntime(rules[..i], items, c)
              + if Fires(rules[i], items) && RuleCategory(rules[i]) == c then RulePoints(rules[i]) else 0
    ensures Firing(rules[..i + 1], items) ==
              Firing(rules[..i], items) + if Fires(rules[i], items) then [rules[i]] else []
  {
    assert rules[..i + 1][..i] == rules[..i];
  }

  /** The runtime stage: greedy under a cap per category, which amounts to capping each category's sum. */
  method RuntimeStage(items: seq<Item>) returns (totals: Totals, fired: seq<RuntimeRule>)
    ensures AllCategories(totals)
    ensures forall c: RiskCategory :: totals[c] == RuntimePoints(items, c)
    ensures fired == Firing(RUNTIME_RULES, items)
    ensures forall r :: r in fired <==> Fires(r, items)
  {
    hide Fires, Firing, CappedRuntime, RuntimeCap, RulePoints, RuleCategory, Allowed;
    totals, fired := NO_POINTS, [];
    NoRulesYet(items);
    var i := 0;
    while i < |RUNTIME_RULES|
      invariant 0 <= i <= |RUNTIME_RULES|
      invariant AllCategories(totals)
      invariant forall c: RiskCategory :: totals[c] == CappedRuntime(RUNTIME_RULES[..i], items, c)
      invariant fired == Firing(RUNTIME_RULES[..i], items)
    {
      var r := RUNTIME_RULES[i];
      NextRule(RUNTIME_RULES, i, items, totals);
      if Fires(r, items) {
        totals := totals[RuleCategory(r) := totals[RuleCategory(r)] + Allowed(r, totals)];
        fired := fired + [r];
      }
      i := i + 1;
    }
    assert RUNTIME_RULES[..i] == RUNTIME_RULES;
    EveryRuleIsListed();
    FiringSpec(RUNTIME_RULES, items);
  }

  /** What the next rule of the table adds to each category. */
  lemma NextRule(rules: seq<RuntimeRule>, i: nat, items: seq<Item>, totals: Totals)
    requires i < |rules| && AllCategories(totals)
    requires forall c: RiskCategory :: totals[c] == CappedRuntime(rules[..i], items, c)
    ensures forall c: RiskCategory ::
              CappedRuntime(rules[..i + 1], items, c) ==
              totals[c] + if Fires(rules[i], items) && RuleCategory(rules[i]) == c then Allowed(rules[i], totals) else 0
    ensures Firing(rules[..i + 1], items) ==
              Firing(rules[..i], items) + if Fires(rules[i], items) then [rules[i]] else []
  {
    hide Fires, Firing, RawRuntime, RuntimeCap, RulePoints, RuleCategory;
    RawRuntimeNext(rules, i, items, RuleCategory(rules[i]));
    forall c: RiskCategory
      ensures CappedRuntime(rules[..i + 1], items, c) == totals[c] +
        if Fires(rules[i], items) && RuleCategory(rules[i]) == c then Allowed(rules[i], totals) else 0
    {
      RawRuntimeNext(rules, i, items, c);
      CapNext(rules[i], totals);
    }
  }

  lemma {:induction false} FiringSpec(rules: seq<RuntimeRule>, items: seq<Item>)
    ensures forall r :: r in Firing(rules, items) <==> r in rules && Fires(r, items)
  {
    hide Fires;
    if rules != [] {
      var n := |rules| - 1;
      FiringSpec(rules[..n], items);
      assert rules == rules[..n] + [rules[n]];
    }
  }

  function CappedRuntime(rules: seq<RuntimeRule>, items: seq<Item>, c: RiskCategory): nat {
    Min(RuntimeCap(c), RawRuntime(rules, items, c))
  }

  /** What the category's cap still allows of the rule's points. */
  function Allowed(r: RuntimeRule, totals: Totals): nat
    requires AllCategories(totals)
  {
    Min(RulePoints(r), Max(0, RuntimeCap(RuleCategory(r)) - totals[RuleCategory(r)]))
  }

  lemma CapNext(r: RuntimeRule, totals: Totals)
    requires AllCategories(totals)
    ensures forall raw: nat | totals[RuleCategory(r)] == Min(RuntimeCap(RuleCategory(r)), raw) ::
              Min(RuntimeCap(RuleCategory(r)), raw + RulePoints(r)) == totals[RuleCategory(r)] + Allowed(r, totals)
  {
  }

  lemma NoRulesYet(items: seq<Item>)
    ensures forall c: RiskCategory ::
              c in NO_POINTS && NO_POINTS[c] == 0 && CappedRuntime(RUNTIME_RULES[..0], items, c) == 0
    ensures Firing(RUNTIME_RULES[..0], items) == []
  {
    forall c: RiskCategory
      ensures c in NO_POINTS && NO_POINTS[c] == 0 && CappedRuntime(RUNTIME_RULES[..0], items, c) == 0
    {
      match c
      case CredentialTheft =>
      case PaymentManipulation =>
      case FraudImpersonation =>
      case EvasionResilience =>
    }
  }

  lemma EveryRuleIsListed()
    ensures forall r: RuntimeRule :: r in RUNTIME_RULES
  {
    forall r: RuntimeRule ensures r in RUNTIME_RULES {
      var k := match r
        case OtpRule => 0 case ExfilRule => 1 case AccessibilityRule => 2
        case CodeLoadRule => 3 case NetworkRule => 4 case WebViewRule => 5;
      assert RUNTIME_RULES[k] == r;
    }
  }

  /* ---------- The overall score ---------- */

  ghost function WithEngines(base: Totals, findings: seq<EngineFinding>): (t: Totals)
    requires AllCategories(base)
    ensures AllCategories(t)
  {
    map c: RiskCategory | true :: base[c] + EnginePoints(findings, c)
  }

  ghost function OverallScore(base: Totals, findings: seq<EngineFinding>, delta: real, items: seq<Item>): int
    requires AllCategories(base)
  {
    Clamp100(StaticScore(WithEngines(base, findings), delta) + RuntimeAdjustment(items))
  }

  /** The overall score is the same for every order of the engine findings. */
  lemma OverallIgnoresOrder(base: Totals, a: seq<EngineFinding>, b: seq<EngineFinding>, delta: real, items: seq<Item>)
    requires AllCategories(base) && multiset(a) == multiset(b)
    ensures OverallScore(base, a, delta, items) == OverallScore(base, b, delta, items)
  {
    hide EnginePoints, StaticScore, RuntimeAdjustment;
    forall c ensures EnginePoints(a, c) == EnginePoints(b, c) {
      EnginePointsIgnoreOrder(a, b, c);
    }
    assert WithEngines(base, a) == WithEngines(base, b);
  }

  predicate AtMost(a: Totals, b: Totals) {
    AllCategories(a) && AllCategories(b) && forall c: RiskCategory :: a[c] <= b[c]
  }

  lemma StaticScoreGrows(a: Totals, b: Totals, delta: real, delta': real)
    requires AtMost(a, b) && delta <= delta'
    ensures StaticScore(a, delta) <= StaticScore(b, delta')
  {
    assert Weighted(a) <= Weighted(b) by {
      assert forall c: RiskCategory :: SubScore(a, c) <= SubScore(b, c);
    }
    var x := Weighted(a) + if delta * 10.0 < 10.0 then delta * 10.0 else 10.0;
    var y := Weighted(b) + if delta' * 10.0 < 10.0 then delta' * 10.0 else 10.0;
    RoundIsMonotone(x, y);
  }

  ghost predicate Includes(items': seq<Item>, items: seq<Item>) {
    forall e | e in items :: e in items'
  }

  lemma AnyGrows(items: seq<Item>, items': seq<Item>, p: Item -> bool)
    requires Includes(items', items) && Any(items, p)
    ensures Any(items', p)
  {
    var i :| 0 <= i < |items| && p(items[i]);
    assert items[i] in items';
    var j :| 0 <= j < |items'| && items'[j] == items[i];
  }

  /** A rule that fires keeps firing under more evidence. */
  lemma RulesKeepFiring(r: RuntimeRule, items: seq<Item>, items': seq<Item>)
    requires Includes(items', items) && Fires(r, items)
    ensures Fires(r, items')
  {
    match r
    case OtpRule =>
      AnyGrows(items, items', IsDelivery);
      AnyGrows(items, items', IsAccess);
      AnyGrows(items, items', TrustedSms);
    case ExfilRule =>
      AnyGrows(items, items', IsMarker);
      AnyGrows(items, items', ConfidentNetwork);
      AnyGrows(items, items', ScoredClaim);
    case AccessibilityRule => AnyGrows(items, items', IsAccessibility);
    case CodeLoadRule => AnyGrows(items, items', IsCodeLoad);
    case NetworkRule => AnyGrows(items, items', ConfidentNetwork);
    case WebViewRule => AnyGrows(items, items', IsWebView);
  }

  lemma {:induction false} RawRuntimeGrows(rules: seq<RuntimeRule>, items: seq<Item>, items': seq<Item>,
                                           c: RiskCategory)
    requires Includes(items', items)
    ensures RawRuntime(rules, items, c) <= RawRuntime(rules, items', c)
  {
    hide Fires;
    if rules != [] {
      var n := |rules| - 1;
      RawRuntimeGrows(rules[..n], items, items', c);
      if Fires(rules[n], items) {
        RulesKeepFiring(rules[n], items, items');
      }
    }
  }

  lemma RuntimeAdjustmentGrows(items: seq<Item>, items': seq<Item>)
    requires Includes(items', items)
    ensures RuntimeAdjustment(items) <= RuntimeAdjustment(items') <= GLOBAL_RUNTIME_CAP
  {
    hide RawRuntime;
    forall c ensures RawRuntime(RUNTIME_RULES, items, c) <= RawRuntime(RUNTIME_RULES, items', c) {
      RawRuntimeGrows(RUNTIME_RULES, items, items', c);
    }
  }

  lemma {:induction false} FiringGrows(rules: seq<RuntimeRule>, items: seq<Item>, items': seq<Item>)
    requires Includes(items', items)
    ensures |Firing(rules, items)| <= |Firing(rules, items')|
  {
    hide Fires;
    if rules != [] {
      var n := |rules| - 1;
      FiringGrows(rules[..n], items, items');
      if Fires(rules[n], items) {
        RulesKeepFiring(rules[n], items, items');
      }
    }
  }

  /**
   The overall score lies in 0..100 and never falls when static points, engine
   findings, the fraud delta or runtime evidence grow.
   */
  lemma OverallNeverFalls(base: Totals, base': Totals, findings: seq<EngineFinding>, more: seq<EngineFinding>,
                          delta: real, delta': real, items: seq<Item>, items': seq<Item>)
    requires AtMost(base, base') && delta <= delta' && Includes(items', items)
    ensures 0 <= OverallScore(base, findings, delta, items)
              <= OverallScore(base', findings + more, delta', items') <= 100
  {
    hide EnginePoints, StaticScore, RuntimeAdjustment;
    forall c ensures EnginePoints(findings, c) <= EnginePoints(findings + more, c) {
      MoreFindingsMorePoints(findings, more, c);
    }
    StaticScoreGrows(WithEngines(base, findings), WithEngines(base', findings + more), delta, delta');
    RuntimeAdjustmentGrows(items, items');
  }

  /* ---------- Scoring and verification agree ---------- */

  lemma AnyHas(items: seq<Item>, e: Item, p: Item -> bool)
    requires e in items && p(e)
    ensures Any(items, p)
  {
    var i :| 0 <= i < |items| && items[i] == e;
  }

  /** A confirmed OTP hypothesis always fires the runtime OTP rule. */
  lemma ConfirmedOtpFires(f: Findings, mentionsDumpsys: Item -> bool)
    requires Confirming(OtpInterception, f, mentionsDumpsys)
    ensures Fires(OtpRule, f.runtime)
  {
    var d :| d in f.runtime && TrustedDelivery(d);
    var a :| a in f.runtime && TrustedAccess(a);
    AnyHas(f.runtime, d, IsDelivery);
    AnyHas(f.runtime, a, IsAccess);
    AnyHas(f.runtime, a, TrustedSms);
  }
}
