/**
 `FraudDNASimilarityCalculator`: component-wise similarity of two fingerprints
 and the weighted overall score, over exact rationals. Package and icon
 similarity come from foreign code and are parameters.
 */
module Similarity {
  import opened Common

  datatype Fingerprint = Fingerprint(
    sha: string, packageName: string, appLabel: string,
    signers: seq<string>, dex: seq<string>, behaviors: seq<string>,
    domains: seq<string>, urls: seq<string>, ips: seq<string>,
    firebase: seq<string>, payloads: seq<string>, icon: Option<string>)

  /** The soft signals: `package` compares names, `icon` perceptual hashes. */
  datatype SoftSignals = SoftSignals(
    normalize: string -> string,
    package: (string, string) -> real,
    icon: (Option<string>, Option<string>) -> Option<real>)

  datatype Reason =
    | IdenticalSample
    | SameSigner
    | PackageSimilar(percent: int)
    | DexSimilar(percent: int)
    | BehaviorOverlap(percent: int)
    | IconSimilar(percent: int)
    | SharedInfrastructure
    | SameFirebase
    | SamePayload

  datatype Comparison = Comparison(
    signerMatch: bool, packageSimilarity: real, dexSimilarity: Option<real>, behaviorSimilarity: real,
    iconSimilarity: Option<real>, infrastructureOverlap: real, firebaseOverlap: bool, payloadOverlap: bool,
    overall: real, reasons: seq<Reason>)

  function Percent(x: real): int {
    (x * 100.0).Floor
  }

  /** Intersection over union; two empty sets are not similar. */
  function Jaccard(a: set<string>, b: set<string>): real {
    if a + b == {} then 0.0 else |a * b| as real / |a + b| as real
  }

  lemma JaccardBounds(a: set<string>, b: set<string>)
    ensures 0.0 <= Jaccard(a, b) <= 1.0
    ensures Jaccard(a, b) == Jaccard(b, a)
    ensures Jaccard(a, b) == 1.0 <==> a == b && a != {}
    ensures Jaccard(a, b) == 0.0 <==> a !! b
  {
    assert a * b == b * a && a + b == b + a;
    if a + b != {} {
      var n, m := |a * b|, |a + b|;
      assert a * b <= a + b;
      SubsetSize(a * b, a + b);
      assert m > 0;
      DivisionFacts(n, m);
      if a == b {
        assert a * b == a + b;
      } else if n == m {
        SameSizeSubset(a * b, a + b);
      }
    }
  }

  lemma DivisionFacts(n: nat, m: nat)
    requires 0 < m && n <= m
    ensures 0.0 <= n as real / m as real <= 1.0
    ensures n as real / m as real == 1.0 <==> n == m
    ensures n as real / m as real == 0.0 <==> n == 0
  {
    var q := n as real / m as real;
    assert q * m as real == n as real;
  }

  lemma {:induction false} SubsetSize(a: set<string>, b: set<string>)
    requires a <= b
    ensures |a| <= |b|
  {
    assert b == a + (b - a);
  }

  lemma SameSizeSubset(a: set<string>, b: set<string>)
    requires a <= b && |a| == |b|
    ensures a == b
  {
    assert b == a + (b - a);
  }

  function Infrastructure(f: Fingerprint): set<string> {
    ToSet(f.domains + f.urls + f.ips)
  }

  predicate Overlap(a: seq<string>, b: seq<string>) {
    ToSet(a) * ToSet(b) != {}
  }

  function DexSimilarity(a: Fingerprint, b: Fingerprint): Option<real> {
    if a.dex == [] && b.dex == [] then None else Some(Jaccard(ToSet(a.dex), ToSet(b.dex)))
  }

  /** The documented hard anchors: what two samples must share to be linked. */
  predicate HardLinked(a: Fingerprint, b: Fingerprint) {
    || Overlap(a.firebase, b.firebase)
    || Overlap(a.signers, b.signers)
    || Overlap(a.payloads, b.payloads)
    || (DexSimilarity(a, b).Some? && DexSimilarity(a, b).value >= 0.85)
  }

  /** The weighted score of two different samples. */
  function Score(a: Fingerprint, b: Fingerprint): real {
    (if Overlap(a.signers, b.signers) then 0.25 else 0.0)
    + (if Overlap(a.firebase, b.firebase) then 0.25 else 0.0)
    + (if Overlap(a.payloads, b.payloads) then 0.20 else 0.0)
    + 0.15 * Jaccard(ToSet(a.dex), ToSet(b.dex))
    + 0.10 * Jaccard(ToSet(a.behaviors), ToSet(b.behaviors))
    + 0.05 * Jaccard(Infrastructure(a), Infrastructure(b))
  }

  function ReasonIf(condition: bool, reason: Reason): seq<Reason> {
    if condition then [reason] else []
  }

  function PackageReason(soft: SoftSignals, a: Fingerprint, b: Fingerprint): seq<Reason> {
    var p, q := soft.normalize(a.packageName), soft.normalize(b.packageName);
    ReasonIf(soft.package(p, q) >= 0.90 && p != q, PackageSimilar(Percent(soft.package(p, q))))
  }

  function IconReason(soft: SoftSignals, a: Fingerprint, b: Fingerprint): seq<Reason> {
    var s := soft.icon(a.icon, b.icon);
    if s.Some? then ReasonIf(s.value >= 0.85, IconSimilar(Percent(s.value))) else []
  }

  function Reasons(soft: SoftSignals, a: Fingerprint, b: Fingerprint): seq<Reason> {
    var dex, behavior := Jaccard(ToSet(a.dex), ToSet(b.dex)), Jaccard(ToSet(a.behaviors), ToSet(b.behaviors));
    ReasonIf(Overlap(a.signers, b.signers), SameSigner)
    + PackageReason(soft, a, b)
    + ReasonIf(DexSimilarity(a, b).Some? && dex >= 0.80, DexSimilar(Percent(dex)))
    + ReasonIf(behavior >= 0.60, BehaviorOverlap(Percent(behavior)))
    + IconReason(soft, a, b)
    + ReasonIf(Jaccard(Infrastructure(a), Infrastructure(b)) >= 0.30, SharedInfrastructure)
    + ReasonIf(Overlap(a.firebase, b.firebase), SameFirebase)
    + ReasonIf(Overlap(a.payloads, b.payloads), SamePayload)
  }

  function Compared(soft: SoftSignals, a: Fingerprint, b: Fingerprint): Comparison {
    if a.sha == b.sha then
      Comparison(a.signers != [], 1.0, Some(1.0), 1.0,
                 if a.icon.Some? && a.icon.value != "" then Some(1.0) else None,
                 if a.domains != [] || a.urls != [] || a.ips != [] then 1.0 else 0.0,
                 a.firebase != [], a.payloads != [], 1.0, [IdenticalSample])
    else
      Comparison(Overlap(a.signers, b.signers),
                 soft.package(soft.normalize(a.packageName), soft.normalize(b.packageName)),
                 DexSimilarity(a, b), Jaccard(ToSet(a.behaviors), ToSet(b.behaviors)),
                 soft.icon(a.icon, b.icon), Jaccard(Infrastructure(a), Infrastructure(b)),
                 Overlap(a.firebase, b.firebase), Overlap(a.payloads, b.payloads),
                 Score(a, b), Reasons(soft, a, b))
  }

  lemma ScoreBounds(a: Fingerprint, b: Fingerprint)
    ensures 0.0 <= Score(a, b) <= 1.0
    ensures Score(a, b) == Score(b, a)
    ensures HardLinked(a, b) == HardLinked(b, a)
  {
    JaccardBounds(ToSet(a.dex), ToSet(b.dex));
    JaccardBounds(ToSet(a.behaviors), ToSet(b.behaviors));
    JaccardBounds(Infrastructure(a), Infrastructure(b));
    assert ToSet(a.signers) * ToSet(b.signers) == ToSet(b.signers) * ToSet(a.signers);
    assert ToSet(a.firebase) * ToSet(b.firebase) == ToSet(b.firebase) * ToSet(a.firebase);
    assert ToSet(a.payloads) * ToSet(b.payloads) == ToSet(b.payloads) * ToSet(a.payloads);
  }

  /**
   Without a shared signer, Firebase project or payload the score is at most
   0.30, so the seed threshold of 0.45 implies a hard anchor.
   */
  lemma SeedImpliesHardLink(a: Fingerprint, b: Fingerprint)
    ensures Score(a, b) > 0.30 ==>
              Overlap(a.signers, b.signers) || Overlap(a.firebase, b.firebase) || Overlap(a.payloads, b.payloads)
    ensures Score(a, b) >= 0.45 ==> HardLinked(a, b)
  {
    JaccardBounds(ToSet(a.dex), ToSet(b.dex));
    JaccardBounds(ToSet(a.behaviors), ToSet(b.behaviors));
    JaccardBounds(Infrastructure(a), Infrastructure(b));
  }

  /** What the two samples share besides the strong anchors, as it weighs in the score. */
  function SoftShare(a: Fingerprint, b: Fingerprint): (share: real)
    ensures 0.0 <= share <= 0.30
    ensures (&& ToSet(a.dex) !! ToSet(b.dex)
             && ToSet(a.behaviors) !! ToSet(b.behaviors)
             && Infrastructure(a) !! Infrastructure(b)) ==> share == 0.0
  {
    JaccardBounds(ToSet(a.dex), ToSet(b.dex));
    JaccardBounds(ToSet(a.behaviors), ToSet(b.behaviors));
    JaccardBounds(Infrastructure(a), Infrastructure(b));
    0.15 * Jaccard(ToSet(a.dex), ToSet(b.dex))
    + 0.10 * Jaccard(ToSet(a.behaviors), ToSet(b.behaviors))
    + 0.05 * Jaccard(Infrastructure(a), Infrastructure(b))
  }

  /**
   Exactly what reaches the seed threshold.  Two strong anchors always do and
   none never does.  One alone does when the rest that is shared makes up the
   difference: 0.20 beside a signer or a Firebase project, 0.25 beside a payload.
   */
  lemma AnchorsNeededToSeed(a: Fingerprint, b: Fingerprint)
    ensures var s := Overlap(a.signers, b.signers);
            var f := Overlap(a.firebase, b.firebase);
            var p := Overlap(a.payloads, b.payloads);
            Score(a, b) >= 0.45 <==>
              || (s && f) || (s && p) || (f && p)
              || ((s || f) && SoftShare(a, b) >= 0.20)
              || (p && SoftShare(a, b) >= 0.25)
    ensures SoftShare(a, b) == 0.0 && Score(a, b) >= 0.45 ==>
              || (Overlap(a.signers, b.signers) && Overlap(a.firebase, b.firebase))
              || (Overlap(a.signers, b.signers) && Overlap(a.payloads, b.payloads))
              || (Overlap(a.firebase, b.firebase) && Overlap(a.payloads, b.payloads))
  {
    var dex, behaviors := Jaccard(ToSet(a.dex), ToSet(b.dex)), Jaccard(ToSet(a.behaviors), ToSet(b.behaviors));
    var infrastructure := Jaccard(Infrastructure(a), Infrastructure(b));
    assert SoftShare(a, b) == 0.15 * dex + 0.10 * behaviors + 0.05 * infrastructure;
  }

  /** A hard link always leaves a reason, so it is never lost to the relatedness filter. */
  lemma HardLinkHasReason(soft: SoftSignals, a: Fingerprint, b: Fingerprint)
    requires a.sha != b.sha && HardLinked(a, b)
    ensures Compared(soft, a, b).reasons != []
  {
    var dex := Jaccard(ToSet(a.dex), ToSet(b.dex));
    var reasons := Reasons(soft, a, b);
    if Overlap(a.signers, b.signers) {
      assert SameSigner in reasons;
    } else if Overlap(a.firebase, b.firebase) {
      assert SameFirebase in reasons;
    } else if Overlap(a.payloads, b.payloads) {
      assert SamePayload in reasons;
    } else {
      assert DexSimilar(Percent(dex)) in reasons;
    }
  }

  class FraudDNASimilarityCalculator {
    const soft: SoftSignals

    constructor (soft: SoftSignals)
      ensures this.soft == soft
    {
      this.soft := soft;
    }

    /** The match reasons, appended in the order `compare` computes its components. */
    method Explain(a: Fingerprint, b: Fingerprint) returns (reasons: seq<Reason>)
      ensures reasons == Reasons(soft, a, b)
    {
      reasons := ReasonIf(Overlap(a.signers, b.signers), SameSigner);
      reasons := reasons + PackageReason(soft, a, b);
      var dex, behavior := Jaccard(ToSet(a.dex), ToSet(b.dex)), Jaccard(ToSet(a.behaviors), ToSet(b.behaviors));
      reasons := reasons + ReasonIf(DexSimilarity(a, b).Some? && dex >= 0.80, DexSimilar(Percent(dex)));
      reasons := reasons + ReasonIf(behavior >= 0.60, BehaviorOverlap(Percent(behavior)));
      reasons := reasons + IconReason(soft, a, b);
      reasons := reasons + ReasonIf(Jaccard(Infrastructure(a), Infrastructure(b)) >= 0.30, SharedInfrastructure);
      reasons := reasons + ReasonIf(Overlap(a.firebase, b.firebase), SameFirebase);
      reasons := reasons + ReasonIf(Overlap(a.payloads, b.payloads), SamePayload);
    }

    method Compare(a: Fingerprint, b: Fingerprint) returns (r: Comparison)
      ensures r == Compared(soft, a, b)
    {
      if a.sha == b.sha {
        return Compared(soft, a, b);
      }
      var reasons := Explain(a, b);
      var overall := Accumulate(a, b);
      r := Comparison(Overlap(a.signers, b.signers),
                      soft.package(soft.normalize(a.packageName), soft.normalize(b.packageName)),
                      DexSimilarity(a, b), Jaccard(ToSet(a.behaviors), ToSet(b.behaviors)),
                      soft.icon(a.icon, b.icon), Jaccard(Infrastructure(a), Infrastructure(b)),
                      Overlap(a.firebase, b.firebase), Overlap(a.payloads, b.payloads), overall, reasons);
    }
  }

  /** The score accumulation at the end of `compare`: the clamp to [0, 1] never bites. */
  method Accumulate(a: Fingerprint, b: Fingerprint) returns (overall: real)
    ensures overall == Score(a, b) && 0.0 <= overall <= 1.0
  {
    ScoreBounds(a, b);
    var dex, behavior := DexSimilarity(a, b), Jaccard(ToSet(a.behaviors), ToSet(b.behaviors));
    var infra := Jaccard(Infrastructure(a), Infrastructure(b));
    var score := 0.0;
    if Overlap(a.signers, b.signers) { score := score + 0.25; }
    if Overlap(a.firebase, b.firebase) { score := score + 0.25; }
    if Overlap(a.payloads, b.payloads) { score := score + 0.20; }
    if dex.Some? { score := score + 0.15 * dex.value; }
    if behavior != 0.0 { score := score + 0.10 * behavior; }
    if infra != 0.0 { score := score + 0.05 * infra; }
    assert dex.None? ==> Jaccard(ToSet(a.dex), ToSet(b.dex)) == 0.0;
    overall := if score < 0.0 then 0.0 else if score > 1.0 then 1.0 else score;
  }
}
