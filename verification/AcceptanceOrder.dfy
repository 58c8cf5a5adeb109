/**
 How many engine findings are accepted. The points do not depend on the order
 of the findings, but this count may, and the confidence is computed from it.
 This module gives the exact condition, per engine and category.
 */
module AcceptanceOrder {
  import opened Common
  import opened Scoring

  /* ---------- One engine and category at a time ---------- */

  /** The asking findings of an engine and category, in order. */
  function Cut(findings: seq<EngineFinding>, key: Key): seq<EngineFinding> {
    if findings == [] then []
    else
      var n := |findings| - 1;
      var before := Cut(findings[..n], key);
      if Asks(findings[n]) && KeyOf(findings[n]) == key then before + [findings[n]] else before
  }

  function Without(findings: seq<EngineFinding>, key: Key): seq<EngineFinding> {
    if findings == [] then []
    else
      var n := |findings| - 1;
      var before := Without(findings[..n], key);
      if Asks(findings[n]) && KeyOf(findings[n]) == key then before else before + [findings[n]]
  }

  predicate OneKey(p: seq<EngineFinding>, key: Key) {
    forall i | 0 <= i < |p| :: Asks(p[i]) && KeyOf(p[i]) == key
  }

  function Total(p: seq<EngineFinding>): nat {
    if p == [] then 0 else var n := |p| - 1; Total(p[..n]) + Requested(p[n])
  }

  /** The functions over findings, one finding further. */
  lemma Append(a: seq<EngineFinding>, x: EngineFinding, key: Key)
    ensures Total(a + [x]) == Total(a) + Requested(x)
    ensures RequestedIn(a + [x], key) == RequestedIn(a, key) + RequestedBy(x, key)
    ensures Accepted(a + [x]) == Accepted(a) + if Asks(x) && Granted(a, KeyOf(x)) < ENGINE_CAP then 1 else 0
    ensures Asking(a + [x]) == Asking(a) + if Asks(x) then 1 else 0
    ensures Cut(a + [x], key) == if Asks(x) && KeyOf(x) == key then Cut(a, key) + [x] else Cut(a, key)
    ensures Without(a + [x], key) == if Asks(x) && KeyOf(x) == key then Without(a, key) else Without(a, key) + [x]
  {
    assert (a + [x])[..|a|] == a && (a + [x])[|a|] == x;
  }

  lemma {:induction false} CutIsOneKey(findings: seq<EngineFinding>, key: Key)
    ensures OneKey(Cut(findings, key), key)
    ensures Total(Cut(findings, key)) == RequestedIn(findings, key)
    ensures |Cut(findings, key)| + |Without(findings, key)| == |findings|
  {
    if findings != [] {
      var n := |findings| - 1;
      CutIsOneKey(findings[..n], key);
      Append(Cut(findings[..n], key), findings[n], key);
    }
  }

  /** Findings of another key, or not asking, leave the points requested for a key alone. */
  lemma {:induction false} WithoutKeepsOthers(findings: seq<EngineFinding>, key: Key, other: Key)
    ensures RequestedIn(Without(findings, key), other) == if other == key then 0 else RequestedIn(findings, other)
    ensures Cut(Without(findings, key), other) == if other == key then [] else Cut(findings, other)
  {
    if findings != [] {
      var n := |findings| - 1;
      WithoutKeepsOthers(findings[..n], key, other);
      Append(Without(findings[..n], key), findings[n], other);
    }
  }

  lemma {:induction false} OneKeyRequests(p: seq<EngineFinding>, key: Key)
    requires OneKey(p, key)
    ensures RequestedIn(p, key) == Total(p)
  {
    if p != [] {
      OneKeyRequests(p[..|p| - 1], key);
    }
  }

  /** The count splits into what one key contributes and the rest: keys do not compete. */
  lemma {:induction false} AcceptedSplits(findings: seq<EngineFinding>, key: Key)
    ensures Accepted(findings) == Accepted(Cut(findings, key)) + Accepted(Without(findings, key))
  {
    if findings != [] {
      var n := |findings| - 1;
      var x, cut, rest := findings[n], Cut(findings[..n], key), Without(findings[..n], key);
      AcceptedSplits(findings[..n], key);
      Append(cut, x, key);
      Append(rest, x, key);
      if Asks(x) {
        CutIsOneKey(findings[..n], key);
        OneKeyRequests(cut, key);
        WithoutKeepsOthers(findings[..n], key, KeyOf(x));
      }
    }
  }

  lemma {:induction false} SplitKeepsAll(findings: seq<EngineFinding>, key: Key)
    ensures multiset(findings) == multiset(Cut(findings, key)) + multiset(Without(findings, key))
    ensures forall x :: x in Cut(findings, key) ==> Asks(x) && KeyOf(x) == key
    ensures forall x :: x in Without(findings, key) ==> !(Asks(x) && KeyOf(x) == key)
  {
    if findings != [] {
      var n := |findings| - 1;
      SplitKeepsAll(findings[..n], key);
      assert findings == findings[..n] + [findings[n]];
    }
  }

  /** Permuted lists have permuted parts. */
  lemma SplitIgnoresOrder(a: seq<EngineFinding>, b: seq<EngineFinding>, key: Key)
    requires multiset(a) == multiset(b)
    ensures multiset(Cut(a, key)) == multiset(Cut(b, key))
    ensures multiset(Without(a, key)) == multiset(Without(b, key))
  {
    SplitKeepsAll(a, key);
    SplitKeepsAll(b, key);
    var ca, wa, cb, wb :=
      multiset(Cut(a, key)), multiset(Without(a, key)), multiset(Cut(b, key)), multiset(Without(b, key));
    assert ca + wa == cb + wb;
    forall x ensures ca[x] == cb[x] && wa[x] == wb[x] {
      assert x in ca ==> x in Cut(a, key);
      assert x in cb ==> x in Cut(b, key);
      assert x in wa ==> x in Without(a, key);
      assert x in wb ==> x in Without(b, key);
      assert (ca + wa)[x] == (cb + wb)[x];
    }
  }

  /* ---------- The count of one key ---------- */

  /** The finding that reaches the cap is the last one accepted. */
  ghost predicate AcceptsFirst(p: seq<EngineFinding>, k: nat) {
    (k == |p| && Total(p) < ENGINE_CAP)
    || (1 <= k <= |p| && Total(p[..k]) >= ENGINE_CAP && Total(p[..k - 1]) < ENGINE_CAP)
  }

  lemma {:induction false} TotalOfPrefix(p: seq<EngineFinding>, i: nat, j: nat)
    requires i <= j <= |p|
    ensures Total(p[..i]) <= Total(p[..j])
    decreases j
  {
    if i < j {
      assert p[..j][..j - 1] == p[..j - 1];
      TotalOfPrefix(p, i, j - 1);
    }
  }

  /** One more finding of the same key is accepted exactly while the cap is not reached. */
  lemma OneMoreOfKey(p: seq<EngineFinding>, x: EngineFinding, key: Key)
    requires OneKey(p, key) && Asks(x) && KeyOf(x) == key
    ensures Accepted(p + [x]) == Accepted(p) + if Total(p) < ENGINE_CAP then 1 else 0
    ensures Total(p + [x]) == Total(p) + Requested(x)
  {
    OneKeyRequests(p, key);
    Append(p, x, key);
  }

  lemma CapStep(p: seq<EngineFinding>, x: EngineFinding, k: nat)
    requires AcceptsFirst(p, k) && Total(p + [x]) == Total(p) + Requested(x)
    ensures AcceptsFirst(p + [x], k + if Total(p) < ENGINE_CAP then 1 else 0)
  {
    hide Total;
    var all := p + [x];
    assert all[..|all|] == all && all[..|p|] == p && p[..|p|] == p;
    if 1 <= k <= |p| && Total(p[..k]) >= ENGINE_CAP {
      TotalOfPrefix(p, k, |p|);
      assert all[..k] == p[..k] && all[..k - 1] == p[..k - 1];
    }
  }

  lemma {:induction false} AcceptedOfOneKey(p: seq<EngineFinding>, key: Key)
    requires OneKey(p, key)
    ensures AcceptsFirst(p, Accepted(p))
  {
    assert AcceptsFirst([], 0) && Accepted([]) == 0;
    hide Total, Accepted, AcceptsFirst;
    if p != [] {
      var n := |p| - 1;
      assert p == p[..n] + [p[n]];
      AcceptedOfOneKey(p[..n], key);
      OneMoreOfKey(p[..n], p[n], key);
      CapStep(p[..n], p[n], Accepted(p[..n]));
    }
  }

  lemma AcceptsFirstIsUnique(p: seq<EngineFinding>, j: nat, k: nat)
    requires AcceptsFirst(p, j) && AcceptsFirst(p, k)
    ensures j == k
  {
    if j < k {
      NotReachedBefore(p, j, k);
    } else if k < j {
      NotReachedBefore(p, k, j);
    }
  }

  lemma NotReachedBefore(p: seq<EngineFinding>, j: nat, k: nat)
    requires AcceptsFirst(p, j) && j < k <= |p|
    ensures !AcceptsFirst(p, k)
  {
    hide Total;
    assert p[..|p|] == p;
    TotalOfPrefix(p, j, k - 1);
    TotalOfPrefix(p, j, |p|);
  }

  /* ---------- Smallest and largest ---------- */

  predicate Ordered(p: seq<EngineFinding>) {
    forall i, j | 0 <= i < j < |p| :: Requested(p[i]) <= Requested(p[j])
  }

  function Insert(x: EngineFinding, p: seq<EngineFinding>): seq<EngineFinding> {
    if p == [] || Requested(x) <= Requested(p[0]) then [x] + p else [p[0]] + Insert(x, p[1..])
  }

  /** The findings by increasing request. */
  function Ascending(p: seq<EngineFinding>): seq<EngineFinding> {
    if p == [] then [] else Insert(p[0], Ascending(p[1..]))
  }

  lemma {:induction false} InsertAdds(x: EngineFinding, p: seq<EngineFinding>)
    ensures multiset(Insert(x, p)) == multiset(p) + multiset{x}
  {
    hide Requested;
    if !(p == [] || Requested(x) <= Requested(p[0])) {
      InsertAdds(x, p[1..]);
      assert p == [p[0]] + p[1..];
    }
  }

  lemma {:induction false} InsertKeepsOrder(x: EngineFinding, p: seq<EngineFinding>)
    requires Ordered(p)
    ensures Ordered(Insert(x, p))
  {
    hide Requested;
    if !(p == [] || Requested(x) <= Requested(p[0])) {
      var rest := Insert(x, p[1..]);
      InsertKeepsOrder(x, p[1..]);
      InsertAdds(x, p[1..]);
      forall y | y in rest ensures Requested(p[0]) <= Requested(y) {
        assert y in multiset(rest);
        assert y in p[1..] || y == x;
      }
    }
  }

  lemma {:induction false} AscendingSpec(p: seq<EngineFinding>)
    ensures multiset(Ascending(p)) == multiset(p) && Ordered(Ascending(p)) && |Ascending(p)| == |p|
  {
    if p != [] {
      AscendingSpec(p[1..]);
      InsertAdds(p[0], Ascending(p[1..]));
      InsertKeepsOrder(p[0], Ascending(p[1..]));
      assert p == [p[0]] + p[1..];
    }
    assert |multiset(Ascending(p))| == |multiset(p)|;
  }

  lemma RemoveAt(p: seq<EngineFinding>, i: nat)
    requires i < |p|
    ensures multiset(p[..i] + p[i + 1..]) == multiset(p) - multiset{p[i]}
  {
    assert p == p[..i] + [p[i]] + p[i + 1..];
  }

  lemma {:induction false} TotalOfConcat(a: seq<EngineFinding>, b: seq<EngineFinding>)
    ensures Total(a + b) == Total(a) + Total(b)
  {
    if b == [] {
      assert a + b == a;
    } else {
      assert (a + b)[..|a + b| - 1] == a + b[..|b| - 1];
      TotalOfConcat(a, b[..|b| - 1]);
    }
  }

  lemma TotalWithout(p: seq<EngineFinding>, i: nat)
    requires i < |p|
    ensures Total(p) == Total(p[..i] + p[i + 1..]) + Requested(p[i])
  {
    hide Total;
    var before, one, after := p[..i], [p[i]], p[i + 1..];
    assert p == before + (one + after);
    TotalOfConcat(before, one + after);
    TotalOfConcat(one, after);
    TotalOfConcat(before, after);
    TotalOfOne(p[i]);
  }

  lemma TotalOfOne(x: EngineFinding)
    ensures Total([x]) == Requested(x)
  {
    assert [x][..0] == [];
  }

  /** A selection without some element is a selection of the rest. */
  lemma SelectionOfRest(s: seq<EngineFinding>, x: seq<EngineFinding>, i: nat)
    requires multiset(x) <= multiset(s) && i < |s| && s[i] !in x
    ensures multiset(x) <= multiset(s[..i] + s[i + 1..])
  {
    RemoveAt(s, i);
    assert s[i] !in multiset(x);
  }

  /** Taking the same element from both. */
  lemma SelectionWithoutOne(s: seq<EngineFinding>, x: seq<EngineFinding>, i: nat, j: nat)
    requires multiset(x) <= multiset(s) && i < |s| && j < |x| && x[j] == s[i]
    ensures multiset(x[..j] + x[j + 1..]) <= multiset(s[..i] + s[i + 1..])
    ensures Total(x) == Total(x[..j] + x[j + 1..]) + Requested(s[i])
  {
    RemoveAt(s, i);
    RemoveAt(x, j);
    TotalWithout(x, j);
  }

  lemma OrderedEnds(s: seq<EngineFinding>)
    requires Ordered(s) && s != []
    ensures Ordered(s[1..]) && Ordered(s[..|s| - 1])
    ensures forall j | 0 <= j < |s| :: Requested(s[0]) <= Requested(s[j]) <= Requested(s[|s| - 1])
  {
  }

  /** No selection of findings asks for less than the smallest ones. */
  lemma {:induction false} SmallestAskLeast(s: seq<EngineFinding>, x: seq<EngineFinding>)
    requires Ordered(s) && multiset(x) <= multiset(s)
    ensures |x| <= |s| && Total(s[..|x|]) <= Total(x)
    decreases |s|
  {
    hide Total, Requested, Ordered;
    SelectionSize(s, x);
    if x == [] {
      assert s[..0] == x;
    } else {
      OrderedEnds(s);
      var n, k := |s| - 1, |x| - 1;
      assert s[..n] + s[n + 1..] == s[..n];
      if s[n] in x {
        var i :| 0 <= i < |x| && x[i] == s[n];
        SelectionWithoutOne(s, x, n, i);
        SmallestAskLeast(s[..n], x[..i] + x[i + 1..]);
        assert s[..n][..k] == s[..k] && s[..k] + [s[k]] == s[..|x|];
        TotalOfConcat(s[..k], [s[k]]);
        TotalOfOne(s[k]);
      } else {
        SelectionOfRest(s, x, n);
        SmallestAskLeast(s[..n], x);
        assert s[..n][..|x|] == s[..|x|];
      }
    }
  }

  lemma SelectionSize(s: seq<EngineFinding>, x: seq<EngineFinding>)
    requires multiset(x) <= multiset(s)
    ensures |x| <= |s|
  {
    assert multiset(s) == multiset(x) + (multiset(s) - multiset(x));
    assert |multiset(s)| == |multiset(x)| + |multiset(s) - multiset(x)|;
  }

  /* ---------- The condition ---------- */

  /** The `k` smallest requests reach the cap and the `k - 1` largest do not. */
  predicate SharpAt(s: seq<EngineFinding>, k: nat) {
    1 <= k <= |s| && Total(s[..k]) >= ENGINE_CAP && Total(s[|s| - (k - 1)..]) < ENGINE_CAP
  }

  /** Everything fits under the cap, or some number of findings reaches it in every order. */
  ghost predicate Sharp(findings: seq<EngineFinding>, key: Key) {
    var s := Ascending(Cut(findings, key));
    Total(s) < ENGINE_CAP || exists k :: SharpAt(s, k)
  }

  lemma OneKeyIgnoresOrder(p: seq<EngineFinding>, q: seq<EngineFinding>, key: Key)
    requires OneKey(p, key) && multiset(p) == multiset(q)
    ensures OneKey(q, key)
  {
    forall i | 0 <= i < |q| ensures Asks(q[i]) && KeyOf(q[i]) == key {
      assert q[i] in multiset(p);
      assert q[i] in p;
    }
  }

  lemma SameTotal(p: seq<EngineFinding>, q: seq<EngineFinding>, key: Key)
    requires OneKey(p, key) && multiset(p) == multiset(q)
    ensures OneKey(q, key) && |p| == |q| && Total(p) == Total(q)
  {
    OneKeyIgnoresOrder(p, q, key);
    assert |multiset(p)| == |multiset(q)|;
    OneKeyRequests(p, key);
    OneKeyRequests(q, key);
    RequestedIgnoresOrder(p, q, key);
  }

  lemma PartsAreSelections(p: seq<EngineFinding>, s: seq<EngineFinding>, j: nat)
    requires multiset(p) == multiset(s) && j <= |p|
    ensures multiset(p[..j]) <= multiset(s) && multiset(p[j..]) <= multiset(s)
    ensures Total(p) == Total(p[..j]) + Total(p[j..])
  {
    assert p == p[..j] + p[j..];
    TotalOfConcat(p[..j], p[j..]);
  }

  lemma SharpFixesCount(p: seq<EngineFinding>, s: seq<EngineFinding>, key: Key, k: nat)
    requires OneKey(p, key) && Ordered(s) && multiset(s) == multiset(p) && SharpAt(s, k)
    ensures Accepted(p) == k
  {
    hide Total, Accepted, Ordered, OneKey;
    SameTotal(p, s, key);
    PartsAreSelections(p, s, k);
    PartsAreSelections(p, s, k - 1);
    PartsAreSelections(s, s, |s| - (k - 1));
    SmallestAskLeast(s, p[..k]);
    SmallestAskLeast(s, p[k - 1..]);
    AcceptedOfOneKey(p, key);
    AcceptsFirstIsUnique(p, Accepted(p), k);
  }

  /** All orders of one key's findings accept equally many. */
  lemma SharpKeyIsStable(p: seq<EngineFinding>, q: seq<EngineFinding>, key: Key)
    requires OneKey(p, key) && OneKey(q, key) && multiset(p) == multiset(q)
    requires Total(Ascending(p)) < ENGINE_CAP || exists k :: SharpAt(Ascending(p), k)
    ensures Accepted(p) == Accepted(q)
  {
    var s := Ascending(p);
    AscendingSpec(p);
    if Total(s) < ENGINE_CAP {
      SameTotal(p, s, key);
      SameTotal(p, q, key);
      AcceptedOfOneKey(p, key);
      AcceptedOfOneKey(q, key);
      AcceptsFirstIsUnique(p, Accepted(p), |p|);
      AcceptsFirstIsUnique(q, Accepted(q), |q|);
    } else {
      var k :| SharpAt(s, k);
      SharpFixesCount(p, s, key, k);
      SharpFixesCount(q, s, key, k);
    }
  }

  lemma {:induction false} NothingAsked(findings: seq<EngineFinding>)
    requires forall i | 0 <= i < |findings| :: !Asks(findings[i])
    ensures Accepted(findings) == 0
  {
    if findings != [] {
      NothingAsked(findings[..|findings| - 1]);
    }
  }

  lemma {:induction false} CutFinds(findings: seq<EngineFinding>, i: nat)
    requires i < |findings| && Asks(findings[i])
    ensures Cut(findings, KeyOf(findings[i])) != []
    decreases |findings|
  {
    var n := |findings| - 1;
    if i < n {
      assert findings[..n][i] == findings[i];
      CutFinds(findings[..n], i);
    }
  }

  /** An order that accepts no fewer findings of any key accepts no fewer in all. */
  lemma {:induction false} CountsByKey(a: seq<EngineFinding>, b: seq<EngineFinding>)
    requires multiset(a) == multiset(b)
    requires forall key: Key :: Accepted(Cut(a, key)) <= Accepted(Cut(b, key))
    ensures Accepted(a) <= Accepted(b)
    decreases |a|
  {
    if i: nat :| i < |a| && Asks(a[i]) {
      var key := KeyOf(a[i]);
      CutFinds(a, i);
      CutIsOneKey(a, key);
      SplitIgnoresOrder(a, b, key);
      AcceptedSplits(a, key);
      AcceptedSplits(b, key);
      forall other: Key ensures Accepted(Cut(Without(a, key), other)) <= Accepted(Cut(Without(b, key), other)) {
        WithoutKeepsOthers(a, key, other);
        WithoutKeepsOthers(b, key, other);
        assert Accepted(Cut(a, other)) <= Accepted(Cut(b, other));
      }
      CountsByKey(Without(a, key), Without(b, key));
    } else {
      NothingAsked(a);
    }
  }

  /** If the condition holds for every key, the count is the same for every order. */
  lemma SharpIsStable(a: seq<EngineFinding>, b: seq<EngineFinding>)
    requires multiset(a) == multiset(b) && forall key: Key :: Sharp(a, key)
    ensures Accepted(a) == Accepted(b)
  {
    forall key: Key ensures Accepted(Cut(a, key)) == Accepted(Cut(b, key)) {
      CutIsOneKey(a, key);
      CutIsOneKey(b, key);
      SplitIgnoresOrder(a, b, key);
      assert Sharp(a, key);
      SharpKeyIsStable(Cut(a, key), Cut(b, key), key);
    }
    CountsByKey(a, b);
    CountsByKey(b, a);
  }

  /* ---------- The extreme orders ---------- */

  /** Where every prefix asks for more, fewer are accepted. */
  lemma GreedierAcceptsFewer(p: seq<EngineFinding>, q: seq<EngineFinding>, key: Key)
    requires OneKey(p, key) && OneKey(q, key) && |p| == |q|
    requires forall j: nat | j <= |p| :: Total(q[..j]) <= Total(p[..j])
    ensures Accepted(p) <= Accepted(q)
  {
    hide Total, Accepted, OneKey;
    AcceptedOfOneKey(p, key);
    AcceptedOfOneKey(q, key);
    var m, n := Accepted(p), Accepted(q);
    assert p[..|p|] == p && q[..|q|] == q;
    assert n < |q| ==> Total(q[..n]) >= ENGINE_CAP;
    assert n < |q| ==> Total(q[..n]) <= Total(p[..n]);
    if n < m {
      NotReachedLater(p, n, m);
    }
  }

  lemma NotReachedLater(p: seq<EngineFinding>, n: nat, m: nat)
    requires n < m <= |p| && Total(p[..n]) >= ENGINE_CAP
    ensures !AcceptsFirst(p, m)
  {
    hide Total;
    assert p[..|p|] == p;
    TotalOfPrefix(p, n, m - 1);
    TotalOfPrefix(p, n, |p|);
  }

  function Reverse(p: seq<EngineFinding>): (r: seq<EngineFinding>)
    ensures |r| == |p|
  {
    if p == [] then [] else var n := |p| - 1; [p[n]] + Reverse(p[..n])
  }

  /** All findings, those that ask for the most first. */
  function Descending(p: seq<EngineFinding>): seq<EngineFinding> {
    Reverse(Ascending(p))
  }

  lemma {:induction false} ReverseKeeps(p: seq<EngineFinding>)
    ensures multiset(Reverse(p)) == multiset(p)
  {
    if p != [] {
      var n := |p| - 1;
      ReverseKeeps(p[..n]);
      assert p == p[..n] + [p[n]];
    }
  }

  lemma {:induction false} ReverseOfConcat(a: seq<EngineFinding>, b: seq<EngineFinding>)
    ensures Reverse(a + b) == Reverse(b) + Reverse(a)
  {
    if b == [] {
      assert a + b == a;
    } else {
      var n := |b| - 1;
      assert (a + b)[..|a + b| - 1] == a + b[..n];
      ReverseOfConcat(a, b[..n]);
    }
  }

  lemma {:induction false} CutOfReverse(p: seq<EngineFinding>, key: Key)
    ensures Cut(Reverse(p), key) == Reverse(Cut(p, key))
  {
    if p != [] {
      var n := |p| - 1;
      var last := [p[n]];
      CutOfReverse(p[..n], key);
      CutOfConcat(last, Reverse(p[..n]), key);
      assert last[..0] == [];
      ReverseOfConcat(Cut(p[..n], key), last);
      assert Reverse(last) == last;
    }
  }

  lemma {:induction false} CutKeepsOrder(p: seq<EngineFinding>, key: Key)
    requires Ordered(p)
    ensures Ordered(Cut(p, key)) && forall x | x in Cut(p, key) :: x in p
  {
    hide Requested;
    if p != [] {
      var n := |p| - 1;
      var before := Cut(p[..n], key);
      CutKeepsOrder(p[..n], key);
      forall i | 0 <= i < |before| ensures Requested(before[i]) <= Requested(p[n]) {
        assert before[i] in p[..n];
      }
    }
  }

  /** The first `j` of any order ask for no less than the smallest `j` and no more than the largest. */
  lemma PrefixBetween(p: seq<EngineFinding>, s: seq<EngineFinding>, key: Key, j: nat)
    requires OneKey(s, key) && Ordered(s) && multiset(s) == multiset(p) && |s| == |p| == |Reverse(s)| && j <= |p|
    requires Total(p) == Total(s)
    ensures Total(s[..j]) <= Total(p[..j]) <= Total(Reverse(s)[..j])
  {
    hide Total, Ordered, OneKey;
    var small, large := s[..|s| - j], s[|s| - j..];
    PartsAreSelections(p, s, j);
    PartsAreSelections(s, s, |s| - j);
    SmallestAskLeast(s, p[..j]);
    SmallestAskLeast(s, p[j..]);
    assert s == small + large;
    ReverseOfConcat(small, large);
    assert Reverse(s)[..j] == Reverse(large);
    ReverseKeeps(large);
    assert OneKey(large, key) by {
      assert OneKey(s, key);
      OneKeyOfPart(s, |s| - j, key);
    }
    SameTotal(large, Reverse(large), key);
  }

  lemma OneKeyOfPart(s: seq<EngineFinding>, i: nat, key: Key)
    requires OneKey(s, key) && i <= |s|
    ensures OneKey(s[i..], key)
  {
  }

  /** Of one key's findings, the smallest first accept the most and the largest first the fewest. */
  lemma ExtremesOfKey(p: seq<EngineFinding>, s: seq<EngineFinding>, key: Key)
    requires OneKey(p, key) && Ordered(s) && multiset(s) == multiset(p)
    ensures Accepted(Reverse(s)) <= Accepted(p) <= Accepted(s)
  {
    hide Total, Accepted, Ordered, OneKey, Reverse;
    ReverseKeeps(s);
    SameTotal(p, s, key);
    SameTotal(p, Reverse(s), key);
    forall j: nat | j <= |p| ensures Total(s[..j]) <= Total(p[..j]) <= Total(Reverse(s)[..j]) {
      PrefixBetween(p, s, key, j);
    }
    GreedierAcceptsFewer(p, s, key);
    GreedierAcceptsFewer(Reverse(s), p, key);
  }

  /**
   No order accepts more findings than the one with the smallest requests first,
   and none fewer than its reverse.
   */
  lemma ExtremeOrders(a: seq<EngineFinding>, b: seq<EngineFinding>)
    requires multiset(a) == multiset(b)
    ensures multiset(Ascending(a)) == multiset(a) == multiset(Descending(a))
    ensures Accepted(Descending(a)) <= Accepted(b) <= Accepted(Ascending(a))
  {
    hide Accepted, Cut, Reverse, Ascending;
    var up := Ascending(a);
    AscendingSpec(a);
    ReverseKeeps(up);
    forall key: Key
      ensures Accepted(Cut(Reverse(up), key)) <= Accepted(Cut(b, key)) <= Accepted(Cut(up, key))
    {
      CutIsOneKey(b, key);
      SplitIgnoresOrder(b, up, key);
      CutKeepsOrder(up, key);
      CutOfReverse(up, key);
      ExtremesOfKey(Cut(b, key), Cut(up, key), key);
    }
    CountsByKey(Reverse(up), b);
    CountsByKey(b, up);
  }

  /* ---------- Where it fails, two orders differ ---------- */

  lemma {:induction false} CutOfOneKey(p: seq<EngineFinding>, key: Key)
    requires OneKey(p, key)
    ensures Cut(p, key) == p && Without(p, key) == []
  {
    if p != [] {
      CutOfOneKey(p[..|p| - 1], key);
      assert p[..|p| - 1] + [p[|p| - 1]] == p;
    }
  }

  lemma {:induction false} CutOfConcat(a: seq<EngineFinding>, b: seq<EngineFinding>, key: Key)
    ensures Cut(a + b, key) == Cut(a, key) + Cut(b, key)
    ensures Without(a + b, key) == Without(a, key) + Without(b, key)
  {
    if b == [] {
      assert a + b == a;
    } else {
      var n := |b| - 1;
      assert (a + b)[..|a + b| - 1] == a + b[..n];
      CutOfConcat(a, b[..n], key);
    }
  }

  lemma {:induction false} WithoutTwice(findings: seq<EngineFinding>, key: Key)
    ensures Without(Without(findings, key), key) == Without(findings, key)
  {
    if findings != [] {
      var n := |findings| - 1;
      WithoutTwice(findings[..n], key);
      Append(Without(findings[..n], key), findings[n], key);
    }
  }

  /** Putting any order of one key's findings first shows that order's count. */
  lemma ReorderedKey(a: seq<EngineFinding>, q: seq<EngineFinding>, key: Key)
    requires OneKey(q, key) && multiset(q) == multiset(Cut(a, key))
    ensures multiset(q + Without(a, key)) == multiset(a)
    ensures Accepted(q + Without(a, key)) == Accepted(q) + Accepted(Without(a, key))
  {
    var rest := Without(a, key);
    SplitKeepsAll(a, key);
    CutOfConcat(q, rest, key);
    CutOfOneKey(q, key);
    WithoutKeepsOthers(a, key, key);
    WithoutTwice(a, key);
    assert q + [] == q && [] + rest == rest;
    AcceptedSplits(q + rest, key);
  }

  /** The order that starts with the `j` last findings. */
  function LastFirst(s: seq<EngineFinding>, j: nat): seq<EngineFinding>
    requires j <= |s|
  {
    s[|s| - j..] + s[..|s| - j]
  }

  lemma LastFirstKeeps(s: seq<EngineFinding>, j: nat)
    requires j <= |s|
    ensures multiset(LastFirst(s, j)) == multiset(s) && LastFirst(s, j)[..j] == s[|s| - j..]
  {
    assert s == s[..|s| - j] + s[|s| - j..];
  }

  /**
   If starting with the largest requests accepts as many as starting with the
   smallest, the condition holds.
   */
  lemma EqualCountsAreSharp(s: seq<EngineFinding>, key: Key, k: nat)
    requires OneKey(s, key) && Accepted(s) == k && Total(s) >= ENGINE_CAP
    ensures 1 <= k <= |s|
    ensures OneKey(LastFirst(s, k - 1), key) && Accepted(LastFirst(s, k - 1)) == k ==> SharpAt(s, k)
  {
    hide Total, Accepted, Asks, OneKey, LastFirst;
    AcceptedOfOneKey(s, key);
    assert s[..|s|] == s;
    var q := LastFirst(s, k - 1);
    LastFirstKeeps(s, k - 1);
    if OneKey(q, key) && Accepted(q) == k {
      AcceptedOfOneKey(q, key);
      SameTotal(s, q, key);
    }
  }

  ghost predicate SameCountInEveryOrder(a: seq<EngineFinding>) {
    forall b | multiset(b) == multiset(a) :: Accepted(b) == Accepted(a)
  }

  ghost predicate AllAcceptedInEveryOrder(a: seq<EngineFinding>) {
    forall b | multiset(b) == multiset(a) :: Accepted(b) == Asking(b)
  }

  /**
   The number of accepted findings is the same for every order of the findings
   if and only if, for every engine and category, the requests either all fit
   under the cap or some `k` exists such that the `k` smallest reach the cap and
   the `k - 1` largest do not.
   */
  lemma AcceptedIgnoresOrderIff(a: seq<EngineFinding>)
    ensures SameCountInEveryOrder(a) <==> forall key: Key :: Sharp(a, key)
  {
    hide Sharp, Accepted;
    if forall key: Key :: Sharp(a, key) {
      forall b | multiset(b) == multiset(a) ensures Accepted(b) == Accepted(a) {
        SharpIsStable(a, b);
      }
    }
    if SameCountInEveryOrder(a) {
      forall key: Key ensures Sharp(a, key) {
        StableIsSharp(a, key);
      }
    }
  }

  lemma StableIsSharp(a: seq<EngineFinding>, key: Key)
    requires SameCountInEveryOrder(a)
    ensures Sharp(a, key)
  {
    hide Accepted, Without, Cut, Total, Ascending, LastFirst, SharpAt;
    var cut := Cut(a, key);
    var up := Ascending(cut);
    CutIsOneKey(a, key);
    AscendingSpec(cut);
    OneKeyIgnoresOrder(cut, up, key);
    if Total(up) >= ENGINE_CAP {
      var k := Accepted(up);
      EqualCountsAreSharp(up, key, k);
      var down := LastFirst(up, k - 1);
      LastFirstKeeps(up, k - 1);
      OneKeyIgnoresOrder(up, down, key);
      ReorderedKey(a, up, key);
      ReorderedKey(a, down, key);
      assert Accepted(up + Without(a, key)) == Accepted(a) == Accepted(down + Without(a, key));
      assert SharpAt(up, k);
    }
  }

  /* ---------- When nothing is ever turned away ---------- */

  lemma {:induction false} AcceptedAtMostAsking(findings: seq<EngineFinding>)
    ensures Accepted(findings) <= Asking(findings)
  {
    if findings != [] {
      AcceptedAtMostAsking(findings[..|findings| - 1]);
    }
  }

  predicate FitsLast(findings: seq<EngineFinding>, x: EngineFinding)
    requires Asks(x)
  {
    RequestedIn(findings, KeyOf(x)) - Requested(x) < ENGINE_CAP
  }

  lemma {:induction false} AllAreAccepted(findings: seq<EngineFinding>, limit: seq<EngineFinding>)
    requires forall key: Key :: RequestedIn(findings, key) <= RequestedIn(limit, key)
    requires forall i | 0 <= i < |findings| && Asks(findings[i]) :: FitsLast(limit, findings[i])
    ensures Accepted(findings) == Asking(findings)
    decreases |findings|
  {
    if findings != [] {
      var n := |findings| - 1;
      forall key: Key ensures RequestedIn(findings[..n], key) <= RequestedIn(limit, key) {
        assert RequestedIn(findings, key) <= RequestedIn(limit, key);
      }
      forall i | 0 <= i < n && Asks(findings[..n][i]) ensures FitsLast(limit, findings[..n][i]) {
        assert findings[i] == findings[..n][i];
      }
      AllAreAccepted(findings[..n], limit);
      if Asks(findings[n]) {
        assert RequestedIn(findings, KeyOf(findings[n])) <= RequestedIn(limit, KeyOf(findings[n]));
      }
    }
  }

  /**
   Every asking finding is accepted in every order if and only if each of them
   would still find room if it came last.
   */
  lemma AllAcceptedInEveryOrderIff(a: seq<EngineFinding>)
    ensures AllAcceptedInEveryOrder(a) <==> forall i | 0 <= i < |a| && Asks(a[i]) :: FitsLast(a, a[i])
  {
    hide Accepted, Asking, FitsLast;
    if forall i | 0 <= i < |a| && Asks(a[i]) :: FitsLast(a, a[i]) {
      forall b | multiset(b) == multiset(a) ensures Accepted(b) == Asking(b) {
        forall key: Key ensures RequestedIn(b, key) <= RequestedIn(a, key) {
          RequestedIgnoresOrder(a, b, key);
        }
        forall i | 0 <= i < |b| && Asks(b[i]) ensures FitsLast(a, b[i]) {
          assert b[i] in multiset(a);
          assert b[i] in a;
        }
        AllAreAccepted(b, a);
      }
    }
    if AllAcceptedInEveryOrder(a) {
      forall i | 0 <= i < |a| && Asks(a[i]) ensures FitsLast(a, a[i]) {
        LastOneFits(a, i);
      }
    }
  }

  lemma LastOneFits(a: seq<EngineFinding>, i: nat)
    requires i < |a| && Asks(a[i])
    requires AllAcceptedInEveryOrder(a)
    ensures FitsLast(a, a[i])
  {
    hide Accepted, Asking, RequestedIn;
    var rest := a[..i] + a[i + 1..];
    var b := rest + [a[i]];
    RemoveAt(a, i);
    assert multiset(b) == multiset(a);
    Append(rest, a[i], KeyOf(a[i]));
    AcceptedAtMostAsking(rest);
    assert Accepted(b) == Asking(b);
    RequestedWithout(a, i, KeyOf(a[i]));
  }

  /** A concrete dependence on the order: 30 points first leave nothing for 10, but not the other way round. */
  lemma AcceptedDependsOnOrder(engine: string, c: RiskCategory)
    ensures var large := EngineFinding(engine, Some(c), 30, 1.0, true);
            var small := EngineFinding(engine, Some(c), 10, 1.0, true);
            Accepted([large, small]) == 1 && Accepted([small, large]) == 2
  {
    var large, small := EngineFinding(engine, Some(c), 30, 1.0, true), EngineFinding(engine, Some(c), 10, 1.0, true);
    var key := (engine, c);
    assert [large, small][..1] == [large] && [small, large][..1] == [small];
    assert [large][..0] == [] && [small][..0] == [];
    assert RequestedIn([large], key) == 30 && RequestedIn([small], key) == 10;
    assert Accepted([large]) == 1 && Accepted([small]) == 1;
  }
}
