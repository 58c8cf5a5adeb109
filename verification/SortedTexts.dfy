/**
 `sorted(set(...))` of texts: the one ascending list without repeats that holds
 exactly the given texts, whatever order they come in.
 */
module SortedTexts {
  import opened Common

  function InsertText(x: string, sorted: seq<string>): seq<string> {
    if sorted == [] then [x]
    else if x == sorted[0] then sorted
    else if TextLess(x, sorted[0]) then [x] + sorted
    else [sorted[0]] + InsertText(x, sorted[1..])
  }

  function SortedSet(items: seq<string>): seq<string> {
    if items == [] then [] else InsertText(items[0], SortedSet(items[1..]))
  }

  predicate Ascending(texts: seq<string>) {
    forall i | 0 <= i < |texts| - 1 :: TextLess(texts[i], texts[i + 1])
  }

  lemma {:induction false} SortedSetIsTheSet(items: seq<string>, v: string)
    ensures v in SortedSet(items) <==> v in items
  {
    if items != [] {
      SortedSetIsTheSet(items[1..], v);
      InsertTextAdds(items[0], SortedSet(items[1..]), v);
    }
  }

  lemma {:induction false} InsertTextAdds(x: string, sorted: seq<string>, v: string)
    ensures v in InsertText(x, sorted) <==> v == x || v in sorted
  {
    if sorted != [] {
      InsertTextAdds(x, sorted[1..], v);
    }
  }

  /* ---------- The order of texts is total ---------- */

  lemma {:induction false} TextLessIsTotal(a: string, b: string)
    ensures a != b ==> TextLess(a, b) || TextLess(b, a)
    ensures !(TextLess(a, b) && TextLess(b, a)) && !TextLess(a, a)
  {
    if a != [] && b != [] {
      TextLessIsTotal(a[1..], b[1..]);
      assert a == [a[0]] + a[1..] && b == [b[0]] + b[1..];
    }
    if a != [] {
      TextLessIsTotal(a[1..], a[1..]);
    }
  }

  lemma {:induction false} TextLessIsTransitive(a: string, b: string, c: string)
    requires TextLess(a, b) && TextLess(b, c)
    ensures TextLess(a, c)
  {
    if a != [] && a[0] == b[0] == c[0] {
      TextLessIsTransitive(a[1..], b[1..], c[1..]);
    }
  }

  /* ---------- Sorting determines the list ---------- */

  lemma {:induction false} InsertKeepsAscending(x: string, sorted: seq<string>)
    requires Ascending(sorted)
    ensures Ascending(InsertText(x, sorted))
    ensures InsertText(x, sorted) != [] && InsertText(x, sorted)[0] in [x] + sorted[..Min(1, |sorted|)]
  {
    if sorted != [] && x != sorted[0] && !TextLess(x, sorted[0]) {
      TextLessIsTotal(x, sorted[0]);
      InsertKeepsAscending(x, sorted[1..]);
    }
  }

  lemma {:induction false} SortedSetAscends(items: seq<string>)
    ensures Ascending(SortedSet(items))
  {
    if items != [] {
      SortedSetAscends(items[1..]);
      InsertKeepsAscending(items[0], SortedSet(items[1..]));
    }
  }

  lemma {:induction false} FirstIsLeast(texts: seq<string>, i: nat)
    requires Ascending(texts) && 0 < i < |texts|
    ensures TextLess(texts[0], texts[i])
  {
    if i > 1 {
      FirstIsLeast(texts, i - 1);
      TextLessIsTransitive(texts[0], texts[i - 1], texts[i]);
    }
  }

  lemma {:induction false} AscendingIsUnique(a: seq<string>, b: seq<string>)
    requires Ascending(a) && Ascending(b) && forall v :: v in a <==> v in b
    ensures a == b
  {
    EmptyIfHeldByEmpty(a, b);
    EmptyIfHeldByEmpty(b, a);
    if a != [] {
      assert a[0] in b && b[0] in a;
      SameFirst(a, b);
      forall v ensures v in a[1..] <==> v in b[1..] {
        RestWithoutFirst(a, v);
        RestWithoutFirst(b, v);
      }
      AscendingIsUnique(a[1..], b[1..]);
    }
  }

  lemma EmptyIfHeldByEmpty(a: seq<string>, b: seq<string>)
    requires forall v | v in a :: v in b
    ensures b == [] ==> a == []
  {
    if a != [] {
      assert a[0] in b;
    }
  }

  lemma SameFirst(a: seq<string>, b: seq<string>)
    requires Ascending(a) && Ascending(b) && a != [] && b != [] && a[0] in b && b[0] in a
    ensures a[0] == b[0]
  {
    var i :| 0 <= i < |b| && b[i] == a[0];
    var j :| 0 <= j < |a| && a[j] == b[0];
    if i > 0 && j > 0 {
      FirstIsLeast(b, i);
      FirstIsLeast(a, j);
      TextLessIsTotal(a[0], b[0]);
    }
  }

  lemma RestWithoutFirst(texts: seq<string>, v: string)
    requires Ascending(texts) && texts != []
    ensures v in texts[1..] <==> v in texts && v != texts[0]
  {
    if v in texts[1..] {
      var i :| 0 <= i < |texts[1..]| && texts[1..][i] == v;
      FirstIsLeast(texts, i + 1);
      TextLessIsTotal(texts[0], v);
    }
  }

  /** Two lists sort to the same texts exactly when they hold the same texts. */
  lemma SortedSetIgnoresOrder(a: seq<string>, b: seq<string>)
    ensures SortedSet(a) == SortedSet(b) <==> ToSet(a) == ToSet(b)
  {
    forall v ensures (v in SortedSet(a) <==> v in a) && (v in SortedSet(b) <==> v in b) {
      SortedSetIsTheSet(a, v);
      SortedSetIsTheSet(b, v);
    }
    if ToSet(a) == ToSet(b) {
      SortedSetAscends(a);
      SortedSetAscends(b);
      forall v ensures v in SortedSet(a) <==> v in SortedSet(b) {
        assert v in ToSet(a) <==> v in ToSet(b);
      }
      AscendingIsUnique(SortedSet(a), SortedSet(b));
    } else {
      assert ToSet(a) == ToSet(SortedSet(a)) && ToSet(b) == ToSet(SortedSet(b));
    }
  }
}
