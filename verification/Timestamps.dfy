/**
 The clock text of the repository. Every time column is a UTC `isoformat()`
 text, and SQL compares those texts character by character. `isoformat()`
 drops the fraction when it is zero, so two texts may differ in length. This
 module proves that the text order is nevertheless the order of instants.
 */
module Timestamps {
  import opened Common

  /** The fields of a UTC `datetime`. */
  datatype Instant = Instant(year: nat, month: nat, day: nat, hour: nat, minute: nat, second: nat, micro: nat)

  /* ---------- The proleptic Gregorian calendar ---------- */

  predicate IsLeap(year: nat) {
    year % 4 == 0 && (year % 100 != 0 || year % 400 == 0)
  }

  function YearLength(year: nat): nat {
    if IsLeap(year) then 366 else 365
  }

  function MonthLength(year: nat, month: nat): nat {
    if month == 2 then (if IsLeap(year) then 29 else 28)
    else if month in {4, 6, 9, 11} then 30
    else 31
  }

  function DaysBeforeYear(year: nat): nat {
    if year <= 1 then 0 else DaysBeforeYear(year - 1) + YearLength(year - 1)
  }

  function DaysBeforeMonth(year: nat, month: nat): nat {
    if month <= 1 then 0 else DaysBeforeMonth(year, month - 1) + MonthLength(year, month - 1)
  }

  predicate ValidInstant(t: Instant) {
    && 1 <= t.year <= 9999 && 1 <= t.month <= 12 && 1 <= t.day <= MonthLength(t.year, t.month)
    && t.hour < 24 && t.minute < 60 && t.second < 60 && t.micro < 1_000_000
  }

  function DayNumber(year: nat, month: nat, day: nat): int {
    DaysBeforeYear(year) + DaysBeforeMonth(year, month) + day - 1
  }

  /** Microseconds since the start of year 1: the instant the fields denote. */
  function Micros(t: Instant): int {
    (((DayNumber(t.year, t.month, t.day) * 24 + t.hour) * 60 + t.minute) * 60 + t.second) * 1_000_000 + t.micro
  }

  /* ---------- The text ---------- */

  function DigitChar(d: nat): char
    requires d < 10
  {
    "0123456789"[d]
  }

  function Digits(n: nat, width: nat): string {
    if width == 0 then "" else Digits(n / 10, width - 1) + [DigitChar(n % 10)]
  }

  const UTC_OFFSET := "+00:00"

  function Fraction(micro: nat): string {
    if micro == 0 then UTC_OFFSET else "." + Digits(micro, 6) + UTC_OFFSET
  }

  /** A fixed-width decimal field and the separator printed after it. */
  datatype Field = Field(width: nat, separator: string)

  const LAYOUT: seq<Field> := [
    Field(4, "-"), Field(2, "-"), Field(2, "T"), Field(2, ":"), Field(2, ":"), Field(2, "")
  ]

  function FieldValues(t: Instant): seq<nat> {
    [t.year, t.month, t.day, t.hour, t.minute, t.second]
  }

  function FixedText(values: seq<nat>, layout: seq<Field>): string
    requires |values| == |layout|
  {
    if values == [] then ""
    else Digits(values[0], layout[0].width) + layout[0].separator + FixedText(values[1..], layout[1..])
  }

  /** `datetime.isoformat()` of an aware UTC datetime. */
  function IsoFormat(t: Instant): string {
    FixedText(FieldValues(t), LAYOUT) + Fraction(t.micro)
  }

  /* ---------- Lexicographic order ---------- */

  lemma {:induction false} PrefixDecides(p: string, q: string, x: string, y: string)
    requires |p| == |q|
    ensures TextLess(p + x, q + y) <==> TextLess(p, q) || (p == q && TextLess(x, y))
  {
    if p == [] {
      assert p + x == x && q + y == y;
    } else {
      assert (p + x)[1..] == p[1..] + x && (q + y)[1..] == q[1..] + y;
      PrefixDecides(p[1..], q[1..], x, y);
      assert p == [p[0]] + p[1..] && q == [q[0]] + q[1..];
    }
  }

  lemma TextLessIrreflexive(a: string)
    ensures !TextLess(a, a)
  {
  }

  function Pow10(width: nat): nat {
    if width == 0 then 1 else 10 * Pow10(width - 1)
  }

  lemma {:induction false} DigitsOrder(n: nat, m: nat, width: nat)
    requires n < Pow10(width) && m < Pow10(width)
    ensures |Digits(n, width)| == |Digits(m, width)| == width
    ensures Digits(n, width) == Digits(m, width) <==> n == m
    ensures TextLess(Digits(n, width), Digits(m, width)) <==> n < m
  {
    if width > 0 {
      DigitsOrder(n / 10, m / 10, width - 1);
      var x, y := [DigitChar(n % 10)], [DigitChar(m % 10)];
      PrefixDecides(Digits(n / 10, width - 1), Digits(m / 10, width - 1), x, y);
      assert TextLess(x, y) <==> n % 10 < m % 10;
      var dn, dm := Digits(n, width), Digits(m, width);
      assert dn[..width - 1] == Digits(n / 10, width - 1) && dm[..width - 1] == Digits(m / 10, width - 1);
      assert dn[width - 1] == x[0] && dm[width - 1] == y[0];
    }
  }

  /** Order of equally long tuples of numbers. */
  predicate TupleLess(a: seq<nat>, b: seq<nat>)
    requires |a| == |b|
  {
    a != [] && (a[0] < b[0] || (a[0] == b[0] && TupleLess(a[1..], b[1..])))
  }

  predicate Fits(values: seq<nat>, layout: seq<Field>) {
    |values| == |layout| && forall i | 0 <= i < |values| :: values[i] < Pow10(layout[i].width)
  }

  lemma FieldDecides(p: string, q: string, separator: string, x: string, y: string)
    requires |p| == |q|
    ensures TextLess(p + (separator + x), q + (separator + y)) <==> TextLess(p, q) || (p == q && TextLess(x, y))
  {
    PrefixDecides(p, q, separator + x, separator + y);
    PrefixDecides(separator, separator, x, y);
    TextLessIrreflexive(separator);
  }

  lemma Regroup(a: string, b: string, c: string, d: string)
    ensures a + b + c + d == a + (b + (c + d))
  {
  }

  lemma FirstField(a: seq<nat>, layout: seq<Field>, x: string)
    requires |a| == |layout| && a != []
    ensures FixedText(a, layout) + x ==
              Digits(a[0], layout[0].width) + (layout[0].separator + (FixedText(a[1..], layout[1..]) + x))
  {
    Regroup(Digits(a[0], layout[0].width), layout[0].separator, FixedText(a[1..], layout[1..]), x);
  }

  lemma {:induction false} FixedTextOrder(a: seq<nat>, b: seq<nat>, layout: seq<Field>, x: string, y: string)
    requires Fits(a, layout) && Fits(b, layout)
    ensures TextLess(FixedText(a, layout) + x, FixedText(b, layout) + y)
       <==> TupleLess(a, b) || (a == b && TextLess(x, y))
  {
    if a == [] {
      assert FixedText(a, layout) + x == x && FixedText(b, layout) + y == y;
    } else {
      hide TextLess, Digits, FixedText;
      var f, rest := layout[0], layout[1..];
      FirstField(a, layout, x);
      FirstField(b, layout, y);
      DigitsOrder(a[0], b[0], f.width);
      FieldDecides(Digits(a[0], f.width), Digits(b[0], f.width), f.separator,
                   FixedText(a[1..], rest) + x, FixedText(b[1..], rest) + y);
      FixedTextOrder(a[1..], b[1..], rest, x, y);
      assert a == [a[0]] + a[1..] && b == [b[0]] + b[1..];
    }
  }

  /** `+` sorts before `.`, so the text without a fraction comes first in its second. */
  lemma FractionOrder(m: nat, n: nat)
    requires m < 1_000_000 && n < 1_000_000
    ensures TextLess(Fraction(m), Fraction(n)) <==> m < n
  {
    assert Pow10(6) == 1_000_000 by {
      assert Pow10(3) == 1000;
    }
    if m == 0 && n == 0 {
      TextLessIrreflexive(UTC_OFFSET);
    } else if m != 0 && n != 0 {
      assert Fraction(m) == "." + (Digits(m, 6) + UTC_OFFSET);
      assert Fraction(n) == "." + (Digits(n, 6) + UTC_OFFSET);
      PrefixDecides(".", ".", Digits(m, 6) + UTC_OFFSET, Digits(n, 6) + UTC_OFFSET);
      TextLessIrreflexive(".");
      DigitsOrder(m, n, 6);
      PrefixDecides(Digits(m, 6), Digits(n, 6), UTC_OFFSET, UTC_OFFSET);
      TextLessIrreflexive(UTC_OFFSET);
    } else {
      assert '+' < '.';
    }
  }

  /* ---------- Calendar monotonicity ---------- */

  lemma {:induction false} YearsPrecede(a: nat, b: nat)
    requires 1 <= a < b
    ensures DaysBeforeYear(a) + YearLength(a) <= DaysBeforeYear(b)
  {
    if a + 1 < b {
      YearsPrecede(a, b - 1);
    }
  }

  lemma {:induction false} MonthsPrecede(year: nat, a: nat, b: nat)
    requires 1 <= a < b
    ensures DaysBeforeMonth(year, a) + MonthLength(year, a) <= DaysBeforeMonth(year, b)
  {
    if a + 1 < b {
      MonthsPrecede(year, a, b - 1);
    }
  }

  lemma YearIsTwelveMonths(year: nat)
    ensures DaysBeforeMonth(year, 13) == YearLength(year)
  {
    assert DaysBeforeMonth(year, 2) == 31;
    assert DaysBeforeMonth(year, 3) == 31 + MonthLength(year, 2);
    assert DaysBeforeMonth(year, 5) == DaysBeforeMonth(year, 3) + 61;
    assert DaysBeforeMonth(year, 7) == DaysBeforeMonth(year, 5) + 61;
    assert DaysBeforeMonth(year, 9) == DaysBeforeMonth(year, 7) + 62;
    assert DaysBeforeMonth(year, 11) == DaysBeforeMonth(year, 9) + 61;
    assert DaysBeforeMonth(year, 13) == DaysBeforeMonth(year, 11) + 61;
  }

  lemma DayWithinYear(t: Instant)
    requires ValidInstant(t)
    ensures 0 <= DaysBeforeMonth(t.year, t.month) + t.day - 1 < YearLength(t.year)
  {
    YearIsTwelveMonths(t.year);
    MonthsPrecede(t.year, t.month, 13);
  }

  lemma DayNumberOrder(s: Instant, t: Instant)
    requires ValidInstant(s) && ValidInstant(t)
    requires s.year < t.year || (s.year == t.year && (s.month < t.month || (s.month == t.month && s.day < t.day)))
    ensures DayNumber(s.year, s.month, s.day) < DayNumber(t.year, t.month, t.day)
  {
    DayWithinYear(s);
    DayWithinYear(t);
    if s.year < t.year {
      YearsPrecede(s.year, t.year);
    } else if s.month < t.month {
      MonthsPrecede(s.year, s.month, t.month);
    }
  }

  /** Where two tuples first differ, the smaller tuple holds the smaller number. */
  lemma {:induction false} FirstDifference(a: seq<nat>, b: seq<nat>) returns (k: nat)
    requires |a| == |b| && TupleLess(a, b)
    ensures k < |a| && a[k] < b[k] && forall i | 0 <= i < k :: a[i] == b[i]
  {
    if a[0] < b[0] {
      k := 0;
    } else {
      var j := FirstDifference(a[1..], b[1..]);
      k := j + 1;
      forall i | 0 <= i < k ensures a[i] == b[i] {
        if i > 0 {
          assert a[1..][i - 1] == b[1..][i - 1];
        }
      }
    }
  }

  lemma TupleOrderIsInstantOrder(s: Instant, t: Instant)
    requires ValidInstant(s) && ValidInstant(t)
    requires TupleLess(FieldValues(s), FieldValues(t)) || (FieldValues(s) == FieldValues(t) && s.micro < t.micro)
    ensures Micros(s) < Micros(t)
  {
    var a, b := FieldValues(s), FieldValues(t);
    var k := 6;
    if TupleLess(a, b) {
      k := FirstDifference(a, b);
    }
    assert forall i | 0 <= i < k :: a[i] == b[i];
    if k <= 2 {
      assert k >= 1 ==> a[0] == b[0];
      assert k >= 2 ==> a[1] == b[1];
      DayNumberOrder(s, t);
      assert DayNumber(s.year, s.month, s.day) + 1 <= DayNumber(t.year, t.month, t.day);
    } else {
      assert a[0] == b[0] && a[1] == b[1] && a[2] == b[2];
      assert k >= 4 ==> a[3] == b[3];
      assert k >= 5 ==> a[4] == b[4];
      assert k >= 6 ==> a[5] == b[5];
    }
  }

  lemma {:induction false} TupleTotal(a: seq<nat>, b: seq<nat>)
    requires |a| == |b|
    ensures TupleLess(a, b) || a == b || TupleLess(b, a)
  {
    if a != [] {
      TupleTotal(a[1..], b[1..]);
      assert a == [a[0]] + a[1..] && b == [b[0]] + b[1..];
    }
  }

  /**
   The text comparison `IsoFormat(s) < IsoFormat(t)` that SQL performs decides
   exactly whether instant `s` is before instant `t`, with or without a
   fraction on either side; and equal texts denote equal instants.
   */
  lemma TextOrderIsInstantOrder(s: Instant, t: Instant)
    requires ValidInstant(s) && ValidInstant(t)
    ensures TextLess(IsoFormat(s), IsoFormat(t)) <==> Micros(s) < Micros(t)
    ensures IsoFormat(s) == IsoFormat(t) <==> Micros(s) == Micros(t)
  {
    var a, b := FieldValues(s), FieldValues(t);
    assert Pow10(2) == 100 && Pow10(4) == 10000 by {
      assert Pow10(1) == 10 && Pow10(3) == 1000;
    }
    FixedTextOrder(a, b, LAYOUT, Fraction(s.micro), Fraction(t.micro));
    FixedTextOrder(b, a, LAYOUT, Fraction(t.micro), Fraction(s.micro));
    FractionOrder(s.micro, t.micro);
    FractionOrder(t.micro, s.micro);
    TupleTotal(a, b);
    if TextLess(IsoFormat(s), IsoFormat(t)) {
      TupleOrderIsInstantOrder(s, t);
      TextLessIrreflexive(IsoFormat(s));
    } else if TextLess(IsoFormat(t), IsoFormat(s)) {
      TupleOrderIsInstantOrder(t, s);
      TextLessIrreflexive(IsoFormat(s));
    } else {
      assert a == b && s.micro == t.micro;
      assert s == t by {
        assert a[0] == b[0] && a[1] == b[1] && a[2] == b[2] && a[3] == b[3] && a[4] == b[4] && a[5] == b[5];
      }
    }
  }
}
