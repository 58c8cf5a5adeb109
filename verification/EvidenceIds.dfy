/**
 The ids of static findings: the pattern of the output model is met by the
 assigned ids and by no other text.
 */
module EvidenceIds {
  import opened Common
  import opened Timestamps
  import opened Investigation

  lemma DigitsStep(n: nat, width: nat)
    requires width > 0
    ensures Digits(n, width) == Digits(n / 10, width - 1) + [DigitChar(n % 10)]
  {
  }

  lemma NoDigits(n: nat)
    ensures Digits(n, 0) == ""
  {
  }

  lemma TenTimes(m: nat, d: nat)
    requires d < 10
    ensures (m * 10 + d) / 10 == m && (m * 10 + d) % 10 == d
  {
  }

  lemma AppendedDigit(m: nat, d: nat, width: nat)
    requires d < 10
    ensures Digits(m * 10 + d, width + 1) == Digits(m, width) + [DigitChar(d)]
  {
    hide Digits;
    TenTimes(m, d);
    DigitsStep(m * 10 + d, width + 1);
  }

  lemma ThreeDigits(a: nat, b: nat, c: nat)
    requires a < 10 && b < 10 && c < 10
    ensures Digits((a * 10 + b) * 10 + c, 3) == [DigitChar(a), DigitChar(b), DigitChar(c)]
  {
    hide DigitChar, Digits;
    NoDigits(0);
    AppendedDigit(0, a, 0);
    assert 0 * 10 + a == a;
    AppendedDigit(a, b, 1);
    AppendedDigit(a * 10 + b, c, 2);
    assert ([] + [DigitChar(a)]) + [DigitChar(b)] + [DigitChar(c)] == [DigitChar(a), DigitChar(b), DigitChar(c)];
  }

  lemma CharOfDigit(c: char)
    requires '0' <= c <= '9'
    ensures 0 <= (c - '0') as int < 10 && DigitChar((c - '0') as int) == c
  {
  }

  lemma EvidenceIdIff(id: string)
    ensures IsEvidenceId(id) <==> exists n :: 0 <= n <= 999 && id == EvidenceId(n)
  {
    hide DigitChar, Digits;
    if IsEvidenceId(id) {
      CharOfDigit(id[1]);
      CharOfDigit(id[2]);
      CharOfDigit(id[3]);
      var a, b, c := (id[1] - '0') as int, (id[2] - '0') as int, (id[3] - '0') as int;
      ThreeDigits(a, b, c);
      assert id == "E" + [id[1], id[2], id[3]];
      assert id == EvidenceId((a * 10 + b) * 10 + c);
    }
    if n :| 0 <= n <= 999 && id == EvidenceId(n) {
      EvidenceIdFits(n, n);
    }
  }
}
