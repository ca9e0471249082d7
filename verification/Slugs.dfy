/** The names that identify an attempt: channel files (infrastructure/cline.py), decisions and findings (composition/realization.py). */
module Slugs {
  import opened Basics
  import opened Store
  import opened Texts
  import opened Digits

  function Decimal(n: nat): (text: string)
    ensures text != "" && forall i :: 0 <= i < |text| ==> IsDigit(text[i])
  {
    if n < 10 then [DigitChar(n)] else Decimal(n / 10) + [DigitChar(n % 10)]
  }

  /** At least three digits; more when the number needs them. */
  function Padded(n: nat): (text: string)
    ensures forall i :: 0 <= i < |text| ==> IsDigit(text[i])
  {
    assert Pow10(1) == 10 && Pow10(2) == 100 && Pow10(3) == 1000;
    if n < 1000 then Field(n, 3) else Decimal(n)
  }

  lemma {:induction false} DecimalReadsBack(n: nat)
    ensures Value(Decimal(n)) == n
    decreases n
  {
    if n < 10 {
      assert [DigitChar(n)][..0] == "";
    } else {
      DecimalReadsBack(n / 10);
      assert Decimal(n)[..|Decimal(n)| - 1] == Decimal(n / 10);
    }
  }

  lemma PaddedReadsBack(n: nat)
    ensures Value(Padded(n)) == n
  {
    assert Pow10(1) == 10 && Pow10(2) == 100 && Pow10(3) == 1000;
    if n < 1000 { FieldReadsBack(n, 3); } else { DecimalReadsBack(n); }
  }

  lemma {:induction false} NoLeadingZero(n: nat)
    requires n >= 1
    ensures Decimal(n)[0] != '0'
    ensures n >= 1000 ==> |Decimal(n)| >= 4
    ensures n >= 100 ==> |Decimal(n)| >= 3
    ensures n >= 10 ==> |Decimal(n)| >= 2
    decreases n
  {
    if n >= 10 { NoLeadingZero(n / 10); }
  }

  /** A padded number has at least three digits, reads as itself, and has a leading zero only to fill them. */
  lemma PaddedShape(n: nat)
    ensures |Padded(n)| >= 3 && Value(Padded(n)) == n && (|Padded(n)| > 3 ==> Padded(n)[0] != '0')
  {
    PaddedReadsBack(n);
    if n >= 1000 { NoLeadingZero(n); }
  }

  /** Digits end where the first other character stands. */
  lemma {:induction false} DigitsEnd(p: string, q: string, a: string, b: string)
    requires (forall i :: 0 <= i < |p| ==> IsDigit(p[i])) && (forall i :: 0 <= i < |q| ==> IsDigit(q[i]))
    requires (a != "" ==> !IsDigit(a[0])) && (b != "" ==> !IsDigit(b[0]))
    requires p + a == q + b
    ensures p == q && a == b
    decreases |p|
  {
    StartsWithDigit(p, a);
    StartsWithDigit(q, b);
    if p == "" {
      assert p + a == a && q + b == b;
    } else {
      assert (p + a)[1..] == p[1..] + a && (q + b)[1..] == q[1..] + b;
      DigitsEnd(p[1..], q[1..], a, b);
      assert p == [p[0]] + p[1..] && q == [q[0]] + q[1..];
    }
  }

  lemma StartsWithDigit(p: string, a: string)
    requires (forall i :: 0 <= i < |p| ==> IsDigit(p[i])) && (a != "" ==> !IsDigit(a[0]))
    ensures p != "" <==> p + a != "" && IsDigit((p + a)[0])
  {
  }

  /** A padded number between a common prefix and a continuation that starts with no digit. */
  lemma OneNumber(head: string, m: nat, n: nat, a: string, b: string)
    requires (a != "" ==> !IsDigit(a[0])) && (b != "" ==> !IsDigit(b[0]))
    requires head + (Padded(m) + a) == head + (Padded(n) + b)
    ensures m == n && a == b
  {
    SamePrefix(head, Padded(m) + a, Padded(n) + b);
    DigitsEnd(Padded(m), Padded(n), a, b);
    PaddedReadsBack(m);
    PaddedReadsBack(n);
  }

  lemma Regroup(head: string, x: string, middle: string, y: string, a: string)
    ensures head + x + middle + y + a == head + (x + (middle + (y + a)))
  {
  }

  /** head, step, middle, attempt, tail: with a middle and a tail that do not start with a digit, both numbers can be told. */
  lemma NumbersCanBeTold(head: string, middle: string, m: Key, n: Key, a: string, b: string)
    requires m.stepNo >= 0 && m.attempt >= 0 && n.stepNo >= 0 && n.attempt >= 0
    requires middle != "" && !IsDigit(middle[0]) && (a != "" ==> !IsDigit(a[0])) && (b != "" ==> !IsDigit(b[0]))
    requires head + Padded(m.stepNo) + middle + Padded(m.attempt) + a == head + Padded(n.stepNo) + middle + Padded(n.attempt) + b
    ensures m == n && a == b
  {
    hide Padded, IsDigit;
    Regroup(head, Padded(m.stepNo), middle, Padded(m.attempt), a);
    Regroup(head, Padded(n.stepNo), middle, Padded(n.attempt), b);
    OneNumber(head, m.stepNo, n.stepNo, middle + (Padded(m.attempt) + a), middle + (Padded(n.attempt) + b));
    OneNumber(middle, m.attempt, n.attempt, a, b);
  }

  lemma SamePrefix(p: string, a: string, b: string)
    requires p + a == p + b
    ensures a == b
  {
    assert a == (p + a)[|p|..] && b == (p + b)[|p|..];
  }

  function FileSlug(k: Key): string
    requires k.stepNo >= 0 && k.attempt >= 0
  {
    "step_" + Padded(k.stepNo) + "_attempt_" + Padded(k.attempt)
  }

  function DecisionId(k: Key): string
    requires k.stepNo >= 0 && k.attempt >= 0
  {
    "realization-step-" + Padded(k.stepNo) + "-attempt-" + Padded(k.attempt)
  }

  function FindingId(k: Key, digest: string): string
    requires k.stepNo >= 0 && k.attempt >= 0
  {
    "finding-" + Padded(k.stepNo) + "-" + Padded(k.attempt) + ("-" + digest)
  }

  /** Two attempts never share a channel file, a decision or, given distinct digests, a finding. */
  lemma NamesAreInjective(m: Key, n: Key, a: string, b: string)
    requires m.stepNo >= 0 && m.attempt >= 0 && n.stepNo >= 0 && n.attempt >= 0
    ensures FileSlug(m) == FileSlug(n) ==> m == n
    ensures DecisionId(m) == DecisionId(n) ==> m == n
    ensures FindingId(m, a) == FindingId(n, b) ==> m == n && a == b
  {
    hide Padded;
    if FileSlug(m) == FileSlug(n) {
      assert FileSlug(m) + "" == FileSlug(m) && FileSlug(n) + "" == FileSlug(n);
      NumbersCanBeTold("step_", "_attempt_", m, n, "", "");
    }
    if DecisionId(m) == DecisionId(n) {
      assert DecisionId(m) + "" == DecisionId(m) && DecisionId(n) + "" == DecisionId(n);
      NumbersCanBeTold("realization-step-", "-attempt-", m, n, "", "");
    }
    if FindingId(m, a) == FindingId(n, b) {
      NumbersCanBeTold("finding-", "-", m, n, "-" + a, "-" + b);
      SamePrefix("-", a, b);
    }
  }
}
