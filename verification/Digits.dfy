/** Decimal digits: fixed-width fields and zero-padded numbers. */
module Digits {
  import opened Basics
  import opened Texts

  function Pow10(w: nat): (p: nat)
    ensures p >= 1
  {
    if w == 0 then 1 else 10 * Pow10(w - 1)
  }

  predicate IsDigit(c: char) {
    '0' <= c <= '9'
  }

  function DigitChar(d: nat): (c: char)
    requires d < 10
    ensures IsDigit(c)
  {
    '0' + d as char
  }

  function DigitValue(c: char): (d: nat)
    requires IsDigit(c)
    ensures d < 10
  {
    (c - '0') as nat
  }

  /** n in exactly w digits. */
  function Field(n: nat, w: nat): (text: string)
    requires n < Pow10(w)
    ensures |text| == w && forall i :: 0 <= i < w ==> IsDigit(text[i])
    decreases w
  {
    if w == 0 then "" else Field(n / 10, w - 1) + [DigitChar(n % 10)]
  }

  /** The number a digit text reads as. */
  function Value(text: string): nat
    requires forall i :: 0 <= i < |text| ==> IsDigit(text[i])
  {
    if text == "" then 0 else 10 * Value(text[..|text| - 1]) + DigitValue(text[|text| - 1])
  }

  lemma {:induction false} FieldReadsBack(n: nat, w: nat)
    requires n < Pow10(w)
    ensures Value(Field(n, w)) == n
    decreases w
  {
    if w > 0 {
      FieldReadsBack(n / 10, w - 1);
      assert Field(n, w)[..w - 1] == Field(n / 10, w - 1);
    }
  }

  /** Texts of one length compare on their own before anything that follows them counts. */
  lemma {:induction false} BelowThenRest(p: string, q: string, a: string, b: string)
    requires |p| == |q|
    ensures Below(p + a, q + b) <==> Below(p, q) || (p == q && Below(a, b))
    decreases |p|
  {
    if p == "" {
      assert p + a == a && q + b == b;
    } else {
      assert (p + a)[1..] == p[1..] + a && (q + b)[1..] == q[1..] + b;
      assert p == [p[0]] + p[1..] && q == [q[0]] + q[1..];
      BelowThenRest(p[1..], q[1..], a, b);
    }
  }

  /** Fixed-width fields compare as their numbers do. */
  lemma {:induction false} FieldOrder(m: nat, n: nat, w: nat)
    requires m < Pow10(w) && n < Pow10(w)
    ensures Below(Field(m, w), Field(n, w)) <==> m < n
    ensures Field(m, w) == Field(n, w) <==> m == n
    decreases w
  {
    FieldReadsBack(m, w);
    FieldReadsBack(n, w);
    if w > 0 {
      FieldOrder(m / 10, n / 10, w - 1);
      BelowThenRest(Field(m / 10, w - 1), Field(n / 10, w - 1), [DigitChar(m % 10)], [DigitChar(n % 10)]);
      LastDigit(m, n);
    }
  }

  lemma LastDigit(m: nat, n: nat)
    ensures m < n <==> m / 10 < n / 10 || (m / 10 == n / 10 && m % 10 < n % 10)
    ensures Below([DigitChar(m % 10)], [DigitChar(n % 10)]) <==> m % 10 < n % 10
  {
  }

  /** A field and its continuation. */
  lemma FieldThenRest(m: nat, n: nat, w: nat, a: string, b: string)
    requires m < Pow10(w) && n < Pow10(w)
    ensures Below(Field(m, w) + a, Field(n, w) + b) <==> m < n || (m == n && Below(a, b))
  {
    FieldOrder(m, n, w);
    BelowThenRest(Field(m, w), Field(n, w), a, b);
  }
}
