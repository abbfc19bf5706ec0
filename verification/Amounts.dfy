/**
 Confirmed spend as an exact decimal: amountFromRuntimeUSD (cmd/arxi/scheduler.go) from the
 digits FormatFloat printed, and NewAmount (internal/job/types.go). The conversion of the float
 to those digits is not part of this model.
 */
module Amounts {
  import opened Bytes

  /** coefficient * 10^-scale, coefficient a uint64 and scale a uint8. */
  datatype Amount = Amount(coefficient: nat, scale: nat)

  function Pow10(n: nat): (p: nat)
    ensures p >= 1
  {
    if n == 0 then 1 else 10 * Pow10(n - 1)
  }

  predicate IsDigit(c: char) {
    '0' <= c <= '9'
  }

  function Digit(c: char): nat
    requires IsDigit(c)
  {
    (c - '0') as nat
  }

  /** What FormatFloat(value, 'f', 9, 64) prints for a finite value: digits, a point, nine digits. */
  predicate Printed(text: string) {
    |text| >= 11 && forall i | 0 <= i < |text| :: if i == |text| - 10 then text[i] == '.' else IsDigit(text[i])
  }

  /** The number a string of digits denotes, points skipped: for a printed decimal, its billionths. */
  function Billionths(text: string): nat
    requires forall i | 0 <= i < |text| :: IsDigit(text[i]) || text[i] == '.'
    decreases |text|
  {
    if text == [] then 0
    else
      var n := |text| - 1;
      if text[n] == '.' then Billionths(text[..n]) else 10 * Billionths(text[..n]) + Digit(text[n])
  }

  function Scaled(coefficient: nat, places: nat): nat {
    coefficient * Pow10(places)
  }

  /** a is coefficient * 10^-scale, written with no more places. */
  predicate SameValue(a: Amount, coefficient: nat, scale: nat) {
    a.scale <= scale && Scaled(a.coefficient, scale - a.scale) == coefficient
  }

  /** The amount stands for v billionths. */
  predicate Denotes(a: Amount, v: nat) {
    SameValue(a, v, 9)
  }

  /** Canonical, and zero written one way only. */
  predicate Normal(a: Amount) {
    (a.scale == 0 || a.coefficient % 10 != 0) && (a.coefficient == 0 ==> a.scale == 0)
  }

  method NewAmount(coefficient: nat, scale: nat) returns (a: Amount)
    requires coefficient < TWO64 && scale < 256
    ensures Normal(a) && a.coefficient < TWO64
    ensures SameValue(a, coefficient, scale)
  {
    if coefficient == 0 {
      assert Scaled(0, scale) == 0;
      return Amount(0, 0);
    }
    var c: nat, s: nat := coefficient, scale;
    assert Scaled(c, 0) == coefficient;
    hide Scaled, Pow10;
    while c % 10 == 0 && s > 0
      invariant 0 < c < TWO64 && s <= scale
      invariant Scaled(c, scale - s) == coefficient
    {
      Shift(c, scale - s);
      c := c / 10;
      s := s - 1;
    }
    return Amount(c, s);
  }

  lemma {:induction false} Shift(c: nat, k: nat)
    requires c % 10 == 0
    ensures Scaled(c / 10, k + 1) == Scaled(c, k)
  {
    Regroup(c / 10, 10, Pow10(k));
  }

  lemma {:induction false} Regroup(x: nat, y: nat, z: nat)
    ensures x * (y * z) == (x * y) * z
  {
  }

  /** One digit more, computed modulo 2^64. */
  lemma {:induction false} WrapDigit(v: nat, d: nat)
    ensures ((v % TWO64) * 10 + d) % TWO64 == (10 * v + d) % TWO64
  {
    var q, r := v / TWO64, v % TWO64;
    assert 10 * v + d == r * 10 + d + TWO64 * (10 * q);
    ModuloMultiple(r * 10 + d, 10 * q);
  }

  lemma {:induction false} ModuloMultiple(x: nat, k: nat)
    ensures (x + TWO64 * k) % TWO64 == x % TWO64
    decreases k
  {
    if k > 0 {
      ModuloMultiple(x, k - 1);
      assert x + TWO64 * k == (x + TWO64 * (k - 1)) + TWO64;
    }
  }

  lemma {:induction false} BillionthsNext(text: string, i: nat)
    requires Printed(text) && i < |text|
    ensures Billionths(text[..0]) == 0
    ensures var before := Billionths(text[..i]);
            Billionths(text[..i + 1]) == if text[i] == '.' then before else 10 * before + Digit(text[i])
  {
    assert text[..i + 1][..i] == text[..i];
  }

  /** One character more, as the loop computes it. */
  lemma {:induction false} WrapNext(text: string, i: nat, c: nat)
    requires Printed(text) && i < |text| && c == Billionths(text[..i]) % TWO64
    ensures text[i] == '.' ==> c == Billionths(text[..i + 1]) % TWO64
    ensures text[i] != '.' ==> (c * 10 + Digit(text[i])) % TWO64 == Billionths(text[..i + 1]) % TWO64
  {
    hide Billionths, Digit;
    BillionthsNext(text, i);
    if text[i] != '.' {
      WrapDigit(Billionths(text[..i]), Digit(text[i]));
    }
  }

  lemma {:induction false} WrapsIff(a: Amount, v: nat)
    requires SameValue(a, v % TWO64, 9)
    ensures Denotes(a, v % TWO64) && (Denotes(a, v) <==> v < TWO64)
  {
    hide Scaled, Pow10;
  }

  /**
   The digit loop, uint64 arithmetic and all. The amount is the printed decimal if and only if
   that is at most 18446744073.709551615; above it the coefficient has wrapped.
   */
  method AmountFromDigits(text: string) returns (a: Amount)
    requires Printed(text)
    ensures Normal(a)
    ensures Denotes(a, Billionths(text) % TWO64)
    ensures Denotes(a, Billionths(text)) <==> Billionths(text) <= 18446744073_709551615
  {
    hide Billionths, Denotes, Normal, Digit;
    var coefficient: nat, scale, fraction := 0, 0, false;
    BillionthsNext(text, 0);
    for i := 0 to |text|
      invariant coefficient < TWO64 && coefficient == Billionths(text[..i]) % TWO64
      invariant fraction <==> i > |text| - 10
      invariant scale == if fraction then i - (|text| - 9) else 0
    {
      WrapNext(text, i, coefficient);
      if text[i] == '.' {
        fraction := true;
        continue;
      }
      coefficient := (coefficient * 10 + Digit(text[i])) % TWO64;
      if fraction {
        scale := (scale + 1) % 256;
      }
    }
    assert text[..|text|] == text;
    a := NewAmount(coefficient, scale);
    WrapsIff(a, Billionths(text));
  }

  /** Equal values have one representation. */
  lemma {:induction false} OneRepresentation(a: Amount, b: Amount, v: nat)
    requires Normal(a) && Normal(b) && Denotes(a, v) && Denotes(b, v)
    ensures a == b
  {
    if a.scale < b.scale {
      CoarserIsMultiple(a, b, v);
    } else if b.scale < a.scale {
      CoarserIsMultiple(b, a, v);
    } else {
      SameFactor(a.coefficient, b.coefficient, Pow10(9 - a.scale));
    }
  }

  lemma {:induction false} TimesMonotone(x: nat, y: nat, p: nat)
    ensures x <= y ==> x * p <= y * p
    ensures p > 0 && x < y ==> x * p < y * p
  {
    if x <= y {
      assert y * p == x * p + (y - x) * p;
    }
  }

  lemma {:induction false} SameFactor(x: nat, y: nat, p: nat)
    requires x * p == y * p && p > 0
    ensures x == y
  {
    TimesMonotone(x, y, p);
    TimesMonotone(y, x, p);
  }

  lemma {:induction false} CoarserIsMultiple(a: Amount, b: Amount, v: nat)
    requires Denotes(a, v) && Denotes(b, v) && a.scale < b.scale
    ensures b.coefficient % 10 == 0
  {
    hide Pow10;
    var k := b.scale - a.scale;
    Rescaled(a.coefficient, 9 - b.scale, k);
    SameFactor(b.coefficient, Scaled(a.coefficient, k), Pow10(9 - b.scale));
    ScaledIsMultiple(a.coefficient, k);
  }

  lemma {:induction false} Rescaled(c: nat, m: nat, n: nat)
    ensures Scaled(c, m + n) == Scaled(c, n) * Pow10(m)
  {
    hide Pow10;
    PowAdd(m, n);
    Regroup(c, Pow10(n), Pow10(m));
  }

  lemma {:induction false} PowNext(k: nat)
    ensures Pow10(0) == 1 && (k > 0 ==> Pow10(k) == 10 * Pow10(k - 1))
  {
  }

  lemma {:induction false} ScaledIsMultiple(c: nat, k: nat)
    requires k > 0
    ensures Scaled(c, k) % 10 == 0
  {
    hide Pow10;
    PowNext(k);
    Regroup(c, Pow10(k - 1), 10);
    MultipleOfTen(c * Pow10(k - 1));
  }

  lemma {:induction false} MultipleOfTen(x: nat)
    ensures x * 10 % 10 == 0
  {
  }

  lemma {:induction false} PowAdd(m: nat, n: nat)
    ensures Pow10(m + n) == Pow10(n) * Pow10(m)
    decreases n
  {
    if n > 0 {
      PowAdd(m, n - 1);
    }
  }

  // ---------------------------------------------------------------- printing, as the digits say it

  function CharOf(d: nat): (c: char)
    requires d < 10
    ensures IsDigit(c) && Digit(c) == d
  {
    '0' + d as char
  }

  /** The last k digits of v. */
  function Tail(v: nat, k: nat): (s: string)
    ensures |s| == k && forall i | 0 <= i < k :: IsDigit(s[i])
  {
    if k == 0 then "" else Tail(v / 10, k - 1) + [CharOf(v % 10)]
  }

  function Whole(v: nat): (s: string)
    ensures |s| >= 1 && forall i | 0 <= i < |s| :: IsDigit(s[i])
  {
    if v < 10 then [CharOf(v)] else Whole(v / 10) + [CharOf(v % 10)]
  }

  /** v billionths of a dollar with nine places. */
  function Print(v: nat): string {
    Whole(v / Pow10(9)) + "." + Tail(v, 9)
  }

  lemma {:induction false} TailDenotes(head: string, v: nat, k: nat)
    requires forall i | 0 <= i < |head| :: IsDigit(head[i]) || head[i] == '.'
    requires Billionths(head) == v / Pow10(k)
    ensures Billionths(head + Tail(v, k)) == v
    decreases k
  {
    hide Billionths, Pow10;
    if k == 0 {
      PowNext(0);
      assert head + Tail(v, 0) == head;
    } else {
      hide Tail;
      DivideOnce(v, k);
      TailDenotes(head, v / 10, k - 1);
      OneDigitMore(head, v, k);
    }
  }

  lemma {:induction false} OneDigitMore(head: string, v: nat, k: nat)
    requires k > 0 && forall i | 0 <= i < |head| :: IsDigit(head[i]) || head[i] == '.'
    ensures Billionths(head + Tail(v, k)) == 10 * Billionths(head + Tail(v / 10, k - 1)) + v % 10
  {
    var all := head + Tail(v, k);
    assert all[..|all| - 1] == head + Tail(v / 10, k - 1);
  }

  lemma {:induction false} DivideOnce(v: nat, k: nat)
    requires k > 0
    ensures v / 10 / Pow10(k - 1) == v / Pow10(k)
  {
    hide Pow10;
    PowNext(k);
    var p := Pow10(k - 1);
    DivisionSplits(v / 10, p);
    Regroup(v / 10 / p, 10, p);
    Quotient(v, 10 * p, v / 10 / p, 10 * (v / 10 % p) + v % 10);
  }

  lemma {:induction false} DivisionSplits(v: nat, p: nat)
    requires p > 0
    ensures v == (v / p) * p + v % p && v % p < p
  {
  }

  lemma {:induction false} Quotient(v: nat, p: nat, q: nat, r: nat)
    requires v == q * p + r && r < p
    ensures v / p == q
  {
    DivisionSplits(v, p);
    Between(v, p, q, v / p);
  }

  lemma {:induction false} Between(v: nat, p: nat, q: nat, d: nat)
    requires q * p <= v < q * p + p && d * p <= v < d * p + p
    ensures d == q
  {
    TimesMonotone(d + 1, q, p);
    TimesMonotone(q + 1, d, p);
    assert (d + 1) * p == d * p + p && (q + 1) * p == q * p + p;
  }

  lemma {:induction false} WholeDenotes(v: nat)
    ensures Billionths(Whole(v)) == v
    decreases v
  {
    if v < 10 {
      assert Whole(v)[..0] == "";
    } else {
      WholeDenotes(v / 10);
      assert Whole(v)[..|Whole(v)| - 1] == Whole(v / 10);
    }
  }

  /** Every number of billionths prints to digits the loop reads back as that number. */
  lemma {:induction false} PrintDenotes(v: nat)
    ensures Printed(Print(v)) && Billionths(Print(v)) == v
  {
    var whole := Whole(v / Pow10(9));
    WholeDenotes(v / Pow10(9));
    assert (whole + ".")[..|whole|] == whole;
    TailDenotes(whole + ".", v, 9);
  }
}
