/**
 UTF-8 as the key decoder meets it: sections 3 and 4 of RFC 3629, with the three answers of
 utf8.FullRune and utf8.DecodeRune taken together.
 */
module Utf8 {
  import opened Bytes

  /** Unicode scalar values: every code point but the surrogates. */
  predicate IsScalar(r: int) {
    0 <= r < 0xD800 || 0xE000 <= r <= 0x10FFFF
  }

  /** The encoding table of section 3 of RFC 3629. */
  function Encode(r: int): (e: seq<byte>)
    requires IsScalar(r)
    ensures 1 <= |e| <= 4
  {
    if r < 0x80 then [r as byte]
    else if r < 0x800 then [(0xC0 + r / 64) as byte, (0x80 + r % 64) as byte]
    else if r < 0x10000 then
      [(0xE0 + r / 4096) as byte, (0x80 + r / 64 % 64) as byte, (0x80 + r % 64) as byte]
    else
      [(0xF0 + r / 262144) as byte, (0x80 + r / 4096 % 64) as byte, (0x80 + r / 64 % 64) as byte,
       (0x80 + r % 64) as byte]
  }

  /** Partial: the rest may still come. Bad: one byte that starts no rune. */
  datatype Rune = Partial | Bad | Scalar(r: int, size: nat)

  /** Length announced by a first byte, 0 for a byte that never starts a sequence. */
  function Announced(b: byte): nat {
    if b < 0x80 then 1
    else if 0xC2 <= b <= 0xDF then 2
    else if 0xE0 <= b <= 0xEF then 3
    else if 0xF0 <= b <= 0xF4 then 4
    else 0
  }

  predicate IsTail(b: byte) {
    0x80 <= b <= 0xBF
  }

  /** Which second bytes the grammar of section 4 allows after a given first byte. */
  predicate SecondFits(first: byte, b: byte) {
    && (if first == 0xE0 then 0xA0 else if first == 0xF0 then 0x90 else 0x80) <= b
    && b <= (if first == 0xED then 0x9F else if first == 0xF4 then 0x8F else 0xBF)
  }

  function First(b: seq<byte>): (r: Rune)
    requires b != []
    ensures r.Scalar? ==> 1 <= r.size <= |b| && r.size <= 4
  {
    var n := Announced(b[0]);
    if n == 0 then Bad
    else if n == 1 then Scalar(b[0] as int, 1)
    else if |b| > 1 && !SecondFits(b[0], b[1]) then Bad
    else if n > 2 && |b| > 2 && !IsTail(b[2]) then Bad
    else if |b| < n then Partial
    else if n == 2 then Scalar((b[0] as int - 0xC0) * 64 + (b[1] as int - 0x80), 2)
    else if n == 3 then
      Scalar((b[0] as int - 0xE0) * 4096 + (b[1] as int - 0x80) * 64 + (b[2] as int - 0x80), 3)
    else if !IsTail(b[3]) then Bad
    else
      Scalar((b[0] as int - 0xF0) * 262144 + (b[1] as int - 0x80) * 4096
             + (b[2] as int - 0x80) * 64 + (b[3] as int - 0x80), 4)
  }

  lemma {:induction false} FirstIsStable(b: seq<byte>, c: seq<byte>)
    requires b != [] && !First(b).Partial?
    ensures First(b + c) == First(b)
  {
  }

  lemma {:induction false} LowDigit(q: int, d: int)
    requires 0 <= q && 0 <= d < 64
    ensures (q * 64 + d) / 64 == q && (q * 64 + d) % 64 == d
  {
  }

  lemma {:induction false} DigitsOff(r: int)
    requires r >= 0
    ensures r / 64 / 64 == r / 4096 && r / 4096 / 64 == r / 262144
  {
  }

  /** The base-64 digits of a code point, lowest last. */
  lemma {:induction false} Digits(a: int, b: int, c: int, d: int)
    requires 0 <= a && 0 <= b < 64 && 0 <= c < 64 && 0 <= d < 64
    ensures var r := a * 262144 + b * 4096 + c * 64 + d;
            r % 64 == d && r / 64 % 64 == c && r / 4096 % 64 == b && r / 4096 == a * 64 + b
            && r / 64 == a * 4096 + b * 64 + c && r / 262144 == a
  {
    var r := a * 262144 + b * 4096 + c * 64 + d;
    DigitsOff(r);
    LowDigit(a * 4096 + b * 64 + c, d);
    LowDigit(a * 64 + b, c);
    LowDigit(a, b);
  }

  lemma {:induction false} LetterEndsPartial(b: seq<byte>)
    requires b != [] && First(b).Partial?
    ensures First(b + [0x41]) == Bad
  {
  }

  /** Decoding is exactly the inverse of the encoding table. */
  lemma {:induction false} FirstOfEncoding(r: int, rest: seq<byte>)
    requires IsScalar(r)
    ensures First(Encode(r) + rest) == Scalar(r, |Encode(r)|)
  {
    hide First;
    FirstOfLone(r);
    FirstIsStable(Encode(r), rest);
  }

  lemma {:induction false} FirstOfTwo(c: int, d: int)
    requires 2 <= c < 32 && 0 <= d < 64
    ensures First([(0xC0 + c) as byte, (0x80 + d) as byte]) == Scalar(c * 64 + d, 2)
  {
  }

  lemma {:induction false} FirstOfThree(b: int, c: int, d: int)
    requires 0 <= b < 16 && 0 <= c < 64 && 0 <= d < 64 && (b == 0 ==> c >= 32) && (b == 13 ==> c < 32)
    ensures First([(0xE0 + b) as byte, (0x80 + c) as byte, (0x80 + d) as byte]) == Scalar(b * 4096 + c * 64 + d, 3)
  {
  }

  lemma {:induction false} FirstOfFour(a: int, b: int, c: int, d: int)
    requires 0 <= a < 5 && 0 <= b < 64 && 0 <= c < 64 && 0 <= d < 64 && (a == 0 ==> b >= 16) && (a == 4 ==> b < 16)
    ensures First([(0xF0 + a) as byte, (0x80 + b) as byte, (0x80 + c) as byte, (0x80 + d) as byte])
            == Scalar(a * 262144 + b * 4096 + c * 64 + d, 4)
  {
  }

  lemma {:induction false} FirstOfOne(r: int)
    requires 0 <= r < 0x80
    ensures First([r as byte]) == Scalar(r, 1)
  {
  }

  lemma {:induction false} FirstOfLone(r: int)
    requires IsScalar(r)
    ensures First(Encode(r)) == Scalar(r, |Encode(r)|)
  {
    hide First;
    var x, d := r / 64, r % 64;
    var y, c := x / 64, x % 64;
    var a, b := y / 64, y % 64;
    Digits(a, b, c, d);
    if r < 0x80 {
      FirstOfOne(r);
    } else if r < 0x800 {
      FirstOfTwo(x, d);
    } else if r < 0x10000 {
      FirstOfThree(y, c, d);
    } else {
      FirstOfFour(a, b, c, d);
    }
  }

  lemma {:induction false} ScalarIsEncoded(b: seq<byte>)
    requires b != [] && First(b).Scalar?
    ensures IsScalar(First(b).r) && b[..First(b).size] == Encode(First(b).r)
  {
    hide First, Encode, IsScalar;
    match First(b).size
    case 1 => ShortIsEncoded(b);
    case 2 => ShortIsEncoded(b);
    case 3 => ThreeIsEncoded(b);
    case _ => FourIsEncoded(b);
  }

  lemma {:induction false} ShortIsEncoded(b: seq<byte>)
    requires b != [] && First(b).Scalar? && First(b).size <= 2
    ensures IsScalar(First(b).r) && b[..First(b).size] == Encode(First(b).r)
  {
    if First(b).size == 2 {
      LowDigit(b[0] as int - 0xC0, b[1] as int - 0x80);
    }
  }

  lemma {:induction false} ThreeIsEncoded(b: seq<byte>)
    requires |b| >= 3 && First(b).Scalar? && First(b).size == 3
    ensures IsScalar(First(b).r) && b[..3] == Encode(First(b).r)
  {
    Digits(0, b[0] as int - 0xE0, b[1] as int - 0x80, b[2] as int - 0x80);
  }

  lemma {:induction false} FourIsEncoded(b: seq<byte>)
    requires |b| >= 4 && First(b).Scalar? && First(b).size == 4
    ensures IsScalar(First(b).r) && b[..4] == Encode(First(b).r)
  {
    Digits(b[0] as int - 0xF0, b[1] as int - 0x80, b[2] as int - 0x80, b[3] as int - 0x80);
  }

  /** A byte inside a sequence starts nothing of its own. */
  lemma {:induction false} TailIsBad(b: seq<byte>)
    requires b != [] && IsTail(b[0])
    ensures First(b) == Bad
  {
  }

  lemma {:induction false} RestIsTails(b: seq<byte>)
    requires b != [] && !First(b).Bad?
    ensures forall i | 1 <= i < |b| && i < Announced(b[0]) :: IsTail(b[i])
    ensures First(b).Scalar? ==> First(b).size == Announced(b[0])
    ensures First(b).Partial? ==> |b| < Announced(b[0])
  {
  }
}
