/**
 The terminal-key decoder (cmd/arxi/design.go): the first key of a buffer, or the news that not
 all of it is there yet. Control sequences follow section 5.4 of ECMA-48.
 */
module Keys {
  import opened Bytes
  import Utf8

  datatype Key =
    | Up | Down | Left | Right | Home | End | Delete | BackTab
    | Tab | Enter | Backspace | Esc | Interrupt
    | Typed(r: int)

  /** decode's three outcomes; a sequence this designer has no answer for carries no key. */
  datatype Decoded = Incomplete | Consumed(used: nat, key: Option<Key>)

  const ESC: byte := 0x1B
  const BRACKET: byte := 0x5B
  const SS3: byte := 0x4F

  predicate IsParam(b: byte) { 0x30 <= b <= 0x3F }
  predicate IsInter(b: byte) { 0x20 <= b <= 0x2F }
  predicate IsFinal(b: byte) { 0x40 <= b <= 0x7E }
  predicate IsDigit(b: byte) { 0x30 <= b <= 0x39 }

  function FinalKey(c: byte): Option<Key> {
    if c == 0x41 then Some(Up)
    else if c == 0x42 then Some(Down)
    else if c == 0x43 then Some(Right)
    else if c == 0x44 then Some(Left)
    else if c == 0x48 then Some(Home)
    else if c == 0x46 then Some(End)
    else if c == 0x5A then Some(BackTab)
    else None
  }

  /** First index at or after i that is not a parameter byte. */
  function ParamEnd(b: seq<byte>, i: nat): (e: nat)
    requires i <= |b|
    ensures i <= e <= |b| && (e < |b| ==> !IsParam(b[e]))
    ensures forall k | i <= k < e :: IsParam(b[k])
    decreases |b| - i
  {
    if i < |b| && IsParam(b[i]) then ParamEnd(b, i + 1) else i
  }

  /** First index at or after i that is not an intermediate byte. */
  function InterEnd(b: seq<byte>, i: nat): (e: nat)
    requires i <= |b|
    ensures i <= e <= |b| && (e < |b| ==> !IsInter(b[e]))
    ensures forall k | i <= k < e :: IsInter(b[k])
    decreases |b| - i
  {
    if i < |b| && IsInter(b[i]) then InterEnd(b, i + 1) else i
  }

  /** int64 arithmetic: the value a Go int holds after wrapping. */
  function Signed64(v: int): int {
    (v + 0x8000_0000_0000_0000) % 0x1_0000_0000_0000_0000 - 0x8000_0000_0000_0000
  }

  /** The leading digits of the parameters, read as an unbounded decimal. */
  function Leading(params: seq<byte>): nat {
    LeadingFrom(0, params)
  }

  function LeadingFrom(n: nat, params: seq<byte>): nat
    decreases |params|
  {
    if params == [] || !IsDigit(params[0]) then n
    else LeadingFrom(n * 10 + (params[0] as int - 0x30), params[1..])
  }

  /** csiNumber. The result is a machine integer, so a long run of digits wraps. */
  function CsiNumber(params: seq<byte>): int {
    Signed64(Leading(params))
  }

  /** What a control sequence with these parameters and this final byte means. */
  function CsiKey(params: seq<byte>, final: byte): Option<Key> {
    if FinalKey(final).Some? then FinalKey(final)
    else if final == 0x7E then
      var n := CsiNumber(params);
      if n == 1 || n == 7 then Some(Home)
      else if n == 4 || n == 8 then Some(End)
      else if n == 3 then Some(Delete)
      else None
    else None
  }

  function DecodeCSI(b: seq<byte>): Decoded
    requires |b| >= 2
  {
    var p := ParamEnd(b, 2);
    var i := InterEnd(b, p);
    if i == |b| then Incomplete
    else if !IsFinal(b[i]) then Consumed(i + 1, None)
    else Consumed(i + 1, CsiKey(b[2..p], b[i]))
  }

  function DecodeEsc(b: seq<byte>): Decoded
    requires b != []
  {
    if |b| < 2 then Incomplete
    else if b[1] == ESC then Consumed(1, Some(Esc))
    else if b[1] == BRACKET then DecodeCSI(b)
    else if b[1] == SS3 then
      if |b| < 3 then Incomplete else Consumed(3, FinalKey(b[2]))
    else
      match Utf8.First(b[1..])
      case Partial => Incomplete
      case Bad => Consumed(2, None)
      case Scalar(_, n) => Consumed(1 + n, None)
  }

  function Decode(b: seq<byte>): (d: Decoded)
    ensures d.Consumed? ==> 1 <= d.used <= |b|
  {
    if b == [] then Incomplete
    else if b[0] == ESC then DecodeEsc(b)
    else if b[0] == 0x03 then Consumed(1, Some(Interrupt))
    else if b[0] == 0x0D || b[0] == 0x0A then Consumed(1, Some(Enter))
    else if b[0] == 0x09 then Consumed(1, Some(Tab))
    else if b[0] == 0x7F || b[0] == 0x08 then Consumed(1, Some(Backspace))
    else if b[0] < 0x20 then Consumed(1, None)
    else
      match Utf8.First(b)
      case Partial => Incomplete
      case Bad => Consumed(1, None)
      case Scalar(r, n) => Consumed(n, Some(Typed(r)))
  }

  // ------------------------------------------------------------------ the loops of the source

  lemma {:induction false} WrapStep(v: int, d: int)
    ensures Signed64(Signed64(v) * 10 + d) == Signed64(v * 10 + d)
  {
    var q := (v + 0x8000_0000_0000_0000) / 0x1_0000_0000_0000_0000;
    assert Signed64(v) == v - q * 0x1_0000_0000_0000_0000;
  }

  method CsiNumberLoop(params: seq<byte>) returns (n: int)
    ensures n == CsiNumber(params)
  {
    n := 0;
    ghost var value: nat := 0;
    var i := 0;
    assert params[0..] == params;
    while i < |params|
      invariant 0 <= i <= |params| && n == Signed64(value)
      invariant LeadingFrom(value, params[i..]) == Leading(params)
    {
      if !IsDigit(params[i]) {
        return;
      }
      WrapStep(value, params[i] as int - 0x30);
      n := Signed64(n * 10 + (params[i] as int - 0x30));
      value := value * 10 + (params[i] as int - 0x30);
      assert params[i..][1..] == params[i + 1..];
      i := i + 1;
    }
  }

  method DecodeCSILoop(b: seq<byte>) returns (d: Decoded)
    requires |b| >= 2
    ensures d == DecodeCSI(b)
  {
    var i := 2;
    while i < |b| && IsParam(b[i])
      invariant 2 <= i <= |b| && ParamEnd(b, i) == ParamEnd(b, 2)
    {
      i := i + 1;
    }
    var params := b[2..i];
    while i < |b| && IsInter(b[i])
      invariant ParamEnd(b, 2) <= i <= |b| && InterEnd(b, i) == InterEnd(b, ParamEnd(b, 2))
    {
      i := i + 1;
    }
    if i == |b| {
      return Incomplete;
    }
    if !IsFinal(b[i]) {
      return Consumed(i + 1, None);
    }
    var k := FinalKey(b[i]);
    if k.Some? {
      return Consumed(i + 1, k);
    }
    if b[i] == 0x7E {
      var n := CsiNumberLoop(params);
      if n == 1 || n == 7 {
        return Consumed(i + 1, Some(Home));
      } else if n == 4 || n == 8 {
        return Consumed(i + 1, Some(End));
      } else if n == 3 {
        return Consumed(i + 1, Some(Delete));
      }
    }
    return Consumed(i + 1, None);
  }

  // ------------------------------------------------------------------ prefix stability

  lemma {:induction false} ParamEndStable(b: seq<byte>, c: seq<byte>, i: nat)
    requires i <= |b| && ParamEnd(b, i) < |b|
    ensures ParamEnd(b + c, i) == ParamEnd(b, i)
    decreases |b| - i
  {
    if i < |b| && IsParam(b[i]) {
      ParamEndStable(b, c, i + 1);
    }
  }

  lemma {:induction false} InterEndStable(b: seq<byte>, c: seq<byte>, i: nat)
    requires i <= |b| && InterEnd(b, i) < |b|
    ensures InterEnd(b + c, i) == InterEnd(b, i)
    decreases |b| - i
  {
    if i < |b| && IsInter(b[i]) {
      InterEndStable(b, c, i + 1);
    }
  }

  lemma {:induction false} CsiIsStable(b: seq<byte>, c: seq<byte>)
    requires |b| >= 2 && DecodeCSI(b).Consumed?
    ensures DecodeCSI(b + c) == DecodeCSI(b)
  {
    var p := ParamEnd(b, 2);
    ParamEndStable(b, c, 2);
    InterEndStable(b, c, p);
    assert (b + c)[2..p] == b[2..p];
  }

  /** Once an answer is given, more bytes do not change it. */
  lemma {:induction false} DecodeIsStable(b: seq<byte>, c: seq<byte>)
    requires Decode(b).Consumed?
    ensures Decode(b + c) == Decode(b)
  {
    hide DecodeCSI;
    if b[0] == ESC {
      if b[1] == BRACKET {
        CsiIsStable(b, c);
      } else if b[1] != ESC && b[1] != SS3 {
        assert (b + c)[1..] == b[1..] + c;
        Utf8.FirstIsStable(b[1..], c);
      }
    } else if 0x20 <= b[0] {
      Utf8.FirstIsStable(b, c);
    }
  }

  // ------------------------------------------------------------------ control sequences

  ghost predicate AllParam(b: seq<byte>) {
    forall i | 0 <= i < |b| :: IsParam(b[i])
  }

  ghost predicate AllInter(b: seq<byte>) {
    forall i | 0 <= i < |b| :: IsInter(b[i])
  }

  lemma {:induction false} ParamEndIs(b: seq<byte>, i: nat, e: nat)
    requires i <= e <= |b| && (forall k | i <= k < e :: IsParam(b[k])) && (e < |b| ==> !IsParam(b[e]))
    ensures ParamEnd(b, i) == e
    decreases |b| - i
  {
    if i < e {
      ParamEndIs(b, i + 1, e);
    }
  }

  lemma {:induction false} InterEndIs(b: seq<byte>, i: nat, e: nat)
    requires i <= e <= |b| && (forall k | i <= k < e :: IsInter(b[k])) && (e < |b| ==> !IsInter(b[e]))
    ensures InterEnd(b, i) == e
    decreases |b| - i
  {
    if i < e {
      InterEndIs(b, i + 1, e);
    }
  }

  /**
   Every well-formed control sequence of section 5.4 of ECMA-48 is consumed exactly whole and
   is never typed: its key depends on the final byte and the leading number alone.
   */
  lemma {:induction false} ControlSequenceIsWhole(params: seq<byte>, inters: seq<byte>, final: byte, rest: seq<byte>)
    requires AllParam(params) && AllInter(inters) && IsFinal(final)
    ensures var s := [ESC, BRACKET] + params + inters + [final];
            Decode(s + rest) == Consumed(|s|, CsiKey(params, final))
    ensures CsiKey(params, final).Some? ==> !CsiKey(params, final).value.Typed?
  {
    hide CsiKey;
    var s := [ESC, BRACKET] + params + inters + [final];
    var b := s + rest;
    var p, i := 2 + |params|, 2 + |params| + |inters|;
    assert forall k | 2 <= k < p :: b[k] == params[k - 2];
    assert forall k | p <= k < i :: b[k] == inters[k - p];
    assert b[i] == final;
    ParamEndIs(b, 2, p);
    InterEndIs(b, p, i);
    assert b[2..p] == params;
    CsiKeyIsNamed(params, final);
  }

  lemma {:induction false} CsiKeyIsNamed(params: seq<byte>, final: byte)
    ensures CsiKey(params, final).Some? ==> !CsiKey(params, final).value.Typed? && !CsiKey(params, final).value.Esc?
  {
  }

  /** Nothing wedges the stream: whatever is pending, one more letter lets it move. */
  lemma {:induction false} OneLetterUnblocks(b: seq<byte>)
    requires b != [] && Decode(b).Incomplete?
    ensures Decode(b + [0x41]).Consumed?
  {
    var c := b + [0x41];
    if b[0] != ESC && Utf8.First(b).Partial? {
      Utf8.LetterEndsPartial(b);
    }
    assert c[1..] == b[1..] + [0x41];
    if b[0] == ESC && |b| >= 2 {
      if b[1] == BRACKET {
        var p := ParamEnd(b, 2);
        var i := InterEnd(b, p);
        assert i == |b|;
        var p' := ParamEnd(c, 2);
        assert !IsParam(c[|b|]) && !IsInter(c[|b|]);
        var i' := InterEnd(c, p');
      } else if b[1] != ESC && b[1] != SS3 {
        Utf8.LetterEndsPartial(b[1..]);
      }
    }
  }
}
