/**
 The stream of keys (cmd/arxi/design.go keyStream): reads split the bytes anywhere, `pending`
 survives between them, and a read that ends on exactly one ESC gives it up as the Esc key.
 */
module KeyStreams {
  import opened Bytes
  import opened Keys
  import Utf8

  /** The keys a buffer yields and the bytes that stay pending. */
  datatype Drained = Drained(keys: seq<Key>, rest: seq<byte>)

  function Emit(k: Option<Key>): seq<Key> {
    if k.Some? then [k.value] else []
  }

  function Drain(b: seq<byte>): Drained
    decreases |b|
  {
    match Decode(b)
    case Incomplete => Drained([], b)
    case Consumed(used, key) =>
      var d := Drain(b[used..]);
      Drained(Emit(key) + d.keys, d.rest)
  }

  /** One read: drain, then give up a lone ESC. */
  function Flush(d: Drained): Drained {
    if d.rest == [ESC] then Drained(d.keys + [Esc], []) else d
  }

  function Read(pending: seq<byte>, chunk: seq<byte>): Drained {
    Flush(Drain(pending + chunk))
  }

  function ReadAll(pending: seq<byte>, chunks: seq<seq<byte>>): Drained
    decreases |chunks|
  {
    if chunks == [] then Drained([], pending)
    else
      var first := Read(pending, chunks[0]);
      var more := ReadAll(first.rest, chunks[1..]);
      Drained(first.keys + more.keys, more.rest)
  }

  function Concat(chunks: seq<seq<byte>>): seq<byte> {
    if chunks == [] then [] else chunks[0] + Concat(chunks[1..])
  }

  /** The goroutine's state. */
  class KeyStream {
    var pending: seq<byte>

    constructor ()
      ensures pending == []
    {
      pending := [];
    }

    /** One pass of the loop: append what was read, decode while anything decodes, flush. */
    method Feed(chunk: seq<byte>) returns (out: seq<Key>)
      modifies this
      ensures Drained(out, pending) == Read(old(pending), chunk)
    {
      hide Drain;
      hide Decode;
      pending := pending + chunk;
      ghost var whole := pending;
      out := [];
      while true
        invariant out + Drain(pending).keys == Drain(whole).keys && Drain(pending).rest == Drain(whole).rest
        decreases |pending|
      {
        var d := Decode(pending);
        DrainUnfold(pending);
        if d.Incomplete? {
          break;
        }
        pending := pending[d.used..];
        if d.key.Some? {
          out := out + [d.key.value];
        }
      }
      if |pending| == 1 && pending[0] == ESC {
        pending := [];
        out := out + [Esc];
      }
    }
  }

  // ------------------------------------------------------------------ chunking

  lemma {:induction false} DrainUnfold(b: seq<byte>)
    ensures Decode(b).Incomplete? ==> Drain(b) == Drained([], b)
    ensures Decode(b).Consumed? ==>
              var d := Drain(b[Decode(b).used..]);
              Drain(b) == Drained(Emit(Decode(b).key) + d.keys, d.rest)
  {
  }

  /** Draining in two goes is draining at once. */
  lemma {:induction false} DrainAppend(a: seq<byte>, b: seq<byte>)
    ensures Drain(a + b).keys == Drain(a).keys + Drain(Drain(a).rest + b).keys
    ensures Drain(a + b).rest == Drain(Drain(a).rest + b).rest
    decreases |a|
  {
    hide Decode;
    hide Drain;
    DrainUnfold(a);
    if Decode(a).Consumed? {
      var n := Decode(a).used;
      DecodeIsStable(a, b);
      DrainUnfold(a + b);
      assert (a + b)[n..] == a[n..] + b;
      DrainAppend(a[n..], b);
    }
  }

  /**
   No read gives up an ESC whose sequence goes on: wherever a read leaves exactly one ESC
   pending, the bytes still to come are none or begin with ESC.
   */
  ghost predicate EscIsNotSplit(pending: seq<byte>, chunks: seq<seq<byte>>)
    decreases |chunks|
  {
    chunks == [] ||
    var d := Drain(pending + chunks[0]);
    var later := Concat(chunks[1..]);
    && (d.rest == [ESC] ==> later == [] || later[0] == ESC)
    && EscIsNotSplit(Flush(d).rest, chunks[1..])
  }

  /** A given-up ESC is what the unsplit stream would have made of it. */
  lemma {:induction false} FlushIsHarmless(later: seq<byte>)
    requires later != [] && later[0] == ESC
    ensures Drain([ESC] + later) == Drained([Esc] + Drain(later).keys, Drain(later).rest)
  {
    hide Drain;
    DrainUnfold([ESC] + later);
    assert ([ESC] + later)[1..] == later;
  }

  /** What stays pending is the beginning of something. */
  lemma {:induction false} DrainIsIncomplete(b: seq<byte>)
    ensures Decode(Drain(b).rest).Incomplete?
    ensures Decode([]).Incomplete?
    decreases |b|
  {
    if Decode(b).Consumed? {
      DrainIsIncomplete(b[Decode(b).used..]);
    }
  }

  lemma {:induction false} FlushAppend(keys: seq<Key>, d: Drained)
    ensures Flush(Drained(keys + d.keys, d.rest)) == Drained(keys + Flush(d).keys, Flush(d).rest)
  {
    assert keys + (d.keys + [Esc]) == keys + d.keys + [Esc];
  }

  /** Two reads are one read, unless the first gives up an ESC that had a sequence coming. */
  lemma {:induction false} TwoReads(x: seq<byte>, later: seq<byte>)
    requires Drain(x).rest == [ESC] ==> later == [] || later[0] == ESC
    ensures var f := Flush(Drain(x));
            var m := Read(f.rest, later);
            Drained(f.keys + m.keys, m.rest) == Flush(Drain(x + later))
  {
    hide Drain;
    hide Decode;
    var d := Drain(x);
    DrainAppend(x, later);
    DrainUnfold([]);
    assert Decode([]).Incomplete? by { DrainIsIncomplete([]); }
    assert [] + later == later;
    if d.rest == [ESC] {
      var f := Flush(d);
      if later == [] {
        assert [ESC] + [] == [ESC];
        assert Drain([ESC]) == Drained([], [ESC]) by { DrainIsIncomplete(x); DrainUnfold([ESC]); }
        assert d.keys + [] == d.keys && f.keys + [] == f.keys;
      } else {
        FlushIsHarmless(later);
        FlushAppend(f.keys, Drain(later));
        assert d.keys + ([Esc] + Drain(later).keys) == f.keys + Drain(later).keys;
      }
    } else {
      FlushAppend(d.keys, Drain(d.rest + later));
    }
  }

  /** Any way of cutting the bytes into reads yields the keys of the uncut stream. */
  lemma {:induction false} ChunkingDoesNotMatter(pending: seq<byte>, chunks: seq<seq<byte>>)
    requires chunks != [] && EscIsNotSplit(pending, chunks)
    ensures ReadAll(pending, chunks) == Read(pending, Concat(chunks))
    decreases |chunks|
  {
    hide Drain;
    var later := Concat(chunks[1..]);
    var x := pending + chunks[0];
    assert x + later == pending + Concat(chunks);
    TwoReads(x, later);
    var f := Flush(Drain(x));
    if |chunks| == 1 {
      assert later == [] && chunks[1..] == [] && x + [] == x;
      assert f.keys + [] == f.keys;
    } else {
      ChunkingDoesNotMatter(f.rest, chunks[1..]);
    }
  }

  /** So two ways of cutting the same bytes agree. */
  lemma {:induction false} TwoCutsAgree(xs: seq<seq<byte>>, ys: seq<seq<byte>>)
    requires xs != [] && ys != [] && Concat(xs) == Concat(ys)
    requires EscIsNotSplit([], xs) && EscIsNotSplit([], ys)
    ensures ReadAll([], xs) == ReadAll([], ys)
  {
    ChunkingDoesNotMatter([], xs);
    ChunkingDoesNotMatter([], ys);
  }

  // ------------------------------------------------ what giving up an ESC costs, exactly

  /** All keys of a buffer that is read in one go. */
  function KeysOf(b: seq<byte>): seq<Key> {
    Flush(Drain(b)).keys
  }

  lemma {:induction false} KeysUnfold(b: seq<byte>)
    ensures Decode(b).Incomplete? ==> KeysOf(b) == if b == [ESC] then [Esc] else []
    ensures Decode(b).Consumed? ==> KeysOf(b) == Emit(Decode(b).key) + KeysOf(b[Decode(b).used..])
  {
    hide Decode;
    if Decode(b).Consumed? {
      FlushAppend(Emit(Decode(b).key), Drain(b[Decode(b).used..]));
    }
  }

  lemma {:induction false} EscComesFromEsc(b: seq<byte>)
    requires Decode(b).Consumed? && Decode(b).key == Some(Esc)
    ensures |b| >= 2 && b[0] == b[1] == ESC
  {
    if b[0] == ESC && b[1] == BRACKET {
      CsiKeyIsNamed(b[2..ParamEnd(b, 2)], b[InterEnd(b, ParamEnd(b, 2))]);
    }
  }

  lemma {:induction false} TailsAreSilent(r: seq<byte>, m: nat)
    requires m <= |r| && forall i | 0 <= i < m :: Utf8.IsTail(r[i])
    ensures KeysOf(r) == KeysOf(r[m..])
    decreases m
  {
    hide KeysOf;
    if m == 0 {
      assert r[0..] == r;
    } else {
      Utf8.TailIsBad(r);
      KeysUnfold(r);
      TailsAreSilent(r[1..], m - 1);
      assert r[1..][m - 1..] == r[m..];
    }
  }

  /** A byte put in front of a buffer never takes keys away, unless it is ESC. */
  lemma {:induction false} ByteInFront(c: byte, r: seq<byte>)
    requires c != ESC
    ensures |KeysOf([c] + r)| >= |KeysOf(r)|
  {
    hide KeysOf;
    var b := [c] + r;
    KeysUnfold(b);
    assert b[1..] == r;
    if 0x80 <= c && !Utf8.First(b).Bad? {
      Utf8.RestIsTails(b);
      var n := Utf8.Announced(c);
      if Utf8.First(b).Scalar? {
        assert forall i | 0 <= i < n - 1 :: r[i] == b[i + 1];
        TailsAreSilent(r, n - 1);
        assert b[n..] == r[n - 1..] && Decode(b).used == n;
      } else {
        assert forall i | 0 <= i < |r| :: r[i] == b[i + 1];
        TailsAreSilent(r, |r|);
        assert r[|r|..] == [];
        KeysUnfold([]);
      }
    } else {
      assert Decode(b).Consumed? && Decode(b).used == 1;
    }
  }

  lemma {:induction false} TypedInFront(t: seq<byte>, r: seq<byte>)
    requires forall i | 0 <= i < |t| :: 0x20 <= t[i] <= 0x7E
    ensures |KeysOf(t + r)| == |t| + |KeysOf(r)|
    decreases |t|
  {
    hide KeysOf;
    if t == [] {
      assert t + r == r;
    } else {
      KeysUnfold(t + r);
      assert (t + r)[1..] == t[1..] + r;
      TypedInFront(t[1..], r);
    }
  }

  lemma {:induction false} DroppedAfterEsc(r: seq<byte>)
    requires r != [] && r[0] != ESC && Decode(r).Consumed? && Decode(r).key == None
    ensures Decode(r).used == 1 && KeysOf([ESC] + r) == KeysOf(r)
  {
    hide KeysOf;
    var s := [ESC] + r;
    assert s[1..] == r && s[2..] == r[1..];
    assert Decode(s) == Consumed(2, None) && Decode(r) == Consumed(1, None);
    KeysUnfold(r);
    KeysUnfold(s);
    assert [] + KeysOf(r[1..]) == KeysOf(r[1..]);
  }

  /** A byte that spoiled a sequence, seen again without it, cannot account for an Esc in front. */
  lemma {:induction false} SpoiledSequence(c: byte, r: seq<byte>, more: nat)
    ensures KeysOf(r) == [] || KeysOf(r)[0] != Esc || |KeysOf(r)| != 1 + more + |KeysOf([c] + r)|
  {
    hide KeysOf;
    if c != ESC {
      ByteInFront(c, r);
    } else if r != [] {
      var s := [ESC] + r;
      assert s[1..] == r;
      KeysUnfold(s);
      KeysUnfold(r);
      if r[0] != ESC && Decode(r).Consumed? {
        if Decode(r).key.Some? {
          if Decode(r).key.value == Esc { EscComesFromEsc(r); }
        } else {
          DroppedAfterEsc(r);
        }
      }
    } else {
      KeysUnfold([]);
    }
  }

  /**
   The price of taking a lone ESC as the key: if the sequence's tail was still to come, the two
   reads give different keys. With TwoReads this is exact.
   */
  lemma {:induction false} GivingUpEscShows(x: seq<byte>, later: seq<byte>)
    requires Drain(x).rest == [ESC] && later != [] && later[0] != ESC
    ensures Flush(Drain(x)).keys + KeysOf(later) != KeysOf(x + later)
  {
    hide Drain;
    var s := [ESC] + later;
    DrainAppend(x, later);
    FlushAppend(Drain(x).keys, Drain(s));
    assert KeysOf(x + later) == Drain(x).keys + KeysOf(s);
    EscThenTailDiffers(later);
    assert (Drain(x).keys + [Esc]) + KeysOf(later) == Drain(x).keys + ([Esc] + KeysOf(later));
    var front := Drain(x).keys;
    assert (front + ([Esc] + KeysOf(later)))[|front|..] == [Esc] + KeysOf(later);
    assert (front + KeysOf(s))[|front|..] == KeysOf(s);
  }

  /** So a cut between two reads is invisible exactly when it does not part an ESC from its sequence. */
  lemma {:induction false} CutIsInvisibleIff(x: seq<byte>, later: seq<byte>)
    ensures var f := Flush(Drain(x));
            f.keys + Read(f.rest, later).keys == KeysOf(x + later)
            <==> (Drain(x).rest == [ESC] ==> later == [] || later[0] == ESC)
  {
    hide Drain;
    if Drain(x).rest == [ESC] && later != [] && later[0] != ESC {
      GivingUpEscShows(x, later);
      assert [] + later == later;
    } else {
      TwoReads(x, later);
    }
  }

  lemma {:induction false} EscThenTailDiffers(b: seq<byte>)
    requires b != [] && b[0] != ESC
    ensures KeysOf([ESC] + b) != [Esc] + KeysOf(b)
  {
    hide KeysOf;
    var s := [ESC] + b;
    assert s[1..] == b;
    KeysUnfold(s);
    assert |[Esc] + KeysOf(b)| > 0 && ([Esc] + KeysOf(b))[0] == Esc;
    if Decode(s).Consumed? {
      if Decode(s).key.Some? {
        if Decode(s).key.value == Esc { EscComesFromEsc(s); }
        assert KeysOf(s)[0] == Decode(s).key.value;
      } else {
        var u := Decode(s).used;
        var r := s[u..];
        if b[0] == BRACKET || b[0] == SS3 {
          SpoiledAfterIntroducer(s, b, u, r);
        } else {
          DroppedAltRune(s, b, u, r);
        }
      }
    }
  }

  lemma {:induction false} SpoiledAfterIntroducer(s: seq<byte>, b: seq<byte>, u: nat, r: seq<byte>)
    requires s == [ESC] + b && b != [] && (b[0] == BRACKET || b[0] == SS3)
    requires Decode(s) == Consumed(u, None) && r == s[u..]
    ensures KeysOf(r) != [Esc] + KeysOf(b)
  {
    hide KeysOf;
    var c, t := s[u - 1], s[1..u - 1];
    IntroducerIsPrintable(s, u);
    hide Decode;
    assert b == t + ([c] + r);
    TypedInFront(t, [c] + r);
    SpoiledSequence(c, r, |t|);
  }

  lemma {:induction false} IntroducerIsPrintable(s: seq<byte>, u: nat)
    requires |s| >= 2 && s[0] == ESC && (s[1] == BRACKET || s[1] == SS3)
    requires Decode(s) == Consumed(u, None)
    ensures 3 <= u <= |s| && forall i | 1 <= i < u - 1 :: 0x20 <= s[i] <= 0x7E
  {
  }

  lemma {:induction false} DroppedAltRune(s: seq<byte>, b: seq<byte>, u: nat, r: seq<byte>)
    requires s == [ESC] + b && b != [] && b[0] != BRACKET && b[0] != SS3 && b[0] != ESC
    requires Decode(s) == Consumed(u, None) && r == s[u..]
    ensures |KeysOf(r)| <= |KeysOf(b)|
  {
    hide KeysOf;
    assert s[1..] == b && s[0] == ESC && s[1] == b[0];
    assert r == b[u - 1..];
    if u == 2 {
      assert b == [b[0]] + r;
      ByteInFront(b[0], r);
    } else {
      KeysUnfold(b);
    }
  }

  // ------------------------------------------------------------------ round trip

  /** The final byte a terminal ends a key's sequence with. */
  function LetterOf(k: Key): Option<byte> {
    match k
    case Up => Some(0x41)
    case Down => Some(0x42)
    case Right => Some(0x43)
    case Left => Some(0x44)
    case End => Some(0x46)
    case Home => Some(0x48)
    case BackTab => Some(0x5A)
    case _ => None
  }

  /** The numbers it may write before a tilde instead. */
  function NumbersOf(k: Key): set<int> {
    match k
    case Home => {1, 7}
    case End => {4, 8}
    case Delete => {3}
    case _ => {}
  }

  /** e is one of the byte sequences a terminal sends for the key. */
  ghost predicate Spells(e: seq<byte>, k: Key) {
    match k
    case Typed(r) => Utf8.IsScalar(r) && 0x20 <= r && r != 0x7F && e == Utf8.Encode(r)
    case Tab => e == [0x09]
    case Enter => e == [0x0D] || e == [0x0A]
    case Backspace => e == [0x7F] || e == [0x08]
    case Interrupt => e == [0x03]
    case Esc => e == [ESC]
    case _ => IsSS3(e, k) || exists params, inters, final :: IsCSI(e, k, params, inters, final)
  }

  ghost predicate IsSS3(e: seq<byte>, k: Key) {
    LetterOf(k).Some? && e == [ESC, SS3, LetterOf(k).value]
  }

  ghost predicate IsCSI(e: seq<byte>, k: Key, params: seq<byte>, inters: seq<byte>, final: byte) {
    && AllParam(params) && AllInter(inters)
    && e == [ESC, BRACKET] + params + inters + [final]
    && (LetterOf(k) == Some(final) || (final == 0x7E && Leading(params) in NumbersOf(k)))
  }

  /** A final letter means the key a terminal ends with that letter, whatever the parameters. */
  lemma {:induction false} LettersAreTheTerminals(params: seq<byte>, final: byte, k: Key)
    requires final != 0x7E
    ensures FinalKey(final) == Some(k) <==> LetterOf(k) == Some(final)
    ensures CsiKey(params, final) == Some(k) <==> LetterOf(k) == Some(final)
  {
  }

  /** A tilde sequence means a key exactly if the terminal sends that number for it. */
  ghost predicate TildeIsTheTerminals(params: seq<byte>) {
    forall k :: CsiKey(params, 0x7E) == Some(k) <==> Leading(params) in NumbersOf(k)
  }

  /** A number that is too long for an int and leaves one of the meaningful ones. */
  predicate WrapsOntoAKey(n: nat) {
    n >= TWO64 && n % TWO64 in {1, 3, 4, 7, 8}
  }

  /**
   That is so exactly for the numbers that do not wrap onto a meaningful one: csiNumber keeps
   adding digits without a bound.
   */
  lemma {:induction false} TildeIsTheTerminalsIff(params: seq<byte>)
    ensures TildeIsTheTerminals(params) <==> !WrapsOntoAKey(Leading(params))
  {
    var n := Leading(params);
    if WrapsOntoAKey(n) {
      var k := if n % TWO64 == 3 then Delete else if n % TWO64 == 1 || n % TWO64 == 7 then Home else End;
      assert CsiKey(params, 0x7E) == Some(k) && n !in NumbersOf(k);
    } else {
      forall k ensures CsiKey(params, 0x7E) == Some(k) <==> n in NumbersOf(k) {
        TildeMeans(params, k);
      }
    }
  }

  lemma {:induction false} TildeMeans(params: seq<byte>, k: Key)
    ensures CsiKey(params, 0x7E) == Some(k) <==> CsiNumber(params) in NumbersOf(k)
    ensures Leading(params) in NumbersOf(k) ==> CsiNumber(params) == Leading(params)
    ensures CsiNumber(params) in NumbersOf(k) && !WrapsOntoAKey(Leading(params)) ==>
              CsiNumber(params) == Leading(params)
  {
  }

  /** 2^64 + 1 in decimal. */
  const TOO_LONG: seq<byte> := [0x31, 0x38, 0x34, 0x34] + ([0x36, 0x37, 0x34, 0x34] + ([0x30, 0x37, 0x33, 0x37]
    + ([0x30, 0x39, 0x35, 0x35] + ([0x31, 0x36, 0x31, 0x37] + []))))

  /** The input that shows it: 2^64 + 1 before a tilde, which no terminal sends, is taken for Home. */
  lemma {:induction false} TooLongANumberIsHome()
    ensures Leading(TOO_LONG) == TWO64 + 1 && Leading(TOO_LONG) !in NumbersOf(Home)
    ensures Decode([ESC, BRACKET] + TOO_LONG + [0x7E]) == Consumed(23, Some(Home))
  {
    hide Decode;
    TooLongIsLeading();
    TildeMeans(TOO_LONG, Home);
    var s := [ESC, BRACKET] + TOO_LONG + [] + [0x7E];
    assert s == [ESC, BRACKET] + TOO_LONG + [0x7E] && s + [] == s;
    ControlSequenceIsWhole(TOO_LONG, [], 0x7E, []);
  }

  /** Four digits, written out. */
  function Fours(a: nat, b: nat, c: nat, d: nat, rest: seq<byte>): seq<byte>
    requires a < 10 && b < 10 && c < 10 && d < 10
  {
    [(0x30 + a) as byte, (0x30 + b) as byte, (0x30 + c) as byte, (0x30 + d) as byte] + rest
  }

  lemma {:induction false} TooLongInFours()
    ensures TOO_LONG
            == Fours(1, 8, 4, 4, Fours(6, 7, 4, 4, Fours(0, 7, 3, 7, Fours(0, 9, 5, 5, Fours(1, 6, 1, 7, [])))))
  {
  }

  lemma {:induction false} TooLongIsLeading()
    ensures Leading(TOO_LONG) == TWO64 + 1
  {
    hide LeadingFrom, Fours;
    TooLongInFours();
    FourDigits(0, 1, 8, 4, 4, Fours(6, 7, 4, 4, Fours(0, 7, 3, 7, Fours(0, 9, 5, 5, Fours(1, 6, 1, 7, [])))));
    FourDigits(1844, 6, 7, 4, 4, Fours(0, 7, 3, 7, Fours(0, 9, 5, 5, Fours(1, 6, 1, 7, []))));
    FourDigits(18446744, 0, 7, 3, 7, Fours(0, 9, 5, 5, Fours(1, 6, 1, 7, [])));
    FourDigits(184467440737, 0, 9, 5, 5, Fours(1, 6, 1, 7, []));
    FourDigits(1844674407370955, 1, 6, 1, 7, []);
    OneDigit(TWO64 + 1, 0x30, []);
  }

  lemma {:induction false} FourDigits(n: nat, a: nat, b: nat, c: nat, d: nat, rest: seq<byte>)
    requires a < 10 && b < 10 && c < 10 && d < 10
    ensures LeadingFrom(n, Fours(a, b, c, d, rest)) == LeadingFrom(n * 10000 + a * 1000 + b * 100 + c * 10 + d, rest)
  {
    hide LeadingFrom;
    var w, x, y, z := (0x30 + a) as byte, (0x30 + b) as byte, (0x30 + c) as byte, (0x30 + d) as byte;
    assert Fours(a, b, c, d, rest) == [w] + ([x] + ([y] + ([z] + rest)));
    OneDigit(n, w, [x] + ([y] + ([z] + rest)));
    OneDigit(n * 10 + a, x, [y] + ([z] + rest));
    OneDigit(n * 100 + a * 10 + b, y, [z] + rest);
    OneDigit(n * 1000 + a * 100 + b * 10 + c, z, rest);
  }

  lemma {:induction false} OneDigit(n: nat, d: byte, rest: seq<byte>)
    requires IsDigit(d)
    ensures LeadingFrom(n, [d] + rest) == LeadingFrom(n * 10 + (d as int - 0x30), rest) && LeadingFrom(n, []) == n
  {
    assert ([d] + rest)[1..] == rest;
  }

  datatype Stroke = Stroke(key: Key, bytes: seq<byte>)

  function BytesOf(strokes: seq<Stroke>): seq<byte> {
    if strokes == [] then [] else strokes[0].bytes + BytesOf(strokes[1..])
  }

  function Pressed(strokes: seq<Stroke>): seq<Key> {
    if strokes == [] then [] else [strokes[0].key] + Pressed(strokes[1..])
  }

  /** Every stroke is spelled correctly, and Esc is followed by an ESC-encoded one or the end. */
  ghost predicate Typable(strokes: seq<Stroke>) {
    && (forall i | 0 <= i < |strokes| :: Spells(strokes[i].bytes, strokes[i].key))
    && forall i | 0 <= i < |strokes| - 1 ::
         strokes[i].key == Esc ==> strokes[i + 1].bytes != [] && strokes[i + 1].bytes[0] == ESC
  }

  lemma {:induction false} SS3Decodes(e: seq<byte>, k: Key, rest: seq<byte>)
    requires IsSS3(e, k)
    ensures Decode(e + rest) == Consumed(3, Some(k))
  {
    LettersAreTheTerminals([], LetterOf(k).value, k);
  }

  lemma {:induction false} SpellingDecodes(e: seq<byte>, k: Key, rest: seq<byte>)
    requires Spells(e, k) && k != Esc
    ensures Decode(e + rest) == Consumed(|e|, Some(k))
  {
    match k
    case Typed(r) =>
      Utf8.FirstOfEncoding(r, rest);
      TypedFirstByte(r);
    case Tab =>
    case Enter =>
    case Backspace =>
    case Interrupt =>
    case Esc =>
    case _ =>
      if IsSS3(e, k) {
        SS3Decodes(e, k, rest);
      } else {
        var params, inters, final :| IsCSI(e, k, params, inters, final);
        if final == 0x7E {
          TildeMeans(params, k);
        } else {
          LettersAreTheTerminals(params, final, k);
        }
        ControlSequenceIsWhole(params, inters, final, rest);
      }
  }

  lemma {:induction false} TypedFirstByte(r: int)
    requires Utf8.IsScalar(r) && 0x20 <= r && r != 0x7F
    ensures 0x20 <= Utf8.Encode(r)[0] != 0x7F
  {
  }

  /** Encoding keys as terminal bytes and reading them back returns the same keys. */
  lemma {:induction false} KeysRoundTrip(strokes: seq<Stroke>)
    requires Typable(strokes)
    ensures KeysOf(BytesOf(strokes)) == Pressed(strokes)
    decreases |strokes|
  {
    hide KeysOf;
    hide Decode;
    if strokes == [] {
      DrainIsIncomplete([]);
      KeysUnfold([]);
    } else {
      var s, more := strokes[0], strokes[1..];
      KeysRoundTrip(more);
      var rest := BytesOf(more);
      assert Spells(s.bytes, s.key);
      assert (s.bytes + rest)[|s.bytes|..] == rest;
      if s.key != Esc {
        SpellingDecodes(s.bytes, s.key, rest);
        KeysUnfold(s.bytes + rest);
      } else if more == [] {
        assert [ESC] + [] == [ESC];
        EscEsc([]);
        KeysUnfold([ESC]);
      } else {
        assert strokes[1].bytes != [] && strokes[1].bytes[0] == ESC && more[0] == strokes[1];
        assert rest[0] == ESC;
        EscEsc(rest);
        KeysUnfold([ESC] + rest);
      }
    }
  }

  lemma {:induction false} EscEsc(rest: seq<byte>)
    ensures Decode([ESC]).Incomplete?
    ensures rest != [] && rest[0] == ESC ==> Decode([ESC] + rest) == Consumed(1, Some(Esc))
  {
  }
}
