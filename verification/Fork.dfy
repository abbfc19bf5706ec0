/**
 `run fork` (cmd/arxi/fork.go): a new log made of a prefix of another one. The parent's events are
 heap objects here where the source's are (a payload is a map shared by reference), so that
 "the parent is not touched" is a statement about them.
 */
module Fork {
  import opened Bytes
  import opened Reducers

  datatype Value = Text(s: string) | Number(n: real) | Other(what: nat)

  type Payload = map<string, Value>

  datatype Type = RunStarted | OtherType(name: string)

  datatype Event = Event(seq_: int, id: string, typ: Type, scope: string, causedBy: seq<string>, payload: Payload)

  /** The flags that survive into the new log. budget 0 and empty strings mean "keep the parent's". */
  datatype Flags = Flags(atSeq: Option<int>, budget: real, newID: string, parentID: string, bpName: string,
                         bpSHA: string)

  datatype Outcome =
    | Written(log: seq<Event>)
    | BadSeq                       // --at-seq below 1
    | EmptyLog
    | BeyondHead(head: int)
    | NoStart
    | BornTerminal(suggested: int)

  // ------------------------------------------------------------------ the transformation

  /** Keys that forking writes into run.started, and what it writes. */
  predicate Overwrites(f: Flags, key: string) {
    || key == "run_id" || key == "forked_from" || key == "forked_at_seq"
    || (key == "budget_usd" && f.budget > 0.0)
    || (key == "actor" && f.bpName != "") || (key == "blueprint_sha" && f.bpSHA != "")
  }

  function NewValue(f: Flags, atSeq: int, key: string): Value {
    if key == "run_id" then Text(f.newID)
    else if key == "forked_from" then Text(f.parentID)
    else if key == "forked_at_seq" then Number(atSeq as real)
    else if key == "budget_usd" then Number(f.budget)
    else if key == "actor" then Text(f.bpName)
    else Text(f.bpSHA)
  }

  /** The start payload of the fork, key by key. */
  ghost predicate StartOf(f: Flags, atSeq: int, parent: Payload, fork: Payload) {
    && (forall key :: Overwrites(f, key) ==> key in fork && fork[key] == NewValue(f, atSeq, key))
    && (forall key :: !Overwrites(f, key) ==>
          (key in fork <==> key in parent) && (key in parent ==> fork[key] == parent[key]))
  }

  function StartPayload(f: Flags, atSeq: int, parent: Payload): Payload {
    var started := parent["run_id" := Text(f.newID)]["forked_from" := Text(f.parentID)];
    var named := started["forked_at_seq" := Number(atSeq as real)];
    var funded := if f.budget > 0.0 then named["budget_usd" := Number(f.budget)] else named;
    var acted := if f.bpName != "" then funded["actor" := Text(f.bpName)] else funded;
    if f.bpSHA != "" then acted["blueprint_sha" := Text(f.bpSHA)] else acted
  }

  lemma {:induction false} StartAt(f: Flags, atSeq: int, parent: Payload, key: string)
    ensures var fork := StartPayload(f, atSeq, parent);
            if Overwrites(f, key) then key in fork && fork[key] == NewValue(f, atSeq, key)
            else (key in fork <==> key in parent) && (key in parent ==> fork[key] == parent[key])
  {
  }

  /** Nothing else is written and nothing is lost. */
  lemma {:induction false} StartKeepsTheRest(f: Flags, atSeq: int, parent: Payload)
    ensures StartOf(f, atSeq, parent, StartPayload(f, atSeq, parent))
  {
    hide StartPayload, Overwrites, NewValue;
    forall key
      ensures var fork := StartPayload(f, atSeq, parent);
              if Overwrites(f, key) then key in fork && fork[key] == NewValue(f, atSeq, key)
              else (key in fork <==> key in parent) && (key in parent ==> fork[key] == parent[key])
    {
      StartAt(f, atSeq, parent, key);
    }
  }

  /** One event as the fork folds it: no number yet, its scope renamed, its start rewritten. */
  function Copy(f: Flags, atSeq: int, e: Event): Event {
    e.(seq_ := 0,
       scope := if e.scope == "run:" + f.parentID then "run:" + f.newID else e.scope,
       payload := if e.typ.RunStarted? then StartPayload(f, atSeq, e.payload) else e.payload)
  }

  function Prefix(events: seq<Event>, atSeq: int): (prefix: seq<Event>)
    ensures forall i | 0 <= i < |prefix| :: prefix[i] in events && prefix[i].seq_ <= atSeq
    decreases |events|
  {
    if events == [] then []
    else Prefix(events[..|events| - 1],
        atSeq) + if events[|events| - 1].seq_ <= atSeq then [events[|events| - 1]] else []
  }

  function Copies(f: Flags, atSeq: int, prefix: seq<Event>): (copied: seq<Event>)
    ensures |copied| == |prefix|
    ensures forall i | 0 <= i < |prefix| :: copied[i] == Copy(f, atSeq, prefix[i])
  {
    seq(|prefix|, i requires 0 <= i < |prefix| => Copy(f, atSeq, prefix[i]))
  }

  /** The parent's seq of the first event after which the fold is terminal, 0 when it never is. */
  function FirstTerminal<S>(k: Reducer<S, Event>, copied: seq<Event>, prefix: seq<Event>): int
    requires |copied| == |prefix|
    decreases |copied|
  {
    if copied == [] then 0 else
      var n := |copied| - 1;
      var before := FirstTerminal(k, copied[..n], prefix[..n]);
      if before == 0 && Terminal(StatusOf(k, copied)) then prefix[n].seq_ else before
  }

  /** logstore.Append on a new log. */
  function Numbered(copied: seq<Event>): (log: seq<Event>)
    ensures |log| == |copied|
    ensures forall i | 0 <= i < |log| :: log[i] == copied[i].(seq_ := i + 1)
  {
    seq(|copied|, i requires 0 <= i < |copied| => copied[i].(seq_ := i + 1))
  }

  function ForkAt<S>(k: Reducer<S, Event>, events: seq<Event>, f: Flags, atSeq: int): Outcome
    requires events != []
  {
    if atSeq > events[|events| - 1].seq_ then BeyondHead(events[|events| - 1].seq_)
    else
      var prefix := Prefix(events, atSeq);
      if prefix == [] || !prefix[0].typ.RunStarted? then NoStart
      else
        var copied := Copies(f, atSeq, prefix);
        if Terminal(StatusOf(k, copied)) then BornTerminal(FirstTerminal(k, copied, prefix) - 1)
        else Written(Numbered(copied))
  }

  function ForkOf<S>(k: Reducer<S, Event>, events: seq<Event>, f: Flags): Outcome {
    if f.atSeq.Some? && f.atSeq.value < 1 then BadSeq
    else if events == [] then EmptyLog
    else ForkAt(k, events, f, if f.atSeq.Some? then f.atSeq.value else events[|events| - 1].seq_)
  }

  // ------------------------------------------------------------------ the command

  class PayloadMap {
    var entries: Payload

    constructor (entries: Payload)
      ensures this.entries == entries
    {
      this.entries := entries;
    }
  }

  /** kernel.Event as decoded: a struct whose payload is a reference. */
  datatype Decoded = Decoded(seq_: int, id: string, typ: Type, scope: string, causedBy: seq<string>,
                             payload: PayloadMap)

  function ValueOf(e: Decoded): Event
    reads e.payload
  {
    Event(e.seq_, e.id, e.typ, e.scope, e.causedBy, e.payload.entries)
  }

  function Payloads(events: seq<Decoded>): set<PayloadMap> {
    set e | e in events :: e.payload
  }

  function ValuesOf(events: seq<Decoded>): (vs: seq<Event>)
    reads Payloads(events)
    ensures |vs| == |events| && forall i | 0 <= i < |vs| :: vs[i] == ValueOf(events[i])
    decreases |events|
  {
    if events == [] then [] else ValuesOf(events[..|events| - 1]) + [ValueOf(events[|events| - 1])]
  }

  /** A fresh map: what was handed in keeps its entries. */
  method ForkedStartPayload(payload: PayloadMap, f: Flags, atSeq: int) returns (out: PayloadMap)
    ensures fresh(out) && out.entries == StartPayload(f, atSeq, payload.entries)
  {
    out := new PayloadMap(payload.entries);
    out.entries := out.entries["run_id" := Text(f.newID)];
    out.entries := out.entries["forked_from" := Text(f.parentID)];
    out.entries := out.entries["forked_at_seq" := Number(atSeq as real)];
    if f.budget > 0.0 {
      out.entries := out.entries["budget_usd" := Number(f.budget)];
    }
    if f.bpName != "" {
      out.entries := out.entries["actor" := Text(f.bpName)];
    }
    if f.bpSHA != "" {
      out.entries := out.entries["blueprint_sha" := Text(f.bpSHA)];
    }
  }

  lemma {:induction false} PrefixUnfold(events: seq<Event>, atSeq: int, i: nat)
    requires i < |events|
    ensures Prefix(events[..i + 1], atSeq) ==
              Prefix(events[..i], atSeq) + if events[i].seq_ <= atSeq then [events[i]] else []
  {
    assert events[..i + 1][..i] == events[..i];
  }

  lemma {:induction false} PrefixEmpty(events: seq<Event>, atSeq: int)
    requires events == []
    ensures Prefix(events, atSeq) == []
  {
  }

  /** vs are the values of those events. */
  ghost predicate Reads(events: seq<Decoded>, vs: seq<Event>)
    reads Payloads(events)
  {
    |vs| == |events| && forall i | 0 <= i < |vs| :: vs[i] == ValueOf(events[i])
  }

  method TakePrefix(events: seq<Decoded>, atSeq: int) returns (prefix: seq<Decoded>)
    ensures Reads(prefix, Prefix(ValuesOf(events), atSeq))
  {
    ghost var all := ValuesOf(events);
    prefix := [];
    PrefixEmpty(all[..0], atSeq);
    assert Reads(prefix, Prefix(all[..0], atSeq));
    hide Prefix, Reads;
    for i := 0 to |events|
      invariant Reads(prefix, Prefix(all[..i], atSeq))
    {
      PrefixUnfold(all, atSeq, i);
      assert all[i] == ValueOf(events[i]);
      if events[i].seq_ <= atSeq {
        ReadsAppend(prefix, Prefix(all[..i], atSeq), events[i]);
        prefix := prefix + [events[i]];
      }
    }
    assert all[..|events|] == all && ValuesOf(events) == all;
  }

  lemma {:induction false} ReadsAppend(events: seq<Decoded>, vs: seq<Event>, e: Decoded)
    requires Reads(events, vs)
    ensures Reads(events + [e], vs + [ValueOf(e)])
  {
  }

  /** Only run.started gets a payload of its own; every other event shares the parent's. */
  method CopyPrefix(prefix: seq<Decoded>, f: Flags, atSeq: int) returns (copied: seq<Decoded>)
    ensures |copied| == |prefix|
             && forall i | 0 <= i < |prefix| :: ValueOf(copied[i]) == Copy(f, atSeq, ValueOf(prefix[i]))
    ensures forall i | 0 <= i < |prefix| ::
              if prefix[i].typ.RunStarted? then fresh(copied[i].payload) else copied[i].payload == prefix[i].payload
  {
    copied := [];
    for i := 0 to |prefix|
      invariant |copied| == i
      invariant forall j | 0 <= j < i :: ValueOf(copied[j]) == Copy(f, atSeq, ValueOf(prefix[j]))
      invariant forall j | 0 <= j < i ::
                  if prefix[j].typ.RunStarted? then fresh(copied[j].payload) else copied[j].payload == prefix[j].payload
    {
      var e := prefix[i].(seq_ := 0);
      if e.scope == "run:" + f.parentID {
        e := e.(scope := "run:" + f.newID);
      }
      if e.typ.RunStarted? {
        var payload := ForkedStartPayload(e.payload, f, atSeq);
        e := e.(payload := payload);
      }
      copied := copied + [e];
    }
  }

  lemma {:induction false} FoldUnfold<S>(k: Reducer<S, Event>, copied: seq<Event>, prefix: seq<Event>, i: nat)
    requires |copied| == |prefix|
    ensures Fold(k, k.initial, copied[..0]) == k.initial && FirstTerminal(k, copied[..0], prefix[..0]) == 0
    ensures i < |copied| ==>
              Fold(k, k.initial, copied[..i + 1]) == k.decide(Fold(k, k.initial, copied[..i]), copied[i])
    ensures i < |copied| ==>
              FirstTerminal(k, copied[..i + 1], prefix[..i + 1])
              == var before := FirstTerminal(k, copied[..i], prefix[..i]);
                 if before == 0 && Terminal(StatusOf(k, copied[..i + 1])) then prefix[i].seq_ else before
  {
    if i >= |copied| {
      return;
    }
    assert copied[..i + 1] == copied[..i] + [copied[i]] && prefix[..i + 1][..i] == prefix[..i]
        && copied[..i + 1][..i] == copied[..i];
    FoldAppend(k, k.initial, copied[..i], copied[i]);
  }

  /** cmdRunFork between reading the parent and writing the new directory. */
  method CmdRunFork<S>(k: Reducer<S, Event>, events: seq<Decoded>, f: Flags) returns (r: Outcome)
    ensures r == ForkOf(k, ValuesOf(events), f)
  {
    hide Prefix, Copies, Copy, StartPayload, StatusOf, Terminal, FirstTerminal, Numbered;
    if f.atSeq.Some? && f.atSeq.value < 1 {
      return BadSeq;
    }
    if events == [] {
      return EmptyLog;
    }
    ghost var all := ValuesOf(events);
    var head := events[|events| - 1].seq_;
    var atSeq := if f.atSeq.Some? then f.atSeq.value else head;
    if atSeq > head {
      return BeyondHead(head);
    }
    var prefix := TakePrefix(events, atSeq);
    assert ValuesOf(events) == all;
    if |prefix| == 0 || !prefix[0].typ.RunStarted? {
      return NoStart;
    }
    r := CopyAndFold(k, prefix, Prefix(all, atSeq), f, atSeq);
    assert ValuesOf(events) == all;
  }

  method CopyAndFold<S>(k: Reducer<S, Event>, prefix: seq<Decoded>, ghost ps: seq<Event>, f: Flags,
                        atSeq: int) returns (r: Outcome)
    requires Reads(prefix, ps)
    ensures var copied := Copies(f, atSeq, ps);
            r == if Terminal(StatusOf(k, copied)) then BornTerminal(FirstTerminal(k, copied,
                ps) - 1) else Written(Numbered(copied))
  {
    hide Copy, Fold, FirstTerminal;
    var copied := CopyPrefix(prefix, f, atSeq);
    ghost var cs := Copies(f, atSeq, ps);
    assert Reads(prefix, ps) && Reads(copied, cs);
    var at, termSeq := FoldCopies(k, prefix, copied, ps, cs);
    assert ValuesOf(copied) == cs;
    return if Terminal(k.status(at)) then BornTerminal(termSeq - 1) else Written(Numbered(ValuesOf(copied)));
  }

  /** One event at a time, because the refusal needs to know where the run ended. */
  method FoldCopies<S>(k: Reducer<S, Event>, prefix: seq<Decoded>, copied: seq<Decoded>, ghost ps: seq<Event>,
                       ghost cs: seq<Event>)
    returns (at: S, termSeq: int)
    requires Reads(prefix, ps) && Reads(copied, cs) && |ps| == |cs|
    ensures at == Fold(k, k.initial, cs) && termSeq == FirstTerminal(k, cs, ps)
  {
    hide Fold, FirstTerminal;
    FoldUnfold(k, cs, ps, 0);
    at, termSeq := k.initial, 0;
    for i := 0 to |copied|
      invariant at == Fold(k, k.initial, cs[..i]) && termSeq == FirstTerminal(k, cs[..i], ps[..i])
    {
      FoldUnfold(k, cs, ps, i);
      at := k.decide(at, ValueOf(copied[i]));
      if Terminal(k.status(at)) && termSeq == 0 {
        termSeq := prefix[i].seq_;
      }
    }
    assert cs[..|copied|] == cs && ps[..|copied|] == ps;
  }

  // ------------------------------------------------------------------ same numbers, same causes

  /** What logstore.Open makes sure of and a lock-free read does not. */
  predicate Contiguous(events: seq<Event>) {
    forall i | 0 <= i < |events| :: events[i].seq_ == i + 1
  }

  predicate Increasing(events: seq<Event>) {
    forall i, j | 0 <= i < j < |events| :: events[i].seq_ < events[j].seq_
  }

  /** Among the first m events, those numbered up to atSeq are the first n. */
  predicate CutAt(events: seq<Event>, atSeq: int, m: nat, n: nat) {
    n <= m <= |events| && forall i | 0 <= i < m :: i < n <==> events[i].seq_ <= atSeq
  }

  lemma {:induction false} CutMoves(events: seq<Event>, atSeq: int, m: nat, n: nat)
    requires Increasing(events) && m < |events| && CutAt(events, atSeq, m, n)
    ensures events[m].seq_ <= atSeq ==> n == m
    ensures CutAt(events, atSeq, m + 1, if events[m].seq_ <= atSeq then n + 1 else n)
  {
    assert n < m ==> events[n].seq_ < events[m].seq_;
    hide Increasing;
  }

  lemma {:induction false} TakeOneMore(events: seq<Event>, m: nat)
    requires 0 < m <= |events|
    ensures events[..m - 1] + [events[m - 1]] == events[..m]
  {
  }

  lemma {:induction false} PrefixUpTo(events: seq<Event>, atSeq: int, m: nat) returns (n: nat)
    requires Increasing(events) && m <= |events|
    ensures CutAt(events, atSeq, m, n) && Prefix(events[..m], atSeq) == events[..n]
    decreases m
  {
    if m == 0 {
      n := 0;
      PrefixEmpty(events[..0], atSeq);
    } else {
      n := PrefixUpTo(events, atSeq, m - 1);
      PrefixUnfold(events, atSeq, m - 1);
      CutMoves(events, atSeq, m - 1, n);
      hide Prefix, Increasing, CutAt;
      TakeOneMore(events, m);
      n := if events[m - 1].seq_ <= atSeq then m else n;
    }
  }

  lemma {:induction false} PrefixOfIncreasing(events: seq<Event>, atSeq: int)
    requires Increasing(events)
    ensures var n := |Prefix(events, atSeq)|;
            n <= |events| && Prefix(events, atSeq) == events[..n]
            && forall i | 0 <= i < |events| :: i < n <==> events[i].seq_ <= atSeq
  {
    var n := PrefixUpTo(events, atSeq, |events|);
    assert events[..|events|] == events && |events[..n]| == n;
  }

  /**
   What a fork's event is to the parent's of the same number: the same event under the fork's
   name, the start with the fork's identity, budget and blueprint.
   */
  ghost predicate SameEvent(f: Flags, atSeq: int, parent: Event, fork: Event) {
    && fork.id == parent.id && fork.typ == parent.typ && fork.causedBy == parent.causedBy
    && fork.scope == (if parent.scope == "run:" + f.parentID then "run:" + f.newID else parent.scope)
    && if parent.typ.RunStarted? then StartOf(f, atSeq, parent.payload, fork.payload) else fork.payload ==
                                                                                           parent.payload
  }

  lemma {:induction false} CopyIsSameEvent(f: Flags, atSeq: int, e: Event, n: int)
    ensures SameEvent(f, atSeq, e, Copy(f, atSeq, e).(seq_ := n))
  {
    StartKeepsTheRest(f, atSeq, e.payload);
    hide StartPayload, StartOf;
  }

  /** The fork of a contiguous log holds exactly the numbers 1..at-seq, each on the parent's event of that number. */
  lemma {:induction false} SameNumbers<S>(k: Reducer<S, Event>, events: seq<Event>, f: Flags, atSeq: int)
    requires Contiguous(events) && events != [] && 1 <= atSeq
    ensures var o := ForkAt(k, events, f, atSeq);
            o.Written? ==>
              (|o.log| == atSeq <= |events|
               && forall i | 0 <= i < atSeq :: o.log[i].seq_ == events[i].seq_ == i + 1
                     && SameEvent(f, atSeq, events[i], o.log[i]))
  {
    hide Prefix, ForkAt, Contiguous, Copy, SameEvent;
    var o := ForkAt(k, events, f, atSeq);
    NotBeyondHead(k, events, f, atSeq);
    ContiguousAt(events, |events| - 1);
    if o.Written? {
      ContiguousPrefix(events, atSeq);
      ForkHolds(k, events, f, atSeq);
      forall i | 0 <= i < atSeq ensures o.log[i].seq_ == events[i].seq_ == i + 1
          && SameEvent(f, atSeq, events[i], o.log[i]) {
        ContiguousAt(events, i);
        assert events[..atSeq][i] == events[i];
        CopyIsSameEvent(f, atSeq, events[i], i + 1);
      }
    }
  }

  lemma {:induction false} NotBeyondHead<S>(k: Reducer<S, Event>, events: seq<Event>, f: Flags, atSeq: int)
    requires events != []
    ensures ForkAt(k, events, f, atSeq).Written? ==> atSeq <= events[|events| - 1].seq_
  {
    hide Prefix, Copies, StatusOf;
  }

  lemma {:induction false} ContiguousPrefix(events: seq<Event>, atSeq: int)
    requires Contiguous(events) && 1 <= atSeq <= |events|
    ensures Prefix(events, atSeq) == events[..atSeq]
  {
    PrefixOfIncreasing(events, atSeq);
    hide Prefix;
    assert events[atSeq - 1].seq_ == atSeq;
    assert atSeq < |events| ==> events[atSeq].seq_ == atSeq + 1;
  }

  lemma {:induction false} ContiguousAt(events: seq<Event>, i: nat)
    requires Contiguous(events) && i < |events|
    ensures events[i].seq_ == i + 1
  {
  }

  /** A written fork is the prefix, copied and numbered. */
  lemma {:induction false} ForkHolds<S>(k: Reducer<S, Event>, events: seq<Event>, f: Flags, atSeq: int)
    requires events != []
    ensures var o, prefix := ForkAt(k, events, f, atSeq), Prefix(events, atSeq);
            o.Written? ==>
              (|o.log| == |prefix| && forall i | 0 <= i < |o.log| :: o.log[i] ==
                                                                     Copy(f, atSeq, prefix[i]).(seq_ := i + 1))
  {
    hide Prefix, StartPayload, Copy;
  }

  /** And the numbers agree with the parent's only on such a prefix. */
  lemma {:induction false} NumbersAgreeIff<S>(k: Reducer<S, Event>, events: seq<Event>, f: Flags, atSeq: int)
    requires events != []
    ensures var o, prefix := ForkAt(k, events, f, atSeq), Prefix(events, atSeq);
            o.Written? ==>
              (|o.log| == |prefix| && ((forall i | 0 <= i < |o.log| :: o.log[i].seq_ == prefix[i].seq_) <==>
                  Contiguous(prefix)))
  {
    hide ForkAt, Prefix, Copy;
    ForkHolds(k, events, f, atSeq);
  }

  /** A parent with a gap in its numbers, which a lock-free read does not refuse. */
  function Gapped(start: Event, e: Event): seq<Event> {
    [start.(seq_ := 1), e.(seq_ := 3)]
  }

  /** Forked at its head it is closed up: the fork's event 2 is the parent's event 3. */
  lemma {:induction false} GapIsClosedUp<S>(k: Reducer<S, Event>, f: Flags, start: Event, e: Event)
    requires start.typ.RunStarted?
    ensures var o := ForkAt(k, Gapped(start, e), f, 3);
            && (o.Written? || o.BornTerminal?)
            && (o.Written? ==> |o.log| == 2 && o.log[1].seq_ == 2 && SameEvent(f, 3, Gapped(start, e)[1], o.log[1]))
  {
    hide Prefix, Copies, StatusOf, SameEvent, Copy, FirstTerminal, Numbered;
    var events := Gapped(start, e);
    PrefixOfIncreasing(events, 3);
    assert events[0].seq_ <= 3 && events[1].seq_ <= 3;
    assert |Prefix(events, 3)| == 2 && events[..2] == events;
    ForkHolds(k, events, f, 3);
    CopyIsSameEvent(f, 3, events[1], 2);
  }

  /** The position an id stands for: the first event that has it, |events| when none does. */
  function Resolve(events: seq<Event>, id: string): (i: nat)
    ensures i <= |events| && (i < |events| ==> events[i].id == id)
    ensures forall j | 0 <= j < i :: events[j].id != id
  {
    if events == [] || events[0].id == id then 0 else 1 + Resolve(events[1..], id)
  }

  /**
   Every causal id the parent resolves to an event inside the fork resolves to the same position
   there; one that names a later event, or none, resolves to nothing.
   */
  lemma {:induction false} SameCauses<S>(k: Reducer<S, Event>, events: seq<Event>, f: Flags, atSeq: int, id: string)
    requires Increasing(events) && events != []
    ensures var o := ForkAt(k, events, f, atSeq);
            o.Written? ==> Resolve(o.log, id) == if Resolve(events, id) < |o.log| then Resolve(events, id) else |o.log|
  {
    hide ForkAt, Prefix, Increasing;
    PrefixOfIncreasing(events, atSeq);
    ForkHolds(k, events, f, atSeq);
    var o := ForkAt(k, events, f, atSeq);
    if o.Written? {
      SameIds(f, atSeq, events, o.log);
      ResolveInPrefix(events, o.log, id);
    }
  }

  lemma {:induction false} SameIds(f: Flags, atSeq: int, events: seq<Event>, log: seq<Event>)
    requires |log| <= |events|
             && forall i | 0 <= i < |log| :: log[i] == Copy(f, atSeq, events[..|log|][i]).(seq_ := i + 1)
    ensures forall i | 0 <= i < |log| :: log[i].id == events[i].id
  {
  }

  lemma {:induction false} ResolveInPrefix(events: seq<Event>, log: seq<Event>, id: string)
    requires |log| <= |events| && forall i | 0 <= i < |log| :: log[i].id == events[i].id
    ensures Resolve(log, id) == if Resolve(events, id) < |log| then Resolve(events, id) else |log|
    decreases |log|
  {
    if log != [] {
      ResolveInPrefix(events[1..], log[1..], id);
    }
  }

  // ------------------------------------------------------------------ the refusal and its remedy

  /** The same event but for the names a fork gives: whose run it is, and where it was forked. */
  ghost predicate SameButNames(a: Event, b: Event) {
    && a.seq_ == b.seq_ && a.id == b.id && a.typ == b.typ && a.causedBy == b.causedBy
    && forall key :: key != "run_id" && key != "forked_at_seq" ==>
         (key in a.payload <==> key in b.payload) && (key in a.payload ==> a.payload[key] == b.payload[key])
  }

  /**
   The kernel stores the run id and uses it in effects and reports only (decide.go:292, 1487 and
   1545); nothing in internal/kernel reads a scope or forked_at_seq. So some relation between
   states, equality but for the run id, is kept by events that differ in those only, and it
   determines the status.
   */
  ghost predicate BlindToNames<S(!new)>(k: Reducer<S, Event>, alike: (S, S) -> bool) {
    && alike(k.initial, k.initial)
    && (forall s, t :: alike(s, t) ==> k.status(s) == k.status(t))
    && (forall s, t, e, e' :: alike(s, t) && SameButNames(e, e') ==> alike(k.decide(s, e), k.decide(t, e')))
  }

  /** And neither the empty log nor a start is an end. */
  ghost predicate Lawful<S(!new)>(k: Reducer<S, Event>, alike: (S, S) -> bool) {
    && Absorbing(k) && BlindToNames(k, alike)
    && !Terminal(k.status(k.initial))
    && (forall e: Event :: e.typ.RunStarted? ==> !Terminal(k.status(k.decide(k.initial, e))))
  }

  /** The same command line, except that a new id may have been minted. */
  predicate SameFlags(f: Flags, g: Flags) {
    g.(newID := f.newID, atSeq := f.atSeq) == f
  }

  lemma {:induction false} StartsDiffer(f: Flags, a: int, g: Flags, b: int, e: Event)
    requires SameFlags(f, g)
    ensures SameButNames(Copy(f, a, e), Copy(g, b, e))
  {
    StartKeepsTheRest(f, a, e.payload);
    StartKeepsTheRest(g, b, e.payload);
    hide StartPayload;
    var x, y := StartPayload(f, a, e.payload), StartPayload(g, b, e.payload);
    forall key | key != "run_id" && key != "forked_at_seq"
      ensures (key in x <==> key in y) && (key in x ==> x[key] == y[key])
    {
      assert Overwrites(f, key) == Overwrites(g, key);
      assert Overwrites(f, key) ==> NewValue(f, a, key) == NewValue(g, b, key);
    }
  }

  /** Neither the minted id nor the recorded fork point makes a difference to the status of the fold. */
  lemma {:induction false} CopiesFoldAlike<S(!new)>(k: Reducer<S, Event>, alike: (S, S) -> bool, f: Flags, a: int,
                                                    g: Flags, b: int,
                                                    prefix: seq<Event>)
    requires Lawful(k, alike) && SameFlags(f, g)
    ensures alike(Fold(k, k.initial, Copies(f, a, prefix)), Fold(k, k.initial, Copies(g, b, prefix)))
    ensures StatusOf(k, Copies(f, a, prefix)) == StatusOf(k, Copies(g, b, prefix))
    decreases |prefix|
  {
    hide Copies, Copy, SameButNames, Fold;
    if prefix == [] {
      CopiesUnfold(k, f, a, []);
      CopiesUnfold(k, g, b, []);
    } else {
      var front, last := prefix[..|prefix| - 1], prefix[|prefix| - 1];
      CopiesFoldAlike(k, alike, f, a, g, b, front);
      CopiesUnfold(k, f, a, prefix);
      CopiesUnfold(k, g, b, prefix);
      StartsDiffer(f, a, g, b, last);
    }
  }

  lemma {:induction false} CopiesUnfold<S>(k: Reducer<S, Event>, f: Flags, atSeq: int, prefix: seq<Event>)
    ensures prefix == [] ==> Fold(k, k.initial, Copies(f, atSeq, prefix)) == k.initial
    ensures prefix != [] ==>
              Fold(k, k.initial, Copies(f, atSeq, prefix))
              == k.decide(Fold(k, k.initial, Copies(f, atSeq, prefix[..|prefix| - 1])),
                  Copy(f, atSeq, prefix[|prefix| - 1]))
  {
    hide Copy;
    if prefix == [] {
      return;
    }
    var n := |prefix| - 1;
    assert Copies(f, atSeq, prefix) == Copies(f, atSeq, prefix[..n]) + [Copy(f, atSeq, prefix[n])];
    FoldAppend(k, k.initial, Copies(f, atSeq, prefix[..n]), Copy(f, atSeq, prefix[n]));
  }

  /** The fork would be born terminal if it held the first i events. */
  ghost predicate Dead<S>(k: Reducer<S, Event>, f: Flags, events: seq<Event>, i: nat)
    requires i <= |events|
  {
    Terminal(StatusOf(k, Copies(f, 0, events[..i])))
  }

  lemma {:induction false} DeadAtAnyPoint<S(!new)>(k: Reducer<S, Event>, alike: (S, S) -> bool, f: Flags, g: Flags,
                                                   events: seq<Event>, i: nat, atSeq: int)
    requires Lawful(k, alike) && SameFlags(f, g) && i <= |events|
    ensures Dead(k, f, events, i) <==> Terminal(StatusOf(k, Copies(g, atSeq, events[..i])))
  {
    CopiesFoldAlike(k, alike, f, 0, g, atSeq, events[..i]);
  }

  lemma {:induction false} DeadStays<S(!new)>(k: Reducer<S, Event>, alike: (S, S) -> bool, f: Flags,
                                              events: seq<Event>, i: nat, j: nat)
    requires Lawful(k, alike) && i <= j <= |events| && Dead(k, f, events, i)
    ensures Dead(k, f, events, j)
  {
    hide Copy;
    var a, b := Copies(f, 0, events[..i]), Copies(f, 0, events[..j]);
    assert a == b[..i] && b == a + b[i..];
    TerminalStays(k, a, b[i..]);
  }

  /** FirstTerminal of a fork holding the first n events. */
  function TurnsAt<S>(k: Reducer<S, Event>, f: Flags, events: seq<Event>, atSeq: int, n: nat): int
    requires n <= |events|
  {
    FirstTerminal(k, Copies(f, atSeq, events[..n]), events[..n])
  }

  lemma {:induction false} TurnsAtUnfold<S(!new)>(k: Reducer<S, Event>, alike: (S, S) -> bool, f: Flags,
                                                  events: seq<Event>, atSeq: int, n: nat)
    requires Lawful(k, alike)
    ensures TurnsAt(k, f, events, atSeq, 0) == 0
    ensures n < |events| ==>
              TurnsAt(k, f, events, atSeq, n + 1)
              == var before := TurnsAt(k, f, events, atSeq, n);
                 if before == 0 && Dead(k, f, events, n + 1) then events[n].seq_ else before
  {
    if n >= |events| {
      return;
    }
    var prefix := events[..n + 1];
    var copied := Copies(f, atSeq, prefix);
    DeadAtAnyPoint(k, alike, f, f, events, n + 1, atSeq);
    hide Dead, Lawful, StatusOf, Copy;
    assert prefix[..n] == events[..n] && copied[..n] == Copies(f, atSeq, events[..n]);
  }

  /** FirstTerminal is where the fold turns terminal, by its number in the parent. */
  lemma {:induction false} FirstTerminalIs<S(!new)>(k: Reducer<S, Event>, alike: (S, S) -> bool, f: Flags,
                                                    events: seq<Event>, atSeq: int, n: nat)
    requires Lawful(k, alike) && n <= |events| && (forall i | 0 <= i < n :: events[i].seq_ >= 1)
             && !Dead(k, f, events, 0)
    ensures var t := TurnsAt(k, f, events, atSeq, n);
            if Dead(k, f, events, n) then exists i :: 0 <= i < n && t == events[i].seq_ && !Dead(k, f, events, i)
                                                      && Dead(k, f, events, i + 1)
            else t == 0
    decreases n
  {
    hide Dead, Lawful, TurnsAt;
    if n > 0 {
      FirstTerminalIs(k, alike, f, events, atSeq, n - 1);
      TurnsAtUnfold(k, alike, f, events, atSeq, n - 1);
      if Dead(k, f, events, n - 1) {
        DeadStays(k, alike, f, events, n - 1, n);
      }
    } else {
      TurnsAtUnfold(k, alike, f, events, atSeq, 0);
    }
  }

  /** A fork at b holds n events; whether it is written depends on those alone. */
  lemma {:induction false} WrittenIffAlive<S(!new)>(k: Reducer<S, Event>, alike: (S, S) -> bool, f: Flags, g: Flags,
                                                    events: seq<Event>, b: int)
    requires Lawful(k, alike) && SameFlags(f, g) && Increasing(events) && events != [] && events[0].typ.RunStarted?
    requires events[0].seq_ <= b <= events[|events| - 1].seq_
    ensures var n := |Prefix(events, b)|;
            0 < n <= |events| && (ForkAt(k, events, g, b).Written? <==> !Dead(k, f, events, n))
            && (Dead(k, f, events, n) ==>
                  ForkAt(k, events, g, b) == BornTerminal(TurnsAt(k, g, events, b, n) - 1))
  {
    hide Prefix, Dead, Copies, Lawful, StatusOf, FirstTerminal, Numbered;
    PrefixOfIncreasing(events, b);
    var n := |Prefix(events, b)|;
    assert events[..n][0] == events[0];
    DeadAtAnyPoint(k, alike, f, g, events, n, b);
  }

  /**
   The seq the refusal suggests works if the command is typed again with it and the same flags,
   whatever id that one mints, and it is the last one that does: a fork of this parent at b under
   the same flags is written if and only if b is not past the suggested seq.
   */
  lemma {:induction false} SuggestionIsTheLast<S(!new)>(k: Reducer<S, Event>, alike: (S, S) -> bool, f: Flags,
                                                        g: Flags, events: seq<Event>,
                                                        a: int, b: int)
    requires Lawful(k, alike) && SameFlags(f, g) && Increasing(events) && events != [] && events[0].seq_ >= 1
    ensures var o := ForkAt(k, events, f, a);
            o.BornTerminal? ==>
              (events[0].seq_ <= o.suggested < a
               && (events[0].seq_ <= b <= events[|events| - 1].seq_ ==>
                     (ForkAt(k, events, g, b).Written? <==> b <= o.suggested)))
  {
    hide Lawful, Prefix, Dead, TurnsAt, ForkAt;
    var o := ForkAt(k, events, f, a);
    if o.BornTerminal? {
      RefusedForks(k, events, f, a);
      PrefixOfIncreasing(events, a);
      PrefixOfIncreasing(events, b);
      WrittenIffAlive(k, alike, f, f, events, a);
      var n, m := |Prefix(events, a)|, |Prefix(events, b)|;
      StartIsAlive(k, alike, f, events);
      FirstTerminalIs(k, alike, f, events, a, n);
      var t :| 0 <= t < n && TurnsAt(k, f, events, a, n) == events[t].seq_ && !Dead(k, f, events, t)
          && Dead(k, f, events, t + 1);
      if events[0].seq_ <= b <= events[|events| - 1].seq_ {
        WrittenIffAlive(k, alike, f, g, events, b);
        if m <= t {
          if Dead(k, f, events, m) {
            DeadStays(k, alike, f, events, m, t);
          }
        } else {
          DeadStays(k, alike, f, events, t + 1, m);
        }
      }
    }
  }

  /** What a refusal says about the log: it has the fork point and begins with a start. */
  lemma {:induction false} RefusedForks<S>(k: Reducer<S, Event>, events: seq<Event>, f: Flags, a: int)
    requires events != [] && Increasing(events) && ForkAt(k, events, f, a).BornTerminal?
    ensures events[0].seq_ <= a <= events[|events| - 1].seq_ && events[0].typ.RunStarted?
  {
    PrefixOfIncreasing(events, a);
    hide Prefix, Copies, StatusOf;
  }

  lemma {:induction false} StartIsAlive<S(!new)>(k: Reducer<S, Event>, alike: (S, S) -> bool, f: Flags,
                                                 events: seq<Event>)
    requires Lawful(k, alike) && events != [] && events[0].typ.RunStarted?
    ensures !Dead(k, f, events, 0) && !Dead(k, f, events, 1)
  {
    assert Copies(f, 0, events[..0]) == [];
    var one := Copies(f, 0, events[..1]);
    assert one == [] + [one[0]];
    FoldAppend(k, k.initial, [], one[0]);
  }

  // ------------------------------------------------------------------ the command the refusal prints

  /** What it prints after the seq: nothing, so no --budget and no --blueprint. */
  predicate WithoutOptions(f: Flags) {
    f.budget == 0.0 && f.bpName == "" && f.bpSHA == ""
  }

  /**
   The printed command folds with the parent's own configuration, `own`, where the refused one may have
   folded with the blueprint it was given, `used`. It works exactly if the parent, forked without
   options at the same seq, would not have been refused or would have been told no smaller a seq.
   */
  lemma {:induction false} PrintedCommandWorksIff<S(!new)>(own: Reducer<S, Event>, used: Reducer<S, Event>,
                                                           alike: (S, S) -> bool, f: Flags, g: Flags,
                                                           events: seq<Event>, a: int)
    requires Lawful(own, alike) && Lawful(used, alike) && WithoutOptions(g)
    requires Increasing(events) && events != [] && events[0].seq_ >= 1
    ensures var o, plain := ForkAt(used, events, f, a), ForkAt(own, events, g, a);
            o.BornTerminal? ==>
              (ForkAt(own, events, g, o.suggested).Written?
               <==> plain.Written? || (plain.BornTerminal? && o.suggested <= plain.suggested))
  {
    hide Lawful, Dead, ForkAt;
    var o, plain := ForkAt(used, events, f, a), ForkAt(own, events, g, a);
    if o.BornTerminal? {
      RefusedForks(used, events, f, a);
      SuggestionIsTheLast(used, alike, f, f, events, a, a);
      SuggestionIsTheLast(own, alike, g, g, events, a, o.suggested);
      WrittenBefore(own, alike, g, events, o.suggested, a);
    }
  }

  /** Below the fork point of a fork that is written, every other one is written too. */
  lemma {:induction false} WrittenBefore<S(!new)>(k: Reducer<S, Event>, alike: (S, S) -> bool, g: Flags,
                                                  events: seq<Event>, b: int, a: int)
    requires Lawful(k, alike) && Increasing(events) && events != [] && events[0].typ.RunStarted?
    requires events[0].seq_ <= b <= a <= events[|events| - 1].seq_
    ensures ForkAt(k, events, g, a).Written? || ForkAt(k, events, g, a).BornTerminal?
    ensures ForkAt(k, events, g, a).Written? ==> ForkAt(k, events, g, b).Written?
  {
    hide Lawful, Dead, ForkAt, Prefix;
    WrittenIffAlive(k, alike, g, g, events, a);
    WrittenIffAlive(k, alike, g, g, events, b);
    PrefixOfIncreasing(events, a);
    PrefixOfIncreasing(events, b);
    var n, m := |Prefix(events, a)|, |Prefix(events, b)|;
    if Dead(k, g, events, m) {
      DeadStays(k, alike, g, events, m, n);
    }
  }

  /** A kernel in which a run succeeds at the event its blueprint names, and a cancel always ends it. */
  function Ends(last: string): Reducer<Status, Event> {
    Reducer(NotStarted,
            (s: Status, e: Event) =>
              if Terminal(s) then s
              else if e.typ.RunStarted? then Running
              else if e.typ == OtherType("run.cancelled") then Cancelled
              else if e.typ == OtherType(last) then Succeeded
              else s,
            (s: Status) => s)
  }

  function EventAt(n: int, typ: Type): Event {
    Event(n, "", typ, "", [], map[])
  }

  /** A run that is over at seq 2 under its own blueprint, and was cancelled at seq 3. */
  const ENDED_TWICE: seq<Event> := [EventAt(1, RunStarted)] + ([EventAt(2, OtherType("built"))]
                                                              + [EventAt(3, OtherType("run.cancelled"))])

  lemma {:induction false} EndsIsLawful(last: string)
    ensures Lawful(Ends(last), (s: Status, t: Status) => s == t)
  {
  }

  lemma {:induction false} EndedTwiceIsContiguous()
    ensures Contiguous(ENDED_TWICE) && Increasing(ENDED_TWICE) && |ENDED_TWICE| == 3
  {
  }

  /** The statuses of its first events, as a fork has them. */
  lemma {:induction false} StatusesOfEndedTwice(last: string, f: Flags, atSeq: int)
    ensures var k := Ends(last);
            && StatusOf(k, Copies(f, atSeq, ENDED_TWICE[..1])) == Running
            && StatusOf(k, Copies(f, atSeq, ENDED_TWICE[..2])) == (if last == "built" then Succeeded else Running)
            && StatusOf(k, Copies(f, atSeq, ENDED_TWICE)) == if last == "built" then Succeeded else Cancelled
  {
    assert forall e: Event :: Copy(f, atSeq, e).typ == e.typ;
    hide Copies, Copy, Fold;
    var k, all := Ends(last), ENDED_TWICE;
    assert all[..3] == all;
    CopiesUnfold(k, f, atSeq, []);
    forall i: nat | i < 3
      ensures Fold(k, k.initial, Copies(f, atSeq, all[..i + 1]))
              == k.decide(Fold(k, k.initial, Copies(f, atSeq, all[..i])), Copy(f, atSeq, all[i]))
    {
      CopiesUnfold(k, f, atSeq, all[..i + 1]);
      assert all[..i + 1][..i] == all[..i];
    }
    assert all[..0] == [];
  }

  lemma {:induction false} EndedTwiceTurns(last: string, f: Flags, atSeq: int)
    ensures var k, all := Ends(last), ENDED_TWICE;
            && FirstTerminal(k, Copies(f, atSeq, all[..2]), all[..2]) == (if last == "built" then 2 else 0)
            && FirstTerminal(k, Copies(f, atSeq, all), all) == if last == "built" then 2 else 3
  {
    hide Copy, Fold, StatusOf, FirstTerminal;
    var k, all := Ends(last), ENDED_TWICE;
    var copied := Copies(f, atSeq, all);
    StatusesOfEndedTwice(last, f, atSeq);
    FoldUnfold(k, copied, all, 0);
    FoldUnfold(k, copied, all, 1);
    FoldUnfold(k, copied, all, 2);
    assert copied[..1] == Copies(f, atSeq, all[..1]) && copied[..2] == Copies(f, atSeq, all[..2]);
    assert copied[..3] == copied && all[..3] == all;
  }

  /**
   The case in which it does not work: a fork at the cancel, with a blueprint under which the run was not
   over before, is told to fork from seq 2, and the command printed for that is refused as well.
   */
  lemma {:induction false} PrintedCommandRefused(f: Flags, g: Flags)
    ensures Increasing(ENDED_TWICE)
    ensures ForkAt(Ends("deployed"), ENDED_TWICE, f, 3) == BornTerminal(2)
    ensures ForkAt(Ends("built"), ENDED_TWICE, g, 2) == BornTerminal(1)
  {
    hide Copies, Copy, Fold, Prefix, StatusOf;
    EndedTwiceIsContiguous();
    ContiguousPrefix(ENDED_TWICE, 3);
    ContiguousPrefix(ENDED_TWICE, 2);
    assert ENDED_TWICE[..3] == ENDED_TWICE;
    StatusesOfEndedTwice("deployed", f, 3);
    StatusesOfEndedTwice("built", g, 2);
    EndedTwiceTurns("deployed", f, 3);
    EndedTwiceTurns("built", g, 2);
  }
}
