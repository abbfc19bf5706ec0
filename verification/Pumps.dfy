/**
 The two mutable objects of cmd/arxi/serve_stream.go on their own: the pump's delivery loop
 (subscriptionPump.run) against arbitrary outcomes of its calls, and the connection's lists of
 pumps (connStreams). Streams has the interleaving of all of them; Follow is its client.
 */
module Pumps {
  import opened Bytes
  import opened Streams

  /** Next never returns an empty batch. */
  type Size = n: nat | n > 0 witness 1

  /**
   One turn of the pump's loop: the size of the batch Next returned or None for its error, the
   job Inspect returned if it did, whether the write went through, whether ctx was cancelled.
   */
  datatype Turn = Turn(next: Option<Size>, inspect: Option<Job>, writes: bool, cancelled: bool)

  /** The turn at which the loop stops. */
  predicate Stops(markers: bool, after: nat, t: Turn) {
    t.next.None? || !t.writes || Marks(markers, after + t.next.value, t.inspect)
  }

  predicate Marks(markers: bool, after: nat, inspect: Option<Job>) {
    markers && inspect.Some? && inspect.value.ended.Some? && after >= inspect.value.head
  }

  /** Whether a last turn leaves a message: an error is not reported once ctx is cancelled. */
  predicate Speaks(t: Turn) {
    t.writes && (t.next.Some? || !t.cancelled)
  }

  /** What the turn puts on the wire. */
  function NoteOf(markers: bool, after: nat, t: Turn): Option<Note> {
    if !Speaks(t) then None
    else if t.next.None? then Some(Failure(after))
    else
      var to := after + t.next.value;
      Some(Events(to, Numbers(after, to), Marks(markers, to, t.inspect)))
  }

  function Advance(t: Turn): nat {
    if t.next.Some? then t.next.value else 0
  }

  /** The cursor after the first k turns, had they all delivered. */
  function Reached(after: nat, turns: seq<Turn>, k: nat): nat
    requires k <= |turns|
  {
    if k == 0 then after
    else Reached(after, turns, k - 1) + Advance(turns[k - 1])
  }

  class SubscriptionPump {
    const markers: bool
    var after: nat
    var subClosed: bool
    var latchCloses: nat

    constructor (after: nat, markers: bool)
      ensures this.after == after && this.markers == markers && !subClosed && latchCloses == 0
    {
      this.after, this.markers, subClosed, latchCloses := after, markers, false, 0;
    }

    /** One turn of the loop: what goes on the wire is what a client at this cursor expects. */
    method Deliver(turn: Turn) returns (note: Option<Note>)
      requires !subClosed
      modifies this`after, this`subClosed
      ensures after == old(after) + Advance(turn)
      ensures subClosed <==> Stops(markers, old(after), turn)
      ensures note == NoteOf(markers, old(after), turn) && (note.Some? <==> Speaks(turn))
      ensures note.None? ==> subClosed
      ensures note.Some? ==> Hear(Open(old(after)), note.value) == if subClosed then Finished(after) else Open(after)
    {
      if turn.next.None? {
        note := if !turn.cancelled && turn.writes then Some(Failure(after)) else None;
        subClosed := true;
        return;
      }
      var events := Numbers(after, after + turn.next.value);
      after := after + turn.next.value;
      var terminal := Marks(markers, after, turn.inspect);
      note := if turn.writes then Some(Events(after, events, terminal)) else None;
      subClosed := terminal || !turn.writes;
    }

    /**
     run, from the moment the latch is closed. It stops at the first
     turn that says so; if none does it has taken them all.
     */
    method Run(turns: seq<Turn>) returns (notes: seq<Note>, used: nat)
      requires latchCloses == 1 && !subClosed
      modifies this`after, this`subClosed
      ensures Told(markers, old(after), turns, used, notes, after, subClosed)
      ensures !subClosed ==> used == |turns|
    {
      hide Told, Hear, Stops, Speaks, Follow, Reached, Advance;
      notes, used := [], 0;
      ghost var start := after;
      ToldStart(markers, start, turns);
      while used < |turns| && !subClosed
        invariant used <= |turns| && Told(markers, start, turns, used, notes, after, subClosed)
      {
        var turn := turns[used];
        ToldCursor(markers, start, turns, used, notes, after, subClosed);
        var note := Deliver(turn);
        if note.Some? {
          ToldNext(markers, start, turns, used, notes, note.value, after, subClosed);
          notes := notes + [note.value];
        } else {
          ToldNothing(markers, start, turns, used, notes);
        }
        used := used + 1;
      }
    }
  }

  /**
   What run has done after `used` turns: it went on exactly while no turn stopped it, every turn
   before the last put one notification on the wire and the last one did if it speaks, and a
   client that started with the pump is at the pump's cursor, or has been told the end.
   */
  ghost predicate Told(markers: bool, start: nat, turns: seq<Turn>, used: nat, notes: seq<Note>, after: nat,
                       closed: bool) {
    && used <= |turns| && after == Reached(start, turns, used)
    && (forall i | 0 <= i < used - 1 :: !Stops(markers, Reached(start, turns, i), turns[i]))
    && (closed <==> used > 0 && Stops(markers, Reached(start, turns, used - 1), turns[used - 1]))
    && |notes| == (if closed && !Speaks(turns[used - 1]) then used - 1 else used)
    && !Follow(start, notes).Broken?
    && (|notes| == used ==> Follow(start, notes) == if closed then Finished(after) else Open(after))
  }

  lemma {:induction false} ToldStart(markers: bool, start: nat, turns: seq<Turn>)
    ensures Told(markers, start, turns, 0, [], start, false)
  {
  }

  lemma {:induction false} ToldCursor(markers: bool, start: nat, turns: seq<Turn>, used: nat, notes: seq<Note>,
                                      after: nat, closed: bool)
    requires Told(markers, start, turns, used, notes, after, closed)
    ensures used <= |turns| && after == Reached(start, turns, used)
    ensures used < |turns| ==> Reached(start, turns, used + 1) == after + Advance(turns[used])
  {
  }

  lemma {:induction false} ToldNext(markers: bool, start: nat, turns: seq<Turn>, used: nat, notes: seq<Note>,
                                    note: Note, after: nat, closed: bool)
    requires used < |turns| && Told(markers, start, turns, used, notes, Reached(start, turns, used), false)
    requires after == Reached(start, turns, used + 1) && Speaks(turns[used])
    requires closed <==> Stops(markers, Reached(start, turns, used), turns[used])
    requires Hear(Open(Reached(start, turns, used)), note) == if closed then Finished(after) else Open(after)
    ensures Told(markers, start, turns, used + 1, notes + [note], after, closed)
  {
    FollowUnfold(start, notes, note);
    hide Follow, Hear, Stops, Speaks, Reached;
  }

  lemma {:induction false} ToldNothing(markers: bool, start: nat, turns: seq<Turn>, used: nat, notes: seq<Note>)
    requires used < |turns| && Told(markers, start, turns, used, notes, Reached(start, turns, used), false)
    requires Stops(markers, Reached(start, turns, used), turns[used]) && !Speaks(turns[used])
    ensures Told(markers, start, turns, used + 1, notes, Reached(start, turns, used + 1), true)
  {
    hide Follow, Hear, Stops, Speaks, Reached;
  }

  // ------------------------------------------------------------------ the same pump as in Streams

  /** One turn as the atomic actions of the connection's machine: Next, Inspect if it delivered, the write. */
  function Turned(p: Pump, job: Job, t: Turn): (Pump, Option<Note>) {
    match t.next
    case None =>
      var failed := Pumped(p, job, t.cancelled, Error).0;
      if failed.phase.Failing? then Pumped(failed, job, t.cancelled, Written(t.writes)) else (failed, None)
    case Some(n) =>
      var got := Pumped(p, job, t.cancelled, Batch(n)).0;
      var seen := if t.inspect.Some? then t.inspect.value else job;
      var ready := Pumped(got, seen, t.cancelled, Inspected(t.inspect.Some?)).0;
      Pumped(ready, job, t.cancelled, Written(t.writes))
  }

  /**
   A turn of SubscriptionPump.Run is those actions of Streams: the same message, the same cursor,
   and the pump has ended exactly when the loop stops.
   */
  lemma {:induction false} TurnIsTheMachines(p: Pump, job: Job, t: Turn)
    requires p.phase == InNext(true) && !p.subClosed && p.after + Advance(t) <= job.head
    ensures var (p', note) := Turned(p, job, t);
            && note == NoteOf(p.markers, p.after, t)
            && p'.after == p.after + Advance(t)
            && (if Stops(p.markers, p.after, t) then p' == End(p.(after := p'.after)) else p' == p.(after := p'.after))
  {
    hide Numbers;
  }

  predicate Distinct(pumps: seq<SubscriptionPump>) {
    forall i, j | 0 <= i < j < |pumps| :: pumps[i] != pumps[j]
  }

  class ConnStreams {
    var pending: seq<SubscriptionPump>
    var live: seq<SubscriptionPump>

    /** No pump is registered twice; exactly the live ones have their latch closed, once. */
    ghost predicate Valid()
      reads this, pending, live
    {
      && Distinct(live + pending)
      && (forall i | 0 <= i < |pending| :: pending[i].latchCloses == 0)
      && (forall i | 0 <= i < |live| :: live[i].latchCloses == 1)
    }

    constructor ()
      ensures Valid() && pending == [] && live == []
    {
      pending, live := [], [];
    }

    method Register(p: SubscriptionPump)
      requires Valid() && p !in pending && p !in live && p.latchCloses == 0
      modifies this`pending
      ensures Valid() && pending == old(pending) + [p]
    {
      pending := pending + [p];
      assert live + pending == old(live + pending) + [p];
    }

    /** Every registered latch is closed here and no other; the order of registration is kept. */
    method ReleasePending() returns (released: seq<SubscriptionPump>)
      requires Valid()
      modifies this, (set p | p in pending)`latchCloses
      ensures Valid() && pending == [] && live == old(live) + released && released == old(pending)
    {
      released := pending;
      live := live + pending;
      pending := [];
      assert live + pending == old(live + pending);
      var i := 0;
      while i < |released|
        invariant i <= |released| && pending == [] && live == old(live) + released && Distinct(live)
        invariant forall j | 0 <= j < |old(live)| :: old(live)[j].latchCloses == 1
        invariant forall j | 0 <= j < |released| :: released[j].latchCloses == if j < i then 1 else 0
      {
        assert forall j | 0 <= j < |released| :: released[j] == live[|old(live)| + j];
        released[i].latchCloses := released[i].latchCloses + 1;
        i := i + 1;
      }
    }

    /** closeAll up to its wait: every pump ever registered and not yet dropped, released or not. */
    method CloseAll()
      requires Valid()
      modifies this, (set p | p in pending + live)`subClosed
      ensures pending == [] && live == []
      ensures forall p | p in old(pending) || p in old(live) :: p.subClosed && p.latchCloses == old(p.latchCloses)
    {
      var pumps := pending + live;
      assert forall p | p in pending || p in live :: p in pumps;
      pending, live := [], [];
      var i := 0;
      while i < |pumps|
        invariant i <= |pumps| && pending == [] && live == []
        invariant forall p | p in pumps[..i] :: p.subClosed
        invariant forall p | p in pumps :: p.latchCloses == old(p.latchCloses)
      {
        pumps[i].subClosed := true;
        i := i + 1;
        assert pumps[..i] == pumps[..i - 1] + [pumps[i - 1]];
      }
      assert pumps[..i] == pumps;
    }
  }
}
