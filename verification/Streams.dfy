/**
 Event streaming on one protocol connection (cmd/arxi/serve_stream.go, cmd/arxi/serve.go): a
 request loop and any number of subscription pumps share one writer. The machine below takes
 one atomic action at a time, in any order; the wire is the sequence of messages that got out.

 Next, Inspect and every write have whatever outcome the action says. Of Next it is assumed
 that a batch holds consecutive committed events (JobStore.Subscription.Next), and that Close
 makes it return: a call begun before Close may still deliver, a later one fails.
 */
module Streams {
  import opened Bytes

  datatype Note = Events(after: nat, events: seq<nat>, terminal: bool) | Failure(after: nat)

  /** ack: the pump this response acknowledges, when the request was an attach that subscribed. */
  datatype Msg = Hello | Response(request: nat, ack: Option<nat>) | LineTooLong | Push(pump: nat, note: Note)

  datatype Line = Blank | Oversized | Request

  /** head: its last event; ended: the event its run became terminal at. */
  datatype Job = Job(head: nat, ended: Option<nat>)

  datatype Phase =
    | Pending                                   // registered, latch open
    | InNext(early: bool)                       // early: the call began before Close
    | Got(events: seq<nat>)
    | Ready(events: seq<nat>, terminal: bool)
    | Failing
    | Ended

  datatype Pump = Pump(job: nat, start: nat, markers: bool, phase: Phase, after: nat, subClosed: bool, latchCloses: nat)

  datatype Why = Eof | TooLong | ReadFailed | WriteFailed

  datatype Loop =
    | Starting
    | Reading
    | Answering(request: nat, ack: Option<nat>) // dispatched, response not written yet
    | Releasing
    | Closing(k: nat, why: Why)                 // closeAll, k subscriptions closed so far
    | Waiting(why: Why)                         // closeAll, in wg.Wait
    | Done(why: Why)

  /** next: lines scanned; answered: lines skipped or answered. */
  datatype World = World(lines: seq<Line>, next: nat, answered: nat, loop: Loop, wire: seq<Msg>,
                         pumps: seq<Pump>, jobs: seq<Job>, cancelled: bool)

  datatype Outcome = Batch(n: nat) | Error | Inspected(ok: bool) | Written(ok: bool)

  /** What dispatchAttach subscribed to. */
  datatype Attach = Attach(job: nat, after: nat, markers: bool)

  datatype Action =
    | LoopStep(ok: bool, attach: Option<Attach>)
    | ReadFails
    | PumpStep(p: nat, outcome: Outcome)
    | JobGrows(j: nat, n: nat)
    | JobEnds(j: nat)
    | Cancel

  function Numbers(a: nat, b: nat): (s: seq<nat>)
    requires a <= b
    ensures |s| == b - a
  {
    seq(b - a, i requires 0 <= i => a + 1 + i)
  }

  function End(p: Pump): Pump {
    p.(phase := Ended, subClosed := true)
  }

  /** subscriptionPump.run, one action at a time, and what it writes. */
  function Pumped(p: Pump, job: Job, cancelled: bool, o: Outcome): (Pump, Option<Note>) {
    match (p.phase, o)
    case (InNext(early), Batch(n)) =>
      if early && 0 < n && p.after + n <= job.head
      then (p.(after := p.after + n, phase := Got(Numbers(p.after, p.after + n))), None) else (p, None)
    case (InNext(_), Error) =>
      (if cancelled then End(p) else p.(phase := Failing), None)
    case (Got(events), Inspected(ok)) =>
      (p.(phase := Ready(events, p.markers && ok && job.ended.Some? && p.after >= job.head)), None)
    case (Ready(events, terminal), Written(ok)) =>
      (if terminal || !ok then End(p) else p.(phase := InNext(!p.subClosed)),
       if ok then Some(Events(p.after, events, terminal)) else None)
    case (Failing, Written(ok)) =>
      (End(p), if ok then Some(Failure(p.after)) else None)
    case _ => (p, None)
  }

  function Sent(w: World, ok: bool, m: Msg): seq<Msg> {
    if ok then w.wire + [m] else w.wire
  }

  /** The lowest pump still waiting for its latch, |pumps| when there is none. */
  function FirstPending(pumps: seq<Pump>): (p: nat)
    ensures p <= |pumps| && (p < |pumps| ==> pumps[p].phase.Pending?)
    ensures forall q | 0 <= q < p :: !pumps[q].phase.Pending?
  {
    if pumps == [] || pumps[0].phase.Pending? then 0 else 1 + FirstPending(pumps[1..])
  }

  predicate Running(p: Pump) {
    !p.phase.Pending? && !p.phase.Ended?
  }

  /** serveConnSessionContext, one action at a time. */
  function Looped(w: World, ok: bool, attach: Option<Attach>): World {
    match w.loop
    case Starting =>
      w.(wire := Sent(w, ok, Hello), loop := if ok then Reading else Closing(0, WriteFailed))
    case Reading =>
      if w.next >= |w.lines| then w.(loop := Closing(0, Eof))
      else
        (match w.lines[w.next]
         case Blank => w.(next := w.next + 1, answered := w.next + 1)
         case Oversized => w.(next := w.next + 1, wire := Sent(w, ok, LineTooLong), loop := Closing(0, TooLong))
         case Request =>
           if attach.Some? && attach.value.job < |w.jobs|
           then w.(next := w.next + 1, loop := Answering(w.next, Some(|w.pumps|)),
                   pumps := w.pumps + [Pump(attach.value.job, attach.value.after, attach.value.markers, Pending,
                       attach.value.after, false, 0)])
           else w.(next := w.next + 1, loop := Answering(w.next, None)))
    case Answering(request, ack) =>
      if ok then w.(wire := w.wire + [Response(request, ack)], loop := Releasing, answered := request + 1)
      else w.(loop := Closing(0, WriteFailed))
    case Releasing =>
      var p := FirstPending(w.pumps);
      if p < |w.pumps|
      then w.(pumps := w.pumps[p := w.pumps[p].(phase := InNext(!w.pumps[p].subClosed),
          latchCloses := w.pumps[p].latchCloses + 1)])
      else w.(loop := Reading)
    case Closing(k, why) =>
      if k < |w.pumps| then w.(pumps := w.pumps[k := w.pumps[k].(subClosed := true)], loop := Closing(k + 1, why))
      else w.(loop := Waiting(why))
    case Waiting(why) =>
      if forall p | 0 <= p < |w.pumps| :: !Running(w.pumps[p]) then w.(loop := Done(why)) else w
    case Done(_) => w
  }

  /** One action; one that is not enabled changes nothing. */
  function Next(w: World, a: Action): World {
    match a
    case LoopStep(ok, attach) => Looped(w, ok, attach)
    case ReadFails => if w.loop.Reading? then w.(loop := Closing(0, ReadFailed)) else w
    case PumpStep(p, o) =>
      if p < |w.pumps| && w.pumps[p].job < |w.jobs| then
        var (pump, note) := Pumped(w.pumps[p], w.jobs[w.pumps[p].job], w.cancelled, o);
        w.(pumps := w.pumps[p := pump], wire := if note.Some? then w.wire + [Push(p, note.value)] else w.wire)
      else w
    case JobGrows(j, n) =>
      if j < |w.jobs| then w.(jobs := w.jobs[j := w.jobs[j].(head := w.jobs[j].head + n)]) else w
    case JobEnds(j) =>
      if j < |w.jobs| && w.jobs[j].ended.None?
      then w.(jobs := w.jobs[j := w.jobs[j].(ended := Some(w.jobs[j].head))])
      else w
    case Cancel => w.(cancelled := true)
  }

  function Run(w: World, actions: seq<Action>): World
    decreases |actions|
  {
    if actions == [] then w else Run(Next(w, actions[0]), actions[1..])
  }

  predicate Fresh(w: World) {
    && w.next == w.answered == 0 && w.loop == Starting && w.wire == [] && w.pumps == []
    && forall j | 0 <= j < |w.jobs| :: JobOk(w.jobs[j])
  }

  predicate JobOk(job: Job) {
    job.ended.Some? ==> job.ended.value <= job.head
  }

  // ------------------------------------------------------------------ what a client hears

  /** The client's side of one subscription: where its cursor is. */
  datatype Client = Open(after: nat) | Finished(after: nat) | Broken

  function Hear(c: Client, n: Note): Client {
    match n
    case Events(after, events, terminal) =>
      if c.Open? && after > c.after && events == Numbers(c.after, after)
      then if terminal then Finished(after) else Open(after)
      else Broken
    case Failure(after) => if c == Open(after) then Finished(after) else Broken
  }

  function Follow(start: nat, notes: seq<Note>): Client
    decreases |notes|
  {
    if notes == [] then Open(start) else Hear(Follow(start, notes[..|notes| - 1]), notes[|notes| - 1])
  }

  function NotesOf(wire: seq<Msg>, p: nat): seq<Note>
    decreases |wire|
  {
    if wire == [] then [] else
      var last := wire[|wire| - 1];
      NotesOf(wire[..|wire| - 1], p) + if last.Push? && last.pump == p then [last.note] else []
  }

  /** The requests answered on the wire, in wire order. */
  function Responses(wire: seq<Msg>): seq<nat>
    decreases |wire|
  {
    if wire == [] then [] else
      var last := wire[|wire| - 1];
      Responses(wire[..|wire| - 1]) + if last.Response? then [last.request] else []
  }

  /** The requests among the first k lines. */
  function Requests(lines: seq<Line>, k: nat): seq<nat>
    requires k <= |lines|
  {
    if k == 0 then [] else Requests(lines, k - 1) + if lines[k - 1].Request? then [k - 1] else []
  }

  function EventsOf(notes: seq<Note>): seq<nat>
    decreases |notes|
  {
    if notes == [] then [] else
      var last := notes[|notes| - 1];
      EventsOf(notes[..|notes| - 1]) + if last.Events? then last.events else []
  }

  predicate Final(n: Note) {
    n.Failure? || n.terminal
  }

  /** What a client that is not Broken has seen: consecutive events from `start`, nothing after the end. */
  lemma {:induction false} UnbrokenMeans(start: nat, notes: seq<Note>)
    requires !Follow(start, notes).Broken?
    ensures var c := Follow(start, notes);
            start <= c.after && EventsOf(notes) == Numbers(start, c.after)
            && (forall i | 0 <= i < |notes| - 1 :: !Final(notes[i]))
            && (c.Finished? <==> notes != [] && Final(notes[|notes| - 1]))
    decreases |notes|
  {
    if notes != [] {
      var front := notes[..|notes| - 1];
      UnbrokenMeans(start, front);
      assert forall i | 0 <= i < |notes| - 1 :: notes[i] == front[i];
      assert Numbers(start, Follow(start, notes).after)
          == Numbers(start, Follow(start, front).after) + Numbers(Follow(start, front).after,
              Follow(start, notes).after);
    }
  }

  lemma {:induction false} SentUnfold(wire: seq<Msg>, m: Msg)
    ensures forall p: nat :: NotesOf(wire + [m], p) == if m.Push?
             && m.pump == p then NotesOf(wire, p) + [m.note] else NotesOf(wire, p)
    ensures Responses(wire + [m]) == if m.Response? then Responses(wire) + [m.request] else Responses(wire)
  {
    assert (wire + [m])[..|wire|] == wire;
  }

  lemma {:induction false} FollowUnfold(start: nat, notes: seq<Note>, n: Note)
    ensures Follow(start, notes + [n]) == Hear(Follow(start, notes), n)
  {
    assert (notes + [n])[..|notes|] == notes;
  }

  // ------------------------------------------------------------------ the invariant, one pump

  predicate EndedBy(job: Job, after: nat) {
    job.ended.Some? && job.ended.value <= after
  }

  ghost predicate PumpOk(p: Pump, job: Job, notes: seq<Note>) {
    && p.latchCloses == (if p.phase.Pending? then 0 else 1)
    && (forall i | 0 <= i < |notes| :: notes[i].Events? && notes[i].terminal ==>
          p.markers && EndedBy(job, notes[i].after))
    && match p.phase
       case Pending => notes == [] && p.after == p.start
       case InNext(_) => Follow(p.start, notes) == Open(p.after)
       case Got(events) => Awaits(p, events, notes)
       case Ready(events, terminal) => Awaits(p, events, notes) && (terminal ==> p.markers && EndedBy(job, p.after))
       case Failing => Follow(p.start, notes) == Open(p.after)
       case Ended => p.subClosed && !Follow(p.start, notes).Broken?
  }

  ghost predicate Awaits(p: Pump, events: seq<nat>, notes: seq<Note>) {
    0 < |events| <= p.after && Follow(p.start, notes) == Open(p.after - |events|)
        && events == Numbers(p.after - |events|, p.after)
  }

  /** What a pump step puts on the wire is what its client expects next. */
  lemma {:induction false} PumpedShape(p: Pump, job: Job, cancelled: bool, o: Outcome)
    ensures var (p', note) := Pumped(p, job, cancelled, o);
            && (p.phase.Pending? ==> p' == p && note.None?) && p'.job == p.job && p'.start == p.start
            && (p'.phase.Pending? ==> p.phase.Pending?) && (p.subClosed ==> p'.subClosed)
    ensures !Running(p) ==> Pumped(p, job, cancelled, o) == (p, None)
  {
  }

  lemma {:induction false} PumpedKeepsPump(p: Pump, job: Job, cancelled: bool, o: Outcome, notes: seq<Note>)
    requires PumpOk(p, job, notes) && JobOk(job)
    ensures var (p', note) := Pumped(p, job, cancelled, o);
            PumpOk(p', job, if note.Some? then notes + [note.value] else notes)
            && (p.phase.Pending? ==> p' == p && note.None?) && p'.job == p.job && p'.start == p.start
            && (p'.phase.Pending? ==> p.phase.Pending?) && (p.subClosed ==> p'.subClosed)
  {
    hide Follow;
    PumpedShape(p, job, cancelled, o);
    var note := Pumped(p, job, cancelled, o).1;
    if note.Some? {
      FollowUnfold(p.start, notes, note.value);
    }
  }

  lemma {:induction false} JobKeepsPump(p: Pump, job: Job, job': Job, notes: seq<Note>)
    requires PumpOk(p, job, notes) && (job.ended.Some? ==> job'.ended == job.ended)
    ensures PumpOk(p, job', notes)
  {
    hide Follow;
  }

  // ------------------------------------------------------------------ the invariant, the connection

  predicate AckFor(m: Msg, p: nat) {
    m.Response? && m.ack == Some(p)
  }

  predicate PushFor(m: Msg, p: nat) {
    m.Push? && m.pump == p
  }

  /** The ack of p is on the wire and no notification of p is before it. */
  ghost predicate Acked(wire: seq<Msg>, p: nat) {
    exists i :: 0 <= i < |wire| && AckFor(wire[i], p) && forall j | 0 <= j < i :: !PushFor(wire[j], p)
  }

  predicate TearingDown(loop: Loop) {
    loop.Closing? || loop.Waiting? || loop.Done?
  }

  /** Closed so far by closeAll. */
  function ClosedUpTo(w: World): nat {
    if w.loop.Closing? then w.loop.k else if w.loop.Waiting? || w.loop.Done? then |w.pumps| else 0
  }

  /** What holds of pump p, given the wire, the loop, and how many subscriptions closeAll has closed. */
  ghost predicate PumpAt(p: nat, pump: Pump, jobs: seq<Job>, wire: seq<Msg>, loop: Loop, closed: nat) {
    && pump.job < |jobs| && PumpOk(pump, jobs[pump.job], NotesOf(wire, p))
    && (!pump.phase.Pending? || loop.Releasing? ==> Acked(wire, p))
    && (pump.phase.Pending? ==> loop.Releasing? || TearingDown(loop) || (loop.Answering? && loop.ack == Some(p)))
    && (p < closed ==> pump.subClosed)
    && (loop.Done? ==> !Running(pump))
  }

  ghost predicate PumpInv(w: World, p: nat)
    requires p < |w.pumps|
  {
    PumpAt(p, w.pumps[p], w.jobs, w.wire, w.loop, ClosedUpTo(w))
  }

  predicate WireOk(w: World) {
    && (w.wire != [] ==> w.wire[0] == Hello)
    && (forall i | 0 < i < |w.wire| :: w.wire[i] != Hello)
    && (w.wire == [] ==> (w.loop.Starting? || TearingDown(w.loop)) && w.pumps == [])
    && (w.loop.Starting? ==> w.wire == [])
    && (forall i | 0 <= i < |w.wire| :: w.wire[i].Push? ==> w.wire[i].pump < |w.pumps|)
  }

  predicate LoopOk(w: World) {
    && w.answered <= w.next <= |w.lines|
    && Responses(w.wire) == Requests(w.lines, w.answered)
    && (forall j | 0 <= j < |w.jobs| :: JobOk(w.jobs[j]))
    && ClosedUpTo(w) <= |w.pumps|
    && match w.loop
       case Starting => w.next == 0
       case Reading => w.next == w.answered
       case Releasing => w.next == w.answered
       case Answering(i, ack) => i == w.answered && w.next == i + 1 && w.lines[i].Request?
           && (ack.Some? ==> ack.value < |w.pumps|)
       case Closing(_, why) => EndsFor(w, why)
       case Waiting(why) => EndsFor(w, why)
       case Done(why) => EndsFor(w, why)
  }

  /** How far the answers got, by why the connection ended. */
  predicate EndsFor(w: World, why: Why)
    requires w.answered <= w.next <= |w.lines|
  {
    match why
    case Eof => w.answered == |w.lines|
    case TooLong => w.next == w.answered + 1 && w.lines[w.answered].Oversized?
    case ReadFailed => w.answered == w.next
    case WriteFailed => w.wire == [] || (w.next == w.answered + 1 && w.lines[w.answered].Request?)
  }

  ghost predicate Inv(w: World) {
    WireOk(w) && LoopOk(w) && forall p | 0 <= p < |w.pumps| :: PumpInv(w, p)
  }

  lemma {:induction false} AckedStays(wire: seq<Msg>, m: Msg, p: nat)
    ensures Acked(wire, p) ==> Acked(wire + [m], p)
    ensures AckFor(m, p) && (forall j | 0 <= j < |wire| :: !PushFor(wire[j], p)) ==> Acked(wire + [m], p)
  {
    var more := wire + [m];
    assert forall i | 0 <= i < |wire| :: more[i] == wire[i];
    assert more[|wire|] == m;
  }

  lemma {:induction false} NoNotesNoPush(wire: seq<Msg>, p: nat)
    ensures NotesOf(wire, p) == [] <==> forall j | 0 <= j < |wire| :: !PushFor(wire[j], p)
    decreases |wire|
  {
    if wire != [] {
      NoNotesNoPush(wire[..|wire| - 1], p);
      assert forall j | 0 <= j < |wire| - 1 :: wire[j] == wire[..|wire| - 1][j];
    }
  }

  lemma {:induction false} PumpedAt(p: nat, pump: Pump, jobs: seq<Job>, wire: seq<Msg>, loop: Loop, closed: nat,
                                    cancelled: bool, o: Outcome)
    requires PumpAt(p, pump, jobs, wire, loop, closed) && JobOk(jobs[pump.job])
    ensures var (pump', note) := Pumped(pump, jobs[pump.job], cancelled, o);
            PumpAt(p, pump', jobs, if note.Some? then wire + [Push(p, note.value)] else wire, loop, closed)
  {
    PumpedKeepsPump(pump, jobs[pump.job], cancelled, o, NotesOf(wire, p));
    PumpedShape(pump, jobs[pump.job], cancelled, o);
    hide Pumped, PumpOk, Acked, NotesOf, JobOk;
    var (pump', note) := Pumped(pump, jobs[pump.job], cancelled, o);
    if note.Some? {
      SentUnfold(wire, Push(p, note.value));
      AckedStays(wire, Push(p, note.value), p);
    }
  }

  /** A message about something else changes nothing for pump p. */
  lemma {:induction false} OtherMessageAt(p: nat, pump: Pump, jobs: seq<Job>, wire: seq<Msg>, m: Msg, loop: Loop,
                                          closed: nat)
    requires PumpAt(p, pump, jobs, wire, loop, closed) && !PushFor(m, p)
    ensures PumpAt(p, pump, jobs, wire + [m], loop, closed)
  {
    hide PumpOk, Acked, NotesOf;
    SentUnfold(wire, m);
    AckedStays(wire, m, p);
  }

  lemma {:induction false} PumpStepKeepsPump(w: World, p: nat, o: Outcome, q: nat)
    requires p < |w.pumps| && q < |w.pumps| && w.pumps[p].job < |w.jobs| && JobOk(w.jobs[w.pumps[p].job])
    requires PumpInv(w, p) && PumpInv(w, q)
    ensures PumpInv(Next(w, PumpStep(p, o)), q)
  {
    var w' := Next(w, PumpStep(p, o));
    assert ClosedUpTo(w') == ClosedUpTo(w) && w'.jobs == w.jobs && w'.loop == w.loop;
    hide Pumped, PumpAt, ClosedUpTo;
    var (pump, note) := Pumped(w.pumps[p], w.jobs[w.pumps[p].job], w.cancelled, o);
    if q == p {
      PumpedAt(p, w.pumps[p], w.jobs, w.wire, w.loop, ClosedUpTo(w), w.cancelled, o);
    } else if note.Some? {
      OtherMessageAt(q, w.pumps[q], w.jobs, w.wire, Push(p, note.value), w.loop, ClosedUpTo(w));
    }
  }

  lemma {:induction false} PumpStepKeepsInv(w: World, p: nat, o: Outcome)
    requires Inv(w)
    ensures Inv(Next(w, PumpStep(p, o)))
  {
    hide Pumped, NotesOf, Responses, PumpAt;
    if p < |w.pumps| && w.pumps[p].job < |w.jobs| {
      var w' := Next(w, PumpStep(p, o));
      var (pump, note) := Pumped(w.pumps[p], w.jobs[w.pumps[p].job], w.cancelled, o);
      assert PumpInv(w, p) && JobOk(w.jobs[w.pumps[p].job]);
      if note.Some? {
        SentUnfold(w.wire, Push(p, note.value));
        PumpNeedsAck(w, p, o);
      }
      assert WireOk(w') && LoopOk(w');
      forall q | 0 <= q < |w'.pumps| ensures PumpInv(w', q) {
        assert PumpInv(w, q);
        PumpStepKeepsPump(w, p, o, q);
      }
    }
  }

  lemma {:induction false} PumpNeedsAck(w: World, p: nat, o: Outcome)
    requires Inv(w) && p < |w.pumps| && w.pumps[p].job < |w.jobs|
    requires Pumped(w.pumps[p], w.jobs[w.pumps[p].job], w.cancelled, o).1.Some?
    ensures w.wire != []
  {
    assert PumpInv(w, p);
  }

  lemma {:induction false} EnvironmentKeepsInv(w: World, a: Action)
    requires Inv(w) && (a.ReadFails? || a.JobGrows? || a.JobEnds? || a.Cancel?)
    ensures Inv(Next(w, a))
  {
    var w' := Next(w, a);
    hide Acked, NotesOf, Responses;
    forall q | 0 <= q < |w'.pumps| ensures PumpInv(w', q) {
      assert PumpInv(w, q);
      JobKeepsPump(w.pumps[q], w.jobs[w.pumps[q].job], w'.jobs[w.pumps[q].job], NotesOf(w.wire, q));
    }
  }

  /** The loop adds at most one message, Hello exactly when it is the first. */
  lemma {:induction false} WireStep(w: World, w': World, m: Msg)
    requires WireOk(w) && |w.pumps| <= |w'.pumps| && !m.Push?
    requires w'.wire == w.wire || (w'.wire == w.wire + [m] && (m == Hello <==> w.wire == []))
    requires w'.wire == [] ==> (w'.loop.Starting? || TearingDown(w'.loop)) && w'.pumps == []
    requires w'.loop.Starting? ==> w'.wire == []
    ensures WireOk(w')
  {
  }

  lemma {:induction false} LoopStepKeepsWire(w: World, ok: bool, attach: Option<Attach>)
    requires WireOk(w)
    ensures WireOk(Looped(w, ok, attach))
  {
    var w' := Looped(w, ok, attach);
    var m := if w.loop.Starting? then Hello else if w.loop.Answering? then Response(w.loop.request,
        w.loop.ack) else LineTooLong;
    assert w.wire == [] ==> (w.loop.Starting? || TearingDown(w.loop)) && w.pumps == [];
    assert w.loop.Starting? ==> w.wire == [];
    hide WireOk, FirstPending, Running;
    WireStep(w, w', m);
  }

  lemma {:induction false} ReadingKeepsLoop(w: World, ok: bool, attach: Option<Attach>)
    requires WireOk(w) && LoopOk(w) && w.loop.Reading?
    ensures LoopOk(Looped(w, ok, attach))
  {
    var w' := Looped(w, ok, attach);
    RequestsUnfold(w.lines, w.answered);
    SentUnfold(w.wire, LineTooLong);
    hide Responses, Requests, JobOk, WireOk;
  }

  lemma {:induction false} HelloKeepsLoop(w: World, ok: bool, attach: Option<Attach>)
    requires LoopOk(w) && w.loop.Starting? && w.wire == []
    ensures LoopOk(Looped(w, ok, attach))
  {
    hide Responses, Requests, JobOk, FirstPending, Running;
    SentUnfold(w.wire, Hello);
    var w' := Looped(w, ok, attach);
    assert w' == w.(wire := w'.wire, loop := w'.loop) && ClosedUpTo(w') == 0;
  }

  lemma {:induction false} AnswerKeepsLoop(w: World, ok: bool, attach: Option<Attach>)
    requires LoopOk(w) && w.loop.Answering?
    ensures LoopOk(Looped(w, ok, attach))
  {
    hide Responses, Requests, JobOk, FirstPending, Running;
    RequestsUnfold(w.lines, w.answered);
    SentUnfold(w.wire, Response(w.loop.request, w.loop.ack));
    var w' := Looped(w, ok, attach);
    assert w' == w.(wire := w'.wire, loop := w'.loop, answered := w'.answered) && ClosedUpTo(w') == 0;
  }

  lemma {:induction false} LoopStepKeepsLoop(w: World, ok: bool, attach: Option<Attach>)
    requires WireOk(w) && LoopOk(w)
    ensures LoopOk(Looped(w, ok, attach))
  {
    if w.loop.Reading? {
      ReadingKeepsLoop(w, ok, attach);
    } else {
      assert w.loop.Starting? ==> w.wire == [];
      hide Responses, Requests, FirstPending, JobOk, Running, WireOk;
      if w.loop.Starting? {
        HelloKeepsLoop(w, ok, attach);
      } else if w.loop.Answering? {
        AnswerKeepsLoop(w, ok, attach);
      }
    }
  }

  lemma {:induction false} RequestsUnfold(lines: seq<Line>, k: nat)
    ensures k < |lines| ==> Requests(lines, k + 1) ==
                            if lines[k].Request? then Requests(lines, k) + [k] else Requests(lines, k)
  {
  }

  /** The pump changes the loop makes: registration, release, Close. */
  lemma {:induction false} LoopTouchesPumps(pump: Pump, job: Job, notes: seq<Note>)
    ensures PumpOk(pump, job, notes) ==> PumpOk(pump.(subClosed := true), job, notes)
    ensures PumpOk(pump, job, notes) && pump.phase.Pending?
            ==> PumpOk(pump.(phase := InNext(!pump.subClosed), latchCloses := pump.latchCloses + 1), job, notes)
    ensures pump.phase.Pending? && pump.after == pump.start && pump.latchCloses == 0 ==> PumpOk(pump, job, [])
  {
  }

  lemma {:induction false} SendingKeepsPump(w: World, ok: bool, attach: Option<Attach>, q: nat)
    requires LoopOk(w) && q < |w.pumps| && PumpInv(w, q) && (w.loop.Starting? || w.loop.Answering?)
    ensures PumpInv(Looped(w, ok, attach), q)
  {
    hide PumpOk, Acked, NotesOf, Responses, Requests;
    PendingIsSilent(q, w.pumps[q], w.jobs, w.wire, w.loop, 0);
    var m := if w.loop.Starting? then Hello else Response(w.loop.request, w.loop.ack);
    OtherMessageAt(q, w.pumps[q], w.jobs, w.wire, m, w.loop, 0);
    AckedStays(w.wire, m, q);
  }

  lemma {:induction false} ReadingKeepsPump(w: World, ok: bool, attach: Option<Attach>, q: nat)
    requires WireOk(w) && q < |Looped(w, ok, attach).pumps| && w.loop.Reading? && (q < |w.pumps| ==> PumpInv(w, q))
    ensures PumpInv(Looped(w, ok, attach), q)
  {
    hide PumpOk, Acked, NotesOf;
    var w' := Looped(w, ok, attach);
    if q < |w.pumps| {
      OtherMessageAt(q, w.pumps[q], w.jobs, w.wire, LineTooLong, w.loop, 0);
    } else {
      RegisteredAt(w, q, w'.pumps[q]);
    }
  }

  lemma {:induction false} LoopStepKeepsPump(w: World, ok: bool, attach: Option<Attach>, q: nat)
    requires WireOk(w) && LoopOk(w) && q < |Looped(w, ok, attach).pumps| && (q < |w.pumps| ==> PumpInv(w, q))
    ensures PumpInv(Looped(w, ok, attach), q)
  {
    hide PumpOk, Acked, NotesOf, WireOk, Responses, Requests;
    if w.loop.Reading? {
      ReadingKeepsPump(w, ok, attach, q);
    } else if w.loop.Starting? || w.loop.Answering? {
      SendingKeepsPump(w, ok, attach, q);
    } else {
      LoopTouchesPumps(w.pumps[q], w.jobs[w.pumps[q].job], NotesOf(w.wire, q));
    }
  }

  lemma {:induction false} RegisteredAt(w: World, q: nat, pump: Pump)
    requires WireOk(w) && |w.pumps| <= q
    ensures NotesOf(w.wire, q) == []
    ensures pump.phase.Pending? && pump.after == pump.start && pump.latchCloses == 0 && pump.job < |w.jobs|
            ==> PumpAt(q, pump, w.jobs, w.wire, Answering(w.next, Some(q)), 0)
  {
    NoNotesNoPush(w.wire, q);
  }

  lemma {:induction false} PendingIsSilent(p: nat, pump: Pump, jobs: seq<Job>, wire: seq<Msg>, loop: Loop, closed: nat)
    requires PumpAt(p, pump, jobs, wire, loop, closed)
    ensures pump.phase.Pending? ==> forall j | 0 <= j < |wire| :: !PushFor(wire[j], p)
  {
    NoNotesNoPush(wire, p);
  }

  lemma {:induction false} LoopStepKeepsInv(w: World, ok: bool, attach: Option<Attach>)
    requires Inv(w)
    ensures Inv(Next(w, LoopStep(ok, attach)))
  {
    LoopStepKeepsWire(w, ok, attach);
    LoopStepKeepsLoop(w, ok, attach);
    hide WireOk, LoopOk, PumpInv, Looped;
    var w' := Looped(w, ok, attach);
    forall q | 0 <= q < |w'.pumps| ensures PumpInv(w', q) {
      assert q < |w.pumps| ==> PumpInv(w, q);
      LoopStepKeepsPump(w, ok, attach, q);
    }
  }

  lemma {:induction false} StepKeepsInv(w: World, a: Action)
    requires Inv(w)
    ensures Inv(Next(w, a))
  {
    match a
    case LoopStep(ok, attach) => LoopStepKeepsInv(w, ok, attach);
    case PumpStep(p, o) => PumpStepKeepsInv(w, p, o);
    case _ => EnvironmentKeepsInv(w, a);
  }

  lemma {:induction false} RunKeepsInv(w: World, actions: seq<Action>)
    requires Inv(w)
    ensures Inv(Run(w, actions))
    decreases |actions|
  {
    if actions != [] {
      StepKeepsInv(w, actions[0]);
      RunKeepsInv(Next(w, actions[0]), actions[1..]);
    }
  }

  // ------------------------------------------------------------------ what every connection does

  lemma {:induction false} EveryRun(w: World, actions: seq<Action>)
    requires Fresh(w)
    ensures Inv(Run(w, actions))
  {
    RunKeepsInv(w, actions);
  }

  /** Hello is the first message and the only one of its kind. */
  lemma {:induction false} HelloFirst(w: World, actions: seq<Action>, i: nat)
    requires Fresh(w) && i < |Run(w, actions).wire|
    ensures Run(w, actions).wire[i] == Hello <==> i == 0
  {
    EveryRun(w, actions);
  }

  /**
   The responses on the wire are the requests in order, one each, up to where the loop got; and
   a connection that ended did so at end of input with all of them answered, at an oversized
   line, at a read error, or at the one response it could not write.
   */
  lemma {:induction false} OneResponseEach(w: World, actions: seq<Action>)
    requires Fresh(w)
    ensures var w' := Run(w, actions);
            && w'.answered <= w'.next <= |w'.lines| && Responses(w'.wire) == Requests(w'.lines, w'.answered)
            && (TearingDown(w'.loop) ==> EndsFor(w', w'.loop.why))
  {
    EveryRun(w, actions);
  }

  lemma {:induction false} PushHasPump(w: World, j: nat)
    requires Inv(w) && j < |w.wire| && w.wire[j].Push?
    ensures w.wire[j].pump < |w.pumps| && Acked(w.wire, w.wire[j].pump)
  {
    var p := w.wire[j].pump;
    assert PumpInv(w, p);
    NoNotesNoPush(w.wire, p);
    assert PushFor(w.wire[j], p);
  }

  /** Every notification comes after the response that acknowledged its subscription. */
  lemma {:induction false} AckBeforeNotes(w: World, actions: seq<Action>, j: nat)
    requires Fresh(w) && j < |Run(w, actions).wire| && Run(w, actions).wire[j].Push?
    ensures var wire := Run(w, actions).wire; exists i | 0 <= i < j :: AckFor(wire[i], wire[j].pump)
  {
    EveryRun(w, actions);
    var w' := Run(w, actions);
    PushHasPump(w', j);
    var p := w'.wire[j].pump;
    var i :| 0 <= i < |w'.wire| && AckFor(w'.wire[i], p) && forall k | 0 <= k < i :: !PushFor(w'.wire[k], p);
    assert PushFor(w'.wire[j], p);
  }

  /** No latch is closed twice, and only a closed latch lets a pump run. */
  lemma {:induction false} LatchClosedOnce(w: World, actions: seq<Action>, p: nat)
    requires Fresh(w) && p < |Run(w, actions).pumps|
    ensures var pump := Run(w, actions).pumps[p]; pump.latchCloses == if pump.phase.Pending? then 0 else 1
  {
    EveryRun(w, actions);
    assert PumpInv(Run(w, actions), p);
  }

  /**
   One subscription's notifications: consecutive events from its after_seq, nothing after a
   terminal or an error notification, and a terminal marker only when markers were promised and
   everything up to the event that ended the run has been delivered.
   */
  lemma {:induction false} StreamIsConsecutive(w: World, actions: seq<Action>, p: nat)
    requires Fresh(w) && p < |Run(w, actions).pumps|
    ensures var w' := Run(w, actions);
            var pump, notes := w'.pumps[p], NotesOf(w'.wire, p);
            var c := Follow(pump.start, notes);
            && !c.Broken? && pump.start <= c.after && EventsOf(notes) == Numbers(pump.start, c.after)
            && (forall i | 0 <= i < |notes| - 1 :: !Final(notes[i]))
            && pump.job < |w'.jobs|
            && (forall i | 0 <= i < |notes| :: notes[i].Events? && notes[i].terminal
                                               ==> pump.markers && EndedBy(w'.jobs[pump.job], notes[i].after))
  {
    EveryRun(w, actions);
    var w' := Run(w, actions);
    assert PumpInv(w', p);
    UnbrokenMeans(w'.pumps[p].start, NotesOf(w'.wire, p));
  }

  // ------------------------------------------------------------------ teardown

  /** Steps a pump whose subscription is closed can still take. */
  function Weight(p: Pump): nat {
    match p.phase
    case Pending => 0
    case InNext(early) => if early then 5 else 2
    case Got(_) => 4
    case Ready(_, _) => 3
    case Failing => 1
    case Ended => 0
  }

  function Total(pumps: seq<Pump>): nat {
    if pumps == [] then 0 else Weight(pumps[0]) + Total(pumps[1..])
  }

  lemma {:induction false} TotalUpdate(pumps: seq<Pump>, p: nat, pump: Pump)
    requires p < |pumps|
    ensures Total(pumps[p := pump]) == Total(pumps) - Weight(pumps[p]) + Weight(pump)
  {
    if p > 0 {
      assert pumps[p := pump][1..] == pumps[1..][p - 1 := pump];
      TotalUpdate(pumps[1..], p - 1, pump);
    } else {
      assert pumps[p := pump][1..] == pumps[1..];
    }
  }

  /** What a running pump does next when Close has made Next return. */
  function Due(p: Pump): Outcome {
    if p.phase.InNext? then Error else if p.phase.Got? then Inspected(false) else Written(false)
  }

  lemma {:induction false} ClosedPumpRunsDown(p: Pump, job: Job, cancelled: bool, o: Outcome)
    requires p.subClosed
    ensures Pumped(p, job, cancelled, o).0 == p || Weight(Pumped(p, job, cancelled, o).0) < Weight(p)
    ensures Running(p) ==> Weight(Pumped(p, job, cancelled, Due(p)).0) < Weight(p)
  {
  }

  lemma {:induction false} AllClosed(w: World, p: nat)
    requires Inv(w) && (w.loop.Waiting? || w.loop.Done?) && p < |w.pumps|
    ensures w.pumps[p].subClosed && w.pumps[p].job < |w.jobs| && (w.loop.Done? ==> !Running(w.pumps[p]))
  {
    assert PumpInv(w, p);
  }

  lemma {:induction false} WaitingPumpRunsDown(w: World, p: nat, o: Outcome)
    requires Inv(w) && (w.loop.Waiting? || w.loop.Done?)
    ensures var w' := Next(w, PumpStep(p, o));
            w'.loop == w.loop && (w'.pumps == w.pumps || Total(w'.pumps) < Total(w.pumps))
  {
    if p < |w.pumps| {
      AllClosed(w, p);
      var pump := Pumped(w.pumps[p], w.jobs[w.pumps[p].job], w.cancelled, o).0;
      ClosedPumpRunsDown(w.pumps[p], w.jobs[w.pumps[p].job], w.cancelled, o);
      TotalUpdate(w.pumps, p, pump);
      assert w.pumps[p := w.pumps[p]] == w.pumps;
    }
    hide Pumped, Inv, Weight, Total, Running;
  }

  /** Once closeAll has closed every subscription, an action that moves a pump uses up one of its steps. */
  lemma {:induction false} WaitingRunsDown(w: World, a: Action)
    requires Inv(w) && (w.loop.Waiting? || w.loop.Done?)
    ensures var w' := Next(w, a);
            Inv(w') && (w'.loop.Waiting? || w'.loop.Done?)
            && (w'.pumps == w.pumps || Total(w'.pumps) < Total(w.pumps))
  {
    StepKeepsInv(w, a);
    hide Pumped, Inv, Weight, Total, Running;
    if a.PumpStep? {
      WaitingPumpRunsDown(w, a.p, a.outcome);
    }
  }

  /** How many actions of a run moved some pump. */
  function Moves(w: World, actions: seq<Action>): nat
    decreases |actions|
  {
    if actions == [] then 0
    else (if Next(w, actions[0]).pumps == w.pumps then 0 else 1) + Moves(Next(w, actions[0]), actions[1..])
  }

  /** So every schedule of closeAll's wait is bounded, whatever the order. */
  lemma {:induction false} TeardownIsBounded(w: World, actions: seq<Action>)
    requires Inv(w) && (w.loop.Waiting? || w.loop.Done?)
    ensures Moves(w, actions) + Total(Run(w, actions).pumps) <= Total(w.pumps)
    decreases |actions|
  {
    if actions != [] {
      WaitingRunsDown(w, actions[0]);
      hide Next, Inv;
      TeardownIsBounded(Next(w, actions[0]), actions[1..]);
    }
  }

  /**
   And it cannot get stuck: while a pump runs, it has a step that uses up some of the bound; when
   none runs the wait is over; and then no pump runs and every registered subscription is closed,
   released or not.
   */
  lemma {:induction false} TeardownFinishes(w: World)
    requires Inv(w) && (w.loop.Waiting? || w.loop.Done?)
    ensures forall p | 0 <= p < |w.pumps| && Running(w.pumps[p]) ::
              Total(Next(w, PumpStep(p, Due(w.pumps[p]))).pumps) < Total(w.pumps)
    ensures w.loop.Done? || (exists p :: 0 <= p < |w.pumps| && Running(w.pumps[p]))
             || Next(w, LoopStep(true, None)).loop == Done(w.loop.why)
    ensures forall p | 0 <= p < |w.pumps| :: w.pumps[p].subClosed
             && (w.loop.Done? ==> w.pumps[p].phase.Ended? || w.pumps[p].phase.Pending?)
  {
    forall p | 0 <= p < |w.pumps| && Running(w.pumps[p])
      ensures Total(Next(w, PumpStep(p, Due(w.pumps[p]))).pumps) < Total(w.pumps)
    {
      AllClosed(w, p);
      ClosedPumpRunsDown(w.pumps[p], w.jobs[w.pumps[p].job], w.cancelled, Due(w.pumps[p]));
      TotalUpdate(w.pumps, p, Pumped(w.pumps[p], w.jobs[w.pumps[p].job], w.cancelled, Due(w.pumps[p])).0);
      hide Pumped, Inv, Weight, Total, Running, Due;
    }
    forall p | 0 <= p < |w.pumps| ensures w.pumps[p].subClosed && (w.loop.Done? ==> !Running(w.pumps[p])) {
      AllClosed(w, p);
    }
    hide Inv, Pumped;
  }

  lemma {:induction false} ClosingAdvances(w: World, a: Action)
    requires w.loop.Closing?
    ensures var w' := Next(w, a);
            if a.LoopStep?
            then w'.loop == if w.loop.k < |w.pumps| then Closing(w.loop.k + 1, w.loop.why) else Waiting(w.loop.why)
            else w'.loop == w.loop && |w'.pumps| == |w.pumps|
    ensures |Next(w, a).pumps| == |w.pumps|
  {
  }

  lemma {:induction false} TornDownStays(w: World, actions: seq<Action>)
    requires w.loop.Waiting? || w.loop.Done?
    ensures Run(w, actions).loop.Waiting? || Run(w, actions).loop.Done?
    decreases |actions|
  {
    if actions != [] {
      TornDownStays(Next(w, actions[0]), actions[1..]);
    }
  }

  function LoopSteps(actions: seq<Action>): nat {
    if actions == [] then 0 else (if actions[0].LoopStep? then 1 else 0) + LoopSteps(actions[1..])
  }

  /**
   closeAll reaches its wait in every schedule that lets the loop run: one step of the loop for
   each subscription still to close and one more are enough, whatever the pumps, jobs and context
   do in between.
   */
  lemma {:induction false} ClosingReachesTheWait(w: World, actions: seq<Action>)
    requires w.loop.Closing? && w.loop.k <= |w.pumps| && LoopSteps(actions) > |w.pumps| - w.loop.k
    ensures Run(w, actions).loop.Waiting? || Run(w, actions).loop.Done?
    decreases |actions|
  {
    var w' := Next(w, actions[0]);
    ClosingAdvances(w, actions[0]);
    hide Next;
    if w'.loop.Waiting? {
      TornDownStays(w', actions[1..]);
    } else {
      ClosingReachesTheWait(w', actions[1..]);
    }
  }

  // ------------------------------------------------------------------ limits

  /**
   Close without cancelling the context is not silent: the failing Next becomes an error
   notification, which the connection may still deliver.
   */
  lemma {:induction false} CloseIsReported(w: World, p: nat)
    requires p < |w.pumps| && w.pumps[p].job < |w.jobs| && w.pumps[p].phase.InNext? && w.pumps[p].subClosed
             && !w.cancelled
    ensures Run(w, [PumpStep(p, Error), PumpStep(p, Written(true))]).wire ==
              w.wire + [Push(p, Failure(w.pumps[p].after))]
  {
    var w1 := Next(w, PumpStep(p, Error));
    RunCons(w1, PumpStep(p, Written(true)), []);
    RunCons(w, PumpStep(p, Error), [PumpStep(p, Written(true))]);
    assert w1.pumps[p] == w.pumps[p].(phase := Failing);
  }

  /** Notifications on the wire from position `from` on, error notifications among them. */
  ghost predicate NoFailureFrom(wire: seq<Msg>, from: nat) {
    forall i | from <= i < |wire| :: !(wire[i].Push? && wire[i].note.Failure?)
  }

  ghost predicate NoneFailing(w: World) {
    forall p | 0 <= p < |w.pumps| :: !w.pumps[p].phase.Failing?
  }

  /** Once the context is cancelled no pump takes up an error to report. */
  lemma {:induction false} CancelledIsSilent(w: World, actions: seq<Action>, from: nat)
    requires w.cancelled && NoneFailing(w) && NoFailureFrom(w.wire, from)
    ensures NoFailureFrom(Run(w, actions).wire, from)
    decreases |actions|
  {
    if actions != [] {
      CancelledStep(w, actions[0], from);
      hide Next, NoneFailing, NoFailureFrom;
      CancelledIsSilent(Next(w, actions[0]), actions[1..], from);
    }
  }

  lemma {:induction false} CancelledStep(w: World, a: Action, from: nat)
    requires w.cancelled && NoneFailing(w) && NoFailureFrom(w.wire, from)
    ensures Next(w, a).cancelled && NoneFailing(Next(w, a)) && NoFailureFrom(Next(w, a).wire, from)
  {
    hide FirstPending, Running;
  }

  lemma {:induction false} RunCons(w: World, a: Action, rest: seq<Action>)
    ensures Run(w, [a] + rest) == Run(Next(w, a), rest)
  {
    assert ([a] + rest)[1..] == rest;
  }

  /** Nothing is appended to job j. */
  ghost predicate JobRests(actions: seq<Action>, j: nat) {
    forall i | 0 <= i < |actions| :: !(actions[i].JobGrows? && actions[i].j == j && actions[i].n > 0)
  }

  ghost predicate CanEndWithMarker(w: World, p: nat, j: nat) {
    exists actions: seq<Action> :: JobRests(actions, j) && MarkedBy(Run(w, actions).wire, p)
  }

  predicate IsMark(m: Msg, p: nat) {
    PushFor(m, p) && m.note.Events? && m.note.terminal
  }

  predicate MarkedBy(wire: seq<Msg>, p: nat) {
    exists i :: 0 <= i < |wire| && IsMark(wire[i], p)
  }

  /** A released pump with nothing in hand, at the head of its job. */
  predicate AtHead(w: World, p: nat, j: nat) {
    && p < |w.pumps| && j < |w.jobs| && w.pumps[p].job == j && w.pumps[p].after >= w.jobs[j].head
    && !w.pumps[p].phase.Got? && !w.pumps[p].phase.Ready? && !w.pumps[p].phase.Pending?
  }

  lemma {:induction false} MarkedBefore(wire: seq<Msg>, m: Msg, p: nat)
    requires !IsMark(m, p)
    ensures MarkedBy(wire + [m], p) ==> MarkedBy(wire, p)
  {
  }

  lemma {:induction false} AtHeadPumpStep(w: World, q: nat, o: Outcome, p: nat, j: nat)
    requires AtHead(w, p, j)
    ensures AtHead(Next(w, PumpStep(q, o)), p, j) && (MarkedBy(Next(w, PumpStep(q, o)).wire, p) ==> MarkedBy(w.wire, p))
  {
    hide MarkedBy;
    if q < |w.pumps| && w.pumps[q].job < |w.jobs| {
      var note := Pumped(w.pumps[q], w.jobs[w.pumps[q].job], w.cancelled, o).1;
      if note.Some? {
        MarkedBefore(w.wire, Push(q, note.value), p);
      }
    }
  }

  lemma {:induction false} AtHeadLoopStep(w: World, ok: bool, attach: Option<Attach>, p: nat, j: nat)
    requires AtHead(w, p, j)
    ensures AtHead(Looped(w, ok, attach), p, j) && (MarkedBy(Looped(w, ok, attach).wire, p) ==> MarkedBy(w.wire, p))
  {
    hide MarkedBy, Running, FirstPending;
    MarkedBefore(w.wire, Hello, p);
    MarkedBefore(w.wire, LineTooLong, p);
    if w.loop.Answering? {
      MarkedBefore(w.wire, Response(w.loop.request, w.loop.ack), p);
    }
  }

  lemma {:induction false} AtHeadStep(w: World, a: Action, p: nat, j: nat)
    requires AtHead(w, p, j) && (a.JobGrows? && a.j == j ==> a.n == 0)
    ensures AtHead(Next(w, a), p, j) && (MarkedBy(Next(w, a).wire, p) ==> MarkedBy(w.wire, p))
  {
    match a
    case LoopStep(ok, attach) => AtHeadLoopStep(w, ok, attach, p, j);
    case PumpStep(q, o) => AtHeadPumpStep(w, q, o, p, j);
    case _ =>
  }

  /** A subscription that waits at the head of its job stays without a marker, whatever else goes on. */
  lemma {:induction false} WaitingAtHeadIsSilent(w: World, actions: seq<Action>, p: nat, j: nat)
    requires AtHead(w, p, j) && JobRests(actions, j)
    ensures MarkedBy(Run(w, actions).wire, p) ==> MarkedBy(w.wire, p)
    decreases |actions|
  {
    hide Next, AtHead, MarkedBy;
    if actions != [] {
      AtHeadStep(w, actions[0], p, j);
      assert forall i | 0 <= i < |actions[1..]| :: actions[1..][i] == actions[i + 1];
      WaitingAtHeadIsSilent(Next(w, actions[0]), actions[1..], p, j);
    }
  }

  /**
   The marker the ack promised, exactly: on a run that has ended and gets no further event, a
   released subscription can still get its terminal notification, in some continuation of the
   whole connection, if and only if it has an event left to deliver. One that resumes from the
   last sequence of a finished run never hears that it finished.
   */
  lemma {:induction false} MarkerComesIff(w: World, p: nat)
    requires p < |w.pumps| && w.pumps[p].job < |w.jobs| && w.pumps[p].phase == InNext(true) && w.pumps[p].markers
    requires w.jobs[w.pumps[p].job].ended.Some? && !MarkedBy(w.wire, p)
    ensures CanEndWithMarker(w, p, w.pumps[p].job) <==> w.pumps[p].after < w.jobs[w.pumps[p].job].head
  {
    var pump, job := w.pumps[p], w.jobs[w.pumps[p].job];
    if pump.after < job.head {
      MarkerComes(w, p);
    } else {
      forall actions: seq<Action> | JobRests(actions, pump.job) ensures !MarkedBy(Run(w, actions).wire, p) {
        WaitingAtHeadIsSilent(w, actions, p, pump.job);
      }
    }
  }

  lemma {:induction false} MarkerComes(w: World, p: nat)
    requires p < |w.pumps| && w.pumps[p].job < |w.jobs| && w.pumps[p].phase == InNext(true) && w.pumps[p].markers
    requires w.jobs[w.pumps[p].job].ended.Some? && w.pumps[p].after < w.jobs[w.pumps[p].job].head
    ensures CanEndWithMarker(w, p, w.pumps[p].job)
  {
    var pump, job := w.pumps[p], w.jobs[w.pumps[p].job];
    var a := PumpStep(p, Batch(job.head - pump.after));
    var b := PumpStep(p, Inspected(true));
    var c := PumpStep(p, Written(true));
    var events := Numbers(pump.after, job.head);
    var w1 := Next(w, a);
    assert w1.pumps[p] == pump.(after := job.head, phase := Got(events));
    var w2 := Next(w1, b);
    assert w2.pumps[p] == pump.(after := job.head, phase := Ready(events, true));
    var w3 := Next(w2, c);
    assert w3.wire == w.wire + [Push(p, Events(job.head, events, true))];
    hide Next;
    RunCons(w2, c, []);
    RunCons(w1, b, [c]);
    RunCons(w, a, [b] + [c]);
    var actions := [a] + ([b] + [c]);
    assert w3.wire[|w.wire|] == Push(p, Events(job.head, events, true));
    assert JobRests(actions, pump.job) && MarkedBy(Run(w, actions).wire, p);
  }
}
