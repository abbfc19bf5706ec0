/**
 Commands that decide from a fold they made without the lock and then append under it:
 `run pause` (cmd/arxi/pause.go), `run cancel` at a custom directory (cmd/arxi/cancel.go) and
 `run prompt`/`steer` with --if-seq (cmd/arxi/inject.go), beside a driver that appends what it
 likes. Any number of them run against one log; the scheduler is arbitrary.

 The fold reads the file and samples the commit marker afterwards, as CommitLog's LiveRead does:
 it may see complete lines of a batch that is rolled back later. CommitLog.ReadIsBetween is the
 same read in bytes. A process whose read or Open fails on an empty marker file ends with an error:
 that is one the scheduler does not run again, so these runs are among those below.
 */
module Writers {
  import opened Bytes
  import opened Reducers

  /** What is appended; a payload only matters to the kernel. */
  datatype Event = RunPaused | RunCancelled | Injected(text: string) | Driven(what: nat)

  datatype Command = Pause | Cancel | Inject(ifSeq: nat, text: string)

  /**
   How far a process got. The code keeps the length and the status of `pre`. `sound`, like the
   `seen` and `epoch` of a read, is specification state: no action looks at it.
   */
  datatype Phase =
    | Idle
    | Reading(raw: seq<Event>, seen: nat, epoch: nat)   // file read when `seen` events were committed
    | Folded(pre: seq<Event>, sound: bool)
    | Holding(pre: seq<Event>, sound: bool)             // the store is open, so the lock is held
    | Appending(pre: seq<Event>, sound: bool)           // the head was compared, the batch has begun
    | Over

  datatype Proc = Proc(command: Command, phase: Phase)

  /** One committed append: who, what it folded before, and where it stands. */
  datatype Entry = Entry(proc: nat, command: Command, pre: seq<Event>, sound: bool, at: nat)

  /**
   log: the committed events; batch: the one in flight, [] when there is no marker; tail: its
   complete lines in the file. holder: the process with the store open, the driver being |procs|.
   rollbacks: how many batches have been discarded.
   */
  datatype World = World(log: seq<Event>, tail: seq<Event>, batch: seq<Event>, holder: Option<nat>, rollbacks: nat,
                         procs: seq<Proc>, history: seq<Entry>)

  datatype Action =
    | ReadFile(p: nat)
    | SampleMarker(p: nat, j: nat)   // j: where the marker's offset falls among the lines read
    | OpenStore(p: nat)
    | AppendIfSeq(p: nat)
    | DriverOpens
    | Drive(events: seq<Event>)      // the driver begins a batch
    | WriteLine                      // one more line of the batch in flight
    | Commit
    | Leave                          // the holder closes the store or dies

  function EventOf(c: Command): Event {
    match c
    case Pause => RunPaused
    case Cancel => RunCancelled
    case Inject(_, text) => Injected(text)
  }

  /** The refusals before the store is opened, from the folded state alone. */
  predicate Refuses<S>(k: Reducer<S, Event>, c: Command, pre: seq<Event>) {
    var s := StatusOf(k, pre);
    Terminal(s) || (!c.Cancel? && s == Paused)
  }

  /** The head the append insists on: the folded head, or the one the user named. */
  function Expected(c: Command, pre: seq<Event>): nat {
    if c.Inject? then c.ifSeq else |pre|
  }

  function SetPhase(w: World, p: nat, phase: Phase): World
    requires p < |w.procs|
  {
    w.(procs := w.procs[p := w.procs[p].(phase := phase)])
  }

  function Min(a: nat, b: nat): nat {
    if a < b then a else b
  }

  /**
   How many of the lines read the marker leaves visible. Without one, all. With one, those before
   its offset: the committed ones, unless what was read has been rolled back and overwritten by
   lines of other lengths; then any number from the lines that were committed at the read.
   */
  predicate Leaves(w: World, r: Phase, j: nat)
    requires r.Reading?
  {
    if w.batch == [] then j == |r.raw|
    else if w.rollbacks == r.epoch then j == Min(|w.log|, |r.raw|)
    else r.seen <= j <= |r.raw|
  }

  /** Opening the store discards the batch an earlier holder left behind. */
  function Opened(w: World, who: nat): World {
    w.(holder := Some(who), tail := [], batch := [], rollbacks := w.rollbacks + if w.batch == [] then 0 else 1)
  }

  /** One atomic action; one that is not enabled changes nothing. */
  function Next<S>(k: Reducer<S, Event>, w: World, a: Action): World {
    match a
    case ReadFile(p) =>
      if p < |w.procs| && w.procs[p].phase.Idle? then SetPhase(w, p,
          Reading(w.log + w.tail, |w.log|, w.rollbacks)) else w
    case SampleMarker(p, j) =>
      if p < |w.procs| && w.procs[p].phase.Reading? && Leaves(w, w.procs[p].phase, j) && j <= |w.procs[p].phase.raw|
      then SetPhase(w, p, Folded(w.procs[p].phase.raw[..j], w.procs[p].phase.raw[..j] <= w.log))
      else w
    case OpenStore(p) =>
      if p < |w.procs| && w.procs[p].phase.Folded? then
        if Refuses(k, w.procs[p].command, w.procs[p].phase.pre) || w.holder.Some? then SetPhase(w, p, Over)
        else Opened(SetPhase(w, p, Holding(w.procs[p].phase.pre, w.procs[p].phase.sound)), p)
      else w
    case AppendIfSeq(p) =>
      if p < |w.procs| && w.procs[p].phase.Holding? && w.holder == Some(p) && w.batch == [] then
        if |w.log| == Expected(w.procs[p].command, w.procs[p].phase.pre)
        then SetPhase(w, p, Appending(w.procs[p].phase.pre,
            w.procs[p].phase.sound)).(batch := [EventOf(w.procs[p].command)])
        else SetPhase(w, p, Over)
      else w
    case DriverOpens =>
      if w.holder.None? then Opened(w, |w.procs|) else w
    case Drive(events) =>
      if w.holder == Some(|w.procs|) && w.batch == [] then w.(batch := events) else w
    case WriteLine =>
      if w.holder.Some? && |w.tail| < |w.batch| then w.(tail := w.batch[..|w.tail| + 1]) else w
    case Commit =>
      if w.holder.Some? && w.batch != [] && w.tail == w.batch then Committed(w, w.holder.value) else w
    case Leave =>
      if w.holder.Some? && w.holder.value < |w.procs| then SetPhase(w, w.holder.value, Over).(holder := None)
      else w.(holder := None)
  }

  function Committed(w: World, who: nat): World {
    var w' := w.(log := w.log + w.batch, tail := [], batch := []);
    if who < |w.procs| && w.procs[who].phase.Appending? then
      var c := w.procs[who];
      SetPhase(w', who, Over).(history := w.history + [Entry(who, c.command, c.phase.pre, c.phase.sound, |w.log|)])
    else w'
  }

  function Run<S>(k: Reducer<S, Event>, w: World, actions: seq<Action>): World
    decreases |actions|
  {
    if actions == [] then w else Run(k, Next(k, w, actions[0]), actions[1..])
  }

  /** Nothing has been read or appended by the commands; a dead writer may have left a batch. */
  predicate Fresh(w: World) {
    && w.history == [] && w.tail <= w.batch
    && (w.holder.Some? ==> w.holder.value == |w.procs|)
    && forall p | 0 <= p < |w.procs| :: w.procs[p].phase.Idle?
  }

  // ------------------------------------------------------------------ the invariant

  /** The status effects of the two commands' own events (decide.go:72 and 85). */
  ghost predicate CommandsTakeEffect<S(!new)>(k: Reducer<S, Event>) {
    forall s :: !Terminal(k.status(s)) ==>
      k.status(k.decide(s, RunPaused)) == Paused && k.status(k.decide(s, RunCancelled)) == Cancelled
  }

  predicate Has(phase: Phase) {
    phase.Folded? || phase.Holding? || phase.Appending?
  }

  /** A process and what it remembers of the file, against the log as it is. */
  ghost predicate ProcOk<S>(k: Reducer<S, Event>, w: World, p: nat, proc: Proc) {
    && (proc.phase.Reading? ==>
          && proc.phase.seen <= |proc.phase.raw| && proc.phase.seen <= |w.log| && proc.phase.epoch <= w.rollbacks
          && proc.phase.raw[..proc.phase.seen] == w.log[..proc.phase.seen]
          && (proc.phase.epoch == w.rollbacks ==> proc.phase.raw <= w.log + w.tail))
    && (Has(proc.phase) && proc.phase.sound ==> proc.phase.pre <= w.log)
    && (proc.phase.Holding? || proc.phase.Appending? ==>
          !Refuses(k, proc.command, proc.phase.pre) && w.holder == Some(p))
    && (proc.phase.Appending? ==>
          w.batch == [EventOf(proc.command)] && |w.log| == Expected(proc.command, proc.phase.pre))
    && (w.holder == Some(p) ==> proc.phase.Holding? || proc.phase.Appending? || proc.phase.Over?)
  }

  /** The entry's event stands where it was appended, with the head it asked for. */
  ghost predicate Recorded<S>(k: Reducer<S, Event>, log: seq<Event>, e: Entry) {
    && e.at < |log| && log[e.at] == EventOf(e.command)
    && e.at == Expected(e.command, e.pre) && !Refuses(k, e.command, e.pre)
    && (e.sound ==> e.pre <= log[..e.at])
  }

  ghost predicate ProcsOk<S>(k: Reducer<S, Event>, w: World) {
    forall p | 0 <= p < |w.procs| :: ProcOk(k, w, p, w.procs[p])
  }

  ghost predicate HistoryOk<S>(k: Reducer<S, Event>, w: World) {
    && (forall i | 0 <= i < |w.history| :: Recorded(k, w.log, w.history[i]))
    && (forall i | 0 <= i < |w.history| :: w.history[i].proc < |w.procs| && w.procs[w.history[i].proc].phase.Over?)
    && (forall i, j | 0 <= i < j < |w.history| :: w.history[i].at < w.history[j].at)
  }

  ghost predicate Inv<S>(k: Reducer<S, Event>, w: World) {
    w.tail <= w.batch && ProcsOk(k, w) && HistoryOk(k, w)
  }

  lemma {:induction false} FreshIsInv<S>(k: Reducer<S, Event>, w: World)
    requires Fresh(w)
    ensures Inv(k, w)
  {
    hide Refuses;
  }

  lemma {:induction false} ShapeStays<S>(k: Reducer<S, Event>, w: World, a: Action)
    requires w.tail <= w.batch
    ensures var w' := Next(k, w, a);
            && w'.tail <= w'.batch && w.log <= w'.log && |w'.procs| == |w.procs| && w.rollbacks <= w'.rollbacks
            && forall p | 0 <= p < |w.procs| :: w'.procs[p].command == w.procs[p].command
  {
    hide Refuses, Expected, EventOf;
  }

  /** What the file holds only grows until a batch is discarded. */
  lemma {:induction false} FileGrows<S>(k: Reducer<S, Event>, w: World, a: Action)
    requires w.tail <= w.batch
    ensures var w' := Next(k, w, a); w'.rollbacks == w.rollbacks ==> w.log + w.tail <= w'.log + w'.tail
  {
    hide Refuses, Expected, EventOf;
  }

  lemma {:induction false} ReadingStays<S>(k: Reducer<S, Event>, w: World, w': World, p: nat, proc: Proc)
    requires ProcOk(k, w, p, proc) && proc.phase.Reading? && w.log <= w'.log && w.rollbacks <= w'.rollbacks
    requires w'.rollbacks == w.rollbacks ==> w.log + w.tail <= w'.log + w'.tail
    requires w'.holder == Some(p) ==> w.holder == Some(p)
    ensures ProcOk(k, w', p, proc)
  {
    hide Refuses;
  }

  lemma {:induction false} StepKeepsProc<S>(k: Reducer<S, Event>, w: World, a: Action, p: nat)
    requires w.tail <= w.batch && p < |w.procs| && ProcOk(k, w, p, w.procs[p]) && p < |Next(k, w, a).procs|
    ensures ProcOk(k, Next(k, w, a), p, Next(k, w, a).procs[p])
  {
    hide Refuses, Expected, EventOf, Next;
    var w' := Next(k, w, a);
    ShapeStays(k, w, a);
    if w'.procs[p] != w.procs[p] {
      ProcMoves(k, w, a, p);
    } else if w.procs[p].phase.Reading? {
      hide ProcOk;
      FileGrows(k, w, a);
      HolderStaysOut(k, w, a, p);
      ReadingStays(k, w, w', p, w.procs[p]);
    } else {
      ProcWaits(k, w, a, p);
    }
  }

  lemma {:induction false} ProcMoves<S>(k: Reducer<S, Event>, w: World, a: Action, p: nat)
    requires w.tail <= w.batch && p < |w.procs| && ProcOk(k, w, p, w.procs[p]) && p < |Next(k, w, a).procs|
    requires Next(k, w, a).procs[p] != w.procs[p]
    ensures ProcOk(k, Next(k, w, a), p, Next(k, w, a).procs[p])
  {
    hide Refuses, Expected, EventOf;
  }

  lemma {:induction false} ProcWaits<S>(k: Reducer<S, Event>, w: World, a: Action, p: nat)
    requires w.tail <= w.batch && p < |w.procs| && ProcOk(k, w, p, w.procs[p]) && p < |Next(k, w, a).procs|
    requires Next(k, w, a).procs[p] == w.procs[p] && !w.procs[p].phase.Reading?
    ensures ProcOk(k, Next(k, w, a), p, Next(k, w, a).procs[p])
  {
    hide Refuses, Expected, EventOf;
  }

  lemma {:induction false} HolderStaysOut<S>(k: Reducer<S, Event>, w: World, a: Action, p: nat)
    requires p < |w.procs| && w.procs[p].phase.Reading? && ProcOk(k, w, p, w.procs[p])
    ensures Next(k, w, a).holder != Some(p)
  {
    hide Refuses, Expected, EventOf;
  }

  lemma {:induction false} StepKeepsProcs<S>(k: Reducer<S, Event>, w: World, a: Action)
    requires w.tail <= w.batch && ProcsOk(k, w)
    ensures ProcsOk(k, Next(k, w, a))
  {
    hide Next, ProcOk;
    ShapeStays(k, w, a);
    var w' := Next(k, w, a);
    forall p | 0 <= p < |w'.procs| ensures ProcOk(k, w', p, w'.procs[p]) {
      StepKeepsProc(k, w, a, p);
    }
  }

  lemma {:induction false} RecordedStays<S>(k: Reducer<S, Event>, log: seq<Event>, more: seq<Event>, e: Entry)
    requires Recorded(k, log, e) && log <= more
    ensures Recorded(k, more, e)
  {
    hide Refuses;
    assert more[..e.at] == log[..e.at];
  }

  /** History is extended by a commit of a process, by exactly what that process decided, or not at all. */
  lemma {:induction false} NewEntry<S>(k: Reducer<S, Event>, w: World, a: Action)
    requires w.tail <= w.batch && ProcsOk(k, w)
    ensures var w' := Next(k, w, a);
            w'.history == w.history
            || (w.holder.Some? && w.holder.value < |w.procs| && w.procs[w.holder.value].phase.Appending?
                && w'.procs[w.holder.value].phase.Over?
                && var c := w.procs[w.holder.value];
                   var e := Entry(w.holder.value, c.command, c.phase.pre, c.phase.sound, |w.log|);
                   w'.history == w.history + [e] && Recorded(k, w'.log, e))
  {
    hide Refuses;
    if a.Commit? && w.holder.Some? && w.holder.value < |w.procs| {
      assert ProcOk(k, w, w.holder.value, w.procs[w.holder.value]);
      assert (w.log + w.batch)[..|w.log|] == w.log;
    }
  }

  lemma {:induction false} OverStays<S>(k: Reducer<S, Event>, w: World, a: Action, p: nat)
    requires w.tail <= w.batch && p < |w.procs| && w.procs[p].phase.Over? && p < |Next(k, w, a).procs|
    ensures Next(k, w, a).procs[p].phase.Over?
  {
    hide Refuses, Expected, EventOf;
  }

  lemma {:induction false} StepKeepsHistory<S>(k: Reducer<S, Event>, w: World, a: Action)
    requires Inv(k, w)
    ensures HistoryOk(k, Next(k, w, a))
  {
    hide Next, Recorded, ProcOk;
    var w' := Next(k, w, a);
    ShapeStays(k, w, a);
    NewEntry(k, w, a);
    forall i | 0 <= i < |w'.history| ensures Recorded(k, w'.log, w'.history[i]) {
      if i < |w.history| {
        RecordedStays(k, w.log, w'.log, w.history[i]);
      }
    }
    forall i | 0 <= i < |w'.history|
      ensures w'.history[i].proc < |w'.procs| && w'.procs[w'.history[i].proc].phase.Over?
    {
      if i < |w.history| {
        OverStays(k, w, a, w.history[i].proc);
      }
    }
    forall i, j | 0 <= i < j < |w'.history| ensures w'.history[i].at < w'.history[j].at {
      EntryIsInLog(k, w, i);
    }
  }

  lemma {:induction false} EntryIsInLog<S>(k: Reducer<S, Event>, w: World, i: nat)
    requires HistoryOk(k, w)
    ensures i < |w.history| ==> w.history[i].at < |w.log|
  {
  }

  lemma {:induction false} StepKeepsInv<S>(k: Reducer<S, Event>, w: World, a: Action)
    requires Inv(k, w)
    ensures Inv(k, Next(k, w, a)) && w.log <= Next(k, w, a).log
  {
    hide Next, ProcsOk, HistoryOk;
    ShapeStays(k, w, a);
    StepKeepsProcs(k, w, a);
    StepKeepsHistory(k, w, a);
  }

  lemma {:induction false} RunKeepsInv<S>(k: Reducer<S, Event>, w: World, actions: seq<Action>)
    requires Inv(k, w)
    ensures Inv(k, Run(k, w, actions)) && w.log <= Run(k, w, actions).log
    decreases |actions|
  {
    hide Next, Inv;
    if actions != [] {
      StepKeepsInv(k, w, actions[0]);
      RunKeepsInv(k, Next(k, w, actions[0]), actions[1..]);
    }
  }

  // ------------------------------------------------------------------ reads that are sound

  /**
   A read is sound, that is a prefix of the log, if no batch was discarded between the file and
   the marker, or if the file held no complete provisional line.
   */
  lemma {:induction false} SoundRead<S>(k: Reducer<S, Event>, w: World, p: nat, j: nat)
    requires Inv(k, w) && p < |w.procs| && w.procs[p].phase.Reading? && Leaves(w, w.procs[p].phase, j)
    ensures var r := w.procs[p].phase;
            && j <= |r.raw| && Next(k, w, SampleMarker(p, j)).procs[p].phase.Folded?
            && (w.rollbacks == r.epoch || |r.raw| == r.seen ==> Next(k, w, SampleMarker(p, j)).procs[p].phase.sound)
  {
    hide Refuses, HistoryOk;
    assert ProcOk(k, w, p, w.procs[p]);
  }

  /** The append was decided from exactly the log it landed on. */
  ghost predicate LandedWhereDecided(log: seq<Event>, e: Entry) {
    e.at <= |log| && e.pre == log[..e.at]
  }

  /** The number the head was compared with is not past what was folded. */
  predicate HeadWasFolded(e: Entry) {
    e.command.Inject? ==> e.command.ifSeq <= |e.pre|
  }

  /**
   In every run: an append whose fold was sound and whose expected head is not past that fold
   landed on exactly the log its refusals were checked against.
   */
  lemma {:induction false} AppendsLandWhereDecided<S>(k: Reducer<S, Event>, w: World, actions: seq<Action>, i: nat)
    requires Fresh(w) && i < |Run(k, w, actions).history|
    ensures var w' := Run(k, w, actions);
            var e := w'.history[i];
            && e.at < |w'.log| && w'.log[e.at] == EventOf(e.command)
            && (e.sound && HeadWasFolded(e) ==> LandedWhereDecided(w'.log, e) && !Refuses(k, e.command, w'.log[..e.at]))
  {
    hide Run, Refuses;
    FreshIsInv(k, w);
    RunKeepsInv(k, w, actions);
    var w' := Run(k, w, actions);
    assert Recorded(k, w'.log, w'.history[i]);
  }

  /** So no pause decided from a sound fold lands on a paused or ended run, and no cancel on an ended one. */
  lemma {:induction false} NoRedundantDecision<S>(k: Reducer<S, Event>, w: World, actions: seq<Action>, i: nat)
    requires Fresh(w)
    ensures var w' := Run(k, w, actions);
            i < |w'.history| && w'.history[i].sound && !w'.history[i].command.Inject? ==>
              (w'.history[i].at < |w'.log| && !Terminal(StatusOf(k, w'.log[..w'.history[i].at]))
               && (w'.history[i].command.Pause? ==> StatusOf(k, w'.log[..w'.history[i].at]) != Paused))
  {
    hide Run, StatusOf;
    if i < |Run(k, w, actions).history| {
      AppendsLandWhereDecided(k, w, actions, i);
    }
  }

  /** At most one cancel, and nothing else decided from a sound fold comes after it. */
  lemma {:induction false} NothingAfterCancel<S(!new)>(k: Reducer<S, Event>, w: World, actions: seq<Action>, i: nat,
                                                       j: nat)
    requires Absorbing(k) && CommandsTakeEffect(k) && Fresh(w)
    ensures var h := Run(k, w, actions).history;
            i < j < |h| && h[i].command.Cancel? && h[i].sound && h[j].sound ==> !HeadWasFolded(h[j])
  {
    hide Run, StatusOf, CommandsTakeEffect, HeadWasFolded;
    var w' := Run(k, w, actions);
    if i < j < |w'.history| && w'.history[i].command.Cancel? && w'.history[i].sound && w'.history[j].sound {
      FreshIsInv(k, w);
      RunKeepsInv(k, w, actions);
      NoRedundantDecision(k, w, actions, i);
      AppendsLandWhereDecided(k, w, actions, i);
      AppendsLandWhereDecided(k, w, actions, j);
      assert w'.history[i].at < w'.history[j].at;
      CancelledFromThere(k, w'.log, w'.history[i].at, w'.history[j].at);
    }
  }

  lemma {:induction false} CancelEnds<S(!new)>(k: Reducer<S, Event>, log: seq<Event>)
    requires CommandsTakeEffect(k) && !Terminal(StatusOf(k, log))
    ensures StatusOf(k, log + [RunCancelled]) == Cancelled
  {
    FoldAppend(k, k.initial, log, RunCancelled);
  }

  lemma {:induction false} CancelledFromThere<S(!new)>(k: Reducer<S, Event>, log: seq<Event>, at: nat, later: nat)
    requires Absorbing(k) && CommandsTakeEffect(k) && at < later <= |log| && log[at] == RunCancelled
    requires !Terminal(StatusOf(k, log[..at]))
    ensures StatusOf(k, log[..later]) == Cancelled
  {
    hide StatusOf, CommandsTakeEffect;
    var upTo := log[..at] + [RunCancelled];
    CancelEnds(k, log[..at]);
    assert log[..later] == upTo + log[at + 1..later];
    TerminalStays(k, upTo, log[at + 1..later]);
  }
}
