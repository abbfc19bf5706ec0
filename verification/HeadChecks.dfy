/**
 What comparing heads is worth (cmd/arxi/pause.go, cancel.go, inject.go over logstore.AppendIfSeq):
 the exact conditions under which an append of Writers lands on the log it was decided from, and
 the runs that show what happens without them.
 */
module HeadChecks {
  import opened Bytes
  import opened Reducers
  import opened Writers

  // ------------------------------------------------------------------ runs, composed

  lemma {:induction false} RunAppend<S>(k: Reducer<S, Event>, w: World, a: seq<Action>, b: seq<Action>)
    ensures Run(k, w, a + b) == Run(k, Run(k, w, a), b)
    decreases |a|
  {
    hide Next;
    if a == [] {
      assert a + b == b;
    } else {
      assert (a + b)[0] == a[0] && (a + b)[1..] == a[1..] + b;
      RunAppend(k, Next(k, w, a[0]), a[1..], b);
    }
  }

  lemma {:induction false} RunCons<S>(k: Reducer<S, Event>, w: World, a: Action, rest: seq<Action>)
    ensures Run(k, w, [a] + rest) == Run(k, Next(k, w, a), rest) && Run(k, w, [a]) == Next(k, w, a)
  {
    hide Next;
    assert ([a] + rest)[1..] == rest && [a][1..] == [];
  }

  function Times(n: nat, a: Action): seq<Action> {
    if n == 0 then [] else [a] + Times(n - 1, a)
  }

  lemma {:induction false} LinesWritten<S>(k: Reducer<S, Event>, w: World)
    requires w.holder.Some? && w.tail <= w.batch
    ensures Run(k, w, Times(|w.batch| - |w.tail|, WriteLine)) == w.(tail := w.batch)
    decreases |w.batch| - |w.tail|
  {
    if |w.tail| == |w.batch| {
      assert w.tail == w.batch;
    } else {
      var w' := w.(tail := w.batch[..|w.tail| + 1]);
      RunCons(k, w, WriteLine, Times(|w.batch| - |w'.tail|, WriteLine));
      LinesWritten(k, w');
    }
  }

  /** The present holder is gone and the driver has committed these events. */
  function TakenOver(w: World, events: seq<Event>): World {
    var left := if w.holder.Some? && w.holder.value < |w.procs| then SetPhase(w, w.holder.value, Over) else w;
    Opened(left, |w.procs|).(log := w.log + events)
  }

  function DriverWrites(events: seq<Event>): seq<Action> {
    [Leave] + ([DriverOpens] + ([Drive(events)] + (Times(|events|, WriteLine) + [Commit])))
  }

  lemma {:induction false} DriverTakesOver<S>(k: Reducer<S, Event>, w: World, events: seq<Event>)
    ensures Run(k, w, DriverWrites(events)) == TakenOver(w, events)
  {
    hide Run;
    var open := TakenOver(w, []);
    var begun := open.(batch := events);
    var w1 := Next(k, w, Leave);
    assert w1.holder == None && w.log + [] == w.log;
    assert Next(k, w1, DriverOpens) == open && Next(k, open, Drive(events)) == begun;
    assert Next(k, begun.(tail := events), Commit) == TakenOver(w, events);
    hide Next;
    var write := Times(|events|, WriteLine) + [Commit];
    RunCons(k, w, Leave, [DriverOpens] + ([Drive(events)] + write));
    RunCons(k, w1, DriverOpens, [Drive(events)] + write);
    RunCons(k, open, Drive(events), write);
    RunAppend(k, begun, Times(|events|, WriteLine), [Commit]);
    LinesWritten(k, begun);
    RunCons(k, begun.(tail := events), Commit, []);
  }

  function ProcessWrites(p: nat): seq<Action> {
    [Leave] + ([OpenStore(p)] + ([AppendIfSeq(p)] + ([WriteLine] + [Commit])))
  }

  /** The driver goes and p, which has folded, finds the head it expects. */
  lemma {:induction false} ProcessAppends<S>(k: Reducer<S, Event>, w: World, p: nat)
    requires p < |w.procs| && w.procs[p].phase.Folded? && w.holder == Some(|w.procs|)
    requires !Refuses(k, w.procs[p].command, w.procs[p].phase.pre)
             && |w.log| == Expected(w.procs[p].command, w.procs[p].phase.pre)
    ensures var w' := Run(k, w, ProcessWrites(p));
            var c := w.procs[p];
            && w'.log == w.log + [EventOf(c.command)]
            && w'.history == w.history + [Entry(p, c.command, c.phase.pre, c.phase.sound, |w.log|)]
  {
    hide Refuses, Run, Expected, EventOf;
    var c := w.procs[p];
    var w1 := w.(holder := None);
    var w2 := Opened(SetPhase(w1, p, Holding(c.phase.pre, c.phase.sound)), p);
    var w3 := SetPhase(w2, p, Appending(c.phase.pre, c.phase.sound)).(batch := [EventOf(c.command)]);
    var w4 := w3.(tail := [EventOf(c.command)]);
    assert Next(k, w, Leave) == w1 && Next(k, w1, OpenStore(p)) == w2 && Next(k, w2, AppendIfSeq(p)) == w3;
    assert Next(k, w3, WriteLine) == w4;
    RunCons(k, w, Leave, [OpenStore(p)] + ([AppendIfSeq(p)] + ([WriteLine] + [Commit])));
    RunCons(k, w1, OpenStore(p), [AppendIfSeq(p)] + ([WriteLine] + [Commit]));
    RunCons(k, w2, AppendIfSeq(p), [WriteLine] + [Commit]);
    RunCons(k, w3, WriteLine, [Commit]);
    RunCons(k, w4, Commit, []);
  }

  // ------------------------------------------------------------------ exactly when a read is safe

  /** Every append p made in this run landed where it was decided. */
  ghost predicate AllLand<S>(k: Reducer<S, Event>, w: World, actions: seq<Action>, p: nat) {
    var w' := Run(k, w, actions);
    forall i | 0 <= i < |w'.history| && w'.history[i].proc == p :: LandedWhereDecided(w'.log, w'.history[i])
  }

  /** p goes on from this read: what it folds is some of `raw`, at least the first `seen`. */
  ghost predicate FromRead(w: World, p: nat, c: Command, raw: seq<Event>, seen: nat, base: nat) {
    && p < |w.procs| && w.procs[p].command == c && base <= |w.log|
    && match w.procs[p].phase
       case Idle => false
       case Reading(r, s, _) => r == raw && s == seen
       case Folded(pre, _) => IsCut(raw, seen, pre)
       case Holding(pre, _) => IsCut(raw, seen, pre)
       case Appending(pre, _) => IsCut(raw, seen, pre)
       case Over => true
  }

  predicate IsCut(raw: seq<Event>, seen: nat, pre: seq<Event>) {
    seen <= |pre| && pre <= raw
  }

  ghost predicate EntriesFromRead(w: World, p: nat, c: Command, raw: seq<Event>, seen: nat, base: nat) {
    forall i | 0 <= i < |w.history| && w.history[i].proc == p ::
      w.history[i].command == c && IsCut(raw, seen, w.history[i].pre) && w.history[i].at >= base
  }

  lemma {:induction false} StepKeepsFromRead<S>(k: Reducer<S, Event>, w: World, a: Action, p: nat, c: Command,
                                                raw: seq<Event>, seen: nat,
                                                base: nat)
    requires Inv(k, w) && FromRead(w, p, c, raw, seen, base) && EntriesFromRead(w, p, c, raw, seen, base)
    ensures FromRead(Next(k, w, a), p, c, raw, seen, base) && EntriesFromRead(Next(k, w, a), p, c, raw, seen, base)
  {
    hide Refuses, Expected, EventOf, HistoryOk, Recorded;
    NewEntry(k, w, a);
    ShapeStays(k, w, a);
    assert ProcOk(k, w, p, w.procs[p]);
  }

  lemma {:induction false} RunKeepsFromRead<S>(k: Reducer<S, Event>, w: World, actions: seq<Action>, p: nat,
                                               c: Command, raw: seq<Event>,
                                               seen: nat, base: nat)
    requires Inv(k, w) && FromRead(w, p, c, raw, seen, base) && EntriesFromRead(w, p, c, raw, seen, base)
    ensures EntriesFromRead(Run(k, w, actions), p, c, raw, seen, base)
    ensures Inv(k, Run(k, w, actions)) && w.log <= Run(k, w, actions).log
    decreases |actions|
  {
    hide Next, Inv, FromRead, EntriesFromRead;
    if actions != [] {
      StepKeepsFromRead(k, w, actions[0], p, c, raw, seen, base);
      StepKeepsInv(k, w, actions[0]);
      RunKeepsFromRead(k, Next(k, w, actions[0]), actions[1..], p, c, raw, seen, base);
    }
  }

  /** Every part of what the file held beyond the committed log would make the command refuse. */
  ghost predicate TailRefused<S>(k: Reducer<S, Event>, w: World, c: Command) {
    forall j | |w.log| < j <= |w.log + w.tail| :: Refuses(k, c, (w.log + w.tail)[..j])
  }

  lemma {:induction false} RefusedTailIsSafe<S>(k: Reducer<S, Event>, w: World, p: nat, actions: seq<Action>)
    requires Inv(k, w) && p < |w.procs| && w.procs[p].phase.Idle? && !w.procs[p].command.Inject?
    requires TailRefused(k, w, w.procs[p].command)
    ensures AllLand(k, Next(k, w, ReadFile(p)), actions, p)
  {
    var c, raw := w.procs[p].command, w.log + w.tail;
    var w1 := Next(k, w, ReadFile(p));
    StepKeepsInv(k, w, ReadFile(p));
    assert FromRead(w1, p, c, raw, |w.log|, 0) && EntriesFromRead(w1, p, c, raw, |w.log|, 0);
    hide Next, Inv, Run, FromRead, Refuses;
    RunKeepsFromRead(k, w1, actions, p, c, raw, |w.log|, 0);
    var w' := Run(k, w1, actions);
    forall i | 0 <= i < |w'.history| && w'.history[i].proc == p ensures LandedWhereDecided(w'.log, w'.history[i]) {
      EntryIsRecorded(k, w', i);
      var e := w'.history[i];
      assert IsCut(raw, |w.log|, e.pre) && e.pre == raw[..|e.pre|];
      assert |e.pre| == |w.log|;
      assert raw[..|w.log|] == w.log == w'.log[..|w.log|];
    }
  }

  lemma {:induction false} EntryIsRecorded<S>(k: Reducer<S, Event>, w: World, i: nat)
    requires Inv(k, w) && i < |w.history|
    ensures Recorded(k, w.log, w.history[i])
  {
  }

  /** A process that has read the file and nothing else, with the marker still to sample. */
  predicate JustRead(w: World, p: nat) {
    p < |w.procs| && w.procs[p].phase == Reading(w.log + w.tail, |w.log|, w.rollbacks)
  }

  function StaleActions(p: nat, j: nat, events: seq<Event>): seq<Action> {
    DriverWrites(events) + ([Drive([Driven(0)])] + ([SampleMarker(p, j)] + ProcessWrites(p)))
  }

  /**
   The batch p saw the beginning of is rolled back, another one is committed in its place, and only
   then p samples the marker: the head it compares is the same, the log is not.
   */
  lemma {:induction false} StaleFoldLands<S>(k: Reducer<S, Event>, w: World, p: nat, j: nat, events: seq<Event>)
    requires Inv(k, w) && JustRead(w, p) && !w.procs[p].command.Inject?
    requires |w.log| < j <= |w.log + w.tail| && |events| == j - |w.log|
    requires !Refuses(k, w.procs[p].command, (w.log + w.tail)[..j])
    ensures var w' := Run(k, w, StaleActions(p, j, events));
            var pre := (w.log + w.tail)[..j];
            && w'.log == w.log + events + [EventOf(w.procs[p].command)]
            && w'.history == w.history + [Entry(p, w.procs[p].command, pre, pre <= w.log + events, j)]
  {
    assert ProcOk(k, w, p, w.procs[p]);
    assert w.batch != [] && w.tail <= w.batch;
    hide Inv, ProcOk, Refuses, Run, EventOf;
    var raw, c := w.log + w.tail, w.procs[p].command;
    var w1 := TakenOver(w, events);
    var w2 := w1.(batch := [Driven(0)]);
    var w3 := SetPhase(w2, p, Folded(raw[..j], raw[..j] <= w1.log));
    assert w1.procs[p] == w.procs[p] && w1.rollbacks == w.rollbacks + 1;
    assert Next(k, w1, Drive([Driven(0)])) == w2 && Next(k, w2, SampleMarker(p, j)) == w3;
    hide Next;
    DriverTakesOver(k, w, events);
    RunAppend(k, w, DriverWrites(events), [Drive([Driven(0)])] + ([SampleMarker(p, j)] + ProcessWrites(p)));
    RunCons(k, w1, Drive([Driven(0)]), [SampleMarker(p, j)] + ProcessWrites(p));
    RunCons(k, w2, SampleMarker(p, j), ProcessWrites(p));
    ProcessAppends(k, w3, p);
  }

  function Fill(n: nat, e: Event): (events: seq<Event>)
    ensures |events| == n && forall i | 0 <= i < n :: events[i] == e
  {
    seq(n, _ => e)
  }

  /** An event unlike a given one. */
  function Unlike(e: Event): (r: Event)
    ensures r != e
  {
    if e == Driven(0) then Driven(1) else Driven(0)
  }

  lemma {:induction false} ReadIsSafeFrom<S>(k: Reducer<S, Event>, w: World, p: nat)
    requires Inv(k, w) && p < |w.procs| && w.procs[p].phase.Idle? && !w.procs[p].command.Inject?
    ensures (forall actions: seq<Action> :: AllLand(k, Next(k, w, ReadFile(p)), actions, p)) <==>
              TailRefused(k, w, w.procs[p].command)
    ensures !Refuses(k, w.procs[p].command, w.log + w.tail) ==>
              ((forall actions: seq<Action> :: AllLand(k, Next(k, w, ReadFile(p)), actions, p)) <==> w.tail == [])
  {
    hide Refuses, AllLand, Inv;
    var c, raw := w.procs[p].command, w.log + w.tail;
    assert raw[..|raw|] == raw;
    if TailRefused(k, w, c) {
      forall actions: seq<Action> ensures AllLand(k, Next(k, w, ReadFile(p)), actions, p) {
        RefusedTailIsSafe(k, w, p, actions);
      }
    } else {
      var j :| |w.log| < j <= |raw| && !Refuses(k, c, raw[..j]);
      UnsafeRead(k, w, p, j);
    }
  }

  lemma {:induction false} UnsafeRead<S>(k: Reducer<S, Event>, w: World, p: nat, j: nat)
    requires Inv(k, w) && p < |w.procs| && w.procs[p].phase.Idle? && !w.procs[p].command.Inject?
    requires |w.log| < j <= |w.log + w.tail| && !Refuses(k, w.procs[p].command, (w.log + w.tail)[..j])
    ensures exists actions: seq<Action> :: !AllLand(k, Next(k, w, ReadFile(p)), actions, p)
  {
    hide Refuses, Inv, Run, StaleActions;
    var raw := w.log + w.tail;
    var events := Fill(j - |w.log|, Unlike(raw[|w.log|]));
    var w1 := Next(k, w, ReadFile(p));
    StepKeepsInv(k, w, ReadFile(p));
    StaleFoldLands(k, w1, p, j, events);
    var w' := Run(k, w1, StaleActions(p, j, events));
    var e := w'.history[|w.history|];
    assert w'.log[|w.log|] == events[0] && raw[..j][|w.log|] == raw[|w.log|];
    assert e.pre[|w.log|] != w'.log[..e.at][|w.log|];
    assert !AllLand(k, w1, StaleActions(p, j, events), p);
  }

  /** Whatever happens from here on, p's appends land where they were decided. */
  ghost predicate LandsFrom<S>(k: Reducer<S, Event>, w: World, p: nat) {
    forall actions: seq<Action> :: AllLand(k, w, actions, p)
  }

  /** A pause or cancel that has not begun. */
  predicate MayRead(w: World, p: nat) {
    p < |w.procs| && w.procs[p].phase.Idle? && !w.procs[p].command.Inject?
  }

  /**
   Exactly when a read is safe, in every reachable state. Whatever happens afterwards, a pause or
   cancel that has read the file lands on the log it folded, if and only if every complete
   provisional line it read makes it refuse; if it would go ahead with what it read, if and only if
   there was none.
   */
  lemma {:induction false} ReadIsSafeIff<S>(k: Reducer<S, Event>, start: World, before: seq<Action>, p: nat)
    requires Fresh(start)
    ensures var w := Run(k, start, before);
            MayRead(w, p) ==>
              ((LandsFrom(k, Next(k, w, ReadFile(p)), p) <==> TailRefused(k, w, w.procs[p].command))
               && (!Refuses(k, w.procs[p].command, w.log + w.tail) ==>
                     (LandsFrom(k, Next(k, w, ReadFile(p)), p) <==> w.tail == [])))
  {
    hide Run, Next, Inv, AllLand, Refuses, TailRefused, Fresh;
    FreshIsInv(k, start);
    RunKeepsInv(k, start, before);
    var w := Run(k, start, before);
    if MayRead(w, p) {
      ReadIsSafeFrom(k, w, p);
    }
  }

  /** Someone's last append stands on a cancelled log. */
  ghost predicate LandsOnCancelled<S>(k: Reducer<S, Event>, w: World, actions: seq<Action>, c: Command) {
    var w' := Run(k, w, actions);
    && w'.history != [] && w'.history[|w'.history| - 1].command == c
    && w'.history[|w'.history| - 1].at < |w'.log|
    && StatusOf(k, w'.log[..w'.history[|w'.history| - 1].at]) == Cancelled
  }

  /** One process, and a batch of one event that its writer died before committing. */
  function LeftBehind(log: seq<Event>, e: Event, c: Command): World {
    World(log, [e], [e], None, 0, [Proc(c, Idle)], [])
  }

  /**
   So a pause can land on a run that was cancelled instead of what it read: on every log of a live
   run, behind every provisional event that leaves it pausable.
   */
  lemma {:induction false} StalePauseOnCancelledRun<S(!new)>(k: Reducer<S, Event>, log: seq<Event>, e: Event)
    requires CommandsTakeEffect(k) && !Terminal(StatusOf(k, log)) && !Refuses(k, Pause, log + [e])
    ensures Fresh(LeftBehind(log, e, Pause))
    ensures exists actions: seq<Action> :: LandsOnCancelled(k, LeftBehind(log, e, Pause), actions, Pause)
  {
    hide Refuses, Inv, Run, StaleActions, StatusOf, CommandsTakeEffect;
    var w := LeftBehind(log, e, Pause);
    var w1 := Next(k, w, ReadFile(0));
    FreshIsInv(k, w);
    StepKeepsInv(k, w, ReadFile(0));
    assert (log + [e])[..|log| + 1] == log + [e];
    StaleFoldLands(k, w1, 0, |log| + 1, [RunCancelled]);
    CancelEnds(k, log);
    var actions := StaleActions(0, |log| + 1, [RunCancelled]);
    RunCons(k, w, ReadFile(0), actions);
    assert Run(k, w1, actions).log[..|log| + 1] == log + [RunCancelled];
    assert LandsOnCancelled(k, w, [ReadFile(0)] + actions, Pause);
  }

  // ------------------------------------------------------------------ the limit of --if-seq

  /** p has folded a prefix of the log, would go ahead, and guards its append with a number. */
  ghost predicate Guarded<S>(k: Reducer<S, Event>, w: World, p: nat) {
    && p < |w.procs| && w.procs[p].phase.Folded? && w.procs[p].command.Inject?
    && w.procs[p].phase.pre <= w.log && !Refuses(k, w.procs[p].command, w.procs[p].phase.pre)
  }

  function GuardedActions(p: nat, events: seq<Event>): seq<Action> {
    DriverWrites(events) + ProcessWrites(p)
  }

  /** The driver brings the log to the number given, and the inject lands behind what it wrote. */
  lemma {:induction false} InjectsAhead<S>(k: Reducer<S, Event>, w: World, p: nat, events: seq<Event>)
    requires Guarded(k, w, p) && w.holder != Some(p) && |w.log + events| == w.procs[p].command.ifSeq
    ensures var w' := Run(k, w, GuardedActions(p, events));
            var c := w.procs[p];
            && w'.log == w.log + events + [EventOf(c.command)]
            && w'.history == w.history + [Entry(p, c.command, c.phase.pre, c.phase.sound, |w.log + events|)]
  {
    hide Run, Refuses, EventOf;
    DriverTakesOver(k, w, events);
    RunAppend(k, w, DriverWrites(events), ProcessWrites(p));
    assert TakenOver(w, events).procs[p] == w.procs[p];
    ProcessAppends(k, TakenOver(w, events), p);
  }

  lemma {:induction false} NotHolder<S>(k: Reducer<S, Event>, w: World, p: nat)
    requires Inv(k, w) && p < |w.procs| && (w.procs[p].phase.Folded? || w.procs[p].phase.Reading?)
    ensures w.holder != Some(p)
    ensures forall i | 0 <= i < |w.history| :: w.history[i].proc != p
  {
    assert ProcOk(k, w, p, w.procs[p]);
  }

  lemma {:induction false} GuardFrom<S>(k: Reducer<S, Event>, w: World, p: nat)
    requires Inv(k, w) && Guarded(k, w, p)
    ensures (forall actions: seq<Action> :: AllLand(k, w, actions, p))
            <==> w.procs[p].command.ifSeq <= |w.procs[p].phase.pre| || w.procs[p].command.ifSeq < |w.log|
  {
    hide AllLand, Inv, Refuses;
    var n, pre := w.procs[p].command.ifSeq, w.procs[p].phase.pre;
    if n <= |pre| || n < |w.log| {
      forall actions: seq<Action> ensures AllLand(k, w, actions, p) {
        GuardHolds(k, w, p, actions);
      }
    } else {
      GuardFails(k, w, p);
    }
  }

  lemma {:induction false} GuardHolds<S>(k: Reducer<S, Event>, w: World, p: nat, actions: seq<Action>)
    requires Inv(k, w) && Guarded(k, w, p)
    requires w.procs[p].command.ifSeq <= |w.procs[p].phase.pre| || w.procs[p].command.ifSeq < |w.log|
    ensures AllLand(k, w, actions, p)
  {
    hide Inv, Run, Refuses, Next;
    var c, pre := w.procs[p].command, w.procs[p].phase.pre;
    NotHolder(k, w, p);
    assert FromRead(w, p, c, pre, |pre|, |w.log|) && EntriesFromRead(w, p, c, pre, |pre|, |w.log|);
    RunKeepsFromRead(k, w, actions, p, c, pre, |pre|, |w.log|);
    var w' := Run(k, w, actions);
    forall i | 0 <= i < |w'.history| && w'.history[i].proc == p ensures LandedWhereDecided(w'.log, w'.history[i]) {
      EntryIsRecorded(k, w', i);
      assert IsCut(pre, |pre|, w'.history[i].pre) && w'.history[i].pre == pre;
      assert w'.history[i].at == c.ifSeq >= |w.log|;
      assert pre == w.log[..|pre|] == w'.log[..|pre|];
    }
  }

  lemma {:induction false} GuardFails<S>(k: Reducer<S, Event>, w: World, p: nat)
    requires Inv(k, w) && Guarded(k, w, p)
    requires w.procs[p].command.ifSeq > |w.procs[p].phase.pre| && w.procs[p].command.ifSeq >= |w.log|
    ensures exists actions: seq<Action> :: !AllLand(k, w, actions, p)
  {
    hide Inv, Run, Refuses, GuardedActions;
    var events := Fill(w.procs[p].command.ifSeq - |w.log|, Driven(0));
    NotHolder(k, w, p);
    InjectsAhead(k, w, p, events);
    var w' := Run(k, w, GuardedActions(p, events));
    var e := w'.history[|w.history|];
    assert |e.pre| < e.at;
    assert !AllLand(k, w, GuardedActions(p, events), p);
  }

  /**
   What a number guards, in every reachable state. From a fold on, every append of the inject in
   every continuation lands on the log it was decided from, if and only if the number is not past
   the fold, or the log has already gone past the number. For a fold of the whole log: if and only
   if it is not past it.
   */
  lemma {:induction false} IfSeqGuardsTheFoldIff<S>(k: Reducer<S, Event>, start: World, before: seq<Action>, p: nat)
    requires Fresh(start)
    ensures var w := Run(k, start, before);
            Guarded(k, w, p) ==>
              (LandsFrom(k, w, p) <==>
                 w.procs[p].command.ifSeq <= |w.procs[p].phase.pre| || w.procs[p].command.ifSeq < |w.log|)
  {
    hide Run, Inv, AllLand, Fresh;
    FreshIsInv(k, start);
    RunKeepsInv(k, start, before);
    var w := Run(k, start, before);
    if Guarded(k, w, p) {
      GuardFrom(k, w, p);
    }
  }

  /** One process that is to inject on condition of a number, and nothing in flight. */
  function Quiet(log: seq<Event>, c: Command): World {
    World(log, [], [], None, 0, [Proc(c, Idle)], [])
  }

  /** And on every log of a live run, any number past it lets the inject land on a run cancelled meanwhile. */
  lemma {:induction false} IfSeqAheadLandsOnEndedRun<S(!new)>(k: Reducer<S, Event>, log: seq<Event>, ifSeq: nat,
                                                              text: string)
    requires Absorbing(k) && CommandsTakeEffect(k) && ifSeq > |log|
    requires !Terminal(StatusOf(k, log)) && StatusOf(k, log) != Paused
    ensures Fresh(Quiet(log, Inject(ifSeq, text)))
    ensures exists actions: seq<Action> :: LandsOnCancelled(k, Quiet(log, Inject(ifSeq, text)), actions,
             Inject(ifSeq, text))
  {
    hide Run, GuardedActions, StatusOf, CommandsTakeEffect;
    var c := Inject(ifSeq, text);
    var w := Quiet(log, c);
    var events := [RunCancelled] + Fill(ifSeq - |log| - 1, Driven(0));
    var w1 := Next(k, w, ReadFile(0));
    var w2 := Next(k, w1, SampleMarker(0, |log|));
    assert log + [] == log && log[..|log|] == log;
    assert w2 == w.(procs := [Proc(c, Folded(log, true))]) && Guarded(k, w2, 0);
    InjectsAhead(k, w2, 0, events);
    var actions := GuardedActions(0, events);
    RunCons(k, w, ReadFile(0), [SampleMarker(0, |log|)] + actions);
    RunCons(k, w1, SampleMarker(0, |log|), actions);
    var w' := Run(k, w2, actions);
    assert w'.log[|log|] == RunCancelled && w'.log[..|log|] == log;
    CancelledFromThere(k, w'.log, |log|, ifSeq);
    assert LandsOnCancelled(k, w, [ReadFile(0)] + ([SampleMarker(0, |log|)] + actions), c);
  }
}
