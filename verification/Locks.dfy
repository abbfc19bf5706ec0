/**
 The writer lock (internal/advisorylock, internal/logstore/store.go acquireLock and releaseLock): an
 advisory lock on an open file, and a release that unlocks first and removes the file afterwards.
 The lock is on the file that was opened, the name may by then stand for another one or for none.

 CommitLog has one writer at a time. This is when there is.
 */
module Locks {
  import opened Bytes

  type File = nat

  datatype Phase =
    | Out
    | Opened(file: File)     // the lock file is open, the lock not yet asked for
    | Writing(file: File)    // the lock is held
    | Released               // unlocked and closed, the file not yet removed
    // A follower, and where it is in one call of writerLockOwner (cmd/arxi/attach.go).
    | Polling
    | Looked                 // it has read a lock file, and goes on to ask whether its lock is held
    | Probing(file: File)    // for that it has opened the lock file
    | Testing(file: File)    // and got its lock
    | Left                   // it was told that nobody owns the run

  /** name: the file the lock's path stands for; next: a file that never was. */
  datatype World = World(name: Option<File>, next: File, procs: seq<Phase>)

  datatype Action =
    | Look(p: nat)       // a follower reads the lock file
    | OpenFile(p: nat)   // creates the file if there is none
    | Flock(p: nat)      // without waiting
    | Unlock(p: nat)
    | Remove(p: nat)
    | Die(p: nat)

  /** The process has the lock of that file, to write or to find out whether somebody writes. */
  predicate Holds(phase: Phase, f: File) {
    phase == Writing(f) || phase == Testing(f)
  }

  predicate HeldBySomeone(procs: seq<Phase>, f: File) {
    exists q :: 0 <= q < |procs| && Holds(procs[q], f)
  }

  /** The file an OpenFile opens. */
  function FileNow(w: World): File {
    if w.name.Some? then w.name.value else w.next
  }

  function WithFile(w: World): World {
    if w.name.Some? then w else w.(name := Some(w.next), next := w.next + 1)
  }

  /** One action; one that is not enabled changes nothing. */
  function Next(w: World, a: Action): World {
    if a.p >= |w.procs| then w
    else
      match (a, w.procs[a.p])
      case (Look(p), Polling) => w.(procs := w.procs[p := if w.name.Some? then Looked else Left])
      case (OpenFile(p), Out) => WithFile(w).(procs := w.procs[p := Opened(FileNow(w))])
      case (OpenFile(p), Looked) => WithFile(w).(procs := w.procs[p := Probing(FileNow(w))])
      case (Flock(p), Opened(f)) =>
        w.(procs := w.procs[p := if HeldBySomeone(w.procs, f) then Out else Writing(f)])
      case (Flock(p), Probing(f)) =>
        // Whatever it finds, the run counts as owned.
        w.(procs := w.procs[p := if HeldBySomeone(w.procs, f) then Polling else Testing(f)])
      case (Unlock(p), Writing(_)) => w.(procs := w.procs[p := Released])
      case (Unlock(p), Testing(_)) => w.(procs := w.procs[p := Polling])
      case (Remove(p), Released) => w.(name := None, procs := w.procs[p := Out])
      case (Die(p), _) => w.(procs := w.procs[p := Out])
      case _ => w
  }

  function Run(w: World, actions: seq<Action>): World
    decreases |actions|
  {
    if actions == [] then w else Run(Next(w, actions[0]), actions[1..])
  }

  /** A writer, or one that wants to be, has a lock file open. */
  predicate HasFile(phase: Phase) {
    phase.Opened? || phase.Writing?
  }

  /** The same for a follower as well. */
  predicate HasAny(phase: Phase) {
    HasFile(phase) || phase.Probing? || phase.Testing?
  }

  /** Never two locks on one file, and no file that has not been created. */
  ghost predicate Inv(w: World) {
    && (forall p, q | 0 <= p < |w.procs| && 0 <= q < |w.procs| && (w.procs[p].Writing? || w.procs[p].Testing?)
          && Holds(w.procs[q], w.procs[p].file) :: p == q)
    && (forall p | 0 <= p < |w.procs| && HasAny(w.procs[p]) :: w.procs[p].file < w.next)
    && (w.name.Some? ==> w.name.value < w.next)
  }

  lemma {:induction false} PhaseKeepsInv(w: World, p: nat, phase: Phase)
    requires Inv(w) && p < |w.procs|
    requires HasAny(phase) ==> phase.file < w.next
    requires phase.Writing? || phase.Testing? ==> !HeldBySomeone(w.procs, phase.file)
    ensures Inv(w.(procs := w.procs[p := phase]))
  {
    var procs := w.procs[p := phase];
    forall q, r | 0 <= q < |procs| && 0 <= r < |procs| && (procs[q].Writing? || procs[q].Testing?)
                  && Holds(procs[r], procs[q].file)
      ensures q == r
    {
      assert Holds(procs[q], procs[q].file);
    }
  }

  lemma {:induction false} NameKeepsInv(w: World)
    requires Inv(w)
    ensures Inv(WithFile(w)) && FileNow(w) < WithFile(w).next && Inv(w.(name := None))
    ensures forall p | 0 <= p < |w.procs| && HasAny(w.procs[p]) :: w.procs[p].file < w.next
  {
  }

  lemma {:induction false} StepKeepsInv(w: World, a: Action)
    requires Inv(w)
    ensures Inv(Next(w, a))
  {
    hide Inv, HeldBySomeone;
    if a.p < |w.procs| {
      match (a, w.procs[a.p])
      case (OpenFile(p), Out) =>
        NameKeepsInv(w);
        PhaseKeepsInv(WithFile(w), p, Opened(FileNow(w)));
      case (OpenFile(p), Looked) =>
        NameKeepsInv(w);
        PhaseKeepsInv(WithFile(w), p, Probing(FileNow(w)));
      case (Flock(p), Opened(f)) =>
        NameKeepsInv(w);
        PhaseKeepsInv(w, p, if HeldBySomeone(w.procs, f) then Out else Writing(f));
      case (Flock(p), Probing(f)) =>
        NameKeepsInv(w);
        PhaseKeepsInv(w, p, if HeldBySomeone(w.procs, f) then Polling else Testing(f));
      case (Remove(p), Released) =>
        PhaseKeepsInv(w, p, Out);
        NameKeepsInv(w.(procs := w.procs[p := Out]));
      case (Look(p), Polling) => PhaseKeepsInv(w, p, if w.name.Some? then Looked else Left);
      case (Unlock(p), Writing(_)) => PhaseKeepsInv(w, p, Released);
      case (Unlock(p), Testing(_)) => PhaseKeepsInv(w, p, Polling);
      case (Die(p), _) => PhaseKeepsInv(w, p, Out);
      case _ =>
    }
  }

  lemma {:induction false} RunKeepsInv(w: World, actions: seq<Action>)
    requires Inv(w)
    ensures Inv(Run(w, actions))
    decreases |actions|
  {
    hide Inv, Next;
    if actions != [] {
      StepKeepsInv(w, actions[0]);
      RunKeepsInv(Next(w, actions[0]), actions[1..]);
    }
  }

  ghost predicate OneWriter(w: World) {
    forall p, q | 0 <= p < |w.procs| && 0 <= q < |w.procs| && w.procs[p].Writing? && w.procs[q].Writing? :: p == q
  }

  /** Every writer that has a lock file open has the one the name stands for. */
  ghost predicate SameFile(w: World) {
    forall p | 0 <= p < |w.procs| && HasFile(w.procs[p]) :: w.name == Some(w.procs[p].file)
  }

  predicate NothingRemoved(actions: seq<Action>) {
    forall i | 0 <= i < |actions| :: !actions[i].Remove?
  }

  lemma {:induction false} SameFileIsOneWriter(w: World)
    requires Inv(w) && SameFile(w)
    ensures OneWriter(w)
  {
    assert forall p | 0 <= p < |w.procs| && w.procs[p].Writing? :: HasFile(w.procs[p]);
  }

  /** A removal while somebody has a lock file open. */
  ghost predicate RemovesUnderSomeone(w: World, a: Action) {
    a.Remove? && a.p < |w.procs| && w.procs[a.p].Released? && exists q :: 0 <= q < |w.procs| && HasFile(w.procs[q])
  }

  /** Everything but a removal keeps it, and a removal does iff nobody has a lock file open. */
  lemma {:induction false} StepKeepsSameFileIff(w: World, a: Action)
    requires Inv(w) && SameFile(w)
    ensures SameFile(Next(w, a)) <==> !RemovesUnderSomeone(w, a)
  {
    var w' := Next(w, a);
    if RemovesUnderSomeone(w, a) {
      var q :| 0 <= q < |w.procs| && HasFile(w.procs[q]);
      assert w'.procs[q] == w.procs[q] && w'.name == None;
    } else {
      forall p | 0 <= p < |w'.procs| && HasFile(w'.procs[p]) ensures w'.name == Some(w'.procs[p].file) {
        assert w'.procs[p] == w.procs[p] ==> HasFile(w.procs[p]);
      }
    }
  }

  lemma {:induction false} RunKeepsSameFile(w: World, actions: seq<Action>)
    requires Inv(w) && SameFile(w) && NothingRemoved(actions)
    ensures OneWriter(Run(w, actions))
    decreases |actions|
  {
    hide Inv, Next, SameFile, OneWriter;
    if actions == [] {
      SameFileIsOneWriter(w);
    } else {
      StepKeepsInv(w, actions[0]);
      StepKeepsSameFileIff(w, actions[0]);
      assert forall i | 0 <= i < |actions[1..]| :: actions[1..][i] == actions[i + 1];
      RunKeepsSameFile(Next(w, actions[0]), actions[1..]);
    }
  }

  lemma {:induction false} RunCons(w: World, a: Action, rest: seq<Action>)
    ensures Run(w, [a] + rest) == Run(Next(w, a), rest)
  {
    assert ([a] + rest)[1..] == rest;
  }

  ghost predicate TwoWritersCanMeet(w: World) {
    exists actions: seq<Action> :: NothingRemoved(actions) && !OneWriter(Run(w, actions))
  }

  lemma {:induction false} Later(w: World, a: Action)
    requires TwoWritersCanMeet(Next(w, a)) && !a.Remove?
    ensures TwoWritersCanMeet(w)
  {
    hide Next, OneWriter;
    var actions: seq<Action> :| NothingRemoved(actions) && !OneWriter(Run(Next(w, a), actions));
    RunCons(w, a, actions);
    assert NothingRemoved([a] + actions);
  }

  lemma {:induction false} Now(w: World)
    requires !OneWriter(w)
    ensures TwoWritersCanMeet(w)
  {
    assert NothingRemoved([]) && Run(w, []) == w;
  }

  /** A probe gives the lock back, and then the file is free. */
  lemma {:induction false} ProbeEnds(w: World, r: nat, f: File)
    requires Inv(w) && r < |w.procs| && w.procs[r] == Testing(f)
    ensures var w' := Next(w, Unlock(r));
            && Inv(w') && w'.name == w.name && w'.procs == w.procs[r := Polling] && !HeldBySomeone(w'.procs, f)
  {
    StepKeepsInv(w, Unlock(r));
  }

  /** A process that is out can open the file under the name and get its lock, if nobody has it already. */
  lemma {:induction false} NewcomerLocksFree(w: World, p: nat, q: nat, f: File)
    requires Inv(w) && p < |w.procs| && q < |w.procs| && w.procs[p] == Writing(f) && w.name != Some(f)
             && w.procs[q] == Out
    requires !HeldBySomeone(w.procs, FileNow(w))
    ensures TwoWritersCanMeet(w)
  {
    var w1 := Next(w, OpenFile(q));
    var w2 := Next(w1, Flock(q));
    var g := FileNow(w);
    assert g != f && w1.procs[p] == Writing(f) && w1.procs[q] == Opened(g);
    assert forall r | 0 <= r < |w.procs| && r != q :: w1.procs[r] == w.procs[r];
    assert w2.procs[q] == Writing(g) && w2.procs[p] == Writing(f) && p != q;
    Now(w2);
    Later(w1, Flock(q));
    Later(w, OpenFile(q));
  }

  /** And if somebody has it, that is a second writer, or a probe that soon gives it back. */
  lemma {:induction false} NewcomerLocks(w: World, p: nat, q: nat, f: File)
    requires Inv(w) && p < |w.procs| && q < |w.procs| && w.procs[p] == Writing(f) && w.name != Some(f)
             && w.procs[q] == Out
    ensures TwoWritersCanMeet(w)
  {
    var g := FileNow(w);
    if HeldBySomeone(w.procs, g) {
      var r :| 0 <= r < |w.procs| && Holds(w.procs[r], g);
      if w.procs[r].Writing? {
        assert r != p;
        Now(w);
      } else {
        hide Next;
        ProbeEnds(w, r, g);
        NewcomerLocksFree(Next(w, Unlock(r)), p, q, f);
        Later(w, Unlock(r));
      }
    } else {
      NewcomerLocksFree(w, p, q, f);
    }
  }

  lemma {:induction false} OpenedLocksFree(w: World, p: nat, q: nat, f: File)
    requires Inv(w) && p < |w.procs| && q < |w.procs| && w.procs[p] == Opened(f) && w.name != Some(f)
             && w.procs[q] == Out
    requires !HeldBySomeone(w.procs, f)
    ensures TwoWritersCanMeet(w)
  {
    var w1 := Next(w, Flock(p));
    StepKeepsInv(w, Flock(p));
    assert w1.procs[p] == Writing(f) && w1.procs[q] == Out && w1.name == w.name;
    NewcomerLocks(w1, p, q, f);
    Later(w, Flock(p));
  }

  lemma {:induction false} OpenedLocks(w: World, p: nat, q: nat, f: File)
    requires Inv(w) && p < |w.procs| && q < |w.procs| && w.procs[p] == Opened(f) && w.name != Some(f)
             && w.procs[q] == Out
    ensures TwoWritersCanMeet(w)
  {
    if HeldBySomeone(w.procs, f) {
      var r :| 0 <= r < |w.procs| && Holds(w.procs[r], f);
      if w.procs[r].Writing? {
        NewcomerLocks(w, r, q, f);
      } else {
        hide Next;
        ProbeEnds(w, r, f);
        OpenedLocksFree(Next(w, Unlock(r)), p, q, f);
        Later(w, Unlock(r));
      }
    } else {
      OpenedLocksFree(w, p, q, f);
    }
  }

  /**
   Exactly when there is one writer. As long as no lock file is removed, and provided somebody may
   still come, two writers never meet if and only if whoever has a lock file open has the one the
   path stands for.
   */
  lemma {:induction false} OneWriterIff(w: World, q: nat)
    requires Inv(w) && q < |w.procs| && w.procs[q] == Out
    ensures !TwoWritersCanMeet(w) <==> SameFile(w)
  {
    hide Next, OneWriter;
    if SameFile(w) {
      forall actions: seq<Action> | NothingRemoved(actions) ensures OneWriter(Run(w, actions)) {
        RunKeepsSameFile(w, actions);
      }
    } else {
      var p :| 0 <= p < |w.procs| && HasFile(w.procs[p]) && w.name != Some(w.procs[p].file);
      var f := w.procs[p].file;
      if w.procs[p].Writing? {
        NewcomerLocks(w, p, q, f);
      } else {
        OpenedLocks(w, p, q, f);
      }
    }
  }

  /**
   So a Close is what breaks it: after its removal two writers can meet exactly if, when it came to
   remove the file, somebody had opened it since the unlock.
   */
  lemma {:induction false} RemovalIsSafeIff(w: World, p: nat, q: nat)
    requires Inv(w) && SameFile(w) && p < |w.procs| && w.procs[p] == Released && q < |w.procs| && w.procs[q] == Out
    ensures TwoWritersCanMeet(Next(w, Remove(p))) <==> exists r :: 0 <= r < |w.procs| && HasFile(w.procs[r])
  {
    StepKeepsInv(w, Remove(p));
    StepKeepsSameFileIff(w, Remove(p));
    OneWriterIff(Next(w, Remove(p)), q);
  }

  // ------------------------------------------------------------------ the follower's probe

  predicate Follows(phase: Phase) {
    phase in {Polling, Looked} || phase.Probing? || phase.Testing?
  }

  /** With the lock files that are there, or are made, the follower can come to leave. */
  ghost predicate CanLeave(w: World, p: nat) {
    exists actions: seq<Action> :: NothingRemoved(actions) && p < |Run(w, actions).procs|
        && Run(w, actions).procs[p].Left?
  }

  /** Nothing takes the name away but a removal, and a follower that has looked gives it a file. */
  lemma {:induction false} NeverLeaves(w: World, p: nat, actions: seq<Action>)
    requires p < |w.procs| && NothingRemoved(actions)
    requires !w.procs[p].Left? && (w.name.Some? || w.procs[p] == Looked || !Follows(w.procs[p]))
    ensures |Run(w, actions).procs| == |w.procs| && !Run(w, actions).procs[p].Left?
    decreases |actions|
  {
    if actions != [] {
      assert forall i | 0 <= i < |actions[1..]| :: actions[1..][i] == actions[i + 1];
      StaysNamed(w, p, actions[0]);
      hide Next;
      NeverLeaves(Next(w, actions[0]), p, actions[1..]);
    }
  }

  lemma {:induction false} StaysNamed(w: World, p: nat, a: Action)
    requires p < |w.procs| && !a.Remove?
    requires !w.procs[p].Left? && (w.name.Some? || w.procs[p] == Looked || !Follows(w.procs[p]))
    ensures var w' := Next(w, a);
            && |w'.procs| == |w.procs|
            && !w'.procs[p].Left? && (w'.name.Some? || w'.procs[p] == Looked || !Follows(w'.procs[p]))
  {
    hide HeldBySomeone;
  }

  lemma {:induction false} LeavesLater(w: World, p: nat, a: Action)
    requires CanLeave(Next(w, a), p) && !a.Remove?
    ensures CanLeave(w, p)
  {
    hide Next;
    var actions: seq<Action> :|
      NothingRemoved(actions) && p < |Run(Next(w, a), actions).procs| && Run(Next(w, a), actions).procs[p].Left?;
    RunCons(w, a, actions);
    assert NothingRemoved([a] + actions);
  }

  lemma {:induction false} LooksAndLeaves(w: World, p: nat)
    requires p < |w.procs| && w.procs[p] == Polling && w.name.None?
    ensures CanLeave(w, p)
  {
    var w1 := Next(w, Look(p));
    assert w1.procs[p] == Left && Run(w1, []) == w1 && NothingRemoved([]);
    assert CanLeave(w1, p);
    LeavesLater(w, p, Look(p));
  }

  /**
   When a follower can leave: exactly if there is no lock file and it has not just read one. In that
   case its probe makes a new one, and that counts as an owner until some later Close removes it.
   */
  lemma {:induction false} LeavesIff(w: World, p: nat)
    requires p < |w.procs| && Follows(w.procs[p])
    ensures CanLeave(w, p) <==> w.name.None? && w.procs[p] != Looked
  {
    if w.name.Some? || w.procs[p] == Looked {
      forall actions: seq<Action> | NothingRemoved(actions)
        ensures |Run(w, actions).procs| == |w.procs| && !Run(w, actions).procs[p].Left? {
        NeverLeaves(w, p, actions);
      }
    } else {
      match w.procs[p]
      case Probing(f) =>
        var w1 := Next(w, Flock(p));
        if w1.procs[p].Testing? {
          LooksAndLeaves(Next(w1, Unlock(p)), p);
          LeavesLater(w1, p, Unlock(p));
        } else {
          LooksAndLeaves(w1, p);
        }
        LeavesLater(w, p, Flock(p));
      case Testing(f) =>
        LooksAndLeaves(Next(w, Unlock(p)), p);
        LeavesLater(w, p, Unlock(p));
      case _ => LooksAndLeaves(w, p);
    }
  }

  /** So after a clean Close it can leave unless the file went between its look and its open. */
  lemma {:induction false} CleanCloseIsSeenIff(w: World, p: nat, q: nat)
    requires p < |w.procs| && q < |w.procs| && Follows(w.procs[p]) && w.procs[q] == Released
    ensures CanLeave(Next(w, Remove(q)), p) <==> w.procs[p] != Looked
  {
    LeavesIff(Next(w, Remove(q)), p);
  }

  /** A writer and a follower that waits for it. */
  const WATCHED: World := World(Some(0), 1, [Writing(0), Polling])

  /** The run in which a clean Close goes unseen: nobody writes, and the follower's own file keeps it waiting. */
  lemma {:induction false} CloseGoesUnseen()
    ensures Inv(WATCHED)
    ensures Run(WATCHED, [Look(1)] + ([Unlock(0)] + ([Remove(0)] + [OpenFile(1)]))) ==
              World(Some(1), 2, [Out, Probing(1)])
    ensures !CanLeave(World(Some(1), 2, [Out, Probing(1)]), 1)
  {
    var a := Next(WATCHED, Look(1));
    var b := Next(a, Unlock(0));
    var c := Next(b, Remove(0));
    RunCons(WATCHED, Look(1), [Unlock(0)] + ([Remove(0)] + [OpenFile(1)]));
    RunCons(a, Unlock(0), [Remove(0)] + [OpenFile(1)]);
    RunCons(b, Remove(0), [OpenFile(1)]);
    RunCons(c, OpenFile(1), []);
    assert [OpenFile(1)] + [] == [OpenFile(1)];
    LeavesIff(World(Some(1), 2, [Out, Probing(1)]), 1);
  }

  /** And a probe can refuse a writer's Open when nobody writes: it has the lock while it tests. */
  lemma {:induction false} ProbeRefusesAWriter(w: World, p: nat, q: nat)
    requires Inv(w) && p < |w.procs| && q < |w.procs| && w.procs[p] == Out && w.procs[q] == Polling
    requires w.name.Some? && forall r | 0 <= r < |w.procs| :: !Holds(w.procs[r], w.name.value)
    ensures Run(w, [Look(q)] + ([OpenFile(q)] + ([Flock(q)] + ([OpenFile(p)] + [Flock(p)]))))
            == w.(procs := w.procs[q := Testing(w.name.value)])
  {
    var f := w.name.value;
    var a := Next(w, Look(q));
    var b := Next(a, OpenFile(q));
    var c := Next(b, Flock(q));
    var e := Next(c, OpenFile(p));
    assert b == w.(procs := w.procs[q := Probing(f)]) && c == w.(procs := w.procs[q := Testing(f)]);
    assert Holds(e.procs[q], f) && e.procs[p] == Opened(f);
    assert Next(e, Flock(p)) == c;
    hide Next;
    RunCons(w, Look(q), [OpenFile(q)] + ([Flock(q)] + ([OpenFile(p)] + [Flock(p)])));
    RunCons(a, OpenFile(q), [Flock(q)] + ([OpenFile(p)] + [Flock(p)]));
    RunCons(b, Flock(q), [OpenFile(p)] + [Flock(p)]);
    RunCons(c, OpenFile(p), [Flock(p)]);
    RunCons(e, Flock(p), []);
    assert [Flock(p)] + [] == [Flock(p)];
  }
}
