/**
 `arxi run attach` (cmd/arxi/attach.go): a reader without a lock follows a log that other
 processes append to, crash on and roll back.

 The other processes appear as a schedule: the steps they take in the gaps between the
 follower's own actions. Every interleaving is a schedule.
 */
module Attach {
  import opened Bytes
  import opened Lines
  import opened CommitLog
  import opened Reducers

  /** What the writers do in the gaps of one pass of the loop. */
  datatype Pass = Pass(beforeLock: seq<Step>, beforeMarker: seq<Step>, beforeFile: seq<Step>, beforeRecheck: seq<Step>)

  /**
   Exit codes 0 and 3, and 1 for a line that does not decode and for a read that fails; StillWaiting
   is a follower the schedule left polling.
   */
  datatype Exit = Ended | NotEnded | Broken | Unreadable | StillWaiting

  /** No process gets as far as removing the lock file. */
  ghost predicate NoRemoval(steps: seq<Step>) {
    forall i | 0 <= i < |steps| :: !steps[i].RemoveLockFile?
  }

  /** The directory when a pass reads the file, and when it is over. */
  function AtFile(d: Disk, p: Pass): Disk {
    Run(Run(Run(d, p.beforeLock), p.beforeMarker), p.beforeFile)
  }

  function Passed(d: Disk, p: Pass): Disk {
    Run(AtFile(d, p), p.beforeRecheck)
  }

  /** What a pass reads. */
  function ReadIn(d: Disk, p: Pass, consumed: nat): ConfirmedRead {
    LiveRead(Run(Run(d, p.beforeLock), p.beforeMarker), p.beforeFile, p.beforeRecheck, consumed)
  }

  /** The read of a pass fails: one of its two marker samples finds the marker file still empty. */
  predicate ReadFails(d: Disk, p: Pass) {
    SamplesUnfinished(Run(Run(d, p.beforeLock), p.beforeMarker), p.beforeFile, p.beforeRecheck)
  }

  /** No rollback falls between the file and the second marker sample, or it finds no complete provisional line. */
  ghost predicate SafePass(d: Disk, p: Pass) {
    SafeGap(AtFile(d, p), p.beforeRecheck)
  }

  /** Every pass is safe, from the directory it finds. */
  ghost predicate RaceFree(d: Disk, schedule: seq<Pass>)
    decreases |schedule|
  {
    schedule == [] || (SafePass(d, schedule[0]) && RaceFree(Passed(d, schedule[0]), schedule[1..]))
  }

  /** writerLockOwner's verdict: a lock file that exists counts as held, stale or not. */
  predicate LockOwned(d: Disk) {
    d.lockFile
  }

  /** attachView: the folded state and the offset the fold stopped at. */
  datatype View<!S> = View(st: S, consumed: nat)

  /** `shown` is exactly the committed log up to `consumed`, which is a line boundary. */
  ghost predicate AtBoundary(d: Disk, consumed: int, shown: seq<Line>) {
    && 0 <= consumed <= |d.committed| && Whole(d.committed[..consumed])
    && shown == Split(d.committed[..consumed])
  }

  lemma {:induction false} SplitOfPrefix(log: seq<byte>, from: nat, next: nat)
    requires from <= next <= |log| && Whole(log[..from]) && Whole(log[..next])
    ensures Split(log[..next]) == Split(log[..from]) + Split(log[from..next])
    ensures Split(log[..next]) <= Split(log)
  {
    hide Split;
    assert log[..next] == log[..from] + log[from..next];
    SplitAppend(log[..from], log[from..next]);
    assert log == log[..next] + log[next..];
    SplitAppend(log[..next], log[next..]);
  }

  lemma {:induction false} BoundaryLater(d: Disk, d': Disk, consumed: nat, shown: seq<Line>)
    requires AtBoundary(d, consumed, shown) && d.committed <= d'.committed
    ensures AtBoundary(d', consumed, shown) && shown <= Split(d'.committed)
  {
    assert d.committed[..consumed] == d'.committed[..consumed];
    SplitOfPrefix(d'.committed, consumed, consumed);
  }

  ghost predicate KeepsLockFile(p: Pass) {
    NoRemoval(p.beforeLock) && NoRemoval(p.beforeMarker) && NoRemoval(p.beforeFile) && NoRemoval(p.beforeRecheck)
  }

  ghost predicate NeverRemoves(schedule: seq<Pass>) {
    forall i | 0 <= i < |schedule| :: KeepsLockFile(schedule[i])
  }

  /** The pass the writers make way for at index i: none once the schedule is used up. */
  function PassAt(schedule: seq<Pass>, i: nat): Pass {
    if i < |schedule| then schedule[i] else Pass([], [], [], [])
  }

  /** The directory that pass i finds. */
  function DirAt(d: Disk, schedule: seq<Pass>, i: nat): Disk {
    if i == 0 then d else Passed(DirAt(d, schedule, i - 1), PassAt(schedule, i - 1))
  }

  /** The read of pass i fails. */
  predicate FailsAt(d: Disk, schedule: seq<Pass>, i: nat) {
    ReadFails(DirAt(d, schedule, i), PassAt(schedule, i))
  }

  lemma {:induction false} PassKeepsInv(d: Disk, p: Pass)
    requires Inv(d)
    ensures d.committed <= Run(d, p.beforeLock).committed && d.committed <= Passed(d, p).committed
    ensures Inv(Run(d, p.beforeLock)) && Inv(Run(Run(d, p.beforeLock), p.beforeMarker)) && Inv(Passed(d, p))
  {
    hide Run, Inv;
    RunKeepsInv(d, p.beforeLock);
    RunKeepsInv(Run(d, p.beforeLock), p.beforeMarker);
    RunKeepsInv(Run(Run(d, p.beforeLock), p.beforeMarker), p.beforeFile);
    RunKeepsInv(AtFile(d, p), p.beforeRecheck);
  }

  lemma {:induction false} PassKeepsLockFile(d: Disk, p: Pass)
    requires d.lockFile && KeepsLockFile(p)
    ensures Run(d, p.beforeLock).lockFile && Passed(d, p).lockFile
  {
    hide Run;
    OnlyReleaseRemovesTheLockFile(d, p.beforeLock);
    OnlyReleaseRemovesTheLockFile(Run(d, p.beforeLock), p.beforeMarker);
    OnlyReleaseRemovesTheLockFile(Run(Run(d, p.beforeLock), p.beforeMarker), p.beforeFile);
    OnlyReleaseRemovesTheLockFile(AtFile(d, p), p.beforeRecheck);
  }

  /** One loop iteration's effect on what the follower knows about the log. */
  lemma {:induction false} ReadExtends(d: Disk, p: Pass, consumed: nat, shown: seq<Line>)
    requires Inv(d) && SafePass(d, p)
    requires AtBoundary(d, consumed, shown)
    ensures var d0 := Run(d, p.beforeLock);
            var r := ReadIn(d, p, consumed);
            var d3 := Passed(d, p);
            && Inv(d3) && (r.Corrupt? <==> ReadFails(d, p))
            && (r.Confirmed? ==>
                  && |r.bytes| == r.nextOffset - consumed
                  && AtBoundary(d3, r.nextOffset, shown + Split(r.bytes))
                  && shown + Split(r.bytes) <= Split(d3.committed)
                  && Split(d0.committed) <= shown + Split(r.bytes))
  {
    hide Split, Run, LiveRead, SafeGap, Inv, SamplesUnfinished;
    var d0 := Run(d, p.beforeLock);
    RunKeepsInv(d, p.beforeLock);
    var d1 := Run(d0, p.beforeMarker);
    RunKeepsInv(d0, p.beforeMarker);
    var d2 := Run(d1, p.beforeFile);
    RunKeepsInv(d1, p.beforeFile);
    var d3 := Run(d2, p.beforeRecheck);
    RunKeepsInv(d2, p.beforeRecheck);
    assert d.committed[..consumed] == d1.committed[..consumed] == d3.committed[..consumed];
    ConfirmedReadIsCommitted(d1, p.beforeFile, p.beforeRecheck, consumed);
    var r := LiveRead(d1, p.beforeFile, p.beforeRecheck, consumed);
    if r.Confirmed? {
      SplitOfPrefix(d3.committed, consumed, r.nextOffset);
      assert d0.committed <= d3.committed[..r.nextOffset];
      assert d3.committed[..r.nextOffset][..|d0.committed|] == d0.committed;
      SplitPrefix(d3.committed[..r.nextOffset], |d0.committed|);
    }
  }

  // ------------------------------------------------------------------ the follower, as a function

  /** What the inner loop makes of one read. */
  datatype Printed<!S> = Printed(lines: seq<Line>, st: S, stop: Option<Exit>)

  function Emit<S>(k: Reducer<S, Line>, parses: Line -> bool, st: S, lines: seq<Line>): Printed<S>
    decreases |lines|
  {
    if lines == [] then Printed([], st, None)
    else if !parses(lines[0]) then Printed([], st, Some(Broken))
    else
      var next := k.decide(st, lines[0]);
      if Terminal(k.status(next)) then Printed([lines[0]], next, Some(Ended))
      else
        var more := Emit(k, parses, next, lines[1..]);
        more.(lines := [lines[0]] + more.lines)
  }

  /** What the whole loop comes to. */
  datatype Shown<!S> = Shown(exit: Exit, emitted: seq<Line>, st: S)

  function Behind<S>(lines: seq<Line>, s: Shown<S>): Shown<S> {
    s.(emitted := lines + s.emitted)
  }

  function Follow<S>(k: Reducer<S, Line>, parses: Line -> bool, st: S, d: Disk, consumed: nat,
                     schedule: seq<Pass>): Shown<S>
    decreases |schedule|, if consumed <= |d.file| then |d.file| - consumed else 0
  {
    var p, rest := PassAt(schedule, 0), if schedule == [] then [] else schedule[1..];
    var r := ReadIn(d, p, consumed);
    if r.Corrupt? then Shown(Unreadable, [], st)
    else if r.bytes != [] then
      var printed := Emit(k, parses, st, Split(r.bytes));
      if printed.stop.Some? then Shown(printed.stop.value, printed.lines, printed.st)
      else Behind(printed.lines, Follow(k, parses, printed.st, Passed(d, p), r.nextOffset, rest))
    else if !LockOwned(Run(d, p.beforeLock)) then Shown(NotEnded, [], st)
    else if schedule == [] then Shown(StillWaiting, [], st)
    else Follow(k, parses, st, Passed(d, p), consumed, rest)
  }

  /** With the check in front of the loop. */
  function Followed<S>(k: Reducer<S, Line>, parses: Line -> bool, view: View<S>, d: Disk, entry: seq<Step>,
                       schedule: seq<Pass>): Shown<S> {
    var now := Run(d, entry);
    if LockOwned(now) then Follow(k, parses, view.st, now, view.consumed, schedule) else Shown(NotEnded, [], view.st)
  }

  lemma {:induction false} FollowUnfold<S>(k: Reducer<S, Line>, parses: Line -> bool, st: S, d: Disk, consumed: nat,
                                           schedule: seq<Pass>)
    ensures var p, rest := PassAt(schedule, 0), if schedule == [] then [] else schedule[1..];
            var r := ReadIn(d, p, consumed);
            Follow(k, parses, st, d, consumed, schedule) ==
              if r.Corrupt? then Shown(Unreadable, [], st)
              else if r.bytes != [] then
                var printed := Emit(k, parses, st, Split(r.bytes));
                if printed.stop.Some? then Shown(printed.stop.value, printed.lines, printed.st)
                else Behind(printed.lines, Follow(k, parses, printed.st, Passed(d, p), r.nextOffset, rest))
              else if !LockOwned(Run(d, p.beforeLock)) then Shown(NotEnded, [], st)
              else if schedule == [] then Shown(StillWaiting, [], st)
              else Follow(k, parses, st, Passed(d, p), consumed, rest)
  {
  }

  /** No fold of a proper prefix of `all` that reaches past `from` is terminal. */
  ghost predicate OpenBefore<S>(k: Reducer<S, Line>, all: seq<Line>, from: nat) {
    forall j | from <= j < |all| :: !Terminal(StatusOf(k, all[..j]))
  }

  lemma {:induction false} OpenBeforeStart<S>(k: Reducer<S, Line>, all: seq<Line>)
    ensures OpenBefore(k, all, |all|)
  {
  }

  lemma {:induction false} OpenBeforeAppend<S>(k: Reducer<S, Line>, a: seq<Line>, b: seq<Line>, from: nat)
    requires from <= |a| && OpenBefore(k, a, from) && OpenBefore(k, a + b, |a|)
    ensures OpenBefore(k, a + b, from)
  {
    forall j | from <= j < |a + b| ensures !Terminal(StatusOf(k, (a + b)[..j])) {
      if j < |a| {
        assert (a + b)[..j] == a[..j];
      }
    }
  }

  lemma {:induction false} OpenBeforeNext<S>(k: Reducer<S, Line>, all: seq<Line>, line: Line, from: nat)
    requires OpenBefore(k, all, from) && !Terminal(StatusOf(k, all))
    ensures OpenBefore(k, all + [line], from)
  {
    forall j | from <= j < |all + [line]| ensures !Terminal(StatusOf(k, (all + [line])[..j])) {
      assert (all + [line])[..j] == if j < |all| then all[..j] else all;
    }
  }

  lemma {:induction false} EmitUnfold<S>(k: Reducer<S, Line>, parses: Line -> bool, st: S, line: Line, rest: seq<Line>)
    ensures Emit(k, parses, st, []) == Printed([], st, None)
    ensures Emit(k, parses, st, [line] + rest) ==
              if !parses(line) then Printed([], st, Some(Broken))
              else if Terminal(k.status(k.decide(st, line))) then Printed([line], k.decide(st, line), Some(Ended))
              else
                var more := Emit(k, parses, k.decide(st, line), rest);
                more.(lines := [line] + more.lines)
  {
    assert ([line] + rest)[1..] == rest;
  }

  function Ahead<S>(lines: seq<Line>, p: Printed<S>): Printed<S> {
    p.(lines := lines + p.lines)
  }

  /** Printing line after line, the rest is still to print. */
  lemma {:induction false} EmitNext<S>(k: Reducer<S, Line>, parses: Line -> bool, st: S, printed: seq<Line>,
                                       lines: seq<Line>)
    requires printed <= lines
    ensures |printed| == |lines| ==>
              Ahead(printed, Emit(k, parses, st, lines[|printed|..])) == Printed(printed, st, None)
    ensures |printed| < |lines| ==>
              var line, next := lines[|printed|], k.decide(st, lines[|printed|]);
              Ahead(printed, Emit(k, parses, st, lines[|printed|..])) ==
                if !parses(line) then Printed(printed, st, Some(Broken))
                else if Terminal(k.status(next)) then Printed(printed + [line], next, Some(Ended))
                else Ahead(printed + [line], Emit(k, parses, next, lines[|printed| + 1..]))
  {
    hide Emit, Terminal;
    EmitUnfold(k, parses, st, [], []);
    assert printed + [] == printed;
    if |printed| < |lines| {
      var line, rest := lines[|printed|], lines[|printed| + 1..];
      assert lines[|printed|..] == [line] + rest;
      EmitUnfold(k, parses, st, line, rest);
      var more := Emit(k, parses, k.decide(st, line), rest).lines;
      assert printed + ([line] + more) == (printed + [line]) + more;
    } else {
      assert lines[|printed|..] == [];
    }
  }

  /** The inner loop of followRunLog: print and fold the lines of one read until one of them stops it. */
  method EmitLines<S>(k: Reducer<S, Line>, parses: Line -> bool, st0: S, ghost shown: seq<Line>, lines: seq<Line>)
    returns (printed: seq<Line>, st: S, stop: Option<Exit>)
    requires st0 == Fold(k, k.initial, shown) && !Terminal(k.status(st0))
    ensures Printed(printed, st, stop) == Emit(k, parses, st0, lines)
    ensures printed <= lines && st == Fold(k, k.initial, shown + printed)
    ensures OpenBefore(k, shown + printed, |shown|)
    ensures stop == if Terminal(k.status(st)) then Some(Ended) else if |printed| < |lines| then Some(Broken) else None
    ensures stop == Some(Broken) ==> !parses(lines[|printed|])
  {
    hide Fold, Emit, OpenBefore, Terminal, Ahead;
    st, stop := st0, None;
    printed := [];
    assert shown + [] == shown && lines[0..] == lines;
    OpenBeforeStart(k, shown);
    AheadOfNothing(Emit(k, parses, st, lines));
    while |printed| < |lines|
      invariant printed <= lines
      invariant st == Fold(k, k.initial, shown + printed) && !Terminal(k.status(st))
      invariant OpenBefore(k, shown + printed, |shown|)
      invariant Emit(k, parses, st0, lines) == Ahead(printed, Emit(k, parses, st, lines[|printed|..]))
    {
      EmitNext(k, parses, st, printed, lines);
      var line := lines[|printed|];
      if !parses(line) {
        stop := Some(Broken);
        return;
      }
      FoldAppend(k, k.initial, shown + printed, line);
      OpenBeforeNext(k, shown + printed, line, |shown|);
      assert shown + (printed + [line]) == shown + printed + [line];
      printed := printed + [line];
      st := k.decide(st, line);
      if Terminal(k.status(st)) {
        stop := Some(Ended);
        return;
      }
    }
    EmitNext(k, parses, st, printed, lines);
  }

  lemma {:induction false} AheadOfNothing<S>(p: Printed<S>)
    ensures Ahead([], p) == p
  {
    assert [] + p.lines == p.lines;
  }

  /** What followRunLog does with the bytes of one read. */
  method EmitRead<S>(k: Reducer<S, Line>, parses: Line -> bool, st0: S, ghost joined: seq<Line>, emitted0: seq<Line>,
                     bytes: seq<byte>)
    returns (emitted: seq<Line>, st: S, stop: Option<Exit>)
    requires st0 == Fold(k, k.initial, joined + emitted0) && !Terminal(k.status(st0))
    requires OpenBefore(k, joined + emitted0, |joined|)
    ensures st == Fold(k, k.initial, joined + emitted) && OpenBefore(k, joined + emitted, |joined|)
    ensures stop == Some(Ended) <==> Terminal(k.status(st))
    ensures stop in {None, Some(Ended), Some(Broken)}
    ensures emitted <= emitted0 + Split(bytes)
    ensures stop.None? ==> emitted == emitted0 + Split(bytes)
    ensures stop == Some(Broken) && Whole(bytes) ==>
              |emitted| < |emitted0 + Split(bytes)| && !parses((emitted0 + Split(bytes))[|emitted|])
    ensures Whole(bytes) ==>
              var p := Emit(k, parses, st0, Split(bytes));
              emitted == emitted0 + p.lines && st == p.st && stop == p.stop
  {
    hide Fold, Split, OpenBefore, Emit;
    var lines, remainder := WholeLines(bytes);
    if remainder != [] {
      emitted, st, stop := emitted0, st0, Some(Broken);
      WholeIsWhole(bytes);
      return;
    }
    var printed;
    printed, st, stop := EmitLines(k, parses, st0, joined + emitted0, lines);
    OpenBeforeAppend(k, joined + emitted0, printed, |joined|);
    assert joined + (emitted0 + printed) == joined + emitted0 + printed;
    PrefixParts(emitted0, printed, lines, emitted0 + lines);
    emitted := emitted0 + printed;
  }

  lemma {:induction false} WholeIsWhole(b: seq<byte>)
    ensures Whole(b) ==> b[WholeEnd(b)..] == []
  {
  }

  lemma {:induction false} PrefixParts<T>(shown: seq<T>, printed: seq<T>, lines: seq<T>, log: seq<T>)
    requires printed <= lines && shown + lines <= log
    ensures shown + printed <= log
    ensures |printed| < |lines| ==> |shown + printed| < |log| && log[|shown + printed|] == lines[|printed|]
  {
    assert (shown + lines)[..|shown + printed|] == shown + printed;
    if |printed| < |lines| {
      assert log[|shown + printed|] == (shown + lines)[|shown + printed|];
    }
  }

  /** One pass up to its decision: sample the lock, then read what is confirmed past `consumed`. */
  method Poll(d: Disk, p: Pass, consumed: nat, ghost shown: seq<Line>)
    returns (stillHeld: bool, read: ConfirmedRead, ghost sampled: Disk, d': Disk)
    requires Inv(d)
    ensures sampled == Run(d, p.beforeLock) && read == ReadIn(d, p, consumed) && d' == Passed(d, p)
    ensures d.committed <= sampled.committed && d.committed <= d'.committed
    ensures Inv(d') && stillHeld == sampled.lockFile
    ensures (read.Corrupt? <==> ReadFails(d, p)) && (read.Confirmed? ==> Whole(read.bytes))
    ensures p == Pass([], [], [], []) ==>
              && sampled == d == d'
              && (read.Confirmed? && read.bytes != [] ==> consumed < read.nextOffset <= |d.file|)
    ensures d.lockFile && KeepsLockFile(p) ==> sampled.lockFile && d'.lockFile
    ensures SafePass(d, p) && AtBoundary(d, consumed, shown) && read.Confirmed? ==>
              && AtBoundary(d', read.nextOffset, shown + Split(read.bytes))
              && (read.bytes == [] ==> AtBoundary(d', consumed, shown) && read.nextOffset == consumed
                                       && Split(sampled.committed) <= shown)
              && shown + Split(read.bytes) <= Split(d'.committed)
              && Split(sampled.committed) <= shown + Split(read.bytes)
  {
    var d0 := Run(d, p.beforeLock);
    sampled, stillHeld := d0, LockOwned(d0);
    var d1 := Run(d0, p.beforeMarker);
    read := LiveRead(d1, p.beforeFile, p.beforeRecheck, consumed);
    d' := Run(Run(d1, p.beforeFile), p.beforeRecheck);
    PassKeepsInv(d, p);
    LiveReadFailsIff(d1, p.beforeFile, p.beforeRecheck, consumed);
    if d.lockFile && KeepsLockFile(p) { PassKeepsLockFile(d, p); }
    hide Inv, SafePass, Run;
    if SafePass(d, p) && AtBoundary(d, consumed, shown) && read.Confirmed? {
      ReadExtends(d, p, consumed, shown);
      if read.bytes == [] {
        assert Split([]) == [] && shown + [] == shown;
      }
    }
  }

  /** The join point lies on the committed log and every pass is safe. */
  ghost predicate Sound(d: Disk, entry: seq<Step>, consumed: nat, joined: seq<Line>, schedule: seq<Pass>) {
    AtBoundary(d, consumed, joined) && RaceFree(Run(d, entry), schedule)
  }

  lemma {:induction false} RaceFreeNext(d: Disk, schedule: seq<Pass>, i: nat)
    requires i <= |schedule| && RaceFree(d, schedule[i..])
    ensures SafePass(d, PassAt(schedule, i))
    ensures i < |schedule| ==> RaceFree(Passed(d, schedule[i]), schedule[i + 1..])
    ensures i == |schedule| ==> Passed(d, PassAt(schedule, i)) == d
  {
    hide Split, WholeEnd;
    if i < |schedule| {
      assert schedule[i..][0] == schedule[i] && schedule[i..][1..] == schedule[i + 1..];
    }
  }

  lemma {:induction false} BehindBehind<S>(a: seq<Line>, b: seq<Line>, s: Shown<S>)
    ensures Behind(a, Behind(b, s)) == Behind(a + b, s) && Behind([], s) == s
  {
    assert a + (b + s.emitted) == (a + b) + s.emitted && [] + s.emitted == s.emitted;
  }

  /** One pass of the loop, as the function has it. */
  lemma {:induction false} FollowStep<S>(k: Reducer<S, Line>, parses: Line -> bool, st: S, d: Disk, consumed: nat,
                                         schedule: seq<Pass>, i: nat)
    requires i <= |schedule|
    ensures var p, next := PassAt(schedule, i), if i < |schedule| then i + 1 else i;
            var r := ReadIn(d, p, consumed);
            Follow(k, parses, st, d, consumed, schedule[i..]) ==
              if r.Corrupt? then Shown(Unreadable, [], st)
              else if r.bytes != [] then
                var printed := Emit(k, parses, st, Split(r.bytes));
                if printed.stop.Some? then Shown(printed.stop.value, printed.lines, printed.st)
                else Behind(printed.lines,
                    Follow(k, parses, printed.st, Passed(d, p), r.nextOffset, schedule[next..]))
              else if !LockOwned(Run(d, p.beforeLock)) then Shown(NotEnded, [], st)
              else if i == |schedule| then Shown(StillWaiting, [], st)
              else Follow(k, parses, st, Passed(d, p), consumed, schedule[next..])
  {
    hide Follow, Split, Emit, ReadIn, Passed, Run;
    FollowUnfold(k, parses, st, d, consumed, schedule[i..]);
    assert PassAt(schedule[i..], 0) == PassAt(schedule, i);
    if i < |schedule| {
      assert schedule[i..][1..] == schedule[i + 1..];
    }
  }

  lemma {:induction false} PassIs(schedule: seq<Pass>, i: nat)
    ensures NeverRemoves(schedule) ==> KeepsLockFile(PassAt(schedule, i))
    ensures i < |schedule| ==> PassAt(schedule, i) == schedule[i]
    ensures i >= |schedule| ==> PassAt(schedule, i) == Pass([], [], [], [])
  {
  }

  /** What the follower knows at the top of its loop. */
  ghost predicate Folding<S>(k: Reducer<S, Line>, st: S, joined: seq<Line>, emitted: seq<Line>) {
    st == Fold(k, k.initial, joined + emitted) && !Terminal(k.status(st)) && OpenBefore(k, joined + emitted, |joined|)
  }

  /** One turn of the loop: pass i of the schedule. */
  method TakePass<S>(k: Reducer<S, Line>, parses: Line -> bool, st0: S, ghost joined: seq<Line>, emitted0: seq<Line>,
                     d: Disk, from: nat,
                     schedule: seq<Pass>, i: nat)
    returns (emitted: seq<Line>, st: S, consumed: nat, stop: Option<Exit>, ghost sampled: Disk, d': Disk)
    requires Inv(d) && i <= |schedule| && Folding(k, st0, joined, emitted0)
    ensures Inv(d') && d' == Passed(d, PassAt(schedule, i)) && d.committed <= d'.committed
    ensures stop.None? ==> Folding(k, st, joined, emitted)
    ensures st == Fold(k, k.initial, joined + emitted) && OpenBefore(k, joined + emitted, |joined|)
    ensures stop == Some(Ended) <==> Terminal(k.status(st))
    ensures stop == Some(NotEnded) ==> !sampled.lockFile
    ensures stop == Some(StillWaiting) ==> d'.lockFile
    ensures stop == Some(Unreadable) <==> ReadFails(d, PassAt(schedule, i))
    ensures d.lockFile && KeepsLockFile(PassAt(schedule, i)) ==> stop != Some(NotEnded) && d'.lockFile
    ensures stop.None? && i == |schedule| ==> d' == d && from < consumed <= |d.file|
    ensures SafePass(d, PassAt(schedule, i)) && AtBoundary(d, from, joined + emitted0) ==>
              && joined + emitted <= Split(d'.committed)
              && (stop.None? ==> AtBoundary(d', consumed, joined + emitted))
              && (stop == Some(NotEnded) ==> Split(sampled.committed) <= joined + emitted)
              && (stop == Some(StillWaiting) && i == |schedule| ==> joined + emitted == Split(d'.committed))
              && (stop == Some(Broken) ==>
                    |joined + emitted| < |Split(d'.committed)| && !parses(Split(d'.committed)[|joined + emitted|]))
    ensures stop == Some(StillWaiting) ==> i == |schedule|
    ensures emitted0 <= emitted
    ensures Follow(k, parses, st0, d, from, schedule[i..]) == Behind(emitted[|emitted0|..],
              if stop.Some? then Shown(stop.value, [], st)
              else Follow(k, parses, st, d', consumed, schedule[if i < |schedule| then i + 1 else i..]))
  {
    hide Run, Fold, Split, LiveRead, Inv, OpenBefore, StatusOf, AtBoundary, Follow, Emit, SafePass, Passed, ReadIn,
        PassAt, KeepsLockFile, ReadFails;
    hide WholeEnd, Whole, Terminal;
    PassIs(schedule, i);
    FollowStep(k, parses, st0, d, from, schedule, i);
    var stillHeld, read;
    stillHeld, read, sampled, d' := Poll(d, PassAt(schedule, i), from, joined + emitted0);
    emitted, st, consumed, stop := emitted0, st0, from, None;
    assert emitted0[|emitted0|..] == [];
    if read.Corrupt? {
      stop := Some(Unreadable);
      if AtBoundary(d, from, joined + emitted0) { BoundaryLater(d, d', from, joined + emitted0); }
    } else if read.bytes != [] {
      emitted, st, stop := EmitRead(k, parses, st0, joined, emitted0, read.bytes);
      assert joined + (emitted0 + Split(read.bytes)) == joined + emitted0 + Split(read.bytes);
      if SafePass(d, PassAt(schedule, i)) && AtBoundary(d, from, joined + emitted0) {
        PrefixParts(joined, emitted, emitted0 + Split(read.bytes), Split(d'.committed));
      }
      consumed := read.nextOffset;
    } else if !stillHeld {
      stop := Some(NotEnded);
    } else if i == |schedule| {
      stop := Some(StillWaiting);
    }
  }

  /** The loop of followRunLog, from the directory `d` it finds. */
  method PollLoop<S>(k: Reducer<S, Line>, parses: Line -> bool, st0: S, ghost joined: seq<Line>, d: Disk, from: nat,
                     schedule: seq<Pass>)
    returns (exit: Exit, emitted: seq<Line>, st: S, ghost last: nat, ghost sampled: Disk, ghost final: Disk)
    requires Inv(d) && st0 == Fold(k, k.initial, joined) && !Terminal(k.status(st0))
    ensures Shown(exit, emitted, st) == Follow(k, parses, st0, d, from, schedule)
    ensures st == Fold(k, k.initial, joined + emitted) && (exit.Ended? <==> Terminal(k.status(st)))
    ensures OpenBefore(k, joined + emitted, |joined|)
    ensures exit.Unreadable? <==> FailsAt(d, schedule, last)
    ensures forall i | 0 <= i < last :: !FailsAt(d, schedule, i)
    ensures d.committed <= final.committed
    ensures exit.NotEnded? ==> !sampled.lockFile
    ensures exit.StillWaiting? ==> final.lockFile
    ensures d.lockFile && NeverRemoves(schedule) ==> !exit.NotEnded?
    ensures AtBoundary(d, from, joined) && RaceFree(d, schedule) ==>
              && joined + emitted <= Split(final.committed)
              && (exit.NotEnded? ==> Split(sampled.committed) <= joined + emitted)
              && (exit.StillWaiting? ==> joined + emitted == Split(final.committed))
              && (exit.Broken? ==> |joined + emitted| < |Split(final.committed)|
                                   && !parses(Split(final.committed)[|joined + emitted|]))
  {
    hide Run, Fold, Split, Inv, OpenBefore, AtBoundary, Follow, RaceFree, SafePass, Passed, PassAt, KeepsLockFile,
        NeverRemoves, Terminal, ReadFails;
    OpenBeforeStart(k, joined);
    assert joined + [] == joined && schedule[0..] == schedule;
    var disk := d;
    emitted, st, last, sampled, final := [], st0, 0, d, d;
    ghost var neverRemoves := d.lockFile && NeverRemoves(schedule);
    ghost var sound := AtBoundary(d, from, joined) && RaceFree(d, schedule);
    var consumed: nat, i: nat := from, 0;
    ghost var whole := Follow(k, parses, st, disk, consumed, schedule);
    BehindBehind([], [], whole);
    while true
      invariant i <= |schedule| && Inv(disk) && d.committed <= disk.committed
      invariant Folding(k, st, joined, emitted)
      invariant sound ==> AtBoundary(disk, consumed, joined + emitted) && RaceFree(disk, schedule[i..])
      invariant neverRemoves ==> disk.lockFile
      invariant disk == DirAt(d, schedule, i) && forall j | 0 <= j < i :: !FailsAt(d, schedule, j)
      invariant whole == Behind(emitted, Follow(k, parses, st, disk, consumed, schedule[i..]))
      decreases |schedule| - i, if consumed <= |disk.file| then |disk.file| - consumed else 0
    {
      PassIs(schedule, i);
      if sound { RaceFreeNext(disk, schedule, i); }
      ghost var before := emitted;
      var stop;
      emitted, st, consumed, stop, sampled,
          disk := TakePass(k, parses, st, joined, emitted, disk, consumed, schedule, i);
      final, last := disk, i;
      i := if i < |schedule| then i + 1 else i;
      ghost var rest := if stop.Some? then Shown(stop.value, [], st) else Follow(k, parses, st, disk, consumed,
          schedule[i..]);
      BehindBehind(before, emitted[|before|..], rest);
      assert before + emitted[|before|..] == emitted && emitted + [] == emitted;
      if stop.Some? {
        exit := stop.value;
        return;
      }
    }
  }

  /**
   followRunLog. `d` is the directory when the join read ended; `entry` runs before the check
   at the top of the function, `schedule` in the gaps of the loop. When the schedule is used
   up the writers have stopped and the loop runs on alone.
   */
  method FollowRunLog<S>(k: Reducer<S, Line>, parses: Line -> bool, view: View<S>, ghost joined: seq<Line>, d: Disk,
                         entry: seq<Step>,
                         schedule: seq<Pass>)
    returns (exit: Exit, emitted: seq<Line>, st: S, ghost inLoop: bool, ghost last: nat, ghost sampled: Disk,
             ghost final: Disk)
    requires Inv(d)
    requires view.st == Fold(k, k.initial, joined) && !Terminal(k.status(view.st))
    // In full, for every schedule, safe or not.
    ensures Shown(exit, emitted, st) == Followed(k, parses, view, d, entry, schedule)
    // Nothing skipped, repeated, or shown and later rolled back.
    ensures Sound(d, entry, view.consumed, joined, schedule) ==> joined + emitted <= Split(final.committed)
    // The incremental state is the batch fold, and exit 0 is its first terminal point.
    ensures st == Fold(k, k.initial, joined + emitted)
    ensures exit.Ended? <==> Terminal(k.status(st))
    ensures OpenBefore(k, joined + emitted, |joined|)
    // Exit 3 saw no lock file; from inside the loop it has shown all that was committed then.
    ensures exit.NotEnded? ==> !sampled.lockFile
    ensures exit.NotEnded? && inLoop && Sound(d, entry, view.consumed, joined, schedule) ==>
              Split(sampled.committed) <= joined + emitted
    // From the check at the top it has shown the join and nothing else.
    ensures inLoop <==> LockOwned(Run(d, entry))
    ensures !inLoop ==> exit.NotEnded? && emitted == [] && sampled == Run(d, entry)
    // Exit 1 is the first read that fails, at pass `last`,
    ensures exit.Unreadable? <==> inLoop && FailsAt(Run(d, entry), schedule, last)
    ensures inLoop ==> forall i | 0 <= i < last :: !FailsAt(Run(d, entry), schedule, i)
    // or a committed line that does not decode, never a torn one.
    ensures exit.Broken? && Sound(d, entry, view.consumed, joined, schedule) ==>
              |joined + emitted| < |Split(final.committed)| && !parses(Split(final.committed)[|joined + emitted|])
    // Once the writers stop it leaves, unless a lock file is still there.
    ensures exit.StillWaiting? ==> final.lockFile
    ensures exit.StillWaiting? && Sound(d, entry, view.consumed, joined, schedule) ==>
              joined + emitted == Split(final.committed)
    ensures d.lockFile && NoRemoval(entry) && NeverRemoves(schedule) ==> !exit.NotEnded?
    ensures d.committed <= final.committed
  {
    hide Run, Fold, Split, Inv, OpenBefore, StatusOf, AtBoundary, Follow, RaceFree, FailsAt;
    OpenBeforeStart(k, joined);
    assert joined + [] == joined;
    var disk := Run(d, entry);
    RunKeepsInv(d, entry);
    if d.lockFile && NoRemoval(entry) { OnlyReleaseRemovesTheLockFile(d, entry); }
    if Sound(d, entry, view.consumed, joined, schedule) { BoundaryLater(d, disk, view.consumed, joined); }
    inLoop, last, sampled, final := LockOwned(disk), 0, disk, disk;
    if !LockOwned(disk) {
      exit, emitted, st := NotEnded, [], view.st;
      return;
    }
    exit, emitted, st, last, sampled, final := PollLoop(k, parses, view.st, joined, disk, view.consumed, schedule);
  }

  /** The join: one confirmed read supplies both the fold and the offset to follow from. */
  datatype Outcome<!S> = Outcome(exit: Exit, joined: seq<Line>, emitted: seq<Line>, st: S)

  predicate AllParse(parses: Line -> bool, lines: seq<Line>) {
    forall i | 0 <= i < |lines| :: parses(lines[i])
  }

  /** The command, as a function: join, then follow unless the join already decides. */
  function Attached<S>(k: Reducer<S, Line>, parses: Line -> bool, d: Disk, join: Pass, entry: seq<Step>,
                       schedule: seq<Pass>): Outcome<S> {
    var r := ReadIn(d, join, 0);
    if r.Corrupt? then Outcome(Unreadable, [], [], k.initial)
    else
      var joined := Split(r.bytes);
      var st := Fold(k, k.initial, joined);
      if !AllParse(parses, joined) then Outcome(Broken, joined, [], st)
      else if Terminal(k.status(st)) then Outcome(Ended, joined, [], st)
      else
        var f := Followed(k, parses, View(st, r.nextOffset), Passed(d, join), entry, schedule);
        Outcome(f.exit, joined, f.emitted, f.st)
  }

  /**
   cmdRunAttach. `join` gives the gaps around the join read; a join that cannot be read or decoded is exit 1, a run
   already terminal is exit 0 with nothing emitted. From then on it is followRunLog's exit.
   */
  method CmdRunAttach<S>(k: Reducer<S, Line>, parses: Line -> bool, d: Disk, join: Pass, entry: seq<Step>,
                         schedule: seq<Pass>)
    returns (out: Outcome<S>, ghost inLoop: bool, ghost last: nat, ghost sampled: Disk, ghost final: Disk)
    requires Inv(d)
    ensures out == Attached(k, parses, d, join, entry, schedule)
    ensures d.committed <= final.committed
    ensures SafePass(d, join) && RaceFree(Run(Passed(d, join), entry), schedule) ==>
              && out.joined + out.emitted <= Split(final.committed)
              && (!ReadFails(d, join) ==> Split(Run(d, join.beforeLock).committed) <= out.joined)
              && (out.exit.NotEnded? && inLoop ==> Split(sampled.committed) <= out.joined + out.emitted)
              && (out.exit.StillWaiting? ==> out.joined + out.emitted == Split(final.committed))
              && (out.exit.Broken? && AllParse(parses, out.joined) ==>
                    |out.joined + out.emitted| < |Split(final.committed)|
                        && !parses(Split(final.committed)[|out.joined + out.emitted|]))
    ensures out.st == Fold(k, k.initial, out.joined + out.emitted)
    ensures AllParse(parses, out.joined) && !ReadFails(d, join) ==> (out.exit.Ended? <==> Terminal(k.status(out.st)))
    ensures !AllParse(parses, out.joined) ==> out.exit.Broken? && out.emitted == []
    ensures out.exit.Unreadable? <==>
              ReadFails(d, join) || (inLoop && FailsAt(Run(Passed(d, join), entry), schedule, last))
    ensures inLoop ==> !ReadFails(d, join)
    ensures inLoop ==> forall i | 0 <= i < last :: !FailsAt(Run(Passed(d, join), entry), schedule, i)
    ensures out.emitted != [] ==> !Terminal(StatusOf(k, out.joined))
    ensures out.exit.NotEnded? ==>
              !sampled.lockFile && (!inLoop ==> out.emitted == [] && sampled == Run(Passed(d, join), entry))
    ensures out.exit.StillWaiting? ==> final.lockFile
  {
    hide Run, Split, Fold, ReadIn, Inv, AtBoundary, SafePass, RaceFree, Passed, Followed, OpenBefore, ReadFails,
        FailsAt;
    NothingShown(d);
    var stillHeld, read, lock, disk := Poll(d, join, 0, []);
    final, last, sampled, inLoop := disk, 0, lock, false;
    if read.Corrupt? {
      FoldOfNone(k);
      BoundaryLater(d, disk, 0, []);
      out := Outcome(Unreadable, [], [], k.initial);
      return;
    }
    assert [] + Split(read.bytes) == Split(read.bytes);
    var joined, remainder := WholeLines(read.bytes);
    assert joined + [] == joined;
    var st := Fold(k, k.initial, joined);
    if !AllParse(parses, joined) {
      out := Outcome(Broken, joined, [], st);
      return;
    }
    if Terminal(k.status(st)) {
      out := Outcome(Ended, joined, [], st);
      return;
    }
    var exit, emitted, st';
    exit, emitted, st', inLoop, last, sampled,
        final := FollowRunLog(k, parses, View(st, read.nextOffset), joined, disk, entry, schedule);
    out := Outcome(exit, joined, emitted, st');
  }

  lemma {:induction false} FoldOfNone<S>(k: Reducer<S, Line>)
    ensures Fold(k, k.initial, []) == k.initial
  {
  }

  lemma {:induction false} NothingShown(d: Disk)
    ensures AtBoundary(d, 0, [])
  {
    assert d.committed[..0] == [];
    SplitUnfold([]);
    assert Split([]) == [];
  }

  // ------------------------------------------------------------------ the run that shows a row and rolls it back

  /** A follower that is waiting when the file holds a complete provisional line. */
  const RACE: seq<Pass> := [Pass([], [], [], TAKE_OVER)]

  /**
   An unsafe pass is enough: the follower emits the provisional line, the batch is rolled back
   before the marker is sampled, and the log that row claims to be from does not hold it.
   */
  lemma {:induction false} RolledBackRowIsShown<S>(k: Reducer<S, Line>, parses: Line -> bool, st: S)
    requires parses([65])
    ensures Inv(PROVISIONAL) && AtBoundary(PROVISIONAL, 0, []) && LockOwned(PROVISIONAL) && !RaceFree(PROVISIONAL, RACE)
    ensures [[65]] <= Follow(k, parses, st, PROVISIONAL, 0, RACE).emitted
    ensures Passed(PROVISIONAL, RACE[0]).committed == [] && Split([]) == []
  {
    hide Split, Follow, Emit, LiveRead, Run;
    RaceReads();
    NothingShown(PROVISIONAL);
    SplitUnfold([]);
    assert RACE[0..] == RACE && PassAt(RACE, 0) == RACE[0];
    FollowStep(k, parses, st, PROVISIONAL, 0, RACE, 0);
    OneLine(65);
    EmitUnfold(k, parses, st, [65], []);
    assert [[65 as byte]] + [] == [[65]];
  }

  lemma {:induction false} RaceReads()
    ensures ReadIn(PROVISIONAL, RACE[0], 0) == Confirmed([65, 10], 2, false, 0)
    ensures Passed(PROVISIONAL, RACE[0]).committed == [] && !SafePass(PROVISIONAL, RACE[0])
  {
    TakenOver();
    assert Run(PROVISIONAL, []) == PROVISIONAL;
    var raw: seq<byte> := [65, 10];
    assert raw[..2] == raw && raw[0..2] == raw && WholeEnd(raw) == 2;
    assert TAKE_OVER[2] == Truncate;
  }

  // ------------------------------------------------------------------ the run that ends a follower early

  /** A waiting follower's next read, begun when the writer has created its marker file. */
  const IN_BETWEEN: seq<Pass> := [Pass([CreateMarker([[66]])], [], [], [])]

  /**
   Nothing is wrong with the log and its writer lives: a follower that samples the marker between its
   creation and its filling leaves with exit 1 all the same, and a command that joins there does too.
   */
  lemma {:induction false} LeavesALiveWriter<S>(k: Reducer<S, Line>, parses: Line -> bool, st: S, entry: seq<Step>,
                                                schedule: seq<Pass>)
    ensures Inv(BEFORE) && RaceFree(BEFORE, IN_BETWEEN) && !Stuck(Passed(BEFORE, IN_BETWEEN[0]))
    ensures Follow(k, parses, st, BEFORE, 2, IN_BETWEEN) == Shown(Unreadable, [], st)
    ensures Attached(k, parses, BEFORE, IN_BETWEEN[0], entry, schedule) == Outcome(Unreadable, [], [], k.initial)
  {
    hide Split, Follow, Emit, Run;
    InBetween();
    assert IN_BETWEEN[0..] == IN_BETWEEN && PassAt(IN_BETWEEN, 0) == IN_BETWEEN[0];
    FollowStep(k, parses, st, BEFORE, 2, IN_BETWEEN, 0);
    hide SafePass;
    assert RaceFree(Passed(BEFORE, IN_BETWEEN[0]), IN_BETWEEN[1..]);
  }

  lemma {:induction false} InBetween()
    ensures Inv(BEFORE) && !Stuck(Passed(BEFORE, IN_BETWEEN[0])) && SafePass(BEFORE, IN_BETWEEN[0])
    ensures forall from :: ReadIn(BEFORE, IN_BETWEEN[0], from).Corrupt?
  {
    BetweenIsNext();
    RunCons(BEFORE, CreateMarker([[66]]), []);
    assert Run(BETWEEN, []) == BETWEEN;
    hide Run;
    assert NoRollback([]);
    forall from: nat ensures ReadIn(BEFORE, IN_BETWEEN[0], from).Corrupt? {
      ReadFailsBesideALiveWriter(from);
    }
  }
}
