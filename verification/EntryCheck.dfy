/**
 The check at the top of followRunLog (cmd/arxi/attach.go:219-224): it samples the lock after the
 join read, where the loop samples it before each read. What its exit 3 has shown, exactly, by
 what the writers did in between.
 */
module EntryCheck {
  import opened Bytes
  import opened Lines
  import opened CommitLog
  import opened Reducers
  import opened Attach

  // ------------------------------------------------------------------ logs and commits

  /** b is the framing of the events it holds: no blank lines and nothing unterminated. */
  ghost predicate Framed(b: seq<byte>) {
    Frame(Split(b)) == b
  }

  ghost predicate FramedLog(d: Disk) {
    Framed(d.committed) && (d.writer.Marking? || d.writer.Appending? ==> Framed(d.writer.batch))
  }

  /** The commit point of a batch. */
  predicate Commits(d: Disk, s: Step) {
    s.Commit? && d.writer.Appending? && d.writer.written == |d.writer.batch|
  }

  function CommitCount(d: Disk, steps: seq<Step>): nat
    decreases |steps|
  {
    if steps == [] then 0 else (if Commits(d, steps[0]) then 1 else 0) + CommitCount(Next(d, steps[0]), steps[1..])
  }

  lemma {:induction false} FrameCons(line: Line, rest: seq<Line>)
    ensures Frame([]) == [] && Frame([line] + rest) == (line + [LF]) + Frame(rest)
    ensures |Frame(Events(line))| <= |line| + 1
  {
    assert ([line] + rest)[1..] == rest;
    assert Frame([line]) == [line][0] + [LF] + Frame([line][1..]) && [line][1..] == [];
  }

  lemma {:induction false} FrameAppend(a: seq<Line>, b: seq<Line>)
    ensures Frame(a + b) == Frame(a) + Frame(b)
    decreases |a|
  {
    hide Frame;
    if a == [] {
      FrameCons([], []);
      assert a + b == b;
    } else {
      FrameAppend(a[1..], b);
      FrameCons(a[0], a[1..]);
      FrameCons(a[0], a[1..] + b);
      assert a == [a[0]] + a[1..] && a + b == [a[0]] + (a[1..] + b);
      var first := a[0] + [LF];
      assert (first + Frame(a[1..])) + Frame(b) == first + (Frame(a[1..]) + Frame(b));
    }
  }

  lemma {:induction false} FramedAppend(a: seq<byte>, b: seq<byte>)
    requires Framed(a) && Framed(b) && Whole(a)
    ensures Framed(a + b)
  {
    hide Split, Frame;
    SplitAppend(a, b);
    FrameAppend(Split(a), Split(b));
  }

  /** Framing what was split never makes it longer. */
  lemma {:induction false} FrameSplitShrinks(b: seq<byte>)
    ensures |Frame(Split(b))| <= |b|
    decreases |b|
  {
    hide Split, Frame;
    SplitUnfold(b);
    var i := FirstLF(b);
    if i < |b| {
      FrameSplitShrinks(b[i + 1..]);
      FrameAppend(Events(b[..i]), Split(b[i + 1..]));
      FrameCons(b[..i], []);
    } else {
      FrameCons([], []);
    }
  }

  /** In a framed log there is an event behind every line boundary but the last. */
  lemma {:induction false} EventBehind(b: seq<byte>, n: nat)
    requires Framed(b) && n <= |b| && Whole(b[..n])
    ensures Split(b[n..]) == [] <==> n == |b|
  {
    hide Split, Frame;
    assert b == b[..n] + b[n..];
    SplitAppend(b[..n], b[n..]);
    if n == |b| {
      assert b[n..] == [];
      SplitUnfold([]);
    } else if Split(b[n..]) == [] {
      assert Split(b) == Split(b[..n]);
      FrameSplitShrinks(b[..n]);
    }
  }

  lemma {:induction false} StepKeepsFramed(d: Disk, s: Step)
    requires Inv(d) && FramedLog(d)
    ensures FramedLog(Next(d, s))
  {
    hide Split, Frame, WholeEnd;
    match s
    case CreateMarker(lines) =>
      if AllWritable(lines) {
        SplitFrame(lines);
      }
    case Commit =>
      if Commits(d, s) {
        FramedAppend(d.committed, d.writer.batch);
      }
    case _ =>
  }

  lemma {:induction false} StepCommits(d: Disk, s: Step)
    requires Inv(d)
    ensures Next(d, s).committed == if Commits(d, s) then d.committed + d.writer.batch else d.committed
    ensures Commits(d, s) ==> |d.writer.batch| > 0
  {
    hide WholeEnd;
  }

  /** The log changes exactly when a commit takes effect. */
  lemma {:induction false} RunCommits(d: Disk, steps: seq<Step>)
    requires Inv(d)
    ensures Inv(Run(d, steps)) && |Run(d, steps).committed| >= |d.committed| + CommitCount(d, steps)
    ensures CommitCount(d, steps) == 0 ==> Run(d, steps).committed == d.committed
    ensures FramedLog(d) ==> FramedLog(Run(d, steps))
    decreases |steps|
  {
    hide Inv, Next, FramedLog, Commits;
    if steps != [] {
      StepKeepsInv(d, steps[0]);
      StepCommits(d, steps[0]);
      if FramedLog(d) {
        StepKeepsFramed(d, steps[0]);
      }
      RunCommits(Next(d, steps[0]), steps[1..]);
    }
  }

  /** A batch left behind by a dead writer stays in the way until it is rolled back. */
  lemma {:induction false} DeadCommitsNothing(d: Disk, steps: seq<Step>)
    requires Inv(d) && d.marker.Some? && !d.writer.Appending? && !d.writer.RolledBack? && NoRollback(steps)
    ensures CommitCount(d, steps) == 0
    decreases |steps|
  {
    hide WholeEnd;
    if steps != [] {
      var d' := Next(d, steps[0]);
      StepKeepsInv(d, steps[0]);
      assert forall i | 0 <= i < |steps[1..]| :: steps[1..][i] == steps[i + 1];
      DeadCommitsNothing(d', steps[1..]);
    }
  }

  /** Until then the batch stays what it is, or its writer dies. */
  lemma {:induction false} BatchStays(d: Disk, s: Step)
    requires Inv(d) && d.writer.Appending? && !Commits(d, s)
    ensures var d' := Next(d, s);
            && d'.committed == d.committed && d'.marker.Some? && !d'.writer.RolledBack?
            && (d'.writer.Appending? ==> d'.writer.batch == d.writer.batch)
  {
    hide WholeEnd, Frame, AllWritable;
  }

  /** With no rollback, the first commit after a batch has begun is that batch's. */
  lemma {:induction false} FirstCommitIsTheBatch(d: Disk, steps: seq<Step>)
    requires Inv(d) && d.writer.Appending? && NoRollback(steps) && CommitCount(d, steps) > 0
    ensures d.committed + d.writer.batch <= Run(d, steps).committed
    ensures CommitCount(d, steps) == 1 ==> Run(d, steps).committed == d.committed + d.writer.batch
    ensures CommitCount(d, steps) > 1 ==> |Run(d, steps).committed| > |d.committed + d.writer.batch|
    decreases |steps|
  {
    hide Next, Inv, Commits;
    var s, d' := steps[0], Next(d, steps[0]);
    StepKeepsInv(d, s);
    StepCommits(d, s);
    RunCommits(d', steps[1..]);
    RunKeepsInv(d', steps[1..]);
    assert forall i | 0 <= i < |steps[1..]| :: steps[1..][i] == steps[i + 1];
    if !Commits(d, s) {
      BatchStays(d, s);
      if !d'.writer.Appending? {
        DeadCommitsNothing(d', steps[1..]);
      }
      FirstCommitIsTheBatch(d', steps[1..]);
    }
  }

  // ------------------------------------------------------------------ what the join read has caught up with

  /** A batch that is all in the file and not yet committed. */
  predicate FullyWritten(d: Disk) {
    d.writer.Appending? && d.writer.written == |d.writer.batch|
  }

  /** Where the join read stops: d is the directory when it reads the file, gap what runs before it samples the
  marker. */
  function JoinEnd(d: Disk, gap: seq<Step>): nat {
    WholeEnd(d.file[..VisibleEnd(d.file, Run(d, gap).marker)])
  }

  /**
   The steps after which the join read is still up to date: none of them commits; or just one does,
   before the marker is sampled, and its batch was all in the file when the file was read.
   */
  ghost predicate StillUpToDate(d: Disk, gap: seq<Step>, entry: seq<Step>) {
    && CommitCount(Run(d, gap), entry) == 0
    && (CommitCount(d, gap) == 0 || (CommitCount(d, gap) == 1 && FullyWritten(d)))
  }

  lemma {:induction false} GapCommits(d: Disk, gap: seq<Step>)
    requires Inv(d) && SafeGap(d, gap)
    ensures CommitCount(d, gap) == 0 || (CommitCount(d, gap) == 1 && FullyWritten(d))
            <==> JoinEnd(d, gap) == |Run(d, gap).committed|
    ensures JoinEnd(d, gap) <= |Run(d, gap).committed|
  {
    hide Run, WholeEnd, SafeGap;
    VisibleIsCommitted(d, gap);
    RunCommits(d, gap);
    if CommitCount(d, gap) > 0 {
      if FullyWritten(d) {
        FullyWrittenGap(d, gap);
      } else {
        BatchWasNotAllThere(d, gap);
      }
    }
  }

  lemma {:induction false} WholeEndAtMost(b: seq<byte>, end: nat)
    requires end <= |b|
    ensures WholeEnd(b[..end]) <= WholeEnd(b)
  {
    var n := WholeEnd(b[..end]);
    assert b[..end][..n] == b[..n];
    WholeEndOfPrefix(b, n);
  }

  lemma {:induction false} FullyWrittenGap(d: Disk, gap: seq<Step>)
    requires Inv(d) && SafeGap(d, gap) && FullyWritten(d) && CommitCount(d, gap) > 0
    ensures CommitCount(d, gap) == 1 <==> JoinEnd(d, gap) == |Run(d, gap).committed|
  {
    hide Run, WholeEnd;
    assert d.writer.batch[..d.writer.written] == d.writer.batch;
    assert Whole(d.file);
    WholeFileEnd(d.file);
    assert NoRollback(gap);
    FirstCommitIsTheBatch(d, gap);
    RunKeepsInv(d, gap);
    var end := VisibleEnd(d.file, Run(d, gap).marker);
    assert |Run(d, gap).committed| >= |d.file|;
    assert end == |d.file| && d.file[..end] == d.file;
  }

  lemma {:induction false} BatchWasNotAllThere(d: Disk, gap: seq<Step>)
    requires Inv(d) && SafeGap(d, gap) && !FullyWritten(d) && CommitCount(d, gap) > 0
    ensures JoinEnd(d, gap) < |Run(d, gap).committed|
  {
    hide Run, WholeEnd;
    RunCommits(d, gap);
    WholeFileEnd(d.committed);
    WholeEndAtMost(d.file, VisibleEnd(d.file, Run(d, gap).marker));
    if WholeEnd(d.file) != |d.committed| {
      assert NoRollback(gap);
      if d.writer.Appending? {
        FirstCommitIsTheBatch(d, gap);
      } else {
        DeadCommitsNothing(d, gap);
        assert false;
      }
    }
  }

  // ------------------------------------------------------------------ the exit

  /** The events the command has when its join read is over. */
  function JoinedAt(d: Disk, gap: seq<Step>): seq<Line> {
    Split(d.file[..JoinEnd(d, gap)])
  }

  /**
   At the exit in front of the loop the command has shown everything committed by then exactly when
   the join read was still up to date: no commit took effect between the file read and the lock
   sample, but for one whose batch was already all in the file.
   */
  lemma {:induction false} EntryExitIsCompleteIff(d: Disk, gap: seq<Step>, entry: seq<Step>)
    requires Inv(d) && FramedLog(d) && SafeGap(d, gap)
    ensures Split(Run(Run(d, gap), entry).committed) == JoinedAt(d, gap) <==> StillUpToDate(d, gap, entry)
    ensures JoinedAt(d, gap) <= Split(Run(Run(d, gap), entry).committed)
  {
    hide Run, WholeEnd, Split, SafeGap, Framed, Inv;
    var now, later := Run(d, gap), Run(Run(d, gap), entry);
    var n := JoinEnd(d, gap);
    VisibleIsCommitted(d, gap);
    GapCommits(d, gap);
    RunCommits(d, gap);
    RunCommits(now, entry);
    RunKeepsInv(now, entry);
    assert now.committed[..n] == later.committed[..n] == d.file[..n];
    JoinIsWhole(d, gap);
    EventBehind(later.committed, n);
    assert later.committed == later.committed[..n] + later.committed[n..];
    SplitAppend(later.committed[..n], later.committed[n..]);
    var rest := Split(later.committed[n..]);
    assert |JoinedAt(d, gap) + rest| == |JoinedAt(d, gap)| + |rest|;
    assert rest == [] ==> JoinedAt(d, gap) + rest == JoinedAt(d, gap);
  }

  lemma {:induction false} JoinIsWhole(d: Disk, gap: seq<Step>)
    ensures Whole(d.file[..JoinEnd(d, gap)])
  {
    var end := VisibleEnd(d.file, Run(d, gap).marker);
    assert d.file[..end][..JoinEnd(d, gap)] == d.file[..JoinEnd(d, gap)];
  }

  /** What ReadIn returns is that: the join of Attach. */
  lemma {:induction false} JoinIsTheRead(d: Disk, join: Pass)
    requires Inv(d)
    ensures var r := ReadIn(d, join, 0);
            && (r.Corrupt? <==> ReadFails(d, join))
            && (r.Confirmed? ==> Split(r.bytes) == JoinedAt(AtFile(d, join), join.beforeRecheck))
  {
    hide Run, WholeEnd, Split, Inv, Confirm;
    RunKeepsInv(d, join.beforeLock);
    var d1 := Run(Run(d, join.beforeLock), join.beforeMarker);
    RunKeepsInv(Run(d, join.beforeLock), join.beforeMarker);
    LiveReadFailsIff(d1, join.beforeFile, join.beforeRecheck, 0);
    if !ReadFails(d, join) {
      ConfirmAt(d1.marker, AtFile(d, join).file, Passed(d, join).marker, 0);
      var n := JoinEnd(AtFile(d, join), join.beforeRecheck);
      assert AtFile(d, join).file[0..n] == AtFile(d, join).file[..n];
    }
  }

  /**
   The same check with the lock sampled before the join read has the loop's guarantee: everything
   committed when it saw no lock file is in the join, if that can be read.
   */
  lemma {:induction false} LockBeforeJoinIsComplete(d: Disk, join: Pass)
    requires Inv(d) && SafePass(d, join) && !ReadFails(d, join)
    ensures ReadIn(d, join, 0).Confirmed?
    ensures Split(Run(d, join.beforeLock).committed) <= Split(ReadIn(d, join, 0).bytes)
  {
    hide Split, Run, ReadIn, Inv, SafePass, Passed, ReadFails;
    NothingShown(d);
    ReadExtends(d, join, 0, []);
    assert [] + Split(ReadIn(d, join, 0).bytes) == Split(ReadIn(d, join, 0).bytes);
  }

  // ------------------------------------------------------------------ an exit that misses an event

  /** A writer with an empty log, a join read with nothing in its gaps, and what the writer does next. */
  const OPEN: Disk := Disk([], None, false, true, Ready(0), 0, 0, [])
  const JOIN: Pass := Pass([], [], [], [])
  const FINISH: seq<Step> := [CreateMarker([[65]])]
    + ([WriteMarker] + ([Write(2)] + ([Commit] + ([Release] + [RemoveLockFile]))))

  /**
   The command exits with 3 and has shown nothing, although an event had been committed before it
   looked for the lock.
   */
  lemma {:induction false} EntryExitMissesAnEvent<S>(k: Reducer<S, Line>, parses: Line -> bool, schedule: seq<Pass>)
    requires !Terminal(k.status(k.initial))
    ensures Inv(OPEN) && FramedLog(OPEN)
    ensures Attached(k, parses, OPEN, JOIN, FINISH, schedule) == Outcome(NotEnded, [], [], k.initial)
    ensures Split(Run(OPEN, FINISH).committed) == [[65]] && !StillUpToDate(OPEN, [], FINISH)
  {
    hide Split, Run, Frame, WholeEnd;
    Finished();
    NothingRead();
    OneLine(65);
    SplitUnfold([]);
    FrameCons([], []);
    assert Fold(k, k.initial, []) == k.initial;
    EntryExitIsCompleteIff(OPEN, [], FINISH);
  }

  lemma {:induction false} NothingRead()
    ensures Passed(OPEN, JOIN) == OPEN == Run(OPEN, []) && ReadIn(OPEN, JOIN, 0) == Confirmed([], 0, false, 0)
    ensures JoinedAt(OPEN, []) == Split([]) && Inv(OPEN) && NoRollback([])
  {
    assert Run(OPEN, []) == OPEN && WholeEnd([]) == 0;
    assert OPEN.file[..0] == [];
  }

  lemma {:induction false} Begun()
    ensures Next(Next(OPEN, CreateMarker([[65]])), WriteMarker)
            == Disk([], Some(Marker(0, 0)), false, true, Appending(0, [65, 10], 0), 0, 1, [])
  {
    OneLine(65);
    hide Frame, AllWritable;
    Begins(OPEN, [[65]]);
  }

  lemma {:induction false} Finished()
    ensures Run(OPEN, FINISH) == Disk([65, 10], None, false, false, NoWriter, 0, 1, [65, 10])
  {
    hide Run, Frame, AllWritable, Split, WholeEnd;
    Begun();
    var a0 := Next(OPEN, CreateMarker([[65]]));
    var a := Next(a0, WriteMarker);
    var b := a.(file := [65, 10], writer := Appending(0, [65, 10], 2));
    var c := b.(marker := None, writer := Ready(2), committed := [65, 10]);
    var e := c.(writer := NoWriter, leaving := 1);
    assert [65 as byte, 10][0..2] == [65, 10];
    assert Next(a, Write(2)) == b && Next(b, Commit) == c && Next(c, Release) == e;
    assert Next(e, RemoveLockFile) == e.(leaving := 0, lockFile := false);
    hide Next;
    RunCons(OPEN, CreateMarker([[65]]), [WriteMarker] + ([Write(2)] + ([Commit] + ([Release] + [RemoveLockFile]))));
    RunCons(a0, WriteMarker, [Write(2)] + ([Commit] + ([Release] + [RemoveLockFile])));
    RunCons(a, Write(2), [Commit] + ([Release] + [RemoveLockFile]));
    RunCons(b, Commit, [Release] + [RemoveLockFile]);
    RunCons(c, Release, [RemoveLockFile]);
    RunCons(e, RemoveLockFile, []);
  }
}
