/**
 The run log on disk as a machine (internal/logstore/store.go): one writer under a lock, a
 commit marker that is created empty and then filled with the rollback offset, a batch written in
 pieces, crashes at any point, rollback on the next open. Readers take no lock. Locks says when
 there is one writer.

 `committed` is specification state: the bytes whose Append reached its commit point. No step
 looks at it.
 */
module CommitLog {
  import opened Bytes
  import opened Lines

  datatype Marker = Marker(id: nat, offset: nat)

  datatype Writer =
    | NoWriter
    | Locked                                               // Open holds the lock
    | RolledBack                                           // Open truncated, marker still there
    | Ready(size: nat)                                     // Store is open between batches
    | Marking(size: nat, batch: seq<byte>)                 // the marker file is created and still empty
    | Appending(size: nat, batch: seq<byte>, written: nat) // marker durable, batch partly written

  /**
   marker: what pending.commit says; unfinished: that it exists and says nothing. leaving: how many
   processes have released the lock and not yet removed its file.
   */
  datatype Disk = Disk(file: seq<byte>, marker: Option<Marker>, unfinished: bool, lockFile: bool, writer: Writer,
                       leaving: nat, nextId: nat, committed: seq<byte>)

  /** One atomic action of a writer process. A step that is not enabled changes nothing. */
  datatype Step =
    | Acquire
    | Truncate
    | RemoveMarker
    | Scan
    | CreateMarker(lines: seq<Line>)
    | WriteMarker
    | Write(n: nat)
    | Commit
    | Abort            // Open fails after it took the lock, and releases it
    | Release          // Close releases the lock
    | RemoveLockFile   // and only then removes its file
    | Crash

  function Prefix(b: seq<byte>, n: nat): seq<byte> {
    if n <= |b| then b[..n] else b
  }

  function Next(d: Disk, s: Step): Disk {
    match s
    case Acquire =>
      if d.writer.NoWriter? then d.(writer := Locked, lockFile := true) else d
    case Truncate =>
      if d.writer.Locked? && d.marker.Some?
      then d.(file := Prefix(d.file, d.marker.value.offset), writer := RolledBack) else d
    case RemoveMarker =>
      if d.writer.RolledBack? then d.(marker := None, writer := Locked) else d
    case Scan =>
      // An unfinished marker is refused: its rollback point is unknown.
      if d.writer.Locked? && d.marker.None? && !d.unfinished
      then d.(file := d.file[..WholeEnd(d.file)], writer := Ready(WholeEnd(d.file))) else d
    case CreateMarker(lines) =>
      if d.writer.Ready? && lines != [] && AllWritable(lines)
      then d.(unfinished := true, writer := Marking(d.writer.size, Frame(lines))) else d
    case WriteMarker =>
      if d.writer.Marking?
      then d.(marker := Some(Marker(d.nextId, d.writer.size)), unfinished := false, nextId := d.nextId + 1,
              writer := Appending(d.writer.size, d.writer.batch, 0))
      else d
    case Write(n) =>
      if d.writer.Appending? && d.writer.written + n <= |d.writer.batch|
      then d.(file := d.file + d.writer.batch[d.writer.written..d.writer.written + n],
              writer := d.writer.(written := d.writer.written + n))
      else d
    case Commit =>
      if d.writer.Appending? && d.writer.written == |d.writer.batch|
      then d.(marker := None, writer := Ready(d.writer.size + |d.writer.batch|),
              committed := d.committed + d.writer.batch)
      else d
    case Abort =>
      if d.writer.Locked? || d.writer.RolledBack? then d.(writer := NoWriter, leaving := d.leaving + 1) else d
    case Release =>
      if d.writer.Ready? then d.(writer := NoWriter, leaving := d.leaving + 1) else d
    case RemoveLockFile =>
      if d.leaving > 0 then d.(leaving := d.leaving - 1, lockFile := false) else d
    case Crash =>
      // The operating system frees the lock; nothing removes the lock file.
      if d.writer.NoWriter? then d else d.(writer := NoWriter)
  }

  function Run(d: Disk, steps: seq<Step>): Disk
    decreases |steps|
  {
    if steps == [] then d else Run(Next(d, steps[0]), steps[1..])
  }

  ghost predicate Inv(d: Disk) {
    && Whole(d.committed)
    && d.committed <= d.file
    && (d.marker.None? ==> d.file == d.committed)
    && (d.marker.Some? ==> d.marker.value.offset == |d.committed| && d.marker.value.id < d.nextId)
    && (d.unfinished ==> d.marker.None?)
    && match d.writer
       case NoWriter => true
       case Locked => true
       case RolledBack => d.marker.Some? && d.file == d.committed
       case Ready(size) => d.marker.None? && !d.unfinished && size == |d.committed|
       case Marking(size, batch) => d.unfinished && size == |d.committed| && batch != [] && Whole(batch)
       case Appending(size, batch, written) =>
         && d.marker.Some? && size == |d.committed|
         && batch != [] && Whole(batch)
         && written <= |batch| && d.file == d.committed + batch[..written]
  }

  lemma {:induction false} WholeFileEnd(b: seq<byte>)
    ensures Whole(b) ==> WholeEnd(b) == |b| && b[..WholeEnd(b)] == b
  {
  }

  lemma {:induction false} StepKeepsInv(d: Disk, s: Step)
    requires Inv(d)
    ensures Inv(Next(d, s))
    ensures d.committed <= Next(d, s).committed
  {
    match s
    case CreateMarker(lines) => CreateMarkerKeepsInv(d, lines);
    case WriteMarker => WriteMarkerKeepsInv(d);
    case Write(n) => WriteKeepsInv(d, n);
    case Commit => CommitKeepsInv(d);
    case _ => WholeFileEnd(d.file);
  }

  lemma {:induction false} CreateMarkerKeepsInv(d: Disk, lines: seq<Line>)
    requires Inv(d)
    ensures Inv(Next(d, CreateMarker(lines))) && Next(d, CreateMarker(lines)).committed == d.committed
  {
    FrameIsWhole(lines);
    hide Frame, AllWritable;
  }

  lemma {:induction false} WriteMarkerKeepsInv(d: Disk)
    requires Inv(d)
    ensures Inv(Next(d, WriteMarker)) && Next(d, WriteMarker).committed == d.committed
  {
    if d.writer.Marking? {
      assert d.committed + d.writer.batch[..0] == d.committed;
    }
  }

  lemma {:induction false} WriteKeepsInv(d: Disk, n: nat)
    requires Inv(d)
    ensures Inv(Next(d, Write(n))) && Next(d, Write(n)).committed == d.committed
  {
    if d.writer.Appending? && d.writer.written + n <= |d.writer.batch| {
      var w := d.writer;
      assert w.batch[..w.written] + w.batch[w.written..w.written + n] == w.batch[..w.written + n];
    }
  }

  lemma {:induction false} CommitKeepsInv(d: Disk)
    requires Inv(d)
    ensures Inv(Next(d, Commit)) && d.committed <= Next(d, Commit).committed
  {
    if d.writer.Appending? && d.writer.written == |d.writer.batch| {
      assert d.writer.batch[..d.writer.written] == d.writer.batch;
    }
  }

  /** Over any run of writers, crashes and rollbacks, the committed bytes only grow. */
  lemma {:induction false} RunKeepsInv(d: Disk, steps: seq<Step>)
    requires Inv(d)
    ensures Inv(Run(d, steps))
    ensures d.committed <= Run(d, steps).committed
    ensures Run(d, steps).marker.Some? ==> |d.committed| <= Run(d, steps).marker.value.offset
    decreases |steps|
  {
    if steps != [] {
      StepKeepsInv(d, steps[0]);
      RunKeepsInv(Next(d, steps[0]), steps[1..]);
    }
  }

  lemma {:induction false} RunAppend(d: Disk, a: seq<Step>, b: seq<Step>)
    ensures Run(d, a + b) == Run(Run(d, a), b)
    decreases |a|
  {
    if a == [] {
      assert a + b == b;
    } else {
      assert (a + b)[0] == a[0] && (a + b)[1..] == a[1..] + b;
      RunAppend(Next(d, a[0]), a[1..], b);
    }
  }

  ghost predicate NoRollback(steps: seq<Step>) {
    forall i | 0 <= i < |steps| :: !steps[i].Truncate?
  }

  lemma {:induction false} StepGrowsFile(d: Disk, s: Step)
    requires Inv(d) && !s.Truncate?
    ensures d.file <= Next(d, s).file
  {
    hide Frame, AllWritable;
    WholeFileEnd(d.file);
  }

  /** Without a rollback the file only grows, so bytes once read stay where they were. */
  lemma {:induction false} FileGrows(d: Disk, steps: seq<Step>)
    requires Inv(d) && NoRollback(steps)
    ensures d.file <= Run(d, steps).file
    decreases |steps|
  {
    hide Next, Inv;
    if steps != [] {
      var d' := Next(d, steps[0]);
      StepKeepsInv(d, steps[0]);
      StepGrowsFile(d, steps[0]);
      assert forall i | 0 <= i < |steps[1..]| :: steps[1..][i] == steps[i + 1];
      FileGrows(d', steps[1..]);
    }
  }

  /** Only a process that has released the lock itself removes the lock file: a crash leaves it behind. */
  lemma {:induction false} OnlyReleaseRemovesTheLockFile(d: Disk, steps: seq<Step>)
    requires d.lockFile && forall i | 0 <= i < |steps| :: !steps[i].RemoveLockFile?
    ensures Run(d, steps).lockFile
    decreases |steps|
  {
    if steps != [] {
      OnlyReleaseRemovesTheLockFile(Next(d, steps[0]), steps[1..]);
    }
  }

  // ---------------------------------------------------------------- reopening after a crash

  /** What Open does to the directory a dead writer left. */
  function Reopened(d: Disk): Disk {
    Next(Next(Next(Next(Next(d, Crash), Acquire), Truncate), RemoveMarker), Scan)
  }

  /** A marker file stands empty and nobody is about to fill it. */
  predicate Stuck(d: Disk) {
    d.unfinished && !d.writer.Marking?
  }

  /**
   A batch is all or nothing: the next Open succeeds exactly if no marker file was left empty, and
   then it leaves exactly the acknowledged bytes in the file and starts from their length.
   */
  lemma {:induction false} ReopenKeepsExactlyTheAcknowledged(d: Disk)
    requires Inv(d)
    ensures Reopened(d).writer.Ready? <==> !d.unfinished
    ensures Stuck(Next(d, Crash)) <==> d.unfinished
    ensures !d.unfinished ==>
              Reopened(d).file == d.committed == Reopened(d).committed && Reopened(d).writer == Ready(|d.committed|)
  {
    var a := Next(Next(d, Crash), Acquire);
    var b := Next(Next(a, Truncate), RemoveMarker);
    StepKeepsInv(d, Crash);
    StepKeepsInv(Next(d, Crash), Acquire);
    StepKeepsInv(a, Truncate);
    StepKeepsInv(Next(a, Truncate), RemoveMarker);
    WholeFileEnd(b.file);
  }

  lemma {:induction false} StuckStep(d: Disk, s: Step)
    requires Inv(d)
    ensures Stuck(Next(d, s)) <==> Stuck(d) || (s.Crash? && d.writer.Marking?)
    ensures Stuck(d) ==> !d.writer.Ready? && !Next(d, s).writer.Ready? && Next(d, s).committed == d.committed
  {
    hide WholeEnd, Frame, AllWritable;
  }

  /** Nothing helps any more: every later Open of every process fails, and the log stays as it is. */
  lemma {:induction false} StuckForGood(d: Disk, steps: seq<Step>)
    requires Inv(d) && Stuck(d)
    ensures Stuck(Run(d, steps)) && !Run(d, steps).writer.Ready? && Run(d, steps).committed == d.committed
    decreases |steps|
  {
    hide Next, Inv;
    StuckStep(d, Crash);
    if steps != [] {
      StepKeepsInv(d, steps[0]);
      StuckStep(d, steps[0]);
      StuckForGood(Next(d, steps[0]), steps[1..]);
    }
  }

  /** Some writer of this run died between creating the marker file and filling it. */
  ghost predicate DiesBetween(d: Disk, steps: seq<Step>)
    decreases |steps|
  {
    steps != [] && ((steps[0].Crash? && d.writer.Marking?) || DiesBetween(Next(d, steps[0]), steps[1..]))
  }

  /** That, and nothing else, is how a log gets stuck. */
  lemma {:induction false} StuckIff(d: Disk, steps: seq<Step>)
    requires Inv(d)
    ensures Stuck(Run(d, steps)) <==> Stuck(d) || DiesBetween(d, steps)
    decreases |steps|
  {
    hide Next, Inv, Stuck;
    if steps != [] {
      StepKeepsInv(d, steps[0]);
      StuckStep(d, steps[0]);
      StuckIff(Next(d, steps[0]), steps[1..]);
    }
  }

  /** So a marker file is empty exactly while its writer is between the two steps, and for good once one died there. */
  lemma {:induction false} UnfinishedIff(start: Disk, steps: seq<Step>)
    requires Inv(start) && !Stuck(start)
    ensures Run(start, steps).unfinished <==> Run(start, steps).writer.Marking? || DiesBetween(start, steps)
  {
    hide Run, DiesBetween;
    StuckIff(start, steps);
    RunKeepsInv(start, steps);
  }

  /** Some continuation opens the log. */
  ghost predicate CanReopen(d: Disk) {
    exists steps: seq<Step> :: Run(d, steps).writer.Ready?
  }

  /**
   Exactly when the log survives its writer: after a crash it can be opened again if and only if
   no writer, this one included, died between creating the marker file and filling it.
   */
  lemma {:induction false} ReopensIff(start: Disk, steps: seq<Step>)
    requires Inv(start) && !Stuck(start)
    ensures CanReopen(Next(Run(start, steps), Crash)) <==>
              !DiesBetween(start, steps) && !Run(start, steps).writer.Marking?
  {
    hide Run, Next, Inv, DiesBetween;
    RunKeepsInv(start, steps);
    StuckIff(start, steps);
    var d := Run(start, steps);
    var dead := Next(d, Crash);
    StepKeepsInv(d, Crash);
    StuckStep(d, Crash);
    if Stuck(dead) {
      forall more: seq<Step> ensures !Run(dead, more).writer.Ready? {
        StuckForGood(dead, more);
      }
    } else {
      ReopenKeepsExactlyTheAcknowledged(d);
      ReopenedRuns(d);
    }
  }

  lemma {:induction false} ReopenedRuns(d: Disk)
    ensures Reopened(d) == Run(Next(d, Crash), [Acquire] + ([Truncate] + ([RemoveMarker] + [Scan])))
  {
    hide Run, Next;
    var a := Next(d, Crash);
    RunCons(a, Acquire, [Truncate] + ([RemoveMarker] + [Scan]));
    RunCons(Next(a, Acquire), Truncate, [RemoveMarker] + [Scan]);
    RunCons(Next(Next(a, Acquire), Truncate), RemoveMarker, [Scan]);
    RunCons(Next(Next(Next(a, Acquire), Truncate), RemoveMarker), Scan, []);
  }

  lemma {:induction false} RunCons(d: Disk, s: Step, rest: seq<Step>)
    ensures Run(d, [s] + rest) == Run(Next(d, s), rest) && Run(d, [s]) == Next(d, s)
  {
    assert ([s] + rest)[1..] == rest && [s][1..] == [];
  }

  // ---------------------------------------------------------------- confirmed reads

  datatype ConfirmedRead =
    | Corrupt
    | Confirmed(bytes: seq<byte>, nextOffset: nat, batchInFlight: bool, withheld: nat)

  /** The second marker sample hides everything past its rollback point. */
  function VisibleEnd(raw: seq<byte>, after: Option<Marker>): (end: nat)
    ensures end <= |raw|
  {
    if after.Some? && after.value.offset < |raw| then after.value.offset else |raw|
  }

  /**
   readConfirmed on its three samples: the marker, then the file, then the marker again. Only
   the second marker decides what is visible.
   */
  function Confirm(before: Option<Marker>, raw: seq<byte>, after: Option<Marker>, from: nat): (r: ConfirmedRead)
    ensures r.Confirmed? ==> Whole(r.bytes) && r.nextOffset <= |raw|
    ensures r.Confirmed? && r.bytes != [] ==> from < r.nextOffset
  {
    if before.Some? && after.Some? && before.value.id == after.value.id && before.value.offset != after.value.offset
    then Corrupt
    else
      var end := VisibleEnd(raw, after);
      var start := if from > end then end else from;
      var visible := raw[start..end];
      var whole := WholeEnd(visible);
      var withheld := if after.Some? && |raw| > after.value.offset then |raw| - after.value.offset else 0;
      Confirmed(visible[..whole], start + whole, after.Some?, withheld)
  }

  /**
   A confirmed read of a live directory: w1 runs before the file is read, w2 after it. Either sample
   of an empty marker file is an error.
   */
  function LiveRead(d: Disk, w1: seq<Step>, w2: seq<Step>, from: nat): ConfirmedRead {
    var d1 := Run(d, w1);
    var d2 := Run(d1, w2);
    if d.unfinished || d2.unfinished then Corrupt else Confirm(d.marker, d1.file, d2.marker, from)
  }

  /** One of the two marker samples of a read falls between the creation of a marker file and its filling. */
  predicate SamplesUnfinished(d: Disk, w1: seq<Step>, w2: seq<Step>) {
    d.unfinished || Run(Run(d, w1), w2).unfinished
  }

  lemma {:induction false} StepKeepsMarker(d: Disk, s: Step, m: Marker)
    requires m.id < d.nextId && (d.marker.Some? && d.marker.value.id == m.id ==> d.marker.value == m)
    ensures var m' := Next(d, s).marker; m'.Some? && m'.value.id == m.id ==> m'.value == m
    ensures d.nextId <= Next(d, s).nextId
  {
    hide WholeEnd, Frame, AllWritable;
  }

  /** A marker keeps its offset for as long as it keeps its id. */
  lemma {:induction false} MarkerIsStable(d: Disk, steps: seq<Step>, m: Marker)
    requires Inv(d) && m.id < d.nextId
    requires d.marker.Some? && d.marker.value.id == m.id ==> d.marker.value == m
    ensures var m' := Run(d, steps).marker;
            m'.Some? && m'.value.id == m.id ==> m'.value == m
    ensures d.nextId <= Run(d, steps).nextId
    decreases |steps|
  {
    hide Next, Inv;
    if steps != [] {
      StepKeepsInv(d, steps[0]);
      StepKeepsMarker(d, steps[0], m);
      MarkerIsStable(Next(d, steps[0]), steps[1..], m);
    }
  }

  /** A read fails exactly if it samples an empty marker file; changed offsets are never seen. */
  lemma {:induction false} LiveReadFailsIff(d: Disk, w1: seq<Step>, w2: seq<Step>, from: nat)
    requires Inv(d)
    ensures LiveRead(d, w1, w2, from).Corrupt? <==> SamplesUnfinished(d, w1, w2)
    ensures !SamplesUnfinished(d, w1, w2) ==>
              LiveRead(d, w1, w2, from) == Confirm(d.marker, Run(d, w1).file, Run(Run(d, w1), w2).marker, from)
  {
    if d.marker.Some? {
      MarkerIsStable(d, w1 + w2, d.marker.value);
      RunAppend(d, w1, w2);
    }
  }

  lemma {:induction false} WholeEndConcat(a: seq<byte>, b: seq<byte>)
    requires Whole(a)
    ensures WholeEnd(a + b) == |a| + WholeEnd(b)
  {
    var m, n := WholeEnd(b), WholeEnd(a + b);
    assert (a + b)[..|a| + m] == a + b[..m];
    WholeEndOfPrefix(a + b, |a| + m);
    assert forall i | |a| + m <= i < |a + b| :: (a + b)[i] == b[i - |a|];
  }

  /** What a read returns when it starts on a boundary the reader has consumed up to. */
  lemma {:induction false} ConfirmAt(before: Option<Marker>, raw: seq<byte>, after: Option<Marker>, from: nat)
    requires Confirm(before, raw, after, from).Confirmed?
    requires from <= VisibleEnd(raw, after) && Whole(raw[..from])
    ensures var r := Confirm(before, raw, after, from);
            && from <= r.nextOffset == WholeEnd(raw[..VisibleEnd(raw, after)])
            && r.bytes == raw[from..r.nextOffset]
  {
    hide WholeEnd;
    var end := VisibleEnd(raw, after);
    var whole := WholeEnd(raw[from..end]);
    WholeEndConcat(raw[..from], raw[from..end]);
    assert raw[..from] + raw[from..end] == raw[..end];
    assert raw[from..end][..whole] == raw[from..from + whole];
  }

  /** The same, for a log of which the visible part is a prefix. */
  lemma {:induction false} ConfirmAgainst(before: Option<Marker>, raw: seq<byte>, after: Option<Marker>, from: nat,
                                          log: seq<byte>)
    requires Confirm(before, raw, after, from).Confirmed?
    requires from <= WholeEnd(raw[..VisibleEnd(raw, after)]) <= |log|
    requires raw[..WholeEnd(raw[..VisibleEnd(raw, after)])] == log[..WholeEnd(raw[..VisibleEnd(raw, after)])]
    requires Whole(log[..from])
    ensures var r := Confirm(before, raw, after, from);
            && from <= r.nextOffset == WholeEnd(raw[..VisibleEnd(raw, after)]) <= |log|
            && Whole(log[..r.nextOffset]) && r.bytes == log[from..r.nextOffset]
  {
    hide WholeEnd;
    hide Confirm;
    var end := VisibleEnd(raw, after);
    var n := WholeEnd(raw[..end]);
    assert raw[..from] == raw[..n][..from] == log[..n][..from] == log[..from];
    ConfirmAt(before, raw, after, from);
    assert raw[from..n] == raw[..n][from..] == log[..n][from..] == log[from..n];
    assert raw[..end][..n] == raw[..n];
  }

  /**
   What may happen between reading the file and sampling the marker: no rollback, or anything if
   the file held no complete provisional line.
   */
  ghost predicate SafeGap(d: Disk, steps: seq<Step>) {
    NoRollback(steps) || WholeEnd(d.file) == |d.committed|
  }

  lemma {:induction false} WholeEndBelow(b: seq<byte>, end: nat)
    requires WholeEnd(b) <= end <= |b|
    ensures WholeEnd(b[..end]) == WholeEnd(b)
  {
    var n := WholeEnd(b);
    assert b[..end][..n] == b[..n];
    WholeEndOfPrefix(b[..end], n);
    var m := WholeEnd(b[..end]);
    assert b[..end][..m] == b[..m];
    WholeEndOfPrefix(b, m);
  }

  /** Where the visible lines end: inside the log as it is when the marker is sampled. */
  lemma {:induction false} VisibleIsCommitted(d: Disk, steps: seq<Step>)
    requires Inv(d) && SafeGap(d, steps)
    ensures var d' := Run(d, steps);
            var n := WholeEnd(d.file[..VisibleEnd(d.file, d'.marker)]);
            && |d.committed| <= n <= |d'.committed| && d.file[..n] == d'.committed[..n] && Inv(d')
                  && d.committed <= d'.committed
  {
    hide WholeEnd, Run;
    RunKeepsInv(d, steps);
    var d' := Run(d, steps);
    var end := VisibleEnd(d.file, d'.marker);
    var n := WholeEnd(d.file[..end]);
    assert d.file[..end][..|d.committed|] == d.committed;
    WholeEndOfPrefix(d.file[..end], |d.committed|);
    if NoRollback(steps) {
      FileGrows(d, steps);
      assert d.file[..end] == d'.committed[..end];
      assert d.file[..n] == d.file[..end][..n] == d'.committed[..end][..n] == d'.committed[..n];
    } else {
      WholeEndBelow(d.file, end);
      assert d.file[..n] == d.committed == d'.committed[..n];
    }
  }

  /**
   The reader's guarantee. With a safe gap, a read from a boundary inside the committed log fails on
   an empty marker file, or it returns committed bytes only, everything committed when the file was
   read, and ends on a line boundary.
   */
  lemma {:induction false} ConfirmedReadIsCommitted(d: Disk, w1: seq<Step>, w2: seq<Step>, from: nat)
    requires Inv(d) && SafeGap(Run(d, w1), w2)
    requires from <= |d.committed| && Whole(d.committed[..from])
    ensures var r := LiveRead(d, w1, w2, from);
            var d1 := Run(d, w1);
            var d2 := Run(d1, w2);
            && Inv(d2) && (r.Corrupt? <==> SamplesUnfinished(d, w1, w2))
            && (r.Confirmed? ==>
                  && from <= r.nextOffset <= |d2.committed| && Whole(d2.committed[..r.nextOffset])
                  && r.bytes == d2.committed[from..r.nextOffset]
                  && |d1.committed| <= r.nextOffset)
  {
    hide WholeEnd, Confirm, Run, SafeGap;
    var d1 := Run(d, w1);
    var d2 := Run(d1, w2);
    RunKeepsInv(d, w1);
    VisibleIsCommitted(d1, w2);
    LiveReadFailsIff(d, w1, w2, from);
    assert d.committed[..from] == d2.committed[..from];
    if !SamplesUnfinished(d, w1, w2) {
      ConfirmAgainst(d.marker, d1.file, d2.marker, from, d2.committed);
    }
  }

  // ------------------------------------------------ the exact limit of that guarantee

  /** The bytes a read shows past `from` are bytes the log still has at the marker sample. */
  ghost predicate ShowsCommittedOnly(d1: Disk, w2: seq<Step>, from: nat) {
    var d2 := Run(d1, w2);
    var r := Confirm(None, d1.file, d2.marker, from);
    r.Confirmed? && from <= r.nextOffset <= |d2.committed| && r.bytes == d2.committed[from..r.nextOffset]
  }

  /** What the writer's successor does when it finds an interrupted batch. */
  const TAKE_OVER := [Crash, Acquire, Truncate, RemoveMarker]

  lemma {:induction false} TakeOverDiscards(d: Disk)
    requires Inv(d) && |d.committed| < |d.file|
    ensures var d' := Run(d, TAKE_OVER); d'.marker.None? && d'.committed == d.committed
  {
    var a := Next(d, Crash);
    var b := Next(a, Acquire);
    var c := Next(b, Truncate);
    var e := Next(c, RemoveMarker);
    assert TAKE_OVER[1..] == [Acquire, Truncate, RemoveMarker];
    assert Run(d, TAKE_OVER) == Run(a, [Acquire, Truncate, RemoveMarker]);
    assert [Acquire, Truncate, RemoveMarker][1..] == [Truncate, RemoveMarker];
    assert [Truncate, RemoveMarker][1..] == [RemoveMarker];
    assert Run(b, [Truncate, RemoveMarker]) == Run(c, [RemoveMarker]) == Run(e, []);
  }

  /**
   Whatever the writers do after the file is read, the read shows committed bytes only, exactly
   when the file held no complete provisional line at that moment. In the other case a writer
   that dies and is rolled back before the marker is sampled makes the reader show lines that
   no longer exist.
   */
  lemma {:induction false} SafeIffNoCompleteProvisionalLine(d1: Disk, from: nat)
    requires Inv(d1)
    requires from <= |d1.committed| && Whole(d1.committed[..from])
    ensures (forall w2 :: ShowsCommittedOnly(d1, w2, from)) <==> WholeEnd(d1.file) == |d1.committed|
  {
    hide WholeEnd;
    hide Confirm;
    assert d1.file[..from] == d1.committed[..from];
    assert d1.file[..|d1.committed|] == d1.committed;
    WholeEndOfPrefix(d1.file, |d1.committed|);
    if WholeEnd(d1.file) == |d1.committed| {
      forall w2 ensures ShowsCommittedOnly(d1, w2, from) {
        ShowsCommittedWithoutProvisional(d1, w2, from);
      }
    } else {
      TakeOverDiscards(d1);
      assert d1.file[..|d1.file|] == d1.file;
      ConfirmIsConfirmed(d1.file, None, from);
      ConfirmAt(None, d1.file, None, from);
      assert !ShowsCommittedOnly(d1, TAKE_OVER, from);
    }
  }

  lemma {:induction false} ConfirmIsConfirmed(raw: seq<byte>, after: Option<Marker>, from: nat)
    ensures Confirm(None, raw, after, from).Confirmed?
  {
  }

  lemma {:induction false} ShowsCommittedWithoutProvisional(d1: Disk, w2: seq<Step>, from: nat)
    requires Inv(d1) && WholeEnd(d1.file) == |d1.committed|
    requires from <= |d1.committed| && Whole(d1.committed[..from])
    ensures ShowsCommittedOnly(d1, w2, from)
  {
    hide WholeEnd;
    hide Confirm;
    hide Run;
    var d2 := Run(d1, w2);
    RunKeepsInv(d1, w2);
    var end := VisibleEnd(d1.file, d2.marker);
    var n := WholeEnd(d1.file[..end]);
    assert d1.file[..end][..n] == d1.file[..n];
    WholeEndOfPrefix(d1.file, n);
    assert d1.file[..n] == d1.committed[..n] == d2.committed[..n];
    assert d1.file[..end][..from] == d1.committed[..from] == d2.committed[..from];
    WholeEndOfPrefix(d1.file[..end], from);
    ConfirmIsConfirmed(d1.file, d2.marker, from);
    ConfirmAgainst(None, d1.file, d2.marker, from, d2.committed);
  }

  // ------------------------------------------------ what a fold from a live read holds

  lemma {:induction false} SplitPrefix(b: seq<byte>, n: nat)
    requires n <= |b| && Whole(b[..n])
    ensures Split(b[..n]) <= Split(b)
  {
    hide Split;
    assert b == b[..n] + b[n..];
    SplitAppend(b[..n], b[n..]);
  }

  /** Where a marker leaves the committed bytes visible, the lines up to it are between those and the file's. */
  lemma {:induction false} VisibleLines(d: Disk, after: Option<Marker>)
    requires Inv(d) && (after.Some? ==> |d.committed| <= after.value.offset)
    ensures var n := WholeEnd(d.file[..VisibleEnd(d.file, after)]);
            && Split(d.committed) <= Split(d.file[..n]) <= Split(d.file)
            && (after.None? ==> Split(d.file[..n]) == Split(d.file))
  {
    hide WholeEnd, Split;
    var raw, end, m := d.file, VisibleEnd(d.file, after), |d.committed|;
    var n := WholeEnd(raw[..end]);
    assert raw[..n] == raw[..end][..n] && raw[..end][..m] == d.committed;
    WholeEndOfPrefix(raw[..end], m);
    assert raw[..n][..m] == d.committed;
    SplitPrefix(raw[..n], m);
    SplitPrefix(raw, n);
    if after.None? {
      assert raw[..end] == raw;
      SplitWholeEnd(raw);
    }
  }

  /**
   The events a read from the start returns, if it does not fail, lie between those committed and
   those complete when the file was read; without a marker they are all of the latter; with a safe
   gap they are committed events. This is the read of Writers, in bytes.
   */
  lemma {:induction false} ReadIsBetween(d: Disk, w1: seq<Step>, w2: seq<Step>)
    requires Inv(d)
    ensures var r := LiveRead(d, w1, w2, 0);
            var d1 := Run(d, w1);
            var d2 := Run(d1, w2);
            && (r.Corrupt? <==> SamplesUnfinished(d, w1, w2))
            && (r.Confirmed? ==>
                  && Split(d1.committed) <= Split(r.bytes) <= Split(d1.file)
                  && (d2.marker.None? ==> Split(r.bytes) == Split(d1.file))
                  && (SafeGap(d1, w2) ==> Split(r.bytes) <= Split(d2.committed)))
  {
    hide WholeEnd, Confirm, Run, Split, SafeGap, Inv;
    var d1 := Run(d, w1);
    var d2 := Run(d1, w2);
    RunKeepsInv(d, w1);
    LiveReadFailsIff(d, w1, w2, 0);
    var r := LiveRead(d, w1, w2, 0);
    if !SamplesUnfinished(d, w1, w2) {
      ConfirmAt(d.marker, d1.file, d2.marker, 0);
      assert d1.file[0..r.nextOffset] == d1.file[..r.nextOffset];
      RunKeepsInv(d1, w2);
      VisibleLines(d1, d2.marker);
      if SafeGap(d1, w2) {
        VisibleIsCommitted(d1, w2);
        SplitPrefix(d2.committed, WholeEnd(d1.file[..VisibleEnd(d1.file, d2.marker)]));
      }
    }
  }

  /** One event in the file, its batch complete and not yet committed. */
  const PROVISIONAL: Disk := Disk([65, 10], Some(Marker(0, 0)), false, true, Appending(0, [65, 10], 2), 0, 1, [])

  /** The writer dies; its successor rolls the batch back and commits another of the same length. */
  const REPLACED: seq<Step> := TAKE_OVER
    + ([Scan] + ([CreateMarker([[66]])] + ([WriteMarker] + ([Write(2)] + [Commit]))))

  lemma {:induction false} TakenOver()
    ensures Run(PROVISIONAL, TAKE_OVER) == Disk([], None, false, true, Locked, 0, 1, [])
  {
    hide Run;
    var a := Next(PROVISIONAL, Crash);
    var b := Next(a, Acquire);
    var c := Next(b, Truncate);
    RunCons(PROVISIONAL, Crash, [Acquire] + ([Truncate] + [RemoveMarker]));
    RunCons(a, Acquire, [Truncate] + [RemoveMarker]);
    RunCons(b, Truncate, [RemoveMarker]);
    RunCons(c, RemoveMarker, []);
    assert TAKE_OVER == [Crash] + ([Acquire] + ([Truncate] + [RemoveMarker]));
  }

  /** A ready writer creates the marker and fills it. */
  lemma {:induction false} Begins(d: Disk, lines: seq<Line>)
    requires d.writer.Ready? && !d.unfinished && lines != [] && AllWritable(lines)
    ensures Next(Next(d, CreateMarker(lines)), WriteMarker)
            == d.(marker := Some(Marker(d.nextId, d.writer.size)), nextId := d.nextId + 1,
                  writer := Appending(d.writer.size, Frame(lines), 0))
  {
  }

  lemma {:induction false} Replaced()
    ensures Run(PROVISIONAL, REPLACED) == Disk([66, 10], None, false, true, Ready(2), 0, 2, [66, 10])
  {
    hide Run, Frame, AllWritable, Split;
    TakenOver();
    var batch: seq<Line> := [[66]];
    var more := [CreateMarker(batch)] + ([WriteMarker] + ([Write(2)] + [Commit]));
    var d := Disk([], None, false, true, Locked, 0, 1, []);
    RunAppend(PROVISIONAL, TAKE_OVER, [Scan] + more);
    OneLine(66);
    var a := d.(writer := Ready(0));
    assert Next(d, Scan) == a;
    Begins(a, batch);
    var b := a.(marker := Some(Marker(1, 0)), nextId := 2, writer := Appending(0, [66, 10], 0));
    var c := b.(file := [66, 10], writer := Appending(0, [66, 10], 2));
    assert [] + [66 as byte, 10][0..2] == [66, 10];
    assert Next(b, Write(2)) == c;
    assert Next(c, Commit) == Disk([66, 10], None, false, true, Ready(2), 0, 2, [66, 10]);
    hide Next;
    RunCons(d, Scan, more);
    RunCons(a, CreateMarker(batch), [WriteMarker] + ([Write(2)] + [Commit]));
    RunCons(Next(a, CreateMarker(batch)), WriteMarker, [Write(2)] + [Commit]);
    RunCons(b, Write(2), [Commit]);
    RunCons(c, Commit, []);
  }

  /**
   The run that shows it: the read returns one event and the log holds one event, so the heads
   are equal; but they are not the same event.
   */
  lemma {:induction false} EqualHeadsDifferentLogs()
    ensures Inv(PROVISIONAL)
    ensures LiveRead(PROVISIONAL, [], REPLACED, 0).Confirmed?
             && LiveRead(PROVISIONAL, [], REPLACED, 0).bytes == [65, 10]
    ensures Run(PROVISIONAL, REPLACED).committed == [66, 10]
    ensures Split([65, 10]) == [[65]] && Split([66, 10]) == [[66]]
  {
    hide Split;
    Replaced();
    assert Run(PROVISIONAL, []) == PROVISIONAL;
    var raw: seq<byte> := [65, 10];
    assert raw[..2] == raw && raw[0..2] == raw && Whole(raw) && WholeEnd(raw) == 2;
    OneLine(65);
    OneLine(66);
  }

  lemma {:induction false} OneLine(b: byte)
    requires !IsSpace(b)
    ensures Frame([[b]]) == [b, LF] && AllWritable([[b]]) && Split([b, LF]) == [[b]]
  {
    hide Split;
    var lines: seq<Line> := [[b]];
    assert lines[1..] == [] && lines[0] + [LF] + Frame([]) == [b, LF];
    assert !IsSpace(lines[0][0]) && Writable(lines[0]);
    SplitFrame(lines);
  }

  // ------------------------------------------------ an empty marker file

  /** A healthy writer with one committed event, about to append another. */
  const BEFORE: Disk := Disk([65, 10], None, false, true, Ready(2), 0, 1, [65, 10])

  /** It has created the marker file. */
  const BETWEEN: Disk := Disk([65, 10], None, true, true, Marking(2, [66, 10]), 0, 1, [65, 10])

  lemma {:induction false} BetweenIsNext()
    ensures Inv(BEFORE) && Inv(BETWEEN) && Next(BEFORE, CreateMarker([[66]])) == BETWEEN
  {
    OneLine(66);
    hide Frame, AllWritable;
  }

  /** The run that fails a reader: beside a healthy writer, between the two steps, nothing can be read. */
  lemma {:induction false} ReadFailsBesideALiveWriter(from: nat)
    ensures Inv(BETWEEN) && !Stuck(BETWEEN)
    ensures LiveRead(BETWEEN, [], [], from).Corrupt? && LiveRead(BEFORE, [], [CreateMarker([[66]])], from).Corrupt?
  {
    BetweenIsNext();
    RunCons(BEFORE, CreateMarker([[66]]), []);
    assert Run(BEFORE, []) == BEFORE;
  }

  /** And the run that locks everybody out: the writer dies there. */
  lemma {:induction false} DeathBetweenLocksTheLog()
    ensures Inv(BEFORE) && !Stuck(BEFORE) && DiesBetween(BEFORE, [CreateMarker([[66]])] + [Crash])
    ensures !CanReopen(Run(BEFORE, [CreateMarker([[66]])] + [Crash]))
  {
    hide Run;
    BetweenIsNext();
    RunCons(BEFORE, CreateMarker([[66]]), [Crash]);
    RunCons(BETWEEN, Crash, []);
    assert ([CreateMarker([[66]])] + [Crash])[1..] == [Crash];
    assert DiesBetween(BETWEEN, [Crash]);
    var dead := Next(BETWEEN, Crash);
    StepKeepsInv(BETWEEN, Crash);
    forall more: seq<Step> ensures !Run(dead, more).writer.Ready? {
      StuckForGood(dead, more);
    }
  }
}
