/**
 Why successive reads of one job see growing records (cmd/arxi/host_storage.go readFilesystemRecords
 over logstore.ReadConfirmed): JobStore.Growing, derived from the lock-free read.
 */
module ReadsGrow {
  import opened Bytes
  import opened Lines
  import opened CommitLog
  import opened Attach
  import JobStore

  /** readFilesystemRecords: an error if a marker sample is one or a line is out of place. */
  function RecordsRead(r: ConfirmedRead, seqOf: Line -> Option<int>): Option<seq<JobStore.Record>> {
    if r.Corrupt? || !JobStore.AllInPlace(Split(r.bytes), seqOf) then None else Some(JobStore.RecordsOf(Split(r.bytes)))
  }

  /** What the reads that succeed return, one after the other, each from the start of the file. */
  function Reads(d: Disk, schedule: seq<Pass>, seqOf: Line -> Option<int>): seq<seq<JobStore.Record>>
    decreases |schedule|
  {
    if schedule == [] then []
    else
      var later := Reads(Passed(d, schedule[0]), schedule[1..], seqOf);
      match RecordsRead(ReadIn(d, schedule[0], 0), seqOf)
      case None => later
      case Some(records) => [records] + later
  }

  /** How many of the reads sample an empty marker file. */
  function Failures(d: Disk, schedule: seq<Pass>): nat
    decreases |schedule|
  {
    if schedule == [] then 0
    else (if ReadFails(d, schedule[0]) then 1 else 0) + Failures(Passed(d, schedule[0]), schedule[1..])
  }

  /** The directory after all of them. */
  function After(d: Disk, schedule: seq<Pass>): Disk
    decreases |schedule|
  {
    if schedule == [] then d else After(Passed(d, schedule[0]), schedule[1..])
  }

  lemma {:induction false} MoreLinesMoreRecords(a: seq<Line>, b: seq<Line>)
    requires a <= b
    ensures JobStore.RecordsOf(a) <= JobStore.RecordsOf(b)
  {
    hide JobStore.Trim;
    assert forall i | 0 <= i < |a| :: a[i] == b[i];
  }

  lemma {:induction false} InvIsWhole(d: Disk)
    requires Inv(d)
    ensures Whole(d.committed)
  {
  }

  lemma {:induction false} AfterGrows(d: Disk, schedule: seq<Pass>)
    requires Inv(d)
    ensures Split(d.committed) <= Split(After(d, schedule).committed)
    decreases |schedule|
  {
    hide Split, Inv, Passed;
    if schedule != [] {
      var d' := Passed(d, schedule[0]);
      PassKeepsInv(d, schedule[0]);
      InvIsWhole(d);
      assert d'.committed[..|d.committed|] == d.committed;
      SplitPrefix(d'.committed, |d.committed|);
      AfterGrows(d', schedule[1..]);
    }
  }

  lemma {:induction false} PrefixInPlace<Body(!new)>(c: JobStore.Codec<Body>, lines: seq<Line>, log: seq<Line>)
    requires JobStore.Lawful(c) && JobStore.WellNumbered(c, log) && lines <= log
    ensures JobStore.AllInPlace(lines, c.seqOf)
  {
    hide JobStore.Trim, JobStore.Lawful;
    assert forall i | 0 <= i < |lines| :: lines[i] == log[i];
    JobStore.WellNumberedTrims(c, lines);
  }

  /** One read of a log with numbers in place: it fails by an empty marker file and by nothing else. */
  lemma {:induction false} OneReadSucceeds<Body(!new)>(c: JobStore.Codec<Body>, d: Disk, p: Pass, log: seq<Line>)
    requires Inv(d) && SafePass(d, p)
    requires JobStore.Lawful(c) && JobStore.WellNumbered(c, log) && Split(Passed(d, p).committed) <= log
    ensures var r := RecordsRead(ReadIn(d, p, 0), c.seqOf);
            && (r.None? <==> ReadFails(d, p))
            && (r.Some? ==> JobStore.RecordsOf(Split(d.committed)) <= r.value
                              <= JobStore.RecordsOf(Split(Passed(d, p).committed)))
    ensures JobStore.RecordsOf(Split(d.committed)) <= JobStore.RecordsOf(Split(Passed(d, p).committed))
  {
    hide Split, Run, ReadIn, Inv, SafePass, Passed, ReadFails, JobStore.RecordsOf, JobStore.Lawful,
        JobStore.WellNumbered, JobStore.AllInPlace;
    NothingShown(d);
    ReadExtends(d, p, 0, []);
    PassKeepsInv(d, p);
    InvIsWhole(d);
    assert Run(d, p.beforeLock).committed[..|d.committed|] == d.committed == Passed(d, p).committed[..|d.committed|];
    SplitPrefix(Run(d, p.beforeLock).committed, |d.committed|);
    SplitPrefix(Passed(d, p).committed, |d.committed|);
    MoreLinesMoreRecords(Split(d.committed), Split(Passed(d, p).committed));
    var r := ReadIn(d, p, 0);
    if r.Confirmed? {
      assert [] + Split(r.bytes) == Split(r.bytes);
      PrefixInPlace(c, Split(r.bytes), log);
      MoreLinesMoreRecords(Split(d.committed), Split(r.bytes));
      MoreLinesMoreRecords(Split(r.bytes), Split(Passed(d, p).committed));
    }
  }

  /**
   If no read races a rollback, whatever is appended in between, the records read only grow, and a
   read of a log whose events carry their numbers fails only by sampling an empty marker file.
   */
  lemma {:induction false} ReadsAreGrowing<Body(!new)>(c: JobStore.Codec<Body>, d: Disk, schedule: seq<Pass>)
    requires Inv(d) && RaceFree(d, schedule)
    requires JobStore.Lawful(c) && JobStore.WellNumbered(c, Split(After(d, schedule).committed))
    ensures var logs := Reads(d, schedule, c.seqOf);
            && JobStore.Growing(logs) && |logs| + Failures(d, schedule) == |schedule|
            && (logs != [] ==> JobStore.RecordsOf(Split(d.committed)) <= logs[0])
    decreases |schedule|
  {
    hide Split, ReadIn, Inv, SafePass, Passed, RecordsRead, ReadFails, JobStore.RecordsOf, JobStore.Lawful,
        JobStore.WellNumbered;
    if schedule != [] {
      var p, d' := schedule[0], Passed(d, schedule[0]);
      PassKeepsInv(d, p);
      AfterGrows(d', schedule[1..]);
      OneReadSucceeds(c, d, p, Split(After(d, schedule).committed));
      ReadsAreGrowing(c, d', schedule[1..]);
      var later := Reads(d', schedule[1..], c.seqOf);
      var r := RecordsRead(ReadIn(d, p, 0), c.seqOf);
      if r.Some? {
        OneMoreGrowing(r.value, later);
      }
    }
  }

  lemma {:induction false} OneMoreGrowing(log: seq<JobStore.Record>, later: seq<seq<JobStore.Record>>)
    requires JobStore.Growing(later) && (later != [] ==> log <= later[0])
    ensures JobStore.Growing([log] + later)
  {
    var logs := [log] + later;
    forall i | 0 < i < |logs| ensures logs[i - 1] <= logs[i] {
      if i > 1 {
        assert later[i - 2] <= later[i - 1];
      }
    }
  }

  /**
   So a chain of pages, in which a read that sampled an empty marker file is tried again from the same
   position, is refused nowhere and never skips or repeats a record.
   */
  lemma {:induction false} ChainedReadsAreSound<Body(!new)>(c: JobStore.Codec<Body>, d: Disk, schedule: seq<Pass>,
                                                            limits: seq<int>, i: nat)
    requires Inv(d) && RaceFree(d, schedule)
    requires JobStore.Lawful(c) && JobStore.WellNumbered(c, Split(After(d, schedule).committed))
    requires |limits| + Failures(d, schedule) == |schedule| && i < |limits|
    ensures var logs := Reads(d, schedule, c.seqOf);
            |logs| == |limits|
            && var pages := JobStore.Chain(logs, limits, 0, JobStore.NoToken);
            |pages| == |limits| && JobStore.Concat(pages[..i + 1]) <= logs[i]
            && (pages[i].end <==> JobStore.Concat(pages[..i + 1]) == logs[i])
  {
    hide RaceFree, Reads, Failures, After, Split, JobStore.Chain, JobStore.Lawful, JobStore.WellNumbered;
    ReadsAreGrowing(c, d, schedule);
    JobStore.ReadsFromZero(Reads(d, schedule, c.seqOf), limits, i);
  }

  /** Two reads, the first of which races a rollback and a replacement. */
  const RACING: seq<Pass> := [Pass([], [], [], REPLACED)] + [Pass([], [], [], [])]

  /** Without the condition they need not grow: the first record read is not the first record read next. */
  lemma {:induction false} RacingReadsDoNotGrow(seqOf: Line -> Option<int>)
    requires seqOf([65]) == seqOf([66]) == Some(1)
    ensures Inv(PROVISIONAL) && Failures(PROVISIONAL, RACING) == 0 && |Reads(PROVISIONAL, RACING, seqOf)| == 2
    ensures !JobStore.Growing(Reads(PROVISIONAL, RACING, seqOf))
  {
    hide Split, JobStore.Trim, Run, ReadIn, WholeEnd, ReadFails;
    EqualHeadsDifferentLogs();
    FirstRacing();
    LettersAreKept(65);
    LettersAreKept(66);
    var d, later := Passed(PROVISIONAL, RACING[0]), [Pass([], [], [], [])];
    assert RACING[1..] == later;
    assert later[1..] == [];
    assert JobStore.InPlace([[65]], seqOf, 0) && JobStore.InPlace([[66]], seqOf, 0);
    assert Reads(d, later, seqOf) == [JobStore.RecordsOf([[66]])];
    var logs: seq<seq<JobStore.Record>> := Reads(PROVISIONAL, RACING, seqOf);
    assert logs == [JobStore.RecordsOf([[65]])] + [JobStore.RecordsOf([[66]])];
    assert logs[0][0].data == [65] && logs[1][0].data == [66];
    assert !(logs[0] <= logs[1]);
  }

  lemma {:induction false} FirstRacing()
    ensures ReadIn(PROVISIONAL, RACING[0], 0).Confirmed? && ReadIn(PROVISIONAL, RACING[0], 0).bytes == [65, 10]
    ensures ReadIn(Passed(PROVISIONAL, RACING[0]), RACING[1], 0) == Confirmed([66, 10], 2, false, 0)
    ensures !ReadFails(PROVISIONAL, RACING[0]) && !ReadFails(Passed(PROVISIONAL, RACING[0]), RACING[1])
  {
    EqualHeadsDifferentLogs();
    Replaced();
    assert Run(PROVISIONAL, []) == PROVISIONAL;
    var d := Passed(PROVISIONAL, RACING[0]);
    assert d == Disk([66, 10], None, false, true, Ready(2), 0, 2, [66, 10]) && Run(d, []) == d;
    var raw: seq<byte> := [66, 10];
    assert raw[..2] == raw && raw[0..2] == raw && WholeEnd(raw) == 2;
  }

  lemma {:induction false} LettersAreKept(b: byte)
    requires 65 <= b < 127
    ensures JobStore.Trim([b]) == [b]
  {
  }
}
