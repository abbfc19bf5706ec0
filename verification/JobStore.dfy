/**
 Filesystem job storage (cmd/arxi/host_storage.go) and the two readers that page through it
 (host/v1/backend.go readEvents, host/v1/storage_subscription.go).

 The JSON codec is a parameter: all that is used of it is that the sequence number written into
 a line can be read back from it.
 */
module JobStore {
  import opened Bytes
  import opened Lines

  datatype Outcome<T> = Ok(value: T) | Err(error: Error)
  datatype Error = Conflict | Broken | Gap(got: int, want: nat) | Rejected

  datatype Record = Record(sequence: int, data: seq<byte>)

  /** encode: json.Marshal of an event carrying that seq; seqOf: the header Unmarshal. */
  datatype Codec<!Body> = Codec(encode: (nat, Body) -> Line, seqOf: Line -> Option<int>)

  ghost predicate Lawful<Body(!new)>(c: Codec<Body>) {
    forall n: nat, b: Body :: Writable(c.encode(n, b)) && Trim(c.encode(n, b)) == c.encode(n, b)
                              && c.seqOf(c.encode(n, b)) == Some(n as int)
  }

  /** bytes.TrimSpace. */
  function Trim(line: Line): Line
    decreases |line|
  {
    if SpaceLen(line) > 0 then Trim(line[SpaceLen(line)..])
    else if SpaceEnd(line) > 0 then Trim(line[..|line| - SpaceEnd(line)])
    else line
  }

  // ---------------------------------------------------------------- the record loop

  /** The i-th line carries sequence i + 1. */
  predicate InPlace(lines: seq<Line>, seqOf: Line -> Option<int>, i: nat)
    requires i < |lines|
  {
    seqOf(Trim(lines[i])) == Some(i + 1)
  }

  predicate AllInPlace(lines: seq<Line>, seqOf: Line -> Option<int>) {
    forall i | 0 <= i < |lines| :: InPlace(lines, seqOf, i)
  }

  function RecordAt(lines: seq<Line>, i: nat): Record
    requires i < |lines|
  {
    Record(i + 1, Trim(lines[i]))
  }

  function RecordsOf(lines: seq<Line>): seq<Record> {
    seq(|lines|, i requires 0 <= i < |lines| => RecordAt(lines, i))
  }

  /** readFilesystemRecords: all lines or the first one that is out of place. */
  method ReadRecords(bytes: seq<byte>, seqOf: Line -> Option<int>) returns (r: Outcome<seq<Record>>)
    ensures r.Ok? <==> AllInPlace(Split(bytes), seqOf)
    ensures r.Ok? ==> r.value == RecordsOf(Split(bytes))
    ensures r.Err? ==> exists i | 0 <= i < |Split(bytes)| :: !InPlace(Split(bytes), seqOf, i)
                         && (forall j | 0 <= j < i :: InPlace(Split(bytes), seqOf, j))
                         && r.error == match seqOf(Trim(Split(bytes)[i])) case None => Broken case Some(n) => Gap(n,
                               i + 1)
  {
    hide Split, Trim;
    ghost var lines := Split(bytes);
    var body := bytes;
    var records: seq<Record> := [];
    var expected := 1;
    while FirstLF(body) < |body|
      invariant expected == |records| + 1 && |records| <= |lines|
      invariant lines[|records|..] == Split(body)
      invariant forall i | 0 <= i < |records| :: InPlace(lines, seqOf, i) && records[i] == RecordAt(lines, i)
      decreases |body|
    {
      var index := FirstLF(body);
      SplitUnfold(body);
      var line := body[..index];
      body := body[index + 1..];
      if !Blank(line) {
        assert lines[|records|] == line;
        assert seqOf(Trim(line)) != Some(expected) ==> !InPlace(lines, seqOf, |records|);
        match seqOf(Trim(line)) {
          case None => return Err(Broken);
          case Some(n) =>
            if n != expected {
              return Err(Gap(n, expected));
            }
        }
        records := records + [Record(expected, Trim(line))];
        expected := expected + 1;
      }
    }
    SplitUnfold(body);
    return Ok(records);
  }

  // ---------------------------------------------------------------- pages

  /** The resume token: "", "fs1:<n>", or anything else a caller may send. */
  datatype Token = NoToken | Resume(after: int) | Foreign

  datatype Read = Read(after: int, token: Token, limit: int)

  datatype Page = Page(records: seq<Record>, after: nat, token: Token, revision: nat, end: bool)

  /** ReadConfirmed once the records are in hand. */
  function ReadConfirmed(records: seq<Record>, read: Read): Outcome<Page> {
    if read.after < 0 || (read.token != NoToken && read.token != Resume(read.after)) then Err(Conflict)
    else if read.after > |records| then Err(Conflict)
    else
      var start := read.after;
      var stop := if read.limit > 0 && |records| - start > read.limit then start + read.limit else |records|;
      Ok(Page(records[start..stop], stop, if stop < |records| then Resume(stop) else NoToken,
              |records|, stop == |records|))
  }

  function Min(a: int, b: int): int {
    if a < b then a else b
  }

  predicate Growing(logs: seq<seq<Record>>) {
    forall i | 0 < i < |logs| :: logs[i - 1] <= logs[i]
  }

  /** Chained reads: read i sees logs[i] and resumes where read i - 1 stopped; an error ends it. */
  function Chain(logs: seq<seq<Record>>, limits: seq<int>, after: int, token: Token): seq<Page>
    requires |logs| == |limits|
    decreases |logs|
  {
    if logs == [] then [] else
      match ReadConfirmed(logs[0], Read(after, token, limits[0]))
      case Err(_) => []
      case Ok(page) => [page] + Chain(logs[1..], limits[1..], page.after, page.token)
  }

  function Concat(pages: seq<Page>): seq<Record> {
    if pages == [] then [] else pages[0].records + Concat(pages[1..])
  }

  /** Page i of a chain: what it and the pages before it delivered, and what its token says. */
  ghost predicate PageTells(log: seq<Record>, pages: seq<Page>, i: nat, after: nat)
    requires i < |pages|
  {
    && after <= pages[i].after <= |log|
    && Concat(pages[..i + 1]) == log[after..pages[i].after]
    && (pages[i].token == NoToken <==> pages[i].after == |log|)
    && (pages[i].end <==> pages[i].after == |log|)
    && pages[i].revision == |log|
  }

  /**
   Whatever is appended between the reads, no chained read fails, and after each the pages so
   far concatenate to a prefix of the log (nothing skipped, nothing twice), with an empty token
   exactly at the end of it.
   */
  lemma {:induction false} ChainIsAPrefix(logs: seq<seq<Record>>, limits: seq<int>, after: nat, token: Token)
    requires |logs| == |limits| && Growing(logs)
    requires token == NoToken || token == Resume(after)
    requires logs != [] ==> after <= |logs[0]|
    ensures var pages := Chain(logs, limits, after, token);
            |pages| == |logs| && forall i | 0 <= i < |logs| :: PageTells(logs[i], pages, i, after)
    decreases |logs|
  {
    hide ReadConfirmed, PageTells, Concat;
    if logs != [] {
      ReadStep(logs[0], after, token, limits[0]);
      var page := ReadConfirmed(logs[0], Read(after, token, limits[0])).value;
      var tail := Chain(logs[1..], limits[1..], page.after, page.token);
      var pages := [page] + tail;
      assert |logs| > 1 ==> logs[0] <= logs[1];
      ChainIsAPrefix(logs[1..], limits[1..], page.after, page.token);
      assert Chain(logs, limits, after, token) == pages;
      forall i | 0 <= i < |logs| ensures PageTells(logs[i], pages, i, after) {
        LaterLogKeeps(logs, i);
        if i > 0 {
          assert logs[1..][i - 1] == logs[i];
          assert PageTells(logs[1..][i - 1], tail, i - 1, page.after);
        }
        PrependPage(logs[i], page, tail, i, after);
      }
    }
  }

  /** A read from a position inside the log, resumed properly or not at all. */
  lemma {:induction false} ReadStep(log: seq<Record>, after: nat, token: Token, limit: int)
    requires after <= |log| && (token == NoToken || token == Resume(after))
    ensures var r := ReadConfirmed(log, Read(after, token, limit));
            && r.Ok? && after <= r.value.after <= |log| && r.value.records == log[after..r.value.after]
            && (r.value.token == NoToken || r.value.token == Resume(r.value.after))
            && (r.value.token == NoToken <==> r.value.after == |log|) && (r.value.end <==> r.value.after == |log|)
            && r.value.revision == |log|
            && (limit > 0 ==> r.value.after == Min(after + limit, |log|))
  {
  }

  /** One page in front of a chain that starts where it stopped. */
  lemma {:induction false} PrependPage(log: seq<Record>, page: Page, tail: seq<Page>, i: nat, after: nat)
    requires i <= |tail| && after <= page.after <= |log| && page.records == log[after..page.after]
    requires i > 0 ==> PageTells(log, tail, i - 1, page.after)
    requires i == 0 ==> page.revision == |log| && (page.end <==> page.after == |log|)
                        && (page.token == NoToken <==> page.after == |log|)
    ensures PageTells(log, [page] + tail, i, after)
  {
    var pages := [page] + tail;
    assert pages[..i + 1][0] == page && pages[..i + 1][1..] == tail[..i];
    assert Concat(pages[..i + 1]) == page.records + Concat(tail[..i]);
    if i > 0 {
      assert tail[..i - 1 + 1] == tail[..i];
      assert log[after..tail[i - 1].after] == page.records + log[page.after..tail[i - 1].after];
    }
  }

  lemma {:induction false} LaterLogKeeps(logs: seq<seq<Record>>, i: nat)
    requires Growing(logs) && i < |logs|
    ensures logs[0] <= logs[i]
  {
    if i > 0 {
      LaterLogKeeps(logs, i - 1);
    }
  }

  /** From an empty position: the concatenation is a prefix of the log, every record in order. */
  lemma {:induction false} ReadsFromZero(logs: seq<seq<Record>>, limits: seq<int>, i: nat)
    requires |logs| == |limits| && Growing(logs) && i < |logs|
    ensures |Chain(logs, limits, 0, NoToken)| == |logs|
    ensures Concat(Chain(logs, limits, 0, NoToken)[..i + 1]) <= logs[i]
    ensures Chain(logs, limits, 0, NoToken)[i].end <==> Concat(Chain(logs, limits, 0, NoToken)[..i + 1]) == logs[i]
  {
    ChainIsAPrefix(logs, limits, 0, NoToken);
    assert PageTells(logs[i], Chain(logs, limits, 0, NoToken), i, 0);
  }

  function Sum(limits: seq<int>): int {
    if limits == [] then 0 else limits[0] + Sum(limits[1..])
  }

  lemma {:induction false} SumPositive(limits: seq<int>)
    requires forall i | 0 <= i < |limits| :: limits[i] > 0
    ensures Sum(limits) >= |limits|
  {
    if limits != [] {
      SumPositive(limits[1..]);
    }
  }

  function Fixed(log: seq<Record>, n: nat): (logs: seq<seq<Record>>)
    ensures |logs| == n && forall i | 0 <= i < n :: logs[i] == log
  {
    if n == 0 then [] else [log] + Fixed(log, n - 1)
  }

  lemma {:induction false} ChainReaches(log: seq<Record>, limits: seq<int>, after: nat, token: Token, i: nat)
    requires forall j | 0 <= j < |limits| :: limits[j] > 0
    requires after <= |log| && (token == NoToken || token == Resume(after)) && i < |limits|
    ensures var pages := Chain(Fixed(log, |limits|), limits, after, token);
            i < |pages| && pages[i].after == Min(after + Sum(limits[..i + 1]), |log|)
    decreases i
  {
    hide ReadConfirmed;
    ReadStep(log, after, token, limits[0]);
    SumPositive(limits[1..][..i]);
    var page := ReadConfirmed(log, Read(after, token, limits[0])).value;
    var logs := Fixed(log, |limits|);
    assert logs[1..] == Fixed(log, |limits[1..]|);
    assert Chain(logs, limits, after, token) == [page] + Chain(logs[1..], limits[1..], page.after, page.token);
    assert limits[..i + 1][0] == limits[0] && limits[..i + 1][1..] == limits[1..][..i];
    if i > 0 {
      ChainReaches(log, limits[1..], page.after, page.token, i - 1);
    }
  }

  /** On a log that stays put, positive limits read exactly as far as they add up to. */
  lemma {:induction false} FixedLogIsReadThrough(log: seq<Record>, limits: seq<int>, i: nat)
    requires (forall j | 0 <= j < |limits| :: limits[j] > 0) && i < |limits|
    ensures var pages := Chain(Fixed(log, |limits|), limits, 0, NoToken);
            var reached := Min(Sum(limits[..i + 1]), |log|);
            |pages| == |limits| && 0 <= reached && Concat(pages[..i + 1]) == log[..reached]
            && (pages[i].end <==> Sum(limits[..i + 1]) >= |log|)
  {
    hide Chain, Sum, Concat;
    var logs := Fixed(log, |limits|);
    ChainReaches(log, limits, 0, NoToken, i);
    ChainIsAPrefix(logs, limits, 0, NoToken);
    assert logs[i] == log && PageTells(logs[i], Chain(logs, limits, 0, NoToken), i, 0);
  }

  /** A token belongs to the position it was issued for: a later read may use it there and nowhere else. */
  lemma {:induction false} TokenIsForItsPosition(log: seq<Record>, later: seq<Record>, read: Read, after: int,
                                                 limit: int)
    requires log <= later
    ensures var r := ReadConfirmed(log, read);
            r.Ok? && r.value.token != NoToken ==>
              (ReadConfirmed(later, Read(after, r.value.token, limit)).Ok? <==> after == r.value.after)
  {
  }

  // ---------------------------------------------------------------- readers

  /**
   readEvents: page until End. Read i sees logs[i]; `done` tells whether it ended within them.
   What it returns is the log of its last read, never a mixture.
   */
  method ReadEvents(logs: seq<seq<Record>>) returns (out: seq<Record>, revision: nat, done: bool, taken: nat)
    requires Growing(logs)
    ensures taken <= |logs| && (done ==> taken > 0 && out == logs[taken - 1] && revision == |out|)
    ensures !done ==> taken == |logs| && (logs != [] ==> out <= logs[|logs| - 1] && out != logs[|logs| - 1])
    ensures !done ==> |out| == 256 * taken
  {
    out, revision, done, taken := [], 0, false, 0;
    var after, token := 0, NoToken;
    while taken < |logs|
      invariant taken <= |logs| && !done
      invariant after == |out| == 256 * taken && (token == NoToken || token == Resume(after))
      invariant taken > 0 ==> out <= logs[taken - 1] && out != logs[taken - 1]
      invariant taken == 0 ==> out == []
    {
      var r := ReadConfirmed(logs[taken], Read(after, token, 256));
      assert taken > 0 ==> logs[taken - 1] <= logs[taken];
      assert out == logs[taken][..after];
      var page := r.value;
      assert out + page.records == logs[taken][..page.after];
      out := out + page.records;
      after, token, revision := page.after, page.token, page.revision;
      taken := taken + 1;
      if page.end {
        return out, revision, true, taken;
      }
    }
  }

  /** What one turn of Subscription.Next finds. */
  datatype Poll = Closed | Cancelled | Sees(records: seq<Record>)

  /** Refused: the storage has no such position. */
  datatype Delivery = Batch(events: seq<Record>, after: nat) | Refused | Stopped | StillWaiting

  predicate GrowingFrom(log: seq<Record>, polls: seq<Poll>)
    decreases |polls|
  {
    polls == [] ||
    match polls[0]
    case Sees(records) => log <= records && GrowingFrom(records, polls[1..])
    case _ => GrowingFrom(log, polls[1..])
  }

  function Filter(records: seq<Record>, wanted: Record -> bool): seq<Record> {
    if records == [] then []
    else (if wanted(records[0]) then [records[0]] else []) + Filter(records[1..], wanted)
  }

  lemma {:induction false} FilterCons(x: Record, rest: seq<Record>, wanted: Record -> bool)
    ensures Filter([x] + rest, wanted) == (if wanted(x) then [x] else []) + Filter(rest, wanted)
  {
    assert ([x] + rest)[1..] == rest;
  }

  lemma {:induction false} FilterAppend(a: seq<Record>, b: seq<Record>, wanted: Record -> bool)
    ensures Filter(a + b, wanted) == Filter(a, wanted) + Filter(b, wanted)
    decreases |a|
  {
    assert Filter([], wanted) == [];
    hide Filter;
    if a == [] {
      assert a + b == b;
      assert Filter([], wanted) + Filter(b, wanted) == Filter(b, wanted);
    } else {
      FilterAppend(a[1..], b, wanted);
      assert a == [a[0]] + a[1..] && a + b == [a[0]] + (a[1..] + b);
      FilterCons(a[0], a[1..] + b, wanted);
      FilterCons(a[0], a[1..], wanted);
    }
  }

  /** storageSubscription: the cursor of one subscriber. Any position may be asked for. */
  class Subscription {
    var after: int
    var token: Token
    const wanted: Record -> bool
    ghost var log: seq<Record>   // the newest log it has read

    ghost predicate Valid()
      reads this
    {
      token == NoToken || (token == Resume(after) && 0 <= after < |log|)
    }

    constructor (start: int, wanted: Record -> bool, log: seq<Record>)
      ensures Valid() && after == start && this.wanted == wanted && this.log == log
    {
      after, token, this.wanted, this.log := start, NoToken, wanted, log;
    }

    /** Next blocks until there is something after the cursor; `polls` is what its reads find. */
    method Next(polls: seq<Poll>) returns (d: Delivery, used: nat)
      requires Valid() && GrowingFrom(log, polls)
      modifies this
      ensures Valid() && old(log) <= log && used <= |polls| && GrowingFrom(log, polls[used..])
      ensures d.Batch? ==> 0 <= old(after) < d.after == after <= |log|
                           && d.events == Filter(log[old(after)..after], wanted)
      ensures !d.Batch? ==> after == old(after)
      ensures d.Batch? <==> used > 0 && polls[used - 1].Sees? && 0 <= old(after) < |polls[used - 1].records|
      ensures d.Refused? <==> used > 0 && polls[used - 1].Sees? && !(0 <= old(after) <= |polls[used - 1].records|)
      ensures d.StillWaiting? ==> used == |polls|
      ensures forall i | 0 <= i < used - 1 :: polls[i].Sees? && |polls[i].records| == old(after)
    {
      used := 0;
      while used < |polls|
        invariant Valid() && old(log) <= log && used <= |polls| && after == old(after)
        invariant GrowingFrom(log, polls[used..])
        invariant forall i | 0 <= i < used :: polls[i].Sees? && |polls[i].records| == after
      {
        var poll := polls[used];
        assert polls[used..][0] == poll && polls[used..][1..] == polls[used + 1..];
        used := used + 1;
        if !poll.Sees? {
          return Stopped, used;
        }
        log := poll.records;
        var read := ReadConfirmed(poll.records, Read(after, token, 256));
        if read.Err? {
          return Refused, used;
        }
        var page := read.value;
        var events := Filter(page.records, wanted);
        var before := after;
        after, token := page.after, page.token;
        if page.after > before {
          return Batch(events, page.after), used;
        }
      }
      return StillWaiting, used;
    }
  }

  // ---------------------------------------------------------------- the writer

  /** AppendBatch: Expected as ParseInt leaves it, whether Data changes, the records. */
  datatype AppendBatch<Body> = AppendBatch(expected: Option<int>, changesData: bool, records: seq<NewRecord<Body>>)

  /** A record handed in: the sequence on the envelope, and the event, or None if it is not one. */
  datatype NewRecord<Body> = NewRecord(sequence: int, event: Option<NewEvent<Body>>)
  datatype NewEvent<Body> = NewEvent(seq_: int, body: Body)

  datatype Appended = Appended(revision: nat, records: seq<Record>)

  /** filesystemEvents: only events nobody has numbered. */
  predicate Unnumbered<Body>(records: seq<NewRecord<Body>>) {
    forall i | 0 <= i < |records| :: records[i].sequence == 0 && records[i].event.Some?
        && records[i].event.value.seq_ == 0
  }

  function NumberedFrom<Body>(c: Codec<Body>, head: nat, records: seq<NewRecord<Body>>): (lines: seq<Line>)
    requires Unnumbered(records)
    ensures |lines| == |records|
  {
    seq(|records|, i requires 0 <= i < |records| => c.encode(head + 1 + i, records[i].event.value.body))
  }

  ghost predicate Encodes<Body(!new)>(c: Codec<Body>, n: nat, line: Line) {
    exists b :: line == c.encode(n, b)
  }

  /** Line i of the log is an event encoded with seq i + 1. */
  ghost predicate WellNumbered<Body(!new)>(c: Codec<Body>, lines: seq<Line>) {
    forall i | 0 <= i < |lines| :: Encodes(c, i + 1, lines[i])
  }

  lemma {:induction false} WellNumberedGrows<Body(!new)>(c: Codec<Body>, lines: seq<Line>,
                                                         records: seq<NewRecord<Body>>)
    requires WellNumbered(c, lines) && Unnumbered(records)
    ensures WellNumbered(c, lines + NumberedFrom(c, |lines|, records))
  {
    var all := lines + NumberedFrom(c, |lines|, records);
    forall i | 0 <= i < |all| ensures Encodes(c, i + 1, all[i]) {
      if i < |lines| {
        assert Encodes(c, i + 1, lines[i]);
      } else {
        assert all[i] == c.encode(i + 1, records[i - |lines|].event.value.body);
      }
    }
  }

  /** What Append hands back: the events as they were written. */
  function Returned(head: nat, written: seq<Line>): seq<Record> {
    seq(|written|, i requires 0 <= i < |written| => Record(head + 1 + i, written[i]))
  }

  /** The refusals that come before the log is looked at: the writer's, then the batch's. */
  function Refusal<Body>(claimHolds: bool, closed: bool, batch: AppendBatch<Body>): Option<Error> {
    if !claimHolds || closed then Some(Conflict)
    else if batch.expected.None? || batch.expected.value < 0 then Some(Conflict)
    else if batch.changesData || !Unnumbered(batch.records) then Some(Rejected)
    else None
  }

  /** filesystemJobWriter over its logstore.Store. `lines` is the committed log. */
  class FilesystemJobWriter<Body(!new)> {
    const codec: Codec<Body>
    var lines: seq<Line>
    var closed: bool
    var revision: nat

    ghost predicate Valid()
      reads this
    {
      Lawful(codec) && WellNumbered(codec, lines) && revision == |lines|
    }

    /** OpenWriter: the store reads its head from the log. */
    constructor (codec: Codec<Body>, lines: seq<Line>)
      requires Lawful(codec) && WellNumbered(codec, lines)
      ensures Valid() && this.lines == lines && this.codec == codec && !closed
    {
      this.codec, this.lines, closed, revision := codec, lines, false, |lines|;
    }

    /** claimHolds: ctx is alive and the claim, if any, validates. */
    method Append(claimHolds: bool, batch: AppendBatch<Body>) returns (r: Outcome<Appended>)
      requires Valid()
      modifies this
      ensures Valid() && closed == old(closed)
      ensures r.Ok? <==> Refusal(claimHolds, closed, batch) == None && batch.expected == Some(|old(lines)|)
      ensures r.Ok? ==> lines == old(lines) + NumberedFrom(codec, |old(lines)|, batch.records)
                        && r.value == Appended(revision, RecordsOf(lines)[|old(lines)|..])
      ensures r.Err? ==> lines == old(lines) && revision == old(revision)
                         && r.error == match Refusal(claimHolds, closed, batch) case Some(e) => e case None => Conflict
    {
      hide Lawful, NumberedFrom, RecordsOf, WellNumbered;
      var refusal := Refusal(claimHolds, closed, batch);
      if refusal.Some? {
        return Err(refusal.value);
      }
      if batch.expected.value != |lines| {
        return Err(Conflict);
      }
      var written := NumberedFrom(codec, |lines|, batch.records);
      WellNumberedGrows(codec, lines, batch.records);
      var records := Returned(|lines|, written);
      ReturnedAreTheNewest(codec, lines, written);
      lines := lines + written;
      revision := |lines|;
      return Ok(Appended(revision, records));
    }

    method Close()
      modifies this
      ensures closed && lines == old(lines) && revision == old(revision)
    {
      closed := true;
    }
  }

  lemma {:induction false} WellNumberedTrims<Body(!new)>(c: Codec<Body>, lines: seq<Line>)
    requires Lawful(c) && WellNumbered(c, lines)
    ensures AllWritable(lines)
    ensures forall i | 0 <= i < |lines| :: Trim(lines[i]) == lines[i] && InPlace(lines, c.seqOf, i)
  {
    forall i | 0 <= i < |lines| ensures Writable(lines[i]) && Trim(lines[i]) == lines[i] && InPlace(lines, c.seqOf, i) {
      assert Encodes(c, i + 1, lines[i]);
    }
  }

  lemma {:induction false} ReturnedAreTheNewest<Body(!new)>(c: Codec<Body>, lines: seq<Line>, written: seq<Line>)
    requires Lawful(c) && WellNumbered(c, lines + written)
    ensures Returned(|lines|, written) == RecordsOf(lines + written)[|lines|..]
  {
    hide Trim, Lawful, WellNumbered, InPlace;
    var all := lines + written;
    WellNumberedTrims(c, all);
    var newest := RecordsOf(all)[|lines|..];
    forall i | 0 <= i < |written| ensures newest[i] == Returned(|lines|, written)[i] {
      assert written[i] == all[|lines| + i] && newest[i] == RecordAt(all, |lines| + i);
    }
  }

  /**
   The bytes of a log this writer produced pass the record loop, whatever was appended to it:
   ReadRecords gives exactly one record per event, holding the line written.
   */
  lemma {:induction false} WrittenLogReadsBack<Body(!new)>(c: Codec<Body>, lines: seq<Line>)
    requires Lawful(c) && WellNumbered(c, lines)
    ensures Split(Frame(lines)) == lines
    ensures forall i | 0 <= i < |lines| :: InPlace(Split(Frame(lines)), c.seqOf, i)
             && RecordsOf(lines)[i] == Record(i + 1, lines[i])
  {
    WellNumberedTrims(c, lines);
    SplitFrame(lines);
  }

  /** A read after the expected revision finds exactly the records Append returned. */
  lemma {:induction false} ReadYourAppend<Body(!new)>(c: Codec<Body>, before: seq<Line>, batch: AppendBatch<Body>,
                                                      limit: int)
    requires Lawful(c) && WellNumbered(c, before) && Unnumbered(batch.records)
    requires limit <= 0 || limit >= |batch.records|
    ensures var after := before + NumberedFrom(c, |before|, batch.records);
            var page := ReadConfirmed(RecordsOf(after), Read(|before|, NoToken, limit));
            page.Ok? && page.value.end && page.value.records == RecordsOf(after)[|before|..]
            && page.value.revision == |before| + |batch.records|
            && RecordsOf(after)[..|before|] == RecordsOf(before)
  {
  }
}
