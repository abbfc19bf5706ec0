# Verification of arxi's run log and the protocols around it

arxi keeps every run in an append-only NDJSON log and derives all state by folding it. These
modules model the code that reads, follows, shares, forks and streams that log, and prove what the
comments, the design records and the tests promise about it. The reducer (`kernel.Decide`) is a
parameter throughout; the one law used of it nearly everywhere is that a terminal status absorbs
every later event. `dafny verify dfyconfig.toml` checks the whole project.

| module | what it models |
|---|---|
| `Lines` | NDJSON framing: what one batch puts in the file, and reading whole lines back |
| `CommitLog` | one writer under a lock, the commit marker that is created empty and then filled, crashes, rollback on open; lock-free confirmed reads |
| `Reducers` | the kernel as a step function with a status |
| `Locks` | the writer lock on a file that is unlocked before it is removed, and the follower's probe of it: exactly when there is one writer, and when a follower can leave |
| `Attach`, `EntryCheck` | `run attach`: a follower without a lock beside writers that append, crash and are rolled back |
| `JobStore`, `ReadsGrow` | paged confirmed reads, the job writer's conditional append, the subscription cursor |
| `Streams`, `Pumps` | event streaming on one connection: request loop, pumps, latches, teardown |
| `Writers`, `HeadChecks` | `run pause`, `run cancel` at a custom directory and `--if-seq` causes racing on one log |
| `Mailbox` | decisions handed to a resident through request and result files |
| `Utf8`, `Keys`, `KeyStreams` | the terminal-key decoder and the stream it is fed from |
| `RunTree` | `run tree`: any parent map, cycles included, as a tree with a spend total |
| `Fork` | `run fork`: a log made from a prefix of another |
| `ShortFlags`, `StartArgs` | short-flag expansion and `run start`'s command line |
| `Amounts` | confirmed spend as an exact decimal |

Interleavings are modelled as sequences of atomic actions, or as schedules of what the other
processes do in the gaps of one, and the results hold for all of them.

## Where the code and its documentation disagree

The model follows the code. Each of these is a theorem below.

* `writePending` creates `pending.commit` empty and writes its body afterwards (store.go:847-879), and
  an empty marker is an error to `readPendingMarker` (store.go:815-841). So where store.go:223-240
  promises that Open rolls an interrupted batch back, a writer that dies between the two leaves a log
  no Open accepts again, although not a byte of the batch was written; and a reader that samples the
  marker between the two fails beside a healthy writer: `run attach` leaves with exit 1, which
  attach.go:68 describes as a run that could not be read at all.
  (`CommitLog.ReopensIff`, `CommitLog.StuckForGood`, `CommitLog.DeathBetweenLocksTheLog`,
  `CommitLog.LiveReadFailsIff`, `CommitLog.ReadFailsBesideALiveWriter`, `Attach.LeavesALiveWriter`)
* `writerLockOwner` calls a run owned as long as a lock *file* exists (attach.go:539-561), and a
  crash leaves the file behind. So after a crash the follower keeps waiting, where attach.go:58-63
  and 321-333 describe exit 3. (`CommitLog.OnlyReleaseRemovesTheLockFile`, `Attach.FollowRunLog`)
* The probe in `writerLockOwner` is not a look only: it opens the lock file with O_CREATE, locks it and
  never removes it. If a clean Close removes the file between its read and its open, the follower makes
  a lock file of its own and waits on that; and while it tests, a writer's Open is refused.
  (`Locks.LeavesIff`, `Locks.CloseGoesUnseen`, `Locks.ProbeRefusesAWriter`)
* `releaseLock` unlocks first and removes the lock file afterwards, without looking whether somebody
  has opened it in between. Then two writers can hold locks on two files of the same name.
  (`Locks.RemovalIsSafeIff`, `Locks.OneWriterIff`)
* A confirmed read samples the marker after it has read the file. If the writer dies, is replaced
  and rolled back in between, the read shows lines that were never committed. It is safe in every
  continuation exactly when the file held no complete provisional line when it was read.
  (`CommitLog.SafeIffNoCompleteProvisionalLine`; a follower that shows such a row:
  `Attach.RolledBackRowIsShown`; reads that do not grow: `ReadsGrow.RacingReadsDoNotGrow`)
* `run pause` and `run cancel` compare the head of the log with the number of events they folded
  from such a read. After a rollback the numbers can agree on different logs, and a pause can land
  on a cancelled run. (`CommitLog.EqualHeadsDifferentLogs`, `HeadChecks.ReadIsSafeIff`,
  `HeadChecks.StalePauseOnCancelledRun`)
* The check at the top of `followRunLog` samples the lock after the join read, so unlike the exits
  inside the loop its exit 3 can leave committed events unshown.
  (`EntryCheck.EntryExitMissesAnEvent`, `EntryCheck.EntryExitIsCompleteIff`)
* serve_stream.go:72-77 says a pump exits silently on Close. When the context is not cancelled it
  writes an error notification (line 84). (`Streams.CloseIsReported`)
* ADR-0016 says attaching to a finished run replays its history and ends, and that a client may
  reattach from its last delivered sequence. Reattached at the last sequence of a finished run it
  never gets the terminal marker its ack announced. (`Streams.MarkerComesIff`)
* `--if-seq` compares the head with the number the user gave, not with the log the refusals were
  checked on. Any number ahead of the fold lets a cause land on a run that has ended.
  (`HeadChecks.IfSeqGuardsTheFoldIff`, `HeadChecks.IfSeqAheadLandsOnEndedRun`)
* Request names are item, process id and counter. A recycled process id can be handed the result of
  a request that gave up. (`Mailbox.OwnReplyIffNamesAreNotReused`)
* flags.go says a value is never a flag whatever it looks like. That holds after a short flag; after
  a long one a value that looks like a short flag is rewritten, and `--` ends the flags for the
  expander but not for the parser. (`ShortFlags.LongValueKeptIff`)
* fork.go:388-391 counts on contiguous numbers, which `logstore.Open` checks but the lock-free read
  in fork.go does not. Increasing numbers are enough for the seq it suggests; equal numbers need
  contiguity. (`Fork.SuggestionIsTheLast`, `Fork.NumbersAgreeIff`, `Fork.GapIsClosedUp`)
* That seq works when the command is typed again with the same flags. The command fork.go:345-348
  prints leaves `--budget` and `--blueprint` out, so after a fork with a blueprint it may be refused
  again. (`Fork.PrintedCommandWorksIff`, `Fork.PrintedCommandRefused`)
* `amountFromRuntimeUSD` and `csiNumber` do machine arithmetic without a bound check: amounts above
  18446744073.709551615 wrap, and 18446744073709551617 before a tilde is taken for the Home key.
  (`Amounts.AmountFromDigits`, `KeyStreams.TildeIsTheTerminalsIff`, `KeyStreams.TooLongANumberIsHome`)

## Model

| member | source | states |
|---|---|---|
| Lines.SplitFrame | internal/logstore/store.go:264-287 | the events of a batch, framed as Append frames them, are read back exactly and in order |
| Lines.SplitAppend | cmd/arxi/attach.go:250-258 | a reader may stop at any line boundary and resume there: the lines before and after are the lines of the whole |
| Lines.SplitWholeEnd | cmd/arxi/attach.go:493-522 | an unterminated tail contributes no event |
| Lines.WholeLines | cmd/arxi/attach.go:509-522 | the loop yields exactly the complete lines that are not blank, in Unicode's sense, and the remainder starts after the last newline |
| CommitLog.StepKeepsInv | internal/logstore/store.go:98-314 | every action of a writer keeps the marker at the committed length, the committed bytes a prefix of the file, and the committed bytes growing: failed opens, crashes anywhere, the two steps of writing the marker and the two of a release included |
| CommitLog.RunKeepsInv | internal/logstore/store.go:654-813 | the same over every run of writers, crashes and rollbacks |
| CommitLog.ReopenKeepsExactlyTheAcknowledged | internal/logstore/store.go:654-813 | a batch is all or nothing: after a crash the next Open succeeds iff no marker file was left empty, and then it leaves exactly the acknowledged bytes |
| CommitLog.ReopensIff | internal/logstore/store.go:797-879 | over whole runs: after a crash some continuation opens the log again iff no writer died between creating the marker file and filling it |
| CommitLog.StuckIff | internal/logstore/store.go:847-879 | a marker file stands empty with nobody about to fill it iff a writer died there |
| CommitLog.UnfinishedIff | internal/logstore/store.go:847-879 | the marker file is empty iff its writer is between the two steps or one died there |
| CommitLog.StuckForGood | internal/logstore/store.go:797-813 | from then on no continuation opens the log and nothing is committed |
| CommitLog.DeathBetweenLocksTheLog | internal/logstore/store.go:847-879 | such a run, from a healthy log of one event |
| CommitLog.FileGrows | internal/logstore/store.go:797-813 | bytes once in the file stay there unless a rollback runs |
| CommitLog.OnlyReleaseRemovesTheLockFile | internal/logstore/store.go:925-935 | only a process that has released the lock itself, by Close or a failed Open, removes the lock file; no crash does |
| CommitLog.MarkerIsStable | internal/logstore/store.go:847-897 | a marker keeps its offset as long as it keeps its id, whatever the writers do |
| CommitLog.LiveReadFailsIff | internal/logstore/store.go:557-618 | a read of a live log fails iff one of its two marker samples finds the marker file empty, and never with the corruption that changed offsets would mean |
| CommitLog.ReadFailsBesideALiveWriter | internal/logstore/store.go:557-580 | a healthy log and a living writer beside which either sample fails the read |
| CommitLog.ConfirmedReadIsCommitted | internal/logstore/store.go:437-618 | with no rollback between file and marker sample, or no complete provisional line in the file, a read from a boundary fails in that case only, and otherwise returns committed bytes only, all that was committed when the file was read, and ends on a boundary |
| CommitLog.ReadIsBetween | internal/logstore/store.go:557-618 | in general the events of a read that does not fail lie between those committed and those complete in the file, and are all of the latter when no marker is left |
| CommitLog.EqualHeadsDifferentLogs | internal/logstore/store.go:557-618 | a run in which a read and the log hold one event each, and not the same one |
| CommitLog.SafeIffNoCompleteProvisionalLine | internal/logstore/store.go:557-618 | a read shows committed bytes only, in every continuation, iff the file held no complete provisional line when it was read |
| CommitLog.TakeOverDiscards | internal/logstore/store.go:797-813 | a writer that replaces a dead one leaves no marker and none of its provisional bytes counts |
| Reducers.TerminalStays | internal/kernel/decide.go:26-43 | from the absorbing law: once a prefix folds to a terminal status every extension has that status |
| Attach.ReadExtends | cmd/arxi/attach.go:232-267 | a safe pass fails iff it samples an empty marker file; otherwise it moves the follower from one point of the committed log to a later one, past everything committed when the lock was sampled |
| Attach.Poll | cmd/arxi/attach.go:232-247 | lock before read: what the lock sample saw committed is in the rows shown after this pass, unless its read fails, and that is iff a marker sample finds the file empty |
| Attach.EmitLines | cmd/arxi/attach.go:258-276 | prints and folds up to and including the first line that ends the run, or up to one that does not decode |
| Attach.EmitRead | cmd/arxi/attach.go:248-276 | the incremental state stays the batch fold of join plus emitted rows; a torn line is the only other way to stop |
| Attach.FollowRunLog | cmd/arxi/attach.go:218-283 | for every schedule the outcome is the specified one; if every pass is safe, join plus emitted rows are a prefix of the committed events; exit 0 iff their fold is terminal, and not before; exit 3 inside the loop has shown all that was committed at its lock sample; exit 1 is the first pass that samples an empty marker file, or points at a committed line that does not decode; once writers stop it ends with everything shown or a lock file still there |
| Attach.PollLoop | cmd/arxi/attach.go:232-283 | the same for the loop alone, from any directory it finds |
| Attach.RolledBackRowIsShown | cmd/arxi/attach.go:232-267 | an unsafe pass is enough for the follower to emit a row that is then rolled back |
| Attach.CmdRunAttach | cmd/arxi/attach.go:137-186 | the join read supplies fold and offset at once, so nothing falls between join and follow, and every exit keeps the guarantee it has in followRunLog; the join itself fails iff it samples an empty marker file |
| Attach.LeavesALiveWriter | cmd/arxi/attach.go:232-243 | a run in which a follower, or a command that joins, leaves with exit 1 beside a healthy log whose writer lives |
| EntryCheck.EntryExitMissesAnEvent | cmd/arxi/attach.go:219-224 | a run in which the command exits with 3 and has shown nothing, although an event was committed before it looked for the lock |
| EntryCheck.EntryExitIsCompleteIff | cmd/arxi/attach.go:219-224 | that exit has shown everything iff no commit took effect between the join's file read and the lock sample, but for one before the marker sample whose batch was already all in the file |
| EntryCheck.LockBeforeJoinIsComplete | cmd/arxi/attach.go:219-224 | the same check with the lock sampled before the join read has shown everything committed at its sample, if the join can be read |
| Locks.OneWriterIff | internal/logstore/store.go:899-935 | while no lock file is removed, two writers never meet iff whoever has a lock file open has the one the path stands for |
| Locks.RemovalIsSafeIff | internal/logstore/store.go:925-935 | after the removal of a release two writers can meet iff somebody had the lock file open when it was removed |
| Locks.StepKeepsInv | internal/advisorylock/lock.go:16-48 | no two processes ever lock the same file |
| Locks.LeavesIff | cmd/arxi/attach.go:539-561 | while no lock file is removed, a follower can come to leave iff there is none and it has not just read one |
| Locks.CleanCloseIsSeenIff | cmd/arxi/attach.go:539-561 | after a clean Close's removal it can leave iff the file did not go between its read and its open of it |
| Locks.CloseGoesUnseen | cmd/arxi/attach.go:539-561 | the run in which it does not: its own lock file keeps it waiting |
| Locks.ProbeRefusesAWriter | internal/advisorylock/lock.go:28-37 | a run in which a probe makes a writer's Open fail although nobody writes |
| JobStore.ReadRecords | cmd/arxi/host_storage.go:371-405 | the loop accepts a log iff line i carries sequence i for all i, returns each line once, and otherwise reports the first line out of place |
| JobStore.ChainIsAPrefix | cmd/arxi/host_storage.go:174-209 | chained reads of a growing log with any limits never fail; after each, the pages so far are a gap-free, duplicate-free stretch of the log and the continuation is empty iff it reaches the end |
| ReadsGrow.ReadsAreGrowing | cmd/arxi/host_storage.go:371-405 | successive lock-free reads do see a growing log, whatever is appended in between, if none of them races a rollback over a complete provisional line; on a log whose events carry their numbers a read then fails, record loop included, iff it samples an empty marker file |
| ReadsGrow.ChainedReadsAreSound | cmd/arxi/host_storage.go:174-209 | so over the store itself the pages of the reads that do not fail, each resumed where the last successful one stopped, are a prefix of the log, all of it iff End is set |
| ReadsGrow.RacingReadsDoNotGrow | cmd/arxi/host_storage.go:371-405 | two reads, one of which races, that do not |
| JobStore.ReadsFromZero | cmd/arxi/host_storage.go:174-209 | from zero they are a prefix of the log, all of it iff End is set |
| JobStore.FixedLogIsReadThrough | cmd/arxi/host_storage.go:194-208 | on a log that stays put positive limits read exactly as far as they add up to, so a chain ends having read all of it |
| JobStore.TokenIsForItsPosition | cmd/arxi/host_storage.go:182-187 | a resume token is accepted at the position it was issued for, however the log has grown, and nowhere else |
| JobStore.ReadEvents | host/v1/backend.go:733-762 | the result is the log of the last page read, never a mixture of two; it ends as soon as a page is short |
| JobStore.Subscription.Next | host/v1/storage_subscription.go:26-87 | a batch holds exactly the wanted records between the old and the new cursor; nothing is delivered twice or skipped over any series of polls; a cursor outside the log is refused |
| JobStore.Subscription.constructor | host/v1/storage_subscription.go:16-24 | a cursor may start anywhere, in the log or not |
| JobStore.FilterAppend | host/v1/storage_subscription.go:47-59 | filtering page by page is filtering the whole |
| JobStore.FilesystemJobWriter.Append | cmd/arxi/host_storage.go:247-279 | succeeds iff the claim holds, the writer is open, the batch is unnumbered and Expected is the head; then the log grows by exactly the batch numbered from there and the returned records are the stored ones; every failure leaves log and revision as they were |
| JobStore.FilesystemJobWriter.constructor | cmd/arxi/host_storage.go:211-229 | opening takes the revision from the log's head |
| JobStore.FilesystemJobWriter.Close | cmd/arxi/host_storage.go:310-319 | closing changes neither log nor revision |
| JobStore.WrittenLogReadsBack | cmd/arxi/host_storage.go:371-405 | any log this writer produced passes the record loop with one record per event |
| JobStore.ReadYourAppend | cmd/arxi/host_storage.go:260-278 | a read after the expected revision returns exactly the records Append returned |
| Streams.HelloFirst | cmd/arxi/serve.go:402-421 | on every connection hello is the first message and is sent once |
| Streams.OneResponseEach | cmd/arxi/serve.go:423-455 | the responses on the wire are the non-blank requests, one each, in order; a connection ends with all answered, or at an oversized line, a read error or one failed write |
| Streams.AckBeforeNotes | cmd/arxi/serve_stream.go:128-156 | every notification is preceded by the ack of its own subscription, even when request ids repeat |
| Streams.LatchClosedOnce | cmd/arxi/serve_stream.go:139-156 | no release latch is closed twice and no pump runs before its latch is closed |
| Streams.StreamIsConsecutive | cmd/arxi/serve_stream.go:78-109 | one subscription's notifications are consecutive events from after_seq; nothing follows a terminal or error notification; a terminal marker means everything through the ending event was delivered |
| Streams.UnbrokenMeans | cmd/arxi/serve_stream.go:17-28 | what a client that follows its cursor without a break has received |
| Streams.PumpedKeepsPump | cmd/arxi/serve_stream.go:78-109 | each step of a pump writes only what its client expects next |
| Streams.StepKeepsInv | cmd/arxi/serve_stream.go:45-54 | every action of loop, pump, job and context keeps the connection's invariant |
| Streams.WaitingRunsDown | cmd/arxi/serve_stream.go:163-172 | once every subscription is closed, each action that moves a pump uses up one of its finitely many steps |
| Streams.TeardownIsBounded | cmd/arxi/serve_stream.go:163-172 | so every schedule of closeAll's wait makes a bounded number of moves |
| Streams.TeardownFinishes | cmd/arxi/serve_stream.go:158-172 | it cannot get stuck, and when it is over no pump runs and every registered subscription is closed, released or not |
| Streams.ClosingReachesTheWait | cmd/arxi/serve_stream.go:163-171 | closeAll reaches its wait in every schedule that lets the loop take one step for each subscription left and one more |
| Streams.CloseIsReported | cmd/arxi/serve_stream.go:72-87 | Close without cancellation puts an error notification on the wire |
| Streams.CancelledIsSilent | cmd/arxi/serve_stream.go:82-90 | once the context is cancelled no further error notification is written by any pump not already writing one |
| Streams.MarkerComesIff | cmd/arxi/serve_stream.go:92-105 | on a finished run that gets no further event the promised terminal marker can come in some continuation of the connection iff there is an event left to deliver |
| Pumps.SubscriptionPump.Run | cmd/arxi/serve_stream.go:78-109 | against any outcomes of its calls the loop stops at the first turn that says so, having told a following client everything up to its cursor |
| Pumps.SubscriptionPump.Deliver | cmd/arxi/serve_stream.go:82-107 | one turn writes what a client at this cursor expects, or nothing once the context is cancelled or the write fails |
| Pumps.TurnIsTheMachines | cmd/arxi/serve_stream.go:78-109 | a turn of the pump's loop is the three atomic actions of the connection's machine: same message, same cursor, same end |
| Pumps.ConnStreams.ReleasePending | cmd/arxi/serve_stream.go:139-156 | closes each pending latch once, touches no live one, and keeps registration order |
| Pumps.ConnStreams.CloseAll | cmd/arxi/serve_stream.go:163-172 | closes the subscription of every pump, pending or live, and no latch |
| HeadChecks.ReadIsSafeIff | cmd/arxi/pause.go:82-174 | in every reachable state: from the moment a pause or cancel reads the file, all it appends in every continuation lands on exactly the log it folded, iff every complete provisional line in the file makes it refuse; if it would go ahead, iff there was none |
| HeadChecks.StaleFoldLands | internal/logstore/store.go:194-213 | otherwise: the batch is rolled back, another is committed in its place, and the comparison of heads passes on a log that was never folded |
| HeadChecks.StalePauseOnCancelledRun | cmd/arxi/pause.go:95-160 | in this way, behind any pausable provisional event of any live run, a pause lands on a cancelled run |
| Writers.SoundRead | internal/logstore/store.go:557-618 | a fold is a prefix of the log if no batch is discarded between file and marker, or the file held no complete provisional line |
| Writers.AppendsLandWhereDecided | cmd/arxi/pause.go:82-174 | in every run an append decided from a sound fold, its expected head not past that fold, landed on exactly the log its refusals were checked on |
| Writers.NoRedundantDecision | cmd/arxi/pause.go:100-118 | no pause decided from a sound fold lands on a paused or ended run and no such cancel on an ended one |
| Writers.NothingAfterCancel | cmd/arxi/cancel.go:152-176 | at most one cancel, and no guarded append, among those decided from sound folds, comes after it |
| Writers.StepKeepsInv | cmd/arxi/cancel.go:152-176 | what every process remembers agrees with the log up to what was committed at its read, one process at a time appends, and every recorded append stands where it was made |
| HeadChecks.IfSeqGuardsTheFoldIff | cmd/arxi/inject.go:230-281 | in every reachable state: from a fold on, every append of an inject in every continuation lands on the log it was decided from iff its seq is not ahead of the fold, or the log is already past it |
| HeadChecks.IfSeqAheadLandsOnEndedRun | cmd/arxi/inject.go:230-281 | on any live run, any seq past its log lets the cause land on the run cancelled meanwhile |
| Mailbox.AtMostOneReply | cmd/arxi/scheduler.go:161-219 | in every interleaving of requesters, importer, deadlines and deaths, from a log that may already hold answered questions, the log holds at most one reply per question, whatever the file names |
| Mailbox.OwnReplyAtItsNumber | cmd/arxi/scheduler.go:114-159 | with distinct names a requester that receives a sequence finds its own reply at exactly that position, and nobody else is told it |
| Mailbox.OwnReplyIffNamesAreNotReused | cmd/arxi/scheduler.go:125-127 | that holds in every run iff no name is used for two different replies, as long as of two that clash one could be accepted |
| Mailbox.ReusedNameMisleads | cmd/arxi/scheduler.go:137-147 | how a reused name gets another request's result: a requester gives up while its request is being judged |
| Mailbox.RefusedMayBeRecorded | cmd/arxi/scheduler.go:187-213 | an error answer does not mean that nothing was recorded, for plain replies and exact approvals alike: the resident may have died after the append |
| Mailbox.AcceptedIff | cmd/arxi/scheduler.go:221-260 | whatever order they check in, both decision paths accept iff the item exists and is unanswered, the run is not over, the decision fits the kind with a reason or text where one is due, and an approval's authorization holds; an answered item is reported as such |
| Mailbox.JudgedKeepsLog | internal/inbox/inbox.go:362-444 | a judged request, an approval with its authorization record included, keeps one reply per item |
| Mailbox.Spool.Import | cmd/arxi/scheduler.go:161-219 | one pass answers and removes the requests it takes, appends at most one reply, and stops right after it with the log's head as its result |
| Mailbox.Spool.Take | cmd/arxi/scheduler.go:175-213 | one request is answered and removed; a success names the position its reply has |
| Utf8.FirstOfEncoding | cmd/arxi/design.go:440-456 | every scalar value encoded by sections 3 and 4 of RFC 3629 is decoded to itself, at its length |
| Utf8.ScalarIsEncoded | cmd/arxi/design.go:440-456 | and nothing else is decoded: no overlong form, surrogate or value past the range |
| Utf8.FirstIsStable | cmd/arxi/design.go:440-456 | a decision about the first rune does not change when more bytes arrive |
| Keys.DecodeIsStable | cmd/arxi/design.go:409-488 | once decode consumes, more bytes never change its answer |
| Keys.ControlSequenceIsWhole | cmd/arxi/design.go:504-539 | every well-formed control sequence of section 5.4 of ECMA-48 is consumed exactly whole and is never a typed character |
| Keys.OneLetterUnblocks | cmd/arxi/design.go:420-539 | whatever is pending, one more letter makes the stream move |
| Keys.CsiNumberLoop | cmd/arxi/design.go:571-582 | the loop computes the leading decimal number, wrapped to a 64-bit int |
| Keys.DecodeCSILoop | cmd/arxi/design.go:504-539 | the two scanning loops find the parameter and intermediate bytes of the grammar |
| KeyStreams.DrainAppend | cmd/arxi/design.go:381-398 | decoding in two goes gives the keys and the pending bytes of decoding at once |
| KeyStreams.ChunkingDoesNotMatter | cmd/arxi/design.go:370-407 | any way of cutting the bytes into reads gives the keys of the uncut stream, if no read gives up an ESC whose sequence goes on |
| KeyStreams.TwoCutsAgree | cmd/arxi/design.go:370-407 | so two ways of cutting agree |
| KeyStreams.CutIsInvisibleIff | cmd/arxi/design.go:389-403 | a cut is invisible exactly when it does not part an ESC from its sequence |
| KeyStreams.GivingUpEscShows | cmd/arxi/design.go:389-403 | parting them always changes the keys |
| KeyStreams.KeysRoundTrip | cmd/arxi/design.go:420-488 | keys written as a terminal writes them, in CSI, SS3 or UTF-8 form, come back as the same keys |
| KeyStreams.LettersAreTheTerminals | cmd/arxi/design.go:504-564 | a final letter means a key iff it is the one a terminal ends that key's sequence with, whatever the parameters |
| KeyStreams.TildeIsTheTerminalsIff | cmd/arxi/design.go:524-582 | a number before a tilde means exactly the key a terminal sends it for, iff it is below 2^64 or does not leave 1, 3, 4, 7 or 8 modulo 2^64 |
| KeyStreams.TooLongANumberIsHome | cmd/arxi/design.go:571-582 | 2^64 + 1, which no terminal sends, is taken for Home |
| KeyStreams.SpellingDecodes | cmd/arxi/design.go:546-564 | each single spelling is decoded to its key, at its length, whatever follows |
| KeyStreams.KeyStream.Feed | cmd/arxi/design.go:370-407 | one read delivers the keys of pending plus read bytes and keeps the undecided rest |
| KeyStreams.KeyStream.constructor | cmd/arxi/design.go:370-376 | nothing is pending at the start |
| RunTree.TreeWalk.Walk | cmd/arxi/runtree.go:299-331 | for any parent map the walk terminates and builds the tree below a node, marking exactly its nodes as seen |
| RunTree.GroupByParent | cmd/arxi/runtree.go:286-298 | in whatever order the map is iterated, each parent gets exactly its children in id order |
| RunTree.LinkRunTree | cmd/arxi/runtree.go:286-333 | the result is the tree of the root, the cycle guard fired for the root's own parent only, and the second loop lists the nodes whose recorded depth is another |
| RunTree.MisplacedByChain | cmd/arxi/runtree.go:317-331 | a run is listed there iff its parent chain reaches the root and has another length than its spawn_depth |
| RunTree.PayloadShowsTheTree | cmd/arxi/runtree.go:687-717 | the nested payload lists the flattened nodes in the same order, and its spends add up to the total |
| RunTree.LinkedTree | cmd/arxi/runtree.go:286-333 | exactly the runs whose parent chain reaches the root, each once, at its chain length; one cycle warning iff the root's own parent is in the tree |
| RunTree.TreeIsTheReachableSet | cmd/arxi/runtree.go:336-349 | the flattened nodes are the reachable runs, without repetition |
| RunTree.TreeIsUnique | cmd/arxi/runtree.go:286-333 | iteration order cannot show: there is only one such tree |
| RunTree.TreeOwnSpend | cmd/arxi/runtree.go:351-358 | the loop adds up the listed nodes |
| RunTree.SumNodesIsSumSet | cmd/arxi/runtree.go:351-358 | over distinct nodes the sum depends on the set alone |
| RunTree.TotalIsReachableSpend | cmd/arxi/runtree.go:351-358 | the printed total is the spend of the reachable runs, each counted once |
| RunTree.RowsShowTheTree | cmd/arxi/runtree.go:372-388 | the printed rows are the flattened nodes in the same order, indented by depth |
| RunTree.ParentedOutsideTree | cmd/arxi/runtree.go:191-204 | lists exactly the parented runs outside the tree, sorted, in whatever order the map is iterated |
| RunTree.ParentedRunsSplit | cmd/arxi/runtree.go:191-204 | every parented run but the root is in the tree or listed outside it, never both |
| Fork.CmdRunFork | cmd/arxi/fork.go:205-350 | for every log and flags the command's outcome is the specified one, and no payload of the parent is modified |
| Fork.ForkedStartPayload | cmd/arxi/fork.go:505-529 | the start payload is a fresh map; the one handed in keeps its entries |
| Fork.StartKeepsTheRest | cmd/arxi/fork.go:488-529 | key by key: the fork's identity and lineage are written, a ceiling or blueprint only when given, and every other key is the parent's |
| Fork.CopyPrefix | cmd/arxi/fork.go:290-316 | only run.started gets a payload of its own; numbers are cleared and the parent's scope renamed |
| Fork.TakePrefix | cmd/arxi/fork.go:224-229 | the loop keeps the events numbered up to the fork point, in order |
| Fork.FoldCopies | cmd/arxi/fork.go:328-334 | the incremental fold is the batch fold and termSeq is where it first turned terminal |
| Fork.SameNumbers | cmd/arxi/fork.go:284-316 | a fork of a contiguous log holds exactly numbers 1..at-seq, each on the parent's event of that number |
| Fork.NumbersAgreeIff | cmd/arxi/fork.go:293-296 | the numbers agree with the parent's iff the copied prefix is contiguous |
| Fork.GapIsClosedUp | cmd/arxi/fork.go:224-229 | a parent numbered 1, 3 whose fork is numbered 1, 2 |
| Fork.SameCauses | cmd/arxi/fork.go:57-61 | every causal id the parent resolves inside the fork resolves to the same position there, and no other id resolves |
| Fork.SuggestionIsTheLast | cmd/arxi/fork.go:336-362 | a fork refused as born terminal names a seq at which forking works when the command is typed again with the same flags, whatever new id is minted, and no later one does |
| Fork.PrintedCommandWorksIff | cmd/arxi/fork.go:336-350 | the printed command, without budget and blueprint and so under the parent's own configuration, works iff a fork without options at the refused seq would not be refused or would be told no smaller a seq |
| Fork.PrintedCommandRefused | cmd/arxi/fork.go:336-350 | a run, over under its own blueprint and then cancelled, for which it is refused again |
| ShortFlags.ExpandShort | cmd/arxi/flags.go:26-99 | the index-driven loop is the word-by-word expansion, its errors included |
| ShortFlags.ExpandGroup | cmd/arxi/flags.go:103-124 | a group is expanded letter by letter or refused at its first letter that takes a value or is unknown |
| ShortFlags.LongValueKeptIff | cmd/arxi/flags.go:45-50 | for every command a separate value of a long flag survives, whatever follows, iff it neither looks like a short flag nor is `--` |
| StartArgs.ExpandShortWord | cmd/arxi/flags.go:81-95 | any value after a short flag survives |
| StartArgs.ExpandWord | cmd/arxi/flags.go:26-99 | each way of writing a setting expands to its long form and disturbs nothing behind it |
| StartArgs.ParseStartArgs | cmd/arxi/run.go:275-450 | the loop with its look-ahead is the word-by-word parse followed by the final checks |
| StartArgs.LineMeansItsSettings | cmd/arxi/run.go:275-450 | every list of settings, each written short, short-inline, grouped, long or long-inline, with any words behind `--`, parses to the flags it means, or to the error of its first bad setting |
| StartArgs.EachFieldIsItsLastSetting | cmd/arxi/run.go:302-404 | each field of the flags ends as the last value given for that name, converted where it is a number, or as the seed had it; the words stay in order |
| StartArgs.SpellingDoesNotMatter | cmd/arxi/run.go:53-66 | two ways of writing the same settings of `run start` are one command |
| StartArgs.RunStartIsDeclared | internal/surface/surface.go:172-207 | the declared parameters and letters of `run start` are unambiguous and all reach the parser |
| Amounts.AmountFromDigits | cmd/arxi/scheduler.go:655-677 | the amount is the printed decimal iff that is at most 18446744073.709551615 |
| Amounts.NewAmount | internal/job/types.go:25-34 | for every coefficient and scale the canonical amount of the same value |
| Amounts.OneRepresentation | internal/job/types.go:18-34 | equal values have one normalized representation |
| Amounts.PrintDenotes | cmd/arxi/scheduler.go:662-662 | every number of billionths, printed with nine places, is read back by the digit loop as that number |

## Left out

* JSON encoding and decoding, all printing, exit-code texts, remedies and column widths: presentation. A log line is opaque where its content does not matter.
* The inside of the reducer: a parameter with the laws stated as `Reducers.Absorbing`, `Writers.CommandsTakeEffect`, `Mailbox.Lawful` and `Fork.Lawful`.
* I/O errors of a store that stays open, fsync and directory syncs, legacy markers, the memory bound of ReadConfirmedLimit.
* CommitLog.RunKeepsInv: one writer at a time, where Locks.RemovalIsSafeIff says when two can meet; what two would write is not modelled.
* CommitLog.ReadIsBetween: a file is read in one action, so a read that itself overlaps a rollback is not modelled; one that overlaps a write is, since a batch is written in any pieces.
* Attach.FollowRunLog: the lock file is only looked at; what the probe does to it is in Locks, apart from the log.
* Wall-clock time: polling intervals and deadlines are nondeterministic steps. A requester's file reads fail only by the file not being there.
* `run.attach` dispatch, parameter validation and the request handlers of serve.go: a request is whatever its dispatch decides, and an attach subscribes or does not. That `Next` yields consecutive batches is what `JobStore.Subscription.Next` proves of the storage subscription without a filter.
* Streams.TeardownFinishes: assumes that Close makes a blocked `Next` return and that writes return, as the code's comments do.
* Attach.CmdRunAttach: the checks on the run argument and the frozen blueprint are not modelled.
* Writers: the unguarded inject, `--to`, `--on-busy`, and host.Cancel for runs in the standard directory; each process is a sequence of atomic steps rather than a method, since its point is the interleaving.
* Mailbox.AcceptedIff: the authorization behind an approval is one of four answers of a parameter, since its digest and expiry rules are the kernel's.
* RunTree: run ids are numbers, money is counted in a fixed unit, nodes are values rather than shared nodes, the payload has the fields that the walk and the total decide, and the duplicate-id scan is not modelled.
* Fork.SuggestionIsTheLast: for logs with strictly increasing sequence numbers.
* Fork.CmdRunFork: reading and freezing the blueprint and creating the directory are not modelled; a budget is a real number that is 0 when absent.
* StartArgs: ParseFloat and Atoi are parameters, a float is a real, so NaN and infinities are not modelled; `--sim=anything` sets sim, as in the code, but is not among the rendered forms.
* Amounts.AmountFromDigits: starts from the digits FormatFloat prints for a finite value; the float's rounding is not modelled.
* Snapshots, artifacts, job metadata and path checks of host_storage.go; host_coordination.go; the remaining commands.
