# Verified model of the backup verifier

This project models the parts of a Windows backup verifier that hold most of its state and branching, and proves what
they promise. A scan compares a source tree with a destination tree, journals every verdict so that an interrupted
scan can be resumed, and can then make the destination equal to the source.

Run `dafny verify dfyconfig.toml` to check everything.

## What is modelled

**The crash-safe session store** (`Crc32`, `JournalCodec`, `JournalReplay`, `SessionJson`, `SessionJsonParser`,
`SessionJsonRoundTrip`, `JsonGrammar`, `SessionContext`, `ContextMeaning`, `SessionDisk`, `SessionStore`,
`LoadMeaning`, `Checkpointer`, `CheckpointMeaning`, `FileFormats`). The disk is five files of bytes or text: the
context, its temporary and its previous version, the journal and its temporary. Every step (write a temporary, rotate,
rename, append, truncate) may succeed, fail or crash, and a torn append leaves a prefix of the bytes. The main results
are `CrashSafety` over whole runs of appends and `DoCheckpoint`, which keeps every row in exactly one place.
Underneath are byte codecs with round trips in both directions, a checksum proved against its definition and shown to
detect every burst of four bytes, and a JSON writer and parser that are inverse to each other; the parser accepts
exactly the spellings of a declared grammar. `LoadMeaning` says of every disk, damaged or not, what a loaded session
means, and that a burst of damage to the declared records is always reported.

**The comparison** (`Classify`, `RunResult`, `PathOrder`, `MatchTable`, `ConcurrentRun`, `ConcurrentSink`,
`ConcurrentComparer`, `FileComparator`, `Backpressure`, `VerdictMeaning`, `CounterMeaning`, `ReportMeaning`).
`RunResult.Reference` is the meaning of a comparison: one contribution per key, summed without order.
`VerdictMeaning`, `CounterMeaning` and `ReportMeaning` spell out what it says: which verdict each pair gets, what
every counter counts, and which rows are reported and captured, all by the two trees. `ConcurrentRun` is the
two-worker protocol as interleaved atomic steps; `EveryScheduleAgrees` says that every interleaving ends at the
reference. `FileComparator.Serial.Run` says the same of the serial comparison. `Backpressure` refines the protocol to
micro-steps with shard locks, one condition variable whose predicate is read flag by flag, counters updated one at a
time, cancellation and spurious wake-ups; it proves the bound, the absence of lost wake-ups and of stuck states,
termination, and that the throttle does not change the result.

**Resume** (`FileIndex`, `ResumePlan`, `ResumeMeaning`, `CaptureResume`, `ResumeEqualsFresh`). The planner's loops are
proved against a declarative split of the journal, whose parts `ResumeMeaning` spells out on the last records and the
two trees. `CaptureResume` closes the circle: what a comparison captures is what a resume over unchanged trees keeps.
Reused counters plus the comparison of the remainders equal a fresh run's exactly when no reused record is *type
blind*: a size mismatch recorded in presence mode or with equal sizes can only come from a file against a directory,
and its record does not keep the per-side types, so a later file with the directory's size and time passes the checks.
`TypeBlindReuse` is a concrete case. The comment at src/Session/ResumePlan.cpp:224-230 says that a changed type is
never the saved version; the code does not achieve this for such rows.

**Snapshots** (`Snapshot`, `SnapshotFile`). The binary image of an index is read back exactly when it is within the
reader's bounds, which the writer does not check, and a file cut anywhere is rejected. The layout comment at
src/Filesystem/FileIndexSerializer.h:14-22 has 32-bit lengths for root and target and the digest before the link
fields; the code writes 64-bit lengths and the digest last, and the model follows the code.

**Sync** (`SyncTree`, `SyncFs`, `SyncPlan`, `PlanSummary`, `SyncExecutor`, `SyncConvergence`, `SyncSteps`,
`SyncResult`, `SyncTotal`, `SyncFromComparison`, `SyncFromResume`, `LinkTargets`). A tree is a map from folded paths
to files, directories and links. The planner, the executor and the guarded teardown are imperative and proved against
their effects; `SyncResult.Converges` gives the exact final tree of a run without failures, and `SyncTotal.NoFailures`
shows that a run fails only for outside reasons: the order of the plan clears every place before it is needed.
`SyncFromComparison` shows that the rows of a full-content comparison satisfy what both assume. A removal that fails
inside a teardown is reported as a skip, so a run without a reported failure can leave destination-only directories
(`StoppedTeardownStays`), though no file or link (`FilesConverge`). Shared directories that are empty on the source
can disappear; `TwoRunsEqual` shows that a second run restores them. A source link whose target is below the
destination root, and not below the source root, is never *carried over*: it is written as it is, and every later
comparison takes its target for a place under the destination and reports it again (`LinkTargets.RebaseConverges`,
`UncarriedReported`). The comment at src/Filesystem/ReparsePoint.h:60-63 promises that a mirror converges; for such
links it does not. `SyncFromResume` shows what rebuilt rows lead to: those of directories are planned as files, and
those actions cannot succeed. The header comment at src/Sync/SyncPlan.h:13-16 lists writes before deletes; the code
emits deletes before writes, and the model follows the code.

**Bounded summaries and arithmetic** (`PartialRead`, `IntervalUnion`, `DirTiming`, `RunList`, `RunListStream`):
partial-read plans and the read loop, the exact union of active intervals, Space-Saving heavy hitters over real
numbers, and NTFS run lists with the reassembly of split streams.

Conventions: a specification function has a noun as its name and the method that computes it a verb; methods keep the
loops and fields of the original. `Results`, `Bytes`, `Bits`, `Lex` and `Wrappers` hold the shared vocabulary.

## Model

| member | source | states |
|---|---|---|
| Crc32.BuildTable | src/Session/SessionStore.cpp:39-51 | the byte table holds, for every byte value, eight bit steps of the reflected CRC-32 polynomial |
| Crc32.UpdateByTable | src/Session/SessionStore.cpp:58-63 | one table lookup per byte computes the bit-at-a-time CRC-32 of section 8 of RFC 1952 |
| Crc32.Continue | src/Session/SessionStore.cpp:826-831 | the checksum of a longer string follows from the stored checksum of its prefix, without the prefix |
| Crc32.UpdateInjective | src/Session/SessionStore.cpp:58-63 | for fixed data the update is injective in the register |
| Crc32.BurstDetected | src/Session/SessionStore.cpp:58-69 | changing at most four consecutive bytes, anywhere in data of any length, changes the checksum |
| JournalCodec.EncodePayload | src/Session/SessionStore.cpp:156-174 | the appended bytes are the entry's payload |
| JournalCodec.DecodePayload | src/Session/SessionStore.cpp:176-203 | the cursor-based reader accepts exactly what the functional decoder accepts, enum range checks and the exact-length check included |
| JournalCodec.DecodeOfEncode | src/Session/SessionStore.cpp:156-203 | decoding an encoded entry gives it back if and only if the path length fits its 32-bit field |
| JournalCodec.EncodeOfDecode | src/Session/SessionStore.cpp:176-203 | a successful decode re-encodes to the same bytes, so no two payloads stand for one entry |
| JournalCodec.Reader.TakeBytes | src/Session/SessionStore.cpp:92-126 | a read consumes exactly its width, or nothing and clears the ok flag |
| FileFormats.PayloadLayout | src/Session/SessionStore.cpp:156-174 | every field of a payload at its place, with its width, its order of bytes and its code |
| JournalReplay.EncodeRecord | src/Session/SessionStore.cpp:205-212 | appends the framed record: magic, length, checksum, payload |
| FileFormats.RecordLayout | src/Session/SessionStore.cpp:205-212 | a record is the letters BVSJ, the payload's length, its checksum and the payload |
| JournalReplay.Replay | src/Session/SessionStore.cpp:870-907 | the loop returns the records up to the first short read, bad magic, overrun, checksum mismatch or bad payload, and whether it stopped early |
| JournalReplay.ScanOfJournal | src/Session/SessionStore.cpp:870-907 | replay of written records followed by anything gives those records and then whatever the rest gives |
| JournalReplay.WholeRecordsFit | src/Session/SessionStore.cpp:870-907 | the count used below is the largest number of records that fit in a prefix |
| JournalReplay.ScanOfPrefix | src/Session/SessionStore.cpp:870-907 | for every byte prefix of a journal, replay returns exactly the records that fit whole, and a bad tail exactly when the cut is off a record boundary |
| JournalReplay.CorruptionStopsReplay | src/Session/SessionStore.cpp:870-907 | corruption of at most four consecutive payload bytes: replay returns exactly the rows before that record |
| SessionJsonParser.WriteValue | src/Session/SessionJson.cpp:42-73 | the writer appends the text of the value: sorted keys, escapes, decimal integers |
| SessionJsonParser.WriteEscaped | src/Session/SessionJson.cpp:18-40 | a string is quoted and escaped unit by unit |
| SessionJsonParser.Parser.ParseValueHere | src/Session/SessionJson.cpp:94-129 | the recursive-descent parser moves its cursor exactly over what the functional grammar consumes, and always forward |
| SessionJsonParser.Parse | src/Session/SessionJson.cpp:284-298 | one value and then only white space, as the functional grammar says; every run terminates |
| SessionJsonRoundTrip.RoundTrip | src/Session/SessionJson.cpp:278-298 | parsing what was written gives the value back, for every value tree with int64 integers and any strings (sections 4 to 7 of RFC 8259) |
| SessionJsonRoundTrip.OutOfRangeRejected | src/Session/SessionJson.cpp:131-145 | an integer text outside int64 is rejected |
| FileFormats.EscapesMean | src/Session/SessionJson.cpp:18-40 | every character's escape as section 7 of RFC 8259 has it |
| JsonGrammar.AcceptsSpellings | src/Session/SessionJson.cpp:75-298 | the parser accepts a text as a value if and only if the text spells that value in a declared grammar: any white space, any escapes, surrogate pairs and lone high surrogates, leading zeros, the last of equal keys, and nothing else |
| JsonGrammar.SpellingRead | src/Session/SessionJson.cpp:278-298 | every spelling of a value, not only the written one, is read as that value |
| SessionContext.BuildContext | src/Session/SessionStore.cpp:411-456 | the context text is the JSON text of the session, the journal name and the trailer |
| SessionContext.ContextRoundTrip | src/Session/SessionStore.cpp:479-665 | the reader returns the session and trailer that were built if and only if every field lies in the range it accepts |
| SessionContext.ContextTextRoundTrip | src/Session/SessionStore.cpp:411-456 | the same through the file text |
| ContextMeaning.ContextMeans | src/Session/SessionStore.cpp:479-665 | a context is accepted as a session and a trailer if and only if every field is there under its name with that value, in its type and range; only the run time may be missing |
| ContextMeaning.ErrorsMean | src/Session/SessionStore.cpp:483-516 | when a wrong magic word and when a newer schema is reported |
| LoadMeaning.ContextLoaded | src/Session/SessionStore.cpp:678-709 | the main context if it parses, else the previous one, else a refusal with the reason |
| SessionDisk.LoadOfCoherent | src/Session/SessionStore.cpp:848-941 | on every coherent disk loading succeeds with a prefix of the rows handed in that contains every declared row; truncated and newer-rows are reported exactly when they are so |
| SessionStore.SessionFiles.WriteContext | src/Session/SessionStore.cpp:245-278 | after any failure or crash the context files are in one of the states of temporary write, rotation to .prev and rename |
| SessionStore.SessionFiles.ReconcileTail | src/Session/SessionStore.cpp:762-803 | bytes past the declared size are cut off if and only if they are a prefix of what is about to be appended; otherwise nothing is touched |
| SessionStore.SessionFiles.AppendJournal | src/Session/SessionStore.cpp:753-835 | the disk states that an append may leave behind at success, failure and crash, a torn append included; it fails only if a file step does, or the context or the journal does not admit the append |
| SessionStore.SessionFiles.SaveSession | src/Session/SessionStore.cpp:743-751 | the journal is in place before the context that declares it |
| SessionStore.SessionFiles.LoadSession | src/Session/SessionStore.cpp:848-941 | loading computes the outcome that the disk contents determine, falling back to the previous context |
| LoadMeaning.IntactMeans | src/Session/SessionStore.cpp:870-941 | for every disk with a journal: the session is intact if and only if the journal is the records of the rows found and nothing else, at least as many as declared, and the declared ones have at least the declared size and exactly the declared checksum; newer rows are reported if and only if there are more than declared |
| LoadMeaning.MissingJournalMeans | src/Session/SessionStore.cpp:858-870 | a missing journal is intact if and only if nothing was declared |
| LoadMeaning.RowsAreMaximal | src/Session/SessionStore.cpp:870-907 | the rows found do not stop early |
| LoadMeaning.DamageReported | src/Session/SessionStore.cpp:848-941 | on a coherent disk, changing at most four consecutive bytes of the declared records, in frame or payload, is always reported |
| SessionStore.SessionFiles.ContinueStored | src/Session/SessionStore.cpp:826-831 | the checksum register is restored from the trailer and run over the addition only |
| SessionStore.CrcContinues | src/Session/SessionStore.cpp:826-831 | the carried-on checksum is the checksum of the whole journal |
| SessionStore.PendingAppendable | src/Session/SessionStore.cpp:762-803 | whatever earlier attempts left behind, the next append of the pending rows is admitted |
| SessionStore.AppendKeepsCoherent | src/Session/SessionStore.cpp:753-835 | after success the rows are declared, after failure the old declaration stands and the rows are pending, after a crash it is one of the two |
| SessionStore.SaveBootstraps | src/Session/SessionStore.cpp:743-751 | the first save either leaves nothing or declares all its rows |
| SessionStore.CrashSafety | src/Session/SessionStore.cpp:678-941 | for any sequence of appends, each passing all unflushed rows, with a failure or crash after any file step: loading succeeds with a prefix of the rows handed in, in order, containing every acknowledged row and every row the surviving context declares |
| Checkpointer.Checkpoints.OnRow | src/ScanController.cpp:464-476 | a finalized row enters the buffer and nothing else changes |
| Checkpointer.Checkpoints.TakeRows | src/ScanController.cpp:464-476 | every buffered row becomes pending exactly once, in order, and is counted |
| Checkpointer.Checkpoints.DoCheckpoint | src/ScanController.cpp:455-515 | every row is in exactly one of buffer, pending and declared journal; after success the files hold exactly the reused and captured rows in order, with their counters, length and checksum; after failure the rows stay pending, and only a failing file step makes it fail; after a crash loading recovers at least what was declared |
| Checkpointer.CoherentIsExact | src/Session/SessionStore.cpp:848-941 | with nothing pending, loading gives exactly the declared rows and a trailer that describes them |
| CheckpointMeaning.SavedContextMeans | src/ScanController.cpp:477-498 | the saved progress of each side counts the files, directories and bytes of its entries in the captured rows on top of the reused ones, and the other fields are the run's |
| JournalStats.AccumulateJournalStats | src/Session/ResumePlan.cpp:41-80 | adds the side counters of both observations and the counter of the verdict, and nothing else |
| JournalStats.AddRowsConcat | src/ScanController.cpp:464-476 | counting rows in two batches is counting them in one |
| CounterMeaning.RowCountersMean | src/Session/ResumePlan.cpp:41-80 | the counters of captured rows: each is the number of rows with its verdict, by type where it has one, or the number or size of one side's entries, and errors are not counted |
| PartialRead.TargetIsRounded | src/Hashing/PartialRead.cpp:6-40 | the split formula is size times percent over 100 MiB rounded half up, at least one |
| PartialRead.NoOverflow | src/Hashing/PartialRead.cpp:6-40 | for every size below 2^63 and percent from 1 to 99 no intermediate value reaches 2^64 |
| PartialRead.PlanShape | src/Hashing/PartialRead.cpp:6-81 | a plan is a full read exactly when the file is small or the blocks would cover it; otherwise its blocks are in bounds, disjoint, ordered, and of exactly the wanted size |
| VerdictMeaning.PlanForMeans | src/Comparison/HashPhase.cpp:23-60 | when less than a whole file is read, and how much |
| PartialRead.CoveredIsPlanned | src/Hashing/Sha256.cpp:101-166 | the covered bytes of an unchanged file are exactly the planned ranges, in order |
| PartialRead.HashLoop.Run | src/Hashing/Sha256.cpp:63-186 | whatever short reads occur, a successful hash has been fed exactly the covered bytes |
| RunResult.CountedOnce | src/Comparison/ConcurrentComparer.cpp:450-557 | every path of the two trees is counted under exactly one verdict |
| CounterMeaning.RunCountersMean | src/Comparison/ConcurrentComparer.cpp:181-244 | each verdict counter of a run is the number of keys with that verdict, by type where it has one |
| CounterMeaning.SideCountersMean | src/Comparison/ConcurrentComparer.cpp:181-244 | the side counters are the numbers of files and directories of the trees and the sums of their file sizes |
| ReportMeaning.ProblemsMean | src/Comparison/ConcurrentComparer.cpp:450-557 | a row is reported if and only if it says what some key shows: the pair's difference, a source-only or a destination-only entry that is a file or has no other such entry below |
| ReportMeaning.CapturedMeans | src/Comparison/ConcurrentComparer.cpp:450-557 | a row is captured if and only if it records some key's pair, or one-sided entry that is shown, with sizes, times, types and verdict |
| ReportMeaning.RowsOnce | src/Comparison/ConcurrentComparer.cpp:450-557 | no key's row is reported or captured twice |
| RunResult.HiddenHasReported | src/Filesystem/PathUtil.cpp:104-113 | a suppressed directory has an entry strictly below it that is not suppressed |
| RunResult.NothingMissingHidden | src/Comparison/ConcurrentComparer.cpp:450-557 | every missing entry has its own row, or is a directory with a reported missing entry below it |
| RunResult.NothingExtraHidden | src/Comparison/ConcurrentComparer.cpp:450-557 | the same for extra entries, over folded paths |
| PathOrder.LowerBound | src/Filesystem/PathUtil.cpp:104-113 | the first position whose key is not less |
| PathOrder.HasDescendant | src/Filesystem/PathUtil.cpp:104-113 | on a sorted list the search is true if and only if some key lies strictly below the directory |
| MatchTable.Matches.Insert | src/Comparison/MatchTable.h:93-147 | store, replace, or remove and return the peer; the shards stay a partition of the table and the counters the numbers of stored entries per side |
| MatchTable.Matches.Remaining | src/Comparison/MatchTable.h:176-185 | every stored entry once, shard by shard, for any number of shards |
| ConcurrentSink.ClassifyMatched | src/Comparison/ClassifyUtil.cpp:81-190 | a pair contributes its verdict, row and captured row at once, or is queued exactly when it is a same-size file pair in Content mode |
| ConcurrentSink.HashOneCandidateInto | src/Comparison/HashPhase.cpp:23-257 | an uncancelled candidate contributes exactly one verdict: changed, then equal or different digests at the applied level, then read errors |
| VerdictMeaning.PlainPairMeans | src/Comparison/ClassifyUtil.cpp:81-190 | the status of a pair of plain entries by types, sizes and mode |
| VerdictMeaning.LinkPairMeans | src/Comparison/ClassifyUtil.cpp:20-79 | the status of a pair with a link by kinds and normalised targets |
| VerdictMeaning.LinkRowMeans | src/Comparison/ClassifyUtil.cpp:20-79 | the row of such a pair describes both sides, with digests exactly where the targets differ |
| VerdictMeaning.HashStatusMeans | src/Comparison/HashPhase.cpp:150-257 | each of the seven statuses of a candidate if and only if its own condition holds: changed, denied, unreadable, or equal or different digests of the whole file or of a part |
| VerdictMeaning.HashRecordMeans | src/Comparison/HashPhase.cpp:150-257 | the recorded level is the requested one exactly where a part was read, with a random pattern resolved; the recorded digests are the ones obtained |
| VerdictMeaning.HashRowMeans | src/Comparison/HashPhase.cpp:150-257 | what the row of a candidate says, and under which root |
| VerdictMeaning.CoverageMeans | src/Comparison/HashPhase.cpp:23-60 | the bytes hashed are the whole file exactly where the verdict is a full one, and the wanted part of it otherwise |
| VerdictMeaning.VerdictOnContents | src/Comparison/HashPhase.cpp:150-257 | full verdicts say whether the contents are equal, partial ones whether the planned parts are, and equal files are never reported |
| ConcurrentComparer.OnEntry | src/Comparison/ConcurrentComparer.cpp:181-244 | one entry is counted, inserted, and its pair classified or queued |
| ConcurrentComparer.FlushHashCandidates | src/Comparison/ConcurrentComparer.cpp:246-273 | cutting batches from the end submits every candidate once |
| ConcurrentComparer.ReportMissing | src/Comparison/ConcurrentComparer.cpp:450-557 | the two passes over what is left of the source give the reference contribution of the missing entries |
| ConcurrentComparer.ReportExtra | src/Comparison/ConcurrentComparer.cpp:450-557 | the same for the destination, with suppression by folded paths |
| ConcurrentComparer.FinalizeMissingExtra | src/Comparison/ConcurrentComparer.cpp:450-557 | what is left in the table, split by side, is reported as the reference says |
| ConcurrentRun.UniqueKeysMeans | src/Comparison/ConcurrentComparer.cpp:17-20 | unique keys, spelled out over positions |
| ConcurrentRun.StepKeeps | src/Comparison/ConcurrentComparer.cpp:181-273 | every atomic step of the workers and hash tasks keeps the result the run is heading for |
| ConcurrentRun.EveryScheduleAgrees | src/Comparison/ConcurrentComparer.cpp:85-179 | whatever the interleaving, a finished run together with the final report gives the reference result of the two trees, and leaves every entry under its own key, as that report needs |
| ConcurrentRun.RunsFinish | src/Comparison/ConcurrentComparer.cpp:85-179 | every step uses up work and an unfinished run always has a step |
| FileComparator.Serial.OnDest | src/Comparison/FileComparator.cpp:26-56 | a streamed destination entry erases and meets its source entry, or is extra at once |
| FileComparator.FilterExtra | src/Comparison/FileComparator.cpp:82-102 | the final filter drops exactly the extra directories with another extra entry below |
| FileComparator.Serial.Run | src/Comparison/FileComparator.cpp:16-264 | counters and differences of the serial comparison equal the reference's, hence those of every concurrent schedule |
| Backpressure.StepKeepsInv | src/Comparison/MatchTable.h:93-169 | every micro-step, hash task, cancellation and spurious wake-up keeps the invariant |
| Backpressure.CountersExact | src/Comparison/MatchTable.h:120-147 | outside critical sections the counters equal the stored counts; they are never negative, and no decrement meets zero |
| Backpressure.SourceStaysBounded | src/Comparison/MatchTable.h:93-118 | until the destination is done or the run cancelled, at most highWater source entries are stored |
| Backpressure.NoLostWakeup | src/Comparison/MatchTable.h:100-118 | a sleeping source whose condition holds has a destination step between its state change and its notification |
| Backpressure.ParksAtMark | src/Comparison/MatchTable.h:93-118 | the source parks only when the mark is reached and goes on only with room, the destination done or the run cancelled; the destination never parks |
| Backpressure.NeverStuck | src/Comparison/MatchTable.h:93-169 | as long as a worker has not finished, some worker can step |
| Backpressure.StepsRunOut | src/Comparison/MatchTable.h:93-169 | every step except a spurious wake-up lowers one measure, and a spurious wake-up raises it by four |
| Backpressure.ThrottledRunEnds | src/Comparison/MatchTable.h:93-169 | a run over streams of a and b entries with k spurious wake-ups has at most 40a + 320b + 91 + 5k steps, and one that cannot be extended has both workers finished |
| Backpressure.StepRefines | src/Comparison/MatchTable.h:120-147 | a micro-step leaves the comparison's state alone or is one of its atomic steps |
| Backpressure.ThrottledRunAgrees | src/Comparison/ConcurrentComparer.cpp:85-179 | every throttled, uncancelled run that ends reports the reference result |
| FileIndex.Index.AddEntry | src/Filesystem/FileIndex.cpp:38-66 | last wins per key, with collision count and running counters that follow the kept record and never underflow |
| FileIndex.Index.TryErase | src/Filesystem/FileIndex.cpp:88-95 | the entry is handed over; the counters keep describing everything added |
| FileIndex.Index.SetHash | src/Filesystem/FileIndex.cpp:68-79 | afterwards the digest of every path with the same key is the one set, and of any other path what it was |
| FileIndex.Index.Build | src/Filesystem/FileIndex.cpp:11-36 | the index of a stream holds the last entry of every key, its counters are the totals of the map, and collisions make up the difference |
| FileIndex.LastWinsMeans | src/Filesystem/FileIndex.cpp:38-66 | an entry stays if no later one has its key |
| ResumePlan.AtOrUnderMeans | src/Session/ResumePlan.cpp:20-25 | the prefix test is true exactly at the directory, below it, or for the root |
| ResumePlan.LastAtIsLast | src/Session/ResumePlan.cpp:159-169 | the indexed position of a path is not before any of its records |
| ResumePlan.IsStale | src/Session/ResumePlan.cpp:224-245 | stale if and only if a type differs, or for files a size or modification time |
| ResumePlan.Plan.OnRecord | src/Session/ResumePlan.cpp:170-257 | one record is reused, routed to the remainders, dropped or refused, with its counters |
| ResumePlan.PlanResume | src/Session/ResumePlan.cpp:145-279 | refused exactly when a journaled path is gone from both sides inside an errored subtree; otherwise exactly the reused keys leave both trees, the last record of a path decides, and every counter counts its keys |
| ResumeMeaning.RemaindersMean | src/Session/ResumePlan.cpp:170-279 | a key leaves both remainders if and only if its last record is no error, both sides are present, typed, sized and timed as recorded, and no errored directory is at or above it; every other present entry stays as it is |
| ResumeMeaning.EntriesMean | src/Session/ResumePlan.cpp:170-257 | the reused records are exactly those, each once, in journal order |
| ResumeMeaning.ProblemsMean | src/Session/ResumePlan.cpp:254-257 | a rebuilt row for every reused record that is not identical, in order |
| ResumeMeaning.RefusedMeans | src/Session/ResumePlan.cpp:183-211 | no plan is made if and only if some last record finds its path gone from both sides with an errored directory at or above it |
| ResumeMeaning.CountsMean | src/Session/ResumePlan.cpp:170-279 | what the counters of a plan count |
| CounterMeaning.ReusedCountersMean | src/Session/ResumePlan.cpp:41-80 | the counters that a resumed run starts with, one by one, over the reused keys |
| CaptureResume.UnchangedTreesKept | src/Session/ResumePlan.cpp:145-301 | resuming over unchanged trees from what a comparison captured, journaled in any order, keeps exactly the keys whose row records a verdict in full, outside errored directories, and is never refused |
| ResumeEqualsFresh.ReusedCounters | src/Session/ResumePlan.cpp:41-80 | a reused row counts what the fresh run counts for its key, unless its record is blind to types |
| ResumeEqualsFresh.ReferenceCounters | src/Comparison/ConcurrentComparer.cpp:181-244 | the counters of a fresh run are one sum over all keys |
| ResumeEqualsFresh.ResumedEqualsFresh | src/ScanController.cpp:955-966 | reused counters plus the comparison of the remainders equal the counters of a fresh run if and only if no reused record is a size mismatch that presence mode or equal recorded sizes make possible |
| ResumeEqualsFresh.TypeBlindReuse | src/Session/ResumePlan.cpp:224-245 | the condition can fail: a directory replaced by an empty file with its modification time |
| ResumeEqualsFresh.ReusedRowIsFresh | src/Session/ResumePlan.cpp:87-140 | for a key of both sides, the row rebuilt from a reused record is the row of a fresh run, or both have none, if and only if the record is not blind to types, the path is spelled as it was, and contents were not compared against a snapshot |
| ResumeEqualsFresh.ReusedMissingIsFresh | src/Session/ResumePlan.cpp:87-97 | a rebuilt missing row is the fresh row if and only if it is not a directory's and the path is spelled as it was |
| ResumeEqualsFresh.ReusedExtraIsFresh | src/Session/ResumePlan.cpp:98-102 | the same for a rebuilt extra row |
| SyncFromResume.MissingDirectoryCopied | src/Sync/SyncPlan.cpp:224-231 | the rebuilt row of a missing directory is planned as a file copy, where the fresh row is planned as a directory; that copy is never done while the source has the directory |
| SyncFromResume.ExtraDirectoryDeletedAsFile | src/Sync/SyncPlan.cpp:232-239 | the rebuilt row of an extra directory is planned as a file deletion, where the fresh row is planned as a teardown; that deletion is never done while the directory is there |
| SyncFromResume.FileRowsPlannedAlike | src/Sync/SyncPlan.cpp:224-239 | rebuilt one-sided rows of files are planned as fresh ones |
| SyncFromResume.MissingDirectoryReused | src/Session/ResumePlan.cpp:224-258 | such a record exists and is reused: an empty directory that only the source has |
| Snapshot.ImageRead | src/Filesystem/FileIndexSerializer.cpp:138-225 | reading a written snapshot gives it back, whatever follows it, if and only if its strings and its record count are within the reader's bounds; otherwise it is rejected |
| Snapshot.PrefixRejected | src/Filesystem/FileIndexSerializer.cpp:49-90 | every proper prefix of a written snapshot is rejected |
| FileFormats.SnapshotRecordLayout | src/Filesystem/FileIndexSerializer.cpp:110-131 | every field of a snapshot's record at its place |
| FileFormats.SnapshotHeaderLayout | src/Filesystem/FileIndexSerializer.cpp:94-110 | the letters BVSI, version 2, the case policy, the root and the counters, then the records |
| Snapshot.RecordExtends | src/Filesystem/FileIndexSerializer.cpp:174-215 | what follows a record, of either version, does not change how it is read |
| Snapshot.Rebuilt | src/Filesystem/FileIndexSerializer.cpp:207-214 | adding the records one by one rebuilds the map, and the digest of every entry that has one, whatever the order of iteration |
| Snapshot.SnapshotRoundTrip | src/Filesystem/FileIndexSerializer.cpp:94-225 | case policy, root, entries and per-entry digests survive if and only if every string is at most 2^24 bytes and there are at most 2^31 entries |
| SnapshotFile.WriteSnapshot | src/Filesystem/FileIndexSerializer.cpp:94-136 | success leaves the whole text; a failing write leaves no file or a beginning of the text; it fails only if a write does |
| SnapshotFile.ReadSnapshot | src/Filesystem/FileIndexSerializer.cpp:138-225 | accepts exactly the bytes that hold an image, of version 1 or 2; the index has the image's case policy, the last record per key, the digests, and counters that are the totals of its entries |
| SnapshotFile.Reader.GetStr | src/Filesystem/FileIndexSerializer.cpp:74-84 | a read past the end or an implausible length makes the stream invalid for good |
| SyncFs.CheckParentChain | src/Sync/SyncPath.cpp:47-84 | true if and only if nothing above the path is a file or a link |
| SyncFs.ClearChildren | src/Sync/SyncFs.cpp:307-360 | one pass over a listing removes listed files and links and stops at the first subdirectory, unlisted entry, unsupported link, error or cancellation |
| SyncFs.DeleteDirGuarded | src/Sync/SyncFs.cpp:221-385 | at every exit each file or link removed was listed and each directory removed was listed or had something listed removed inside; success means the directory is gone with everything below; a skip means an unlisted entry, an unsupported link or outside trouble; an error means outside trouble, a file or link above, or that it is not a directory; the root is never removed; the re-listing loop terminates |
| SyncPlan.ResolveWithinRoot | src/Sync/SyncPath.cpp:11-27 | accepts exactly relative paths of proper components |
| SyncPlan.Planner.AppendMismatchReplace | src/Sync/SyncPlan.cpp:144-192 | the source side decides the write; a real directory in the way of a file or link is torn down first |
| SyncPlan.Planner.OnRow | src/Sync/SyncPlan.cpp:218-256 | each row adds its own actions, summary counters, claim and ancestors |
| SyncPlan.AncestorsOf | src/Sync/SyncPlan.cpp:129-135 | exactly the proper ancestors of a path |
| SyncPlan.IsClaimedBySource | src/Sync/SyncPlan.cpp:197-204 | true if and only if a claimed path is the directory or lies below it |
| SyncPlan.Planner.ScheduleAncestors | src/Sync/SyncPlan.cpp:258-286 | an ancestor of an extra entry is scheduled and listed if and only if it is unclaimed and not scheduled already |
| SyncPlan.BuildSyncPlan | src/Sync/SyncPlan.cpp:208-306 | the groups hold exactly the rows' actions and the scheduled ancestors, in order of length; the summary counts the actions of the plan |
| PlanSummary.SummaryMeans | src/Sync/SyncPlan.cpp:30-52 | each of the eight counters is the number of the plan's actions of that kind; the bytes to copy are those of the source files of all rows that resolve and ask for a file to be written; every row without actions is skipped by its path |
| SyncExecutor.CreateDirAll | src/Sync/SyncFs.cpp:149-196 | success makes every component a directory and changes nothing else; a file or link in the way fails |
| SyncExecutor.PrepareFileDest | src/Sync/SyncExecutor.cpp:55-102 | a link or an empty directory gives way, anything else stays and fails |
| SyncExecutor.RunCopy | src/Sync/SyncExecutor.cpp:114-130 | success leaves the source's file, new parent directories, and nothing else changed; it fails only for outside trouble, a file or link above, or a place that does not give way |
| SyncExecutor.RunLink | src/Sync/SyncExecutor.cpp:132-184 | success leaves a link of the row's kind with the rebased live target |
| SyncExecutor.RunDirCreate | src/Sync/SyncExecutor.cpp:274-306 | success leaves a directory; a file or supported link in its place is removed first |
| SyncExecutor.RunAction | src/Sync/SyncExecutor.cpp:237-358 | the effect of every operation by outcome; a failure means outside trouble, or that the trees do not allow the action |
| SyncExecutor.ExecutePlan | src/Sync/SyncExecutor.cpp:188-363 | failures are counted and do not stop the run; cancellation and a full disk do, and the rest is reported as cancelled; nothing runs without enough free space |
| PlanSummary.BlockedMeans | src/Sync/SyncExecutor.cpp:216-233 | a run is blocked before it starts exactly when those rows ask for more bytes than a known free space |
| LinkTargets.NormalizeRoot | src/Filesystem/PathUtil.cpp:13-29 | the loop gives the normal form, which has no separator at its end beyond the root forms |
| LinkTargets.SplitInsideRoot | src/Filesystem/ReparsePoint.cpp:304-314 | the rest of a target below a root, whatever the case, and nothing for any other target |
| LinkTargets.InsideMeans | src/Filesystem/ReparsePoint.cpp:304-314 | a target is inside a root if and only if, normalised, it is up to case the root, a separator and something more |
| LinkTargets.RebasedInside | src/Filesystem/ReparsePoint.cpp:323-331 | a rebased target is at the same place below the new root |
| LinkTargets.RebaseConverges | src/Filesystem/ReparsePoint.cpp:316-331 | a link's written target compares equal to its source target if and only if that is below the source root or not below the destination root |
| LinkTargets.NeverEqual | src/Filesystem/ReparsePoint.cpp:316-321 | a source target below the destination root only compares equal to no destination target at all |
| LinkTargets.LinkIntoDestination | src/Filesystem/ReparsePoint.cpp:316-331 | a concrete case: roots `C:\A` and `D:\B`, and a source link to `D:\B\x`, which is written as it is and compares different |
| SyncConvergence.UncarriedReported | src/Comparison/ClassifyUtil.cpp:59-78 | every comparison reports such a link as a mismatch, whatever was written before |
| SyncSteps.FinalSame | src/Sync/SyncExecutor.cpp:176-183 | what a run leaves in place of a source entry compares equal to it if and only if the entry is carried over |
| SyncConvergence.ActionsTrue | src/Sync/SyncPlan.cpp:208-306 | every planned action describes its path truthfully on both sides |
| SyncConvergence.AllowedAboveExtra | src/Sync/SyncPlan.cpp:258-286 | whatever a teardown may remove is, or lies above, a destination-only entry |
| SyncConvergence.WritePlanned | src/Sync/SyncPlan.cpp:80-192 | every differing source entry has its write in the plan |
| SyncConvergence.DeletePlanned | src/Sync/SyncPlan.cpp:107-136 | every destination-only file and link has its delete |
| SyncConvergence.VanishPlanned | src/Sync/SyncPlan.cpp:258-286 | every destination-only directory, and every shared one left with nothing of the source, is torn down and listed |
| SyncSteps.StepKeepsSame | src/Sync/SyncExecutor.cpp:237-358 | a step keeps every file and link that was equal on both sides |
| SyncSteps.StepKeepsSafe | src/Sync/SyncExecutor.cpp:237-358 | a step keeps every source directory without destination-only entries below |
| SyncSteps.StepTearsDown | src/Sync/SyncFs.cpp:221-385 | once destination-only files are gone, the teardown of a vanishing directory is not skipped |
| SyncResult.Converges | src/Sync/SyncExecutor.cpp:188-363 | after a run without failure or cancellation, of whose teardowns none was stopped from outside, the destination holds exactly the source's entries, except shared directories of whose source content nothing is left but shared directories above destination-only entries; the final entry of every path is given, and it compares equal to the source's if and only if it is not a link whose target is below the destination root and not below the source root |
| SyncResult.FilesConverge | src/Sync/SyncExecutor.cpp:188-363 | after any run without failure or cancellation: every source file equal, every source link as written, with every directory above them, and no file or link that only the destination had |
| SyncResult.LeftoverReported | src/Sync/SyncExecutor.cpp:305-324 | when such a run leaves a directory that should have gone, its teardown is in the report as skipped, and was stopped from outside |
| SyncFromComparison.StoppedTeardownStays | src/Sync/SyncFs.cpp:373-379 | such a run exists: a removal that fails for outside reasons counts as skipped, so no failure is reported and the destination-only directory stays |
| SyncResult.ReportedClean | src/Sync/SyncExecutor.cpp:188-363 | a report without failure or cancellation stands for such a run, and without outside trouble no teardown was stopped from outside |
| SyncFromComparison.PairRow | src/Comparison/ClassifyUtil.cpp:81-190 | under a full-content comparison whose digests of the two contents do not collide, a pair has a row if and only if the two entries differ, and the row describes both sides |
| SyncFromComparison.LinkRowTrue | src/Comparison/ClassifyUtil.cpp:41-78 | a pair with a link has a row if and only if the two entries differ in type, in link kind or in their targets as compared, and the row describes both sides |
| SyncFromComparison.UnreadableLinkSkipped | src/Comparison/ClassifyUtil.cpp:32-55 | a link of unsupported kind or without readable target is an error, never a mismatch, and nothing is planned for it |
| SyncFromComparison.TwoFilesCompared | src/Comparison/ClassifyUtil.cpp:81-190 | what is assumed of a comparison can be met: two files of the same size and different contents, reported as a content mismatch |
| SyncFromComparison.ComparisonReports | src/Comparison/ConcurrentComparer.cpp:450-557 | the reference rows of a full-content comparison are exactly what the plan needs |
| SyncTotal.NothingUnder | src/Sync/SyncExecutor.cpp:55-102 | once the teardowns are over, nothing is left below the place of a source file or link |
| SyncTotal.ConflictStays | src/Sync/SyncExecutor.cpp:132-184 | whatever is in the way of a differing source file or link is still there when its write comes: teardowns from the deepest path up never remove it |
| SyncTotal.ConflictCreated | src/Sync/SyncPlan.cpp:289-292 | a directory that replaces a file or link is created before anything that lies below it, by the order of path length |
| SyncTotal.NextCan | src/Sync/SyncExecutor.cpp:188-363 | in every state that a run without failures reaches, the next action finds what it needs |
| SyncTotal.NoFailures | src/Sync/SyncExecutor.cpp:188-363 | unless a call fails for outside reasons or the user cancels, no action of a compiled plan fails: the run is complete and reports no failure |
| SyncResult.TwoRunsEqual | src/Sync/SyncExecutor.cpp:188-363 | a second comparison and run over the result leave exactly the source's entries; only links that are not carried over compare different |
| SyncFromComparison.UntroubledSync | src/Sync/SyncExecutor.cpp:188-363 | from the reference rows of a comparison to the end of the run: nothing fails and the destination converges as above |
| SyncFromComparison.SharedEmptyDirDoomed | src/Sync/SyncPlan.cpp:258-286 | the exception is real: a shared directory empty on the source above one extra file |
| IntervalUnion.Union.Insert | src/Profiling/HashProfile.cpp:316-339 | segments stay sorted, disjoint and not touching, and the covered ticks grow by exactly the interval |
| IntervalUnion.Union.Length | src/Profiling/HashProfile.cpp:341-344 | the running total is the number of covered ticks |
| IntervalUnion.Activity.Overlap | src/Profiling/HashProfile.cpp:291-299 | the overlap computed from three lengths is exactly the number of ticks covered by both sides, never negative |
| IntervalUnion.Activity.Record | src/Profiling/HashProfile.cpp:123-130 | a file of one side enters that side's union and the common one |
| DirTiming.HashTop.Add | src/Profiling/DirTiming.cpp:39-66 | estimates sum to the total fed, est - err <= true <= est for tracked directories, and any other true sum is at most every estimate |
| DirTiming.HashTop.Top | src/Profiling/DirTiming.cpp:68-81 | the first displayN of all tracked directories in descending order of estimate |
| DirTiming.HeavyTracked | src/Profiling/DirTiming.cpp:39-66 | every directory above total/counters is tracked |
| DirTiming.ErrorSmall | src/Profiling/DirTiming.cpp:53-66 | the error of a tracked directory is at most an equal share of the total |
| DirTiming.HeavyShown | src/Profiling/DirTiming.cpp:68-81 | every directory above total/displayN is shown when displayN is at most the number of counters |
| RunList.SignedRoundTrip | src/Filesystem/MftEnumerator.cpp:352-358 | a two's complement field of any width is read back |
| RunList.DecodeOfEncode | src/Filesystem/MftEnumerator.cpp:338-372 | decoding an encoded list of runs gives back its extents, whatever follows the terminator |
| RunList.DecodedContiguous | src/Filesystem/MftEnumerator.cpp:338-372 | whatever the bytes, decoded extents have contiguous VCNs |
| FileFormats.TwoRuns | src/Filesystem/MftEnumerator.cpp:338-372 | a run list with a forward and a backward distance, byte by byte |
| RunList.ParseDataRuns | src/Filesystem/MftEnumerator.cpp:338-372 | the loop returns the decoded extents up to the one that passes the highest VCN |
| RunList.NothingCut | src/Filesystem/MftEnumerator.cpp:368-370 | a list that ends with the highest VCN is returned whole |
| RunListStream.ReadNonResidentAttrInto | src/Filesystem/MftEnumerator.cpp:698-735 | the buffer receives the clusters of the decoded extents at their places, and nothing else |
| RunListStream.ReadIndexAllocationStream | src/Filesystem/MftEnumerator.cpp:765-801 | pieces that tile their VCN range, in any order, give their clusters in VCN order cut to the recorded real size |

## Left out

- Paths are sequences of UTF-8 code units and case folding is a function; UTF-8 and UTF-16 conversion, and folding that changes lengths, are not modelled.
- MatchTable.ShardOf: hashes the model's code units where the original hashes UTF-16 units; the results hold for every shard count and every distribution of keys.
- Run counters and byte totals are unbounded; 64-bit wrap-around is modelled only where a format or a formula depends on it.
- Error message texts, progress callbacks, live gauges, peaks and timing values.
- Read errors on existing session files, and a save over an older unrelated session, which is only promised to be flagged.
- SessionStore.CrashSafety: a crash keeps the order of completed file steps; a file system that reorders renames and appends is not modelled.
- ConcurrentRun.EveryScheduleAgrees: needs unique folded keys per side; with duplicates the result depends on the interleaving. Cancelled runs, worker failures and the retry over several enumerators are not modelled in it.
- Backpressure.ThrottledRunEnds: weak memory ordering is not modelled, every step is sequentially consistent.
- ConcurrentSink.HashOneCandidateInto: hashing is a function of the candidate; cancellation, the hash cache and offline digests missing from the index are not modelled.
- FileComparator.Serial.Run: enumeration errors and cancellation are not modelled; captured rows are ignored, the serial comparison has no row observer.
- The order of reported rows and the final sort.
- ResumeEqualsFresh.ResumedEqualsFresh: counters only, on trees without links, for rows captured under the same settings with digests determined by path, size and time; the row list can gain directory rows whose children were reused.
- SyncResult.Converges: there is no concurrent change, and no unsupported link.
- SyncFs.DeleteDirGuarded: attributes are not modelled.
- SyncExecutor.RunCopy: modification times and attributes are not part of a file's contents.
- Manual single-row plans, containment of absolute roots, and roots given with a trailing separator.
- SyncFromComparison.ComparisonReports: the digests of two compared files that differ are different; a collision would hide the pair.
- LinkTargets.RebaseConverges: of roots with two or more characters in normal form, that have one long-path prefix at most and are not named like the comparison form `<root>`; every call to the operating system needs as much.
- SyncTotal.NoFailures: assumes that every source link has a target and every junction an absolute one; otherwise its action fails by design.
- Snapshot.SnapshotRoundTrip: string sizes and counts are below 2^64, as any machine's are.
- IntervalUnion.Activity.Overlap: in ticks; the conversion to seconds is not modelled.
- DirTiming.HashTop.Add: one run side, with real numbers instead of floating point; the exact top-N heap of listing times is left out.
- RunList.DecodeOfEncode: field widths up to 7 bytes and no sparse runs; 8-byte fields would wrap in 64 bits.
- RunListStream.ReadNonResidentAttrInto: cancellation is not modelled, and reading a cluster always succeeds.
- Enumerators, volume access, MFT record parsing, the hash function itself, the thread pool, the hash cache, the user interface, the command line and the exporters.
