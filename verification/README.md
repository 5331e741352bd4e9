# mcpglass, modelled and proved in Dafny

mcpglass sits between an MCP client and an MCP server. It forwards newline-delimited JSON-RPC
frames in both directions, may refuse a request under a policy, records what it saw, pins the
tool definitions a server offers so that a later change is noticed, and rewrites client
configuration files so that the client talks to it.

This project models the parts of it whose correctness depends on state kept over a whole run,
and proves what they promise for every input, every run and, where two tasks share something,
every interleaving.

| files | component |
|---|---|
| `Common.dfy`, `Sequences.dfy`, `Machine.dfy`, `Lines.dfy` | options and bytes, sequences, state machines that emit output, lines of a byte stream |
| `Fingerprints.dfy`, `FingerprintSafety.dfy`, `FingerprintRekey.dfy`, `FingerprintHistory.dfy`, `FingerprintBaseline.dfy`, `ToolBaselines.dfy` | the rug-pull fingerprint table of the storage crate |
| `RugPull.dfy`, `Listings.dfy` | one tools/list response recorded, and what a run of responses raises |
| `Prune.dfy` | deleting sessions, by age and down to a size |
| `Json.dfy`, `JsonMembers.dfy`, `JsonText.dfy`, `Canonical.dfy`, `ToolHashes.dfy` | JSON values, their members, their printed text and a reader of it, canonical JSON, the three fingerprint versions |
| `Framing.dfy`, `FramingLaws.dfy` | the two newline framers |
| `Sse.dfy`, `SseReference.dfy` | the server-sent-events splitter and the whole-stream reference |
| `Policy.dfy`, `PolicyFrames.dfy` | the decision about one client frame |
| `Pump.dfy`, `PumpLaws.dfy`, `PumpReports.dfy`, `ServerPump.dfy` | the two pumps |
| `Stdout.dfy`, `StdoutPumps.dfy` | the stdout both pumps share under a lock |
| `Tap.dfy`, `TapLaws.dfy`, `TapEviction.dfy`, `TapRecency.dfy`, `TapProtocol.dfy`, `TapFrames.dfy` | the storage thread's correlation of requests and answers, what its bound costs, and the protocol version it stores |
| `Inject.dfy` | the fault injector and its generator |
| `Routes.dfy`, `Attach.dfy`, `AttachLaws.dfy`, `AttachReach.dfy` | gateway routes, attaching and detaching a configuration document |
| `Argv.dfy` | the argv of a recorded command line |

Objects whose methods update fields are classes, and each method is proved against a function of
the old state; the laws are then lemmas about those functions and about runs of them. What the
model cannot see is a parameter: JSON parsing, the secret scan, the hash, the size of the
database, the file-stem test on a command, which channel sends are dropped, where a pipe breaks,
timestamps and the seed.

## What the proofs found

Some promises in the comments hold only under a condition. The code is modelled as it is, failing
inputs are lemmas, and the exact condition is proved.

* The UNIQUE index is never hit in any run exactly when no two servers are entangled: the legacy
  key of one being the other's own key, and the other's legacy key not being the first one's
  (`NeverCollidesExactlyWhen`, with the failing run in `EntangledCollides`). Servers that are each
  other's legacy key never collide, but share rows: a server's outcomes depend on its own
  observations alone exactly when it is no other server's legacy key (`AlwaysTimedExactlyWhen`).
* The lazy re-key keeps an established baseline, in every run on every database from before the
  structured keys, exactly when no other server has the same legacy key
  (`AlwaysBaselinedExactlyWhen`). The legacy key is the argv joined with blanks, so argvs that
  differ only in where a token ends share one; the first to record takes all the rows, and the
  other starts anew (`SharedRowsGo`).
* Reverts are found by the time of the last sighting, and one tools/list response gives all its
  tools one timestamp. After a response that lists a new definition of a tool and then the old one
  again, a change to the new one is missed (`MissedAlarm`) and staying with the old one raises an
  event (`FalseAlarm`). `FlaggedExactlyWhen` says for arbitrary times exactly when an event is
  raised, and exactly when that is as promised: the definition is like the one before if and only
  if it is the newest. That is so for every next definition exactly when the last one sighted is
  the newest (`InStepExactlyWhen`).
* The newline framers are not independent of chunking: an over-long line that arrives in one read
  with its newline is kept, and dropped when a read ends inside it (`ChunkingMatters`).
  `ChunkingExactlyWhen` gives the condition. The SSE splitter is independent of chunking for
  every cap, zero included.
* Stdout is never left within a line, over all interleavings, exactly when no read from the server
  ends inside an over-long line and, once its input has ended, nothing was left unfinished
  (`PumpsAtomicExactlyWhen`). Otherwise a refusal can land inside the server's line, as it does in
  `OverlongSplits`.
* Detach restores a document exactly when every entry is restorable
  (`DetachUndoesAttachExactlyWhen`); a server named `--` and an empty args array are not restored
  (`SeparatorNameIsLost`, `EmptyArgsAreLost`).
* Frames are correlated as the trace says exactly while no id is evicted, which is exactly while at
  most 1024 requests of the kind are outstanding (`NoEvictionExactlyWhen`). With evictions, and
  requests of the kind at strictly increasing times, an id is tracked exactly when it is awaited
  and never had 1024 younger awaited ids beside it (`TrackedFromTrace`).
* Ids are compared as text, so a response with the id 1 answers a request with the id "1"; two
  numbers, or two strings, are taken for one id exactly when they are equal (`AlikeExactly`).

## Model

| member | source | states |
|---|---|---|
| Fingerprints.Store.RecordFingerprint | crates/storage/src/lib.rs:1158-1241 | one transaction: lazy re-key of the legacy rows, comparison with the stored history, one write; on any index violation the table is as before |
| Fingerprints.Store.ClassifyFingerprint | crates/storage/src/lib.rs:1272-1316 | empty history inserts, a match on the head is unchanged, an older match is a revert and re-pins that row, no match inserts |
| Fingerprints.Store.InsertFingerprint | crates/storage/src/lib.rs:1319-1342 | appends one current-version row under a fresh id, or fails on the index and changes nothing |
| Fingerprints.Store.TouchFingerprint | crates/storage/src/lib.rs:1344-1366 | rewrites the rows with that id only: newest sighting, and the current hash when the row's algorithm is older |
| FingerprintSafety.HistoryExact | crates/storage/src/lib.rs:1247-1268 | the SELECT returns exactly the rows of its scope, a most recent one first |
| FingerprintSafety.HistoryOrdered | crates/storage/src/lib.rs:1247-1268 | all its rows are in order of recency, then id, and each comes as often as it is stored |
| FingerprintSafety.SafeIsUnique | crates/storage/src/lib.rs:564-564 | the invariant "each definition matches at most one row of a scope" implies the UNIQUE index, across hash versions |
| FingerprintSafety.RekeySafe | crates/storage/src/lib.rs:1209-1241 | moving every legacy row to the server's own key keeps the invariant |
| FingerprintSafety.TouchSafe | crates/storage/src/lib.rs:1344-1366 | re-pinning a row to the current algorithm keeps the invariant and rewrites exactly one row |
| FingerprintSafety.InsertSafe | crates/storage/src/lib.rs:1319-1342 | inserting an unmatched definition keeps the invariant |
| FingerprintSafety.RecordSafe | crates/storage/src/lib.rs:1158-1241 | unless servers are entangled a call succeeds, keeps the invariant and preserves every row's id, tool, session and first sighting |
| FingerprintSafety.RunSafe | crates/storage/src/lib.rs:1138-1366 | from any table that satisfies the invariant and unless servers are entangled, every call of every run succeeds, the index is never hit and no row is lost |
| FingerprintSafety.OneVersionMatchesOnce | crates/storage/src/lib.rs:564-564 | any table of version-1 rows that satisfies the index satisfies the matching half of the invariant |
| FingerprintSafety.UpgradedIsSafe | crates/storage/src/lib.rs:626-676 | a table of version-1 rows under keys that are no server's new key satisfies the whole invariant, so every run on an upgraded database is covered |
| FingerprintSafety.EntangledCollides | crates/storage/src/lib.rs:1209-1241 | for any two entangled servers, a run of three calls that succeed and a fourth that hits the index |
| FingerprintSafety.NeverCollidesExactlyWhen | crates/storage/src/lib.rs:1138-1241 | for every set of servers: no run on a new table ever hits the index exactly when no two servers are entangled |
| FingerprintRekey.StepMoved | crates/storage/src/lib.rs:1209-1241 | one call against the lazy table and against the eagerly re-keyed one gives the same outcome and keeps the two in step |
| FingerprintRekey.LazyRekeyRefines | crates/storage/src/lib.rs:1209-1241 | in every run of one server the lazy re-key gives the outcomes of having stored all legacy rows under the new key from the start, with no row lost or duplicated |
| FingerprintHistory.RunOutcomes | crates/storage/src/lib.rs:1247-1316 | in every run from any established baseline and whatever is recorded in between, every outcome is the timed rule on the baseline and the server's own observations since |
| FingerprintHistory.RunTracks | crates/storage/src/lib.rs:1247-1366 | after every run from any baseline the rows of a tool are exactly its distinct definitions, in order of first sighting, each with its last sighting |
| FingerprintHistory.StrictTimesArePlain | crates/storage/src/lib.rs:1272-1316 | with strictly increasing times the store's rule is New, Unchanged, Reverted or Changed as promised |
| FingerprintHistory.PromiseKeptExactlyWhen | crates/storage/src/lib.rs:1247-1316 | in every run from any baseline and for arbitrary times, a recorded outcome is New, Unchanged, Reverted or Changed as promised exactly when the definition is as the previous one if and only if it is the latest |
| FingerprintHistory.AlwaysTimedExactlyWhen | crates/storage/src/lib.rs:1209-1241 | a server's outcomes depend on its own observations alone, in all runs, exactly when it is no other server's legacy key |
| FingerprintBaseline.RecordCompares | crates/storage/src/lib.rs:1209-1316 | one recording into any table of the invariant, rows of all versions included: the outcome is that of comparing, each row on its own version's hash, with the server's own rows, failing these with the legacy ones |
| FingerprintBaseline.FirstCompares | crates/storage/src/lib.rs:1138-1241 | in every run the first recording of a tool is compared with the rows the run started with, whatever was recorded and moved in between |
| FingerprintBaseline.FirstAfterUpgrade | crates/storage/src/lib.rs:1138-1146 | the first recording of a tool with legacy rows is never New, Unchanged exactly when the most recent of them matches on its own version's hash, and Changed exactly when none does |
| FingerprintBaseline.SharedRowsGo | crates/storage/src/lib.rs:1209-1235 | a run in which a server that shares the legacy key takes the rows along and the other one's definition counts as New |
| FingerprintBaseline.AlwaysBaselinedExactlyWhen | crates/storage/src/lib.rs:1138-1155 | a server's baselines survive the upgrade in every run exactly when no other server has the same legacy key |
| ToolBaselines.DefinitionsDecide | crates/storage/src/lib.rs:1272-1316 | one recording against rows that stem from definitions seen before, under any hash versions: Unchanged exactly when it cannot be told from the one sighted last in the fields the row's version pins, Reverted when only from an older one, New when there is none |
| ToolBaselines.OneStoredDefinition | crates/storage/src/lib.rs:1292-1298 | a row stored from a definition under version n, the only one of its tool: the next definition is Unchanged exactly when the first n + 2 fields agree, and Changed otherwise |
| ToolBaselines.FirstDefinitionDecides | crates/storage/src/lib.rs:1138-1241 | the same of the first recording of a tool in any run, whatever was recorded and moved before it |
| ToolBaselines.RecordWrites | crates/storage/src/lib.rs:1209-1366 | the whole table after a recording: legacy rows at the new key if the tool had rows there only, then one current row more, or one row of the tool brought up to the current version and nothing else changed |
| RugPull.RecordFingerprints | crates/cli/src/tap.rs:423-470 | records every named tool of one response in order with one timestamp, an error on one not stopping the others, and raises an event for each changed or reverted one |
| Listings.ResponseLists | crates/policy/src/lib.rs:424-450 | what is sighted in a response: exactly the tools with a name under result.tools, in order, each as it stands there |
| Listings.NothingListed | crates/policy/src/lib.rs:424-450 | a response without such an array sights nothing |
| Listings.RaisedSays | crates/cli/src/tap.rs:435-462 | the events of a sighting in full: none, or one with the tool, the time, and whether the definition changed or came back |
| RugPull.DefinitionsCompared | crates/cli/src/tap.rs:423-470 | in every run from an empty table, with an ideal hash and at whatever times, the outcome is decided by comparing the JSON definitions, up to key order in the five pinned fields, with those seen before |
| RugPull.FlaggedExactlyWhen | crates/cli/src/tap.rs:438-462 | exactly when an event is raised, at whatever times, and exactly when that is as promised, one event for each definition that differs from the one before; increasing times are enough |
| RugPull.InStepExactlyWhen | crates/cli/src/tap.rs:438-462 | from the past alone: the promise is kept for every next definition exactly when the last one sighted is the newest |
| RugPull.TiedNewest | crates/cli/src/tap.rs:435-438 | of two definitions in one response the one first sighted later is the newest, although the other one came last |
| RugPull.MissedAlarm | crates/cli/src/tap.rs:435-462 | three responses, for any two definitions of one tool, after which a changed definition raises no event |
| RugPull.FalseAlarm | crates/cli/src/tap.rs:435-462 | three responses, for any two definitions of one tool, after which an unchanged definition raises an event |
| Prune.Store.DeleteSession | crates/storage/src/lib.rs:1504-1515 | a missing id changes nothing and reports none; otherwise exactly that session's rows go and are counted |
| Prune.Store.DeleteSessionRows | crates/storage/src/lib.rs:1727-1746 | the four deletes remove the session from every table and count what each removed |
| Prune.Store.PruneSessionsBefore | crates/storage/src/lib.rs:1522-1547 | exactly the sessions started before the cutoff go, from every table, although the subquery is evaluated again for each delete |
| Prune.Store.PreviewSessionsBefore | crates/storage/src/lib.rs:1551-1567 | the dry run reports the very counts the real run returns |
| Prune.Store.OldestSession | crates/storage/src/lib.rs:1590-1600 | none exactly for an empty table, otherwise an id no session precedes in (start, id) order |
| Prune.Store.PruneToMaxSize | crates/storage/src/lib.rs:1633-1648 | terminates with the shortest prefix of the (start, id) order deleted that reaches the target, or with no session left; the counts are the rows lost |
| Prune.OldestUntilUnique | crates/storage/src/lib.rs:1633-1648 | for an arbitrary size function, only one set of sessions can be the result of pruning to a size |
| Prune.OldestGoFirst | crates/storage/src/lib.rs:1590-1648 | of a session pruned to a size and a survivor, the pruned one started earlier, or at the same time with a lower id |
| Prune.OneSooner | crates/storage/src/lib.rs:1633-1648 | deleting the oldest survivor extends a prefix to the next longer prefix, with none in between |
| Prune.SurvivorsKeepTheirRows | crates/storage/src/lib.rs:1727-1746 | every other session keeps all its rows in order in all four tables, fingerprints stay, and kept plus reported rows are the rows there were |
| Prune.LostAgain | crates/storage/src/lib.rs:367-374 | the counts of successive deletions add up to those of one deletion |
| Prune.AgePrunesAPrefix | crates/storage/src/lib.rs:1522-1547 | age pruning deletes a prefix of the order and leaves exactly the sessions from the cutoff on |
| JsonText.TextDetermines | crates/policy/src/lib.rs:506-536 | no two JSON values print alike, whatever follows them (string escapes of section 7 of RFC 8259) |
| JsonText.ValueReads | crates/policy/src/lib.rs:506-536 | a reader after RFC 8259 gives back every value from its printed text and leaves what follows |
| JsonText.EscapesAreShort | crates/policy/src/lib.rs:506-536 | every character is printed in the shortest form such a reader takes, with small hexadecimal digits |
| Canonical.WriteCanonical | crates/policy/src/lib.rs:506-536 | the recursive writer appends the canonical text: keys sorted at every depth, nothing else changed |
| Canonical.CanonicalUnambiguous | crates/policy/src/lib.rs:506-536 | two values have the same canonical text exactly when they are equal up to key order at every depth |
| Canonical.CanonicalKeysAscend | crates/policy/src/lib.rs:506-536 | the keys of every canonical object ascend, compared character by character |
| ToolHashes.VersionsSee | crates/policy/src/lib.rs:349-399 | with an ideal hash two tools share a version-n fingerprint exactly when the first 3, 4 or 5 fields agree up to key order, a missing field counting as null |
| ToolHashes.HashedText | crates/policy/src/lib.rs:349-399 | the text hashed under each version, letter by letter: an object of three, four or five fields in ascending order, null for a missing one |
| ToolHashes.VersionsNeverMeet | crates/policy/src/lib.rs:349-399 | fingerprints of different versions never coincide |
| ToolHashes.HashesCoherent | crates/policy/src/lib.rs:393-399 | equal v3 implies equal v2 implies equal v1 and versions never meet, which is what the fingerprint store's safety rests on |
| Framing.LineSplitter.Push | crates/proxy-core/src/lib.rs:85-108 | one read against the line-wise meaning: completed lines are emitted, an over-long one is discarded up to its newline |
| Framing.FramedStream.Push | crates/cli/src/security.rs:97-132 | one read against the line-wise meaning: frames, and raw segments of over-long frames of which only the last ends in a newline |
| Framing.FramedStream.Finish | crates/cli/src/security.rs:138-146 | hands out the unfinished frame once, if there is one |
| FramingLaws.StreamConserved | crates/cli/src/security.rs:97-146 | on any reads the chunks' wire bytes followed by the pending bytes are the bytes read |
| FramingLaws.StreamsAgree | crates/cli/src/security.rs:97-132 | for equal caps and any reads the gate's frames are the lines the tap's splitter emits, and the two hold the same fields |
| FramingLaws.ChunkingExactlyWhen | crates/proxy-core/src/lib.rs:85-108 | two reads behave as one exactly when the first does not end inside an over-long line that the second completes |
| FramingLaws.FramesChunkingExactlyWhen | crates/cli/src/security.rs:97-132 | the same condition for the frames of the forwarding framer |
| FramingLaws.FittingStream | crates/cli/src/security.rs:97-132 | when every line fits the cap both framers emit exactly the lines of the whole stream, however it is cut |
| FramingLaws.WrittenLinesAreRead | crates/proxy-core/src/lib.rs:85-108 | lines written with a newline (10) after each, and cut into reads anywhere, are the lines both framers yield |
| FramingLaws.ChunkingMatters | crates/proxy-core/src/lib.rs:85-108 | a stream that yields a line in one read and none in two |
| Sse.Splitter.Push | crates/proxy-core/src/sse.rs:64-86 | one push against the line-wise meaning of the whole chunk |
| Sse.Splitter.PushLine | crates/proxy-core/src/sse.rs:64-86 | taking one newline off the chunk leaves the meaning of the rest of the push as it was |
| Sse.Splitter.BufferLineBytes | crates/proxy-core/src/sse.rs:89-98 | a piece that would pass the cap empties the line buffer and marks the event over-long |
| Sse.Splitter.HandleOneLine | crates/proxy-core/src/sse.rs:103-146 | dispatch on a blank line, data fields joined by newlines, an over-long event emits nothing |
| SseReference.PushIsFeed | crates/proxy-core/src/sse.rs:64-98 | pushing a chunk equals feeding it byte by byte |
| SseReference.ChunkingIndependent | crates/proxy-core/src/sse.rs:60-154 | pushing a then b gives the state and the events of pushing their concatenation, for every cap |
| SseReference.LinewiseIsEvents | crates/proxy-core/src/sse.rs:103-146 | from inside an unfinished event the remaining lines yield the events of the reference |
| SseReference.DataLineExactly | crates/proxy-core/src/sse.rs:119-133 | which lines of the reference are data and with which value, in bytes: `data`, `data:` v with no space in front of v, or `data: ` v, one carriage return at the end dropped |
| SseReference.EqualsReference | crates/proxy-core/src/sse.rs:60-154 | for any chunks and cap the output is that of a whole-stream reference with its own reading of a line in bytes: an event exactly when there is a data field, every line fits and the joined data fits (section 9.2.6 of the WHATWG HTML Standard without lone-CR line ends) |
| SseReference.MessageIsRead | crates/proxy-core/src/sse.rs:60-154 | an event sent as several `data: ` lines is read as their values joined by newlines, however its bytes are cut |
| SseReference.OneValueIsRead | crates/proxy-core/src/sse.rs:119-133 | the bytes of `data: ` v and a blank line yield exactly v |
| Policy.CollectStrings | crates/policy/src/lib.rs:293-303 | appends every string value at any depth, in document order, and no keys |
| PolicyFrames.StringsInOrder | crates/policy/src/lib.rs:293-303 | the strings of an array or an object are those of its parts one after the other, keys left out |
| Policy.ScanRequestArguments | crates/policy/src/lib.rs:275-291 | scans exactly the strings under params.arguments |
| Policy.EvaluateRequest | crates/policy/src/lib.rs:594-648 | deny before secrets, events in that order, and the action that follows |
| Policy.ReportsAreTrue | crates/cli/src/security.rs:177-232 | every finding is reported with the truth about the frame: it was withheld exactly when enforce mode had something to report, and refused exactly when the reports name a request id |
| Policy.DenyFinds | crates/policy/src/lib.rs:659-685 | the first-match search refuses exactly when some deny pattern matches |
| Policy.BlockedExactlyWhen | crates/policy/src/lib.rs:594-685 | a request is blocked exactly in enforce mode, for tools/call, when the lists refuse the tool or an enabled scan finds a secret |
| PolicyFrames.WithheldExactlyWhen | crates/cli/src/security.rs:177-232 | over JSON frames: exactly the calls, in enforce mode, whose params.name a deny rule covers or an allow list lacks, or whose params.arguments hold a secret |
| PolicyFrames.CoversExactly | crates/policy/src/lib.rs:680-685 | a rule covers the name it spells, and one that ends in a star every name that starts like it |
| PolicyFrames.FindingsOf | crates/policy/src/lib.rs:594-648 | what is reported of a call: the first deny rule that covers it, or that it is not allowed, then each secret in document order; of other frames nothing |
| PolicyFrames.RefusedUnderItsId | crates/cli/src/security.rs:213-260 | read back as UTF-8 and JSON, a refusal is a JSON-RPC error -32001 for the request's own id that cites the first finding; a frame without an id is dropped |
| Policy.MonitorPasses | crates/policy/src/lib.rs:643-648 | monitor mode never withholds a frame |
| Policy.SerializedNoNewline | crates/cli/src/security.rs:241-252 | serialized JSON holds no newline, whatever its strings contain |
| Policy.RefusalIsOneLine | crates/cli/src/security.rs:177-260 | the reply to a refused request is exactly one line |
| Pump.PumpC2s | crates/cli/src/main.rs:783-982 | whatever the channel drops and wherever the server's pipe breaks, the server holds what fits of the bytes the gate lets through, and the client and the channel have exactly what comes before the effect that broke the pipe |
| Pump.ReachesOnce | crates/cli/src/main.rs:894-899 | how many effects are carried out is settled by the server's pipe, and it is all of them if the pipe never breaks |
| Pump.HandleFrame | crates/cli/src/main.rs:860-970 | the wire action, then the recording, then the events; after a failed write to the server nothing else happens, and a broken client pipe stops nothing |
| Pump.HandleRaw | crates/cli/src/main.rs:818-859 | a segment of an over-long frame is forwarded in monitor mode and dropped in enforce mode, with one event at its onset |
| PumpLaws.MonitorTransparent | crates/cli/src/main.rs:796-982 | in monitor mode, for every policy, chunking and cap, the server is sent exactly the client's bytes |
| PumpLaws.EnforceSends | crates/cli/src/main.rs:800-981 | in enforce mode the server is sent exactly the passed frames with their newlines, in order, then the unfinished tail, and the client exactly the refusals |
| PumpLaws.EnforceFittingStream | crates/cli/src/main.rs:800-981 | when every line fits, both depend on the client's byte stream alone |
| PumpLaws.ClientSees | crates/cli/src/main.rs:930-939 | in either mode the client is sent exactly the refusals, one after the other |
| PumpLaws.RecordsEveryFrame | crates/cli/src/main.rs:941-960 | every frame is offered to the recording in order, passed or not, unless recording is off |
| PumpReports.FramesAndFindings | crates/cli/src/main.rs:941-969 | besides over-long onsets the storage thread is told exactly each frame, if recorded, followed by every finding about it, in order |
| PumpReports.EveryFindingIsTold | crates/cli/src/main.rs:961-969 | the findings told are exactly those of the decided frames, in order, recorded or not |
| PumpReports.BlocksLeaveATrace | crates/cli/src/main.rs:961-969 | every frame a policy withholds has a report in its place, and exactly the reports of withheld frames say they were blocked |
| PumpReports.ToldAfterwards | crates/cli/src/main.rs:880-969 | before a frame is sent or refused the storage thread has been told of exactly the frames before it |
| PumpLaws.LatchRead | crates/cli/src/main.rs:800-859 | over one read the drop latch follows the framer's overflow flag and one onset gives one event |
| PumpLaws.LatchFollowsFramer | crates/cli/src/main.rs:800-859 | after any reads the latch equals the framer's flag and each over-long frame has been reported once |
| ServerPump.PumpS2c | crates/cli/src/main.rs:988-1104 | the client holds what fits of exactly the server's bytes, whatever the channel drops, and exactly the frames among the chunks that stdout took whole have been offered to the recording |
| Stdout.RunInv | crates/cli/src/main.rs:394-398 | at every point of every interleaving the bytes out are the finished units plus the written part of the one under the lock |
| Stdout.FrameAtomic | crates/cli/src/main.rs:1040-1047 | whenever the lock is free stdout is whole lines, each pump's being the first of its own in its own order |
| Stdout.FinallyMerged | crates/cli/src/main.rs:930-936 | when both are done stdout is an order-preserving merge of all their units |
| Stdout.AlwaysWholeExactlyWhen | crates/cli/src/main.rs:394-398 | over all interleavings stdout is whole lines whenever the lock is free exactly when every unit either pump writes is a line |
| StdoutPumps.UnitsAreWritten | crates/cli/src/main.rs:549-560 | the units of the model are what the pumps write: every byte the server sent, and every byte the gate answers |
| StdoutPumps.ServerUnitsAreLines | crates/cli/src/main.rs:1012-1047 | the server pump writes only whole lines exactly when no read ends inside an over-long line and nothing is left unfinished |
| StdoutPumps.PumpsShareStdout | crates/cli/src/main.rs:988-1104 | in every interleaving of the two pumps the client has the first units of each in order, and at the end exactly the server's bytes and the refusals, merged unit by unit |
| StdoutPumps.PumpsAtomicExactlyWhen | crates/cli/src/main.rs:394-398 | for every policy and client input, over all interleavings: stdout is never left within a line exactly when no read from the server ends inside an over-long line and, at its end, nothing is unfinished |
| StdoutPumps.OverlongSplits | crates/cli/src/main.rs:1014-1025 | two reads of one over-long line, a denied call, and an interleaving in which the refusal lands inside the line |
| StdoutPumps.OneRead | crates/proxy-core/src/lib.rs:85-108 | a line that comes whole in one read is one frame, however long it is |
| Tap.StorageLoop.HandleFrame | crates/cli/src/tap.rs:246-386 | the effect of one tapped frame on both maps, the latch and the stored version |
| Tap.StorageLoop.Handle | crates/cli/src/tap.rs:240-410 | one drained message of any kind as one step of the transition relation |
| Tap.StorageLoop.NoteTools | crates/cli/src/tap.rs:39-52 | notes an id; a full map loses exactly one entry, one of the oldest |
| Tap.StorageLoop.NoteInit | crates/cli/src/tap.rs:90-103 | the same for initialize ids with their proposals |
| Tap.OldestOf | crates/cli/src/tap.rs:39-52 | the search returns an id no other entry is older than |
| TapLaws.RunBounded | crates/cli/src/tap.rs:21-131 | in every run both maps hold at most 1024 ids and never share one |
| TapLaws.ToolsAreAwaited | crates/cli/src/tap.rs:338-368 | a tracked id is one whose latest client request is an unanswered tools/list, and without eviction all such ids are tracked |
| TapLaws.FingerprintedExactlyWhen | crates/cli/src/tap.rs:246-368 | a frame is fingerprinted only when, and without eviction exactly when, it is a non-error answer to an awaited tools/list |
| TapLaws.InitIsAwaited | crates/cli/src/tap.rs:346-351 | a tracked initialize id carries what its latest request proposed |
| TapLaws.InitializeIsFinal | crates/cli/src/tap.rs:475-522 | a version stored from an initialize handshake never changes, evictions or not |
| TapEviction.NoEvictionExactlyWhen | crates/cli/src/tap.rs:39-52 | nothing is evicted exactly when the trace never has more than 1024 requests of the kind outstanding |
| TapEviction.FingerprintedFromTrace | crates/cli/src/tap.rs:246-368 | while at most 1024 tools/list requests are outstanding, which frames are fingerprinted is a fact about the trace alone |
| TapEviction.FingerprintedDespiteEviction | crates/cli/src/tap.rs:37-62 | with evictions, a frame is fingerprinted exactly when it is a good answer on an id that was not itself dropped since its request |
| TapEviction.DroppedIsOldest | crates/cli/src/tap.rs:39-52 | of either kind, an id is dropped only by a new request of its kind on a full map, and only one of the oldest |
| TapEviction.TrackedExactlyWhen | crates/cli/src/tap.rs:37-103 | in every run and for either kind, an id is tracked exactly when its latest request is unanswered and it was not itself dropped since |
| TapRecency.TrackedFromTrace | crates/cli/src/tap.rs:37-103 | when requests of the kind come at strictly increasing times, the trace alone says which ids are tracked: those awaited that never had 1024 younger awaited ids beside them |
| TapRecency.FingerprintedIfRecent | crates/cli/src/tap.rs:246-368 | so it does which frames are fingerprinted, evictions or not |
| TapProtocol.ProtocolStored | crates/cli/src/tap.rs:369-389 | in every run, evictions or not: the stored version is that of the first answer carrying one to an initialize that is still tracked, with its own request's proposal, else of the first header hint, else none |
| TapProtocol.ProtocolFromTrace | crates/cli/src/tap.rs:369-389 | while at most 1024 initialize requests are outstanding, every such answer counts, a fact about the trace alone |
| TapProtocol.ProtocolFromRecent | crates/cli/src/tap.rs:369-389 | with initialize requests at strictly increasing times, exactly the answers to requests that never had 1024 younger ones beside them count |
| TapFrames.AlikeExactly | crates/proxy-core/src/lib.rs:136-140 | two ids are taken for one exactly when they are equal or the one is a string that spells the other; different numbers never are |
| TapFrames.VersionsExactly | crates/cli/src/tap.rs:264-271 | a request proposes what stands at params.protocolVersion, an answer selects what stands at result.protocolVersion |
| TapFrames.ListingsAreFingerprinted | crates/cli/src/tap.rs:246-368 | over JSON lines: fingerprinted are exactly the responses without error and method on an id whose latest request is an unanswered `tools/list` |
| TapFrames.HandshakeIsStored | crates/cli/src/tap.rs:479-502 | over JSON lines: the first error-free response with a version to an `initialize` is what is stored, with the version its request proposed |
| TapFrames.HeaderIsStored | crates/cli/src/tap.rs:507-522 | without a handshake the first header's version is stored, and without a header nothing |
| TapFrames.ShortTraces | crates/cli/src/tap.rs:21-52 | of at most 1024 lines no id is ever evicted |
| Inject.Injector.Decide | crates/policy/src/inject.rs:227-249 | the hit is the first rule that is eligible and whose own draw succeeds; only its counter grows and the generator advances once for each roll made |
| Inject.Injector.Try | crates/policy/src/inject.rs:228-247 | one rule's chance: an ineligible or exhausted rule draws nothing |
| Inject.Injector.Roll | crates/policy/src/inject.rs:238-241 | a certain rule hits without a draw, any other hits when the draw is below its probability |
| Inject.Injector.NextDraw | crates/policy/src/inject.rs:269-281 | one step of xorshift64* and the top 53 bits of its product |
| Inject.Draw | crates/policy/src/inject.rs:279-281 | a draw is a whole number of 53 bits, so that divided by 2^53 it lies in [0, 1) |
| Inject.KnownDraws | crates/policy/src/inject.rs:263-281 | the first draws of three seeds, zero included, as constants |
| Inject.NextNonZero | crates/policy/src/inject.rs:269-276 | a non-zero state has a non-zero successor |
| Inject.RunCounts | crates/policy/src/inject.rs:199-249 | in every run each counter grows by the times its rule fired, none passes its limit, and the state is never zero |
| Inject.OneRuleFiresExactlyWhen | crates/policy/src/inject.rs:227-249 | the only rule of a file fires exactly on frames of its direction and filter, within its limit, when it is certain or the draw is below its probability's share of 2^53; the state after |
| Inject.CertainRulesAreReproducible | crates/policy/src/inject.rs:222-225 | a file of certain rules never advances the generator |
| Inject.FirstRuleFiresUpToItsLimit | crates/policy/src/inject.rs:232-237 | a certain first rule fires on every frame it accepts until its limit, and never after |
| Inject.NamesIdentifyRules | crates/policy/src/inject.rs:161-163 | the label in a hit identifies its rule |
| Routes.Gateway.AllocateRoute | crates/cli/src/clients.rs:636-653 | the probe loop terminates with the first candidate that is free or holds this URL |
| Routes.RouteIsSafe | crates/cli/src/clients.rs:618-653 | at most one more probe than the table has entries, no existing route changes, and the route is path-safe |
| Routes.RouteNames | crates/cli/src/clients.rs:618-653 | a server's URL gets its name with hyphens for unsafe characters, unless another URL has that, and then the name with `~2` |
| Routes.CandidatesDiffer | crates/cli/src/clients.rs:645-652 | different suffixes give different candidates |
| Routes.GatewayRouteExactly | crates/cli/src/clients.rs:604-613 | a URL is read as ours exactly when it is http, loopback on any port, with a path under /u/ |
| Routes.GatewayRouteLiterally | crates/cli/src/clients.rs:604-613 | the same letter by letter: `http://`, 127.0.0.1 or localhost, a port or none, `/u/`, the route |
| Routes.GatewayUrlRoundTrip | crates/cli/src/clients.rs:489-498 | the URL attach writes gives back the route, for every port and route |
| Routes.DecimalReads | crates/cli/src/clients.rs:498-498 | a printed number reads back by ten times plus digit, and has no leading zero |
| Attach.ObjectMap.Set | crates/cli/src/clients.rs:527-532 | a present key keeps its position, a new one goes last |
| Attach.ObjectMap.SwapRemove | crates/cli/src/clients.rs:590-596 | removing a key moves the last member into its place |
| Attach.AttachStdioEntry | crates/cli/src/clients.rs:506-532 | the object after wrapping, or untouched for a command that is ours or args that are no array |
| Attach.AttachOne | crates/cli/src/clients.rs:469-502 | one entry and the gateway table after attach, with the reported outcome |
| Attach.DetachStdioEntry | crates/cli/src/clients.rs:565-598 | the object after unwrapping, or untouched with the reason |
| Attach.DetachOne | crates/cli/src/clients.rs:537-562 | one entry after detach; a route without a mapping is left and reported |
| Attach.Document.ForEachServersMap | crates/cli/src/clients.rs:407-418 | the walk over top-level and project servers in document order threads the growing table through every entry |
| Attach.Document.TransformAttach | crates/cli/src/clients.rs:436-453 | the whole document and table after attach |
| Attach.Document.TransformDetach | crates/cli/src/clients.rs:455-467 | the whole document after detach |
| AttachLaws.AttachWraps | crates/cli/src/clients.rs:506-532 | a rewritten stdio entry runs the original command and args behind the proxy |
| AttachLaws.AttachRoutes | crates/cli/src/clients.rs:489-500 | a rewritten URL entry is `http://127.0.0.1:`, digits that read back as the gateway's port, `/u/` and a route that holds its old URL; no other route changed |
| AttachLaws.AttachTouchesNothingElse | crates/cli/src/clients.rs:525-532 | no other key of an entry changes, and an entry not reported as changed is untouched |
| AttachLaws.OtherKeysUntouched | crates/cli/src/clients.rs:407-418 | neither transform touches any other key of the document |
| AttachLaws.AttachKeepsRoutes | crates/cli/src/clients.rs:436-453 | attaching a whole document changes no route recorded before |
| AttachLaws.DetachKeepsRoutes | crates/cli/src/clients.rs:455-467 | detaching any document, attached or not, leaves the gateway table alone |
| AttachLaws.DetachUndoesAttachEntry | crates/cli/src/clients.rs:469-598 | for one entry and any later table, detach restores exactly the restorable ones |
| AttachLaws.DetachUndoesAttachExactlyWhen | crates/cli/src/clients.rs:436-598 | for whole documents and any table extending attach's, detach gives back the document exactly when every entry is restorable |
| AttachLaws.SeparatorNameIsLost | crates/cli/src/clients.rs:574-588 | a document whose server is named `--` that detach does not restore |
| AttachLaws.EmptyArgsAreLost | crates/cli/src/clients.rs:590-596 | a document with an empty args array that detach does not restore |
| AttachLaws.AttachAgainExactlyWhen | crates/cli/src/clients.rs:469-535 | a second attach never changes the table, and leaves the document alone exactly when the wraps are recognised as ours |
| AttachLaws.PlainDocuments | crates/cli/src/clients.rs:436-613 | with a recognised proxy path, no entry ours, no server named `--` and no empty args array, both laws hold |
| AttachLaws.LastTakesItsPlace | crates/cli/src/clients.rs:590-596 | removing a key moves the last member to its place and leaves the others where they are |
| AttachReach.AttachReachesEveryServer | crates/cli/src/clients.rs:407-535 | after attaching a document every server under mcpServers, and under projects.*.mcpServers, keeps its place and name and is wrapped or pointed at the gateway, or stays if it is neither |
| AttachReach.EveryServerIsReported | crates/cli/src/clients.rs:407-598 | both transforms report on every server once, in document order, under its project, with the outcome and reason that its entry calls for |
| Argv.SplitCommand | crates/cli/src/replay.rs:269-304 | the character loop computes the split |
| Argv.SplitUndoesJoin | crates/cli/src/replay.rs:269-304 | splitting a command line gives back the argv when each token is bare, or wrapped in a quote it does not contain |
| Argv.JoinSplitsBackExactlyWhen | crates/cli/src/main.rs:424-424 | an argv survives joining and splitting exactly when no token is empty or holds whitespace or a quote |
| Argv.JoinedText | crates/cli/src/main.rs:424-424 | the command line is the tokens with one blank between two |
| Argv.OneCharacter | crates/cli/src/replay.rs:269-304 | what each single character does between two others: the 25 white-space code points split, the two quotes go, everything else stays |

## Left out

- SQLite: a transaction is all-or-nothing and a statement fails only on the UNIQUE index; locking, WAL, vacuum and page accounting are not modelled, and neither is a second connection that deletes a session between the pick and the delete of the size prune.
- Prune.Store.PruneToMaxSize: the size of the database is an arbitrary function of its contents; the estimate-based preview of it (`preview_max_size`) is not modelled.
- Schema upgrades: the fingerprint table starts empty or as any table that satisfies the invariant, as version-1 tables do.
- RugPull.RecordFingerprints: the events are returned with tool, time and outcome; the wording of their detail is not modelled, nor is inserting them, which may fail and is then only logged.
- SHA-256: an ideal hash, injective on texts, as `ToolHashes.Injective` says.
- JSON parsing: an abstract function from bytes to an optional value; the reader in `JsonText` is a reference for what is printed, and takes neither white space nor surrogate pairs. A number is identified by the text it prints as, so 0.0 and -0.0 or 1 and 1.0 are different values here as they are in the printed text.
- Secret patterns and masking: the scan is an abstract function from a string to findings.
- Policy.EvaluateRequest: the wording of a denial's detail is not modelled (a leak's detail, the masked preview, is), and neither is the time a report carries.
- Fault injection on the wire: the pumps are modelled without `--inject`; the injector's decisions are modelled, what `apply_c2s_injection` and `apply_s2c_injection` then write is not.
- Pump.PumpC2s: a read error is an end of input, a panic in the decision and log lines are not modelled, and flushing is part of a write.
- StdoutPumps.PumpsAtomicExactlyWhen: write errors on stdout are not part of the interleaving model; they are in `Pump.PumpC2s` and `ServerPump.PumpS2c`, where a pipe may break at any byte.
- Stdout.RunInv: after the server has exited the client pump is aborted (crates/cli/src/main.rs:531), which may cut a refusal off while it is being written; the interleaving model has no such abort.
- Tap.StorageLoop.Handle: writing the message, security and injection rows is not modelled; which writes of a protocol version succeed is an input.
- Policy.RefusalIsOneLine: the reply's bytes are the UTF-8 form of its serialized text.
- Attach.Document.ForEachServersMap: reading, backing up and writing the file, and rejecting it when the server map is missing, are not modelled; the file-stem test is an arbitrary predicate on commands.
- Routes.Gateway.AllocateRoute: the 32-bit probe counter cannot overflow before the table has 2^32 entries, and is unbounded here.
- Inject.Injector.Decide: a probability is a real number, and counters are unbounded; loading the file and the clock-derived seed are not modelled.
- The async runtime, process spawning, the HTTP gateway and its header handling, the replay transports, the dashboard, the command line, duration and size parsing, and log files.
