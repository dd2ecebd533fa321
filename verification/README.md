# qqflow-server in Dafny

A model of the stateful cores of the chat archive service and proofs of what they promise over whole runs:

- **Batch export** (`Naming`, `ExportDocument`, `ExportRound`, `ExportRun`, `ExportEffects`, `ExportRecords`,
  `ExportResume`, `ExportTally`; `Percent`, `JsonText`, `Utf8`): a directory that outlives its rounds, as a map from case-folded name to content. A round picks
  names, refuses, reuses or rewrites, writes part files, renames, and replaces the index; it may fail anywhere and stop
  before any single change to the directory.
- **Event stream** (`SseHistory`, `SseWire`, `SseProtocol`, `SseDelivery`, `SseScript`, `SseStandard`): the bus with its replay buffer, the frames
  as text, the connection cut at any character, and the client that reconnects with its cursor.
- **Account lifecycle** (`Accounts`, `Lifecycle`, `LifecycleSafety`, `LifecycleCalm`, `LifecyclePasses`,
  `LifecycleStops`, `LifecycleStory`, `LifecycleTurns`, `LifecycleWitness`, `LifecycleRuns`): registrations, index builds, deregistrations and sync passes as interleaved
  critical sections.
- **Incremental sync** (`Records`, `IndexSync`, `IndexRebuild`, `IndexNicknames`): full builds, passes above the
  watermarks, events.
- **Pagination** (`Cursors`, `Pull`, `AgentReads`): pages that never split a second, the drain loop over a growing
  conversation, and the agent tool that cuts pages a second time.
- **Body parsing** (`Wire`, `MessageBody`, `TextScan`, `ReplyIndex`): the wire reader and its encoder, the budgeted text
  scan, and the resolution of replies.

The modules called `…Meaning`, `SecretCheck`, `SseScript`, `SseStandard`, `LifecycleStory` and `LifecycleTurns` tie the
definitions the others speak through to what a reader sees: characters, bytes and field numbers, the rows of the tables,
the items a client is handed, the steps of a run.

Code that changes things step by step is a class or a method with a loop, proved against a function or a relation of
its inputs; the interleavings are state machines over the critical sections. `dafny verify dfyconfig.toml` checks it all.

The environment is explicit. How each export goes is a `Fate`, where the process stops is the `fuel` of a round, what a
pass reads is its two optional tables, the clock is an argument, and whether a field of a message body is UTF-8 is a
function.

Some promises hold only up to a point. For each of these the point is stated and both sides of it are proved:

- **Single binding** holds in every run in which no account is reset while a build of that very account can still
  become visible (`LifecycleSafety.GuardedRunBindsOne`), and every run with another reset can, from there, go on to
  bind two (`UnguardedRunCanBindTwo`). `LifecycleWitness` has two such runs from the beginning: a build that samples the
  epoch after the clear, and an account in error that is claimed again between the clear and the reset. Calm
  environments (no registration during a deregistration, no deregistration while a build has yet to sample) never reset
  that way (`LifecycleCalm.CalmRunIsOrderly`).
- **A ready account is indexed** throughout such a run, unless a deregistration of it has cleared the store, if and only
  if no deregistration clears it under another ready account (`LifecycleSafety.ReadyIsIndexedExactlyWhen`).
  `LifecycleRuns.ReadyMayLoseItsIndex` is such a run from the beginning in which one does.
- **The index holds rows of its own account only** in every run that installs no index over an unstopped sync of another
  account, clears none while any sync is unstopped, and registers a sync only for the index that is there
  (`LifecyclePasses.HostedRunIsClean`); every other run has a beginning that can go on to mix
  (`UnhostedRunCanMix`). `LifecycleRuns.StraySyncMixesRows` is a calm run from the beginning that does.
- **Nicknames after passes are a rebuild's** for a uid if and only if no direct row names it, or no group row naming it
  was read after the last direct row that does, or the last names of the two tables agree
  (`IndexNicknames.NicknameAgreesExactlyWhen`); `NicknamesMayDiffer` is the shortest run without.
- **A fresh round leaves foreign files alone**, but not foreign part files: writing one asks nobody
  (`ExportEffects.ForeignPartIsLost`). A part file may differ after a round only if it is the index's or that of a target
  the round came to whose name was free or its own, or whose artifact could not be reused (`OtherPartFilesStay`), and
  that of a written target is gone (`WrittenPartIsLost`).
- **A recorded talker stays recorded** if and only if some target is to put a row of it into the index: itself by being
  written or reused, or another by being refused the name it owns. All of that is decided by the directory, the targets
  and the fates (`ExportEffects.StepIsForecast`, `ExportRecords.RecordedExactlyWhen`), but for a session that is a target
  twice on resume, where it is up to the steps (`RecordedBySteps`). One that drops out keeps its file,
  and its next fresh export is refused that very file (`FailedThenRefused`; `LockedOut` goes there from an empty
  directory).
- **A reconnect is gap-free** if and only if the item after the cursor is still buffered and within its window
  (`SseDelivery.ConnectGapFree`); `UncoveredConnect` is a run that reaches one that is not.
- **A time cursor survives** the trip through text if and only if it does not print as eight digits, or those digits name
  the day that starts at that second (`Cursors.CursorSurvives`).
- **A prefix leaves what follows it to be decoded on its own** if and only if it does not end inside an escape
  (`Percent.ClosedSplits`, `Percent.OpenPrefix`).

## Model

| member | source | states |
|---|---|---|
| `Naming.SlugifyIsInert` | src/pathsafe.rs:94-115 | whatever the input, a slug has slug characters only, at most 64 of them, and is no reserved device name |
| `Naming.FirstFreeIsFirst` | src/export.rs:109-134 | the numbered search ends within as many steps as names are taken, at the first candidate whose folded form is free |
| `Naming.FileNameFor` | src/export.rs:109-134 | the loop returns that name, not taken under folding and never `index`, and takes it |
| `Naming.NameForIsSafe` | src/pathsafe.rs:51-92 | the name with either extension is one safe path component |
| `Naming.NamesForAreDistinct` | src/export.rs:109-134 | successive names on one set are pairwise distinct under folding, and distinct from everything taken before |
| `NamingMeaning.SlugMeans` | src/pathsafe.rs:94-115 | a slug, character by character: the first 64, each that is no letter, digit, `-` or `_` replaced, after an underscore if that is a device name; the fallback for nothing |
| `NamingMeaning.DeviceMeans` | src/pathsafe.rs:51-58 | a name is a device exactly when what stands before its first dot, without spaces at the end, is one of the 24 device names in letters of any case |
| `NamingMeaning.SafeMeans` | src/pathsafe.rs:66-80 | exactly which names are safe path components |
| `NamingMeaning.BytesOfName` | src/pathsafe.rs:66-80 | the length of a name is that of its characters in UTF-8 |
| `NamingMeaning.StemMeans` | src/export.rs:109-134 | a session is named after its display name if that has a letter or digit, else after its talker, cut to 56 characters |
| `NamingMeaning.CandidateMeans` | src/export.rs:109-134 | the names tried are the stem and then the stem with `-2`, `-3` and so on |
| `NamingMeaning.NameMeans` | src/export.rs:109-134 | a free stem is the name; the name is the first free one tried; `index` never is |
| `ExportDocument.SessionWriter.Page` | src/export.rs:360-372 | a page is written sorted, after what is there, with members collected on first sight |
| `ExportDocument.SessionWriter.Finish` | src/export.rs:414-452 | the finished document is the rendering of exactly the pages handed over, and the count is its number of rows |
| `ExportDocument.SortPageOrders` | src/export.rs:360-364 | each page is in (timestamp, id) order |
| `ExportDocument.RenderLosesNothing` | src/export.rs:360-452 | a finished document holds exactly the rows the fetch handed over, whatever the page split and format |
| `ExportDocument.MembersAreTheSenders` | src/export.rs:366-368 | the member list names each sender exactly once and nobody else |
| `DocumentMeaning.PageAscends` | src/export.rs:360-364 | a page ascends by time, and among equal times by id, compared code point by code point |
| `DocumentMeaning.PageIsStable` | src/export.rs:360-364 | rows of equal time and id keep the order they were fetched in |
| `DocumentMeaning.DocumentMeans` | src/export.rs:414-452 | a document is of the format asked for, headed by its session, and its pages follow one another as they were sorted |
| `DocumentMeaning.MembersMean` | src/export.rs:366-368 | the members come in the order in which they speak first, each with the name and nickname it has there |
| `ExportRound.ExportDir.ExportSession` | src/export.rs:302-412 | a session's final name changes only by the closing rename, and then to the complete document; otherwise at most the part file differs |
| `ExportRound.ExportDir.Reusable` | src/export.rs:690-727 | an artifact is reused if and only if it exists, the index records this very name for the talker, no part file is left, media was kept if asked for, and it ends as its format must |
| `ExportRound.ExportDir.WriteIndex` | src/export.rs:454-475 | the index file is the old one or the new one, whatever fails |
| `ExportRound.TargetKeepsRound` | src/export.rs:599-799 | dealing with one target keeps the round invariant: recorded and new entries stay owned, foreign files untouched, names taken |
| `ExportRound.EntriesSurvive` | src/export.rs:389-412 | owned entries survive any change away from their files and a rewrite of the one talker's own file |
| `ExportRun.DoTarget` | src/export.rs:599-799 | one turn: the name is the one the inputs determine; refusal, reuse, rewriting and giving up happen exactly when they should, on the directory as the turn found it; what the directory becomes; and the rows grow by exactly this target's |
| `ExportRun.IndexReplaced` | src/export.rs:454-475 | replacing the index makes exactly the rows of the round the recorded ones, all of them owned |
| `ExportRun.Run` | src/export.rs:554-807 | after a round, however it ended, every entry read back names the complete output of a finished export of its talker, no two the same file; each step is the one its turn's directory and its fate decide (refused, reused or written exactly then, with the row count of its document), each turn starts from the directory the last one left, a completed round's lists, counts and index rows are those of its steps, and a round given four changes per target and three more is never interrupted |
| `ExportEffects.FreshRoundNeverClobbers` | src/export.rs:612-688 | a fresh round leaves every file alone that the recorded index gives to none of its targets, except the index and the part files of targets whose name was free or their own; the owner of a refused name, when not a target itself, is read back with its old row |
| `ExportEffects.StepIsForecast` | src/export.rs:599-799 | with no session a target twice on resume, every step of a round is decided before it begins: refused, reused, written with that many rows or given up by the first directory, the targets and the fates |
| `ExportEffects.ReusableStays` | src/export.rs:690-727 | an artifact that can be reused when a resumed round begins can be when its turn comes, however often the session is a target |
| `ExportEffects.OtherPartFilesStay` | src/export.rs:302-412 | a part file differs after a round only if it is the index's or that of a target the round came to which, by the directory it began with, is neither to be refused nor reused |
| `ExportEffects.WrittenPartIsLost` | src/export.rs:319-327 | the part file of a written target is gone after the round, whatever it held and whoever's it was, unless a resumed round comes to the same talker again |
| `ExportEffects.ForeignPartIsLost` | src/export.rs:319-327 | for every session, format, foreign text and pages: a directory holding only that text under the session's part name loses it to a fresh round that succeeds |
| `ExportEffects.WrittenFileHolds` | src/export.rs:389-412 | the file of a written target holds this round's own export of it when the round ends, unless a resumed round comes to the same talker again |
| `ExportEffects.FilesDiffer` | src/export.rs:573-617 | any two targets of a fresh round, and any two talkers of a resumed one, have different files under folding |
| `ExportEffects.RefusedExactlyWhen` | src/export.rs:612-688 | a turn is refused if and only if the round is fresh and its name is, at the start, a file that the index gives to another talker or to nobody |
| `ExportEffects.UnfinishedKeepsIndex` | src/export.rs:454-475 | a round that did not complete, however it ended, leaves the index file as it was |
| `ExportResume.ReusedExactlyWhen` | src/export.rs:690-727 | a turn reuses its artifact if and only if the round resumes and, at the start, the talker is recorded under this name, the file looks complete, no part file is beside it, and media was kept if asked for |
| `ExportResume.WrittenIsRecorded` | src/export.rs:454-500 | after a completed round that wrote all its sessions, each is recorded with its name, its number of messages and whether media was kept |
| `ExportResume.ResumeReusesAll` | src/export.rs:690-727 | after such a round a resumed one for the same sessions, in the same format and asking for no more media, reuses every one and changes no file but the index, whatever its environment |
| `ExportResume.MediaReusesNone` | src/export.rs:690-727 | with media asked for that was not kept, it reuses none |
| `ExportResume.ResumeKeepsTheIndex` | src/export.rs:690-807 | and the index reads back the very same rows after it |
| `ExportTally.ReportTold` | src/export.rs:554-807 | the files, sessions and messages a round reports, for any way its steps are cut in two; skipped are exactly the refused and given up |
| `ExportTally.OneTallied` | src/export.rs:554-807 | what one turn adds to the report |
| `ExportRecords.RecordedBySteps` | src/export.rs:482-500 | in every completed round a talker is read back if and only if a step wrote or reused its artifact, or refused another session the name it owns |
| `ExportRecords.RecordedExactlyWhen` | src/export.rs:482-807 | the same from the inputs of the round alone, with no session a target twice on resume |
| `ExportRecords.ForgottenFileStays` | src/export.rs:612-688 | a recorded talker for which no target of a fresh round is to keep a row is no longer recorded, while its file stays |
| `ExportRecords.ForgottenIsRefused` | src/export.rs:612-688 | a fresh round refuses an unrecorded talker any name that is already a file |
| `ExportRecords.FailedThenRefused` | src/export.rs:612-688 | a fresh round whose only target fails, then a fresh round of that target: it is refused its own untouched file, and stays unrecorded |
| `ExportRecords.LockedOut` | src/export.rs:554-807 | for every session, format and pages: three rounds from an empty directory that end so |
| `ExportRun.Campaign` | src/export.rs:554-807 | any succession of rounds, resumed or fresh, in either format, failing or stopping anywhere, keeps ownership |
| `Percent.PercentEncode` | src/export.rs:242-252 | the loop computes the encoding function |
| `Percent.PercentDecode` | src/export.rs:258-276 | the index loop computes the lossy text of the decoding function, at the end of the text too, and that is valid UTF-8 |
| `Percent.TextComesBack` | src/export.rs:242-276 | encoding and decoding text gives the very same text |
| `Percent.DecodeEncode` | src/export.rs:242-276 | decoding undoes the encoding of every byte string |
| `Percent.DecodeForm` | src/export.rs:254-276 | decoding undoes every mixture of raw bytes and escapes of either case |
| `Percent.ClosedSplits` | src/export.rs:258-276 | after a prefix that does not end inside an escape, the rest is decoded on its own |
| `Percent.OpenPrefix` | src/export.rs:258-276 | after any other prefix some continuation is not |
| `Percent.AssertNoSecret` | src/export.rs:213-236 | a line is refused if and only if it or the lossy text of its decoded form shows the secret as it is, JSON-escaped or percent-encoded |
| `Percent.AnyFormIsRefused` | src/export.rs:205-276 | a line with any form of the secret after a closed prefix is refused, whatever bytes stand around it |
| `JsonText.TextComesBack` | src/export.rs:217-218 | the text of a JSON string is read back from its escapes |
| `JsonText.StaysInside` | src/export.rs:217-218 | no byte of an escaped text ends the string: no control byte occurs, and a quote only behind a backslash |
| `JsonText.JsonFormBegins` | src/export.rs:217-218 | what is searched for is the escaped secret, or the beginning of it when the secret ends in a quote |
| `SecretCheck.ShowsExactlyWhen` | src/export.rs:213-236 | a text shows the secret if and only if some piece of it is the secret, its JSON form, or, for a secret the encoding changes, its percent-encoding in letters of any case |
| `SecretCheck.InsideJsonIsRefused` | src/export.rs:213-236 | a secret anywhere in any JSON string of a line is refused |
| `SecretCheck.JsonByte` | src/export.rs:217-218 | how each byte stands in a JSON string |
| `SecretCheck.EncodesByte` | src/export.rs:242-252 | which bytes stand for themselves, and the two digits of every other |
| `SecretCheck.EncodeJoins` | src/export.rs:242-252 | the encoding of two pieces is that of the one and that of the other |
| `SecretCheck.EscapeIsRead` | src/export.rs:258-276 | `%` and two digits of either case are read as their byte |
| `SecretCheck.OtherIsKept` | src/export.rs:258-276 | any other byte, and a `%` without two digits behind it, is kept |
| `Utf8.LossyKeepsText` | src/export.rs:275 | the lossy reading keeps every piece of valid text byte for byte, whatever stands before and after it |
| `Utf8.LossyFindsExactly` | src/export.rs:225-275 | for text without a replacement character of its own, the lossy reading of any bytes contains it if and only if the bytes do |
| `Utf8Meaning.EncodedIsChar` | src/export.rs:275 | the bytes of every code point are read as one character |
| `Utf8Meaning.TextIsUtf8` | src/export.rs:275 | the code points of any text count as UTF-8 |
| `Utf8Meaning.Utf8IsText` | src/export.rs:275 | whatever counts as UTF-8 is the code points of some text |
| `Utf8Meaning.LossyKeepsChar` | src/export.rs:275 | the lossy reading keeps every code point and goes on behind it |
| `Utf8Meaning.LossyReplaces` | src/export.rs:275 | where no code point stands, one U+FFFD is read for one byte or for as many as still begin a code point |
| `SseHistory.HistoryBuf.Append` | src/sync/history.rs:40-51 | an event gets the next id, and the oldest are dropped beyond a thousand |
| `SseHistory.HistoryBuf.ReplaySince` | src/sync/history.rs:68-75 | the loop returns the items newer than the cursor and within the window |
| `SseHistory.EventBus.Publish` | src/sync/history.rs:107-117 | one publication goes once into the history and once into every queue, under one id |
| `SseHistory.EventBus.SubscribeWithReplay` | src/sync/history.rs:131-136 | a subscription starts with the replay and an empty queue |
| `SseHistory.ReplayIsExact` | src/sync/history.rs:68-75 | a replay ascends above the cursor, and continues it without a gap if and only if the item after it is buffered and in its window |
| `SseWire.Watch.BeginConnection` | clients/rust/src/client.rs:1003-1008 | a new connection drops the bytes and the pending id of the last one and keeps the cursor |
| `SseWire.Watch.Receive` | clients/rust/src/client.rs:962-972 | whatever the chunks, the complete lines so far are fed in order and the rest is kept |
| `SseWire.SplitConcat` | clients/rust/src/client.rs:962-972 | the lines read do not depend on where the text was cut |
| `SseWire.FramePart` | clients/rust/src/client.rs:1011-1037 | any number of lines of a frame hands over nothing before its data line, and commits its id exactly with it |
| `SseWire.PrefixCommitsWhatItDelivers` | clients/rust/src/client.rs:929-1037 | cut at any character, a connection has handed over a prefix of its items, and the cursor is the last id among exactly those |
| `SseStandard.StreamMeansItsFrames` | src/server/handlers/push_events.rs:136-211 | a reader that follows the HTML standard, section 9.2.6, makes of every stream exactly its frames, with their types, data and ids |
| `SseStandard.IdIsTaken` | clients/rust/src/client.rs:1011-1037 | the client takes a printed id, with or without a plus sign, if and only if it fits in 64 bits |
| `SseStandard.OtherIsNoId` | clients/rust/src/client.rs:1011-1037 | which texts are no id |
| `SseProtocol.InvStep` | src/server/handlers/push_events.rs:136-211 | every step of bus, stream and client keeps buffer, queue, wire and cursor consistent |
| `SseDelivery.IdsIncrease` | src/server/handlers/push_events.rs:136-211 | in every run the ids handed over strictly increase across reconnects, each with the event published under it, and the cursor is the last of them |
| `SseDelivery.ConnectGapFree` | src/sync/history.rs:119-136 | a reconnect continues the cursor without a gap if and only if it is covered by the buffer |
| `SseDelivery.UncoveredConnect` | src/sync/history.rs:119-136 | publishing, clearing and connecting leaves a client to which nothing of what was published will come |
| `SseDelivery.NothingLost` | src/sync/history.rs:107-136 | with every reconnect covered and no lag, the ids are exactly 1, 2, .. and the payloads those of the events in order of publication |
| `SseDelivery.CaughtUp` | clients/rust/src/client.rs:929-986 | a client that has read everything sent to it then has every event published |
| `SseScript.ConnectionDelivers` | src/server/handlers/push_events.rs:136-211 | in every run, from each connect on, a client is handed the ready item, the replayed events, one id-less item with the baseline of that connect, and then the live ones, in this order; all of them once it has read everything |
| `SseScript.ConnectionReadsAsStandard` | src/server/handlers/push_events.rs:136-211 | a standard reader of the characters sent makes exactly these messages of them, with their event names |
| `SseScript.BufferIsRecent` | src/sync/history.rs:40-51 | in every run the buffer holds the last thousand events published since it was cleared, or all of them |
| `Accounts.AccountList.Begin` | src/server/mod.rs:407-438 | the claim is decided and written as one section, against the first bound account |
| `Accounts.AccountList.Reset` | src/server/mod.rs:628-640 | a scanned account waits for its key again, any other is removed, all others stay in order |
| `Accounts.ClaimKeepsOneBound` | src/server/mod.rs:407-438 | a claim never adds a second binding, and is won only when nobody else is past waiting |
| `LifecycleSafety.NoGhostAndInert` | src/server/mod.rs:573-649 | in every interleaving: no ghost baseline, and a retired sync is inert, even for a pass whose reading began before the stop |
| `LifecycleSafety.NoResurrection` | src/server/mod.rs:281-306 | in every interleaving: a build that sampled before a deregistration's bump installs no index, publishes no baseline and writes no account state once the index is cleared |
| `LifecycleStops.DetachTakesFirst` | src/sync/mod.rs:340-350 | detaching takes the first registered sync of the account out of the engine and leaves the others in order |
| `LifecycleStops.StoppedWritesNoMore` | src/sync/mod.rs:214-246 | in every interleaving a stopped sync never extends the index again |
| `LifecycleStops.DeregStopsItsSync` | src/server/mod.rs:588-607 | in every interleaving: if a sync of the account is registered when its deregistration detaches, then one leaves the engine for good, is stopped from the stop on, and has written nothing to the index since the clear |
| `LifecycleStops.RetireStopsItsSync` | src/server/mod.rs:725-752 | the same for a build that finds itself cancelled, from its own stop on |
| `LifecycleStory.HistoryTold` | src/server/mod.rs:281-306 | in every run the replay buffer holds the last thousand of what was published since it was cleared: baselines with the epoch their builds sampled, resets, and rows of passes |
| `LifecycleStory.BaseTold` | src/server/mod.rs:281-306 | in every run the store holds the index of the last build that swapped it in with no clear since it sampled, unless it was cleared after that |
| `LifecycleStory.CurrentTold` | src/server/mod.rs:372-400 | a build counts as current exactly as long as no index was cleared since it sampled |
| `LifecycleStory.CountersTold` | src/server/mod.rs:573-649 | the epoch counts the clears of a run, the generation its bumps |
| `LifecycleStory.PassesTold` | src/sync/mod.rs:202-246 | in every run the passes that extended the index are those, since it was swapped in or cleared, whose syncs were not stopped as they wrote |
| `LifecycleTurns.AccountsTold` | src/server/mod.rs:318-438 | in every run: what each step writes about which account, and that nothing else writes any |
| `LifecycleTurns.StepsInOrder` | src/server/mod.rs:573-787 | in every run each step of a build, a deregistration or a pass comes directly after the one before it in its own order |
| `LifecycleTurns.BranchesTold` | src/server/mod.rs:281-306 | a build goes on after its swap, and serves once it is ready, exactly when no index was cleared since it sampled |
| `LifecycleTurns.DeregBegins` | src/server/mod.rs:573-587 | a deregistration begins exactly when the first account past waiting is its own |
| `LifecycleTurns.PassPublishes` | src/sync/mod.rs:214-246 | a pass goes on to publish exactly when its sync is not stopped as it writes |
| `LifecycleSafety.OrderStep` | src/server/mod.rs:372-438 | every step that resets no account beside a live build of it keeps at most one live build, its account bound and indexing, and the store its own from the swap on |
| `LifecycleSafety.GuardedRunBindsOne` | src/server/mod.rs:112-114 | in every run of such steps at most one account is past waiting |
| `LifecycleSafety.ResetBesideLiveBindsTwo` | src/server/mod.rs:628-640 | from any orderly state, a reset beside a live build of the account has a continuation that binds two |
| `LifecycleSafety.UnguardedRunCanBindTwo` | src/server/mod.rs:573-680 | every run with such a reset has a beginning that can be continued to two bindings |
| `LifecycleSafety.ReadyIsIndexedExactlyWhen` | src/server/mod.rs:573-649 | in guarded runs a ready account's index is in the store at every state, unless a deregistration of it cleared it, if and only if no clear happens under another ready account |
| `LifecycleRuns.ReadyMayLoseItsIndex` | src/server/mod.rs:573-607 | a run from the beginning, every reset guarded: two deregistrations of one account pass their check, and the second clears the index of the account let in after the first |
| `LifecycleCalm.CalmRunIsOrderly` | src/server/mod.rs:407-438 | a run with no registration during a deregistration, and no deregistration while a build has yet to sample, meets both conditions |
| `LifecycleCalm.OneBindingAndReadyIsIndexed` | src/server/mod.rs:112-114 | in every calm interleaving at most one account is past waiting, and a ready account's index is in the store unless a deregistration of it has cleared it |
| `LifecyclePasses.HostedRunIsClean` | src/sync/mod.rs:202-246 | in every run that leaves no unstopped sync under another account's index, every pass that extended the index is of the account that index is of, and none extended a cleared store |
| `LifecyclePasses.UnhostedRunCanMix` | src/sync/mod.rs:202-246 | every other run has a beginning that can be continued to a store with a foreign pass in it |
| `LifecyclePasses.ReadyStoreIsOwn` | src/server/mod.rs:573-787 | with guarded resets and clears as well, the store of a ready account is its own, index and passes, unless a deregistration of it has cleared it |
| `LifecyclePasses.OnlyOwnPasses` | src/sync/mod.rs:202-246 | in a calm run of that kind every pass that extended the index is of the bound account |
| `LifecyclePasses.ForeignPassExtends` | src/sync/mod.rs:214-229 | from any consistent state with a registered, unstopped sync under an index that is not its own, a pass of it can extend that index |
| `LifecycleRuns.StraySyncMixesRows` | src/server/mod.rs:708-740 | a calm run from the beginning: a sync registered after the clear passes once another account is ready, before its build retires it |
| `LifecycleWitness.UncalmRunBindsTwo` | src/server/mod.rs:658-680 | sampling the epoch inside the spawned build leaves a run from the beginning that binds two accounts |
| `LifecycleWitness.ReclaimRunBindsTwo` | src/server/mod.rs:407-438 | so does claiming an account in error again between the clear and the reset |
| `Records.SortSorts` | src/store/mod.rs:51-56 | the sort gives the same messages in (ts, rowid) order |
| `Records.SortedUnique` | src/store/mod.rs:51-56 | with distinct rowids there is one such arrangement |
| `IndexSync.ReadNew` | src/store/index.rs:541-573 | a pure read of the readable rows above the watermark, with the watermark after them |
| `IndexSync.Store.ApplyRecord` | src/store/index.rs:203-258 | conversation, name, card and nickname change as the record says; one without a talker only names its sender |
| `IndexSync.Store.Build` | src/store/index.rs:497-532 | a build applies all readable rows of both tables, sorts every conversation and sets both watermarks |
| `IndexSync.AccountSync.PollOnce` | src/sync/mod.rs:191-305 | a failed read changes nothing but the retry flag; a stopped sync changes nothing; otherwise rows, watermarks and events move together |
| `IndexRebuild.ReadsTheNewRows` | src/store/index.rs:541-573 | over append-only tables a read above the watermark returns exactly the records of the rows appended since |
| `IndexRebuild.SyncEqualsRebuild` | src/store/index.rs:497-586 | after any failing and succeeding passes and queries, the sorted conversations, names, cards and watermarks are those of a rebuild from what the last complete pass saw |
| `IndexRebuild.EachRowAnnouncedOnce` | src/sync/mod.rs:246-305 | each readable row appended after the build has been announced exactly once, in table order, and nothing else |
| `IndexMeaning.ConversationsMean` | src/store/index.rs:203-258 | after any passes and queries, a talker has a conversation if and only if a readable row is of it |
| `IndexMeaning.TitlesMean` | src/store/index.rs:203-258 | a group is called what its last row that renames it says, or after its talker if none does; a direct conversation what its first row says |
| `IndexMeaning.MessagesMeanRows` | src/store/index.rs:203-258 | a conversation holds one message for each of its rows, saying what the row says |
| `IndexMeaning.CardsMean` | src/store/index.rs:240-258 | in a group everyone has the last card its rows gave there; elsewhere nobody has one |
| `IndexMeaning.AnnouncementsMean` | src/sync/mod.rs:257-292 | in every run the i-th event of a chat type is a revocation if and only if the i-th readable appended row is a recall, with that row's rowid, talker and content, and as time the row's own or the upper half of its sequence number |
| `IndexMeaning.PassTells` | src/sync/mod.rs:246-305 | and a single pass publishes those of the group rows above the watermark, then those of the direct ones |
| `IndexNicknames.NicknameAgreesExactlyWhen` | src/store/index.rs:240-258 | for every run and uid: the nickname is a rebuild's if and only if no direct row names the uid, or no group row naming it was read after the last direct row that does, or the last names of both tables agree |
| `IndexNicknames.NicknamesAgreeExactlyWhen` | src/store/index.rs:240-258 | the whole nickname table is a rebuild's if and only if that holds of every uid |
| `IndexNicknames.NicknamesMayDiffer` | src/store/index.rs:240-242 | the shortest run on which they differ |
| `Cursors.CursorSurvives` | src/server/handlers/mod.rs:82-89 | exactly which cursors come back from text unchanged |
| `Cursors.ParsePrinted` | src/server/handlers/mod.rs:82-89 | a printed number is read back, with or without a plus sign, if and only if it fits in 64 bits |
| `Cursors.OnlyNumbers` | src/server/handlers/mod.rs:82-89 | a text that is empty, only a sign, or has anything but digits behind its first character is no cursor |
| `Pull.ExtendPage` | src/server/handlers/chatlab_pull.rs:79-94 | the loop finds the least page end that has the limit and does not split a second |
| `Pull.HandlePull` | src/server/handlers/chatlab_pull.rs:42-225 | the page, its cursors and its watermark, for every range, offset and limit |
| `Pull.ResumeAfter` | src/server/handlers/chatlab_pull.rs:199-225 | echoing the cursor of a full page continues with exactly the rest, and the cursor has advanced |
| `Pull.PageIsWindow` | src/server/handlers/chatlab_pull.rs:66-94 | a page holds exactly the messages between its two cursors, each as often as the conversation does |
| `Pull.DrainSession` | clients/rust/src/client.rs:667-689 | over a conversation that grows anywhere between requests, the drain delivers in order, nothing twice, everything that was there at the start; cursors strictly advance, and it ends unless the conversation outgrows it |
| `Pull.FixedDrain` | clients/rust/src/client.rs:667-689 | over a fixed conversation a finished drain is exactly the sorted rest |
| `AgentReads.ProjectMessages` | src/mcp.rs:201-214 | the longest prefix within count and budget, never empty when there is something |
| `AgentReads.GetMessages` | src/mcp.rs:279-342 | a reply holds the messages from its offset on, at least one, and cursors that continue it |
| `AgentReads.ReadAll` | src/mcp.rs:279-342 | following the replies reads the whole sequence once, without gap or repeat, for every succession of limits and budgets |
| `Wire.Cursor.NextVarint` | src/parser/proto.rs:55-68 | the loop reads the base-128 number modulo 64 bits, and moves past what it read even on failure |
| `Wire.VarintRoundTrip` | src/parser/proto.rs:55-68 | every u64 is read back from its encoding, consuming exactly its bytes before any suffix |
| `Wire.EncodeVarint` | src/parser/proto.rs:268-278 | the encoder loop computes the encoding function |
| `WireMeaning.EncodingMeans` | src/parser/proto.rs:268-278 | every byte of an encoding but the last goes on, together they are the number, and it ends in no zero |
| `WireMeaning.VarintMeans` | src/parser/proto.rs:55-68 | up to nine bytes of 128 and more and one below are the number of their low seven bits, the first byte's lowest, cut to 64 bits |
| `WireMeaning.NoVarint` | src/parser/proto.rs:55-68 | ten bytes that go on, or a buffer that ends within a number, are none |
| `WireMeaning.TagMeans` | src/parser/proto.rs:70-74 | a tag is a number whose low three bits are the wire type and the rest the field |
| `WireMeaning.SkipMeans` | src/parser/proto.rs:89-97 | how much of each wire type is skipped, and when that fails |
| `MessageBody.DecodeSegment` | src/parser/proto.rs:176-238 | the walk over a segment's fields, and the segment made of them |
| `MessageBody.ParseMsgBody` | src/parser/proto.rs:244-258 | one segment per readable wrapper, up to the first thing that cannot be read |
| `MessageBody.SegmentRoundTrip` | src/parser/proto.rs:176-238 | for every field list, the walk of its encoding has the last value of each known field and the non-empty URLs in order |
| `MessageBody.ParsesWhatWasEncoded` | src/parser/proto.rs:176-298 | parsing an encoded body gives one segment per wrapper, in order, whatever stands between them, each with the last value of every known field and the non-empty URLs in order |
| `MessageBody.TruncationKeepsAPrefix` | src/parser/proto.rs:244-258 | every prefix of a blob yields a prefix of its wrapper payloads |
| `MessageBody.TruncatedSegments` | src/parser/proto.rs:244-258 | and so a prefix of its segments |
| `MessageMeaning.NumbersSay` | src/parser/proto.rs:176-238 | segment id, type and subtype are what was given last under 45001, 45002 and 45003 |
| `MessageMeaning.TextSays` | src/parser/proto.rs:217-221 | a segment has a text if and only if its type is 1 or 6 and it was given a non-empty one, under 45101 or else under 47602 |
| `MessageMeaning.MediaSays` | src/parser/proto.rs:222-236 | a segment has media if and only if its type is 2, 4 or 5 and it was given a size, a readable text or a readable URL, and each part is what was given last under that part's number |
| `MessageMeaning.UrlsInOrder` | src/parser/proto.rs:205-209 | the URLs of a segment come in the order they were given |
| `MessageMeaning.WrapperIsRead` | src/parser/proto.rs:244-258 | the payload of a wrapper under 40800 is the next segment |
| `MessageMeaning.UnsupportedEndsSegment` | src/parser/proto.rs:89-97 | a group or any other unsupported wire type ends a segment with what it has |
| `MessageMeaning.UnsupportedEndsBody` | src/parser/proto.rs:244-258 | and a body with the segments before it |
| `MessageMeaning.TornWrapperEnds` | src/parser/proto.rs:244-258 | so does a wrapper that announces more than there is |
| `MessageMeaning.TornTextIsForgotten` | src/parser/proto.rs:176-212 | a text field that announces more than there is clears what was read under its number, and the walk goes on |
| `TextScan.RunScan` | src/parser/mod.rs:157-237 | a scan spends at most three units per character, and with more than that finds the earliest of the longest valid runs, or none if there is none |
| `TextScan.HeuristicText` | src/parser/mod.rs:342-348 | the shared budget of fifty per byte is never what stops the two scans |
| `TextMeaning.TextMeans` | src/parser/mod.rs:157-237 | the text found is the longest stretch that opens with a Han character and is more than three fifths Han, the first if several are as long; else the longest stretch of ASCII text with two letters or digits, without the white space at its ends |
| `TextMeaning.HanTextIsFound` | src/parser/mod.rs:157-198 | a text of two or more Han characters is found as it is |
| `TextMeaning.TrimMeans` | src/parser/mod.rs:227-228 | trimming takes white space off both ends and stops at the first other character |
| `ReplyIndex.BuildInnerIndex` | src/store/query.rs:160-174 | the index lists every carrier of a number in conversation order, and is absent only when nothing replies |
| `ReplyIndex.ResolveReplyTo` | src/store/query.rs:189-206 | a hit if and only if exactly one candidate is not newer than the reply |
| `ReplyIndex.ResolveIn` | src/store/query.rs:160-206 | built and queried together: an answer if and only if one and only one message carries the number and is not newer, and then that message's |

## Left out

- SQLCipher, the offset file reader, the keyring, HTTP routing, authentication, DTO shapes, the CLI and logging.
- JSON beyond the escapes inside its strings, and UTF-8 outside the secret check: documents, index rows and payloads are values; frame payloads are lines without a line feed.
- Media files and links, name maps, remarks and group metadata: the export rows carry no media, events no display names.
- Column probing, and how a group name is found in a rename message: a row has its optional columns or not, and its parsed text carries the name found in it or none.
- Case folding is ASCII folding, as the code takes Windows folding to be for the names it makes; `to_lowercase` on recorded non-ASCII names is not modelled.
- Outside edits to the export directory; the records of the files a round has delivered itself (`round_files`), which cannot matter because a fresh round never picks one name twice.
- How a line that shows the secret is reached while writing: it is one of the ways an export may end, and the check itself is proved on its own.
- Naming.NameForIsSafe: bounds the set of taken names by the range of the 32-bit suffix counter.
- LifecycleSafety.NoResurrection: passes of the sync such a build registers and retires again are not among the steps; whose passes extend the index is the business of `LifecyclePasses`.
- Account lifecycle steps are values; only the account list is a class. Lock order and task scheduling are the interleaving itself.
- SSE: server restart (ids begin again), backoff times, the size of the broadcast channel (a lag may strike whenever something is queued), and several clients at once (each has its own queue).
- IndexRebuild.SyncEqualsRebuild: the tables grow at the end, in positive rising rowids, and a row once unreadable stays so.
- Pull.DrainSession: timestamps print as nine digits or more and the first cursor is not an eight-digit number, since eight digits are read as a date.
- The members, reply ids and media of a page, which are computed from its messages.
- The agent's relative times (`7d`, `24h`) and its JSON projection; the size of a projected message is a function.
- `is_json_blob`, media signatures and system phrases, which come before the text scan.
- MessageBody.DecodeSegment: field values are kept per field in maps rather than in named variables.
