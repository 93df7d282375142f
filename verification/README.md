# NativeLink in Dafny

Models of the parts of NativeLink where several functions, or several machines, have to agree, and
proofs that they do. `dafny verify dfyconfig.toml` checks everything.

| files | what they model |
|---|---|
| `StreamingBuffer.dfy` | The in-memory streaming blob: one writer, any number of readers, a deque trimmed to a sliding window, atomics, a read-write lock and a watch channel. Every atomic access and every critical section is a step of its own. |
| `BlobsAvailable.dfy`, `SeenBits.dfy`, `BlobsAccumulator.dfy`, `BlobsDelivery.dfy` | Chunked BlobsAvailable notifications: the chunker on the worker, the accumulator class on the server with its bit words and running total, and the protocol end to end under loss, repetition, reordering, interleaving, disconnects and restarts. |
| `Splitting.dfy`, `ProtoNames.dfy`, `ProtoText.dfy`, `ProtoTree.dfy`, `ProtoGenerator.dfy` | The generator of the proto module tree: nodes grown in place, the recursive printer, a parser and a walker for what it prints. |
| `ProtoWire.dfy`, `ErrorStatus.dfy`, `ErrorMerge.dfy`, `DecimalRun.dfy` | Errors: their protobuf wire form, the conversions between Error, google.rpc.Status and tonic::Status over any number of hops, merging, and the scanner for decimal dumps. |
| `MarkStable.dfy`, `PinLifecycle.dfy`, `StreamingSeam.dfy`, `RetryCycle.dfy` | Protocols that the TLA+ specifications describe and check at small bounds, proved here for any number of blobs, readers, chunks, wrappers and retries. |
| `StoreSpec.dfy`, `Percentiles.dfy`, `StoreConflict.dfy` | The benchmark's rewriting of store specifications, its percentiles, and the CAS/AC store check on current and legacy configurations. |
| `ByteStreamWrite.dfy` | The contract of resumable writes. |
| `Options.dfy`, `SeqLemmas.dfy` | A value that may be missing; facts about sequences that several modules need. |

Protocols are state machines: `Enabled` and `Apply` say what each step requires and does, `Exec` runs
a list of events, and theorems speak of every list of events that can be run. Code that updates
things step by step is a method or a class proved against functions; what the source promises is
then proved of those functions.

## Where a promise does not hold

The lemmas named show the failure and say when the promise does hold.

- An empty reply of a streaming reader is documented to mean that all bytes were written.
  `EmptyReplyIff` names the two kinds of step that reply so, and `PromiseIff` says exactly which of them
  keep the promise; `EmptyChunkLooksLikeEof` is a run that breaks it, and a writer that sends no empty
  chunk and records the size first never does (`EmptyReplyMeansEof`).
- The overshoot cap of the reader is said to guard against a writer that bypasses its own cap. It also
  fires on a well-behaved writer, exactly when the size is recorded after more than that has been
  admitted (`OvershootIff`), and a chunk is admitted some steps before it is pushed
  (`AdmissionRaceHappens`); the comment on the setter asks for the size to be recorded first.
- A streaming reader that joins after chunk 0 and is told end of file holds the whole blob if and only
  if the chunks before were empty (`CompleteMeansWholeBlob`).
- When the terminal chunk finds a gap the partial broadcast is documented to be dropped, until the
  worker sends it again. The chunks that the terminal one overtook then open another, which holds a
  slot of the connection (`AnyOrderLeaves`); a broadcast is committed if and only if its terminal
  chunk is the last to arrive and it fits (`AnyOrderCommitsIff`).
- Pins are released at the end of every run if and only if every wrapper passes on both `mark_stable`
  and `drain_stable_digests` (`ReleasedIffAllDelegate`); a wrapper that swallows only the drain leaves
  the blob in the leaf's queue for good (`SwallowedDrainHappens`, `PinsAreForever`).
- specs/README.md says that with both fixes every reader ends Ok, Err or timed out. The error can
  still arrive after the reader has concluded; no reader ends silently if and only if the writer
  cannot fail (`NeverSilentIff`).
- An error without details grows at every hop, because its text is replaced by the rendering of the
  status; it is settled after one hop if and only if it has details or its text is its own rendering
  (`SettledIff`), which no text is if the rendering is longer than what it quotes
  (`SettledIffDetails`).
- Merging keeps the details of the first error only (`MergedMessages`).
- The check for `.` and `..` in the proto generator can never fire (`RootCheckNeverFires`).
- The threshold search is documented to look anywhere in a specification; it finds one if and only if
  some SizePartitioning lies below no CacheMetrics (`FoundIffUncovered`).
- The benchmark is documented never to dial Redis; it does for a Redis node in a store of another name
  (`RedisRemainsIff`).
- The store check finds every clash if and only if CAS entries of one instance agree
  (`SoundIffConsistent`).
- The comment on the cap of 8 broadcasts speaks of evicting the oldest; the code drops the chunk that
  would open a ninth, and the model follows the code.

## Model

| member | source | states |
|---|---|---|
| `StreamingBuffer.Reachable` | nativelink-util/src/streaming_blob.rs:650-838 | every atomic step of the writer, its admission test and its push apart, and of any number of readers, each called again as often as it likes, keeps the invariant that ties deque, counters, cursors and watch version together |
| `StreamingBuffer.SentIsWhatWasSent` | nativelink-util/src/streaming_blob.rs:650-723 | the stream is exactly the list of chunks that `send` pushed, in order |
| `StreamingBuffer.AdmittedAreSent` | nativelink-util/src/streaming_blob.rs:656-690 | what passed the admission test is what was pushed and, in between, the one chunk the writer has in hand |
| `StreamingBuffer.AdmittedIffItFits` | nativelink-util/src/streaming_blob.rs:650-690 | what is pushed is what was handed to `send`; with it, the bytes sent so far fit the expected size exactly when it is admitted, and it is rejected exactly when they do not |
| `StreamingBuffer.WriterNeverBlocks` | nativelink-util/src/streaming_blob.rs:840-845 | inside a call the writer always has a step to take, whatever the readers do |
| `StreamingBuffer.CallsAreShort` | nativelink-util/src/streaming_blob.rs:650-723 | a call of the writer ends after at most two steps per chunk held, and ten |
| `StreamingBuffer.TerminalIsTheEnd` | nativelink-util/src/streaming_blob.rs:727-838 | the terminal state is what the first call that ended the writer says: end of file for `send_eof`, the error given to `send_error`, and the fixed text for a drop |
| `StreamingBuffer.JoinsAtTheFront` | nativelink-util/src/streaming_blob.rs:918-967 | a reader starts at the oldest chunk held, and until it is woken every notification there ever was is ahead of it |
| `StreamingBuffer.ReadersFollowTheStream` | nativelink-util/src/streaming_blob.rs:1021-1210 | over every interleaving, what a reader was given continues the stream from where it joined: no byte skipped, repeated or reordered |
| `StreamingBuffer.OversizedIffOver` | nativelink-util/src/streaming_blob.rs:497-527 | more is ever admitted than is expected if and only if the one-time size was recorded after more than that had been admitted, pushed or not |
| `StreamingBuffer.AdmissionRaceHappens` | nativelink-util/src/streaming_blob.rs:661-690 | for any chunk and any size below it, a run in which the size is recorded between the admission of the first chunk and its push, and a reader is told of the overshoot |
| `StreamingBuffer.SizeCountsOnce` | nativelink-util/src/streaming_blob.rs:497-527 | the size can be recorded at any time, even after the end, and counts the first time |
| `StreamingBuffer.OvershootIff` | nativelink-util/src/streaming_blob.rs:1056-1108 | with no chunk in flight, a reader is told of an overshoot in its next round exactly in those runs, with the bytes sent and the size recorded; otherwise it goes on |
| `StreamingBuffer.SizedFirstIsRight` | nativelink-util/src/streaming_blob.rs:497-514 | recording the size before the first chunk is admitted, as the comment asks, is in time and never too small |
| `StreamingBuffer.JudgedByTheSize` | nativelink-util/src/streaming_blob.rs:1303-1350 | if no size is recorded after the end, every reader is judged by one and the same size |
| `StreamingBuffer.CompleteMeansWholeBlob` | nativelink-util/src/streaming_blob.rs:1204-1350 | end of file is reported only after `send_eof` ended the writer; the reader then holds exactly the chunks from where it joined, which is the whole blob if and only if the skipped ones are empty; with the size recorded in time it is the size sent exactly when it was not recorded too small |
| `StreamingBuffer.OutcomesAreTruthful` | nativelink-util/src/streaming_blob.rs:1021-1350 | however the size is recorded, only an evicted cursor is told that it fell behind, an overshoot is told only if it is one, and otherwise, unless it timed out, a reader is told how the run ended the writer: in full, short, or with its error |
| `StreamingBuffer.EveryEndIsTold` | nativelink-util/src/streaming_blob.rs:727-838 | after any run, for each of the three ways to end and for every reader inside the window, a continuation in which the reader is told exactly that ending |
| `StreamingBuffer.DeadlineIffTimedOut` | nativelink-util/src/streaming_blob.rs:1382-1450 | a reader is told that the deadline is exceeded exactly when its wait has timed out |
| `StreamingBuffer.TimingOutLosesNothing` | nativelink-util/src/streaming_blob.rs:1382-1450 | a reader called again after a time-out is where it was |
| `StreamingBuffer.OutcomesWhenSizedFirst` | nativelink-util/src/streaming_blob.rs:497-514 | with the size recorded first the overshoot cap never fires and the outcome is settled by how the writer ended and the one size; complete means that exactly this size was sent |
| `StreamingBuffer.WindowIsBounded` | nativelink-util/src/streaming_blob.rs:650-723 | unless the writer is between a push and its notification, the latest chunks are held, as many as fit into the window and no fewer |
| `StreamingBuffer.LockedReadFindsItsChunk` | nativelink-util/src/streaming_blob.rs:1128-1202 | the index recomputed under the lock lands on the chunk at the cursor, so the out-of-range branch is dead |
| `StreamingBuffer.StaleIndexIsOffByTheEvictions` | nativelink-util/src/streaming_blob.rs:169-196 | the index from the value loaded before the lock is off by exactly the evictions since |
| `StreamingBuffer.StaleIndexRaceHappens` | nativelink-util/src/streaming_blob.rs:169-196 | for any two chunks that do not fit the window together, a run in which that stale index names the wrong one |
| `StreamingBuffer.NoLostWakeup` | nativelink-util/src/streaming_blob.rs:214-241 | a parked reader that nothing will wake has read everything and there is no ending to see, rejected sends included, which notify nobody |
| `StreamingBuffer.OneNotificationEach` | nativelink-util/src/streaming_blob.rs:400-405 | there is one notification for each chunk pushed and one for the end, and none for a rejected chunk |
| `StreamingBuffer.WokenOncePerNotification` | nativelink-util/src/streaming_blob.rs:1352-1382 | no notification wakes a reader twice |
| `StreamingBuffer.DoneReadersTakeBoundedSteps` | nativelink-util/src/streaming_blob.rs:1021-1470 | once the writer is done each reader takes at most eight further steps per chunk sent, plus eight, plus seven for each time it is called again after an end or an error, however the others are scheduled |
| `StreamingBuffer.DoneReadersAreNeverStuck` | nativelink-util/src/streaming_blob.rs:1021-1470 | once the writer is done a reader that has not ended has a step other than timing out |
| `StreamingBuffer.FullEofReachesReaders` | nativelink-util/src/streaming_blob.rs:727-749 | after a full end of file, and if no size is recorded after it, a reader inside the window can only end with end of file |
| `StreamingBuffer.LockedReadEmptyIff` | nativelink-util/src/streaming_blob.rs:1128-1202 | a read under the lock replies Ok with no bytes if and only if the chunk at the cursor is still held and was sent empty |
| `StreamingBuffer.EmptyReplyIff` | nativelink-util/src/streaming_blob.rs:1251-1260 | a step replies Ok with no bytes if and only if it is such a read or it concludes the end of a stream of at least the expected size |
| `StreamingBuffer.PromiseIff` | nativelink-util/src/streaming_blob.rs:1251-1260 | an empty reply means that `bytes_written` is the expected size if and only if the step does not hand out an empty chunk at another count, and does not conclude after the size was recorded too small |
| `StreamingBuffer.EmptyReplyMeansEof` | nativelink-util/src/streaming_blob.rs:1251-1260 | hence it always does for a writer that sends no empty chunk and records the size first |
| `StreamingBuffer.EmptyChunkLooksLikeEof` | nativelink-util/src/streaming_blob.rs:1251-1260 | any run with bytes to go can be continued with an empty chunk so that a reader that has caught up gets that reply while the writer is running and bytes are missing |
| `BlobsAvailable.DrainInto` | nativelink-util/src/blobs_available_chunking.rs:363-378 | moves as many entries as the budget allows from the front, and reports the budget left |
| `BlobsAvailable.FillChunk` | nativelink-util/src/blobs_available_chunking.rs:98-290 | nine drains that share one budget take a prefix of the nine lists laid end to end |
| `BlobsAvailable.SplitCuts` | nativelink-util/src/blobs_available_chunking.rs:98-290 | laid end to end with field numbers, what is taken and what is left are a prefix and the rest |
| `BlobsAvailable.EmitChunks` | nativelink-util/src/blobs_available_chunking.rs:98-306 | the chunk list is consecutive windows of the entries, as few as possible, with scalars on chunk 0 only; it fails exactly when more than the allowed number would be needed |
| `BlobsAvailable.ChunkBlobsAvailable` | nativelink-util/src/blobs_available_chunking.rs:98-306 | fails exactly when the entries and legacy digests together exceed 256 chunks; otherwise a chunking of the notification with its legacy digests behind the infos, in order and without timestamps, and all else unchanged |
| `SeenBits.WordTest` | nativelink-service/src/blobs_available_accumulator.rs:183-213 | a bit of a word of sequence numbers is set exactly when the number is in the set |
| `SeenBits.WordAdd` | nativelink-service/src/blobs_available_accumulator.rs:239-332 | setting a bit adds that sequence number to the set and nothing else |
| `SeenBits.WordsAreContiguous` | nativelink-service/src/blobs_available_accumulator.rs:337-358 | the two-word mask comparison holds exactly when all sequence numbers up to the largest are present |
| `BlobsAccumulator.SequencesContiguous` | nativelink-service/src/blobs_available_accumulator.rs:337-358 | the bit test is exactly the absence of gaps among the chunks received |
| `BlobsAccumulator.Merge` | nativelink-service/src/blobs_available_accumulator.rs:239-332 | the merged form of the chunks so far plus one more chunk is the merged form of the longer list; duplicates, drift and overflow are rejected exactly |
| `BlobsAccumulator.BlobsAvailableAccumulator.constructor` | nativelink-service/src/blobs_available_accumulator.rs:554-590 | starts with no broadcast in flight |
| `BlobsAccumulator.BlobsAvailableAccumulator.MergeChunkOutcome` | nativelink-service/src/blobs_available_accumulator.rs:611-901 | the class that keeps merged lists, bit words and one running total behaves like the reference that keeps lists of chunks |
| `BlobsAccumulator.BlobsAvailableAccumulator.DropAllInflight` | nativelink-service/src/blobs_available_accumulator.rs:920-924 | forgets every broadcast |
| `BlobsDelivery.CapsAlwaysHold` | nativelink-service/src/blobs_available_accumulator.rs:91-142 | after any history of arrivals at most 8 broadcasts and 1,000,000 entries are held, each broadcast of one origin without repeated sequence numbers |
| `BlobsDelivery.WhatOneChunkDoes` | nativelink-service/src/blobs_available_accumulator.rs:611-901 | everything one chunk does in any reachable state: which are refused and leave all alone, which cost their broadcast, what is held of an accepted one, when it commits, and that no other broadcast is touched |
| `BlobsDelivery.ChunksCarryTheLists` | nativelink-util/src/blobs_available_chunking.rs:98-306 | merging the chunks of a broadcast in order gives back its nine lists |
| `BlobsDelivery.CommitsAreWhole` | nativelink-service/src/blobs_available_accumulator.rs:611-901 | whatever the order, losses, repetitions, interleaving, disconnects and restarts that reuse a broadcast id under a new token, a committed notification has the scalars and, list by list, the entries of the notification sent under that id and token: all or nothing |
| `BlobsDelivery.AnyOrderCommitsIff` | nativelink-service/src/blobs_available_accumulator.rs:611-901 | all chunks delivered once each, in any order, to a connection with a free slot: a chunk commits the broadcast if and only if it is the terminal one, it comes last and all entries fit under the cap; what is committed has the scalars and, list by list, the entries of the notification |
| `BlobsDelivery.AnyOrderLeaves` | nativelink-service/src/blobs_available_accumulator.rs:724-901 | with the terminal chunk last such a delivery leaves no trace, committed or not; with the terminal chunk earlier, and room for all, exactly the chunks behind it stay and keep one more slot |
| `BlobsDelivery.InOrderCommitsIffItFits` | nativelink-service/src/blobs_available_accumulator.rs:611-901 | in order, the very notification sent is committed if and only if its entries fit; either way the connection is left as it was |
| `BlobsDelivery.NotificationArrives` | nativelink-util/src/blobs_available_chunking.rs:136-146 | end to end: what the chunker makes of any notification, delivered in order, is committed with every list as it was and every legacy digest among the infos, if there is room, and dropped if not |
| `ProtoNames.AcceptedIffSuffix` | nativelink-proto/gen_lib_rs_tool.py:77-78 | the files accepted are those whose names end in `.pb.rs` |
| `ProtoNames.PackageSpellsFile` | nativelink-proto/gen_lib_rs_tool.py:77-87 | a file with the right suffix has a non-empty package without dots whose joined parts give back the file name |
| `ProtoNames.RootCheckNeverFires` | nativelink-proto/gen_lib_rs_tool.py:79-80 | the check for `.` and `..` among the parts passes for every file name |
| `ProtoNames.PackagesAreInjective` | nativelink-proto/gen_lib_rs_tool.py:77-86 | two files have one package only if they are the same file |
| `ProtoNames.LinesUnlines` | nativelink-proto/gen_lib_rs_tool.py:53-61 | printed lines can be read back exactly when none holds a line break |
| `ProtoText.ParseRender` | nativelink-proto/gen_lib_rs_tool.py:53-61 | printing then parsing gives back the same ordered tree, for all names; indentation equals depth and braces balance |
| `ProtoText.WalkRender` | nativelink-proto/gen_lib_rs_tool.py:53-61 | walking the printed lines with a stack of open modules meets the tree's files and ends with every module closed |
| `ProtoText.LinesAreRust` | nativelink-proto/gen_lib_rs_tool.py:53-61 | the text of the three kinds of line, behind four spaces per level |
| `ProtoTree.SubmodulesAreDistinct` | nativelink-proto/gen_lib_rs_tool.py:82-85 | sibling modules never share a name |
| `ProtoTree.FirstMentionOrder` | nativelink-proto/gen_lib_rs_tool.py:82-85 | siblings come in the order of first mention |
| `ProtoTree.TreeIsThePackageSet` | nativelink-proto/gen_lib_rs_tool.py:74-87 | at every path the tree agrees with the flat set of packages: module present iff it starts a package, file present iff it is one |
| `ProtoTree.OrderOnlyMovesSiblings` | nativelink-proto/gen_lib_rs_tool.py:74-87 | two orders of the input give the same tree up to sibling order |
| `ProtoTree.OneIncludePerPackage` | nativelink-proto/gen_lib_rs_tool.py:53-89 | the tree of distinct packages includes each file once, below its own modules |
| `ProtoGenerator.ModuleTree.constructor` | nativelink-proto/gen_lib_rs_tool.py:74 | one root node, no package |
| `ProtoGenerator.ModuleTree.AddChild` | nativelink-proto/gen_lib_rs_tool.py:83-84 | adds one fresh child, last in order, and changes nothing else |
| `ProtoGenerator.ModuleTree.Descend` | nativelink-proto/gen_lib_rs_tool.py:83-85 | one step of the cursor mentions one more part of the package |
| `ProtoGenerator.ModuleTree.Insert` | nativelink-proto/gen_lib_rs_tool.py:81-87 | inserts a package into the nodes in place; fails exactly when the package has a file already |
| `ProtoGenerator.PrintPackagePartToMod` | nativelink-proto/gen_lib_rs_tool.py:53-61 | the recursive printer over the nodes prints the lines of the reference tree |
| `ProtoGenerator.Generate` | nativelink-proto/gen_lib_rs_tool.py:65-89 | succeeds exactly on lists of distinct `.pb.rs` files, otherwise names the first offender; prints the tree of the whole list |
| `ProtoGenerator.TextReadsBack` | nativelink-proto/gen_lib_rs_tool.py:53-89 | the lines of the output can be read back from the text exactly when no file name holds a line break |
| `ProtoGenerator.TextIncludesEachFileOnce` | nativelink-proto/gen_lib_rs_tool.py:53-89 | end to end: walking the printed text meets exactly one include per file, below modules that spell its package |
| `ProtoWire.DecodeEncodeVarint` | nativelink-error/src/lib.rs:69-83 | a varint below 2^64 decodes to itself within ten bytes, whatever follows (Protocol Buffers Encoding, "Base 128 Varints") |
| `ProtoWire.VarintBytes` | nativelink-error/src/lib.rs:69-83 | the bytes of a varint: groups of seven bits, least significant first, as few as it takes, each but the last with the top bit set |
| `ProtoWire.KeyIsReadIff` | nativelink-error/src/lib.rs:69-83 | a record is read exactly under the field numbers from 1 to 536,870,911 and the wire types 0, 1, 2 and 5; anything else is refused |
| `ProtoWire.VarintFits` | nativelink-error/src/lib.rs:69-83 | whatever decodes as a varint fits in 64 bits |
| `ProtoWire.DecodeEncodeFields` | nativelink-error/src/lib.rs:69-83 | the records of a message decode to themselves ("Length-Delimited Records") |
| `ProtoWire.LastOneWins` | nativelink-error/src/lib.rs:69-83 | after a message made of whole records, reading on with any bytes is reading those over the first message ("Last One Wins") |
| `ErrorStatus.TextIffEncoded` | nativelink-error/src/lib.rs:75-83 | the byte strings taken for text are exactly the encodings of lists of Unicode characters (RFC 3629) |
| `ErrorStatus.ViolationShape` | nativelink-error/src/lib.rs:75-83 | the bytes of a violation: keys 10, 18, 26, empty fields left out |
| `ErrorStatus.DecodeEncodeFailure` | nativelink-error/src/lib.rs:948-976 | encoding and decoding a PreconditionFailure are inverse for every list of violations |
| `ErrorStatus.StatusShape` | nativelink-error/src/lib.rs:574-585 | the bytes of a google.rpc.Status: keys 8, 18, 26 |
| `ErrorStatus.DecodeEncodeStatus` | nativelink-error/src/lib.rs:534-587 | encoding and decoding a google.rpc.Status are inverse, negative codes included |
| `ErrorStatus.DecodeTwoStatuses` | nativelink-error/src/lib.rs:534-587 | two encoded statuses on end: last code and message win, details add up |
| `ErrorStatus.UnknownFieldsAreSkipped` | nativelink-error/src/lib.rs:534-562 | records under numbers a message does not know are skipped, in each of the four messages |
| `ErrorStatus.RefusedIff` | nativelink-error/src/lib.rs:546-562 | arbitrary bytes are refused exactly when they are not whole records or a known one is of the wrong kind, is not text where it should be, or holds a refused message |
| `ErrorStatus.JoinedSpells` | nativelink-error/src/lib.rs:244-251 | the joined text: each message at its own place, " : " between neighbours, and nothing else |
| `ErrorStatus.OnTheWire` | nativelink-error/src/lib.rs:565-587 | an error goes out with its code, all its messages as one text, and a trailer exactly if it has details, from which all of it can be read |
| `ErrorStatus.ReadFromTheWire` | nativelink-error/src/lib.rs:534-562 | what is made of the status of any server: a readable trailer counts alone, unknown codes become code 2; otherwise code and rendering count, and an empty rendering is no message |
| `ErrorStatus.DetailsSettleAfterOneHop` | nativelink-error/src/lib.rs:534-587 | with details, one hop joins the messages, all of them in order with " : " between, and no further hop changes anything |
| `ErrorStatus.HopsKeepCodeAndDetails` | nativelink-error/src/lib.rs:534-587 | any number of hops keeps code and details |
| `ErrorStatus.MessageGrowsWithoutDetails` | nativelink-error/src/lib.rs:534-576 | without details the message grows at every hop, under any rendering that is longer than the message it quotes |
| `ErrorStatus.SettledIff` | nativelink-error/src/lib.rs:534-587 | under any rendering at all, an error is settled after one hop if and only if it carries details or its text is its own rendering |
| `ErrorStatus.SettledIffDetails` | nativelink-error/src/lib.rs:534-587 | under a rendering that is longer than the message it quotes, that is if and only if it carries details |
| `ErrorMerge.MergeOptionIsMonoid` | nativelink-error/src/lib.rs:230-241 | optional errors form a monoid under merging |
| `ErrorMerge.MergedOptions` | nativelink-error/src/lib.rs:230-241 | collecting optional errors gives None exactly when all are None, and otherwise the messages of all that are there, in order with "---" between, with the code and details of the first |
| `ErrorMerge.MergedMessages` | nativelink-error/src/lib.rs:221-227 | merged errors keep all messages, with "---" between, but only the first error's code and details |
| `ErrorMerge.MarksTellErrorsApart` | nativelink-error/src/lib.rs:221-227 | the marks tell which messages belong to which error exactly when no message is a mark |
| `ErrorMerge.FromStdErr` | nativelink-error/src/lib.rs:203-211 | the loop over the chain of sources yields the messages innermost first |
| `DecimalRun.WalkRun` | nativelink-error/src/lib.rs:1105-1127 | the inner loop counts the run at its bracket and passes over no other bracket |
| `DecimalRun.LongestDecimalRun` | nativelink-error/src/lib.rs:1094-1133 | the scanner returns the maximum over every bracket of the run that starts there, although it jumps |
| `DecimalRun.RunIsLongestList` | nativelink-error/src/lib.rs:1105-1127 | the run at a bracket is as long as the longest list of comma-separated numbers behind it: none is missed and nothing else is counted |
| `DecimalRun.NoLongDump` | nativelink-error/src/lib.rs:1089-1093 | a string whose longest run is at most `max` holds no decimal array of more numbers |
| `MarkStable.Reachable` | specs/MarkStableViaBlobsAvailable.tla:121-284 | every step keeps the invariant, for any set of blobs and any chain of wrappers |
| `MarkStable.PinnedIff` | specs/MarkStableViaBlobsAvailable.tla:121-284 | a blob is in the cache from its write to its eviction, and pinned from its write until it is evicted or its own broadcast is delivered; what is broadcast was written |
| `MarkStable.UndeliveredReportsComplete` | specs/README.md:314-331 | applying the undelivered reports to the server's view gives what the worker holds and has reported, plus what it reported too late; with the fix exactly what it holds |
| `MarkStable.NoLostEviction` | specs/MarkStableViaBlobsAvailable.tla:319-336 | once everything is written, sent and processed the server's view equals the worker's cache exactly when nothing was reported after its eviction; with the fix always |
| `MarkStable.AgreesIffFixed` | specs/MarkStableViaBlobsAvailable.tla:319-336 | whatever the chain, the view agrees at the end of every run if and only if the fix is in |
| `MarkStable.EveryPinIsReleased` | specs/MarkStableViaBlobsAvailable.tla:338-346 | with wrappers that pass on both calls, to any depth, a run that has come to its end holds no pins |
| `MarkStable.SwallowedMarks` | nativelink-util/src/store_trait.rs:1538-1573 | one wrapper that swallows marks: nothing ever reaches the leaf's queue, nothing is broadcast, and everything held is pinned |
| `MarkStable.SwallowedDrains` | specs/TraitDefaultNoop.tla:1-60 | one wrapper that swallows drains: nothing is ever broadcast and everything held is pinned, whatever waits in the leaf |
| `MarkStable.SwallowedDrainHappens` | specs/README.md:263-289 | the trace of the bug: the blob waits in the leaf, pinned, and a drain changes nothing |
| `MarkStable.PinsAreForever` | specs/README.md:263-289 | with either call swallowed no continuation of a run releases a pin, short of evicting the blob |
| `MarkStable.ReleasedIffAllDelegate` | specs/README.md:263-289 | every run that comes to its end has released its pins if and only if every wrapper passes on both calls |
| `MarkStable.RunsAreBounded` | specs/MarkStableViaBlobsAvailable.tla:286-292 | whatever the chain, a run changes the state at most seven times per blob, and if drains get through every step changes it |
| `MarkStable.FinalIff` | specs/MarkStableViaBlobsAvailable.tla:286-292 | nothing but an eviction changes the state any more exactly when everything is reported and broadcast, and what the leaf still holds cannot be drained |
| `MarkStable.Complete` | specs/MarkStableViaBlobsAvailable.tla:286-292 | whatever the chain, every run can be continued to its end |
| `PinLifecycle.LeakIsExactlyThePrimed` | specs/PinLifecycle.tla:239-281 | with durable pins the blobs that stay pinned for good are exactly those the server had from the start |
| `PinLifecycle.LeakFreeIff` | specs/PinLifecycle.tla:258-281 | every pin of every run can still be released by some continuation if and only if pins expire or the server starts without the blobs |
| `PinLifecycle.Complete` | specs/PinLifecycle.tla:200-224 | with durable pins every run can be continued until nothing is left to do |
| `StreamingSeam.Reachable` | specs/StreamingBlobReadDuringWrite.tla:294-532 | every step keeps the invariant, for any number of readers and chunks |
| `StreamingSeam.ReaderIsAfter` | specs/StreamingBlobReadDuringWrite.tla:404-515 | where a reader stands is what its latest step says, and its cursor is the number of chunks it consumed |
| `StreamingSeam.WriterMayIff` | specs/StreamingBlobReadDuringWrite.tla:294-402 | what the writer and the seam can do, exactly, by what has happened |
| `StreamingSeam.ReaderMayIff` | specs/StreamingBlobReadDuringWrite.tla:404-524 | what a reader can do, exactly, by what has happened |
| `StreamingSeam.OkMeansWholeBlob` | specs/README.md:436-467 | a reader told Ok read the whole blob of a writer that ended in full; no cursor passes what was written; a full writer never leaves a silent or failed reader |
| `StreamingSeam.NeverSilentIff` | specs/README.md:448-462 | no reader ever ends silently if and only if the writer can neither fail nor, without the shield, end short: the two fixes alone do not give it |
| `StreamingSeam.SilentOnlyBeforeTheSeam` | specs/StreamingBlobReadDuringWrite.tla:488-515 | with the shield a reader ends silently exactly when the writer failed and the seam has not seen it |
| `StreamingSeam.ToldIff` | specs/StreamingBlobReadDuringWrite.tla:440-524 | what a reader that has caught up is told, exactly, by how the run ended the writer, what it sent and whether the seam has seen the failure |
| `StreamingSeam.ReaderRunsAreBounded` | specs/README.md:469-480 | once the writer is done each reader takes a bounded number of further steps |
| `StreamingSeam.NoEternalPark` | specs/README.md:469-480 | once the writer is done a reader that has not ended has a step of its own |
| `RetryCycle.StateIsAfter` | specs/FailedSlowWritesRetry.tla:149-275 | the state of each blob and of the connection is what the latest events about them say |
| `RetryCycle.WorkIff` | specs/FailedSlowWritesRetry.tla:163-275 | what can happen to a blob, exactly: a write in flight succeeds or fails and may hang once; a queued one is, on a live connection, retried while there is budget and given up after |
| `RetryCycle.WorkIsBounded` | specs/FailedSlowWritesRetry.tla:163-284 | with a budget a run holds at most 4 * maxRetries + 3 steps of work per blob, however often the connection comes and goes |
| `RetryCycle.WorkUntilSettled` | specs/FailedSlowWritesRetry.tla:163-284 | while connected an unsettled blob has work enabled; a settled one is stored or was given up after all retries |
| `RetryCycle.BoundedIffBudget` | specs/README.md:291-312 | work is bounded if and only if there is a budget |
| `StoreSpec.RewriteFilesystemPaths` | benchmarks/src/composition.rs:295-352 | the recursive rewrite with its loop over shards computes the rewritten specification |
| `StoreSpec.RewriteEverywhere` | benchmarks/src/composition.rs:295-352 | at every place of any tree the rewrite changes Filesystem nodes only: both paths, and the cap to the smaller of itself and 64 GiB; no place appears or goes away |
| `StoreSpec.OwnAndChildrenDetermine` | benchmarks/src/composition.rs:295-352 | node and children determine a specification, so that the previous row leaves nothing unsaid |
| `StoreSpec.LastRewriteWins` | benchmarks/src/composition.rs:295-352 | the last rewrite wins; the rewrite is idempotent |
| `StoreSpec.ApplyBenchOverrides` | benchmarks/src/composition.rs:266-287 | in place and in order: names are kept, the two Redis stores become 4 GB of memory, and every other store is rewritten at every place |
| `StoreSpec.RedisRemainsIff` | benchmarks/src/composition.rs:258-287 | a Redis node remains exactly when it sat in a store not replaced by name |
| `StoreSpec.FindIsFirstVisible` | benchmarks/src/composition.rs:366-385 | the search returns the first SizePartitioning in preorder that is not below a CacheMetrics |
| `StoreSpec.FoundIffUncovered` | benchmarks/src/composition.rs:354-385 | a threshold is found if and only if some SizePartitioning lies below no CacheMetrics, although the rewrite goes below them and the comment promises a match anywhere |
| `StoreSpec.ExtractSizePartitioningThreshold` | benchmarks/src/composition.rs:357-364 | the loop over the stores returns the first threshold among the nodes of all stores, laid end to end in preorder, that are not below a CacheMetrics |
| `StoreSpec.OverridesKeepThreshold` | benchmarks/src/composition.rs:209-224 | after the overrides the threshold is the first one among the stores not replaced by name |
| `Percentiles.SortedSorts` | benchmarks/src/output.rs:155 | sorting yields an ascending permutation |
| `Percentiles.FromSamples` | benchmarks/src/output.rs:153-169 | sorts in place; each percentile is emitted exactly, max is the maximum, and p50 <= p90 <= p99 <= max |
| `Percentiles.PercentileIsNearestRank` | benchmarks/src/output.rs:157-161 | the percentile is a sample with at least p*N samples up to it and fewer than p*N below it |
| `Percentiles.PercentileIgnoresOrder` | benchmarks/src/output.rs:153-161 | the order of the samples does not matter |
| `Percentiles.RoundEmitIsNearest` | benchmarks/src/output.rs:233-239 | rounding takes the nearest multiple of a millionth, half way up |
| `Percentiles.RoundEmitIsExact` | benchmarks/src/output.rs:233-239 | rounding to six decimals of a millisecond keeps whole nanoseconds |
| `Percentiles.RoundEmitIsMonotone` | benchmarks/src/output.rs:237-239 | rounding keeps the order |
| `Percentiles.HighIffHeadroom` | benchmarks/src/output.rs:107-130 | the tier High coincides with a sample above the one taken for p99 |
| `StoreConflict.CheckStoreConflict` | nativelink-config/src/cas_server.rs:1922-1950 | the two loops report an error exactly when an AC entry uses the store of the last CAS entry of its instance, and name the first |
| `StoreConflict.LastStoreIsLast` | nativelink-config/src/cas_server.rs:1922-1935 | the store looked up for an instance is that of its last entry, and there is none exactly if it has no entry |
| `StoreConflict.SoundIffConsistent` | nativelink-config/src/cas_server.rs:1922-1950 | the check finds exactly the clashing pairs, whatever the AC entries, if and only if CAS entries of one instance agree |
| `StoreConflict.ConvertedIsConsistent` | nativelink-config/src/backcompat.rs:41-61 | converted maps have unique instance names |
| `StoreConflict.ConvertedVerdict` | nativelink-config/src/backcompat.rs:41-61 | on converted maps the verdict is whether some instance has one store for both, in whatever order they are iterated |
| `ByteStreamWrite.StoredIsPrefix` | nativelink-proto/genproto/google.bytestream.pb.rs:52-113 | over every run of chunks, disconnects and resumptions the stored bytes are a prefix of the blob, and the write is complete exactly when a finishing request was processed, with the whole blob stored |
| `ByteStreamWrite.CommittedIsWhatGotThrough` | nativelink-proto/genproto/google.bytestream.pb.rs:52-113 | what is committed is exactly the data of the requests processed and the parts that got through before a break; a request that breaks the rules adds nothing and ends the stream |
| `ByteStreamWrite.MayIff` | nativelink-proto/genproto/google.bytestream.pb.rs:52-113 | what client, server and network can do, exactly, by what has happened; the end is sent once and only with the last byte |
| `ByteStreamWrite.CommittedSizeNeverDecreases` | nativelink-proto/genproto/google.bytestream.pb.rs:284-300 | what is committed only grows, and stays complete |
| `ByteStreamWrite.CanAlwaysResume` | nativelink-proto/genproto/google.bytestream.pb.rs:244-262 | however a write was interrupted, querying and sending the rest completes it |

## Left out

- StreamingBuffer.Reachable: atomics are sequentially consistent; weaker memory orderings, the
  saturation of the 64-bit counters and two overlapping calls of `send`, which the source calls a
  misuse, are not modelled.
- StreamingBuffer.NoLostWakeup: the watch channel is a version counter; tokio itself, timers and the
  length of the deadline are not modelled (a time-out is a step that may happen at any time).
- BlobsAvailable.ChunkBlobsAvailable: the log lines and the estimate that decides between the chunked
  and the single-message path are not modelled.
- BlobsAccumulator.BlobsAvailableAccumulator.MergeChunkOutcome: the counters of dropped chunks and the
  log lines are not modelled; the lock around the state makes each call one step.
- ProtoGenerator.Generate: paths are taken after normalisation and made relative; the fixed header of
  the output is left off; printing is a list of lines.
- ProtoWire.DecodeEncodeFields: the deprecated group records are rejected, where the library skips
  unknown ones; decoding is otherwise total on arbitrary bytes.
- ErrorStatus.MessageGrowsWithoutDetails: tonic's rendering of a status is not part of the repository;
  it is a parameter, assumed here only to be longer than the message it quotes.
- ErrorStatus.SettledIffDetails: rests on the same assumption; ErrorStatus.SettledIff does not.
- ErrorMerge.MergeOptionIsMonoid: merging two results, which merges their errors case by case, is not
  modelled.
- ErrorStatus.DecodeEncodeStatus: lengths are below 2^64, as Rust's vectors guarantee.
- Percentiles.FromSamples: the rank is computed in exact arithmetic and durations are whole
  nanoseconds; rounding errors of 64-bit floats are not modelled.
- StoreSpec.RewriteFilesystemPaths: specification fields that the code only carries along are one
  opaque string per node; owned trees are values, so update in place is replacement.
- MarkStable.Reachable: one worker, and a chain of wrappers rather than a tree of them; failed sends and
  server-to-worker back-propagation are not modelled, nor do the specifications model them.
- StreamingSeam.Reachable: chunks carry no bytes and there is no window; StreamingBuffer has both.
- ByteStreamWrite.StoredIsPrefix: one resource, one client; a request is committed as a whole or, when
  the stream breaks, in part.
- Debug and Display formatting, the tables from I/O and Redis error kinds, serde and log output.
- Store, scheduler and worker implementations other than the files named above, and the remaining
  specifications (replica gating, pin listeners, connection pool, scheduler, chunk races): many of
  these are small machines of the kind already modelled.
- Generated protobuf and gRPC code other than the contract of resumable writes.
