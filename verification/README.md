# Models of a device repository's concurrent and stream-processing code

This project models two groups of code and proves what they are for.

**The gator capture daemon** (`arm/gator-daemon`). A collector loop and a counters thread produce; one sender
thread consumes, all through counting semaphores. `Leb128`, `Ring`, `GatorFifo` and `GatorBuffer` give the
integer codes, the wrapping byte FIFO and the ring with its back-patched frames; `GatorFraming` is a reader of
the stream that knows nothing of the ring; `RingLaws` says, in bytes, when the ring commits and what it
accepts; `GatorBufferRuns` and `Pipeline` are transition systems over whole runs, `PipelineEnd` how they end,
and `CounterTurns` what the turns of the counters thread add up to; `GatorBufferClass`, `PipelineThreads` and
the class in `GatorFifo` are the objects, updated in place and tied to them call by call, `CountersLoop` and
`CollectLoop` the loops of two threads on them among the others. A step is one method call, or one side of a
wait.

**The sensor library** (`arm/gator-daemon/libsensors`). `ConfTables` holds the tables of the configuration
parser and `ConfParse` one trip of its loop. `ConfGrammar` says what files and expressions are without the
tables, and `ConfMeaning` what a file leaves behind without the actions. `ConfComplete` and `ConfFiles` prove
that every file parses as the grammar says, `ConfSound` and `ConfMain` the converse, and that the loop with
its two stacks always ends. `SensorAccess` is the recursive evaluator of compute statements, against a
semantics without its bound, and `SensorLaws` what its values are.

**The modem interface layer** (`mbm/mbm-ril`). `AtReadLine`, `AtLineLaws`, `AtOverflow` and `AtBuffer`: lines
out of a byte stream, in an in-place buffer. `AtCommandLock`, `AtCommandRuns`, `AtCommandEnd` and
`AtCommandResults`: two mutexes and two condition variables. `AtRouting`, `AtRoutingLaws` and
`AtResponseList`: where a line goes, on a linked list that is reversed in place. `EventQueue` and `EventList`:
the time-sorted doubly linked list. `Messaging`: one outstanding acknowledgement over a held queue. `AtTok`
and `AtTokLine`: the destructive tokenizer. `BroadcastRanges` and `BroadcastConfig`: printing and parsing
cell-broadcast ranges, and what of them reaches the modem. `StkMenu`: a nested TLV and its parser.

Where a method updates state, its contract ties the new state to a function of the old one, and what the
source promises is proved of that function, over all inputs or all runs.

## What does not hold

Each of these is a lemma that says exactly when the property does hold; where the failing case is a run or a
choice of reads, another lemma gives one.

- A formatted AT command is put together in one static buffer, and a thread that then waits for its turn lets
  others overwrite it: it writes what was formatted last. With a second channel, whose threads have mutexes of
  their own, it need not even have waited (`AtCommandRuns.MixUp`, `AtCommandRuns.MixUpWithoutWaiting`,
  `AtCommandRuns.WrittenIsLastFormatted`).
- Lines that begin with the SMS prompt are cut differently depending on how the stream is cut into reads
  (`AtReadLine.PromptDependsOnChunking`, `AtReadLine.ChunkingMattersExactlyForPrompts`).
- Events for the same moment may fire out of order when one of them was left with 1000000000 nanoseconds
  (`EventQueue.SameMomentOutOfOrder`, `EventQueue.SameMomentIsFifo`).
- A broadcast configuration cannot be read back if its last entry is not selected, unless ten are, or if its
  ranges take more than 499 characters, because the end of the command is cut off then
  (`BroadcastConfig.ComesBackExactly`, `BroadcastConfig.TooLong`).
- A menu cannot be read back if it has more than 255 bytes, for which its length field has no room, or an item
  of 129, whose length looks like the mark of a two-byte length (`StkMenu.MenuComesBack`).
- A broadcast message that has to be held is copied as a string, and so is cut at a zero byte or runs on past
  its end (`Messaging.BroadcastIsWholeExactly`).
- at_tok_hasmore denies an empty last field that at_tok_nextstr still returns (`AtTok.TokensExactlyIfLastNotEmpty`).

## Model

| member | source | states |
|---|---|---|
| `Leb128.Pack32RoundTrip` | arm/gator-daemon/Buffer.cpp:143-183 | for every int32: the bytes packInt stores are a code word of one to five bytes that decodes to the 32-bit pattern of the value |
| `Leb128.Pack64RoundTrip` | arm/gator-daemon/Buffer.cpp:185-310 | for every int64: one to ten bytes, a code word, decoding modulo 2^64 to the 64-bit pattern |
| `Leb128.NegativePack64` | arm/gator-daemon/Buffer.cpp:298-309 | a negative int64 takes ten bytes, the last 0x7f, and is the code of the value plus 2^70 |
| `Leb128.Pack64IsUleb` | arm/gator-daemon/Buffer.cpp:185-297 | the unrolled branches agree with the encoding algorithm of DWARF 4 section 7.6 on every value that is not negative |
| `Leb128.Pack32IsPack64` | arm/gator-daemon/Buffer.cpp:143-183 | packInt and packInt64 agree on the 32-bit pattern |
| `Leb128.PrefixFree` | arm/gator-daemon/Buffer.cpp:143-310 | a stream that starts with a code word starts with only that one: the code is prefix-free |
| `GatorFifo.FreeRegion` | arm/gator-daemon/Fifo.cpp:60-98 | while the FIFO is not full, the next singleBufferSize bytes at the write cursor exist and hold nothing unread or held |
| `GatorFifo.FillKeeps` | arm/gator-daemon/Fifo.cpp:74-98 | storing at the write cursor changes neither the unread nor the held bytes |
| `GatorFifo.PublishAppends` | arm/gator-daemon/Fifo.cpp:74-98 | write appends exactly the stored bytes to the unread ones, wrapped or not |
| `GatorFifo.ReadHandsOutPrefix` | arm/gator-daemon/Fifo.cpp:114-127 | read is null exactly if nothing is unread and the end is not marked; else it hands out a prefix of the unread bytes, empty only if there are none |
| `GatorFifo.ReleaseDropsHeld` | arm/gator-daemon/Fifo.cpp:100-111 | release drops exactly what was handed out and never makes the FIFO full |
| `GatorFifo.FifoRefinesQueue` | arm/gator-daemon/Fifo.cpp:60-127 | in every interleaving of write, read and release: written = released + unread, so the bytes read are a prefix of the bytes written |
| `GatorFifo.TwoReleasesFreeTheWriter` | arm/gator-daemon/Fifo.cpp:74-111 | a writer stuck in its wait loop is let go after at most two releases |
| `GatorFifo.NoWaitUnlessWillFill` | arm/gator-daemon/Fifo.cpp:60-98 | before anything has been read, a false willFill(n) means that write(n) does not wait |
| `GatorFifo.WillFillExactly` | arm/gator-daemon/Fifo.cpp:60-72 | willFill(n) is true exactly if the unread and held bytes and n together reach the threshold, or all but a single buffer of it once the writer is not ahead of the reader |
| `GatorFifo.Fifo.WillFill` | arm/gator-daemon/Fifo.cpp:60-72 | the branches of the method agree with the specification on the fields |
| `GatorFifo.Fifo.IsEmpty` | arm/gator-daemon/Fifo.cpp:50-52 | true exactly if no byte is unread |
| `GatorFifo.Fifo.Write` | arm/gator-daemon/Fifo.cpp:74-98 | in place: publish, wrap at the threshold, remember the ragged end, wake the reader once |
| `GatorFifo.Fifo.Read` | arm/gator-daemon/Fifo.cpp:114-127 | in place: the span handed out is a prefix of the unread bytes |
| `GatorFifo.Fifo.Release` | arm/gator-daemon/Fifo.cpp:100-111 | in place: the released bytes followed by what stays unread are what was unread; the writer is woken once |
| `GatorFraming.ReadStreamBack` | arm/gator-daemon/Buffer.cpp:98-127 | a stream of frames parses back to exactly those frames and the words of exactly those records, in order |
| `GatorFraming.ReadFrameBack` | arm/gator-daemon/Buffer.cpp:312-320 | one frame, whatever follows it: type byte, little-endian length equal to the payload, buftype, core, records |
| `GatorBufferRuns.FrameOpens` | arm/gator-daemon/Buffer.cpp:312-320 | frame, though it moves the write position past the end without masking, leaves an open frame header in the ring |
| `GatorBufferRuns.CommitCloses` | arm/gator-daemon/Buffer.cpp:98-127 | commit patches the length of the frame that is open, wherever it lies in the ring, and sparing what is committed |
| `GatorBufferRuns.ApplyKeepsInv` | arm/gator-daemon/Buffer.cpp:33-141 | every call of the two threads keeps the ring invariant: sent + committed is the stream of the committed frames, and the open part is the frame under way |
| `GatorBufferRuns.RunsNeverOverrunAndAreWellFramed` | arm/gator-daemon/Buffer.cpp:33-141 | in every run driven as countersThread drives it: never more than size - 185 bytes between readPos and writePos, and what was sent parses to exactly the accepted records |
| `GatorBufferRuns.OutgoingIsCommitted` | arm/gator-daemon/Buffer.cpp:33-61 | the one or two pieces write hands over are the committed bytes in order |
| `RingLaws.CheckLaw` | arm/gator-daemon/Buffer.cpp:134-141 | after check less than three quarters of the ring are not committed, and with a live rate its time is yet to come; if that was so before, check does nothing |
| `RingLaws.CheckInRuns` | arm/gator-daemon/Buffer.cpp:134-141 | in every run the history gains a frame with the open records exactly if three quarters of the ring were not committed or the live rate was due |
| `RingLaws.CommitLaw` | arm/gator-daemon/Buffer.cpp:98-127 | commit commits all that was there, leaves what is not read yet and the refusal mark alone, and is followed by at most fifteen bytes of a new header, by none once done |
| `RingLaws.Advanced` | arm/gator-daemon/Buffer.cpp:113-117 | the live clock moves on by whole rates, to less than one beyond the time, and not at all if it is ahead already |
| `RingLaws.AcceptedExactly` | arm/gator-daemon/Buffer.cpp:67-96 | a time is recorded exactly if fifteen bytes are left besides the margin, a counter exactly if ten or twenty are; the margin is 200 bytes, and 2000 after a refusal |
| `RingLaws.TypeByte` | arm/gator-daemon/Buffer.cpp:312-320 | a frame begins with the type byte 3 and its length, and without the type byte in a local capture |
| `RingLaws.NewRing` | arm/gator-daemon/Buffer.cpp:17-27 | a new ring holds the header of one frame and nothing else, accepts events, and is due first when the live rate has passed once |
| `GatorBufferClass.Buffer.Commit` | arm/gator-daemon/Buffer.cpp:98-127 | in place: length stored byte by byte, positions advanced, live clock caught up, the reader woken once |
| `GatorBufferClass.Buffer.Check` | arm/gator-daemon/Buffer.cpp:129-141 | in place: commits exactly when three quarters are filled or the live rate is due, and keeps the run invariant |
| `GatorBufferClass.Buffer.EventHeader` | arm/gator-daemon/Buffer.cpp:322-331 | in place: tells whether the timestamp was accepted, which is when the run may go on to record and check |
| `GatorBufferClass.Buffer.Event` | arm/gator-daemon/Buffer.cpp:333-338 | in place: both integers or neither |
| `GatorBufferClass.Buffer.Event64` | arm/gator-daemon/Buffer.cpp:340-345 | in place: both integers or neither |
| `GatorBufferClass.Buffer.Write` | arm/gator-daemon/Buffer.cpp:33-61 | in place: the sender receives exactly the committed bytes |
| `GatorBufferClass.Buffer.SetDone` | arm/gator-daemon/Buffer.cpp:347-350 | in place: the last frame is committed and no new one opened |
| `GatorBufferClass.Buffer.CatchUp` | arm/gator-daemon/Buffer.cpp:113-117 | the loop that moves the live clock ends less than one rate past the time given |
| `Pipeline.NextKeepsInv` | arm/gator-daemon/Child.cpp:195-223 | every step of every thread keeps the invariant: conservation of bytes, free space for the collector, and enough posts for the work that is there |
| `Pipeline.RunsDeliverPrefixes` | arm/gator-daemon/Child.cpp:195-223 | in every interleaving: what was sent from the FIFO is a prefix of what was collected, what was sent from the ring is the committed frames but those still ready, and a sender that has exited has delivered everything |
| `Pipeline.SleepingSenderHasNoWork` | arm/gator-daemon/Child.cpp:201-213 | a sender that waits on an empty senderSem has nothing to deliver, and production is not over |
| `Pipeline.BlockedCollectorHasSender` | arm/gator-daemon/Child.cpp:366-378 | a collector that waits for space never waits for a sender that is stuck itself |
| `Pipeline.OneShotNeverWaits` | arm/gator-daemon/Child.cpp:366-378 | with the gate shut, a one-shot collector does not wait for space |
| `Pipeline.CollectEndsExactly` | arm/gator-daemon/Child.cpp:366-376 | what collect gives ends the session, with one more token for the gate, exactly if it is a one-shot session that is active, and nothing came or the FIFO would be filled |
| `Pipeline.SenderFinishes` | arm/gator-daemon/Child.cpp:195-223 | after the end mark and setDone the sender alone exits within a bounded number of steps, with every byte and frame delivered and the end sequence last |
| `PipelineEnd.EveryRunEndsCleanly` | arm/gator-daemon/Child.cpp:195-223 | after the end mark and setDone, in every interleaving with the other threads: the sender can always take its next step until it exits, takes at most a number of steps fixed beforehand, and at its exit every byte and frame is delivered, the end sequence last |
| `PipelineEnd.FullForSixSteps` | arm/gator-daemon/Fifo.cpp:74-111 | however long the FIFO stays full, in every interleaving: the sender can always take its next step, and takes at most six before there is room |
| `PipelineEnd.SixStepsMakeRoom` | arm/gator-daemon/Fifo.cpp:74-111 | in every interleaving, a full FIFO gets room before the sender has taken more than six steps |
| `PipelineEnd.RoomEndsTheWait` | arm/gator-daemon/Fifo.cpp:91-98 | as soon as there is room, the next two steps of a collect loop that waits for it take it out of its wait |
| `PipelineEnd.PlayedIsRun` | arm/gator-daemon/Child.cpp:195-223 | an interleaving up to the exit of the sender, given by what the others do before each of its steps, is a run, and everything is delivered at its end |
| `PipelineEnd.ClosingPlays` | arm/gator-daemon/Child.cpp:195-223 | once production is over, the sender alone can always go on to its exit |
| `PipelineThreads.Session.constructor` | arm/gator-daemon/Child.cpp:322-331 | the objects as set up before any thread moves satisfy the pipeline invariant; no semaphore has a token but the gate, which has two unless the session is one-shot |
| `PipelineThreads.Session.EndSession` | arm/gator-daemon/Child.cpp:256-260 | on the objects: the session is marked over and the gate gets one more token |
| `PipelineThreads.Session.Collect` | arm/gator-daemon/Child.cpp:366-376 | the collect step on the shared objects is the collect step of the transition system, and stores only into free space |
| `PipelineThreads.Session.Publish` | arm/gator-daemon/Child.cpp:377-377 | the write that follows, up to its wait, is the publish step |
| `PipelineThreads.Session.Other` | arm/gator-daemon/Child.cpp:366-378 | every step of any other thread, on the shared objects, is that step of the transition system |
| `PipelineThreads.Session.Meanwhile` | arm/gator-daemon/Child.cpp:366-378 | so is any sequence of their steps between two of the sender, which leaves alone where the sender is and the span it holds |
| `PipelineThreads.Session.SenderTurn` | arm/gator-daemon/Child.cpp:204-213 | one turn of the sender on the shared objects, with any steps of the others in between, is its steps of the transition system |
| `PipelineThreads.Session.SenderThread` | arm/gator-daemon/Child.cpp:195-223 | the loop on the shared objects, in every interleaving with the other threads that lets it get to its end, whenever production ends: it goes through the states of the transition system, and at its end the host has been sent everything; unless the capture is local, the bytes sent end with 3, 0, 0, 0, 0 |
| `CounterTurns.TurnStaysInOneFrame` | arm/gator-daemon/Child.cpp:176-185 | a time and its counters are never apart: one turn records them in the same frame, counters missing only at the end and only when the ring has no room; a turn whose header is refused records nothing |
| `CounterTurns.ReadRecordsPrefix` | arm/gator-daemon/Hwmon.cpp:270-277 | of the counters offered to the ring a prefix is recorded: once one is refused, all later ones are |
| `PipelineThreads.Session.CheckRing` | arm/gator-daemon/Child.cpp:181-183 | on the objects: the check is the step of the transition system, and the sender is woken exactly when something was committed |
| `CountersLoop.CountersTurn` | arm/gator-daemon/Child.cpp:176-190 | one turn on the shared objects, with any steps of the other threads before each of its own: its calls are the header, and if there was room for it the counters and then the check, and it ends the session itself exactly if it found at most 200 bytes of the ring free, or at most 2000 after a refusal; what it records stays together in one frame |
| `CountersLoop.CountersThread` | arm/gator-daemon/Child.cpp:157-193 | the loop on the shared objects, among any steps of the other threads: its calls in the run are those of its turns and then setDone; it makes a turn exactly if it found the session active; each turn ends the session exactly if it found the ring full; and every frame is made of whole groups of a time and its counters, in order |
| `PipelineThreads.Session.SenderMove` | arm/gator-daemon/Child.cpp:201-213 | every step of the sender, on the shared objects, is that step of the transition system |
| `CollectLoop.CollectLoop` | arm/gator-daemon/Child.cpp:366-378 | the collect loop on the shared objects, in every interleaving with the other threads that lets it get to its end: it goes through the states of the transition system, and at its end the FIFO has its end mark |
| `CollectLoop.CollectedIsRun` | arm/gator-daemon/Child.cpp:366-378 | an interleaving up to the end of the collect loop, given by what the others do before each of its steps, is a run |
| `ConfMain.AcceptsExactlyTheGrammar` | arm/gator-daemon/libsensors/conf-parse.c:1326-1493 | a token sequence is accepted, with a given configuration, if and only if it is the tokens of a file of the grammar whose statements build that configuration within the stack limit |
| `ConfMain.AcceptsExactlyWithMeaning` | arm/gator-daemon/libsensors/conf-parse.c:1497-1600 | the same without the actions: accepted, with a given configuration, exactly if the tokens are those of a file with no statement before its first chip section and below the stack limit of 10000, and the configuration has the buses in order and for every chip statement a section with its names and the labels, sets, computes and ignores up to the next, in order |
| `ConfFiles.FilesParse` | arm/gator-daemon/libsensors/conf-parse.c:1326-1826 | for every file of the grammar: how the parser ends, with success, a statement before the first chip section, or an exhausted stack |
| `ConfFiles.PrintedExpressionParses` | arm/gator-daemon/libsensors/conf-parse.c:1622-1730 | an expression printed with only the parentheses it needs parses back to the same tree |
| `ConfFiles.VerdictIsExec` | arm/gator-daemon/libsensors/conf-parse.c:1497-1600 | below the stack limit the configuration is the one the statements build one after the other |
| `ConfMeaning.ExecAllIs` | arm/gator-daemon/libsensors/conf-parse.c:1497-1600 | the statements one after the other leave behind exactly those sections, or fail exactly if one that belongs to a section stands before the first |
| `ConfGrammar.MinimalIsWf` | arm/gator-daemon/libsensors/conf-parse.c:1622-1730 | the printed form is of the grammar, with + and - below * and / below the prefix operators, all left-associative, and stands for the same tree |
| `ConfGrammar.OperatorsAsWritten` | arm/gator-daemon/libsensors/conf-parse.c:1622-1730 | which token stands for which operator, and on which side its operands stand |
| `ConfComplete.ParseExpr` | arm/gator-daemon/libsensors/conf-parse.c:1326-1826 | every expression of the grammar, in every place where it fits, is reduced to its tree; the height at which the stack gives out is exact |
| `ConfSound.StepKeeps` | arm/gator-daemon/libsensors/conf-parse.c:1326-1826 | every error-free step keeps the two stacks standing for symbols of the grammar whose tokens have been consumed, and gets closer to the end by a measure |
| `ConfMain.ReductionFindsItsRule` | arm/gator-daemon/libsensors/conf-parse.c:1483-1493 | a reduction finds exactly the right-hand side of its rule on top of any stack whose entries stand for symbols |
| `ConfMain.EveryReductionFindsItsRule` | arm/gator-daemon/libsensors/conf-parse.c:1483-1493 | in every run from the start on every token sequence, a reduction finds exactly the right-hand side of its rule on top of the stack, above at least one more entry |
| `ConfMain.SameTokensSameVerdict` | arm/gator-daemon/libsensors/conf-parse.c:1326-1826 | the grammar is unambiguous up to the configuration: files with the same tokens end alike |
| `ConfParse.EndIsUnique` | arm/gator-daemon/libsensors/conf-parse.c:1326-1826 | there is at most one way for the parser to end |
| `ConfMain.Act` | arm/gator-daemon/libsensors/conf-parse.c:1495-1795 | the switch of the actions on the value stack computes the specified value and configuration, reading only entries that are there |
| `ConfMain.YyParse` | arm/gator-daemon/libsensors/conf-parse.c:1326-1826 | the loop with its state and value stacks and its one token of look-ahead ends on every input, with the outcome the steps lead to |
| `SensorAccess.MatchesIsCommonInstance` | arm/gator-daemon/libsensors/access.c:41-66 | two chip names match exactly if some name without wildcards is an instance of both |
| `SensorAccess.LookupChip` | arm/gator-daemon/libsensors/access.c:96-107 | the loop finds the first chip that matches |
| `SensorAccess.ForAllConfigChips` | arm/gator-daemon/libsensors/access.c:74-91 | the two nested loops find the nearest fitting section before the last one, or none if there is none |
| `SensorAccess.FindCompute` | arm/gator-daemon/libsensors/access.c:244-264 | the search loops find the compute statement that applies |
| `SensorAccess.LastSectionFirstStatement` | arm/gator-daemon/libsensors/access.c:244-264 | the statement that applies is the first for the feature in the last fitting section that has one |
| `SensorAccess.NoStatement` | arm/gator-daemon/libsensors/access.c:244-264 | none applies exactly if no fitting section has one |
| `SensorAccess.SensorsGetValue` | arm/gator-daemon/libsensors/access.c:227-277 | the recursion with its searches computes the specified outcome and ends on every configuration, cyclic ones included |
| `SensorAccess.SensorsEvalExpr` | arm/gator-daemon/libsensors/access.c:438-497 | likewise for expressions |
| `SensorAccess.BoundIsExact` | arm/gator-daemon/libsensors/access.c:227-277 | an outcome other than the recursion error is reached if and only if the semantics without a bound has it with readings nested no deeper than the bound |
| `SensorAccess.RecursionMeansDeep` | arm/gator-daemon/libsensors/access.c:236-237 | the recursion error means exactly that there is no evaluation within the bound |
| `SensorAccess.OneGet` | arm/gator-daemon/libsensors/access.c:227-277 | the semantics without a bound has at most one outcome |
| `SensorAccess.CyclesNeverSucceed` | arm/gator-daemon/libsensors/access.c:31-33 | a reading that leads into a cycle of compute statements has no value, with or without the bound |
| `SensorAccess.LongChainsNeverSucceed` | arm/gator-daemon/libsensors/access.c:31-33 | nor has one from which compute statements lead on for as many readings as the bound |
| `SensorLaws.Sums` | arm/gator-daemon/libsensors/access.c:470-486 | for all expressions with values: a - b + b is a, the order of a sum does not matter, 0 adds nothing, and -a + a is 0 |
| `SensorLaws.Products` | arm/gator-daemon/libsensors/access.c:476-483 | 1 changes nothing, products distribute over sums, a quotient undoes a product, and division fails exactly by 0 |
| `SensorLaws.Functions` | arm/gator-daemon/libsensors/access.c:487-494 | exp and log are those of the value of the operand; log fails exactly below 0 |
| `SensorLaws.Failures` | arm/gator-daemon/libsensors/access.c:438-497 | an operand that fails makes the expression fail in the same way, the left one first |
| `SensorLaws.Leaves` | arm/gator-daemon/libsensors/access.c:446-461 | constants, the raw value, and variables: the first subfeature of that name, read one level deeper, or an error if there is none |
| `SensorLaws.AbsoluteNames` | arm/gator-daemon/libsensors/access.c:40-66 | a name without wildcards matches exactly the names that agree with it in every part that is no wildcard |
| `SensorLaws.ReadingFails` | arm/gator-daemon/libsensors/access.c:227-277 | readings that fail: nested too deep, a name with wildcards, an unknown chip or subfeature, one that must not be read, a failure of the hardware, in this order |
| `SensorLaws.RawReading` | arm/gator-daemon/libsensors/access.c:248-277 | a reading that no compute statement applies to is what the hardware gives |
| `SensorLaws.ComputedReading` | arm/gator-daemon/libsensors/access.c:248-277 | one that a statement applies to is the first expression of that statement, of what the hardware gives |
| `SensorLaws.EightReadings` | arm/gator-daemon/libsensors/access.c:236-237 | outcomes other than the recursion error are those with at most eight readings nested in each other |
| `AtReadLine.LinesAreThePieces` | mbm/mbm-ril/atchannel.c:463-604 | if the prompt only occurs as a line of its own and no buffer with data in it is ditched, the lines are the stream cut at newlines, empty pieces dropped |
| `AtReadLine.ShortLinesAreNotLost` | mbm/mbm-ril/atchannel.c:506-513 | however the stream is read: if every line fits, with the newlines before it but for the one that ends the line before, the overflow branch never ditches any of it |
| `AtOverflow.NothingDitchedExactlyIfLinesFit` | mbm/mbm-ril/atchannel.c:506-513 | on streams without prompts that go on and without newlines that fill the buffer by themselves: nothing is ditched whatever the reads, if and only if every line fits |
| `AtReadLine.ChunkingDoesNotMatter` | mbm/mbm-ril/atchannel.c:463-604 | for such streams the lines do not depend on how the stream is cut into reads |
| `AtReadLine.ChunkingMattersExactlyForPrompts` | mbm/mbm-ril/atchannel.c:439-451 | of streams whose lines fit in the buffer, the lines are the same for all ways of cutting it into reads if and only if no line begins with the prompt and goes on |
| `AtReadLine.PromptDependsOnChunking` | mbm/mbm-ril/atchannel.c:439-451 | a stream and two ways of reading it that give different lines |
| `AtLineLaws.LinesAreClean` | mbm/mbm-ril/atchannel.c:463-604 | whatever comes in and however it is read, no line is empty or has a carriage return or a line feed in it |
| `AtLineLaws.PiecesAreStretches` | mbm/mbm-ril/atchannel.c:439-451 | the pieces of a stream are its longest stretches without the two characters, in order: two characters are in the same one exactly if neither of the two lies between them |
| `AtLineLaws.OnlyNewlinesAreDropped` | mbm/mbm-ril/atchannel.c:439-451 | the pieces one after the other, and the unfinished tail, are the stream without just those two characters |
| `AtLineLaws.LinesAreStretches` | mbm/mbm-ril/atchannel.c:463-604 | so are the lines of every stream that fits and has no prompt that goes on |
| `AtLineLaws.HandedAreLines` | mbm/mbm-ril/atchannel.c:632-661 | only lines are handed on, what is taken for an SMS notification begins with one of its three prefixes, and what goes to processLine does not |
| `AtLineLaws.BeginsLikeSms` | mbm/mbm-ril/atchannel.c:335-351 | the three beginnings of an SMS notification |
| `AtBuffer.AtContext.FindNextEOL` | mbm/mbm-ril/atchannel.c:439-451 | the scan finds the end of the first line, or the prompt |
| `AtBuffer.AtContext.MoveUp` | mbm/mbm-ril/atchannel.c:492-500 | the partial line is moved to the front unharmed |
| `AtBuffer.AtContext.ReadMore` | mbm/mbm-ril/atchannel.c:556-571 | a read and both terminators stay inside the buffer |
| `AtBuffer.AtContext.Readline` | mbm/mbm-ril/atchannel.c:463-604 | on the buffer: returns the line, leaves the rest and consumes of the stream just what the specification says; cursors stay inside |
| `AtBuffer.AtContext.ReaderLoop` | mbm/mbm-ril/atchannel.c:632-661 | the loop hands on the lines of the stream, which are its pieces however it comes in, and none of which is empty or has a carriage return or line feed in it, an SMS notification together with the line after it |
| `AtReadLine.GroupedIsAll` | mbm/mbm-ril/atchannel.c:632-661 | every line is handed on once and in order, but for an SMS notification that nothing follows, and processLine never gets a notification |
| `AtCommandLock.NextKeepsInv` | mbm/mbm-ril/atchannel.c:946-1055 | every step of every thread keeps the invariant |
| `AtCommandRuns.OneCommandAtATime` | mbm/mbm-ril/atchannel.c:968-979 | in every run: a response is there only while requestmutex is held, by its own thread; the pending-command branch is never taken; no thread takes the response to another command |
| `AtCommandRuns.MutualExclusion` | mbm/mbm-ril/atchannel.c:1041-1055 | at most one thread is past the lock of either mutex |
| `AtCommandRuns.WaitersHaveAHolder` | mbm/mbm-ril/atchannel.c:964-966 | whoever waits on requestcond waits for a thread that holds requestmutex and has yet to broadcast |
| `AtCommandRuns.NoDeadlock` | mbm/mbm-ril/atchannel.c:946-1055 | some thread can go on by itself, or one waits for the modem on an open channel and all others for it |
| `AtCommandRuns.AnswerEndsTheCommand` | mbm/mbm-ril/atchannel.c:984-1020 | once the modem has answered and no other thread steps in, the steps of the waiting thread end its command, wake all waiters and free both mutexes |
| `AtCommandResults.ResultsMean` | mbm/mbm-ril/atchannel.c:946-1020 | in every run, how a command gets each of its results: success by its own answer OK; failure by its own other answer, or because nothing could be sent; closed only if the channel is; timed out only if it had a limit and ran into it |
| `AtCommandResults.ResultsStay` | mbm/mbm-ril/atchannel.c:1283-1316 | a result stays what it is until the thread returns with it; a handshake that has failed fewer than eight times is tried again |
| `AtCommandResults.TextsAsWritten` | mbm/mbm-ril/atchannel.c:1034-1052 | what is written: ATE0V1 for the handshake, a formatted command cut to 511 characters |
| `AtCommandEnd.AnswerStarts` | mbm/mbm-ril/atchannel.c:355-362 | the final response finds the thread whose command it answers past its last wait, wherever it was |
| `AtCommandEnd.AnsweredCommandEnds` | mbm/mbm-ril/atchannel.c:984-1020 | in every interleaving: a thread with its answer returns with its fifth own step at the latest, and until then it can step or waits for commandmutex, whose holder can step |
| `AtCommandEnd.CloseStarts` | mbm/mbm-ril/atchannel.c:606-622 | so does a thread that waits when the channel is closed |
| `AtCommandRuns.WrittenIsLastFormatted` | mbm/mbm-ril/atchannel.c:1034-1052 | in every run: a formatted command goes out as what was formatted last; after its own formatting only other threads have formatted, and only threads of other channels if it did not wait; and it goes out wrong exactly if there are such and the last of them has another text |
| `AtCommandRuns.MixUp` | mbm/mbm-ril/atchannel.c:1034-1052 | a run in which a thread that had to wait writes the command of another |
| `AtCommandRuns.MixUpWithoutWaiting` | mbm/mbm-ril/atchannel.c:1034-1052 | a run in which a thread that never waited writes the command of a thread of another channel |
| `AtRouting.EveryLineGoesToOnePlace` | mbm/mbm-ril/atchannel.c:373-430 | helper of `CommandGetsItsResponses`: handler, intermediates, final response and prompt each get just the lines routed to them, in order, and no line is lost |
| `AtRouting.CommandGetsItsResponses` | mbm/mbm-ril/atchannel.c:373-430 | for every exchange: the command gets exactly the lines meant for it, in order of arrival, and its PDU is sent once exactly if there was a prompt |
| `AtRouting.HowManyResponses` | mbm/mbm-ril/atchannel.c:396-420 | at most one response for NUMERIC and SINGLELINE, none for NO_RESULT |
| `AtRoutingLaws.OneLine` | mbm/mbm-ril/atchannel.c:373-430 | where one line goes, by the beginnings of final responses spelled out and by what is pending |
| `AtRoutingLaws.FinalResponse` | mbm/mbm-ril/atchannel.c:281-333 | an exchange ends with the last line that is a final response, a success exactly if it begins with OK or CONNECT |
| `AtRoutingLaws.HandlerGetsTheRest` | mbm/mbm-ril/atchannel.c:373-430 | the handler gets, in order, exactly the lines that are no final response, no response of the command and not the prompt for its PDU |
| `AtResponseList.ATResponse.ReverseIntermediates` | mbm/mbm-ril/atchannel.c:925-938 | the list is turned round in place: same nodes, reversed |
| `AtResponseList.AtContext.AddIntermediate` | mbm/mbm-ril/atchannel.c:266-280 | the new line becomes the head of the list |
| `AtResponseList.AtContext.ProcessLine` | mbm/mbm-ril/atchannel.c:373-430 | on the objects: the line is routed as specified |
| `AtResponseList.AtContext.TakeResponse` | mbm/mbm-ril/atchannel.c:994-1014 | the list handed over is in order of arrival |
| `AtResponseList.AtContext.Exchange` | mbm/mbm-ril/atchannel.c:976-1006 | a whole exchange on the objects hands over exactly the responses of the command and the final response, writes the PDU exactly if there was a prompt for it, and leaves the other lines to the handler |
| `EventQueue.LessIsEarlier` | mbm/mbm-ril/u300-ril.c:66-69 | the comparison is that of the times, except between a time left with a full second of nanoseconds and the carried form |
| `EventQueue.AbsTimeIsSum` | mbm/mbm-ril/u300-ril.c:187-193 | the absolute time is the sum, and left unnormal exactly if the nanoseconds add up to one second |
| `EventQueue.RunsAreSorted` | mbm/mbm-ril/u300-ril.c:187-231 | in every run, in whatever order the threads read the clock and get the queue: nothing lost or duplicated; sorted by time and by arrival for equal times; each event that fired was the first of those waiting; none fired before its time had passed |
| `EventQueue.DueEventsFire` | mbm/mbm-ril/u300-ril.c:1168-1179 | an event whose time has passed fires after as many turns as there are events before it, and those fire first |
| `EventQueue.PollsExactly` | mbm/mbm-ril/u300-ril.c:1171-1179 | a poll takes the first event exactly if its time has passed, and otherwise changes nothing |
| `EventQueue.SameMomentIsFifo` | mbm/mbm-ril/u300-ril.c:190-193 | two events for the same moment keep their order unless the earlier is carried and the later is not |
| `EventQueue.SameMomentOutOfOrder` | mbm/mbm-ril/u300-ril.c:190-193 | and that does happen |
| `EventList.RequestQueue.Enqueue` | mbm/mbm-ril/u300-ril.c:203-231 | the doubly linked list stays well linked and becomes the sorted sequence with the event in its place |
| `EventList.RequestQueue.FindPlace` | mbm/mbm-ril/u300-ril.c:212-228 | the walk stops at the first later event or at the end |
| `EventList.RequestQueue.DequeueEvent` | mbm/mbm-ril/u300-ril.c:1171-1179 | the first event is taken exactly if it is due |
| `EventList.RequestQueue.OnRequest` | mbm/mbm-ril/u300-ril.c:634-648 | the request goes to the end of its list |
| `EventList.RequestQueue.DequeueRequest` | mbm/mbm-ril/u300-ril.c:1181-1184 | requests are taken in order |
| `Messaging.OneOutstanding` | mbm/mbm-ril/u300-ril-messaging.c:142-232 | in every run: deliveries are separated by acknowledgements, messages are held only while one is outstanding, and delivered followed by held is what arrived, in order and content: as it came if nothing was outstanding, and else its copy |
| `Messaging.AcknowledgementsDrain` | mbm/mbm-ril/u300-ril-messaging.c:572-603 | as many acknowledgements as there are held messages deliver them all, in order |
| `Messaging.BroadcastIsWholeExactly` | mbm/mbm-ril/u300-ril-messaging.c:211-222 | a broadcast is passed on whole exactly if nothing was outstanding, or it has no zero byte and the memory behind it begins with one |
| `Messaging.TextIsWhole` | mbm/mbm-ril/u300-ril-messaging.c:142-190 | SMS and status reports are always passed on whole, as what they came as, a status report with 00 in front |
| `Messaging.BroadcastIs` | mbm/mbm-ril/u300-ril-messaging.c:192-232 | a broadcast is discarded unless it has 176 digits; its bytes are those of its digits, the high one first |
| `Hex.DigitsAsWritten` | mbm/mbm-ril/misc.c:93-110 | which character stands for which value, in both cases; any other counts as 0 |
| `Messaging.Inbox.EnqueueHeldPdu` | mbm/mbm-ril/u300-ril-messaging.c:72-97 | a copy goes to the end of the linked list |
| `Messaging.Inbox.DequeueHeldPdu` | mbm/mbm-ril/u300-ril-messaging.c:59-70 | the first of the list is taken |
| `Messaging.Inbox.OnNewSms` | mbm/mbm-ril/u300-ril-messaging.c:142-160 | on the objects: delivered or held |
| `Messaging.Inbox.OnNewStatusReport` | mbm/mbm-ril/u300-ril-messaging.c:162-190 | likewise, with the address prefix |
| `Messaging.Inbox.OnNewBroadcastSms` | mbm/mbm-ril/u300-ril-messaging.c:192-232 | likewise, or discarded if the length is wrong |
| `Messaging.Inbox.RequestSMSAcknowledge` | mbm/mbm-ril/u300-ril-messaging.c:572-603 | the next held message is delivered, or the flag cleared |
| `AtTok.NextFieldBack` | mbm/mbm-ril/at_tok.c:72-131 | a token read off joined fields is the first field, as written between its quotes, and leaves the others |
| `AtTok.TokensOfJoin` | mbm/mbm-ril/at_tok.c:215-231 | as many calls as there are fields give the fields in order, with more to come before each and nothing after the last |
| `AtTok.TokensExactlyIfLastNotEmpty` | mbm/mbm-ril/at_tok.c:228-231 | of lines of proper fields that is so exactly if the last field is not empty and unquoted: such a field is still returned, though at_tok_hasmore denies it |
| `AtTok.BlanksAreSkipped` | mbm/mbm-ril/at_tok.c:46-53 | blanks, tabs and line ends in front of a field are skipped, all six kinds of them |
| `AtTok.OthersAreNot` | mbm/mbm-ril/at_tok.c:46-53 | no other character is skipped |
| `AtTok.QuotedAsWritten` | mbm/mbm-ril/at_tok.c:81-123 | a string between quotation marks, with or without one escaped by a backslash |
| `AtTokLine.ScanQuotedIn` | mbm/mbm-ril/at_tok.c:81-123 | the state machine finds the closing quote past escapes and puts the NUL there |
| `AtTokLine.StrSep` | mbm/mbm-ril/at_tok.c:126-126 | the token is cut at the first comma |
| `AtTokLine.NextTokIn` | mbm/mbm-ril/at_tok.c:72-131 | in place: the token is a string of its own in the line, before the new cursor, and nothing before the old cursor is touched |
| `AtTokLine.HasMoreIn` | mbm/mbm-ril/at_tok.c:228-231 | in place: whether there is text at the cursor |
| `AtTokLine.ReadAll` | mbm/mbm-ril/at_tok.c:215-231 | reading a whole line in place: a token for every field, each intact after the later ones have been cut |
| `BroadcastRanges.JoinMids` | mbm/mbm-ril/u300-ril-messaging.c:383-393 | the loop builds the string of the selected ranges, or none if nothing is selected |
| `BroadcastRanges.ReadRanges` | mbm/mbm-ril/u300-ril-messaging.c:315-352 | the loop reads the ranges that the string holds, up to ten |
| `BroadcastRanges.MidsComeBack` | mbm/mbm-ril/u300-ril-messaging.c:315-352 | for every configuration: the first ten selected ranges are read out of the string in order if there are ten or the last entry is selected, and otherwise reading fails |
| `BroadcastRanges.ExactlyIfNotNegative` | mbm/mbm-ril/u300-ril-messaging.c:333-343 | they come back as they were exactly if none of them has a negative id |
| `BroadcastRanges.RangeComesBack` | mbm/mbm-ril/at_tok.c:139-168 | reading back one printed range, negative ids included |
| `BroadcastRanges.MidsAreJoined` | mbm/mbm-ril/u300-ril-messaging.c:383-393 | the string is the selected ranges joined by commas, with a comma left at the end unless the last entry is selected |
| `BroadcastConfig.RequestGSMSetBroadcastSMSConfig` | mbm/mbm-ril/u300-ril-messaging.c:371-400 | the command that is sent has the string between quotation marks, cut off where the static buffer ends; none is sent if nothing is selected |
| `BroadcastConfig.RequestGSMGetBroadcastSMSConfig` | mbm/mbm-ril/u300-ril-messaging.c:276-352 | mode and string are taken off the report and the ranges read, or it fails |
| `BroadcastConfig.RoundTrip` | mbm/mbm-ril/u300-ril-messaging.c:371-400 | for every configuration, set and then got: the first ten selected ranges if the string has at most 499 characters and ten or the last entry are selected; otherwise a failure |
| `BroadcastConfig.ComesBackExactly` | mbm/mbm-ril/u300-ril-messaging.c:371-400 | they come back as they were exactly if, besides, none of the ten has a negative id |
| `BroadcastConfig.TwentyFit` | mbm/mbm-ril/atchannel.c:1043-1045 | up to twenty selected entries always fit |
| `BroadcastConfig.TooLong` | mbm/mbm-ril/atchannel.c:1043-1045 | forty-two entries, all selected and none negative, do not come back |
| `BroadcastConfig.CommandAsWritten` | mbm/mbm-ril/u300-ril-messaging.c:371-400 | the command spelled out, cut to 511 characters exactly if the string of ranges has more than 499 |
| `BroadcastConfig.NumbersAsRead` | mbm/mbm-ril/at_tok.c:139-168 | how a number is read: blanks and a plus sign do not matter, a minus sign does, and it is clamped to 32 bits |
| `BroadcastConfig.RangesAsWritten` | mbm/mbm-ril/u300-ril-messaging.c:383-393 | how a range is written, and that exactly the selected entries are, in order |
| `BroadcastConfig.ModeIsNeeded` | mbm/mbm-ril/u300-ril-messaging.c:298-304 | a report whose mode is no number fails |
| `StkMenu.BuildStkMenu` | mbm/mbm-ril/u300-ril-stk.c:245-305 | every write stays inside the allocation, and the text is the menu, terminated; of a length that does not fit its field the last digits are written over |
| `StkMenu.BodyLength` | mbm/mbm-ril/u300-ril-stk.c:254-258 | the length in the header is that of the body |
| `StkMenu.MenuComesBack` | mbm/mbm-ril/u300-ril-stk.c:460-478 | for every menu of whole bytes: the built text parses as one object with tag D0 up to its end, and in it the two fixed objects and each item in order, exactly if it has at most 255 bytes and no item of 129 |
| `StkMenu.ItemComesBack` | mbm/mbm-ril/u300-ril-stk.c:460-478 | an item is read back where it was written exactly if its length fits a byte that is not the mark of the two-byte form |
| `StkMenu.ItemsComeBack` | mbm/mbm-ril/u300-ril-stk.c:460-478 | a sequence of items is read back exactly if none of them has 129 bytes, however their text may happen to parse otherwise |

## Left out

- Sockets, files, the driver, sysfs, tty setup and polling: reads are arbitrary pieces of a stream or parameters, writes append to a ghost sequence.
- Weak memory, and interleavings inside `Buffer::write` and inside the pointer updates of `Fifo::write`: a method is one step.
- The ping replies that may go out between the two pieces of a wrapped `Buffer::write`: only the data stream is modelled.
- Integer widths where they are not the point: times are unbounded, ring sizes go up to 2^29 (three times the size must fit an int), and `& mask` is written as the one subtraction it amounts to there.
- The unrolled stores of `packInt` and `packInt64`: one loop stores what `Pack32` and `Pack64` list for each branch.
- What the clock and the counters of `hwmon.read` give at a turn of the counters thread, and how it sleeps between turns: arbitrary values.
- ConfMain.YyParse: parsing stops at the first syntax error, because bison's error recovery is not modelled; nor are the growing of the stacks below their limit, the flex scanner, line numbers, and the parsing of bus ids and chip names.
- Floating point: numbers in `SensorAccess` are reals, and exp, log and what the hardware reads are parameters that do not change during an evaluation.
- `sensors_set_value` and the execution of set statements: they use the same lookups and evaluator.
- AtReadLine.LinesAreThePieces: streams have no NUL, which ends a C string for the code.
- AtCommandRuns.OneCommandAtATime: the mutexes and conditions of one open channel; of other channels only their use of the static buffer. A late answer to a command that timed out may meet a later command, so nothing is claimed about which answer belongs to which text. Channel re-open is left out.
- `RIL_EVENT_QUEUE_ALL`: it copies an event together with its links into a second list, and nothing in the repository uses it.
- AtTok.TokensOfJoin: a quoted string that ends in a lone backslash makes the program read past its end; it is excluded by `CanScan`.
- BroadcastConfig.RoundTrip: the modem reports the parameters it was given, as they were; the inner tokenizing is on values, not in place; `long` has 32 bits; the strings have no quotation marks; no other thread overwrites the command in the static buffer.
- CountersLoop.CountersThread: where other threads may step, `Yield` stands for any run of theirs by its contract, while `SenderThread` and `CollectLoop` make the steps of a given one.
- AtOverflow.NothingDitchedExactlyIfLinesFit: for a stream with more newlines in a row than the buffer holds, only that nothing is ditched if every line fits.
- Messaging.BroadcastIsWholeExactly: what lies in memory behind a message is a parameter, which C leaves undefined.
- StkMenu.MenuComesBack: menus of whole bytes, whose allocation an int can count. Truncated input of the TLV parser and `getCachedStkMenu` are left out.
- Allocation failures, but for the one in `at_send_command_full_nolock`.
- The rest of the repository: string tables, error codes, the SIM file cache, input events, and foreign libraries.
