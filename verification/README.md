# A Dafny model of libsigrokdecode's decoding core

libsigrokdecode runs protocol decoders over captured logic samples. This project models its core in
Dafny and proves what the rest of the library relies on:

- **The sample scanner** (`instance.c`). A decoder waits for an OR of AND-groups of terms; the scanner
  walks the samples it is fed in chunks. Proved, for lists that are safe for the jump in every chunk
  (`AlwaysJumpSafe`) and whose skips stand alone (`AsksSimply`): a decoder sees over a whole run exactly
  what the levels of the capture and its cuts say, whichever channels are handed over as constants.
  Each match is the least later sample at which a group holds, with exactly the groups that hold there,
  counted on from a match in front of a cut as if the samples stepped over had not been captured; and
  while no wait returns in front of a cut (`OffCuts`), the cuts do not show. The jump over a chunk whose
  conditions failed on constant channels is not always right: when it is, is proved as an exact
  condition for every chunk and state. So is when a wait keeps its promise after a match at the end of
  a chunk.
- **The two threads around it.** The feeding thread and the decoder's worker, as a state machine with
  one step per critical section. Proved over all interleavings: the worker only sees samples of a
  chunk whose feeding call is still under way, chunks come back once and in order, the threads never
  sleep together, termination drains, and the matches reported are those of the sequential run, so that
  interleaving does not show. A reset releases the remembered pins: exactly which runs then read through
  the NULL pointer, and that all others do what a new instance does. What a decoder reads in the views
  of the packed fast path is each channel's samples once and in order.
- **The annotation collector** (`ann_batch.c`). Heap classes for arena blocks in linked chains, the
  recycling pool and the batch. Proved: delivered batches and pending items are the appended
  annotations, read back through the arena's memory at the time of the callback.
- **Five line decoders**, each against an encoder: CAN (frames, stuffing, resynchronised sample
  points, bounds for any bit stream, and the decode loop on top of scanner and threads), ADAT, the TPIU
  trace formatter, ETM branch compression and 4B/5B.

## Layout

| files | content |
|---|---|
| `BitStrings`, `Machines` | bit strings and the numbers they stand for; runs of a machine |
| `Scanner`, `ScannerChunks`, `ScannerSpec`, `ScannerJump`, `ScannerRun` | the scan as functions; chunk independence; the specification of a wait; the jump; the specification of a run |
| `ScannerInstance`, `WaitArguments` | the instance as a class, its critical sections; the argument list of a wait |
| `Handshake`, `HandshakeOrder`, `HandshakeReset`, `HandshakeTrace`, `PackedPath` | the threads, chunk order, resets, traces, packed samples |
| `AnnArena`, `AnnBatch` | the collector |
| `Can`, `CanFrame`, `CanRoundTrip`, `CanBound`, `CanTiming`, `CanWait`, `CanRun`, `CanDecoder` | CAN |
| `Adat*`, `Tpiu*`, `Etm*`, `FourBFiveB` | the other line decoders |

Code that updates fields in place is modelled twice: as functions on values, about which the theorems
are stated, and as classes whose methods are proved to do what these functions say.

`dafny verify dfyconfig.toml` checks everything.

## Conventions

- Sample numbers are 64-bit: where the code can wrap (`abs_cur_samplenum--`), the model wraps.
- A chunk carries the unpacked rows of its packed channels and the levels of its constant ones;
  `ScannerInstance.Unpacked` ties this to the buffers.
- A decoder is a function from the events it has seen to the conditions it asks for next. Asking for
  nothing leaves the list before in place; a list without conditions matches at once.
- Premises of the scanner theorems, as predicates: a `SKIP(0)` stands alone in its group and occurs
  once (`ZeroSkipAlone`); a `SKIP(n)` stands alone (`SkipsAlone`); no wait but the last returns on the
  sample before a cut (`OffCuts`); per chunk, some group reads no constant channel, or edges are only
  asked of constant channels, and no-edge of none of them (`JumpSafe`).
- The model's views (`Handshake.View`) have the bits of a channel from the byte of the scan position on,
  as the buffers that fetch hands out do; `ScannerInstance.SlotIs` ties the two together.
- A reset (`Join`) is the join, srd_inst_reset_state, srd_inst_start and, if the caller does so, the
  setting of initial pins. It leaves `old_pins_array` NULL (`missing`). A read through it ends the run
  (`crashed`); what the functions of the scanner say of such a scan is then of no account.
- The comment above `srd_inst_decode` promises any division into chunks; the code keeps it only when no
  match falls on a chunk's last sample, because `abs_cur_matched` then survives into the next chunk.
  `ScannerJump.PromiseKeptIff` gives the exact condition.

## Model

| member | source | states |
|---|---|---|
| ScannerChunks.ScanLoopAgrees | instance.c:1352-1416 | scanning the capture from a chunk's sample is scanning the chunk and, without a match, going on from its end in the same state |
| ScannerChunks.WaitScansWhole | instance.c:46-113 | a wait over any tiling of the capture hits exactly when one scan of the uncut capture does, with the same state |
| ScannerChunks.RunScansWhole | instance.c:46-113 | a run of any number of waits over a tiling gives the events of the run over the uncut capture |
| ScannerChunks.ChunkIndependence | instance.c:1352-1476 | for the per-sample scan, any two tilings of a capture give every decoder the same events |
| ScannerSpec.LoopFindsLeast | instance.c:1377-1416 | the loop stops at the least sample at which a group holds, its mask being all groups that hold there, and otherwise none holds to the end |
| ScannerSpec.TermsHold | instance.c:1166-1204 | the terms of a group match exactly when the levels at the sample and the one before fit: High 1, Low 0, Rising and Falling up and down, EitherEdge different, NoEdge equal |
| ScannerSpec.WaitMeetsSpec | instance.c:1293-1416 | a wait of the per-sample scan returns the least later sample at which a group holds and exactly the holding groups, holding being said of levels alone; edges compare neighbouring samples, the first one with the pins before it, SKIP(n) holds n samples after the last match |
| ScannerSpec.FirstSampleHolds | instance.c:1261-1292 | at the first sample of all a channel "same as sample 0" makes no edge, and a given initial pin is what edges are judged against |
| ScannerSpec.WaitExact | instance.c:1377-1407 | what a wait returns after a match on a chunk's last sample: as if the samples stepped over had not been captured |
| ScannerJump.FlagSurvives | instance.c:1393-1413 | the jump is taken exactly when every condition fails first on a constant channel, no skip being under way |
| ScannerJump.JumpExact | instance.c:1352-1416 | for every chunk, state and list, the code and the per-sample scan agree in match, counters and pins asked for if and only if the jump is not taken, or no condition would have matched or counted at a sample jumped over and every edge channel has the same level at the first sample and the last |
| ScannerJump.MixedExact | instance.c:1352-1416 | without a no-edge term on a constant channel, however groups mix channels and skips: they agree if and only if the jump is not taken or every edge channel has the same level at the first sample and the last |
| ScannerJump.NoEdgeExact | instance.c:1352-1416 | for lists on constant channels, no-edge terms included: they agree, and find a match alike, if and only if a group matches at once, or none holds with settled pins, or no sample is left |
| ScannerJump.LoopRefines | instance.c:1352-1416 | for lists that are safe for a chunk the loop with the jump finds the same match, counters and flags as the per-sample loop |
| ScannerJump.FindMatchRefines | instance.c:1352-1416 | so does a whole call of find_match, up to remembered pins that no group reads |
| ScannerJump.RunRefines | instance.c:1352-1416 | runs of the code and of the per-sample scan give the same events |
| ScannerJump.CodeChunkIndependence | instance.c:1352-1476 | the code's events over any two tilings, with any channels constant in any chunk, are those of the uncut per-sample run |
| ScannerJump.CodeWaitExact | instance.c:1377-1416 | the exact outcome of the code's wait after a match |
| ScannerJump.LoneSkipReturns | instance.c:1293-1304 | a lone SKIP(n) returns n samples after the last match plus the samples stepped over at cuts, and blocks when the capture is shorter |
| ScannerJump.PromiseKeptIff | instance.c:1377-1407 | the wait after a match keeps its promise for all condition lists if and only if the match was not on the last sample of a chunk that another follows |
| ScannerJump.InFrontJumps | instance.c:1318-1327 | a scan that begins in front of its chunk holds no term on a packed channel and jumps over the chunk |
| ScannerRun.CodeWaitMeetsSpec | instance.c:1293-1416 | the promise of WaitMeetsSpec for the code with its jump, the first wait included |
| ScannerRun.FirstWaitForRise | instance.c:1372-1376 | the code's first wait for a rise: none on the first sample for a pin "same as sample 0", with a given low pin exactly when the level there is 1 |
| ScannerRun.RunIsIdeal | instance.c:46-113 | from anywhere a scan may stand between two waits, the rest of the run is the one defined from the levels and the cuts alone, without counters or remembered pins |
| ScannerRun.CodeIsIdeal | instance.c:1352-1476 | the code's events over any tiling, wherever matches fall and with any channels constant in any chunk, are those defined from the levels, each origin moved by the samples lost at cuts; empty lists included |
| ScannerRun.OffCutsIdeal | instance.c:1352-1476 | while no wait that another follows returns in front of a cut, they are those defined from the levels alone |
| ScannerRun.CutsUnseen | instance.c:1377-1407 | then the runs defined with and without the cuts are the same |
| ScannerJump.NoEdgeNeedsPlainScan | instance.c:1352-1416 | waiting for no edge on a constant channel: the per-sample scan matches unless the chunk has one sample left and the remembered pin differs, the code only if the remembered pin is the level |
| ScannerJump.MixedGroupNeedsPlainScan | instance.c:1352-1416 | a constant and a rising packed channel in one group: behind a chunk jumped over, the code sees a rise exactly from the level at the first sample of that chunk, the per-sample scan from the level at its last |
| ScannerInstance.PackedBack | instance.c:1249-1258 | of levels packed eight a byte, the first in the lowest bit, each is read back from its place |
| ScannerInstance.LevelsUnpacked | instance.c:1306-1330 | the samples of a fed chunk are the levels that were packed, or the constants |
| ScannerInstance.Instance.ReadPin | instance.c:1231-1260 | the level of a channel at the current sample: the one packed at its place, the constant, or 0 out of range |
| ScannerInstance.Instance.UpdateOldPins | instance.c:1231-1260 | the remembered pins are those of the current sample |
| ScannerInstance.Instance.UpdateInitialPins | instance.c:1261-1292 | pins marked "same as sample 0" become the level at the current sample, all others stay |
| ScannerInstance.Instance.AllTermsMatch | instance.c:1335-1351 | the terms of a group in order up to the first that fails, counters and step back included; a fault exactly when a pin is read while old_pins_array is NULL |
| ScannerInstance.Instance.FindMatch | instance.c:1352-1416 | the fields after find_match are those of the scan function, which the scanner theorems are about; a fault exactly when Faults says so |
| ScannerInstance.Instance.ScanChunk | instance.c:58-111 | wait's critical section is the scan step of the two-thread model |
| ScannerInstance.Instance.AcceptChunk | instance.c:1627-1686 | for any stated length the first critical section of srd_inst_decode is the feed step of the two-thread model, with its error returns |
| ScannerInstance.Instance.Restart | instance.c:952-1137 | after a reset and start old_pins_array is NULL, match_array keeps what it held and the other fields are those of a new instance |
| ScannerInstance.Instance.SetInitialPins | instance.c:1093-1126 | all initial pins are set, in an array made if it was missing, or nothing changes when a value or their number is wrong |
| ScannerInstance.Instance.FetchPackedMulti | c_decoder_api.c:174-236 | what is handed out is the view of the two-thread model: start, count, bit offset, and for every requested channel the buffer whose bits are the view's, the constant, or 0xFF |
| ScannerInstance.HandedOut | c_decoder_api.c:216-230 | for a connected channel every bit of the buffer handed out, or the constant, is the level of its sample; any other gets no buffer and 0xFF |
| ScannerInstance.Instance.ConsumeSamples | c_decoder_api.c:238-280 | consuming is the consume step of the two-thread model, also when the unsigned count of what is left wraps |
| ScannerInstance.BitFromByte | c_decoder_api.c:206-228 | reading from a later byte with the remaining bit offset reads the same bits |
| WaitArguments.ConditionList | c_decoder_api.c:554-591 | the loop over the arguments builds the groups the arguments stand for |
| WaitArguments.ListParses | c_decoder_api.c:554-591 | what the condition macros write for any list of groups is read back as these groups, without empty ones |
| Handshake.InvHolds | instance.c:46-113 | the invariant of the shared flags and the two threads holds after every run of steps |
| Handshake.OnlyLent | instance.c:1627-1691 | without a termination request, samples are only at the worker's hand while the call that fed them is inside srd_inst_decode, and accepted chunks are the released ones and the one held |
| Handshake.NeverBothAsleep | instance.c:56-111 | the feeding thread never sleeps while the worker sleeps, has exited or does not exist |
| Handshake.EndsLowerRank | instance.c:246-259 | after a termination request or decode's return each ending action lowers the rank, one is possible until it is 0, and feeding calls return without sleeping |
| Handshake.Drains | instance.c:1554-1576 | from then on some ending actions, no more than the rank, lead to an exited worker and a returned feeding call, and no run without new calls has more of them |
| Handshake.TerminateThenJoin | instance.c:246-259 | a request to terminate can always be carried to its end: at most six of the threads' own actions, and the join returns |
| Handshake.SinceReset | instance.c:1728-1746 | a state reached after a reset is reached by the actions since the reset, from the pins then set or from missing ones |
| HandshakeReset.CrashesIff | instance.c:1293-1376 | a run since a reset reads through the NULL array if and only if no pins were set, a wait without conditions or a fetch cleared first_pos before the first scan for conditions, and that scan gets to a pin term |
| HandshakeReset.CrashesSinceReset | instance.c:952-970 | the same over all runs of a new instance with any number of resets |
| HandshakeReset.AsksPinIff | instance.c:1306-1334 | at a sample of the chunk a scan gets to a pin term if and only if some group has one with only finished skips in front |
| HandshakeReset.BareWaitThenPin | instance.c:1364-1376 | a wait without conditions, or a fetch, and then one for a channel: the run crashes after a reset without pins and does not on a new instance |
| HandshakeReset.ResetLikeNew | instance.c:1128-1137 | as long as it does not crash, a reset instance without pins does in every step what one with its array does |
| HandshakeOrder.FindMatchBound | instance.c:1352-1416 | a scan ends inside the chunk with a match or exactly at its end |
| HandshakeOrder.StepsWrap | instance.c:1346-1349 | the 64-bit steps of the sample number wrap at both ends and undo each other |
| HandshakeOrder.ReleasedInOrder | instance.c:1650-1686 | as long as matches are reported below the end of their chunk and nothing is consumed before the first wait or fetch, accepted chunks follow each other without gap, and after a release a chunk with samples is accepted if and only if it starts where that one ended |
| HandshakeOrder.EarlyConsumeLosesOrder | c_decoder_api.c:238-280 | when the first chunk is consumed before any wait or fetch, the next one is accepted wherever it starts |
| HandshakeOrder.ConsumedThenWait | c_decoder_api.c:259-273 | after samples are consumed a wait begins at the sample behind them, and the chunk goes back exactly with its last sample |
| HandshakeOrder.CalmlyInside | instance.c:1335-1351 | lists in which a SKIP(0) stands alone and occurs once never report a match outside its chunk |
| HandshakeOrder.ReleasedAtEndIff | instance.c:1377-1413 | a wait that releases its chunk leaves the scan at the chunk's end, and the next chunk is accepted, if and only if the scan did not begin behind that end |
| HandshakeOrder.ManyZeroSkipsLoseOrder | instance.c:1346-1349 | a run with three SKIP(0) in one list near sample 0: the sample number wraps and no chunk that follows on is accepted |
| HandshakeTrace.TraceIsRun | instance.c:46-113 | under any interleaving the reported events are the sequential run over the accepted chunks, and all of it once the worker waits |
| HandshakeTrace.InterleavingIndependence | instance.c:1627-1691 | two instances fed with the same capture, cut and interleaved in any two ways, report the same events |
| HandshakeTrace.ReportsAreIdeal | instance.c:1293-1691 | under any interleaving and choice of constant channels an instance that has used up its samples has reported what the levels of the capture and the cuts say |
| HandshakeTrace.UncutReports | instance.c:1293-1691 | and what the levels alone say while no wait that another follows returns in front of a cut |
| PackedPath.FetchedShows | c_decoder_api.c:196-228 | a fetched view has the samples asked for or all that are left, and its bits from the bit offset on, or its constant, are the levels of every channel asked for |
| PackedPath.Conserved | c_decoder_api.c:174-280 | what is read of a channel from the consumed parts of the fetched views are its levels once and in order: the released chunks, then the chunk at hand up to the scan position |
| PackedPath.CutsDoNotMatter | c_decoder_api.c:174-280 | two runs over the same capture, however cut, requested and interleaved, read the same |
| AnnArena.Arena.TakeBlock | ann_batch.c:95-119 | a block from the pool or a new one, empty and large enough; a pooled one that is too small is freed and replaced |
| AnnArena.Arena.MakeRoom | ann_batch.c:95-123 | the first block in flight has room, and no other block changed |
| AnnArena.Arena.Alloc | ann_batch.c:89-129 | an aligned range inside a block in flight, disjoint from all handed out since the last recycling; nothing stored is disturbed |
| AnnArena.Arena.Strdup | ann_batch.c:131-138 | the string and its terminator stand at the returned address, everything else stays |
| AnnArena.Arena.Recycle | ann_batch.c:201-226 | blocks in flight move to the pool up to 256 and the rest is freed; created = in flight + pooled + freed |
| AnnArena.TextKept | ann_batch.c:131-138 | a stored string survives whatever extends the memory |
| AnnBatch.ReadsVector | ann_batch.c:152-186 | following the pointers of a null-terminated vector yields its texts |
| AnnBatch.ReadsItems | ann_batch.c:188-199 | at the callback every item reads as the annotation it was made from |
| AnnBatch.Batch.CopyTexts | ann_batch.c:163-172 | a vector of copies of the texts, and no stored item disturbed |
| AnnBatch.Batch.AppendItem | ann_batch.c:140-150 | the item joins the pending ones; a full batch is delivered at once, so the test in front never fires |
| AnnBatch.Batch.AppendFields | ann_batch.c:152-186 | appended annotations are the delivered and pending ones in order, batches have 1 to 1024 items |
| AnnBatch.Batch.FlushState | ann_batch.c:188-227 | the batch delivered is the pending annotations as read through the memory; then nothing is pending |
| AnnBatch.Batch.Flush | ann_batch.c:257-261 | what is pending goes out as one more batch of 1 to 1024 items, and everything appended is then delivered |
| AnnBatch.Batch.Destroy | ann_batch.c:63-83 | everything appended has been delivered, the last batch of 1 to 1024 items too, and every block is freed |
| AnnBatch.Batch.AddCallback | session.c:475-507 | a callback gets everything from the pending items on |
| CanFrame.FieldsOf | c_decoders/can_c.c:314-447 | where the fields of a frame stand in its unstuffed bits |
| CanFrame.FrameStep | c_decoders/can_c.c:479-512 | at every bit of every frame the decoder has the expected fields and makes the report due there |
| CanRoundTrip.RoundTrip | c_decoders/can_c.c:449-514 | every standard or extended, data or remote frame, stuffed: identifier, type, payload, CRC and clamped length are reported in order, the frame ends on the seventh end-of-frame bit, the decoder is idle again |
| CanRoundTrip.CoveredRecovers | c_decoders/can_c.c:191-201 | the same from any bit of the stuffed part on: stuff bits are told from data bits |
| CanBound.AnyStream | c_decoders/can_c.c:449-514 | for any bit stream the frame is over within 157 raw bits, stuff bits are at least five apart, each unstuffed index comes once, no bit is lost to a full buffer |
| CanBound.StuffSpaced | c_decoders/can_c.c:191-201 | two stuff bits are at least five raw bits apart |
| CanTiming.SamplePointInCell | c_decoders/can_c.c:203-214 | the sample point of bit k lies in the cell of bit k, whichever earlier falling edge was counted from |
| CanTiming.WakesInCell | c_decoders/can_c.c:604-633 | the next wake-up is in the cell of the next bit, at its opening edge or its sample point |
| CanTiming.FrameSampled | c_decoders/can_c.c:604-633 | for every history of edges, the bits of a frame are handled one by one, in order, each once |
| CanTiming.BusDecoded | c_decoders/can_c.c:573-635 | any frames with any gaps on an ideal bus: the loop reports the fields of all of them in order and nothing else |
| CanWait.FrameWait | c_decoders/can_c.c:604-617 | the loop's wait within a frame, as the scanner answers it over any chunks, is the one the timing theorems assume |
| CanWait.IdleWait | c_decoders/can_c.c:581-585 | so is the wait in the idle state, after a match and in front of the capture |
| CanRun.WaitRelated | c_decoders/can_c.c:579-634 | whatever the loop waits for, in a frame or between frames, first or later: the match the scanner reports brings it to the same place with the same reports as the wait of the timing theorems |
| CanRun.BusRead | c_decoders/can_c.c:573-635 | from end to end: for any frames with any gaps on an ideal bus, captured and handed over in any chunks off whose cuts the waits return, the loop on top of the code's scanner reports the fields of all frames and nothing else |
| CanRun.ThreadsReadBus | instance.c:1627-1691 | the same of the two threads, under any interleaving |
| CanDecoder.Decoder.HandleBit | c_decoders/can_c.c:449-514 | buffers, counters and reports after one raw bit are those of the function the theorems are about |
| CanDecoder.Decoder.DecodeExtendedFrame | c_decoders/can_c.c:363-408 | the extended header's fields, each at its bit |
| CanDecoder.Decoder.DecodeFrameEnd | c_decoders/can_c.c:216-281 | CRC, delimiters and end of frame, with the reset after it |
| CanDecoder.Decoder.CollectBytes | c_decoders/can_c.c:295-308 | the payload bytes and an annotation for each that is complete |
| CanDecoder.Decoder.WakeUp | c_decoders/can_c.c:579-634 | the decode loop's body, edge before bit |
| Adat.SignExtendIsTwosComplement | c_decoders/adat_c.c:136-141 | the value is the one in [-2^23, 2^23) congruent to the word modulo 2^24 |
| Adat.TopOn | c_decoders/adat_c.c:252-291 | or-ing a nibble in appends it to the nibbles above, disturbing none |
| Adat.WordIsNibbles | c_decoders/adat_c.c:252-300 | a completed channel word is exactly its six nibbles |
| Adat.EdgeKeepsSane | c_decoders/adat_c.c:425-477 | for any runs the channel index stays in range, no nibble is or-ed onto another and every word has 24 bits |
| AdatRoundTrip.PadLocks | c_decoders/adat_c.c:151-186 | from any buffer of at most ten bits the next sync pad locks |
| AdatRoundTrip.BadGroup | c_decoders/adat_c.c:188-291 | a group without its leading 1: the error is reported, one bit goes, the frame is given up and the next sync pad locks |
| AdatRoundTrip.RoundTrip | c_decoders/adat_c.c:151-375 | any number of frames comes back from its NRZI runs, user nibble and eight signed words each; from an empty buffer there are never more than eleven bits in it |
| AdatDecoder.Decoder.Shift | c_decoders/adat_c.c:171-184 | the loop removes the first bits and keeps the others in order |
| AdatDecoder.Decoder.Edge | c_decoders/adat_c.c:446-473 | buffer, counters and reports after one edge are those of the function the theorems are about |
| TpiuRoundTrip.PairsBack | c_decoders/arm_tpiu_c.c:105-137 | a formatted frame yields the selected stream's bytes and the stream current at its end |
| TpiuRoundTrip.FrameTold | c_decoders/arm_tpiu_c.c:76-137 | all reports of a frame in their order: selected data bytes, and each stream that ends, by its own number |
| TpiuRoundTrip.FrameByteUnsynced | c_decoders/arm_tpiu_c.c:177-189 | no byte of formatted data without ID 0x7F completes the sync word |
| TpiuRoundTrip.RoundTrip | c_decoders/arm_tpiu_c.c:139-198 | of any frames, with immediate and delayed ID changes, their bytes at most a byte length apart, and any sync words between them, exactly the selected stream's bytes come back |
| TpiuRoundTrip.LongGap | c_decoders/arm_tpiu_c.c:155-159 | after a gap longer than a byte, or an overlap, the bytes are deformatted as from an empty frame |
| TpiuRoundTrip.SkippedInFront | c_decoders/arm_tpiu_c.c:170-174 | bytes that stay below the sync offset are only counted |
| TpiuRoundTrip.Formats | c_decoders/arm_tpiu_c.c:105-137 | every sequence of bytes of any streams other than 0 and 0x7F has frames that mean it, followed at most by filler on stream 0 |
| TpiuRoundTrip.TraceBack | c_decoders/arm_tpiu_c.c:139-198 | formatting any such trace and deformatting it yields the selected stream |
| TpiuDecoder.Decoder.ProcessPair | c_decoders/arm_tpiu_c.c:110-136 | two frame positions: data, immediate and delayed stream changes in their order |
| TpiuDecoder.Decoder.Recv | c_decoders/arm_tpiu_c.c:139-198 | the buffers and reports after one byte are those of the function the theorems are about |
| EtmRoundTrip.AddressBack | c_decoders/arm_etmv3_c.c:283-334 | the bits sent and the bits kept make up the target address, for each packet length and state, when the addresses agree above the bits sent |
| EtmRoundTrip.PacketBack | c_decoders/arm_etmv3_c.c:283-334 | a branch packet with enough bytes yields its target and state |
| EtmRoundTrip.StaysQuiet | c_decoders/arm_etmv3_c.c:610-628 | no byte of a branch packet completes the synchronisation pattern |
| EtmRoundTrip.RoundTrip | c_decoders/arm_etmv3_c.c:581-632 | any sequence of ARM, Thumb and Jazelle targets, each sent in five bytes or in fewer when only equal high bits are left out, with or without announced exceptions, is reproduced exactly |
| EtmRoundTrip.LongGap | c_decoders/arm_etmv3_c.c:597-600 | after a gap longer than sixteen bytes, or an overlap, the bytes are decoded as from an empty buffer |
| EtmRoundTrip.SyncAnywhere | c_decoders/arm_etmv3_c.c:611-629 | the synchronisation pattern is seen in the middle of any packet, whatever the gaps, and the next byte starts a new one |
| EtmRoundTrip.SyncBack | c_decoders/arm_etmv3_c.c:213-273 | a synchronisation packet, with or without a cycle count, sets the address and state that the next branch is sent against |
| EtmRoundTrip.SyncIncomplete | c_decoders/arm_etmv3_c.c:218-243 | and nothing happens before its last byte is there |
| EtmRoundTrip.OthersEndAtOnce | c_decoders/arm_etmv3_c.c:372-580 | whatever is no branch and no synchronisation packet is over with its first byte and leaves address and state alone |
| EtmDecoder.Decoder.ParseVarint | c_decoders/arm_etmv3_c.c:127-141 | the value and length of the number that starts at a byte |
| EtmDecoder.Decoder.Recv | c_decoders/arm_etmv3_c.c:581-632 | the buffers, last address, state and reports after one byte are those of the function the theorems are about |
| FourBFiveB.CodeGroupBack | c_decoders/4b5b_c.c:37-58 | every nibble has a data symbol of its own that is no control code |
| FourBFiveB.SymbolsBack | c_decoders/4b5b_c.c:137-256 | after J and K every symbol is reported in place, control codes among data |
| FourBFiveB.ControlCode | c_decoders/4b5b_c.c:46-69 | the nine named five-bit codes are control codes, J and K among them |
| FourBFiveB.OtherIgnored | c_decoders/4b5b_c.c:179-205 | the seven codes that are neither named nor data leave no trace |
| FourBFiveB.BytesBackIff | c_decoders/4b5b_c.c:137-256 | from anywhere between two symbols J, K and any bytes, low nibble first, yield exactly these bytes if and only if no nibble was left over or all nibbles equal it |
| FourBFiveB.BytesBack | c_decoders/4b5b_c.c:137-256 | after J and K any byte sequence, low nibble first, yields exactly these bytes |
| FourBFiveB.NothingPending | c_decoders/4b5b_c.c:202-240 | no nibble is kept before both J and K were seen |
| FourBFiveB.OffsetSkipped | c_decoders/4b5b_c.c:155-159 | the first bit_offset bits are skipped, whatever they are |
| FourBFiveB.NoDataBeforeJK | c_decoders/4b5b_c.c:179-205 | for any bits, no data is reported before both a J and a K |
| FourBFiveB.Decoder.RecvBit | c_decoders/4b5b_c.c:137-256 | the fields and reports after one bit are those of the function the theorems are about |

## Left out

- The Python bridge, option handling, plug-in loading, sessions and logging: calls into other libraries.
- The `read_sample` callback path and channels that are not connected (except in FetchPackedMulti): their
  values come from code that is not part of this model.
- A condition list has at most 31 groups, because the code forms its mask with `1 << j` on an `int`; the
  mask is modelled as a set of group numbers.
- The checks of srd_inst_decode for NULL arguments; and pins reported beyond a stated buffer length that
  is less than end - start, which c_decoder_wait_impl reports as 0.
- A chunk without samples, fed with a length that is not 0, is not part of the runs of HandshakeTrace and
  PackedPath; HandshakeOrder.ReleasedAtEndIff says what becomes of one.
- Sample buffers of a chunk are values: that the caller does not change them during the call is assumed.
- Clearing the mutex and the conditions after a join, and joining from a thread that is itself inside
  srd_inst_decode.
- PackedPath.Conserved: a decoder that consumes more than what is left of the view it fetched, or after
  a wait; it then skips samples it was never shown.
- HandshakeTrace.TraceIsRun: a decoder that both waits and consumes; its chunks are covered by
  HandshakeOrder, its matches are not.
- Handshake.Drains: does not say that a decoder returns from decode() after a termination error, which is
  up to the decoder; it says that nothing else is in its way.
- `size_t` overflow in the arena's size computation, and the use of one collector by several threads, which
  the code does not protect.
- Arena memory is modelled per byte, with a pointer kept in the first of its eight bytes; the block's data
  is a field of the block because it is part of the same allocation.
- Annotation texts, labels and positions of the line decoders, the choice between annotation modes, and
  the warnings CAN gives beside its fields.
- CAN timing uses exact arithmetic on an ideal waveform; rounding of `double` and glitches are not modelled.
- The CAN decoder without a known bit width, which never reads a bit.
- ADAT run lengths are integers; the rounding of edge distances to bit counts is not modelled.
- ETM: alternative branch encoding, the bytes of exception information behind an address, the program
  counter, the value of a cycle count and the texts of packets that are only displayed; a number of more
  than five bytes, which the code shifts out of 32 bits.
- TPIU: time gaps inside a frame in the round trip; they make the decoder start a new frame.
