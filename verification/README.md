# Bally robot firmware: a Dafny model of its stateful cores

This project models the parts of the robot firmware that keep state across tasks, and proves what they
promise over every run:

| files | models |
|---|---|
| LogRing, LogFile, Logger | the log: a byte ring of records with a radio cursor and an SD cursor |
| Telemetry | the telemetry queue between two tasks, its mailbox and its fan-out |
| Sha256, Sha256Bits, Sha256Constants, Sha256Vector, KeyStore | streaming SHA-256 and HMAC, against the standard, and the key file |
| SettingsText, SettingsFile, SettingsTable, RobotSettings | the settings, their file and its parser |
| JobScheduler | timed and state-triggered commands |
| TxQueues, TxScheduler | the radio's priority queues with one frame outstanding |
| SendQueue, TcpServer, UsbServer, BleServer | three byte streams drained by partial writes |
| Terminals, TerminalResponder | remote terminals sharing a pool of slots |
| HBridge | the motor bridge |
| OTAUpdater | joining a network and accepting firmware |
| Common | octets, options, concatenation, little-endian numbers, ring positions |

Tasks are modelled as atomic steps at the places where the code takes and gives its locks. A method that
works unlocked takes a script of what the other tasks do meanwhile, and its contract holds for every
script. What drivers and callbacks answer are parameters too. Ghost histories (records sent, frames
admitted, outputs shown) state what the code itself does not store.

Where a promise does not hold of the code, a concrete run is given, the exact condition is proved at the
step that decides, and the promise over all runs that meet it:
an SD flush that releases a half-sent record (Logger.Logger.Run, Logger.HalfSentFlushBreaksRadio), a
callback that comes after its frame was settled (TxScheduler.TxScheduler.AttributionRun), a client accepted
in the middle of a close (TcpServer.TcpServer.CloseEnd, TcpServer.OvertakenCloseLeaks), a send or drain
outside its session (UsbServer.UsbServer.Announce, UsbServer.UsbServer.AdmitLocked, UsbServer.StraySendLeaks),
a link event that finds a sender with the latch or a chunk (BleServer.BleServer.EmptyQueue,
BleServer.BleServer.ClearLatch, BleServer.OvertakenLatchReorders), a poll in state 0xFF
(JobScheduler.EveryEntrySeen), strings with line ends and very long floats in the settings
(SettingsFile.SaveThenRead, RobotSettings.SaveAndReboot), a repeated motor command after a failed write
(HBridge.HBridge.ApplyPWM), an empty terminal line behind a command in flight (Terminals.AllCounted), a
link that changes hands while a terminal's output is on its way (Terminals.HomeUnlessRebound), and calls of
the firmware updater that overlap (OTAUpdater.OTAUpdater.Run, OTAUpdater.TickInCancel).

## Model

| member | source | states |
|---|---|---|
| LogRing.HeaderRoundTrip | lib/Logger/Logger.h:173-181 | a stored header is 16 octets and reading them gives the header back |
| LogRing.DecodeEncodeAll | lib/Logger/Logger.cpp:255-264 | the octets of any list of records decode, header by header, to exactly that list |
| LogRing.OverwriteExtends | lib/Logger/Logger.cpp:231-242 | copying behind the used octets of the ring, wrapping or not, appends to what reading from the read cursor yields |
| LogRing.LayoutDecodes | lib/Logger/Logger.cpp:194-264 | at every moment the ring octets from the read cursor decode to exactly the retained records |
| LogRing.LayoutInsert | lib/Logger/Logger.cpp:194-229 | a stored record becomes the newest one; the write cursor is the read cursor plus the used octets modulo the capacity |
| LogRing.LayoutSend | lib/Logger/Logger.cpp:390-398 | passing a whole record moves the send cursor to the next record boundary, across wrap-around |
| LogRing.LayoutRelease | lib/Logger/Logger.cpp:485-496 | releasing the oldest record keeps both cursors on record boundaries and pending_send_bytes at most used_bytes |
| LogRing.HeaderAtCursor | lib/Logger/Logger.cpp:255-264 | at a record boundary the header check succeeds and yields that record's header |
| LogFile.FragmentsOfRecord | lib/Logger/Logger.cpp:440-477 | a record is cut into at most 255 fragments of 210 octets, the last one perhaps shorter, whose payloads are the record |
| LogFile.ReassembleFramesOf | lib/Logger/Logger.cpp:440-477 | reassembling the frames written for any records gives back exactly those records |
| LogFile.DistinctChunksPairwise | lib/Logger/Logger.cpp:364-388 | no two accepted radio chunks share a sequence number |
| LogFile.DeliveredChunk | lib/Logger/Logger.cpp:334-398 | an accepted chunk extends the radio stream by exactly the next octets of the record at the cursor |
| LogFile.DeliveredInsert | lib/Logger/Logger.cpp:194-229 | records inserted meanwhile change nothing of what the radio has delivered |
| LogFile.DeliveredAfterFlush | lib/Logger/Logger.cpp:485-496 | after an SD flush the radio cursor is sound if and only if the flush did not get past a half-sent record |
| LogFile.FileComplete | lib/Logger/Logger.cpp:406-502 | a file holding the complete fragment sets of the released records reads back as those records |
| Logger.Logger.StoreRecord | lib/Logger/Logger.cpp:213-228 | a record that fits is stored behind all others and touches none of them |
| Logger.Logger.InsertLog | lib/Logger/Logger.cpp:194-229 | with an endpoint, a number below 2^32 and room for 16 octets and the data, the record joins the retained ones under that number, whole up to 53550 octets and cut there; in all other cases they stay as they are; the radio side stays sound |
| Logger.Logger.ReadFromRing | lib/Logger/Logger.cpp:244-253 | reads exactly the ring slice that starts at the offset, in one or two copies |
| Logger.Logger.BeginConsumer | lib/Logger/Logger.cpp:278-298 | at most one consumer at a time |
| Logger.Logger.ChunkNumber | lib/Logger/Logger.cpp:340-370 | the first chunk of a record keeps the number stored with it, later ones take the number granted now; none was used before |
| Logger.Logger.CommitChunk | lib/Logger/Logger.cpp:376-398 | an accepted chunk advances the half-sent record by its size, and past the record when it was the last |
| Logger.Logger.FlushLogs | lib/Logger/Logger.cpp:307-404 | over any refusals and concurrent inserts the accepted chunks carry the records' octets once each and in order; the flush ends before the packet limit only for want of the lock, the radio, the endpoint, a record or a number |
| Logger.Logger.WriteFragments | lib/Logger/Logger.cpp:440-477 | hands the callback the fragments of a record in order and stops at the first refusal |
| Logger.Logger.FlushRecord | lib/Logger/Logger.cpp:420-496 | writes the oldest record and releases it, or leaves it when a write fails |
| Logger.Logger.FlushLogsTo | lib/Logger/Logger.cpp:406-502 | on success the callback has received complete sets for exactly the records present at the start, inserted ones stay; on failure exactly a written prefix was released |
| Logger.Logger.SaveToCard | lib/Logger/Logger.cpp:406-502 | a successful SD flush wrote a file that reads back as the records it found; it leaves the radio side sound if and only if it released no half-sent record |
| Logger.Logger.Run | lib/Logger/Logger.cpp:194-502 | over any inserts, radio flushes and SD flushes, up to the first fault: every record kept is retained or was released by the card side, oldest first, and the radio side stays sound if and only if no SD flush got past a half-sent record |
| Logger.HalfSentFlushBreaksRadio | lib/Logger/Logger.cpp:307-502 | the fault and its damage: after a half-sent record was released, the next radio chunk carries an octet of the next record under the old time and type, and that record is passed over unsent; if it is shorter, pending_send_bytes wraps around |
| Sha256.PaddingIsMinimal | lib/KeyStore/KeyStore.cpp:195-210 | the zero-padding loop stops at the first place that leaves room for the length, from every fill level (section 5.1.1 of FIPS 180-4) |
| Sha256.PadFillsBlocks | lib/KeyStore/KeyStore.cpp:195-219 | the padded message is a whole number of 64-octet blocks |
| Sha256.LengthFieldHoldsLength | lib/KeyStore/KeyStore.cpp:195-216 | the last eight octets of the padding, most significant first, are the length in bits modulo 2^64 |
| Sha256.NthIsIndex | lib/KeyStore/KeyStore.cpp:95-115 | the round constants are looked up at the index the code uses |
| Sha256.ExpandBlock | lib/KeyStore/KeyStore.cpp:130-146 | the message schedule of section 6.2.2 of FIPS 180-4, whose words the code adds in the reverse order |
| Sha256.RunRounds | lib/KeyStore/KeyStore.cpp:148-172 | the 64 rounds of section 6.2.2 of FIPS 180-4; what goes into them is pinned by the Sha256Bits, Sha256Constants and Sha256Vector rows |
| Sha256.Sha256.Update | lib/KeyStore/KeyStore.cpp:183-193 | feeding a piece appends it to the message hashed so far, whatever is pending |
| Sha256.Sha256.Finish | lib/KeyStore/KeyStore.cpp:195-219 | yields the digest of the padded whole message |
| Sha256.HashPieces | lib/KeyStore/KeyStore.cpp:183-219 | for every message and every way of splitting it the streaming code computes the one-shot digest, which for "abc" is the published one (Sha256Vector.DigestOfAbc) |
| Sha256.HashTwo | lib/KeyStore/KeyStore.cpp:221-256 | the two-piece hashing inside hmac_sha256 |
| Sha256.HmacSha256 | lib/KeyStore/KeyStore.cpp:221-256 | HMAC of section 2 of RFC 2104 for keys of every length |
| Sha256.HmacIsNested | lib/KeyStore/KeyStore.cpp:221-256 | the keyed construction octet by octet: the digest of the outer pad, 0x5C, and the digest of the inner pad, 0x36, and the text, over the key or, beyond 64 octets, its digest, filled up with zeros |
| Sha256Constants.RoundConstantIsCubeRoot | lib/KeyStore/KeyStore.cpp:98-115 | each round constant is the first 32 bits of the fractional part of the cube root of its prime (section 4.2.2 of FIPS 180-4) |
| Sha256Constants.InitialHashIsSquareRoot | lib/KeyStore/KeyStore.cpp:121-128 | each initial hash word is that of the square root of its prime (section 5.3.3) |
| Sha256Constants.PrimeExists | lib/KeyStore/KeyStore.cpp:98-115 | there are 64 such primes, each the one with as many primes before it |
| Sha256Bits.ChSelects | lib/KeyStore/KeyStore.cpp:155 | choose takes the second word where the first is set and the third where it is not |
| Sha256Bits.MajIsMajority | lib/KeyStore/KeyStore.cpp:160 | majority is set exactly where at least two of the words are |
| Sha256Bits.BigSigma0Bits | lib/KeyStore/KeyStore.cpp:158-159 | which three bits each bit of the function is the sum of, positions counted modulo 32 |
| Sha256Bits.BigSigma1Bits | lib/KeyStore/KeyStore.cpp:153-154 | the same of the other round function |
| Sha256Bits.SmallSigma0Bits | lib/KeyStore/KeyStore.cpp:139-141 | the same of the first schedule function, whose shift lets no bit come round |
| Sha256Bits.SmallSigma1Bits | lib/KeyStore/KeyStore.cpp:142-144 | the same of the second |
| Sha256Vector.PadAbc | lib/KeyStore/KeyStore.cpp:195-219 | the one padded block of "abc": 0x80 behind it, zeros, and 24, the length in bits, in the last octet |
| Sha256Vector.OctetsAt | lib/KeyStore/KeyStore.cpp:212-219 | each word of the hash value stands in the digest at its place |
| Sha256Vector.DigestOfAbc | lib/KeyStore/KeyStore.cpp:95-219 | the digest of "abc" is the one published with the standard |
| KeyStore.ReadWriteLE | lib/KeyStore/KeyStore.cpp:41-49 | a 32-bit number survives being written and read |
| KeyStore.EqualBytes | lib/KeyStore/KeyStore.cpp:51-60 | true exactly when all octets to be compared are equal |
| KeyStore.CheckHeader | lib/KeyStore/KeyStore.cpp:274-306 | names the outermost wrong field of a key file |
| KeyStore.Parse | lib/KeyStore/KeyStore.cpp:274-321 | accepts exactly the files all of whose fields are right, and otherwise names the first wrong one |
| KeyStore.ParseInvertsImage | lib/KeyStore/KeyStore.cpp:274-321 | the accepted files are exactly those written for correctly tagged contents, which reading gives back |
| KeyStore.ParseInWords | lib/KeyStore/KeyStore.cpp:274-321 | at which octets each field is looked for, in which order, what makes it wrong, and what an accepted file is read as |
| KeyStore.KeyStore.Load | lib/KeyStore/KeyStore.cpp:339-364 | a failed load forgets earlier keys; a successful one holds exactly the file's |
| KeyStore.KeyStore.LoadFromCard | lib/KeyStore/KeyStore.cpp:384-411 | the same for a card image; an oversized file fails on its size |
| Telemetry.DistanceSurvivesWrap | lib/TelemetryPublisher/TelemetryPublisher.cpp:566-572 | the 32-bit difference of the free-running indices is the number of waiting samples across wrap-around |
| Telemetry.SlotSurvivesWrap | lib/TelemetryPublisher/TelemetryPublisher.cpp:580-591 | 16 divides 2^32, so wrapped indices select the same slots |
| Telemetry.SlotsApart | lib/TelemetryPublisher/TelemetryPublisher.cpp:580-591 | the slot being written is never one that still waits to be read |
| Telemetry.FilterAppend | lib/TelemetryPublisher/TelemetryPublisher.cpp:212-231 | what a target wants of two stretches is what it wants of both together |
| Telemetry.FilterServes | lib/TelemetryPublisher/TelemetryPublisher.cpp:395-401 | what a target wants of a stretch are the samples at strictly increasing positions, exactly those with an endpoint and a positive count, or no table |
| Telemetry.FlushesAddUp | lib/TelemetryPublisher/TelemetryPublisher.cpp:328-426 | successive flushes offer a fixed target what one flush over all their samples would |
| Telemetry.Publisher.BeginEnqueue | lib/TelemetryPublisher/TelemetryPublisher.cpp:551-578 | a sample is refused exactly when 16 wait, it is invalid, or no number is granted; each refusal is counted |
| Telemetry.Publisher.PublishSample | lib/TelemetryPublisher/TelemetryPublisher.cpp:580-597 | the release store appends the sample to the queue |
| Telemetry.Publisher.BeginStage | lib/TelemetryPublisher/TelemetryPublisher.cpp:279-326 | the one-slot document mailbox is taken only when it is free and the document fits and is numbered; each refusal is counted, as full or as invalid |
| Telemetry.Publisher.Producers | lib/TelemetryPublisher/TelemetryPublisher.cpp:551-597 | any number of producer steps only append to the queue |
| Telemetry.Publisher.OfferToAll | lib/TelemetryPublisher/TelemetryPublisher.cpp:360-379 | each link is offered the current sample exactly if its own table asks for it, whatever the others answer |
| Telemetry.Publisher.FlushOne | lib/TelemetryPublisher/TelemetryPublisher.cpp:381-424 | one pass takes the oldest sample after all links had their offer, with producers at work in between |
| Telemetry.Publisher.FlushQueue | lib/TelemetryPublisher/TelemetryPublisher.cpp:381-424 | moves samples in queue order, each once, up to the budget or until the queue is empty |
| Telemetry.Publisher.Flush | lib/TelemetryPublisher/TelemetryPublisher.cpp:328-426 | of the documents and samples that left, a link is offered, in order and once each, exactly those whose topic has a subscriber in its table; all if it has an endpoint and no table or subscribers for every topic, none if it has no endpoint or no subscribers; every offer is counted as sent or failed |
| Telemetry.Publisher.Run | lib/TelemetryPublisher/TelemetryPublisher.cpp:279-597 | over any producer steps and flushes the queued samples leave in order, each once and none skipped, and each link is offered exactly those of them, and of the documents, that have a subscriber in its table, as in one flush; every offer is counted |
| JobScheduler.IsJobCommand | lib/JobScheduler/JobScheduler.cpp:11-30 | true exactly when the first word after blanks is "job" in either case |
| JobScheduler.NoBurst | lib/JobScheduler/JobScheduler.cpp:206-248 | an unlimited interval job never fires more than (t-a)/d times, and all but one occurrence per resync are counted |
| JobScheduler.RunOnSchedule | lib/JobScheduler/JobScheduler.cpp:206-233 | the schedule stands a whole number of intervals from its anchor, up to the resyncs |
| JobScheduler.FiredCountsFirings | lib/JobScheduler/JobScheduler.cpp:235-242 | the job's own counter is the number of polls it fired at |
| JobScheduler.RepeatsExactly | lib/JobScheduler/JobScheduler.cpp:80-120 | fired plus remaining is n until the slot is freed at exactly the n-th occurrence; once for a Once job |
| JobScheduler.RunKeepsTimetable | lib/JobScheduler/JobScheduler.cpp:206-248 | for all polls and every timed job, counted or not: it fires at a poll exactly if its time has come and its count is not used up; the time is set one interval on at the first poll and at each firing, from the poll itself if that is a whole interval late; the slot is freed with the last firing |
| JobScheduler.OnceFiresOnTime | lib/JobScheduler/JobScheduler.cpp:206-248 | a one-shot job of delay d first polled at a fires at the first later poll at a + d or after and at no other, and has its slot exactly up to it |
| JobScheduler.FiresOnEntry | lib/JobScheduler/JobScheduler.cpp:122-135 | for all polls: a state job fires at exactly those that find the robot in its state when the poll before found it neither there nor in state 0xFF; before the first poll the state counts as 0xFF |
| JobScheduler.EveryEntrySeen | lib/JobScheduler/JobScheduler.cpp:190-207 | a state job fires at every entry into its state if and only if no entry follows a poll in state 0xFF, and it never fires otherwise |
| JobScheduler.EntryFromFFUnseen | lib/JobScheduler/JobScheduler.cpp:190-207 | such an entry does go unseen |
| JobScheduler.HalfBookedFiresEarly | lib/JobScheduler/JobScheduler.cpp:60-101 | a poll between allocate and the store of the interval anchors the job to now: it fires at the very next poll, however soon, unless the clock stood at zero |
| JobScheduler.HalfBookedDividesByZero | lib/JobScheduler/JobScheduler.cpp:206-233 | a second poll there divides by zero, exactly unless the clock stood at zero |
| JobScheduler.SchedulingKeepsActive | lib/JobScheduler/JobScheduler.cpp:37-135 | no schedule call touches an active job |
| JobScheduler.JobScheduler.Allocate | lib/JobScheduler/JobScheduler.cpp:37-78 | refuses for the first applicable cause and counts it, or claims the first free slot under the next identifier; it grants exactly when configured, with a command of 1 to 96 characters that does not itself schedule, and one of 8 slots free |
| JobScheduler.JobScheduler.ScheduleInterval | lib/JobScheduler/JobScheduler.cpp:80-101 | books an interval job or answers why not |
| JobScheduler.JobScheduler.ScheduleOnce | lib/JobScheduler/JobScheduler.cpp:103-120 | books a one-shot job or answers why not |
| JobScheduler.JobScheduler.ScheduleOnState | lib/JobScheduler/JobScheduler.cpp:122-135 | books a state job or answers why not |
| JobScheduler.JobScheduler.Cancel | lib/JobScheduler/JobScheduler.cpp:137-145 | frees the first active job with the identifier and nothing else |
| JobScheduler.JobScheduler.CancelAllJobs | lib/JobScheduler/JobScheduler.cpp:147-156 | frees every job and says how many were active |
| JobScheduler.JobScheduler.PollOnce | lib/JobScheduler/JobScheduler.cpp:186-251 | every slot goes through its own step; commands are offered in slot order; the counters add up |
| JobScheduler.JobScheduler.PerformAll | lib/JobScheduler/JobScheduler.cpp:37-251 | over any mix of calls a job that is not cancelled goes through exactly its own run of polls, and its command is handed to the executor once for each firing of it, even after its slot serves another job |
| TxQueues.Classify | lib/TxScheduler/TxScheduler.cpp:28-48 | which frames have which priority, for all six classes |
| TxQueues.PushAppends | lib/TxScheduler/TxScheduler.cpp:82-86 | a push adds at the far end and overwrites no queued frame, across wrap-around |
| TxQueues.PopTakesOldest | lib/TxScheduler/TxScheduler.cpp:104-106 | a pop takes the oldest frame |
| TxQueues.TakenAfterGrowth | lib/TxScheduler/TxScheduler.cpp:131-144 | frames added while the scan goes on do not change which frame of its class is taken |
| TxQueues.StockSend | lib/TxScheduler/TxScheduler.cpp:95-109 | per class the admitted frames are the taken ones followed by the waiting ones |
| TxQueues.EveryFateCounted | lib/TxScheduler/TxScheduler.cpp:111-157 | each taken frame has exactly one outcome |
| TxQueues.PassKeepsTrack | lib/TxScheduler/TxScheduler.cpp:111-157 | a pass keeps the waiting command results next in line and on time |
| TxQueues.OnTrackIsPunctual | lib/TxScheduler/TxScheduler.cpp:111-157 | a command result behind k others is the (k+1)-th frame taken, within (k+1) times the timeout plus the largest gap |
| TxScheduler.TxScheduler.Enqueue | lib/TxScheduler/TxScheduler.cpp:50-93 | a frame is admitted exactly when it has 40 to 250 octets, decodes, and finds its lock free and its queue below 8 or 16; it joins the end of its class |
| TxScheduler.TxScheduler.OnDelivery | lib/TxScheduler/TxScheduler.cpp:181-184 | a callback leaves its event only while a frame is outstanding, and may mislead the pump exactly if that is out and not its own |
| TxScheduler.TxScheduler.Resolve | lib/TxScheduler/TxScheduler.cpp:111-129 | the outstanding frame is settled by its event or its age, once, or the pass goes on waiting; the books keep whose callback the event came from |
| TxScheduler.TxScheduler.Take | lib/TxScheduler/TxScheduler.cpp:131-144 | takes the oldest frame of the first class found waiting, by strict precedence |
| TxScheduler.TxScheduler.Launch | lib/TxScheduler/TxScheduler.cpp:146-156 | the frame in hand becomes the only outstanding one, unless the radio refuses it |
| TxScheduler.TxScheduler.Pump | lib/TxScheduler/TxScheduler.cpp:111-157 | a whole pass under interleaved producers, callbacks and telemetry: an outstanding frame is settled as delivered on event 1, failed on event 2, timed out with neither and at the timeout, and otherwise the pass waits and changes nothing of it |
| TxScheduler.TxScheduler.TimeoutRun | lib/TxScheduler/TxScheduler.cpp:111-157 | over any calls every frame settled as timed out had been out for at least the timeout |
| TxScheduler.TxScheduler.Ledger | lib/TxScheduler/TxScheduler.cpp:50-184 | accepted = delivered + failed + timeouts + refusals + telemetry sent and dropped + queued + outstanding; dropped = rejections + failed + timeouts + refusals |
| TxScheduler.TxScheduler.PumpTelemetry | lib/TxScheduler/TxScheduler.cpp:159-179 | with producers at work telemetry leaves in the order it was admitted, at most one frame is lost, and unless one is or the queue is found locked nothing is left |
| TxScheduler.TxScheduler.LateCallback | lib/TxScheduler/TxScheduler.cpp:111-184 | a callback that comes after a frame has timed out and its successor was launched is booked for the successor, whosever it is: the outcomes stay the frames' own exactly if it is the successor's |
| TxScheduler.TxScheduler.AttributionRun | lib/TxScheduler/TxScheduler.cpp:111-184 | over any calls all outcomes booked are the frames' own if and only if the pump never found an event stored by another frame's callback; so they are if every callback is stored while its own frame is out |
| TxScheduler.TxScheduler.PumpRun | lib/TxScheduler/TxScheduler.cpp:111-157 | over any calls at bounded gaps the waiting command results are the next frames taken, in order and in time |
| SendQueue.RestsAppend | lib/TcpBtpServer/TcpBtpServer.cpp:123-130 | an admitted frame extends the queued octets by exactly its own |
| SendQueue.RestsPartial | lib/TcpBtpServer/TcpBtpServer.cpp:305-314 | a partial write removes exactly the written octets from the front |
| SendQueue.SendQueue.Admit | lib/BtpTransport/TcpSendAdmission.h:62-80 | a frame is queued whole exactly when 16 frames do not wait yet, 12 for telemetry, and there is memory for a copy |
| SendQueue.SendQueue.Advance | lib/TcpBtpServer/TcpBtpServer.cpp:305-320 | written octets leave the front; a finished frame leaves the ring |
| TcpServer.TcpServer.Accept | lib/TcpBtpServer/TcpBtpServer.cpp:215-243 | a new client begins with a whole stream exactly when nothing is queued, as is so unless a close is half done |
| TcpServer.TcpServer.Send | lib/TcpBtpServer/TcpBtpServer.cpp:110-136 | a frame is admitted whole or not at all |
| TcpServer.TcpServer.Write | lib/TcpBtpServer/TcpBtpServer.cpp:298-336 | the socket receives the queue's octets in order, stopping at a partial write, a shortage or an error |
| TcpServer.ExchangeStops | lib/TcpBtpServer/TcpBtpServer.cpp:298-336 | how much the socket takes, over all answers: the frames in front of the first not taken whole, what is taken of that one, and nothing behind; it breaks exactly on an error or on nothing taken there |
| TcpServer.TcpServer.DrainLocked | lib/TcpBtpServer/TcpBtpServer.cpp:292-337 | one locked pass writes exactly what the socket takes from the front of the queue, and says whether it broke |
| TcpServer.TcpServer.CloseEnd | lib/TcpBtpServer/TcpBtpServer.cpp:344-370 | the second half of a close empties the queue; the stream of a client accepted in between, if it was whole, stays so exactly when nothing is queued |
| TcpServer.TcpServer.Run | lib/TcpBtpServer/TcpBtpServer.cpp:110-370 | over all interleavings of accepts, sends, drains and halves of closes the bookkeeping says exactly whether the current client has a whole stream; if no accept finds a close half done every client has one, and without a client nothing is queued |
| TcpServer.OvertakenCloseLeaks | lib/TcpBtpServer/TcpBtpServer.cpp:354-370 | a client accepted between the halves of a close from another task receives its predecessor's queue |
| UsbServer.UsbServer.HandleLineState | lib/UsbSerialBtpServer/UsbSerialBtpServer.cpp:71-81 | raising DTR begins a new session with an empty queue; its FIFO is empty after a session, and its stream is whole exactly when the FIFO is empty |
| UsbServer.UsbServer.Announce | lib/UsbSerialBtpServer/UsbSerialBtpServer.cpp:97-101 | the second half of open_session: the stream of the session is whole exactly when nothing got into queue or FIFO since they were emptied |
| UsbServer.UsbServer.AdmitLocked | lib/UsbSerialBtpServer/UsbSerialBtpServer.cpp:112-136 | the locked half of a send, in any phase, queues a frame whole or not at all; one of an earlier session spoils the stream of this one |
| UsbServer.UsbServer.DrainLocked | lib/UsbSerialBtpServer/UsbSerialBtpServer.cpp:141-170 | the FIFO receives the queue's octets in order until it is full |
| UsbServer.AbsorbedStops | lib/UsbSerialBtpServer/UsbSerialBtpServer.cpp:141-170 | how much the FIFO takes: the frames in front of the first that does not fit, and what fits of that one |
| UsbServer.UsbServer.Send | lib/UsbSerialBtpServer/UsbSerialBtpServer.cpp:112-139 | a frame is admitted exactly when connected, ready, admissible and copied |
| UsbServer.UsbServer.Run | lib/UsbSerialBtpServer/UsbSerialBtpServer.cpp:71-181 | over all interleavings of the steps of sessions and the locked halves of sends and drains a session has a whole stream exactly if it began so and no send of an earlier one was admitted in it; if sends reach the mutex only in the session they saw, and drains only in a session, every stream is whole and nothing is left between sessions |
| UsbServer.StraySendLeaks | lib/UsbSerialBtpServer/UsbSerialBtpServer.cpp:97-139 | a send that saw the old session and reaches the mutex while the next one opens is what the new host receives first |
| UsbServer.StrayDrainLeaks | lib/UsbSerialBtpServer/UsbSerialBtpServer.cpp:103-170 | a send and a drain that reach the mutex between two sessions leave octets in the FIFO for the next host |
| UsbServer.LateSendLeaks | lib/UsbSerialBtpServer/UsbSerialBtpServer.cpp:112-139 | a send that saw the old session and reaches the mutex in the next one gives the new host its frame |
| BleServer.ChunkCapacity | lib/BleBtpServer/BleBtpServer.cpp:493-500 | a notification carries three octets less than the MTU, 20 if that is too small and 512 at most |
| BleServer.BleServer.Fill | lib/BleBtpServer/BleBtpServer.cpp:508-524 | a notification is exactly the first min(capacity, total) queued octets |
| BleServer.BleServer.SetLatch | lib/BleBtpServer/BleBtpServer.cpp:477-485 | a drain goes on exactly if there is a client and the latch is not set, which it sets |
| BleServer.BleServer.TakeChunkLocked | lib/BleBtpServer/BleBtpServer.cpp:487-524 | the mutex section of a drain takes one notification out of the queue for the sender that holds the latch, if anything is queued |
| BleServer.BleServer.SendChunkOut | lib/BleBtpServer/BleBtpServer.cpp:526-541 | the second half moves it to the client or loses exactly it |
| BleServer.BleServer.Drain | lib/BleBtpServer/BleBtpServer.cpp:477-542 | one drain moves one notification to the client or loses exactly it |
| BleServer.BleServer.FaithfulUntilLoss | lib/BleBtpServer/BleBtpServer.cpp:526-541 | the stream is the admitted frames in order if and only if no notification was lost |
| BleServer.BleServer.OnConnect | lib/BleBtpServer/BleBtpServer.cpp:335-337 | a new central begins with an empty queue, and its account is right exactly when no sender holds the latch or a chunk |
| BleServer.BleServer.EmptyQueue | lib/BleBtpServer/BleBtpServer.cpp:544-553 | the mutex section of reset_send_queue: the account begins right exactly when the latch is held at most once, no sender has a chunk in hand, and none was notified since the link changed |
| BleServer.BleServer.ClearLatch | lib/BleBtpServer/BleBtpServer.cpp:544-554 | releasing the latch leaves at most one sender with it exactly when none holds it |
| BleServer.BleServer.Run | lib/BleBtpServer/BleBtpServer.cpp:315-554 | over all interleavings of the steps of link events, sends and drains: while the account of a session is not spoilt, what was notified, is in hand and is queued is what was admitted, in order, if and only if no notification was lost; it is never spoilt unless the latch is released while a sender holds it, the queue emptied while one has a chunk or after one was notified, or a frame of an earlier session admitted |
| BleServer.OvertakenDrainLeaks | lib/BleBtpServer/BleBtpServer.cpp:526-541 | a chunk in a sender's hand while the central is replaced goes to the next one |
| BleServer.OvertakenLatchReorders | lib/BleBtpServer/BleBtpServer.cpp:477-554 | with no chunk in hand at any link event, a sender that set the latch before it takes a later frame than one that set it after, and they go out in the wrong order |
| SettingsText.ReadDecimal | lib/RobotSettings/RobotSettings.cpp:151-168 | a printed number is read in base 0 as itself, never as octal |
| SettingsText.LeadingZeroIsOctal | lib/RobotSettings/RobotSettings.cpp:151-156 | a number written with a leading zero is read back as itself if and only if it is less than eight |
| SettingsText.ReadLarge | lib/RobotSettings/RobotSettings.cpp:151-168 | hexadecimal is read behind 0x, and what exceeds 32 bits saturates |
| SettingsText.ReadMinusUnsigned | lib/RobotSettings/RobotSettings.cpp:151-168 | a number with a minus is read modulo 2^32 where the setting has no sign |
| SettingsText.ReadMinusSigned | lib/RobotSettings/RobotSettings.cpp:169-175 | a negative number is read as itself down to -2^31, and saturates there |
| SettingsText.ReadAround | lib/RobotSettings/RobotSettings.cpp:151-175 | blanks in front of a number are ignored, anything behind it refuses the text |
| SettingsText.PrintedRestored | lib/RobotSettings/RobotSettings.cpp:124-127 | a printed float reads back exactly when whole part and non-zero decimals fit the 32-byte buffer |
| SettingsText.PrintedAgain | lib/RobotSettings/RobotSettings.cpp:110-127 | whatever was cut from a printed float, what is read back prints as the same text |
| SettingsText.TenToThe31IsLost | lib/RobotSettings/RobotSettings.cpp:110-127 | ten to the 31st is not restored, though it prints the same afterwards |
| SettingsFile.ParseFormat | lib/RobotSettings/RobotSettings.cpp:110-186 | each value is read back from its text exactly when it is not the empty string and, for floats, fits the buffer |
| SettingsFile.ParseAccepts | lib/RobotSettings/RobotSettings.cpp:145-186 | which numbers and texts each kind takes: octets up to 255, the pins that exist, strings shorter than their buffer, and no empty text |
| SettingsFile.Find | lib/RobotSettings/RobotSettings.cpp:188-198 | the first row with this module and key |
| SettingsFile.LinesArePlain | lib/RobotSettings/RobotSettings.cpp:335-337 | tokenising at CR and LF yields lines without either |
| SettingsFile.ReadHeading | lib/RobotSettings/RobotSettings.cpp:342-349 | a written heading puts the parser in its module |
| SettingsFile.ReadAssignment | lib/RobotSettings/RobotSettings.cpp:350-361 | a written line sets its own row and nothing else |
| SettingsFile.ReadSetting | lib/RobotSettings/RobotSettings.cpp:350-361 | any line that is no comment or heading sets the named row of the current module if there is one and takes the text, and is else counted as skipped |
| SettingsFile.ReadNothing | lib/RobotSettings/RobotSettings.cpp:340-350 | blank lines and comments change nothing |
| SettingsFile.SavedLooks | lib/RobotSettings/RobotSettings.cpp:274-299 | how a saved file looks: a heading where the module changes, an empty line between modules, key=value, six decimals |
| SettingsFile.SavedIsRestored | lib/RobotSettings/RobotSettings.cpp:274-367 | reading a saved file onto any base restores every readable setting and leaves the others |
| SettingsFile.ReadTextKeeps | lib/RobotSettings/RobotSettings.cpp:321-367 | whatever a file holds, the settings stay well-typed, and empty only where the factory setting is |
| SettingsFile.SaveThenRead | lib/RobotSettings/RobotSettings.cpp:274-367 | saving and reading onto the factory settings is the identity if and only if no string holds a line end and every float fits |
| SettingsFile.SavedFits | lib/RobotSettings/RobotSettings.cpp:274-304 | the saved text is at most 131 octets a row |
| SettingsTable.TableIsGood | lib/RobotSettings/RobotSettings.cpp:25-104 | the 57 rows have distinct module and key, and factory values of their types |
| RobotSettings.RobotSettings.Set | lib/RobotSettings/RobotSettings.cpp:211-215 | a known setting takes an acceptable text; everything else is unchanged |
| RobotSettings.RobotSettings.ResetModule | lib/RobotSettings/RobotSettings.cpp:245-262 | exactly the module's settings return to their factory values |
| RobotSettings.RobotSettings.SaveText | lib/RobotSettings/RobotSettings.cpp:274-299 | the table loop builds the specified text |
| RobotSettings.RobotSettings.ParseText | lib/RobotSettings/RobotSettings.cpp:335-364 | the tokenising loop computes the specified reading |
| RobotSettings.RobotSettings.Load | lib/RobotSettings/RobotSettings.cpp:306-317 | a missing file is written, a present one is read; the invariants hold |
| RobotSettings.RobotSettings.Diff | lib/RobotSettings/RobotSettings.cpp:438-468 | counts the settings that print differently from what the next boot would read |
| RobotSettings.RobotSettings.SavedWhole | lib/RobotSettings/RobotSettings.cpp:325-332 | a saved file is never cut by the read limit of 8191 octets |
| RobotSettings.SavedPrintsAlike | lib/RobotSettings/RobotSettings.cpp:274-468 | what was saved prints the same after reading it onto the factory settings if and only if no string holds a line end |
| RobotSettings.SaveAndReboot | lib/RobotSettings/RobotSettings.cpp:274-468 | boot after save gives the same settings if and only if strings are plain and floats fit; the diff after a save is zero if and only if strings are plain, so it does not see digits a float has lost |
| RobotSettings.LineEndIsLost | lib/RobotSettings/RobotSettings.cpp:337-363 | a string with a line end is not restored |
| Terminals.AnsweredBetween | lib/TerminalResponder/TerminalResponder.cpp:397-435 | between two lines of a terminal handed over for execution a result was consumed |
| Terminals.HeldKeepsTale | lib/TerminalResponder/TerminalResponder.cpp:411-418 | the line held back goes first, or is dropped with a notice, once the command before it is answered |
| Terminals.LineKeepsTale | lib/TerminalResponder/TerminalResponder.cpp:420-435 | each completed line is handed over (no command in flight, and the queue takes it), held (first behind a command), dropped with a notice, or vanishes (empty behind a command in flight with none held) |
| Terminals.AllCounted | lib/TerminalResponder/TerminalResponder.cpp:420-435 | all completed lines are handed over, held or counted as dropped if and only if none was empty and completed behind a command in flight with no line held |
| Terminals.EmptyLineVanishes | lib/TerminalResponder/TerminalResponder.cpp:420-435 | an empty line typed right behind a command does vanish |
| Terminals.BookHandsOver | lib/TerminalResponder/TerminalResponder.cpp:453-462 | handing a line over keeps the books: per editor the lines handed over are exactly the accepted ones, in order |
| Terminals.BookGoesOn | lib/TerminalResponder/TerminalResponder.cpp:420-435 | dropping a line keeps the books: the counter is the sum of the lines dropped over all editors, past ones included |
| Terminals.HomeUnlessRebound | lib/TerminalResponder/TerminalResponder.cpp:108-177 | a chunk of output reaches the connection its origin last spoke over if and only if its link was not bound anew in between |
| Terminals.FeedKeepsTale | lib/TerminalResponder/TerminalResponder.cpp:407-409 | more input never changes earlier lines |
| TerminalResponder.TerminalResponder.ChooseVictim | lib/TerminalResponder/TerminalResponder.cpp:196-205 | the first free slot, else the first of those with the smallest time stamp |
| TerminalResponder.TerminalResponder.FindOrAlloc | lib/TerminalResponder/TerminalResponder.cpp:189-230 | an origin keeps its slot; a new one gets a slot whose shared fields are empty and whose editor is to be reset |
| TerminalResponder.TerminalResponder.OnTerminalIn | lib/TerminalResponder/TerminalResponder.cpp:232-265 | octets are accepted up to 1024 waiting for their own origin only, the rest are counted; the origin's link is where its output goes from then on |
| TerminalResponder.TerminalResponder.DeliverCommandOutput | lib/TerminalResponder/TerminalResponder.cpp:267-290 | a result reaches only the slot of its origin, if there is one |
| TerminalResponder.TerminalResponder.PushAsyncOutput | lib/TerminalResponder/TerminalResponder.cpp:292-329 | a pushed line is queued whole for its origin or dropped and counted |
| TerminalResponder.TerminalResponder.Bind | lib/TerminalResponder/TerminalResponder.cpp:108-113 | a link that is bound has a connection of its own from then on |
| TerminalResponder.TerminalResponder.Evict | lib/TerminalResponder/TerminalResponder.cpp:124-130 | exactly the slots that last spoke over the link are freed |
| TerminalResponder.TerminalResponder.TakeSnapshot | lib/TerminalResponder/TerminalResponder.cpp:353-376 | the locked part takes everything that waits, together with the life it belongs to |
| TerminalResponder.TerminalResponder.SubmitLine | lib/TerminalResponder/TerminalResponder.cpp:453-462 | a line is handed over with the snapshot's origin, or counted and shown as dropped |
| TerminalResponder.TerminalResponder.PollAll | lib/TerminalResponder/TerminalResponder.cpp:420-435 | every completed line is taken from the editor and handed over, held or dropped as the lines before it and the answers of the command queue say |
| TerminalResponder.TerminalResponder.Emit | lib/TerminalResponder/TerminalResponder.cpp:464-494 | output leaves chunk by chunk on the origin's link, each at most one frame; each chunk is recorded with the connection that link has when it leaves, other tasks having had their turn |
| TerminalResponder.TerminalResponder.PumpSlot | lib/TerminalResponder/TerminalResponder.cpp:331-443 | one slot's pass: its editor gets all that waited and every completed line is dealt with; if nobody interferes and the link has an endpoint, the result and the pushed lines that waited are shown |
| TerminalResponder.TerminalResponder.Pump | lib/TerminalResponder/TerminalResponder.cpp:331-443 | a pass over all slots does so for every used one whose lock was free, if nobody interferes |
| TerminalResponder.Chop | lib/TerminalResponder/TerminalResponder.cpp:486-493 | the chunks put together are the text, all but the last full |
| TerminalResponder.TerminalResponder.Run | lib/TerminalResponder/TerminalResponder.cpp:108-494 | in every interleaving each line handed over is built only from its own origin's octets since its slot was allocated; per editor the lines handed over are the accepted ones, and lines_dropped_busy counts the dropped ones; each chunk of output is its origin's, and reaches the connection that origin last spoke over exactly if the link was not bound anew in between |
| TerminalResponder.MissedEvictionLeaks | lib/TerminalResponder/TerminalResponder.cpp:115-131 | when the eviction misses the lock, a result is shown to the client connected next |
| TerminalResponder.OvertakenSnapshotLeaks | lib/TerminalResponder/TerminalResponder.cpp:353-443 | so it is, with the slot evicted, when the client is replaced while the pump works unlocked |
| TerminalResponder.OvertakenChunkLeaks | lib/TerminalResponder/TerminalResponder.cpp:484-493 | so are the later chunks of a pass when the client is replaced between two of them |
| HBridge.Saturate | lib/HBridge/HBridge.cpp:148-159 | commands are cut to the range without changing sign |
| HBridge.ConvertMonotone | lib/HBridge/HBridge.cpp:174-213 | a larger command never gives a smaller duty |
| HBridge.ConvertInRange | lib/HBridge/HBridge.cpp:174-213 | the duty stays within 0 and 2047 and reaches 2047 at full command, whatever the dead zone |
| HBridge.ConvertPositive | lib/HBridge/HBridge.cpp:174-213 | every command but zero gives a positive duty |
| HBridge.ConvertIsShare | lib/HBridge/HBridge.cpp:174-213 | the duty is 2047 times the dead zone plus the command's percentage of the rest, up to the two roundings |
| HBridge.NeutralBetween | lib/HBridge/HBridge.cpp:215-315 | between net drive one way and the other there was an output with both pins equal |
| HBridge.HBridge.EnterBrakeState | lib/HBridge/HBridge.cpp:215-246 | braking never drives against the current direction, even when a write fails |
| HBridge.HBridge.Drive | lib/HBridge/HBridge.cpp:248-315 | driving sets the pins for direction and duty, through the brake when it reverses |
| HBridge.HBridge.Coast | lib/HBridge/HBridge.cpp:366-404 | coasting lowers first the pin that does not drive against the last direction: that is the one lowered when the second write fails |
| HBridge.HBridge.ApplyPWM | lib/HBridge/HBridge.cpp:317-348 | after success the pins agree with the fields, except exactly when a repeated command meets pins a failed write had put apart |
| HBridge.HBridge.Run | lib/HBridge/HBridge.cpp:174-404 | over all commands and write failures the motor is never reversed directly nor driven with both pins below full duty |
| HBridge.RepetitionAfterFailure | lib/HBridge/HBridge.cpp:335-348 | a failed reversal followed by the old command reports success while the motor stays braked |
| OTAUpdater.OTAUpdater.BeginScanning | lib/OTAUpdater/OTAUpdater.cpp:301-382 | start and startDirect, up to the store of the phase, begin at the first stored network, start upgrading a direct connection, or leave an active session alone |
| OTAUpdater.OTAUpdater.StartNext | lib/OTAUpdater/OTAUpdater.cpp:314-367 | the later steps of a start: an upgrade that finds the connection serving starts the server, over one that runs already if there is one |
| OTAUpdater.ReachedIsOrder | lib/OTAUpdater/OTAUpdater.cpp:571-615 | the signed 32-bit difference tells the order of any two times less than 2^31 ms apart, across wrap-around |
| OTAUpdater.OTAUpdater.BeginSurvey | lib/OTAUpdater/OTAUpdater.cpp:384-403 | a survey begins only from idle |
| OTAUpdater.OTAUpdater.HandleScanDone | lib/OTAUpdater/OTAUpdater.cpp:418-499 | the first visible network from the current one on is tried; when none is, the search returns to the first |
| OTAUpdater.OTAUpdater.FindVisible | lib/OTAUpdater/OTAUpdater.cpp:451-462 | stops at the first candidate the scan has seen |
| OTAUpdater.OTAUpdater.TryNextCandidate | lib/OTAUpdater/OTAUpdater.cpp:501-505 | the next network in file order |
| OTAUpdater.OTAUpdater.Process | lib/OTAUpdater/OTAUpdater.cpp:549-624 | a button leaves an operator's session unless firmware is being written; the server starts only on a connection |
| OTAUpdater.OTAUpdater.EndTick | lib/OTAUpdater/OTAUpdater.cpp:579-599 | the last step of a tick stores the phase: where it begins to serve, phase and server agree exactly if the server runs or the mode is direct, and not both |
| OTAUpdater.OTAUpdater.TickConnecting | lib/OTAUpdater/OTAUpdater.cpp:579-612 | serving begins exactly with an address and, unless direct, a started server; the verdict is by the event that set the flag, whichever attempt it was about |
| OTAUpdater.OTAUpdater.Attempt | lib/OTAUpdater/OTAUpdater.cpp:475-498 | a new attempt is judged by its own events unless an event flag is still set, and at the connect timeout after now |
| OTAUpdater.OTAUpdater.CompleteCancel | lib/OTAUpdater/OTAUpdater.cpp:626-647 | a cancel without interruption leaves the updater idle, without server, mode or candidates |
| OTAUpdater.OTAUpdater.StopServer | lib/OTAUpdater/OTAUpdater.cpp:626-634 | the second step of a cancel, once the request handler has returned; it overlaps exactly when another call is under way |
| OTAUpdater.OTAUpdater.FinishCancel | lib/OTAUpdater/OTAUpdater.cpp:638-647 | its last step goes idle: phase and server agree then exactly if nobody has started the server since it was stopped |
| OTAUpdater.OTAUpdater.RequestStep | lib/OTAUpdater/OTAUpdater.cpp:714-822 | firmware writing begins and ends only inside a request handler |
| OTAUpdater.OTAUpdater.Run | lib/OTAUpdater/OTAUpdater.cpp:301-822 | over all interleavings of the steps of ticks, starts, surveys, cancels and requests: as long as no call begins while another is under way, the server exists between calls exactly in an upload session that serves, and while firmware is written no button, start or cancel changes that; attempts are judged by their own events as long as none begins with a flag set and no event comes for an earlier one |
| OTAUpdater.TickInCancel | lib/OTAUpdater/OTAUpdater.cpp:579-647 | a tick between the steps of a cancel leaves the server running on an idle updater |
| OTAUpdater.StartInTick | lib/OTAUpdater/OTAUpdater.cpp:314-599 | a start between the steps of a tick leaves an upload session without server |
| OTAUpdater.TickInStart | lib/OTAUpdater/OTAUpdater.cpp:314-599 | a tick between the steps of a start starts a second server, and one of the two can never be stopped |
| OTAUpdater.LateDisconnection | lib/OTAUpdater/OTAUpdater.cpp:501-612 | the disconnection of an attempt that timed out fails the next one at its first tick |

## Left out

- The BTP library (codec, COBS, AEAD, subscription tables) and ShellLineEditor are not part of this model: decoding a frame, reserving a sequence number, what a link's table subscribes, which lines the editor completes and how output is rendered are parameters.
- ESP-IDF, FreeRTOS, lwIP, TinyUSB, NimBLE, LEDC and the SD driver: each call is a parameter that says how it turned out; waits without a deadline are taken to end.
- 32-bit statistics counters are unbounded numbers; the telemetry queue indices keep their 32 bits. Job times stay below 2^64.
- Logger: a missing ring buffer, the capture of shell output, file naming, clear_ring and reset_loop_counter (never called); with them two branches that cannot be reached (Logger.cpp:388 and a failed header read in flush_logs_to). The header comment says flush_logs clears the ring, but the code retains the records, and so does the model.
- Logger.Logger.Run: ends at the first SD flush that gets past a half-sent record; of what the code does afterwards only the next radio chunk is shown (Logger.HalfSentFlushBreaksRadio).
- Logger: the radio payload limit is 210 octets and the sequence source is a counter that may refuse or skip.
- KeyStore.EqualBytes: that it takes the same time whatever it finds is not stated.
- KeyStore: wiping of local buffers, error texts; the CRC is a function parameter.
- TelemetryPublisher: packing of payload fields, per-topic rates and counts, queued_count from a third task.
- JobScheduler.JobScheduler.PerformAll: every call is one step; a poll that falls into a schedule call of another task, which the class documents as an accepted race, is shown for one job (JobScheduler.HalfBookedFiresEarly, JobScheduler.HalfBookedDividesByZero) and not part of the runs.
- JobScheduler: list and error texts.
- TxScheduler: frame size limits 40 and 250 stand for the library's constants; counters are updated in the same step as the queue they count.
- TcpServer: the second, pending connection and receiving; obtaining the mutex late is a refusal, and the unlocked queue reset after such a miss is not modelled.
- BleServer: advertising and the receive characteristic; the stores at the head of a link event are one step; whether a frame queued during an empty drain is sent without a further send.
- SettingsText.ReadFloat: reads sign, digits, point and digits in millionths; exponents, hexadecimal, infinities and binary rounding of strtof are not modelled.
- RobotSettings: appliers, listing, the shell; fields are numbered by table row instead of by offset. The valid pins are those of an ESP32-S3, whose header is not part of the repository.
- TerminalResponder: binding and clearing a link's endpoint are single steps; rendering and truncation of a command's output, history and completion; the header says the oldest pushed lines are dropped on overflow, but the code drops the new one, and so does the model. No claim of least-recently-used eviction is made, since the pump stamps every used slot.
- HBridge: a failed duty write is taken to leave the pin as it was; pin and timer configuration is one answer.
- OTAUpdater: LEDs, logging, mDNS, the network list file and the upload body; a tick, start or survey loads the phase and acts in one step, and stores the new phase in another, and the stores at the end of a cancel are one.
- CommandProcessor, ManifestCatalog, StatusReporter, RadioSeal, StateMachine, Flags, Encoder, Format, Junkebox, SystemMonitor, USBMassStorage and the sensors: not modelled; beside the cores above they would add only easy members.
