# Verified models of the OpenAirInterface executables

A Dafny model of the stateful cores of the OpenAirInterface soft modems and of two CI protocols, with
proofs of what they are for. Check it with `dafny verify dfyconfig.toml`.

## What is modelled

**NR gNB slot pipeline** (`SlotPattern`, `SlotPipeline`, `PipelineInvariant` and `PipelineSafety` in one
file, `PipelineDecoding`, `PipelineProgress`, `PipelineTheorems`, `PipelineDrain`, `PipelineRuns`, `PipelineCut`,
`PipelineOvertake`, `PipelineDeadlock`, `NrPipeline`, `ThreadPoolFifo`). `ru_thread`, `rx_func`, `tx_func` and `ru_tx_func` pass one RX token, two
L1-TX tokens and one RU-TX token through FIFOs and a thread pool, and `rx_func` has the code blocks it
received decoded by the same pool. The model is a transition system over all interleavings of `ru_thread`
and any number of pool threads, for any traffic: how many transport blocks of how many code blocks arrive in
a slot is a parameter. Its steps, each one function of `SlotPipeline`, with the code they stand for:

- `Init`: the tokens of `init_gNB_Tpool` (openairinterface5g/executables/nr-gnb.c:417-452)
- `DoTick`: one turn of `ru_thread` (openairinterface5g/executables/nr-ru.c:1425-1435)
- `DoPick`, `DoReturn`: a pool thread takes the oldest job, and returns its token to the response FIFO
  (openairinterface5g/common/utils/threadPool/thread-pool.c:67-93)
- `DoDecode`: `rx_func` pushes the code blocks of a transport block one by one
  (openairinterface5g/openair1/PHY/NR_TRANSPORT/nr_ulsch_decoding.c:634-660), waits for as many results
  (openairinterface5g/openair1/SCHED_NR/phy_procedures_nr_gNB.c:393-397), and goes on to the next one
  (phy_procedures_nr_gNB.c:717-803); all of it before the scheduler is called
  (openairinterface5g/executables/nr-gnb.c:244-270)
- `DoFail`, and `Drop` for the jobs it has taken out of the queue: a code block could not be decoded, and the
  rest of its transport block is given up (phy_procedures_nr_gNB.c:240-248,
  openairinterface5g/common/utils/threadPool/thread-pool.c:80-90). Where the assertion on the number of jobs
  taken away does not hold (`AddsUp`), the process ends and there is no step.
- `Push` onto a queue that is `cut`: taking the last job out leaves the queue's pointer to it as it is, and
  whatever is pushed before the queue has run empty is lost
  (openairinterface5g/common/utils/threadPool/thread-pool.h:118-128, 146-149, 271-289). `ThreadPoolFifo` has the
  list itself, with its pointers.
- `DoSchedule`: the scheduler call inside `rx_func` pulls the front L1-TX token, stamps it and pushes it back
  (openairinterface5g/openair1/SCHED_NR/fapi_nr_l1.c:152-214). It does not check that the token is idle.
- `DoMatch`: the end of `rx_func` (openairinterface5g/executables/nr-gnb.c:277-291). The search loop is
  one step: nobody else pulls from this FIFO, and while a worker is on its way to push a token back the
  FIFO holds only the stamped one. `MatchStepIsTheLoop` and `NotifiedFifo.PullMatching` connect the
  step to the loop.
- `DoPull`, `DoHold`: `tx_func` pulls the RU token and either uses it or puts it back; every pull and every
  put-back is a step of its own (openairinterface5g/executables/nr-gnb.c:133-149)
- `DoSend`: `ru_tx_func` (openairinterface5g/executables/nr-ru.c:1180-1231)

The pool's FIFO keeps its history (`log`), so a queued, running or lost job is named by its position. Tokens carry
absolute slot indices as history; every comparison uses slot numbers, as the source does.

**NR clock** (`NrClock`, `RuThread`): slot lengths, the prefix-sum conversion, `rx_rf` with drift
correction and the `ru_thread` counters, for the numerologies 0 to 4 with normal cyclic prefix.

**LTE clock** (`LteClock`): `setAllfromTS` modulo 2^64, and the receive ring written in place.

**FS6 split** (`Fs6Chain`, `Fs6Codec`, `Fs6Transport`, `Fs6Receive`, `Fs6Uplink`, `Fs6Segments`,
`Fs6Signalling`, `Fs6Downlink`, `Fs6EndToEnd`, `Fs6Prach`, `BitPack`): a byte buffer with a chain of blocks,
written in place by the append functions, cut into datagrams, delivered in any order with losses and
duplicates, and parsed; the payload codecs; the PRACH procedure in one piece and cut in two.

**Estimators and collectors** (`PrachNoise`, `TimingMeas`, `CeRepetition`, `SymbolGather`) and **CI
protocols** (`StatusQueue`, `HandoverLog`).

## Where the code falls short, with the exact condition

- Giving up on a transport block takes jobs out of the pool's linked queue without repairing the pointer to
  the last one: the job pushed next is lost exactly if the last job was taken out and another one stayed
  (`ThreadPoolFifo.AbortThenPush`). In the pipeline the one that stays is an RU job queued among the code
  blocks. It happens exactly if a transport block of two or more code blocks is received behind the slot that
  starts the first downlink slot; with two workers, if such a block is the first one to be decoded behind the
  starter of some downlink slot (`Cuttable`, `NoJobLostExactly`). Then an RX or TX job is lost with its token,
  or a code block for which `rx_func` waits for ever (`LosesJob`), or the assertion on the number of jobs taken
  away fails, exactly if the next transport block with code blocks has two of them as well (`AssertionExactly`).
- Deadlock: `rx_func` waits for jobs of its own pool. With one worker the first slot with something to
  decode stops everything. With two, it happens in two situations: the RX job of a slot to be decoded gets
  in front of an RU job while the other worker is on the next `tx_func`, or a `tx_func` that has been
  overtaken occupies the other worker. With any number above one, losing a job can stop everything.
  `DeadlockFreeExactly` has the exact condition on workers, calendar and traffic, and `FrozenForever` says
  that such a state is never left. No number of workers is enough for all traffic on a table with uplink
  (`GnbDeadlockFreeExactly`); for transport blocks of one code block three always are, and two exactly on some
  tables (`GnbSmallBlocksExactly`). The code complains only about fewer than two
  (openairinterface5g/executables/nr-gnb.c:403). The table of the configuration files needs three for such
  small blocks and can be stopped by larger ones with any number (`UsualTableCanFreeze`).
- Transmit order: tokens are matched by slot number only. Order is kept exactly with one worker, or if no
  downlink slot is followed by one of its own number, or, with two workers, if for any two such slots something
  is decoded between them and the TX job of the first cannot be lost (`GnbKeepsOrderExactly`); whatever the
  traffic, exactly in the first two cases (`GnbKeepsOrderForAllTraffic`). `OneDownlinkSlotOvertakes` is a table
  that fails.
- The search for the next downlink slot runs into its assertion from some downlink slot exactly if only one
  of the table's two frames has downlink, and not in its slot 0 (`SearchNeverFires`, `GnbSearchesExactly`).
- `get_slot_from_timestamp` rounds up: it names the slot a sample lies in exactly if the sample is the first
  of the slot (`SlotFromTimestampExactly`).
- `sendSubFrame` announces a copy of the second header into every block, but copies each block's header onto
  itself. The PRACH results travel in block 0 only, and every other block carries whatever the send buffer
  held. The central unit decides from the block that arrives first (`SplitSubframe`): that is the monolithic
  outcome, in every state the eNB can be in, exactly if it is block 0 or the subframe has no PRACH occasion
  (`SplitPreservesExactly`; `AnotherPreamble` is a run that reports a preamble nobody detected). Downlink has the
  same fault: the DCIs, the PDCCH size, the PBCH bytes and the PHICH arrive exactly if block 0 does so first
  (`SignallingPreservedExactly`).
- The downlink control channel list is read with a pointer that never moves: it arrives exactly if it has at
  most one element (`ControlDeliveredExactly`).
- `initRefTimes` starts the ten smallest at 0, not at INT_MAX: the first report in min mode shows zeros, which
  are the ten smallest exactly if ten samples are zero (`FirstMinReportIsZero`). The comparison function
  orders all values up to a bound exactly if the bound is below 2^31 (`CompareExactly`).
- The transmit clock is the receive clock advanced exactly as long as the look-ahead does not pass the end of
  the 64-bit sample counter (`TxIsRxAdvancedExactly`).
- A repetition count of 0 lets the CE level counter pass every bound; it is bounded exactly if the count is at
  least 1 (`BoundedExactly`).
- The northbound symbol loop never ends once a packet names a symbol beyond the slot (`NorthExitsExactly`).
- A complete handover is counted exactly if its start marker is followed, that is, if no handover followed
  before is still open on that line (`CountedExactly`); `InterleavedIsMissed` is a log that has one too few.
- The status queue is a pipe that nobody reads before all processes have been joined: they can always go on
  exactly if all their records fit into it together (`NeverStuckExactly`), and else end with one waiting for
  room, lock in hand (`EndsStuck`).

## Model

| member | source | states |
|---|---|---|
| SlotPattern.NrSlotSelect | openairinterface5g/openair1/SCHED_NR/phy_frame_config_nr.c:327-384 | a slot counts as uplink only exactly if the two-frame table has 14 uplink symbols at its position; otherwise the code tells all-downlink from mixed, and FDD slots always carry downlink |
| SlotPattern.GetNextDownlinkSlot | openairinterface5g/openair1/SCHED_NR/phy_frame_config_nr.c:312-325 | returns the number of the first later slot that may carry downlink; the assertion fires exactly if that slot lies beyond slot 0 of the second following frame |
| SlotPattern.SearchNeverFires | openairinterface5g/openair1/SCHED_NR/phy_frame_config_nr.c:312-325 | the assertion never fires, searching from downlink slots or from any slot, exactly on those tables |
| SlotPattern.WrappedFrameFindsSameSlot | openairinterface5g/executables/nr-gnb.c:145-145 | searching from the frame number modulo 1024 finds the same slot number, and fails in the same cases, as from the true frame |
| NrPipeline.NotifiedFifo.PullMatching | openairinterface5g/executables/nr-gnb.c:278-285 | the pull-and-push-back loop removes the first token showing the slot and moves those before it, in order, to the back |
| NrPipeline.MatchStepIsTheLoop | openairinterface5g/executables/nr-gnb.c:278-285 | the atomic matching step of the transition system takes the token that loop stops at and leaves the FIFO as the loop does |
| PipelineDecoding.InitKeeps | openairinterface5g/executables/nr-gnb.c:417-452 | the initial tokens satisfy the pipeline invariant |
| PipelineDecoding.StepKeeps | openairinterface5g/executables/nr-gnb.c:114-291 | every step of every interleaving keeps the invariant: tokens and code blocks conserved, the lost ones included, nothing lost that the traffic does not allow, a cut queue holding the RU job only, at most one overtaken transmit job, the radio token showing the number of the job whose turn it is, and with two workers no later slot decoded while a transmit job stands before the token |
| PipelineTheorems.TokensConserved | openairinterface5g/executables/nr-gnb.c:417-452 | in every reachable state the one RX, two L1-TX and one RU-TX token are each in their FIFO, with exactly one job, in the hand of one tx_func, or gone with a lost job, which never is an RU job |
| PipelineTheorems.CodeBlocksConserved | openairinterface5g/openair1/SCHED_NR/phy_procedures_nr_gNB.c:393-397 | what rx_func has still to collect is exactly the code blocks in the pool, the results in the response FIFO and the code blocks lost; while it is not decoding there are none of any |
| PipelineTheorems.OneRadioJob | openairinterface5g/executables/nr-ru.c:1180-1231 | ru_tx_func never runs twice at a time |
| PipelineTheorems.EachSlotOnce | openairinterface5g/executables/nr-gnb.c:133-149 | on every calendar and in every interleaving only downlink slots are transmitted, with the timestamp computed when they were received, and none twice |
| PipelineTheorems.OrderedTransmission | openairinterface5g/executables/nr-gnb.c:128-149 | under the ordering condition transmissions are in strictly increasing downlink-slot order from the first look-ahead slot, none skipped |
| PipelineTheorems.GivingUpAddsUp | openairinterface5g/openair1/SCHED_NR/phy_procedures_nr_gNB.c:240-248 | in every reachable state the assertion on the number of aborted segments holds if and only if no code block of the transport block has been lost; the jobs and results taken away are then exactly the ones missing, this one and at least one other |
| PipelineCut.AssertionExactly | openairinterface5g/openair1/SCHED_NR/phy_procedures_nr_gNB.c:240-248 | the assertion holds in all reachable states if and only if no transport block that can be given up so that the queue is cut is followed, among those with code blocks, by another one with two |
| PipelineCut.NoJobLostExactly | openairinterface5g/common/utils/threadPool/thread-pool.h:271-303 | no job is ever lost, in any interleaving, if and only if no transport block of two code blocks is received behind the starter of the first downlink slot or, with two workers, as the first one to be decoded behind the starter of a downlink slot |
| PipelineCut.LosesJob | openairinterface5g/common/utils/threadPool/thread-pool.h:271-303 | after every such transport block there is a run that loses a job and ends with an empty queue, no token for ru_thread and every running job waiting for a result that never comes |
| PipelineTheorems.ProgressUntilLost | openairinterface5g/openair1/SCHED_NR/phy_procedures_nr_gNB.c:393-397 | where the workers suffice, no reachable state in which no job has been lost is stuck |
| ThreadPoolFifo.Fifo.Push | openairinterface5g/common/utils/threadPool/thread-pool.h:118-128 | the element gets to the end of the list if and only if the pointer to the last element is right; otherwise no reader ever sees it |
| ThreadPoolFifo.Fifo.Abort | openairinterface5g/common/utils/threadPool/thread-pool.h:179-199 | exactly the elements of the key are gone and freed, the others in their order; the pointer to the last element is right afterwards if and only if the list has run empty or has kept its last element |
| ThreadPoolFifo.AbortThenPush | openairinterface5g/common/utils/threadPool/thread-pool.h:271-303 | an element pushed after an abort is lost if and only if the last element was removed and another one was not |
| PipelineDeadlock.DeadlockFreeExactly | openairinterface5g/openair1/SCHED_NR/phy_procedures_nr_gNB.c:393-397 | every reachable state has a step that is not spinning on the RU token, at the latest after a token has been put back, if and only if no job can be lost and there are three workers, or nothing is ever decoded, or there are two and the calendar and traffic avoid two situations; otherwise a frozen state is reachable |
| PipelineDeadlock.FrozenForever | openairinterface5g/openair1/SCHED_NR/phy_procedures_nr_gNB.c:393-397 | from a frozen state on no run makes headway or transmits anything |
| PipelineDrain.EverythingCanBeSent | openairinterface5g/executables/nr-gnb.c:114-291 | under the conditions for order and for progress, from every reachable state the pool alone can get every downlink slot handed over so far transmitted, in order and with its timestamp |
| PipelineOvertake.OrderedExactlyWhenSafe | openairinterface5g/executables/nr-gnb.c:137-141 | all reachable states transmit in order if and only if there is one worker, or any two consecutive downlink slots differ in their slot number or, with two workers, have something to decode between them while the TX job of the first cannot be lost |
| PipelineOvertake.LostAndOvertaken | openairinterface5g/executables/nr-gnb.c:137-141 | with two workers there is, for every downlink slot whose TX job can be lost and whose successor has its number, a run in which the successor is transmitted in its place |
| NrPipeline.GnbKeepsOrderExactly | openairinterface5g/executables/nr-gnb.c:402-403 | the same, with the condition read off the TDD table and the traffic |
| NrPipeline.GnbKeepsOrderForAllTraffic | openairinterface5g/executables/nr-gnb.c:402-403 | whatever is received, order is kept if and only if there is one worker or no downlink slot of the table is followed by one of its own number |
| NrPipeline.OneDownlinkSlotOvertakes | openairinterface5g/executables/nr-gnb.c:137-141 | with downlink in one slot per frame and two workers there is a run that transmits out of order |
| NrPipeline.GnbDeadlockFreeExactly | openairinterface5g/executables/nr-gnb.c:402-403 | for every number of workers: whatever is received in uplink slots, no reachable state is stuck if and only if the table has no uplink |
| NrPipeline.GnbSmallBlocksExactly | openairinterface5g/executables/nr-gnb.c:402-403 | for transport blocks of at most one code block, no reachable state is stuck if and only if there are three workers, or the table has no uplink, or there are two and the table avoids the two situations |
| NrPipeline.UsualTableCanFreeze | openairinterface5g/targets/PROJECTS/GENERIC-NR-5GC/CONF/gnb.sa.band41.fr1.106PRB.usrpb210.conf:186-190 | on the table of the configuration files the order is kept; for transport blocks of one code block three workers are needed and enough; for larger ones every number of workers has a reachable frozen state |
| NrPipeline.GnbSearchesExactly | openairinterface5g/executables/nr-gnb.c:145-145 | all searches of the pipeline for the next downlink slot stay within the assertion's bound if and only if both frames of the table have downlink or one of them in its slot 0 |
| NrPipeline.TransmissionsLeaveOnTime | openairinterface5g/executables/nr-gnb.c:288-288 | clock and pipeline together: each transmission carries the sample time at which its slot begins, and these increase |
| NrClock.PreviousSlotLength | openairinterface5g/executables/nr-ru.c:645-645 | the length asked for at slot 0 with a remainder that is -1 in C is that of the frame's last slot |
| NrClock.OneSubframe | openairinterface5g/openair1/PHY/INIT/nr_parms.c:274-284 | any slots_per_subframe consecutive slots are samples_per_subframe long, wherever they start |
| NrClock.GetSlotFromTimestamp | openairinterface5g/openair1/PHY/INIT/nr_parms.c:213-224 | the loop returns the first slot of the frame beginning at or after the sample |
| NrClock.SlotFromTimestampExactly | openairinterface5g/openair1/PHY/INIT/nr_parms.c:213-224 | for a sample inside a slot the result is that slot's number if and only if it is the slot's first sample, else the number after it; the frame is right in both cases |
| NrClock.LookAheadIsLeast | openairinterface5g/executables/nr-ru.c:1294-1294 | the look-ahead is the least number of subframes that holds six slots, for every numerology |
| NrClock.LookAheadInNumbers | openairinterface5g/executables/nr-ru.c:1294-1294 | it is 6, 3, 2, 1 and 1 subframes, or 6, 6, 8, 8 and 16 slots, for the numerologies 0 to 4 |
| NrClock.LookAheadAgrees | openairinterface5g/executables/nr-ru.c:1356-1358 | transmit frame and slot computed by branch and modulo are those of the slot beginning at the transmit timestamp, for every numerology and slot |
| RuThread.RadioUnit.RxRf | openairinterface5g/executables/nr-ru.c:602-684 | whatever the device reports, received time advances by the previous slot's samples, the offset absorbs the drift, and the exit branch is taken exactly when frame or slot differ from the counters |
| RuThread.RadioUnit.Run | openairinterface5g/executables/nr-ru.c:1326-1435 | for any device timestamps and any initial offset the exit branches are never taken and the n-th message handed to the L1 is the one of the sample calendar; the first one, in numbers, names frame 0 and slot 6, 6, 8, 8 or 16 with the sample at which it begins |
| LteClock.L1Proc.SetAllFromTS | openairinterface5g/executables/main-ocp.c:122-142 | the nested loops leave the times of the last carrier, and change nothing if there is none |
| LteClock.TimesInNumbers | openairinterface5g/executables/main-ocp.c:122-142 | all ten times, those of PRACH and of its br pass included, as quotients and remainders of the timestamp |
| LteClock.AirTimeCountsTtis | openairinterface5g/executables/main-ocp.c:130-133 | frame and subframe together count TTIs modulo 10240 |
| LteClock.TxIsRxAdvancedExactly | openairinterface5g/executables/main-ocp.c:126-137 | for every LTE sample rate and every timestamp the transmit clock is the receive clock plus sf_ahead subframes modulo 10240 if and only if the look-ahead does not pass 2^64 |
| LteClock.CuAndDuAgree | openairinterface5g/executables/main-fs6.c:1380-1380 | CU and DU derive identical times from the uplink timestamp, and the DU gets them all back from the downlink timestamp, across the 64-bit wrap |
| LteClock.Receiver.RxRf | openairinterface5g/executables/main-ocp.c:648-687 | one read overwrites exactly the chosen segment and sets all times from the timestamp |
| LteClock.Receiver.Receive | openairinterface5g/executables/main-ocp.c:648-687 | on a stream advancing by one TTI the ten segments hold, from the second read on, the latest subframe of each index; the first read lands right exactly if its subframe follows the initial one; no other segment is written |
| Fs6Chain.BlocksDisjoint | openairinterface5g/executables/split_headers.h:263-266 | blocks laid out by their aligned sizes do not overlap |
| Fs6Chain.SplitBuffer.EndOfChain | openairinterface5g/executables/main-fs6.c:997-1001 | the walk by the size fields in the buffer ends behind the last block and its assertion on block numbers never fires |
| Fs6Chain.SplitBuffer.Append | openairinterface5g/executables/main-fs6.c:377-412 | an append adds exactly its payload as the next numbered block, keeps all earlier ones, and leaves the timestamp and the PRACH header untouched |
| Fs6Chain.SplitBuffer.AnnounceIfEmpty | openairinterface5g/executables/main-fs6.c:1429-1433 | a subframe without blocks gets one block with an empty payload, any other stays as it is |
| Fs6Codec.UlschRoundTrip | openairinterface5g/executables/split_headers.h:208-222 | reading an uplink data block through the structure gives back every field and the data; the fields stand where the structure has them |
| Fs6Codec.ListRoundTrip | openairinterface5g/executables/split_headers.h:239-243 | a list block gives back its count and, by pointer arithmetic, every element |
| Fs6Transport.Sender.SendSubFrame | openairinterface5g/executables/transport_split.c:156-195 | one datagram per block, in order, carrying its payload and the first block's timestamp, count and type, and the first one the sender's clock; the second header of each is what the buffer holds behind its own common header |
| Fs6Receive.Receiver.ReceiveSubFrame | openairinterface5g/executables/transport_split.c:101-154 | exactly the datagrams of one timestamp are returned, in order of arrival and after one kept earlier; the call is complete with the first arrival that brings the announced number together, one kept before counted in, and with no earlier one; a datagram of a later subframe ends it and is kept |
| Fs6Receive.EndsOnce | openairinterface5g/executables/transport_split.c:101-154 | there is only one way and one moment for a call to end on what it was left with and what arrives |
| Fs6Receive.SubframeIsRead | openairinterface5g/executables/transport_split.c:101-154 | on datagrams of one subframe, with losses and duplicates and with one kept before or not, it ends complete exactly with the one that makes up the announced number, else with a timeout after the last |
| Fs6Receive.LaterSubframeIsKept | openairinterface5g/executables/transport_split.c:107-154 | too few of them and then one of a later subframe: the call ends with that one |
| Fs6Receive.ReceivedIsPacked | openairinterface5g/executables/transport_split.c:145-146 | whatever arrived, the buffer holds the payloads that arrived, in order of arrival |
| Fs6Uplink.CentralUnit.RecvFs6Ul | openairinterface5g/executables/main-fs6.c:691-745 | the parser applies every received payload exactly once, in buffer order, and skips empty ones |
| Fs6Uplink.LastFieldsArrive | openairinterface5g/executables/main-fs6.c:703-715 | after any blocks in any order a process has the number of coded bits, ACK and CQI fields of its block that arrived last |
| Fs6Uplink.LastUserArrives | openairinterface5g/executables/main-fs6.c:703-715 | and a user the power and the timing advance of its block that arrived last |
| Fs6Uplink.OtherProcessStays | openairinterface5g/executables/main-fs6.c:703-715 | a process without a block keeps all it has |
| Fs6Uplink.OtherUserStays | openairinterface5g/executables/main-fs6.c:703-715 | and so does a user |
| Fs6Uplink.IndicatedInOrder | openairinterface5g/executables/main-fs6.c:719-741 | the indications sent one to a block are handed on once for each arrival, in order of arrival, and no others |
| Fs6Uplink.Reassembly | openairinterface5g/executables/main-fs6.c:698-703 | for any blocks in any order and number, a byte of the soft bits is the sender's if some arrived block covers it and is unwritten otherwise |
| Fs6Segments.SegmentsTile | openairinterface5g/openair1/PHY/LTE_TRANSPORT/ulsch_decoding.c:309-335 | the segments follow each other without gap and cover exactly the whole modulation symbols |
| Fs6Segments.SendSegments | openairinterface5g/openair1/PHY/LTE_TRANSPORT/ulsch_decoding.c:309-335 | the segment loop appends exactly the blocks of the segments, in order |
| Fs6Segments.ByteDelivered | openairinterface5g/executables/main-fs6.c:393-411 | for every arrival order, with duplicates and losses, a segment's bytes are the sender's if and only if its block arrived, else untouched |
| Fs6Segments.AllSegmentsDelivered | openairinterface5g/executables/main-fs6.c:691-745 | if every segment arrives, the soft bits equal the sender's up to the last whole symbol and nothing behind is written |
| Fs6Segments.FieldsDelivered | openairinterface5g/executables/main-fs6.c:703-715 | if any segment arrives, the process has the number of coded bits, ACK and CQI fields of the job, and its user, unless another process of it is in the subframe, power and timing advance |
| Fs6Signalling.SendUlHarq | openairinterface5g/executables/main-fs6.c:318-374 | every call appends a block of its own with exactly this element, leaving the PRACH header alone |
| Fs6Downlink.AppendUlUser | openairinterface5g/executables/main-fs6.c:991-1077 | appends one block with the scheduled uplink user |
| Fs6Downlink.UlUserDelivered | openairinterface5g/executables/main-fs6.c:798-867 | that block yields exactly this user's configuration |
| Fs6Downlink.AppendDlUser | openairinterface5g/executables/main-fs6.c:1079-1131 | appends one block with the user's fields, its length and its packed bits, and no assertion fires |
| Fs6Downlink.DlUserDelivered | openairinterface5g/executables/main-fs6.c:768-797 | the receiver gets the fields and 1 for every positive coded bit, 0 for the others |
| Fs6Downlink.AppendControlChannels | openairinterface5g/executables/main-fs6.c:1133-1175 | one list block with exactly the due control channels, each once and in order; with none due not a byte changes, and the subframe header never does |
| Fs6Downlink.DueAre | openairinterface5g/executables/main-fs6.c:1149-1172 | the elements of that list are those of the due channels, each once and in order, and of no other |
| Fs6Downlink.ControlDeliveredExactly | openairinterface5g/executables/main-fs6.c:868-872 | a control channel list arrives as sent if and only if it has at most one element; otherwise the first is applied repeatedly |
| Fs6Downlink.DistributedUnit.RcvFs6Dl | openairinterface5g/executables/main-fs6.c:761-879 | the parser takes over every received payload once, in buffer order |
| Fs6EndToEnd.SoftBitsArrive | openairinterface5g/executables/main-fs6.c:1435-1437 | from soft bits to soft bits: segmentation, chain, datagrams, arrival in any order, receiveSubFrame, buffer and parse leave the sender's soft bits up to the last whole symbol at the receiver, with the number of coded bits, ACK and CQI fields, and power and timing advance of the user, whatever other blocks the subframe has |
| Fs6EndToEnd.DeliverUplink | openairinterface5g/executables/main-fs6.c:1435-1437 | chain, datagrams, any arrival, buffer and parse together apply exactly the arrived blocks in order of arrival |
| Fs6EndToEnd.DeliverDownlink | openairinterface5g/executables/main-fs6.c:1464-1464 | the same from CU to DU |
| Fs6EndToEnd.ConfigsArrive | openairinterface5g/executables/main-fs6.c:1464-1464 | from configurations to configurations: any sequence of scheduled uplink users, downlink users and control channel lists with at most one channel due, appended, sent, arriving in any order, received and parsed, leaves exactly what was meant, each user, each scheduled uplink and each due channel and no other, one by one in order of arrival |
| Fs6EndToEnd.DeliverSignalling | openairinterface5g/executables/main-fs6.c:886-890 | for any delivery the distributed unit reads the subframe's signalling from what the send buffer held behind the common header of the block that arrived first |
| Fs6EndToEnd.SignallingPreservedExactly | openairinterface5g/executables/transport_split.c:175-175 | that is the signalling the central unit wrote, whatever the buffer held before, if and only if block 0 arrived first |
| BitPack.Pack | openairinterface5g/executables/main-fs6.c:156-166 | the vector code packs each eight bytes into one, most significant bit first, a bit telling whether the byte is positive |
| BitPack.Unpack | openairinterface5g/executables/main-fs6.c:135-153 | the table code writes each packed bit as one byte in the same order |
| BitPack.UnpackOfPack | openairinterface5g/executables/main-fs6.c:135-166 | unpacking after packing is the identity on 0 and 1 and otherwise gives 1 exactly for positive bytes, at every length |
| BitPack.PackOfUnpack | openairinterface5g/executables/main-fs6.c:135-166 | packing after unpacking gives the packed bytes back |
| Fs6Prach.IndicatedExactly | openairinterface5g/executables/main-ocp.c:564-606 | on a PRACH subframe the indication is written, with preamble, delay and time, exactly when the counter is 100 and the energy above noise plus threshold, and noise and counter then stay; otherwise the indication stays and the noise is filtered |
| Fs6Prach.CounterBounds | openairinterface5g/executables/main-ocp.c:604-615 | over any sequence of subframes the counter never falls and never passes 100, and nothing at all changes without a PRACH occasion |
| Fs6Prach.Enb.UlCuFs6 | openairinterface5g/executables/main-fs6.c:1491-1495 | the central unit behaves like the monolithic procedure on the time and detection read from the received buffer |
| Fs6Prach.DistributedUnit.UlDuFs6 | openairinterface5g/executables/main-fs6.c:1421-1437 | every datagram carries the timestamp, the content type, its number and their count; the first one, on a PRACH subframe, the detection; every other one, and the first on any other subframe, a second header that is what the buffer held before, whatever blocks are appended |
| Fs6Prach.SplitSubframe | openairinterface5g/executables/main-fs6.c:168-316 | for any delivery, the state after detect, send, deliver, collect and decide is that of the monolithic procedure on the second header of the datagram that arrived first; collecting is complete with as many datagrams as announced |
| Fs6Prach.SplitPreservesExactly | openairinterface5g/executables/transport_split.c:175-175 | that is the monolithic outcome, for all states the eNB can be in and all earlier buffer contents, if and only if block 0 arrived first or the subframe has no PRACH occasion |
| Fs6Prach.AnotherPreamble | openairinterface5g/executables/transport_split.c:175-175 | a run that fails, for every energy above the threshold: after 100 silent occasions and with another block first, the central unit reports a random access with a preamble nobody detected |
| PrachNoise.Attraction | openairinterface5g/executables/main-ocp.c:602-602 | with averages in [lo, hi] each noise update brings the estimate nearer to [lo - 16, hi] until inside, from any start and through any indications |
| PrachNoise.EntersAndStays | openairinterface5g/executables/main-ocp.c:602-602 | after as many updates as its distance the estimate is in the interval and remains there |
| PrachNoise.MarginIsTight | openairinterface5g/executables/main-ocp.c:602-602 | the margin of 16 cannot be smaller: an estimate can rest there forever |
| PrachNoise.WarmUp | openairinterface5g/executables/main-ocp.c:564-605 | from a zero counter the first 100 occasions are noise updates and leave the indication as it was |
| PrachNoise.IndicationNeedsHundred | openairinterface5g/executables/main-ocp.c:564-605 | every indication has at least 100 noise updates before it |
| TimingMeas.CompareOrders | openairinterface5g/targets/RT/USER/lte-hwlat2.c:227-231 | the 64-bit difference cut to int orders values below 2^31 correctly |
| TimingMeas.CompareExactly | openairinterface5g/targets/RT/USER/lte-hwlat2.c:227-231 | the comparison orders all values up to a bound, in both directions of sorting, if and only if the bound is below 2^31 |
| TimingMeas.Meas.UpdateTimesReset | openairinterface5g/executables/main-fs6.c:83-106 | for all 64-bit times each report shows the average of all samples since the reset, from a sum modulo 2^64, and, if all are below 2^31, their ten extreme values with the filler; whatever their size, only values entered are shown; then everything starts over |
| TimingMeas.TopIsUnique | openairinterface5g/executables/main-fs6.c:91-96 | the list of ten extremes in sorting order is determined by the samples |
| TimingMeas.FirstMinReportIsZero | openairinterface5g/targets/RT/USER/lte-hwlat2.c:266-266 | in min mode the first report shows zeros whatever the samples, and these are the ten smallest samples if and only if at least ten samples are 0 |
| CeRepetition.IsPrachSubframe | openairinterface5g/openair1/PHY/LTE_TRANSPORT/prach_common.c:384-395 | bit i + 1 of the mask is set exactly for enabled CE levels with an occasion |
| CeRepetition.PrachVarsBr.OcpRxPrachBr | openairinterface5g/executables/main-ocp.c:463-485 | each call adds one occasion to exactly the active levels, runs the detector once for each of those, in order, and keeps counter and first frame in step with the occasions |
| CeRepetition.GroupsOfExactlyN | openairinterface5g/executables/main-ocp.c:471-482 | occasions are cut into consecutive groups of exactly the configured length, the stored frame is the group's first, and the counter is cleared by the last of a group only |
| CeRepetition.RunOccasions | openairinterface5g/executables/main-ocp.c:463-485 | after any run of calls each level has seen exactly the frames in which it was active, and its counter is what the increments and clears of that many occasions make of it |
| CeRepetition.BoundedExactly | openairinterface5g/executables/main-ocp.c:480-482 | the counter is bounded over all runs if and only if the configured length is at least 1; it is then below that length, and else equals the number of occasions |
| SymbolGather.RadioUnit.SouthAsynchIn | openairinterface5g/executables/nr-ru.c:405-442 | a normal exit happens exactly at the first packet completing the 14 symbols, with all packets from the expected frame and slot, which the very first packet ever sets; a stray packet exits; the last packet read is remembered |
| SymbolGather.NorthIn | openairinterface5g/executables/nr-ru.c:453-465 | the exit is at the first packet after which exactly the symbols 0 to 13 have been named |
| SymbolGather.NorthExitsExactly | openairinterface5g/executables/nr-ru.c:465-465 | that is coverage if and only if no packet names a symbol beyond them |
| SymbolGather.FreshSymbolsCount | openairinterface5g/executables/nr-ru.c:439-441 | the number of missing symbols falls by one with each fresh symbol only, and reception is complete at 0 |
| StatusQueue.AlwaysFramed | openairinterface5g/ci-scripts/cls_oaicitest.py:1526-1532 | in every interleaving of any number of processes the queue is whole records plus the part put so far by the lock holder |
| StatusQueue.NeverStuckExactly | openairinterface5g/ci-scripts/cls_oaicitest.py:1009-1030 | until all processes have been joined some process can take a step, in every interleaving, if and only if all records together fit into the pipe |
| StatusQueue.EndsStuck | openairinterface5g/ci-scripts/cls_oaicitest.py:937-950 | otherwise every run ends with a process waiting for room in the pipe with the lock in its hand |
| StatusQueue.Collect | openairinterface5g/ci-scripts/cls_oaicitest.py:1851-1864 | the consumer splits a queue of whole records into exactly those records, and its verdict is the one on all statuses |
| StatusQueue.VerdictIsConjunction | openairinterface5g/ci-scripts/cls_oaicitest.py:1030-1040 | after the join all statuses in the queue are non-negative if and only if every process reported success, and it is empty only if none had anything to report |
| StatusQueue.Judge | openairinterface5g/ci-scripts/cls_oaicitest.py:1028-1044 | processes, queue and consumer together: the attach verdict is OK if and only if something was reported and every process reported success |
| HandoverLog.AnalyzeLog | openairinterface5g/ci-scripts/ran.py:840-864 | there is exactly one list of handovers recognised one behind the other up to the end of the log, and the counters are the numbers of its incoming and outgoing ones |
| HandoverLog.ChainsDisjoint | openairinterface5g/ci-scripts/ran.py:840-864 | chains lie on disjoint, non-interleaved stretches, and lines inside a chain do not go backwards |
| HandoverLog.ChainsUnique | openairinterface5g/ci-scripts/ran.py:840-864 | the counted chains are determined by the log |
| HandoverLog.CountedExactly | openairinterface5g/ci-scripts/ran.py:840-864 | of the handovers complete in a log exactly those are counted at whose start marker no handover followed before is still open, where a start marker is followed by the same rule |
| HandoverLog.InterleavedIsMissed | openairinterface5g/ci-scripts/ran.py:840-846 | an outgoing handover complete in the log inside an incoming one is not among the counted ones |

## Left out

- The `AssertFatal` of `get_next_downlink_slot` inside the pipeline: `DoHold` and `Init` use the search result; `GnbSearchesExactly` says on which tables the assertion never fires, and on the others the pipeline's results hold up to the slot at which the process exits.
- Pushing onto a cut queue writes into an element that has been freed: the model takes that write as having no effect on anything else.
- The pool without threads (`noThreads`) and the NFAPI PNF mode of the NR scheduler: the pool always has at least one worker.
- Start-up of `ru_thread`, the settling branch behind `initial_wait` (always 0) and the frame offset of radio units other than the first.
- Extended cyclic prefix: `nr_init_frame_parms` always sets the normal one.
- Buffer capacity: appends require room for the resulting chain and content below 2^16 bytes, as the header comment demands; only `appendFs6DLUE` checks room at all, and less than it uses.
- The fields inside the large FS6 structures: both machines use one layout, so they are byte strings here; only the fields the code reads to find its way are decoded.
- LTE reception statistics, decoding after reassembly, and everything the physical layer computes: the detector result and the PRACH calendar are parameters.
- The second PRACH pass with the br flag inside the procedures compared by `SplitSubframe`; its repetition counting is in `CeRepetition`.
- SplitSubframe: models the datagrams of one subframe arriving at a receiver that has kept none; datagrams of several subframes are the matter of `ReceiveSubFrame`.
- The socket's wrong-content-type abort and socket errors are outcomes of `ReceiveSubFrame`, with no claim about what follows them.
- TimingMeas.Meas.UpdateTimesReset: takes the elapsed time as given, converted to 64 bits as the assignment does; that the extremes are right is promised for samples below 2^31 only, for which alone the comparison is an order. The library sort is modelled by an insertion sort with the same comparison function.
- A put into the status queue is one step that needs room for the whole item; the partial write of an item that does not fit is not modelled, and what an item takes of the pipe is a parameter.
- Exceptions and signals in the CI processes, and the text of their messages.
- Loops without a collection property (`fh_if4p5_south_in`, `fh_if4p5_north_asynch_in`), sockets, RF devices, configuration readers, logging and the remaining CI scripts: plumbing without a stateful core.
