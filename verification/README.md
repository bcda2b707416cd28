# Verification of the PAwR slot protocol

A Dafny model of the firmware in this repository: one advertiser that hands out response slots of a Bluetooth
periodic advertising train, the scanners that register in them, and the messages in between, each signed with
HMAC-SHA256 and numbered by a counter. `dafny verify dfyconfig.toml` checks everything.

## Reading guide

The model has two halves, tied together by proof.

*Steps on values.* `AdvertiserModel` and `ScannerModel` give each device's callbacks and state functions as
functions on its state; `SystemModel` puts one advertiser, any number of scanners and a network together.
Runs are sequences of states and steps of any length, and the theorems about them are:

| question | where |
|---|---|
| Is a scanner that believes it is registered registered? | `Confirmation` |
| Is every message of a steady advertiser accepted? | `NoFalseRejection` |
| What does a reboot do to the counters, and when do scanners follow again? | `CatchUp`, `Overtaking`, `LateAdvert` |
| Does every slot have exactly one role, and how many slots are used? | `SlotPartition`, `Conservation`, `HighWater`, `GridBound` |
| Which slots does the allocator give out? | `AllocatorRuns` |
| What do owner, silence count and ack of a slot mean? | `SlotHistory` |
| How do the counter and the rollover develop? | `CounterRuns`, `EnvelopeEnds`, `LateAnswer` |
| Was what a scanner counts as delivered accepted, and what did it set out for? | `Delivery` |
| What does a scanner's state say about its past? | `ScannerRuns`, `ScannerOutcomes`, `RetryBudget` |
| Where do lost slots go, and is what is advertised on offer? | `Releases`, `AnnouncementLaws` |
| Which subevents does a call serve? | `ServingLaws` |
| What do the bytes say? | `Wire`, `WireLaws`, `WireLayout`, `Frames` |

*The code in place.* The classes `Advertiser`, `Scanner`, `FreeList`, `SecureCounter` and `Buf` have the fields,
arrays and loops of the C code, and take and produce bytes. Each method is proved to compute what the step
functions say (`Advertiser.RequestCb` and `ResponseCb`, `Scanner.RecvCb`, `ScanRecvCb`, `RunState` and so on).
`CallRuns` shows that every sequence of calls is a run: of the advertiser, as long as no response of id 0 verifies,
and of a scanner, as long as the generator fires only while it runs and verified advertisements offer slots.

## Assumptions

- **Atomic steps.** A callback is one step, except that `request_cb` is one step for its head and one for each
  subevent, with no response in between. A state function is one step up to where it waits and one from its
  semaphore take to its return; `confirming` also sleeps before it installs its callback. Stale events stay possible: a semaphore left given, and `ack_recv_cb` still installed after ENABLED
  goes to SYNCING.
- **Network.** Messages may be lost, delayed, repeated and reordered, and anything that does not verify may arrive
  anywhere. Only what a device has signed verifies under its key, a response arrives in the slot it was sent in,
  and an accepted subevent message arrives marked with the subevent it was built for. Messages keep their kind: a
  subevent message is never heard as an advertisement, nor an advertisement received as a subevent message, although
  both are signed under one key without a tag that tells them apart. `FrameLaws` shows that the bytes then mean what
  was sent. Build order and fixed subevents are hypotheses of `NoFalseRejection` only.
- **Keys.** Advertiser and scanners hold matching keys. `MIN_SCANNER_KEY_ID + id - 1` names no key for id 0, since
  scanner ids start at 1 (`Kconfig:23-28`).
- **Stored counters.** At first no scanner has stored a counter above the advertiser's; the flasher stores 0 in all
  of them (`crypto_flasher/src/main.c:36-37`). Scanners never store theirs again.
- **Clean steps.** The partition theorem holds on runs whose steps, since the latest start-up, stay out of two branches of
  `response_cb`: a verified response in an empty slot that is not on offer, and a failed verification in a slot without
  an owner. `Clean` says exactly which, `PartitionStep` proves that it is neither too strong nor too weak for one step,
  and `SlotIssuedTwice` shows a run outside it. Everything else about slots holds on all runs.
- **Widths.** Slot and subevent numbers, silence counts and ticks wrap as bytes, the reading wraps at 32 bits, and four
  bytes of the counter are stored. The counter itself is unbounded: it is taken to stay below 2^64, and below 2^32
  where a theorem speaks of reboots.
- **Parameters.** Grid size, number of register slots, capacity of the free list and retry limit are arbitrary, with at
  least one register slot and fewer of them than slots in a subevent.

## Where the code and its documentation differ

- `README.md:151-159` promises that scanners follow an advertiser that was rebooted with its button. From the third visit
  to subevent 0 on, this is true of the counters scanners hold at the reboot, or at any later moment p, but not always
  of those they hold when an advertisement arrives: a scanner that takes the message of a visit to subevent 0 is
  then ahead of the advertisement of that visit, since the message carries the counter plus the rollover and the
  advertisement the counter alone. `ThirdSweepRejected` is such a run, and `AcceptedUnlessOutdated` gives the exact
  condition.
- Nothing in the code keeps the bump pointer inside the grid. `OffersFitTheGrid` says when it stays there; beyond, the
  code puts slots on offer in which no response can arrive, and they stay on offer (`OutsideIsStuck`).
- The comment on `confirm_recv_cb` speaks of going back to registering; the code goes to SYNCING, and no transition
  enters REGISTERING (`RunDiscipline`).
- The comment on `register_recv_cb` describes a random choice of slot; the code makes it in `parse_adv_data`.

## Model

| member | source | states |
|---|---|---|
| Confirmation.ConfirmationIsSound | scanner/src/scanner_fsm.c:304-366 | a scanner that goes from CONFIRMING to SLEEPING had sent a response in slot l, which the advertiser then accepted there; at the next visit to that subevent the scanner still owned l and the advertiser built a message; that message the scanner took, with l's number selected until now; l is the selected slot when messages stay on their subevent |
| Delivery.DeliveryIsSound | scanner/src/scanner_fsm.c:480-485 | the same for every delivery: a scanner that goes from ENABLED to SLEEPING had sent a response in slot l, which the advertiser accepted there; at the next visit to that subevent the scanner still owned l and the advertiser built a message; that message the scanner took, with l's number selected until now |
| Delivery.ConfirmingWasOffered | scanner/src/scanner_fsm.c:394-446 | a scanner that goes from SYNCING to CONFIRMING has, since it began to scan, heard a report without data to check or an advertisement that is on the air and not too old, with the sync created and the scan stopped; in the second case its selected slot is one that advertisement offers |
| Confirmation.AckedWasTaken | advertiser/src/advertiser_fsm.c:134-163 | whoever a subevent message acks in a slot owned that slot when the message was built, and had a response accepted there since the previous visit, with no reboot in between |
| Confirmation.TakenWasSent | advertiser/src/advertiser_fsm.c:205-245 | whatever the advertiser credits to a device in a slot, that device has signed for that slot, with the same counter |
| Confirmation.HeardWasBuilt | scanner/src/scanner_fsm.c:322-358 | a message that acks a scanner was built by a visit to its subevent that acked the scanner |
| Confirmation.AwaitedWasHeard | scanner/src/scanner_fsm.c:646-669 | a confirmation event waiting to be consumed comes from a reception in the same wait that acked the scanner in the slot still selected |
| NoFalseRejection.EveryMessageVerifies | lib/transfer/transfer.c:50-56 | from any state p on, in any boot and whatever happened before: while the advertiser does not reboot and visits its subevents in turn, a scanner that accepts an advertisement built since p and then hears messages in build order, with any losses, verifies every subevent message it receives |
| NoFalseRejection.LaterIsNewer | advertiser/src/advertiser_fsm.c:113-163 | from any state p of a boot on, a subevent message is strictly newer than any earlier one of its subevent and at least as new as any earlier advertisement, among those built since p |
| NoFalseRejection.AlwaysExplained | scanner/src/scanner_fsm.c:506-528 | the counter a scanner holds is that of an advertisement it took, or at most one above that of a message of the subevent it listens to |
| CatchUp.NobodyFarAhead | advertiser/src/advertiser_fsm.c:348-352 | across any number of reboots of either side, while c fits the stored four bytes, nothing on the air exceeds c + 1 and no scanner counter exceeds c + 2 |
| CatchUp.ThirdSweepIsAccepted | advertiser/src/advertiser_fsm.c:127-131 | an advertisement built at or after the third visit to subevent 0 since any moment p of the same boot is not below the counter any scanner held at p |
| OvertakingLaws.AcceptedUnlessOutdated | scanner/src/scanner_fsm.c:379-390 | when such an advertisement reaches a scanner that was on since p, it is accepted if and only if the scanner has since received no message with a larger counter and answered none with the same counter |
| OvertakingLaws.AcceptedAfterTwoSweeps | scanner/src/scanner_fsm.c:379-390 | in particular it is accepted if whatever the scanner has received since p was built at least two visits to subevent 0 before it |
| OvertakingLaws.SweepsOutnumber | advertiser/src/advertiser_fsm.c:113-163 | an advertisement exceeds a message built n visits to subevent 0 earlier in its boot by at least n - 1 |
| LateAdvert.ThirdSweepRejected | advertiser/src/advertiser_fsm.c:127-163 | the condition is needed: in a run of the whole system without reboots, a scanner that was on all the time rejects an advertisement built at the third visit to subevent 0, because it took that visit's message, lost its sync and scanned again |
| CatchUp.TakingOvertakesAdvert | scanner/src/scanner_fsm.c:304-366 | every scanner that waits for its confirmation and takes the message of a visit to subevent 0 rejects that visit's own advertisement after it has lost its sync and scans again; each step of that path can happen |
| OvertakingLaws.CounterMoves | scanner/src/scanner_fsm.c:506-528 | exactly where each step leaves the scanner's counter: at a verified message's counter, plus one if it was answered, and nowhere else |
| CatchUp.EnvelopeInService | advertiser/src/advertiser_fsm.c:113-131 | in every run of the whole system, from any state p on and as long as its boot lasts, T(p) + n <= T <= T(p) + 1 + 2n after n visits to subevent 0, because scanners only echo |
| CatchUp.EnvelopeIsTight | advertiser/src/advertiser_fsm.c:113-131 | the extra 1 is not needed if and only if no response with counter c(p) + 1 is accepted before the first visit to subevent 0 since p and before the rollover of p is folded |
| CatchUp.EnvelopeOfFirstBoot | advertiser/src/advertiser_fsm.c:113-131 | it is never needed from start-up to the first reboot |
| LateAnswer.AnswerOutlivesReboot | advertiser/src/advertiser_fsm.c:206-208 | it is needed after a reboot: a run in which a response that was under way when the button was pressed takes T up by one with no visit at all |
| CatchUp.NothingExceedsSent | scanner/src/scanner_fsm.c:331 | from any state of a boot on, every response on the air and every subevent message carries at most the highest counter that was on the air then or sent since |
| SystemInvariant.FormedStep | advertiser/src/advertiser_fsm.c:178-248 | whatever the network does, every step of the system keeps all state and everything on the air well formed |
| SystemInvariant.BoundedStep | lib/transfer/transfer.c:50-56 | every step of the system keeps all counters within two of the advertiser's |
| SystemInvariant.ArrivalsAreLegal | advertiser/src/advertiser_fsm.c:206-208 | the assumption that id 0 never verifies excludes no response a scanner can sign |
| SystemHistory.TransmittedShape | scanner/src/scanner_fsm.c:331-341 | every response on the air answers one subevent message, carries that message's counter, and stays on its subevent |
| SystemHistory.BuiltShape | advertiser/src/advertiser_fsm.c:159-163 | a subevent message carries c + r of the state its visit leads to, an advertisement carries c alone |
| SystemModel.AdvRun | advertiser/src/advertiser_fsm.c:106-248 | the advertiser's part of a run of the system is a run of the advertiser, so everything proved of those holds here |
| SlotPartition.PartitionStep | advertiser/src/advertiser_fsm.c:134-248 | a step keeps the partition of the grid into reserved, advertised, free, occupied, leaked and fresh slots if and only if it registers no device in a slot that is neither on offer nor leaked and frees no unowned slot that is not leaked, unless the free list is full |
| SlotPartition.RegisterKeeps | advertiser/src/advertiser_fsm.c:222-240 | registering in an advertised slot keeps the partition |
| SlotPartition.RegisterMoves | advertiser/src/advertiser_fsm.c:222-240 | it gives that slot its owner and changes no other entry; exactly its place among the slots on offer goes to the newest freed slot, or if there is none to the next fresh one |
| SlotPartition.EmptySlotTaken | advertiser/src/advertiser_fsm.c:222-235 | a verified response in an empty slot that is not on offer keeps the partition only if that slot was leaked |
| SlotPartition.EmptySlotFreed | advertiser/src/advertiser_fsm.c:209-216 | a failed verification in an empty slot keeps the partition exactly if the free list is full or the slot was leaked |
| SlotPartition.AgeKeeps | advertiser/src/advertiser_fsm.c:134-148 | ageing a subevent keeps the partition, whether or not the free list has room for what expires |
| SlotPartition.BootPartitioned | advertiser/src/advertiser_fsm.c:389-393 | start-up establishes the partition, with the bump pointer at index 2k |
| Releases.ReleasedIsReturned | advertiser/src/advertiser_fsm.c:138-148 | whenever an owner loses its slot, by silence or by a failed verification, the slot is on the free list afterwards, or the free list is full and the slot is leaked |
| Releases.LeakIsLoss | advertiser/src/advertiser_fsm.c:144-147 | a slot leaks only as its owner loses it and finds the free list full |
| Releases.LeakedMeansLost | advertiser/src/advertiser_fsm.c:144-147 | on every run a leaked slot was lost by its owner since start-up in a step that ended with a full free list, and nobody has owned it since |
| Releases.RefusedIsFreed | advertiser/src/advertiser_fsm.c:209-217 | a response that fails verification leaves its slot without an owner and on top of the free list, owned before or not, unless the list is full; counters and offers stay |
| Releases.AcceptedOwns | advertiser/src/advertiser_fsm.c:218-246 | a verified response moves the counter to its own, takes an empty slot, stays in its sender's slot, changes nothing else in somebody else's, and renews the advertisement, twice if it takes the slot |
| Releases.VisitAges | advertiser/src/advertiser_fsm.c:134-148 | a visit adds one in a byte to the silence of each slot of its subevent and takes a slot from its owner when that makes more than nine; other slots stay |
| SlotPartition.NthFreshIndex | advertiser/src/advertiser_fsm.c:375-382 | the n-th slot the two-byte bump pointer hands out is grid index k + n, until the subevent byte overflows |
| HighWater.PartitionHolds | advertiser/src/advertiser_fsm.c:367-387 | on every run whose steps have been clean since start-up, the partition and the slot count hold, and the bump pointer is at exactly 2k + the peak number of registered and leaked slots |
| HighWater.OffersFitTheGrid | advertiser/src/advertiser_fsm.c:367-387 | on such a run all slots on offer are slots of the grid if and only if 2k + that peak fits in it |
| GridBound.PointerStaysBounded | advertiser/src/advertiser_fsm.c:367-387 | on every run, clean or not, the bump pointer has left the grid by at most the number of slots on offer outside it |
| GridBound.OutsideIsStuck | advertiser/src/advertiser_fsm.c:229-235 | a slot on offer outside the grid stays on offer until the next reboot |
| GridBound.StepDraws | advertiser/src/advertiser_fsm.c:229-235 | what each step does to the bump pointer and to the advertised slots |
| AnnouncementLaws.AdvertRenewed | advertiser/src/advertiser_fsm.c:250-263 | start-up, a visit to subevent 0 and an accepted response leave the air with exactly the slots then on offer and the counter then held; no other step advertises |
| AnnouncementLaws.AdvertIsCurrent | advertiser/src/advertiser_fsm.c:236-238 | on every run of the system the last advertisement names the slots on offer, with the counter as it is or as it was before the latest fold |
| HighWater.AdvertisedIsAvailable | advertiser/src/advertiser_fsm.c:222-240 | on such a run every slot on offer is unowned, unreserved, not free, not fresh, and on offer only once |
| HighWater.SlotIssuedTwice | advertiser/src/advertiser_fsm.c:209-216 | without that hypothesis it fails: one failed verification in an advertised slot and one registration put the same slot on offer twice |
| Conservation.CountStep | advertiser/src/free_list.c:11-39 | clean steps conserve slots: the bump pointer has passed exactly 2k + free + registered + leaked of them |
| Conservation.BumpOnlyWhenDry | advertiser/src/advertiser_fsm.c:370-382 | the bump pointer moves only when no freed slot is available |
| Conservation.BootCounted | advertiser/src/advertiser_fsm.c:389-393 | the count holds at start-up |
| AllocatorRuns.PointerIsIndex | advertiser/src/advertiser_fsm.c:367-387 | after any run the two-byte bump pointer is the linear index of the slots drawn since start-up, and its subevent byte has not overflowed |
| AllocatorRuns.FreshIssuedOnce | advertiser/src/advertiser_fsm.c:367-387 | within a boot fresh slots are issued in row-major order, the n-th being index k + n, and none twice |
| AllocatorRuns.StepIsStackMove | advertiser/src/free_list.c:11-39 | every step pushes on the free list or takes its newest slot, and takes one exactly when it issues one while the list is not empty |
| AllocatorRuns.StackBelowIsKept | advertiser/src/free_list.c:11-39 | over a run, whatever lies below the lowest level of the free list is untouched |
| AllocatorRuns.NewestFreedIsIssued | advertiser/src/advertiser_fsm.c:367-371 | of the slots freed and not yet issued again, the newest is issued first, over any run |
| FreeLists.FreeList.Append | advertiser/src/free_list.c:11-25 | pushes on the abstract stack, or returns -1 and changes nothing when it is full |
| FreeLists.FreeList.Pop | advertiser/src/free_list.c:27-39 | pops the newest entry, or returns -1 when there is none |
| SlotHistory.AckLedger | advertiser/src/advertiser_fsm.c:134-158 | in every run a subevent message acks a device in a slot if and only if it owned the slot and had a response accepted there since the previous visit |
| SlotHistory.IdleIsSilence | advertiser/src/advertiser_fsm.c:136-148 | the silence count of an occupied slot is the number of visits since its last accepted response and is at most 9 |
| SlotHistory.OwnersAreSeparated | advertiser/src/advertiser_fsm.c:136-245 | in every run a slot passes from one device to another only through a release |
| SlotHistory.OwnerAfter | advertiser/src/advertiser_fsm.c:136-245 | a slot is released exactly by a failed verification there, by the tenth visit in a row without an accepted response, or by a reboot |
| SlotHistory.SlotFollowsBeat | advertiser/src/advertiser_fsm.c:134-245 | a slot's owner and silence count depend on nothing but the events in that slot |
| SlotHistory.AckReadsSlot | advertiser/src/advertiser_fsm.c:149-157 | the ack sent for a slot is computed from its entry after ageing |
| CounterRuns.CounterEnvelope | advertiser/src/advertiser_fsm.c:113-131 | from any state p of a boot, if responses only echo counters up to a floor or sent since: r is 0 or 1, nothing sent exceeds T, and after n visits to subevent 0 T is at least T(p) + n and at most 2n above the larger of floor and c(p) plus r(p) |
| CounterRuns.DebtIsBounded | advertiser/src/advertiser_fsm.c:206-208 | why two per sweep suffice although a response before the fold makes the rollover count twice |
| CounterRuns.TwoSufficeUnlessEarly | advertiser/src/advertiser_fsm.c:206-208 | T stays within 2n of T(p) from p on if and only if no response that is one above c(p) comes before the first visit to subevent 0 and the fold of the rollover of p |
| EnvelopeEnds.UpperEnd | advertiser/src/advertiser_fsm.c:113-131 | for every n there is a run of one boot, with echoing responses, that reaches T0 + 2n after n visits to subevent 0 |
| EnvelopeEnds.LowerEnd | advertiser/src/advertiser_fsm.c:113-131 | and one that reaches T0 + n |
| CounterRuns.ClockRises | advertiser/src/advertiser_fsm.c:113-159 | neither c nor T ever decreases in one boot, and T grows by at least one per visit to subevent 0 |
| CounterRuns.RolloverIsABit | advertiser/src/advertiser_fsm.c:113-128 | the rollover is 0 or 1 between steps |
| CounterRuns.SweepsCatchUp | advertiser/src/advertiser_fsm.c:113-131 | after n visits to subevent 0 the counter itself has grown by at least n - 1 |
| CounterRuns.VisitsRise | advertiser/src/advertiser_fsm.c:125-159 | when subevents are visited in turn, T strictly rises between two visits of the same subevent |
| Clocks.ClockFollowsTick | advertiser/src/advertiser_fsm.c:113-208 | every step moves c and r as its tick says |
| RequestCalls.VisitsAreDistinct | advertiser/src/advertiser_fsm.c:123-126 | one call of request_cb visits no subevent twice, whatever start and count are |
| ServingLaws.CallServes | advertiser/src/advertiser_fsm.c:123-126 | a call visits the subevent asked for first, then the others in turn, none twice, as many as asked for up to all of them, and all of them if that many are asked for |
| ServingLaws.PacketsServe | advertiser/src/advertiser_fsm.c:165-171 | the same of the subevents for which the call hands over messages |
| RequestCalls.RequestIsLegal | advertiser/src/advertiser_fsm.c:106-176 | every step of a call can happen in a run: subevent 0 is visited only with an empty rollover, and subevents come in turn |
| CallRuns.StepExtendsRun | advertiser/src/advertiser_fsm.c:178-248 | a run of the advertiser goes on with any step that can happen |
| CallRunLaws.RequestExtendsRun | advertiser/src/advertiser_fsm.c:106-176 | a run of the advertiser goes on with a whole call of request_cb, whatever the host asks for |
| ScannerCallRuns.CallExtendsScannerRun | scanner/src/scanner_fsm.c:757 | a run of a scanner goes on with any callback or state function that can come next |
| SystemRuns.SystemGoesOn | advertiser/src/advertiser_fsm.c:106-248 | a run of the whole system goes on with any step of any device that can happen |
| Advertisers.Advertiser.constructor | advertiser/src/advertiser_fsm.c:58-99 | the tables, counters, buffers and free list the firmware has in memory before init runs; the messages fit their buffers if and only if advertisement_data_t is at least 2k + 9 bytes long and a subevent has at most 105 slots |
| FrameLaws.AdvertFits | advertiser/src/advertiser_fsm.c:78 | a signed advertisement fits a buffer of that struct and a hash exactly under this condition: for the 16 bytes of a 32-bit target, with at most 3 slots on offer |
| Advertisers.Advertiser.ReserveSlot | advertiser/src/advertiser_fsm.c:367-387 | the newest freed slot, else the bump pointer, as the model's Reserve |
| Advertisers.Advertiser.AgeEntry | advertiser/src/advertiser_fsm.c:134-157 | one iteration of the ageing loop on the tables is the model's, and yields the slot's ack |
| Advertisers.Advertiser.AgeSubevent | advertiser/src/advertiser_fsm.c:134-158 | the whole loop is the model's ageing, and its acks are those of the resulting table |
| Advertisers.Advertiser.VisitSubevent | advertiser/src/advertiser_fsm.c:125-175 | one iteration over subevents is the Visit step, and hands over exactly the bytes of the step's messages |
| Advertisers.Advertiser.VisitNext | advertiser/src/advertiser_fsm.c:125-175 | a call that has made i visits makes the next one, on the next subevent in turn, and its messages follow the earlier ones |
| Advertisers.Advertiser.RequestCb | advertiser/src/advertiser_fsm.c:106-176 | a call is the Fold step followed by its Visit steps, hands over the bytes of their messages in order, and does so for exactly the subevents the host asked for |
| Advertisers.Advertiser.PeekSender | advertiser/src/advertiser_fsm.c:190-205 | a response is read without its hash and counter, and the buffer is restored byte for byte |
| Advertisers.Advertiser.CheckResponse | advertiser/src/advertiser_fsm.c:206-208 | verification under the key of that sender succeeds exactly on an accepted response, and only then moves the counter |
| Advertisers.Advertiser.Replace | advertiser/src/advertiser_fsm.c:229-235 | the first advertised entry equal to the slot is replaced by a newly reserved one; without such an entry nothing changes |
| Advertisers.Advertiser.Register | advertiser/src/advertiser_fsm.c:222-235 | a verified response takes over an empty slot |
| Advertisers.Advertiser.RejectAt | advertiser/src/advertiser_fsm.c:209-217 | a failed verification frees the slot, owned or not |
| Advertisers.Advertiser.AcceptAt | advertiser/src/advertiser_fsm.c:218-246 | what a verified response does to the tables, and the advertisements it causes |
| Advertisers.Advertiser.ResponseCb | advertiser/src/advertiser_fsm.c:178-248 | on any byte string, a call is the step the bytes mean, and hands over the bytes of that step's messages |
| Advertisers.Advertiser.SetAdvData | advertiser/src/advertiser_fsm.c:250-263 | when the buffer is big enough, the advertisement on offer is the encoding of the current slots and c, signed |
| Advertisers.Advertiser.InitBufs | advertiser/src/advertiser_fsm.c:389-393 | the k slots behind the reserved ones are put on offer |
| Advertisers.Advertiser.Init | advertiser/src/advertiser_fsm.c:267-333 | start-up reaches the model's initial state with the stored counter, and advertises it |
| Advertisers.Advertiser.SoftReboot | advertiser/src/advertiser_fsm.c:348-352 | the low four bytes of c are stored |
| Advertisers.Restart | advertiser/src/advertiser_fsm.c:335-352 | commit, cold start and initialisation together are the Reboot step |
| SecureCounters.CommitThenInit | lib/crypto/crypto.c:31-65 | a counter read back after a commit is v modulo 2^32: the identity exactly for v < 2^32 |
| SecureCounters.SecureCounter.Init | lib/crypto/crypto.c:31-46 | the stored bytes replace the low bytes of the value; without any, a given random value is taken and stored |
| SecureCounters.SecureCounter.Commit | lib/crypto/crypto.c:48-65 | four bytes are stored, the size of the storage id |
| SecureCounters.Reboot | lib/crypto/crypto.c:31-65 | the same over a commit, a cold start and an init on one flash |
| WireLaws.SubeventRoundTrip | lib/transfer/transfer.c:67-76 | serialize, sign, verify, deserialize gives back every subevent message of 2R + 2A + 40 bytes, and the counter, for any receiver not ahead of it |
| WireLaws.AdvertRoundTrip | lib/transfer/transfer.c:59-65 | the same for advertisements, of 2k + 41 bytes |
| WireLaws.ReplyRoundTrip | lib/transfer/transfer.c:85-92 | the same for responses, with payloads up to 255 bytes, of data_len + 47 bytes |
| WireLaws.SealedVerifies | lib/transfer/transfer.c:24-57 | a message sealed under a key verifies under it, giving back the body, if and only if the receiver's counter is not above the sent one |
| WireLaws.VerifiedIsSealed | lib/transfer/transfer.c:24-57 | conversely every message that verifies is its remaining body sealed with the counter taken |
| WireLaws.VerifyOutcome | lib/transfer/transfer.c:24-57 | on every byte string: success exactly with a matching hash and a counter not below, only trailing bytes consumed, counter unchanged on failure |
| WireLaws.ReplyParse | lib/transfer/transfer.c:128-138 | a response decodes exactly if it is long enough, and what was consumed is the encoding of what was read |
| WireLaws.SubeventParse | lib/transfer/transfer.c:105-118 | the same for subevent messages |
| WireLaws.AdvertParse | lib/transfer/transfer.c:94-103 | the same for advertisements, which re-encode to the whole message exactly when 2k + 1 bytes were there |
| WireLayout.SubeventLayout | lib/transfer/transfer.c:67-76 | where each ack and the counter stand in a subevent message |
| WireLayout.AdvertLayout | lib/transfer/transfer.c:59-65 | where each slot, their number and the counter stand in an advertisement |
| WireLayout.ReplyLayout | lib/transfer/transfer.c:85-92 | where id, reading, payload, its length and the counter stand in a response |
| WireLaws.PeekNeeds | advertiser/src/advertiser_fsm.c:191-202 | a response is read at all exactly if it has 47 bytes and as many more as its length byte says |
| WireLaws.PeekIsAuthentic | advertiser/src/advertiser_fsm.c:190-208 | if a message verifies under the key of the sender read from it beforehand, what was read is exactly what was sealed under that key |
| WireLaws.PeekOfSigned | advertiser/src/advertiser_fsm.c:190-203 | what is read beforehand from a message covering the encoding of a response is that response |
| Words.FromLeOfLe | lib/transfer/transfer.c:145-147 | little-endian bytes of v read back as v modulo 256^n |
| Words.LeOfFromLe | lib/transfer/transfer.c:149-153 | every byte string is the little-endian form of what it reads as |
| FrameLaws.ResponseArrives | advertiser/src/advertiser_fsm.c:190-208 | the bytes of a scanner's response are to the advertiser an authentic response of that scanner, slot and counter, when the key MIN_SCANNER_KEY_ID + id - 1 is the scanner's |
| FrameLaws.KeysAreApart | advertiser/src/advertiser_fsm.c:207-208 | scanner 1 has the first scanner key, and no two scanners are checked under the same key |
| FrameLaws.DataArrives | scanner/src/scanner_fsm.c:322-340 | the bytes of a subevent message are to a scanner the acks and the counter that were sent |
| FrameLaws.AdvertArrives | scanner/src/scanner_fsm.c:379-390 | the bytes of an advertisement are to a scanner the slots on offer and the counter that were sent |
| FrameLaws.VerifiesIsVerify | lib/transfer/transfer.c:50-56 | the counter check of the scanner model is verify_message on the bytes |
| FrameLaws.AcceptedIsVerify | advertiser/src/advertiser_fsm.c:206-208 | acceptance in the advertiser model is verify_message on the bytes under key MIN_SCANNER_KEY_ID + sender - 1 of the sender peeked at |
| Transfer.SignMessage | lib/transfer/transfer.c:9-22 | appends 32 bytes, the hash of what was there if the key exists |
| Transfer.VerifyMessage | lib/transfer/transfer.c:24-57 | on a buffer, the outcome, the remaining bytes and the new counter of the specification |
| Transfer.SerializeAdvert | lib/transfer/transfer.c:59-65 | appends the encoding and the counter |
| Transfer.SerializeSubevent | lib/transfer/transfer.c:67-76 | appends the encoding and the counter |
| Transfer.SerializeReply | lib/transfer/transfer.c:85-92 | appends the encoding and the counter |
| Transfer.DeserializeAdvert | lib/transfer/transfer.c:94-103 | pulls the entries from the front, as specified on every byte string |
| Transfer.DeserializeSubevent | lib/transfer/transfer.c:105-118 | takes acks, then entries, off the end, as specified on every byte string |
| Transfer.DeserializeReply | lib/transfer/transfer.c:128-138 | takes the fields off the end, as specified on every byte string |
| Transfer.ReadLocsBack | lib/transfer/transfer.c:112-116 | the entry loop either reads the list that stands at the end or stops with less than one entry left |
| Transfer.ReadIdsBack | lib/transfer/transfer.c:108-110 | the ack loop reads the list that stands at the end |
| Transfer.DeserializeLoc | lib/transfer/transfer.c:155-160 | one entry off the end, slot number first |
| Building.BuildReply | scanner/src/scanner_fsm.c:517-519 | reset, serialize and sign leave exactly the response's frame |
| Building.BuildAdvert | advertiser/src/advertiser_fsm.c:254-256 | reset, serialize and sign leave exactly the advertisement's frame |
| Building.BuildSubevent | advertiser/src/advertiser_fsm.c:161-163 | reset, serialize and sign leave exactly the subevent message's frame |
| ScannerRuns.RunDiscipline | scanner/src/scanner_fsm.c:646-744 | in every run the data generator runs exactly in SLEEPING and ENABLED, REGISTERING is never reached, and whoever is there has completed a confirmation since it last synced |
| ScannerOutcomes.TransitionFollowsCause | scanner/src/scanner_fsm.c:646-744 | in every run the state after a wait in CONFIRMING, SLEEPING or ENABLED is determined by the last thing that woke the FSM: unverified message, ack, tick limit, termination or new data |
| ScannerOutcomes.OtherTransitions | scanner/src/scanner_fsm.c:565-592 | every other way from state to state |
| ScannerOutcomes.CallbackLeft | scanner/src/scanner_fsm.c:646-744 | which receive callback each way out of a wait leaves installed, ack_recv_cb on the way from ENABLED to SYNCING included |
| ScannerOutcomes.AlwaysListens | scanner/src/scanner_fsm.c:646-709 | in every run the scanner listens for its confirmation while it waits in CONFIRMING, and in ENABLED for its ack until that has come |
| ScannerOutcomes.VisitStartsFresh | scanner/src/scanner_fsm.c:646-709 | a visit to CONFIRMING or ENABLED starts with all its ticks |
| ScannerOutcomes.SleepMeansDelivered | scanner/src/scanner_fsm.c:480-485 | whoever goes from ENABLED to SLEEPING has received, while in ENABLED and with the same slot selected, a verified message that acks it there |
| ScannerOutcomes.GiveUpMeansTried | scanner/src/scanner_fsm.c:487-491 | a pending DIDNT_RECEIVE_ACK in ENABLED means that at least CONFIG_MAX_UNCONFIRMED_TICKS messages were handled since the ticks were cleared and none acked the scanner |
| ScannerOutcomes.GiveUpIsExact | scanner/src/scanner_fsm.c:487-491 | exactly that many, and all that the visit handled, if each event is consumed before the next message |
| ScannerOutcomes.ForgedReportIgnored | scanner/src/scanner_fsm.c:380-384 | a report with data that does not verify changes nothing |
| ScannerOutcomes.SyncIsGiven | scanner/src/scanner_fsm.c:414-445 | the FSM is told to leave SYNCING exactly by a report that has no data to check or verifies, with the sync created and the scan stopped |
| ScannerOutcomes.ConfirmingMeansFound | scanner/src/scanner_fsm.c:565-592 | in every run a scanner that goes on to CONFIRMING has heard such a report since it began to scan |
| ScannerOutcomes.EverySlotCanBePicked | scanner/src/scanner_fsm.c:388-390 | each slot on offer is picked by some random byte |
| ScannerOutcomes.ResponseSays | scanner/src/scanner_fsm.c:448-528 | in every run a response goes to the subevent of the message it answers and the slot picked last; it carries the scanner's id, that message's counter and the number of readings so far modulo 2^32, and in ENABLED the latest payload |
| ScannerOutcomes.AnswersWhenItShould | scanner/src/scanner_fsm.c:339-354 | a verified message without an ack is always answered while confirming, and while sending exactly if a tick is left |
| ScannerRuns.NoFaultMeansConfirmed | scanner/src/scanner_fsm.c:304-366 | a pending NO_FAULT event in CONFIRMING always comes from a reception in the same wait that acked this scanner in the slot it still has selected |
| ScannerRuns.ResponsesAreFresh | scanner/src/scanner_fsm.c:465-497 | each response echoes the counter of the message it answers, response counters strictly increase over a whole boot, and whatever verifies later carries a larger counter |
| ScannerRuns.CounterRises | scanner/src/scanner_fsm.c:506-528 | a scanner's counter never decreases until it is switched off |
| ScannerInvariant.DisciplineHolds | scanner/src/scanner_fsm.c:565-755 | the invariant behind this, kept by every callback and every state function |
| ScannerInvariant.NoFaultStep | scanner/src/scanner_fsm.c:349-358 | one step of the confirmation argument: a pending NO_FAULT was pending before, or this reception set it |
| ScannerInvariant.AnswerStep | scanner/src/scanner_fsm.c:506-528 | a response carries the counter of the message just verified and leaves the scanner's counter above it |
| ScannerInvariant.CounterStep | lib/transfer/transfer.c:50-56 | a scanner's counter never goes back, and moves only to a verified counter or to one above |
| RetryBudget.RetriesAreBounded | scanner/src/scanner_fsm.c:339-354 | if each event is consumed before the next message, CONFIRMING answers at most CONFIG_MAX_UNCONFIRMED_TICKS times per visit and ENABLED once less |
| RetryBudget.TickStep | scanner/src/scanner_fsm.c:475-497 | each handled message uses a tick or ends the wait, and nothing else in a visit touches the ticks |
| Scanners.Scanner.constructor | scanner/src/scanner_fsm.c:180-212 | power-up with the stored counter read back |
| Scanners.Scanner.SetRspData | scanner/src/scanner_fsm.c:506-528 | the bytes of the response, for the selected slot of the current subevent, and one more on the counter |
| Scanners.Scanner.TakeMessage | scanner/src/scanner_fsm.c:323-337 | verifying and reading the acks agree with the model's reading of the bytes |
| Scanners.Scanner.Confirm | scanner/src/scanner_fsm.c:323-358 | the rest of confirm_recv_cb is the model's, with the response it sends |
| Scanners.Scanner.Acknowledge | scanner/src/scanner_fsm.c:465-497 | the rest of ack_recv_cb is the model's, with the response it sends |
| Scanners.Scanner.RecvCb | scanner/src/scanner_fsm.c:448-504 | on any byte string, the installed callback is the model's Receive step and hands over its response, for the selected slot and signed under the scanner's own key; what does not verify under the advertiser's key is not answered; an empty or missing message does nothing |
| Scanners.Scanner.ParseAdvData | scanner/src/scanner_fsm.c:368-392 | manufacturer data that does not verify changes nothing; data that verifies and offers at least one slot moves the counter and selects one of the slots on offer |
| Scanners.Scanner.ScanRecvCb | scanner/src/scanner_fsm.c:394-446 | data that does not verify under the advertiser's key changes nothing; an advertisement that verifies moves the counter and the selected slot; the FSM is told to go on if a sync was created and scanning stopped |
| Scanners.Scanner.TermCb | scanner/src/scanner_fsm.c:248-263 | the fault is overwritten by the kind of termination, the FSM is woken, and nothing else changes |
| Scanners.Scanner.DataGeneratedCb | scanner/src/scanner_fsm.c:746-755 | the reading goes up by one modulo 2^32, the next response carries it and the payload, the fault is overwritten and the FSM woken |
| Scanners.Scanner.Syncing | scanner/src/scanner_fsm.c:565-592 | each leg of the state function, up to its wait and from its semaphore take to its return, makes exactly the transition RunSyncing gives for the pending event, and changes nothing else |
| Scanners.Scanner.Confirming | scanner/src/scanner_fsm.c:646-669 | each leg of the state function, up to its wait and from its semaphore take to its return, makes exactly the transition RunConfirming gives for the pending event, and changes nothing else |
| Scanners.Scanner.Sleeping | scanner/src/scanner_fsm.c:671-702 | each leg of the state function, up to its wait and from its semaphore take to its return, makes exactly the transition RunSleeping gives for the pending event, and changes nothing else |
| Scanners.Scanner.Enabled | scanner/src/scanner_fsm.c:704-744 | each leg of the state function, up to its wait and from its semaphore take to its return, makes exactly the transition RunEnabled gives for the pending event, and changes nothing else |
| Scanners.Scanner.RunState | scanner/src/scanner_fsm.c:757 | dispatch on the state is the model's Run step |

## Left out

- Bluetooth host and controller: scanning, creating and deleting syncs, enabling and disabling reception, and setting data
  appear only as results that may be good or bad, and as events; `default_sync` and the sync parameters are not modelled.
- HMAC-SHA256 and PSA: a hash is any deterministic function of key and message; key import is not modelled.
- SecureCounters.SecureCounter.Init: how the source composes a value from random bytes, which is a parameter here, and errors
  of the key store other than a missing counter.
- Failures of `crypto_init` and of the counter's storage: both devices then go to FAULT_HANDLING, as with the other start-up failures.
- `fault_handling` of the advertiser: it commits and reboots as the button does, so it is the same Reboot step.
- Advertisers.Advertiser.SetAdvData: what happens when the advertisement does not fit its buffer. The constructor states when it
  does; the firmware's 48 bytes on a 32-bit target are too few for the default k of 5.
- Advertisers.Advertiser.SendAcks: one buffer stands for the array of 46; what the host does with the earlier ones is not modelled.
- Scanners.Scanner.ScanRecvCb: advertisements without sync information, and data that verifies but does not decode, offers no
  slot, or offers one whose number no subevent has. The advertiser builds no such advertisement, but its other messages are
  signed under the same key, and one of them heard as an advertisement could be such data.
- Scanners.Scanner.ParseAdvData: the same; on an offer of no slots the source divides by zero.
- Scanners.Scanner.RecvCb: callbacks interleaved with a state function between its semaphore take and its return.
- `registering` and `register_recv_cb`: no transition enters that state.
- `subevent_data_serialize` and `subevent_data_deserialize`: not called anywhere, and the case of no register entries of the ones that are.
- Wrap of the 64-bit counter.
- Mutexes, time, sync timeouts as such, and liveness: stale termination events can send CONFIRMING straight back to SYNCING.
- Payload contents, sensors, LEDs, buttons, logging, key management scripts and the flasher.
