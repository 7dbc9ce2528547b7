# Verification of the sequencing pipeline

A Dafny model of the pipeline in `src/`: intents pass an admission gate, wait in a sequencer's
buffer, are laid out in slots, attested, proven in batches and projected into receipts. The stages
share nothing but one append-only log, and any of them may crash and recover at any point.

`dafny verify dfyconfig.toml` checks everything.

## How it is put together

* **The ordering kernel.** `Ordering` merges submitters' queues by rank, `Domains` adds the
  nonce sort, `Slots` lays markets out. Each is characterised without reference to how it is
  computed (the least legal order, the one stable sort, the one layout), and `Kernel` holds the
  methods over maps of queues, proved to compute exactly that.
* **The log's meaning.** `History.WellFormed` says every entry is justified by the entries before
  it. It is the one invariant all stages keep together; `Ledger`, `Meaning` and `Statuses` draw
  the consequences: conservation, inclusion in time, nonce order, outcome ranges, evidence.
* **The stages.** `Admitting`, `Sequencing`, `Attesting`, `Proving` and `Projection` each give the
  stage's state, its recovery rule and steps as functions, an invariant tying that state to the
  log, and a class whose methods run the stage as the source does, proved against the functions.
* **The pipeline.** `Pipeline` interleaves everything: each append is its own step, so a crash can
  fall between a drop and its slot, or between proving and recording, and attester and prover
  recover in two steps, a scan and a head read, so that anything can happen in between. Every run
  keeps gate, sequencer and read model in agreement with the log (`RunKeepsCore`), so what `Ledger`
  says of orderly logs holds of every run. Every run without a raced start keeps the whole log
  well-formed and all stages in agreement with it (`RunKeeps`), so what `Ledger`, `Meaning` and
  `Statuses` say of well-formed logs holds there. `Runs` states what runs inherit, `Starts` and
  `FaultRuns` what a raced start does and which runs reach a fault, `Batches` where the prover cuts
  its batches, and `StageRuns` shows that each method of a stage is a run of that stage's steps.
* **Evidence.** `Intents`, `Attestation` and `Proofs` cover hashed preimages, the quote codec, the
  holder's check and the mock proof. Keccak-256 is a parameter of every theorem; a conclusion that
  depends on it reads "equal, or here is a collision".
* **The doorbell.** `Wakeups` separates pushing from ringing and shows no wake-up is lost.

Enclave and prover outages, clock readings, admission times and scheduling are free inputs of a
run: theorems hold for every choice of them.

## Where the code and its documentation differ

* src/sequencer.rs:39-40 says a submitter's own intents can never be reordered. That holds within
  a market. Across markets one slot may reverse them (`Runs.SlotReversesNonces`);
  `Slots.WholeSlotNonceOrderExactly` says exactly when it does not.
* README.md:187-189 says writing drops before the slot keeps an intent from being both dropped and
  committed. After a crash between the two and a clock set back it can be both
  (`Runs.ClockBackBreaksConservation`). `Ledger.CloseConflictsExactly` gives the exact condition
  for a close to do so, and `Runs.RunConserves` shows it never happens while the closing clock
  does not run backwards. `GuaranteeConfig` is taken to be the same in every incarnation.
* README.md:217-220 says every backend re-derives its statement from the ordered ids. The mock
  uses the recorded commitments (src/prove/mod.rs:292-294), so a proof is accepted for other ids
  recorded under the same commitment (`Proofs.OtherContentsAccepted`), exactly when the commitments
  agree (`Proofs.ProofCarriesExactly`); ids follow for genuine commitments
  (`Proofs.ProofPinsContents`).
* `recover_attester` and `recover_prover` scan the log and then ask for its head
  (src/attest.rs:251-273, src/prove/mod.rs:230-252). A start is raced when the head stands in for a
  slot the scan did not find and a slot was committed in between. `Attesting.AttesterResumesExactly`
  and `Proving.ProverResumesExactly` show resumption is right exactly when the start is not raced.
  A raced prover can always be brought to `SlotGap` or `MissingCommit` (`Starts.StartSafeExactly`),
  even at its first start on an empty log (`FaultRuns.FirstStartMisses`), but never writes an
  unjustified outcome. A raced attester passes over slots for good (`Starts.RacedAttesterSkips`),
  which stops the prover behind it (`FaultRuns.SkippedSlotGaps`).
* `flush` unwraps the first slot of its batch (src/prove/mod.rs:208-211). Without a raced start the
  prover can be brought to a fault if and only if batches have size zero
  (`FaultRuns.FaultsExactlyAtZero`).
* `deadline_for` adds in 64 bits (src/sequencer.rs:20-22). At the gate the sum can wrap, and then an
  intent whose window outlives it is admitted (`Admitting.OverflowAdmits`,
  `Admitting.PromiseMeetableExactly`). Runs are asked to keep the gate's clock in range; then no
  later sum can wrap (`Ledger.DeadlinesFit`).
* `run_projector` goes back to waiting when a read fails, its wake-up already spent
  (src/projection.rs:285-291). `Wakeups.FailedReadExactly` says when that loses an entry until the
  next ring; the in-memory log's reads do not fail.

## Model

| member | source | states |
|---|---|---|
| Intents.IdPreimageInjective | src/intent.rs:60-77 | The bytes hashed into an id determine every field of the intent, for any market names |
| Intents.IdIdentifies | src/intent.rs:58-77 | Two intents share an id exactly when they are the same or their preimages are a collision |
| Bytes.LEDigit | src/intent.rs:60-76 | Byte k of an encoded integer is its digit of weight 256 to the k |
| Intents.IdLayout | src/intent.rs:60-77 | Which bytes of the preimage are the tag, the submitter, the nonce, each market name and its length, and the fixed-width fields |
| Intents.TermsLayout | src/intent.rs:70-75 | Which of the last 43 bytes are side, size, slippage, fee, timestamp and deadline |
| Logs.TailSplits | src/log.rs:166-182 | A read is empty exactly at the head, and two reads, the second from where the first stopped, give what one read gives |
| Logs.MemLog.Append | src/log.rs:141-149 | The log gains one entry, its position is returned, the doorbell carries it and rings once |
| Logs.MemLog.AppendBatch | src/log.rs:150-165 | An empty batch is refused with nothing changed; otherwise all entries are added, the last position returned, one ring |
| Logs.MemLog.ReadFrom | src/log.rs:166-182 | Returns exactly the tail past the cursor |
| Ordering.MergeCharacterised | src/sequencer.rs:121-135 | A sequence is the greedy merge if and only if it is the least, by rank then address, of all interleavings of the queues |
| Ordering.RankInFields | src/sequencer.rs:57-64 | One intent ranks ahead of another if and only if it bids more, or as much and arrived earlier, or then has the id smaller at the first differing byte, or then the address |
| Ordering.MergeTakesWinnersExactly | src/sequencer.rs:121-135 | A sequence is the merge if and only if it keeps the queues and whatever is taken outranks every other submitter's next intent, field by field |
| Ordering.MergeElements | src/sequencer.rs:121-135 | The merge loses and duplicates nothing |
| Ordering.QueueOfMerge | src/sequencer.rs:110-136 | Every submitter's own intents come out in their queue's order, whatever anyone bids |
| Ordering.MergeIndependent | src/sequencer.rs:110-136 | Removing submitters from the input removes exactly their intents from the output |
| Ordering.RaisedNeverLater | src/sequencer.rs:57-64 | Ranking one intent higher never makes the merge take more intents before it |
| Ordering.PlaceLocates | src/sequencer.rs:121-135 | The number of intents taken before one is the index at which it appears |
| Ordering.FlatSortExactly | src/sequencer.rs:110-136 | The merge comes out in rank order if and only if no submitter's ranks run against its queue |
| Ordering.FlatSortUnique | src/sequencer.rs:57-64 | There is only one rank-ordered arrangement of given intents |
| Domains.StableSortCharacterised | src/sequencer.rs:117-119 | Sorting by nonce is the one nonce-ordered permutation that leaves equal nonces as they arrived |
| Domains.DomainOptimal | src/sequencer.rs:110-136 | With nonces distinct per submitter, an order is the domain's if and only if it is the least permutation keeping every submitter's nonce order |
| Domains.DomainTakesWinners | src/sequencer.rs:110-136 | With nonces distinct per submitter, an order is the domain's if and only if it keeps every submitter's nonce order and whatever is taken outranks every other submitter's next intent, field by field |
| Domains.NeighboursRank | src/sequencer.rs:57-64 | Of two neighbours of different submitters, the first has the higher fee, or the same and the earlier arrival, or then the smaller id |
| Domains.DomainDeterministic | src/sequencer.rs:110-136 | With nonces distinct per submitter, the order does not depend on the order of arrival in the buffer |
| Domains.DomainIsFlatExactly | src/sequencer.rs:110-136 | The domain is the flat sort by rank if and only if no submitter's ranks run against its nonces |
| Domains.DomainIndependent | src/sequencer.rs:110-136 | Removing submitters leaves everyone else's relative order unchanged |
| Domains.RaisedBidNeverLater | src/sequencer.rs:57-64 | Bidding strictly more, under any new id, never moves an intent to a later index of its domain |
| Domains.EarlierArrivalNeverLater | src/sequencer.rs:57-64 | Neither does arriving earlier at the same bid |
| Slots.SlotCharacterised | src/sequencer.rs:102-108 | A sequence is the slot if and only if markets ascend and each market's part is that domain's order |
| Slots.SlotElements | src/sequencer.rs:102-108 | The slot holds exactly what was buffered |
| Slots.SlotAscendsInFields | src/intent.rs:18-22 | Along a slot the base asset ascends byte by byte, and the quote asset within one base |
| Slots.SlotNeighboursRank | src/sequencer.rs:57-64 | Of two neighbours of a slot on one market by different submitters, the first outranks the second, field by field |
| Slots.SlotDeterministic | src/sequencer.rs:102-136 | With nonces distinct per submitter and market, any permutation of the buffer gives the same slot |
| Slots.SlotIndependent | src/sequencer.rs:102-136 | Removing submitters from the buffer removes exactly their intents from the slot |
| Slots.SlotNonceOrder | src/sequencer.rs:110-119 | Within one slot a submitter's nonces ascend on each market |
| Slots.WholeSlotNonceOrderExactly | src/sequencer.rs:39-40 | They ascend over the whole slot if and only if no later nonce names an earlier market |
| Slots.CrossMarketReverses | src/sequencer.rs:102-108 | Any two intents on different markets come out in market order, whatever their ids, bids and nonces; one submitter's ascending nonces included |
| Slots.RaisedBidNeverLaterInSlot | src/sequencer.rs:57-64 | Bidding strictly more, under any new id, never moves an intent to a later index of its slot, which is the index a receipt reports |
| Kernel.GroupBySubmitter | src/sequencer.rs:113-116 | The map holds exactly each submitter's subsequence of the domain |
| Kernel.SortQueues | src/sequencer.rs:117-119 | Sorting every queue stably holds the queues of the stably sorted domain |
| Kernel.WinningHead | src/sequencer.rs:125-130 | The scan of the heads finds the submitter whose head ranks first, in whatever order the map is walked |
| Kernel.MergeQueues | src/sequencer.rs:123-135 | The loop of pops ends, with the ids of the merge |
| Kernel.OrderDomain | src/sequencer.rs:112-136 | Computes the domain's order |
| Kernel.OrderSlot | src/sequencer.rs:102-108 | Computes the slot's order |
| Kernel.PartitionExpired | src/sequencer.rs:144-160 | Splits a buffer, in order, into what is still inside its window and the misses with their deadlines |
| Attestation.CommitPreimageInjective | src/sequencer.rs:169-177 | The bytes hashed into a commitment determine the slot and its ordered ids |
| Attestation.CommitBinds | src/sequencer.rs:169-177 | Two commitments agree exactly when slot and ordered ids do, or the preimages are a collision |
| Attestation.CommitLayout | src/sequencer.rs:169-177 | Which bytes of the preimage are the slot, the count and each id |
| Attestation.QuoteLayout | src/attest.rs:27-39 | Which of the 82 bytes of a quote are the tag, the version, the slot, the commitment and the measurement |
| Attestation.SignatureLayout | src/log.rs:27-35 | The mock signature is the hash of its tag and then the signed bytes |
| Attestation.DecodeEncode | src/attest.rs:31-54 | Decoding an encoded quote gives back slot, commitment and measurement |
| Attestation.EncodeDecode | src/attest.rs:41-54 | Whatever decodes is byte for byte the encoding of what it decodes to |
| Attestation.AcceptedExactly | src/attest.rs:127-153 | A claim is accepted if and only if the ids reproduce its commitment and the quote and signature are the pinned build's over that slot and commitment |
| Attestation.MalformedExactly | src/attest.rs:127-136 | A claim is refused for its contents exactly when the ids do not reproduce its commitment, and as malformed exactly when they do and its quote encodes nothing |
| Attestation.QuoteVerdict | src/attest.rs:137-153 | Otherwise the verdict names the first of slot, commitment, build and signature that is wrong |
| Attestation.AcceptedContentsUnique | src/attest.rs:122-153 | One claim is never accepted for two contents, or under two pinned builds, without a collision |
| Attestation.RulingSound | src/attest.rs:225-243 | A slot is attested exactly when its commitment is genuine and the enclave answers, and the evidence then passes the holder's check; otherwise the failure says which |
| Proofs.ValidExactly | src/prove/mod.rs:334-351 | Any handle at all is valid for a batch if and only if it is, byte for byte, what proving that batch gives |
| Proofs.VerdictsExactly | src/prove/mod.rs:334-351 | Otherwise the verdict names the first of key, statement and proof bytes that differs from the honest handle |
| Proofs.HonestHandle | src/prove/mod.rs:287-330 | An honest handle holds the commitments in order, their hash, and the fixed key |
| Proofs.RefusesExactly | src/prove/mod.rs:318-322 | The mock refuses a batch exactly when one of its slots lies in a range it was told to fail, ranges being given low end first |
| Proofs.ProofCarriesExactly | src/prove/mod.rs:292-351 | A successful proof of one batch is valid for another if and only if their commitments agree in order; otherwise the statement is wrong |
| Proofs.OtherContentsAccepted | src/prove/mod.rs:292-351 | A proof of one slot's ids is valid for any other ids recorded under the same commitment |
| Proofs.ProofPinsContents | src/prove/mod.rs:311-351 | Over genuine commitments, a proof of one batch valid for another pins slots and ordered ids, or a collision is at hand |
| History.CommitsNumbered | src/sequencer.rs:223-231 | Committed slots are numbered 0, 1, 2 with no gap, each with its own genuine commitment |
| History.RulingsNumbered | src/attest.rs:213-246 | Rulings come one per slot, in slot order, each after its commit |
| Admitting.GateMeans | src/admission.rs:20-49 | The recovered gate knows an id exactly when the log admitted it, and a nonce is fresh exactly when it exceeds all the submitter's nonces in the log |
| Admitting.AdmitsExactly | src/admission.rs:51-94 | The gate admits exactly the well-formed intents whose deadline is not before its 64-bit sum of clock and window, and whose id and nonce are new to the log |
| Admitting.FirstFault | src/admission.rs:51-78 | Of several things wrong with an intent in itself the first is reported, with the values that show it: size, market, slippage over 10 000, deadline, window |
| Admitting.PromiseMeetableExactly | src/sequencer.rs:20-25 | An admitted intent's window ends by its own deadline if and only if that sum does not overflow |
| Admitting.OverflowAdmits | src/admission.rs:70-78 | When it overflows, the window is not checked: every well-formed unexpired intent new to the log is admitted |
| Admitting.ConflictsExactly | src/admission.rs:79-93 | An otherwise admissible intent is refused as a replay exactly when its id is in the log, else as stale exactly when its nonce does not pass the highest, which is reported |
| Admitting.AdmissionJustified | src/admission.rs:156-174 | What passes the check while the sum fits 64 bits is a justified next entry |
| Admitting.Admission.Recover | src/admission.rs:35-49 | The gate rebuilt in a loop is the replay of every receipt |
| Admitting.Admission.Note | src/admission.rs:103-107 | Records an id and raises the submitter's highest nonce |
| Admitting.Admission.AdmitAndAppend | src/admission.rs:156-174 | Rejects with the first failing reason and writes nothing, or appends one receipt; a gate that agrees with the log keeps agreeing |
| Ledger.ReceivedOnce | src/admission.rs:79-92 | No id is admitted twice and each submitter's nonces strictly ascend in log order |
| Ledger.BufferedNonces | src/admission.rs:82-92 | Any stretch of the log that can be buffered has distinct nonces per submitter: the premise of determinism, supplied by admission |
| Ledger.CommittedOnce | src/sequencer.rs:198-233 | An id is in at most one slot, at one index |
| Ledger.Accounted | src/sequencer.rs:208-231 | Every intent before the last `consumed_up_to` is in a slot or was dropped, through any crash |
| Ledger.UnconsumedUncommitted | src/sequencer.rs:223-231 | What no slot has consumed is in no slot |
| Ledger.Conservation | src/sequencer.rs:208-231 | While close times never go backwards, a consumed intent is committed if and only if it was not dropped |
| Ledger.BothMeansBackwards | src/sequencer.rs:213-221 | An intent both dropped and committed was dropped first, and its slot closed at an earlier reading of the clock |
| Ledger.CloseConflictsExactly | src/sequencer.rs:208-231 | A close commits something already dropped if and only if an unconsumed intent has a recorded drop whose deadline the closing clock has not passed |
| Guarantees.WindowIs | src/sequencer.rs:23-25 | The window is `max_slots` slot lengths, less a multiple of 2^64, and exactly that long if and only if that fits 64 bits |
| Guarantees.WindowGrows | src/sequencer.rs:23-25 | No slots give no window, and one more slot lengthens it by one slot length |
| Ledger.KeptExactly | src/sequencer.rs:144-160 | Of the intents a slot consumes, those that arrived no more than `max_slots` slot lengths before it closed are in it, and exactly the others were dropped before it |
| Ledger.CommittedInTime | src/sequencer.rs:144-160 | A committed intent's slot closed within its window, which ends by its own deadline |
| Ledger.DroppedLate | src/sequencer.rs:215-221 | A dropped intent was past the promised deadline when it was dropped, and the entry names that deadline |
| Ledger.DeadlinesFit | src/admission.rs:70-78 | Every admitted intent's promised deadline fits 64 bits |
| Ledger.NonceOrderOverRuns | src/sequencer.rs:110-136 | A submitter's nonces in an earlier slot lie below those in a later slot on every market, and ascend within a slot on each market |
| Ledger.SubmittedNoncesAscend | src/sequencer.rs:110-136 | The same of the nonces as the receipts in the log give them |
| Ledger.NeighboursOutbid | src/sequencer.rs:45-64 | Of two neighbours in a committed slot, on one market and by different submitters, the receipt of the first shows the higher fee, or the same and the earlier arrival, or then the smaller id |
| Ledger.MarketsAscendInSlot | src/sequencer.rs:102-108 | Along a committed slot the markets its intents named ascend, base before quote |
| Ledger.OutcomeRange | src/prove/mod.rs:156-197 | An outcome covers an unbroken run of at most a batch of attested slots, and only attest-failed slots are skipped before it |
| Ledger.RangesAscend | src/prove/mod.rs:208-227 | Outcome ranges are strictly increasing and disjoint |
| Ledger.PassedExactlyOne | src/prove/mod.rs:176-190 | Each slot the outcomes have passed is attest-failed or in an outcome range, never both |
| Ledger.SettledOnce | src/prove/mod.rs:208-227 | No slot is in two outcome ranges |
| Ledger.AttestationsVerify | src/attest.rs:127-153 | Every recorded attestation passes the holder's check against its slot's committed ids |
| Ledger.ProofsVerify | src/prove/mod.rs:334-351 | Every recorded proof is valid for the slots its range names |
| Sequencing.SequencerRecovers | src/sequencer.rs:78-99 | Recovery on any well-formed log resumes right after the last committed slot |
| Sequencing.SequencerUndisturbed | src/sequencer.rs:198-207 | Appends by other stages leave the sequencer's view true, even in the middle of a close |
| Sequencing.SequencerReads | src/sequencer.rs:200-207 | After reading, the buffer holds exactly the receipts no slot has consumed |
| Sequencing.SequencerAppends | src/sequencer.rs:213-231 | Each append of a close is justified when made, whatever was appended in between |
| Sequencing.Sequencer.Recover | src/sequencer.rs:78-99 | Cursor and next slot are the last commit's; a cursor past the head is a corrupt log |
| Sequencing.Sequencer.OnDoorbell | src/sequencer.rs:200-207 | The buffer gains every receipt from the cursor on, and the cursor reaches the head |
| Sequencing.Sequencer.AppendMisses | src/sequencer.rs:213-221 | The log gains one drop per miss, in order |
| Sequencing.Sequencer.AppendSlot | src/sequencer.rs:223-231 | The log gains the slot, with its order, commitment, cursor and close time |
| Sequencing.Sequencer.OnTick | src/sequencer.rs:208-232 | One close appends the misses and then the slot, and empties the buffer |
| Attesting.AttesterResumesExactly | src/attest.rs:251-274 | With the head read at any later point than the scan, recovery resumes at the first slot without a ruling if and only if it did not fall back on the head after a slot was committed in between |
| Attesting.AttesterSteps | src/attest.rs:213-246 | Reaching a slot appends its one ruling, justified whatever else was appended; other entries are passed over |
| Attesting.Attester.Recover | src/attest.rs:251-274 | The loop over the log computes the resumption point |
| Attesting.Attester.OnDoorbell | src/attest.rs:202-247 | One wake-up appends one ruling for each slot in the batch, in order, and moves past the batch |
| Proving.ProverResumesExactly | src/prove/mod.rs:230-252 | With the head read at any later point than the scan, recovery resumes at the first unproven slot with nothing missed if and only if it did not fall back on the head after a slot was committed in between; either way what the prover then writes is justified |
| Proving.ProverUndisturbed | src/prove/mod.rs:156-197 | Appends by other stages leave the prover's waiting, pending and flushing slots true |
| Proving.ProverSteps | src/prove/mod.rs:156-197 | Any next entry keeps the prover's invariant: after an unraced start no slot gap, no missing commit, no empty flush; after a raced one it may stop, but proves nothing it has not seen attested |
| Proving.ProverRecords | src/prove/mod.rs:208-227 | The outcome of a batch handed to the backend is justified whenever it is recorded, and settles exactly that batch |
| Proving.OutcomeReports | src/prove/mod.rs:208-224 | A flush that succeeds records a proof valid for its batch, one that fails records why, each with the batch's first and last slot |
| Batches.OutcomesAreWhole | src/prove/mod.rs:176-203 | In a run in which the flush timer never fires and no start of the attester is raced, every outcome covers a whole batch or ends right before a slot that failed attestation |
| Proving.PassedSlotsAccounted | src/prove/mod.rs:156-227 | Every slot below the next is exactly one of attest-failed, in an outcome range, or held for the next proof |
| Proving.DrainKeeps | src/prove/mod.rs:151-198 | Working off a whole batch never faults, and everything it appends is justified |
| Proving.Prover.Recover | src/prove/mod.rs:230-252 | The loop over the log computes cursor and next slot |
| Proving.Prover.Flush | src/prove/mod.rs:208-227 | Records the proof of everything pending or its failure; with nothing pending, faults and writes nothing |
| Proving.Prover.Process | src/prove/mod.rs:156-197 | One entry changes the prover and the log exactly as the step function says, its errors included |
| Proving.Prover.OnDoorbell | src/prove/mod.rs:151-198 | One wake-up works the batch off in order, stopping at a fault |
| Proving.Prover.OnTimer | src/prove/mod.rs:199-203 | The timer records an outcome for everything pending, or does nothing |
| Projection.CatchUpReplays | src/projection.rs:285-296 | However reads are batched, the read model is the replay of the prefix consumed |
| Projection.Projections.AssignSlot | src/projection.rs:115-120 | Every known id of a slot gets that slot and its index in 32 bits, later duplicates winning |
| Projection.Projections.MarkProven | src/projection.rs:137-157 | Exactly the preconfirmed slots of the range become proven, with the range as evidence |
| Projection.Projections.MarkFailed | src/projection.rs:165-180 | Exactly the known slots of the range become failed |
| Projection.Projections.Apply | src/projection.rs:73-183 | One entry updates rows and cursor as the fold says |
| Projection.Projections.OnDoorbell | src/projection.rs:285-296 | One wake-up brings the read model to the head of the log |
| Meaning.ReplayedSlots | src/projection.rs:98-181 | Each slot row of the read model says what the log's commit, ruling and outcome for that slot say |
| Meaning.ReplayedIntents | src/projection.rs:75-121 | Each intent row carries where the log received, placed and dropped that intent |
| Statuses.StageMeans | src/projection.rs:185-200 | Each stage of a slot is equivalent to a condition on rulings and outcome ranges |
| Statuses.LifecycleMeans | src/projection.rs:185-200 | Each lifecycle of an intent is equivalent to a condition on the consumed log |
| Statuses.StatusMeans | src/projection.rs:202-209 | A status is given for exactly the intents received, with that lifecycle, and with a slot exactly when the intent is in one, which is then that slot |
| Statuses.PlacedCannotDrop | src/sequencer.rs:213-221 | No justified drop names an intent already in a slot |
| Statuses.StatusMoves | src/projection.rs:73-200 | One more entry moves an intent along at most one transition, skipping no stage and leaving no final status |
| Statuses.StatusForward | src/projection.rs:185-200 | Consuming more of a log never takes an intent back |
| Statuses.ReceiptMeans | src/projection.rs:211-237 | A caught-up receipt reads met, missed, overdue or pending as the log has it, with the promised deadline, met no later than it and missed only after it |
| Statuses.ReceiptLifecycle | src/projection.rs:211-260 | A receipt is given for exactly the intents a status is and with its lifecycle: expired if and only if dropped, received if and only if in no slot, else what the ruling and outcome of its slot say, reason included; in no slot it has no position and no evidence |
| Statuses.EvidenceVerifies | src/projection.rs:239-274 | A receipt carries a preconfirmation exactly when the slot was attested and a proof exactly when it was proven, and both check out |
| Pipeline.StepKeepsCore | src/sequencer.rs:187-234 | Any step of any stage, however raced, keeps gate, sequencer and read model in agreement with the log, and their entries justified |
| Pipeline.RunKeepsCore | src/sequencer.rs:187-234 | The same for every run |
| Pipeline.BootKeeps | src/sequencer.rs:187-193 | Stages coming up on any well-formed log agree with it |
| Pipeline.StepKeeps | src/prove/mod.rs:138-206 | Any step of any stage that is not a raced start, crashes and both halves of each recovery included, keeps the whole log well-formed and all five stages in agreement with it; a raced start of the prover alone leaves the log well-formed |
| Pipeline.RunKeeps | src/prove/mod.rs:138-252 | The same for every run |
| Runs.ReachableCore | src/sequencer.rs:187-234 | Every run from an empty log ends with gate, sequencer and read model in agreement with the log |
| Runs.Reachable | src/prove/mod.rs:138-252 | Every run from an empty log without a raced start ends with a well-formed log that all five stages agree with |
| Runs.NeverFaults | src/prove/mod.rs:105-113 | No run from an empty log without a raced start reaches `SlotGap`, `MissingCommit` or an empty flush |
| Runs.NeverCorrupt | src/sequencer.rs:94-97 | No run at all makes a restarting sequencer find its log corrupt |
| Starts.StartSafeExactly | src/prove/mod.rs:230-252 | In any state a run without a raced start reaches, starting the prover is safe in every continuation without a raced start if and only if the start itself is not raced |
| Starts.RacedProverCanFault | src/prove/mod.rs:166-183 | After a raced start of the prover, some continuation with no further race ends in a fault |
| Starts.RacedAttesterSkips | src/attest.rs:255-273 | After a raced start of the attester, committed slots without a ruling are never ruled on, whatever follows, until it restarts |
| FaultRuns.FaultsExactlyAtZero | src/prove/mod.rs:194-211 | Some run without a raced start brings the prover to a fault if and only if batches have size zero |
| FaultRuns.FirstStartMisses | src/prove/mod.rs:245-252 | A run from an empty log in which the prover's first start is raced and ends in `MissingCommit` for slot 0 |
| FaultRuns.RestartOvertaken | src/attest.rs:267-273 | A run from an empty log after which restarting the attester is raced |
| FaultRuns.SkippedSlotGaps | src/prove/mod.rs:163-169 | The run goes on to `SlotGap` in a prover that was never raced itself |
| Runs.SlotReversesNonces | src/sequencer.rs:39-40 | Whenever the gate admits two intents of one submitter together, the later nonce on an earlier market, a run commits them in the opposite order |
| Runs.LogGrows | src/log.rs:96-106 | Whatever happens, the log only grows |
| Runs.RunConserves | src/sequencer.rs:208-231 | In every run, raced or not, whose closing clock does not go back, each consumed intent is in exactly one slot at one index, or dropped, never both |
| Runs.ClockBackBreaksConservation | src/sequencer.rs:213-221 | A crash between drop and slot and a clock set back give a run in which an intent is both |
| Runs.CloseDeterministic | src/sequencer.rs:208-231 | In every run, whatever order the buffer is held in, a close commits the same slot with the same commitment |
| Runs.StatusNeverBack | src/projection.rs:185-209 | Between two moments of a run without a raced start of the attester, unless the read model was rebuilt to an earlier point, every status stays or moves forward |
| Runs.QuietIsFinal | src/projection.rs:185-200 | In a run without a raced start, whenever all stages have worked off the log, every admitted intent is expired, proven or failed |
| StageRuns.TickIsRun | src/sequencer.rs:208-232 | A tick is a run of close and append steps |
| StageRuns.AttesterWakeIsRun | src/attest.rs:202-247 | A wake-up of the attester is a run of its steps |
| StageRuns.ProverWakeIsRun | src/prove/mod.rs:151-198 | A wake-up of the prover is a run of its steps |
| Wakeups.NoLostWakeup | src/log.rs:141-165 | As long as reads succeed, at every moment of every run an entry past a listening consumer has a ring to come or one unseen |
| Wakeups.FailedReadExactly | src/projection.rs:285-291 | A read that fails after its wake-up was spent loses nothing if and only if there was nothing to read, or a ring is outstanding or unseen |
| Wakeups.FailedReadSleeps | src/projection.rs:285-291 | A run in which a consumer so sleeps on an unread entry |
| Wakeups.SleepsOnlyWhenDone | src/attest.rs:194-211 | As long as reads succeed, a consumer with nothing left to wake it has read the whole log |
| Wakeups.SkippedMarkExactly | src/sequencer.rs:188-192 | Without arming the first wake-up a consumer sleeps on unread entries exactly when it resumes short of the head with no ring outstanding |

## Left out

- `RedbLog`, its encoding and its durability: the log is a sequence, refined by `MemLog`. A failed append is a crash before it.
- `src/api.rs`, `src/main.rs`, `src/receipt.rs`: HTTP, wiring and JSON. Receipts keep the fields that carry meaning.
- `src/testkit.rs`, `tests/`, `benches/`: not modelled.
- DeadlineFor: the sum is exact, as the sequencer and the projection use it; on deadlines that overflow 64 bits they are not modelled, and `Ledger.DeadlinesFit` shows a run in range has none. The gate's own sum wraps as the source's does in a release build; in a debug build it panics instead.
- Positions, slot numbers and lengths are unbounded; statements that encode a slot ask for it below 2^64.
- Keccak-256 is an arbitrary function to 32 bytes; nothing is assumed about it.
- Tokio's timers, threads and select: a tick, a wake-up or a restart may happen at any step a stage is between branches. Fairness and throughput are not modelled.
- The sequencer and the gate recover in one step: neither uses anything read after its scan but the head the sequencer compares with, which only grows.
- The mutex around admission is one atomic step.
- Restarting a stage forgets its state at any point, but the effect of a backend call that was never recorded is not represented beyond that.
- Receipt: the `max_slots` field, a constant of the configuration, is not carried.
- MockProve: the failure text is a fixed string, and the list of batches tried and the simulated delay are not kept.
- AttesterSteps: the enclave's failure text is any string; the mock's own wording is shortened in `Attester.OnDoorbell`.
- Runs.RunConserves: asks that close times never go backwards, because it is false otherwise (`Runs.ClockBackBreaksConservation`).
- Runs.NeverFaults: asks for a batch size of at least one and for no raced start, because it is false otherwise (`FaultRuns.FaultsExactlyAtZero`, `FaultRuns.FirstStartMisses`, `FaultRuns.SkippedSlotGaps`).
- Batches.OutcomesAreWhole: asks that the flush timer not fire, since a timer closes a batch of any length.
- Runs.StatusNeverBack: asks for no raced start of the attester, after which rulings skip a slot and the log is not well-formed.
- Runs.QuietIsFinal: asks for no raced start, after which a slot may stay unruled or the prover stop.
- Wakeups.NoLostWakeup: the consumer is any of the stages; its cursor is not tied to the cursors of the pipeline's steps, where a stage may read at any time without being woken.
- Domains.DomainOptimal: asks for distinct nonces per submitter, which `Ledger.BufferedNonces` proves of everything a sequencer can buffer.
