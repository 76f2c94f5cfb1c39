# Verification of the exam observer's stores, evaluator and authority protocols

This project models four parts of the observer in Dafny and proves what they promise.

* **The M1 metadata store** (`Lineage`, `M1*`). The SQL tables are a datatype of maps and sets, one
  transaction is one step, and a run is any sequence of calls. The specification functions say what
  each call does to the tables; the class `M1Backend` does it in place, between BEGIN and COMMIT or
  ROLLBACK, and is proved equal to them. The invariants then hold in every reachable store: the
  cached INVALIDATED status equals reachability over possibly cyclic edges, effects happen exactly
  once under retries, logs have no gaps, withdrawals are final. `M1Calls`, `M1ResearchCalls`,
  `M1WithdrawCalls`, `M1Effects` and `M1Repeats` say what each call answers and leaves behind in a
  reachable store, and what becomes of it later. `M1Quarantine` has the files that crash recovery
  moves, `M1R1` and `M1R1Calls` the schema-v3 mapping of reconciliation targets, `M1R1Recovery` the
  recovery of interrupted reconciliation and the migration readiness check.
* **The D1 evaluator and its verifier** (`D1*`). Every exit of the evaluator is a function of the
  request, the guard's answers and the lease's behaviour. The evaluator and the independent verifier
  are proved to agree exactly under a stated condition, every answer's code and a pass are
  characterised by counts of frames and samples, a receipt is proved to tell its request, and a
  privacy stop to reveal nothing. `D1Receipts` is about receipts of any origin. `D1Methods` holds the
  loops and the lease handling.
* **The bootstrap formats, installer and reader** (`Json`, `Records`, `Base64Url`, `Bootstrap*`).
  The ports of `BootstrapPorts` may fail before or after their effect, writes may leave anything
  behind, and the history of the disk is kept, so a stop at any moment is a prefix of it. How the
  two moves end is fixed in advance, so that what they decide can be stated exactly; and a steady
  world, in which nothing else fails, shows that each outcome is reached. Every port records its
  answer, so that the result of an install can be read off the last one. The disk invariant is that
  a published receipt always stands beside a bundle it vouches for; `BootstrapVerdicts` says what the
  reader's verdict means on any disk.
* **The schema-v3 authority store** (`Authority*`). The leaves hold bytes, a creation may be cut
  short anywhere, a replacement is atomic. The faults an operation meets are fixed in advance, one
  for every stage, and its contract determines the step of the life cycle and the answer from them;
  the theorems are about every history of such steps. `AuthorityBinding` says what a record digest
  binds, `AuthorityVerdicts` what an inspection says of any leaves.

Each specification function is written from the cited lines with the same order of checks. SHA-256
is an arbitrary function with hexadecimal results, equal arguments giving equal digests; that it has
no collisions is a hypothesis of the few results that say so. Signature verification is an arbitrary
predicate.

Where the code and what one might expect of it differ, the code is followed: a pass does not need
the encoder stages to have succeeded (`D1Witness.PassMayBeRefused`; a pass verifies exactly when
they have, `D1Contract.PassVerifiesIffStages`), an authority operation without an answer may have
made its step (`AuthorityTheorems.SilentReservation`; exactly when, `AuthorityTheorems.SilentStep`),
WRITE_FAILED may leave the receipt in place (`BootstrapTheorems.SilentPublication`; exactly when the
last move took effect unacknowledged, `BootstrapInstaller.Install`), and a privacy stop under a
lease whose release raises is not scrubbed (`D1Privacy.FailedReleaseIsNotScrubbed`).

## Model

| member | source | states |
|---|---|---|
| Lineage.LineageQuery | src/pdu_exam_observer/m1.py:1195-1207 | The recursive query of `withdraw` terminates on every dependency graph, cyclic ones included, and selects exactly the artifacts a path leads to from the roots. |
| Lineage.ClosureIsLeast | src/pdu_exam_observer/m1.py:1195-1207 | What the query selects is the least set that holds the roots and is closed under the dependency edges. |
| Lineage.EdgesFromOutside | src/pdu_exam_observer/m1.py:580-613 | Edges whose parent lies outside a lineage leave that lineage as it is, even if they close a cycle: this is why requiring valid parents keeps a withdrawn lineage fixed. |
| M1Invariants.StepKeeps | src/pdu_exam_observer/m1.py:580-1429 | One call of any operation, committed, refused or replayed, keeps the store invariant: links, shapes, gap-free logs, INVALIDATED equal to reachability, settled withdrawals and their remembered responses. |
| M1Invariants.RunKeeps | src/pdu_exam_observer/m1.py:580-1429 | The invariant holds after every sequence of calls. |
| M1Invariants.FirstWithdrawalSettles | src/pdu_exam_observer/m1.py:1170-1247 | The first withdrawal of a participant leaves exactly one task per lineage artifact under the subject session, every lineage artifact invalidated and every session of the participant withdrawn and blocked. |
| M1History.RunGrows | src/pdu_exam_observer/m1.py:671-735 | Over any calls rows are only added or moved forward: logged events, remembered slots, receipts, tasks, invalidated status and withdrawal are never taken back. |
| M1Theorems.InvalidatedIffReachable | src/pdu_exam_observer/m1.py:580-613 | In every reachable store an artifact is INVALIDATED if and only if a dependency path leads to it from an artifact of some withdrawn participant. |
| M1Theorems.WithdrawalIsFrozen | src/pdu_exam_observer/m1.py:1195-1247 | After a withdrawal every later state has the same lineage, the same tasks and the same receipt, and the reported task_count is the size of both. |
| M1Theorems.StatusCountsLineage | src/pdu_exam_observer/m1.py:1279-1303 | In every reachable store `withdrawal_status` says exactly that, and once it is terminal every later store gives the same reply. |
| M1Theorems.WithdrawalIsTerminal | src/pdu_exam_observer/m1.py:1191-1194 | WITHDRAWN and collection_blocked never revert, and a withdrawn participant never gets a new session. |
| M1Theorems.ResearchNeverRecords | src/pdu_exam_observer/m1.py:827-829 | No research session is ever in a recording state, on any run. |
| M1Theorems.NoResearchNoConsents | src/pdu_exam_observer/m1.py:1059-1076 | A reachable store without research sessions holds no consent receipt. |
| M1Identity.ReachableProper | src/pdu_exam_observer/m1.py:89-101 | In every reachable store codes, pseudonyms and receipt ids are unique, a session has at most one consent and every research session its one retention record; a research session belongs to its participant's study, is withdrawn exactly with its participant and at the same time, and is blocked exactly if it is withdrawn or failed; a demo session is never blocked and is started exactly from its recording on. |
| M1Theorems.EventsAfterIsSuffix | src/pdu_exam_observer/m1.py:858-871 | Per session the event numbers are exactly 1..event_seq, and `events_after(s, k)` is the log without its first k entries, for every integer k. |
| M1Theorems.LogIsAppendOnly | src/pdu_exam_observer/m1.py:671-695 | The log of a session is a prefix of its log in every later state. |
| M1Theorems.OnlyExecutionChanges | src/pdu_exam_observer/m1.py:706-735 | A refused or replayed call leaves the whole store unchanged; an executed one remembers its response and digest in a slot that was free. |
| M1Theorems.ExactlyOnce | src/pdu_exam_observer/m1.py:706-735 | Once a (scope, key) slot was executed, every later call on it replays the first response if the payload digest is equal and is refused otherwise, changing nothing, whatever calls came in between. |
| M1Theorems.WithdrawalIsCanonical | src/pdu_exam_observer/m1.py:1158-1266 | Withdrawal through any of the participant's sessions and under any key answers with one canonical response and never conflicts; it fails only if the new receipt id is taken. |
| M1WithdrawCalls.WithdrawCall | src/pdu_exam_observer/m1.py:1170-1266 | The first withdrawal marks the participant and each of the participant's sessions with one time, blocks those sessions, invalidates and tasks exactly the lineage, stores the one receipt, logs one event for the session of the call, and changes nothing else. |
| M1WithdrawCalls.OnlyChildWithdrawn | src/pdu_exam_observer/m1.py:1195-1207 | An artifact registered below a VALID parent is invalidated when its own participant withdraws; the parent then stays VALID unless it was in that participant's lineage before. |
| M1Effects.RegisterLineage | src/pdu_exam_observer/m1.py:1141-1156 | Registering an artifact adds it, VALID, to exactly the lineages of its own participant and of those whose lineage holds one of its parents, and changes no other lineage or table. |
| M1Effects.DependLineage | src/pdu_exam_observer/m1.py:580-590 | Adding an edge adds the child's lineage to exactly the lineages that hold the parent. |
| M1Effects.RegisteredFollows | src/pdu_exam_observer/m1.py:1152-1156 | A registered artifact follows each of its parents in every later store: when a parent is invalidated, in particular when its participant withdraws, it is INVALIDATED and in that lineage. |
| M1Effects.DependentFollows | src/pdu_exam_observer/m1.py:586-590 | The same for the two ends of an added edge. |
| M1ResearchCalls.WritableIffOpen | src/pdu_exam_observer/m1.py:751-765 | In a reachable store research records may be written exactly for a research session that is neither failed nor withdrawn and whose participant holds no receipt. |
| M1ResearchCalls.ParentIffValid | src/pdu_exam_observer/m1.py:593-613 | In a reachable store an artifact may be a parent exactly if it is registered and VALID: the further checks add nothing. |
| M1ResearchCalls.RegisterCall | src/pdu_exam_observer/m1.py:1141-1156 | Which of KeyError, InvalidTransition, IntegrityError or success `register_artifact` answers, in terms of the session, the parents' status, and whether the artifact is new and the parents are distinct. |
| M1ResearchCalls.DependCall | src/pdu_exam_observer/m1.py:580-590 | The same for `add_dependency`; an edge is stored once. |
| M1ResearchCalls.SessionCall | src/pdu_exam_observer/m1.py:1022-1057 | A session is opened as a draft for a participant of the study who holds no receipt, with its one retention record: the policy, or the end date, or PENDING. |
| M1ResearchCalls.ConsentCall | src/pdu_exam_observer/m1.py:1059-1090 | A consent is taken exactly in an open session: it is the session's only consent afterwards, other sessions keep theirs, a draft is confirmed, and the logged event names the version. |
| M1Calls.ActCall | src/pdu_exam_observer/m1.py:818-856 | An action on a demo session is applied exactly if it asks for the present state, which changes nothing, or for the next one, which is logged; a recording notes its start. Research sessions are always refused. |
| M1Calls.AnswerCall | src/pdu_exam_observer/m1.py:873-908 | A new answer is taken exactly while its session records and the exam is not submitted; its row and its event carry it, and nothing else changes. |
| M1Calls.SubmitCall | src/pdu_exam_observer/m1.py:910-938 | A new submission is taken exactly while recording and not submitted; a second one is a conflict. |
| M1Repeats.SecondCall | src/pdu_exam_observer/m1.py:706-735 | If the hash has no collisions, a later call on a slot that was executed replays the response exactly if it asks for the same thing of the same session, participant or study, and is a conflict if not. |
| M1Repeats.RetryIsReplayed | src/pdu_exam_observer/m1.py:706-735 | The same call again, under its key or under none, replays the first response and changes nothing. |
| M1Recovery.AnyOrder | src/pdu_exam_observer/m1.py:1385-1429 | Recovering a set of pending intents has one result, whatever their order. |
| M1Recovery.RecoveryOutcome | src/pdu_exam_observer/m1.py:1385-1429 | After a complete recovery every intent is quarantined, and every session that had a pending one is blocked: withdrawn if its participant holds a receipt, failed if not. Nothing else changes. |
| M1Recovery.RecoveryRestarts | src/pdu_exam_observer/m1.py:1385-1429 | Stopping recovery after any prefix and running it again on what is pending ends in the same store as one uninterrupted recovery. |
| M1DemoLog.DemoLogTellsTheRow | src/pdu_exam_observer/m1.py:818-938 | On any run whose appended events are not forged, the log of every demo session is lawful and replaying it yields the stored state, the submitted flag and the number of stored answers. |
| M1DemoLog.SubmittedOnceAndLast | src/pdu_exam_observer/m1.py:873-938 | In such a log the exam is submitted at most once, while recording, and no answer is recorded after it. |
| M1Backend.M1Backend.AppendSessionEvent | src/pdu_exam_observer/m1.py:767-773 | Appending an event takes the next number, or leaves the store as it was. |
| M1Backend.M1Backend.CreateStudy | src/pdu_exam_observer/m1.py:957-970 | Creating a study under a key has the effect and answer of its step; a taken code is refused and nothing remembered. |
| M1Backend.M1Backend.CreateParticipant | src/pdu_exam_observer/m1.py:972-994 | Same for a participant of an existing study. |
| M1Backend.M1Backend.CreateResearchSession | src/pdu_exam_observer/m1.py:996-1057 | Same for a research session and its retention record, refused for a withdrawn participant. |
| M1Backend.M1Backend.CreateIntent | src/pdu_exam_observer/m1.py:1374-1383 | Same for a write intent of a session that may be changed; the second check inside the transaction is redundant. |
| M1Backend.M1Backend.ApplySessionAction | src/pdu_exam_observer/m1.py:818-856 | The in-place action method has exactly the effect and answer of its step of the specification, rolling back on every refusal. |
| M1Backend.M1Backend.RecordAnswer | src/pdu_exam_observer/m1.py:873-908 | Same for recording an answer under an idempotency key. |
| M1Backend.M1Backend.SubmitExam | src/pdu_exam_observer/m1.py:910-938 | Same for submitting the exam. |
| M1Backend.M1Backend.ConfirmOperatorConsent | src/pdu_exam_observer/m1.py:1059-1090 | Same for the operator's consent confirmation. |
| M1Backend.M1Backend.RegisterArtifact | src/pdu_exam_observer/m1.py:1141-1156 | Same for registering an artifact, one row at a time: what the step answers and stores is `M1ResearchCalls.RegisterCall` and `M1Effects.RegisterLineage`. |
| M1Backend.M1Backend.AddDependency | src/pdu_exam_observer/m1.py:580-590 | Same for adding a dependency edge, which checks the parent's validity and no cycle: `M1ResearchCalls.DependCall`, `M1Effects.DependLineage`. |
| M1Backend.M1Backend.Withdraw | src/pdu_exam_observer/m1.py:1158-1266 | Same for withdrawal: the worklist query, the loop that invalidates rows and inserts tasks, the receipt and the remembered response amount to the specified step. |
| M1Backend.M1Backend.WithdrawalStatus | src/pdu_exam_observer/m1.py:1279-1303 | In a settled store the reply is terminal exactly for a withdrawn participant, then names the receipt and has task_count equal to the number of task rows and to the size of the lineage; otherwise task_count is 0. A session that is no research session is not found. |
| M1Backend.M1Backend.EventsAfter | src/pdu_exam_observer/m1.py:858-871 | The method returns the rows the specification selects, in order. |
| M1Backend.M1Backend.RecoverPendingIntents | src/pdu_exam_observer/m1.py:1385-1429 | Stopped after any number of transactions, after the move that follows, or at a file it is stuck with, the recovery loop has recovered exactly that prefix of its rows; no partial file is lost or overwritten, and none that could be used is left for a recovered row. |
| M1Quarantine.Storage.Quarantine | src/pdu_exam_observer/m1.py:1391-1410 | A usable partial file is moved to a free name out of eight; it is passed over exactly if it cannot be used, and recovery is stuck exactly if the directory fails, all names are taken or the rename fails. Nothing is overwritten and there are as many files as before. |
| M1R1.Run3Keeps | src/pdu_exam_observer/m1_r1.py:1020-1145 | In every v3 run edges stay inside sessions, each mapping row is bound to its own target, task, receipt and participant, and every target of a withdrawn participant is mapped. |
| M1R1.EveryTaskedTargetIsMapped | src/pdu_exam_observer/m1_r1.py:1109-1145 | Whenever a participant holds a withdrawal receipt, every reconciliation target of every tasked artifact has its one mapping row, bound to that task, receipt and participant. |
| M1R1.MappedOnlyIfWithdrawn | src/pdu_exam_observer/m1_r1.py:117-175 | A target is mapped only for the withdrawn owner of its artifact, under an existing task. |
| M1R1.HookNeverRefuses | src/pdu_exam_observer/m1_r1.py:1109-1145 | The v3 hook never makes a withdrawal fail: the foreign keys on mapping rows always hold. |
| M1R1Calls.SealCall | src/pdu_exam_observer/m2_persistence.py:520-558 | Sealing is refused unless the session is open, the parents are distinct, VALID artifacts of the same session other than the artifact itself; the artifact and its target must be new. |
| M1R1Calls.SealEffect | src/pdu_exam_observer/m2_persistence.py:910-952 | A sealed artifact is VALID, depends on exactly its parents, has its one target, and its sealing is logged; nothing else changes. |
| M1R1Calls.SealedFollows | src/pdu_exam_observer/m2_persistence.py:933-937 | In every later v3 store a sealed artifact is INVALIDATED if one of its parents is. |
| M1R1Calls.TargetIsMapped | src/pdu_exam_observer/m1_r1.py:1109-1145 | From its registration on, a target stays, and in every later store in which its artifact's participant holds a receipt it is mapped to that receipt and task, and the artifact is INVALIDATED. |
| M1R1Recovery.Reconciliation.Recover | src/pdu_exam_observer/m1_r1.py:824-858 | In one transaction each open run, in-progress target and open attempt is marked with its clock reading, an interrupted target's state_version rises by exactly one, every other row and the row sets stay equal, nothing looks open afterwards, and the reported count is the number of runs whose state changed. |
| M1R1Recovery.RecoveryIsIdempotent | src/pdu_exam_observer/m1_r1.py:824-858 | After the first call that commits, any number of further calls, at any times, committed or rolled back, change and count nothing: an interrupted target's state_version rises by one, once. |
| M1R1Recovery.EligibleHasNoConsents | src/pdu_exam_observer/m1_r1.py:561-582 | A reachable store is eligible exactly if it has no participant, and then holds no consent receipts although the counted name `consent_records` (m1_r1.py:417-428) belongs to no table. |
| M1R1Recovery.EligibleIsExact | src/pdu_exam_observer/m1_r1.py:561-582 | Any store is eligible exactly if it has no research session and seven of its tables are empty; the consents are not among them. |
| D1Rank.NearestRankIsRank | src/pdu_exam_observer/m2_d1_contract.py:367-373 | `nearest_rank` returns a sample value with at least ceil(p*n/100) values at or below it and fewer strictly below. |
| D1Rank.NearestRankUnique | src/pdu_exam_observer/m2_d1_contract.py:367-373 | No other value has that property. |
| D1Rank.PercentileWithin | src/pdu_exam_observer/m2_d1_contract.py:367-373 | A percentile meets a limit if and only if enough values do, in both directions. |
| D1Stream.CheckIsSound | src/pdu_exam_observer/m2_d1_contract.py:733-784 | The frame validator accepts a stream if and only if every frame is well formed, captures move forward by less than a second, and processed frames complete in capture order. |
| D1Stream.SplitIsACut | src/pdu_exam_observer/m2_d1_contract.py:788-799 | For a stream that moves forward the two warm-up filters cut it into two consecutive parts. |
| D1Stream.AccountingAddsUp | src/pdu_exam_observer/m2_d1_contract.py:802-817 | In every part processed + dropped + failed is the number of frames and the drop reasons add up to the drops. |
| D1Stream.BacklogIsLastMinusLastProcessed | src/pdu_exam_observer/m2_d1_contract.py:844-891 | The backlog is the last capture minus that of the last processed frame, although the code takes a maximum over completion times with zero counting as missing; it is never negative. |
| D1Theorems.EvaluatorAndVerifierAgree | src/pdu_exam_observer/m2_d1_contract.py:346-576 | A receipt of `evaluate` passes `verify_receipt_semantics` if and only if it is a counted privacy stop, or its code is not PRIVACY_STOP, free_bytes >= required_bytes, and it is NO_GO or all four stages SUCCEEDED. (What acceptance means for other receipts: `D1Receipts.VerifyIsExact`.) |
| D1Receipts.VerifyIsExact | src/pdu_exam_observer/m2_d1_contract.py:400-492 | For a receipt of any origin `verify_receipt_semantics` answers True exactly under a declarative condition: balanced accountings, sorted positive counts, a fixed profile, its own digest, and the demands of its outcome. |
| D1Receipts.OtherDigestIsRefused | src/pdu_exam_observer/m2_d1_contract.py:400-492 | A verified receipt with any other result digest is refused. |
| D1Receipts.DigestDeterminesReceipt | src/pdu_exam_observer/m2_d1_contract.py:300-343 | If the hash has no collisions, two verified receipts with one result digest are equal: no field can be edited under its digest. |
| D1Receipts.VerifiedPassCounts | src/pdu_exam_observer/m2_d1_contract.py:1248-1309 | A verified pass of any origin vouches for at least 810 (PREFLIGHT_60S) or 16200 (NOMINAL_20M) frames, 99 of 100 of them processed, and for the latency, gap, backlog, throughput and space bounds. |
| D1Receipts.ReceiptTellsRequest | src/pdu_exam_observer/m2_d1_contract.py:985-1066 | An answer without PRIVACY_STOP records its request: plan, disk evidence, document digests, every failure code with its number of occurrences, and the accounting of the frames on each side of the warm-up as far as the evaluation came. |
| D1Receipts.AnswerDeterminesRequest | src/pdu_exam_observer/m2_d1_contract.py:376-398 | If the hash has no collisions, two such answers with one result digest were given to one request. |
| D1Receipts.StopTells | src/pdu_exam_observer/m2_d1_contract.py:985-1066 | A privacy stop records the plan, the authority, the environment and the place of the stop. |
| D1Receipts.RefusedRequest | src/pdu_exam_observer/m2_d1_contract.py:579-731 | A request is evaluated exactly if its plan is one of the two runs, its disk evidence is complete, its documents are accepted, and provenance and reproduction name its own digests and frame count. |
| D1Contract.PassVerifiesIffStages | src/pdu_exam_observer/m2_d1_contract.py:1312-1316 | A receipt of a pass verifies if and only if all four encoder stages of the request SUCCEEDED. |
| D1Agreement.FailureVerifies | src/pdu_exam_observer/m2_d1_contract.py:945-982 | Each failure receipt of the evaluator agrees with the verifier under that condition, whatever counts, accounting and metrics it carries. |
| D1Agreement.AddCountStrict | src/pdu_exam_observer/m2_d1_contract.py:945-958 | Sorting one more failure code into the counts keeps them sorted, distinct and positive, with the code named. |
| D1Theorems.PassMetrics | src/pdu_exam_observer/m2_d1_contract.py:894-930 | What the threshold check lets through meets every recomputed clause of the verifier's metric check, including its float tolerances. |
| D1Contract.PassIsContract | src/pdu_exam_observer/m2_d1_contract.py:521-576 | The outcome is BACKEND_CONTRACT_PASS if and only if the lease was held and given back, the guard cleared every frame, and the request meets the contract stated as counts of frames and samples: spans, 13.5 frames a second, 95% of gaps and latencies within 200 ms, 99% within 500 ms, 55 of 60 throughput samples at twice the rate, 99% processed, two seconds of backlog, disk space. |
| D1Contract.AnswerIsVerdict | src/pdu_exam_observer/m2_d1_contract.py:346-576 | Which code every answer carries: SCHEMA_INCOMPATIBLE without the lease, PRIVACY_STOP if the guard did not clear a frame, else the code of the first bad frame, else the first named failure in the alphabet, else the first failed stage, else what the counts of frames, bytes and samples lack, in order. |
| D1Codes.DiskCodes | src/pdu_exam_observer/m2_d1_contract.py:920-930 | With everything else in order the code is DISK_SPACE_INSUFFICIENT exactly if there is too little space, and DISK_THROUGHPUT_INSUFFICIENT exactly if there is space and fewer than 55 of the 60 samples are fast. |
| D1Codes.StageCodes | src/pdu_exam_observer/m2_d1_contract.py:933-942 | The first failed stage gives the code, in the order open, write, finalize, durability. |
| D1Codes.CaptureCodes | src/pdu_exam_observer/m2_d1_contract.py:743-757 | At the first bad frame, a capture before the one ahead of it is CLOCK_REGRESSION, and an equal one or one a second or more later is FRAME_STALLED. |
| D1Codes.NamedCode | src/pdu_exam_observer/m2_d1_contract.py:820-842 | If frames or the request name failures, the code is the named one that comes first in the alphabet. |
| D1Failures.StreamCode | src/pdu_exam_observer/m2_d1_contract.py:733-784 | The validator answers the code of the first bad frame. |
| D1Failures.CountsAreOccurrences | src/pdu_exam_observer/m2_d1_contract.py:820-837 | The failure counts list exactly the occurring codes, each with its number of occurrences in frames, quality flags and injections, in the order of their names. |
| D1Contract.PassFrames | src/pdu_exam_observer/m2_d1_contract.py:894-930 | Under that contract there are at least 810 (PREFLIGHT_60S) or 16200 (NOMINAL_20M) frames after the warm-up. |
| D1Contract.StopMarksTheGuard | src/pdu_exam_observer/m2_d1_contract.py:495-516 | A receipt counts one privacy stop if and only if the guard stopped a frame under a lease that was held and given back. |
| D1Contract.UnreachableExits | src/pdu_exam_observer/m2_d1_contract.py:521-542 | For a validated stream the accounting-mismatch, quality and negative-backlog exits are never taken, and warm-up plus rest is the stream. |
| D1Privacy.StopRevealsNothing | src/pdu_exam_observer/m2_d1_contract.py:495-516 | Two requests with equal plan, authority and environment stopped at the same frame get identical receipts whatever else differs, and the receipt verifies. |
| D1Privacy.FailedReleaseIsNotScrubbed | src/pdu_exam_observer/m2_d1_contract.py:346-364 | If giving the lease back raises, the answer carries the digests and disk evidence of the whole request even though the guard had stopped a frame. |
| D1Witness.PassMayBeRefused | src/pdu_exam_observer/m2_d1_contract.py:933-942 | A concrete request of 1300 frames with no encoder stage attempted passes the evaluator, and its receipt is refused by the verifier. |
| D1Methods.ValidateObservations | src/pdu_exam_observer/m2_d1_contract.py:733-784 | The validator loop over two remembered times answers as the specification. |
| D1Methods.CountFrames | src/pdu_exam_observer/m2_d1_contract.py:802-817 | The accounting loop with its dictionary of drop reasons yields the specified accounting. |
| D1Methods.TallyFailures | src/pdu_exam_observer/m2_d1_contract.py:820-837 | The dictionary loops over frames and injected failures yield the sorted counts. |
| D1Methods.EvaluateUnderLease | src/pdu_exam_observer/m2_d1_contract.py:495-576 | The scan shows the guard each frame once, in order, up to the first that is not clear, and the receipt is the specified one, whose code `D1Contract.AnswerIsVerdict` and whose content `D1Receipts.ReceiptTellsRequest` state. |
| D1Methods.EvaluateRequest | src/pdu_exam_observer/m2_d1_contract.py:346-364 | The lease is asked for once for a valid request and given back once if granted; on every path the answer is the specified one, as `D1Contract.AnswerIsVerdict` and `D1Receipts.RefusedRequest` state it. |
| Json.DecodeIsExact | src/pdu_exam_observer/m2_d1_n2_bootstrap.py:183-242 | For objects built from the value types of the records (plain strings, integers, booleans, null and such objects) the closed decoder accepts a payload for an object if and only if the payload is its canonical encoding. |
| Json.TornIsNotADocument | src/pdu_exam_observer/m2_d1_n2_bootstrap.py:228-242 | A document of those value types cut short anywhere is not a document of theirs. |
| Records.ReadIsExact | src/pdu_exam_observer/m2_d1_n2_bootstrap.py:228-242 | A record with a fixed key list is read back from its canonical text and from no other. |
| Base64Url.DecodeIsExact | src/pdu_exam_observer/m2_d1_n2_bootstrap.py:253-269 | Each byte string has exactly one text the decoder accepts: its unpadded base64url encoding (RFC 4648, sections 3.5 and 5), although the underlying decoder drops trailing bits and takes other alphabets. |
| Base64Url.SignatureIsDecode | src/pdu_exam_observer/m2_d1_n2_a0.py:205-216 | The A0 reader's decoder, which skips foreign characters, accepts the same signatures and reads them alike. |
| Base64Url.FormatLengths | src/pdu_exam_observer/m2_d1_n2_bootstrap.py:253-269 | 64 bytes become 86 characters and 72 bytes become 96. |
| BootstrapCodec.ReceiptRoundTrip | src/pdu_exam_observer/m2_d1_n2_bootstrap.py:344-389 | Every valid provisioning receipt is read back from its canonical bytes, and the parser accepts nothing else. |
| BootstrapCodec.ReceiptMembers | src/pdu_exam_observer/m2_d1_n2_bootstrap.py:156-180 | Each of the eighteen members of a receipt's text, by its name. |
| BootstrapCodec.ReceiptFits | src/pdu_exam_observer/m2_d1_n2_bootstrap.py:156-180 | Every valid receipt is shorter than the 16384 bytes the reader allows. |
| BootstrapBundle.BundleIsDetermined | src/pdu_exam_observer/m2_d1_n2_bootstrap.py:285-322 | A parsed bundle is the one canonical text of its public key and signature, and its key id is the hash of the key. |
| BootstrapBundle.BundleReadsBack | src/pdu_exam_observer/m2_d1_n2_bootstrap.py:285-322 | Every P-256 key and 64-byte signature has such a bundle, and it is read back. |
| BootstrapBundle.BundleFits | src/pdu_exam_observer/m2_d1_n2_bootstrap.py:285-322 | Every bundle fits the reader's limit, so the installer's one extra byte makes no difference. |
| BootstrapVerdicts.ParseBundleIsExact | src/pdu_exam_observer/m2_d1_n2_bootstrap.py:285-322 | The parser accepts a payload exactly if it is the text of the bundle of a P-256 key and a 64-byte signature. |
| BootstrapVerdicts.ApprovalIsExact | src/pdu_exam_observer/m2_d1_n2_bootstrap.py:325-341 | A payload is approved exactly for the one-shot, non-overwriting authority that names its digest, key and epoch, and with a good signature over its body. |
| BootstrapInstaller.WriteExact | src/pdu_exam_observer/m2_d1_n2_bootstrap_install.py:490-524 | Success means the leaf holds exactly the payload, flushed and read back, in the same file, which was an ordinary file when empty and in the end, whatever the writes really did; a problem is the code that the last port's answer stands for. |
| BootstrapInstaller.Preflight | src/pdu_exam_observer/m2_d1_n2_bootstrap_install.py:467-488 | WRITE_FAILED exactly if one of the three opens was ambiguous, ALREADY_EXISTS exactly if none was and a leaf exists; otherwise the disk is empty. Every handle opened is handed on. |
| BootstrapInstaller.PlaceBundle | src/pdu_exam_observer/m2_d1_n2_bootstrap_install.py:305-378 | Whatever ports fail, a bundle leaf that appears holds the payload, and success means it was flushed, made durable and read back in place. |
| BootstrapInstaller.Failure | src/pdu_exam_observer/m2_d1_n2_bootstrap_install.py:577-588 | On every failure path each handle, the directory lease and the mutex are closed exactly once, and the answer is the primary result exactly if all of that was clean, else CLEANUP_FAILED. |
| BootstrapInstaller.Install | src/pdu_exam_observer/m2_d1_n2_bootstrap_install.py:284-465 | For every payload and every failure of every port, before or after its effect: a disk that was not empty is untouched; INSTALLED means the reader's verdict on the resulting disk is that same bundle and receipt, everything was given back cleanly before the receipt was moved, and what the receipt claims did happen; a receipt that is left shows the reader that pair whatever was answered, and the answer is WRITE_FAILED if and only if the move took effect unacknowledged. For an approved payload the result is CLEANUP_FAILED exactly if a closing or releasing call failed, else the code that the last port's answer stands for. With no other failure the two moves decide the outcome, and a disk that is not empty gives ALREADY_EXISTS. |
| BootstrapPorts.World.PublishReceipt | src/pdu_exam_observer/m2_d1_n2_bootstrap_install.py:447-465 | The receipt move is called only when no handle, lease or mutex is left, and only for a pair the reader accepts; it replaces nothing, and answers true if and only if it was made and acknowledged. |
| BootstrapPorts.InstallMutex.Close | src/pdu_exam_observer/m2_d1_n2_bootstrap_install.py:120-157 | The mutex is closed exactly once, after a last attempt to release it if it is still owned; a clean answer means it was released and closed. |
| BootstrapDisk.PairIsAccepted | src/pdu_exam_observer/m2_d1_n2_bootstrap_win32.py:281-375 | A receipt written for an approved payload makes, with a bundle of that payload, a pair the reader accepts, whichever authority approved it. |
| BootstrapDisk.PublishedLeavesStay | src/pdu_exam_observer/m2_d1_n2_bootstrap_win32.py:137-160 | Along any lawful run the bundle and the receipt keep their bytes and identity once present. |
| BootstrapTheorems.CrashSafe | src/pdu_exam_observer/m2_d1_n2_bootstrap_install.py:284-465 | Stopped at any moment, an install leaves a disk the reader calls INSTALLED only if the receipt was moved and the bundle is the payload. |
| BootstrapTheorems.ReceiptMeansInstalled | src/pdu_exam_observer/m2_d1_n2_bootstrap_install.py:456-465 | Once an install that found an empty disk ended with a receipt, returned or stopped, the reader's verdict after it and after every later install is one and the same pair with the bundle of its payload; if it returned, it answered INSTALLED or WRITE_FAILED. |
| BootstrapTheorems.SilentPublication | src/pdu_exam_observer/m2_d1_n2_bootstrap_install.py:456-465 | A run that answers WRITE_FAILED although the reader finds the installed pair: only the last move goes unacknowledged. |
| BootstrapTheorems.CleanInstall | src/pdu_exam_observer/m2_d1_n2_bootstrap_install.py:284-465 | A run in which no port fails answers INSTALLED, for every approved payload. |
| BootstrapTheorems.OnlyTheFirstWrites | src/pdu_exam_observer/m2_d1_n2_bootstrap_install.py:467-488 | In any sequence of installs, returned or stopped: once one of them has left anything on the disk, every later one leaves it exactly so and none succeeds. |
| BootstrapTheorems.PublishedForever | src/pdu_exam_observer/m2_d1_n2_bootstrap_install.py:325-378 | Over any sequence of installs a bundle or receipt on the disk never changes again. |
| BootstrapTheorems.InstalledAtMostOnce | src/pdu_exam_observer/m2_d1_n2_bootstrap_install.py:284-465 | At most one call of any sequence returns INSTALLED. |
| BootstrapTheorems.InstallAll | src/pdu_exam_observer/m2_d1_n2_bootstrap_install.py:284-465 | Calls of `Install` one after another do form such a sequence. |
| BootstrapReader.InspectLeaves | src/pdu_exam_observer/m2_d1_n2_bootstrap_win32.py:281-375 | The reader never answers INSTALLED or ABSENT unless the disk bears it out and the directory was valid and durable, gives the exact verdict (`BootstrapVerdicts.InstalledIsExact`) when no port fails it, has looked at and read both leaves of an installed pair, keeps its two handles and the directory only for one, and closes everything once otherwise. |
| BootstrapReader.CloseLease | src/pdu_exam_observer/m2_d1_n2_bootstrap_win32.py:228-242 | Closing the lease closes both handles and the directory once and reports whether all of it succeeded. |
| BootstrapVerdicts.InstalledIsExact | src/pdu_exam_observer/m2_d1_n2_bootstrap_win32.py:281-375 | On any disk the verdict is INSTALLED exactly if there is no partial leaf, the bundle leaf is the text of a well-signed bundle, and the receipt leaf is the text of a receipt of success that names that bundle's digest and key, its own file and this directory. |
| BootstrapVerdicts.AbsentIsExact | src/pdu_exam_observer/m2_d1_n2_bootstrap_win32.py:281-375 | It is ABSENT exactly if none of the three leaves exists. |
| BootstrapVerdicts.CopiedReceiptIsPoisoned | src/pdu_exam_observer/m2_d1_n2_bootstrap_win32.py:345-349 | A receipt leaf replaced by a byte-equal copy with another file identity is POISONED. |
| BootstrapVerdicts.MovedPairIsPoisoned | src/pdu_exam_observer/m2_d1_n2_bootstrap_win32.py:345-349 | A pair moved to a directory with another identity is POISONED. |
| BootstrapVerdicts.ReplacedBundleIsPoisoned | src/pdu_exam_observer/m2_d1_n2_bootstrap_win32.py:350-362 | A bundle leaf replaced by another with another hash is POISONED. |
| AuthorityRecords.AuthorityReadsBack | src/pdu_exam_observer/m2_d1_n2_authority.py:936-982 | Every authority record of any phase is read back from its bytes; the three key sets are told apart. |
| AuthorityRecords.TornGrant | src/pdu_exam_observer/m2_d1_n2_authority.py:985-1027 | A grant file cut short anywhere is refused. |
| AuthorityLife.InspectionSeesLife | src/pdu_exam_observer/m2_d1_n2_authority.py:751-785 | Inspection reads the stage of a life off the bytes of the three leaves exactly, and refuses every torn one. |
| AuthorityBinding.GrantBodyDetermines | src/pdu_exam_observer/m2_d1_n2_authority.py:225-234 | The digested body of a grant determines every field of it but the digest. |
| AuthorityBinding.TerminalBodyDetermines | src/pdu_exam_observer/m2_d1_n2_authority.py:250-258 | The same for a terminal record. |
| AuthorityBinding.AuthorityBodyDetermines | src/pdu_exam_observer/m2_d1_n2_authority.py:192-208 | The same for an authority record, its phase included. |
| AuthorityBinding.DigestDeterminesGrant | src/pdu_exam_observer/m2_d1_n2_authority.py:985-1027 | If the hash has no collisions, a valid grant is given by its digest: no other field can be altered under it. |
| AuthorityBinding.AlteredLeafIsRefused | src/pdu_exam_observer/m2_d1_n2_authority.py:985-1027 | A grant leaf with any text but the grant's own is not accepted under the grant's digest. |
| AuthorityBinding.GrantsAreToldApart | src/pdu_exam_observer/m2_d1_n2_authority.py:900-918 | Grants for different consumed records, challenges, capabilities or times have different digests. |
| AuthorityVerdicts.GrantIsExact | src/pdu_exam_observer/m2_d1_n2_authority.py:985-1027 | A canonical leaf is accepted as a grant exactly if it is the text of a valid grant. |
| AuthorityVerdicts.TerminalIsExact | src/pdu_exam_observer/m2_d1_n2_authority.py:1030-1067 | The same for a terminal record. |
| AuthorityVerdicts.AuthorityIsExact | src/pdu_exam_observer/m2_d1_n2_authority.py:936-982 | The same for an authority record. |
| AuthorityVerdicts.EndIsExact | src/pdu_exam_observer/m2_d1_n2_authority.py:751-780 | Inspection of any leaves reports a terminal record exactly of a whole chain: a consumed record, its revoked grant, and the terminal record that names both. |
| AuthorityVerdicts.RecordIsExact | src/pdu_exam_observer/m2_d1_n2_authority.py:751-780 | It reports an authority record exactly where the record stands alone or is consumed beside a valid grant, and absence exactly of no leaves; all else is refused. |
| AuthorityVerdicts.ExchangedIsRefused | src/pdu_exam_observer/m2_d1_n2_authority.py:751-780 | If the hash has no collisions, exchanging the grant or the terminal record of an ended chain for another valid one is refused. |
| AuthorityStore.Store.ReservePending | src/pdu_exam_observer/m2_d1_n2_authority.py:569-577 | The step from ABSENT to PENDING and the answer are determined by the faults met: the step is whole, torn or not made as far as the write came, and there is an answer exactly when it was whole, acknowledged and the mutex released. |
| AuthorityStore.Store.FinalizePrepared | src/pdu_exam_observer/m2_d1_n2_authority.py:579-599 | Same for PENDING to PREPARED, made exactly under a matching digest and valid attestations; a replacement is never torn. |
| AuthorityStore.Store.Consume | src/pdu_exam_observer/m2_d1_n2_authority.py:601-628 | Same for PREPARED to CONSUMED under a matching digest. |
| AuthorityStore.Store.IssueWorkerGrant | src/pdu_exam_observer/m2_d1_n2_authority.py:630-653 | Same for the one grant of a CONSUMED record; with a grant present nothing changes and nothing is answered. What the grant says is `AuthorityTheorems.StageAfter`, what its digest binds `AuthorityBinding.DigestDeterminesGrant`. |
| AuthorityStore.Store.RevokeWorkerGrant | src/pdu_exam_observer/m2_d1_n2_authority.py:655-681 | Same for revoking an unexpired grant, which is decided from the grant alone. |
| AuthorityStore.Store.FinalizeTerminal | src/pdu_exam_observer/m2_d1_n2_authority.py:683-709 | Same for the terminal record, made exactly for the revoked, unexpired grant of the consumed record. |
| AuthorityTheorems.SilentStep | src/pdu_exam_observer/m2_d1_n2_authority.py:711-737 | A call without an answer has changed the store if and only if its write left something and was not both acknowledged and followed by the release of the mutex. |
| AuthorityTheorems.SilentReservation | src/pdu_exam_observer/m2_d1_n2_authority.py:711-737 | A run of `reserve_pending` that answers nothing although the store is PENDING: only the release of the mutex fails. |
| AuthorityTheorems.Perform | src/pdu_exam_observer/m2_d1_n2_authority.py:569-709 | Each of the six operations, under any faults, has exactly the effect and answer above; once the clock is past the expiry of the grant it changes and answers nothing. |
| AuthorityTheorems.PerformAll | src/pdu_exam_observer/m2_d1_n2_authority.py:569-709 | The same over any calls one after another: past its expiry a grant stays as it is for ever and no call is answered. |
| AuthorityTheorems.LeadsOnExactly | src/pdu_exam_observer/m2_d1_n2_authority.py:569-709 | A call leads to the next stage exactly from the stage before it, with well-formed arguments that name the current record and grant, and, for revoking and ending, within five minutes of the issue. |
| AuthorityTheorems.StageAfter | src/pdu_exam_observer/m2_d1_n2_authority.py:872-933 | The record of the next stage carries the arguments of the call and binds the record and grant before it. |
| AuthorityTheorems.OnlyForward | src/pdu_exam_observer/m2_d1_n2_authority.py:569-839 | Over every run with any faults the stages only go forward, one at a time, and terminal and torn stages are absorbing. |
| AuthorityTheorems.OneGrant | src/pdu_exam_observer/m2_d1_n2_authority.py:630-681 | At most one grant is ever issued, for one consumed record. |
| AuthorityTheorems.ConsumedKeepsPrepared | src/pdu_exam_observer/m2_d1_n2_authority.py:601-628 | The consumed record carries the digests of the prepared one for ever. |
| AuthorityTheorems.TerminalBinds | src/pdu_exam_observer/m2_d1_n2_authority.py:751-785 | A terminal record binds the consumed record and its revoked grant, and inspection reports it. |
| AuthorityTheorems.ExpiredIsFinal | src/pdu_exam_observer/m2_d1_n2_authority.py:1124-1125 | With a clock that never goes back, one moment past the expiry of a grant is enough: it never changes again, so TERMINAL is unreachable. |
| AuthorityTheorems.PrepareOnce | src/pdu_exam_observer/m2_d1_n2_authority.py:842-861 | `_prepare_once` prepares if and only if the store was blank, the attestations are valid and nothing failed; a store that is not blank is answered STATE_CLOSED and left as it is, so however a call ends after PENDING every later one is closed. |

## Left out

- M1DemoLog.DemoLogTellsTheRow: covers runs in which `append_event` adds no event of the demo session's own types.
- M1Operations: surrogate row ids, created_at times, audit rows, storage roots and fan-out to subscribers are not in the tables; `research_session`, `readiness`, `snapshot` and `artifact_status` only read them.
- M1Operations: whether a partial file path is usable and whether dates are valid are parameters.
- M1Quarantine: the contents of paths (symlinks, reparse points, segments) enter as one answer per path, and no other program touches the files.
- M1R1: artifact sealing is the final transaction of `persist` only; byte staging, manifests' digests, the migration DDL and the schema comparison are not modelled.
- M1R1Calls.SealCall: `persist` raises two more exception classes; a refusal is InvalidTransition here and a clash of ids Integrity.
- M1R1Recovery: a store without the reconciliation tables, where the v3 part does nothing, is left out; the M2 part of `recover` works on files and a write-intent table that are not part of this model.
- D1Evaluator: documents that must equal fixed constants enter as a flag that says whether they do, and inputs of the wrong Python type are not modelled.
- D1Evaluator: rates and derived seconds are exact reals, so rounding of floats, infinities and overflow are not modelled; without them the UNKNOWN_TECHNICAL_FAILURE exit is never taken.
- D1Types: `evidence_kind` and `device_gate_decision` have one admissible value and are left out of the receipt.
- Json.DecodeIsExact: strings are printable ASCII without quotes and backslashes, and there are no arrays or floats; the closed decoder also takes canonical documents with those, which no record contains.
- Json.TornIsNotADocument: the same restriction of the value types.
- AuthorityRecords: the authority's own reader would also take JSON with spaces or another key order; the store never writes such leaves.
- AuthorityVerdicts.GrantIsExact: for the same reason it is about leaves in canonical form, and so are TerminalIsExact, AuthorityIsExact, EndIsExact and RecordIsExact.
- AuthorityBinding.AlteredLeafIsRefused: the same; a leaf with the grant's own members in another layout is the same grant to the code.
- BootstrapPorts: an open or create call that raises is taken to leave no handle behind, and no other program touches the three leaves.
- BootstrapPorts: reparse points, link counts, pending deletion and final paths are one flag of the file information.
- BootstrapReader: the retained lease's re-validation, the A0 approval source and the lazy wrappers are not modelled.
- AuthorityStore: temporary files of a replacement, directory identity and link checks enter as faults; the root directory is not modelled.
- AuthorityStore: a monotonic clock is assumed, as the default clock provides.
- The A0 verifier, the native adapter and the canonical lifecycle are not modelled.
- `scripts/release_manifest.py` is not modelled.
- Win32 calls, ECDSA, SHA-256, SQLite's own behaviour, HTTP and the web interface are ports or not modelled.
