# Verified model of the AIChain receipt and settlement tooling

This project models nine parts of the repository in Dafny and proves what each of
them keeps over every run, or returns on every input. `dafny verify dfyconfig.toml`
checks all of it.

| Module | Models | Central result |
|---|---|---|
| `EventIndex` | the reorg-aware anchor index | after any history of runs, the index is that of the view seen last exactly when every range was linked to the checkpoint before it; a key with one writer then holds its last event |
| `Merkle`, `ProofBatch` | sorted-pair Merkle trees, proof-claim batches | paths fold to the root; at equal height a root binds the set of ids |
| `Asert`, `AsertExact`, `AsertCurve` | integer ASERT in Go and its independent Python check | the exact condition under which the two agree on every anchor target and limits, wrap-around and early exits included; shape of the target curve |
| `CivilDate`, `Decimal` | the timestamp in the zero-knowledge statement | the closed form is the Gregorian calendar stepped one day at a time; text order is time order |
| `JsonText`, `JsonNumber`, `CanonicalJson`, `ReceiptStream` | canonical JSON and stream-linked receipts | the printer has an inverse and identifies values up to key order; a receipt determines its history |
| `IngressQueue`, `IngressService` | the retry queue and its durable service | crash atomicity after any file write, no lost receipt, no receipt in two unresolved batches |
| `CappedRelayer` | the budget-capped relayer | daily and hourly caps over every interleaving, failed write and crash |
| `RuntimeRelease` | the two-directory release | both components are always on one release, on which one, and which faults leave a stopped service behind |
| `ImportQueue`, `GetworkAdapter`, `PeriodicAgent` | cursor-checkpointed imports, the getwork adapter, the bounded agent | step-machine invariants over every interleaving and crash |

`Arithmetic` and `Wrappers` hold shared helpers.

## Conventions

* Objects that the source updates in place are classes. Each method is specified
  by a function on values (for example `AvrIngressQueue.Drain` by `Drained`), and
  the lemmas are about those functions. Protocols with awaits, locks, crashes or
  several processes are step machines whose runs are arbitrary lists of steps.
* Hash functions are parameters. A digest is finite, so no hash is injective on
  everything; results that need it assume that there is no collision among the
  values hashed by the computations compared (`CollisionFree`).
* A chain view is the list of blocks that a run sees at one moment: one for its
  reorganisation check and one for each range. Views are related by `Consistent`:
  a block hash determines the block and its ancestors.
* Files and database transactions are atomic values, with a crash possible
  between any two writes. Clock readings, service outcomes and answers of remote
  parties are parameters of the steps.

## Where the code differs from what it promises

* **Reorganisation between two ranges of one run.** A range is not linked to the
  checkpoint before it. `ReorgBetweenRangesUnnoticed` is a scan after which an
  orphaned key stays in the index and the newest checkpoint still matches. Each
  range has a view of its own here, and the index is right exactly when the newest
  checkpoint lies on the view each range starts on: `RangeIndexedIff` for one
  range, `ScanIndexedIff` for a scan, `HistoryIndexedIff` for all runs. A chain
  that is fixed within each run is a special case (`FixedChainsLinked`).
* **A key written by two contracts.** Events are applied contract by contract
  inside a range, so the stored entry depends on the range size
  (`TwoWritersDependOnRange`). `RangeEntryIff`, `ScanEntryIff` and `HistoryEntryIff`
  say exactly when the stored entry is the last event, for a range, a scan and all
  runs.
* **V2 manifests.** The attach step does not compare the manifest's root with the
  anchored one; `AttachMatchesIff` shows that this is exactly what is missing, and
  `ForeignManifestAttached` is a run that does it.
* **ASERT in int64.** The schedule error is right exactly when it fits
  (`ScheduleErrorInt64`), and the exponent exactly when the scaled error fits
  (`SplitExponent`). For a given half-life and schedule error the method equals the
  formula on every anchor target and limits exactly when `Effective`, the exponent
  on wrapped quantities, is the exact one or lies beyond the same end of the curve
  (`AgreesForAllIff`). `256 * HalfLife` can wrap: on schedule the method then
  returns the largest target unless the wrapped product is positive
  (`OnScheduleAgreesIff`); a half-life of 2^55 seconds is an instance.
* **Release rollback.** "Otherwise the previous build is restored" fails in one
  case: the new build does not run, a `systemctl stop` of the rollback raises, and
  the one failing rename is in the restore that the outer handler then tries once.
  The host stays on the new build with an error. `Activate` proves that this case
  (`Strands`) is the only one.
* **Services after a failed release.** A unit whose `systemctl stop` raises is not
  started again (`FailedStopStays`), and a round of starts ends at the first that
  raises. `Activate` gives the exact condition (`ServicesBack`) under which every
  stopped unit is started again; it holds whenever all calls succeed
  (`CallsSucceedServicesBack`).
* **Snapshots with an anchor context.** A general receipt carries its chain id as
  a decimal string, but the restore demands an integer. A snapshot restores
  exactly when no general receipt was accepted (`SnapshotRoundTrip`,
  `CheckpointRestartsIff`). `DurableRuns` shows for arbitrary receipts that this is
  the only reason for which a restart throws, `GeneralReceiptThrows` that it
  happens, and `LegacyRunsRestart` that it never does without general receipts.
* **At-most-once forwarding.** Between leaving flight and being tracked a
  submission key is in neither collection (`ForwardedTwice`). A forward is a second
  one exactly when its key is then in that gap, failed or evicted
  (`ForwardedAgainIff`), and a run forwards every key at most once exactly when it
  admits no such key (`ForwardedOnceIff`).
* **Import cycles.** The cycle check knows only the cursors of its own call. Inside
  a cycle, unless another error comes first, a call sees it exactly when the cycle
  is at most as long as the call's page limit (`CycleWithinIff`, `ImportInCycle`);
  `LongCycleUnseen` is a cycle of two that calls of one page never see.
* **Hours around midnight.** The hourly check counts the reservations of its day
  only. `MidnightExceedsCap` is a run with more than the cap within an hour;
  `MidnightBound` shows that twice the cap is never exceeded while the delays from
  the day's clock reading to the reservation stay within 23 hours.
* **A chain that leaves and returns within a range.** The range-end check compares
  the last block before and after, the per-event check one block per event. All
  of them can pass while a log was read from another branch and an event is missed
  (`LeavesAndReturns`). The reads are those of one view when the log views have the
  range's last block (`ReadsOfOneView`), and nothing orphaned is stored when the
  check views have it (`CheckedRangeHasNoOrphans`).

## Model

| member | source | states |
|---|---|---|
| Merkle.MerkleRoot | sdk/typescript/avr-event-indexer.js:35-44 | refuses an empty list and the first malformed id, else returns the root of the tree specification |
| Merkle.PairLevel | sdk/typescript/avr-event-indexer.js:38-42 | the pairing loop yields the level above, an odd last node paired with itself |
| Merkle.MembershipProof | sdk/typescript/avr-event-indexer.js:45-57 | refuses an index outside the list or a malformed id, else returns the sibling path of the tree specification |
| Merkle.VerifyMembership | sdk/typescript/organisational-ledger.js:61-67 | accepts exactly well-formed arguments whose path folds from the id to the root |
| Merkle.NextLevelAt | sdk/typescript/organisational-ledger.js:33-36 | each node above is the sorted hash of its two children, the last child doubled when missing |
| Merkle.PairSorted | sdk/typescript/avr-event-indexer.js:31-34 | the smaller digest is hashed first, whichever side it comes from |
| Merkle.PathFoldsToRoot | sdk/typescript/avr-event-indexer.js:35-57 | for every non-empty list and index the membership path folds to the root, odd levels included |
| Merkle.HeightIsCeilLog2 | sdk/typescript/avr-event-indexer.js:45-57 | the length of every path is the base-2 logarithm of the number of ids, rounded up |
| Merkle.RootBindsIds | sdk/typescript/avr-event-indexer.js:31-44 | two lists with equal roots at equal height hold the same set of ids |
| Merkle.AcceptedAtLevel | sdk/typescript/avr-anchor-verifier.js:18-30 | an accepted path no longer than the tree starts at a node of the level that its length determines |
| Merkle.LevelNodeAccepted | sdk/typescript/avr-anchor-verifier.js:18-30 | every node of every level has an accepted path, so the length has to be checked by the caller |
| Merkle.FullHeightPathIsMember | sdk/typescript/avr-anchor-verifier.js:18-30 | an accepted path of exactly the tree's height starts at a listed id |
| Merkle.RepeatedLastSharesRoot | sdk/typescript/organisational-ledger.js:26-39 | an odd list and the same list with its last id repeated share root and height, so only the set is bound |
| ProofBatch.CreateProofBatch | sdk/typescript/zk-proof-batch.js:49-64 | succeeds exactly for non-empty claims that all name the batch's proof system, statement and program, with pairwise different receipts, and names the first offending claim otherwise |
| ProofBatch.InclusionVerifies | sdk/typescript/zk-proof-batch.js:66-82 | every claim of a created batch has an inclusion that the verifier accepts |
| ProofBatch.VerifiedClaimIsListed | sdk/typescript/zk-proof-batch.js:74-82 | an accepted inclusion of full height is for a listed claim with the batch's binding, the only one for its receipt |
| Asert.FloorDiv | spikes/difficulty-simulator/algorithm.go:69-75 | the corrected truncating quotient is the flooring one for every dividend sign |
| Asert.ClampTarget | spikes/difficulty-simulator/algorithm.go:32-43 | equals the reference clamp for valid limits; without a minimum, at least 1 and at most the maximum |
| Asert.ScheduleErrorInt64 | spikes/difficulty-simulator/algorithm.go:88-91 | the int64 steps give the exact schedule error if and only if that error fits; wrap-around on the way is undone |
| Asert.WrapDifference | spikes/difficulty-simulator/algorithm.go:89-91 | wrapping the operands of a difference does not change its wrapped value |
| Asert.WrapProduct | spikes/difficulty-simulator/algorithm.go:91 | wrapping a factor does not change the wrapped product |
| Asert.SplitExponent | spikes/difficulty-simulator/algorithm.go:98-100 | whole half-lives and fraction are the reference's exactly when the scaled error fits int64 |
| Asert.WrapChangesQuotient | spikes/difficulty-simulator/algorithm.go:98 | a wrapped product never has the quotient of the exact one |
| Asert.CubicFactor | spikes/difficulty-simulator/algorithm.go:102-110 | the in-place accumulator computes the rounded cubic of the reference |
| Asert.NextTarget | spikes/difficulty-simulator/algorithm.go:77-120 | for valid limits, the value of the int64 specification (wrapped error, wrapped exit bounds, wrapped exponent) always, and of the unbounded Python formula whenever the schedule error, 256 half-lives and, between the exits, the scaled error fit; the three errors exactly on their conditions |
| Asert.TargetFromError | spikes/difficulty-simulator/algorithm.go:98-119 | from the exponent on, the clamped target at the exponent that the wrapped scaled error gives |
| Asert.ExitsAreExact | spikes/difficulty-simulator/algorithm.go:92-97 | where the bounds fit, the exits are taken exactly beyond 256 half-lives and return the formula's value |
| Asert.FactorBounds | scripts/verify-difficulty-vectors.py:24-29 | the factor of every fraction lies in 65536..131071 |
| Asert.FactorEnds | scripts/verify-difficulty-vectors.py:24-29 | the factor is exactly 65536 at fraction 0 and 131071 at the last fraction |
| Asert.FactorMonotone | scripts/verify-difficulty-vectors.py:24-29 | a larger fraction never has a smaller factor |
| AsertCurve.FactorTracks | scripts/verify-difficulty-vectors.py:24-29 | within 0.02 % the factor lies between the two sixteenth powers of two around its fraction |
| AsertCurve.SixteenthNear | scripts/verify-difficulty-vectors.py:24-29 | at every sixteenth of a half-life the factor is the power of two within 0.02 % |
| Asert.FarBehindSchedule | spikes/difficulty-simulator/algorithm.go:92-94 | from 256 half-lives behind schedule on, the formula itself is the largest target |
| Asert.FarAheadOfSchedule | spikes/difficulty-simulator/algorithm.go:95-97 | from 256 half-lives ahead of schedule on, the formula itself is the least target |
| Asert.PracticalBoundsSuffice | spikes/difficulty-simulator/algorithm.go:88-98 | explicit height, time, spacing and half-life bounds under which the method equals the formula |
| Asert.OnScheduleAgreesIff | spikes/difficulty-simulator/algorithm.go:92-97 | on schedule the method agrees with the formula exactly when 256 half-lives wrap to a positive number, or the limits make the largest target right |
| Asert.HugeHalfLifeDiverges | spikes/difficulty-simulator/algorithm.go:92-94 | with a half-life of 2^55 s the method and the formula differ on schedule |
| Asert.TargetStep | spikes/difficulty-simulator/algorithm.go:98-118 | one exponent step never lowers the target, where the fraction rolls over included |
| Asert.LaterIsNeverHarder | scripts/verify-difficulty-vectors.py:9-34 | a later candidate at the same height never has a smaller target |
| Asert.OnSchedule | scripts/verify-difficulty-vectors.py:9-34 | on schedule the target is the clamped anchor target |
| Asert.HalfLifeDoubles | scripts/verify-difficulty-vectors.py:21-33 | one half-life later, half the unclamped target, rounded down, is the old one |
| AsertExact.AgreesForAllIff | spikes/difficulty-simulator/algorithm.go:88-120 | the method agrees with the formula for every anchor target and every limits exactly when the exponent in effect on wrapped quantities is the exact one, or both lie beyond the same end of the curve |
| AsertExact.NoOverflowIsExact | spikes/difficulty-simulator/algorithm.go:88-100 | where the schedule error and 256 half-lives fit, that is exactly when an exit is taken or the scaled error fits too |
| AsertExact.UnlikeDiffers | spikes/difficulty-simulator/algorithm.go:98-119 | for any two exponents at least two apart and not beyond the same end there is an anchor target on which the clamped formula differs |
| AsertExact.AlikeSame | spikes/difficulty-simulator/algorithm.go:92-97 | exponents beyond the same end give the same clamped target for every anchor target and limits |
| AsertExact.FactorGrows | scripts/verify-difficulty-vectors.py:24-29 | two steps of the fraction always raise the factor |
| AsertExact.WrapJumps | spikes/difficulty-simulator/algorithm.go:98 | a wrapped scaled error gives the exact exponent or one at least two off |
| CivilDate.CivilStep | spikes/zk-statement/sp1-policy-evaluation/lib/src/lib.rs:180-190 | on every day number, negative ones included, the closed form advances by one calendar day |
| CivilDate.CivilIsStepping | spikes/zk-statement/sp1-policy-evaluation/lib/src/lib.rs:177-201 | from the epoch on the closed form is the date reached by single-day steps |
| CivilDate.CivilYearPositive | spikes/zk-statement/sp1-policy-evaluation/lib/src/lib.rs:177-201 | every admitted timestamp has a valid date from 1970 on |
| CivilDate.YearOfEraHolds | spikes/zk-statement/sp1-policy-evaluation/lib/src/lib.rs:183-184 | the correction terms find the year of the 400-year era that holds the day |
| CivilDate.FourDigitYears | spikes/zk-statement/sp1-policy-evaluation/lib/src/lib.rs:177-197 | years have four digits exactly before second 253402300800 |
| CivilDate.TimestampOrder | spikes/zk-statement/sp1-policy-evaluation/lib/src/lib.rs:177-197 | up to the year 9999 the strings order exactly as the instants do |
| CivilDate.FormatIsText | spikes/zk-statement/sp1-policy-evaluation/lib/src/lib.rs:191-196 | up to the year 9999 every field has its fixed width |
| Decimal.PaddedIsFixed | spikes/zk-statement/sp1-policy-evaluation/lib/src/lib.rs:191-196 | a number that fits its width is printed with exactly that width |
| Decimal.FixedOrder | spikes/zk-statement/sp1-policy-evaluation/lib/src/lib.rs:191-196 | fixed-width numerals order and compare exactly as their values |
| EventIndex.Indexer.ApplyEvent | sdk/typescript/avr-event-indexer.js:99-121 | stores the event's entry under its key and touches no other key; read by its named fields, the entry gives the log back |
| EventIndex.WriteDecodes | sdk/typescript/avr-event-indexer.js:99-121 | for all four event kinds the record written for a log gives the log back, position and address included, under the key of its event |
| EventIndex.Indexer.RewindForReorg | sdk/typescript/avr-event-indexer.js:129-145 | empties the index exactly when the newest checkpoint is off the chain |
| EventIndex.Indexer.ApplyContract | sdk/typescript/avr-event-indexer.js:225-234 | applies one contract's expected events in log order |
| EventIndex.Indexer.ApplyRange | sdk/typescript/avr-event-indexer.js:225-234 | applies the contracts of a range one after another |
| EventIndex.Indexer.ScanOneRange | sdk/typescript/avr-event-indexer.js:220-243 | state and file after one range on one view: every contract's writes, one more checkpoint, the next block |
| EventIndex.Indexer.ScanAll | sdk/typescript/avr-event-indexer.js:220-243 | the scan loop with a view of its own for each range, ending at the head, at an unreadable range or when the run stops |
| EventIndex.Indexer.AttachManifests | sdk/typescript/avr-event-indexer.js:165-179 | attaches all manifests with an anchor, skips valid ones without, and stops at the first failure with its error |
| EventIndex.Indexer.LookupReceipt | sdk/typescript/avr-event-indexer.js:180-189 | individual first, then a listing batch, absent only if neither exists; the path folds to the anchored root, with its length, when manifests match |
| EventIndex.Indexer.Sync | sdk/typescript/avr-event-indexer.js:191-248 | the file after any way a run can end, whatever views it saw, is the one of the run specification; normal return exactly when the head is reached and the manifests attach |
| EventIndex.AtPutAll | sdk/typescript/avr-event-indexer.js:99-121 | after any list of writes a key holds the last one to it |
| EventIndex.RangeOrder | sdk/typescript/avr-event-indexer.js:225-234 | a key with one writer sees its events in chain order whatever the contract order |
| EventIndex.RangeMembers | sdk/typescript/avr-event-indexer.js:225-234 | with any number of writers a range stores only canonical events |
| EventIndex.RangeWritesKey | sdk/typescript/avr-event-indexer.js:225-234 | a range writes a key exactly when it has a canonical event for it |
| EventIndex.RangeAgreesIff | sdk/typescript/avr-event-indexer.js:225-234 | with several writers a range writes the last canonical event last exactly when its contract is the last of the range to write the key |
| EventIndex.RangeEntryIff | sdk/typescript/avr-event-indexer.js:220-243 | the stored entry after a range is the key's last event from the start block on exactly when the range has no event for it and it was current before, or the range's last event wins in contract order |
| EventIndex.ScanEntryIff | sdk/typescript/avr-event-indexer.js:220-243 | the same for a whole scan: the last range with an event for the key decides |
| EventIndex.HistoryEntryIff | sdk/typescript/avr-event-indexer.js:191-248 | the same over every history of linked runs, rewinds and stops included: with any number of writers the stored entry is the last event exactly when the last range since the last rebuild with an event for the key left it last |
| EventIndex.ScanRangeIndexed | sdk/typescript/avr-event-indexer.js:220-243 | a range read on the indexed chain keeps tiling, checkpoints on the chain and agreement with replay |
| EventIndex.RangeIndexedIff | sdk/typescript/avr-event-indexer.js:220-243 | a range read on another view gives an index of that view exactly when the newest checkpoint lies on it |
| EventIndex.ScanIndexedIff | sdk/typescript/avr-event-indexer.js:220-243 | a whole scan with a view for each range gives an index of the last view exactly when every range was linked to the checkpoint before it |
| EventIndex.NewestCheckpointDecides | sdk/typescript/avr-event-indexer.js:129-145 | the newest checkpoint matches exactly when no indexed block is orphaned |
| EventIndex.RewoundIndexed | sdk/typescript/avr-event-indexer.js:207-217 | after the rewind the index agrees with the new chain |
| EventIndex.RunAccurate | sdk/typescript/avr-event-indexer.js:191-248 | one run keeps the newest checkpoint on the view seen last, and all of them on it exactly when they were and every range was linked, or the run rebuilt the index |
| EventIndex.HistoryIndexedIff | sdk/typescript/avr-event-indexer.js:191-248 | after any history of runs the checkpoints tile the indexed blocks, and the file is an index of the view seen last exactly when every range since the last rebuild was linked, which is when all stored checkpoints lie on that view |
| EventIndex.SyncAgreesWithReplay | sdk/typescript/avr-event-indexer.js:191-248 | when the ranges were linked, no orphaned key is left, no canonical key is missing and a key with one writer holds its last event, up to the head the run read |
| EventIndex.EntriesAreEvents | sdk/typescript/avr-event-indexer.js:191-248 | then every entry decodes to an event that the chain has at the entry's position, announced by a contract listed for its kind, and a key with one writer to the newest of them |
| EventIndex.EventsHaveEntries | sdk/typescript/avr-event-indexer.js:191-248 | and every announced event of the indexed blocks has an entry under its key |
| EventIndex.FixedChainsLinked | sdk/typescript/avr-event-indexer.js:220-243 | on a chain that is fixed within each run and changes arbitrarily between runs, every range is linked |
| EventIndex.FixedChainAgrees | sdk/typescript/avr-event-indexer.js:191-248 | so after a completing run on a fixed chain the index equals a naive replay of that chain |
| EventIndex.AttachMatchesIff | sdk/typescript/avr-event-indexer.js:156-164 | attaching keeps the match of roots and counts exactly when the manifest's root is the anchored one, which root-keyed manifests guarantee |
| EventIndex.ForeignManifestAttached | sdk/typescript/avr-event-indexer.js:156-164 | a run on a fixed chain that attaches a valid V2 manifest to an anchor with another root |
| EventIndex.HistoryMatches | sdk/typescript/avr-event-indexer.js:147-179 | on every reachable index attached manifests have their anchor's root and count, with root equality assumed for V2 |
| EventIndex.ReorgBetweenRangesUnnoticed | sdk/typescript/avr-event-indexer.js:220-243 | a scan whose view changes between two ranges keeps an orphaned key, and its newest checkpoint matches |
| EventIndex.TwoWritersDependOnRange | sdk/typescript/avr-event-indexer.js:225-234 | a chain and a list of distinct bound contracts for which the stored entry of a key differs between range sizes 1 and 2 |
| EventIndex.ReadsOfOneView | sdk/typescript/avr-event-indexer.js:220-238 | if every view from which logs are read has the range's last block, the range is read as if on the final view |
| EventIndex.CheckedRangeHasNoOrphans | sdk/typescript/avr-event-indexer.js:220-238 | if every view on which events are checked has the range's last block, a checked range writes events of the final view only, whatever views its logs came from |
| EventIndex.LeavesAndReturns | sdk/typescript/avr-event-indexer.js:220-238 | a chain that leaves while the logs are read and then returns: the range-end and per-event checks pass, and an event of the chain is missed |
| JsonText.BodyRoundTrip | sdk/typescript/receipt.js:34-37 | parsing a quoted string gives the string back, surrogates and control characters included |
| JsonText.EscapesShortest | sdk/typescript/receipt.js:37 | lone surrogates aside, no shorter text reads as the same unit, so the two-character escapes are used wherever there is one |
| JsonNumber.NumberRoundTrip | sdk/typescript/receipt.js:37 | reading the text of any finite number gives the number back, fractions and exponents included, whatever follows |
| CanonicalJson.SortSorted | sdk/typescript/receipt.js:35 | keys come out strictly sorted |
| CanonicalJson.SortElements | sdk/typescript/receipt.js:35 | sorting keeps exactly the members |
| CanonicalJson.SortedUnique | sdk/typescript/receipt.js:35 | a strictly sorted member list is determined by its members |
| CanonicalJson.CanonicalIsPrint | sdk/typescript/receipt.js:32-38 | canonical text is the plain print of the value with keys sorted at every level |
| CanonicalJson.ValueRoundTrip | sdk/typescript/receipt.js:32-38 | the parser undoes the printer, whatever follows the value |
| CanonicalJson.ParseCanonical | sdk/typescript/verification-receipt.js:96-101 | parsing canonical text gives the value with sorted keys |
| CanonicalJson.CanonicalIdentifies | sdk/typescript/receipt.js:32-38 | canonical texts are equal exactly for values equal up to key order |
| CanonicalJson.CanonicalFixpoint | sdk/typescript/verification-receipt.js:96-107 | canonicalising the parse of a canonical text gives that text back |
| ReceiptStream.IdIdentifies | sdk/typescript/verification-receipt.js:102-107 | receipt ids are equal exactly for receipts equal up to key order |
| ReceiptStream.CreatedCopyKeepsId | sdk/typescript/verification-receipt.js:96-107 | the parsed copy that creation returns has the id of the receipt it was made from |
| ReceiptStream.SequenceIsPosition | sdk/typescript/verification-receipt.js:58-63 | in a linked stream the receipt at position i has sequence i |
| ReceiptStream.HistoryLength | sdk/typescript/verification-receipt.js:146-153 | a history that ends at sequence n has exactly n + 1 receipts |
| ReceiptStream.HistoryShares | sdk/typescript/verification-receipt.js:146-153 | all receipts of a history share issuer, context, subject, profile and stream id |
| ReceiptStream.HistoryUnique | sdk/typescript/verification-receipt.js:146-153 | two histories that end in the same receipt are the same, receipt by receipt |
| IngressQueue.AvrIngressQueue.constructor | sdk/typescript/avr-ingress-queue.js:11-16 | a new queue is empty and valid |
| IngressQueue.AvrIngressQueue.SubmitPresentation | sdk/typescript/avr-ingress-queue.js:17-34 | the answer is true of the presentation, and Taken whenever nothing speaks against it; an accepted receipt is the last of the queue, untried, and every refusal changes nothing; validity is kept |
| IngressQueue.SubmissionsHold | sdk/typescript/avr-ingress-queue.js:17-34 | the decision is true of the presentation, acceptance happens exactly if no refusal applies, and the queue is left as the answer says |
| IngressQueue.AvrIngressQueue.Drain | sdk/typescript/avr-ingress-queue.js:35-44 | a batch exactly when one is due: the oldest pending receipts, as many as the limit allows, leave under the next number, each with one more attempt, and nothing else changes; validity is kept |
| IngressQueue.ReadyWhen | sdk/typescript/avr-ingress-queue.js:35-37 | a batch is due exactly when it is forced, full, or its oldest receipt has waited long enough |
| IngressQueue.DrainsHold | sdk/typescript/avr-ingress-queue.js:38-44 | what a drain leaves of pending list and records, and what the batch holds |
| IngressQueue.AvrIngressQueue.MarkBatch | sdk/typescript/avr-ingress-queue.js:41 | the stamping loop marks exactly the records of the batch |
| IngressQueue.AvrIngressQueue.RecordAnchorResult | sdk/typescript/avr-ingress-queue.js:45-56 | every listed receipt is left as its outcome says, receipts not listed or not in the batch are untouched, and exactly the returned receipts are appended to pending; validity is kept |
| IngressQueue.ResultsApply | sdk/typescript/avr-ingress-queue.js:45-56 | included: provisionally included with the result's anchor; retryable or reorganised: accepted and pending again exactly below the attempt limit, the anchor dropped on a reorganisation; any other outcome fails the receipt; all others keep their records |
| IngressQueue.IncludedThenReorged | sdk/typescript/avr-ingress-queue.js:49-54 | a receipt included and then reorganised away is pending again, without its anchor, if and only if attempts remain, else failed |
| IngressQueue.AvrIngressQueue.Restore | sdk/typescript/avr-ingress-queue.js:67-93 | refuses a snapshot with the first failing check of policy, context, entries and pending ids, and succeeds exactly for a well-formed one; then rebuilds the queue of the specification |
| IngressQueue.RestoresIff | sdk/typescript/avr-ingress-queue.js:67-93 | a snapshot is restored exactly if policy and context are valid, no entry is repeated, invalid or under another id, and the pending ids are distinct and accepted; the queue then has exactly its policy, entries, order and pending ids |
| IngressQueue.AvrIngressQueue.RestoreEntries | sdk/typescript/avr-ingress-queue.js:77-84 | fails exactly on an invalid, repeated or mismatched entry, else keeps all entries in order |
| IngressQueue.AvrIngressQueue.RestorePending | sdk/typescript/avr-ingress-queue.js:85-91 | fails exactly on a repeated id or one without an accepted entry |
| IngressQueue.SubmitValid | sdk/typescript/avr-ingress-queue.js:17-34 | acceptance keeps pending duplicate-free and equal to the accepted entries, and the capacity |
| IngressQueue.DrainValid | sdk/typescript/avr-ingress-queue.js:35-44 | draining keeps every invariant, the bound of batches by attempts included |
| IngressQueue.RecordValid | sdk/typescript/avr-ingress-queue.js:45-56 | recording a result keeps every invariant and loses no record |
| IngressQueue.StaleResultIgnored | sdk/typescript/avr-ingress-queue.js:49-50 | a result that applies to no record changes nothing |
| IngressQueue.OtherBatchesUntouched | sdk/typescript/avr-ingress-queue.js:47-50 | a result leaves every record of another batch as it was |
| IngressQueue.ReachableQueues | sdk/typescript/avr-ingress-queue.js:17-56 | after any list of operations pending is duplicate-free and exactly the accepted entries, each below its attempt limit, and the batches number at most the sum of attempts, so at most the product of the two limits |
| IngressQueue.EveryRunValid | sdk/typescript/avr-ingress-queue.js:17-56 | after any list of operations the queue is valid |
| IngressQueue.SnapshotRoundTrip | sdk/typescript/avr-ingress-queue.js:58-93 | a snapshot restores the very queue when no anchor context is set, and is refused when one is |
| IngressService.SyntheticIngressService.Write | services/ingress/synthetic-ingress-service.js:40 | a file write happens as a whole or not at all |
| IngressService.SyntheticIngressService.CheckpointQueue | services/ingress/synthetic-ingress-service.js:40 | state file, then empty journal; what is on disk after a crash between them |
| IngressService.SyntheticIngressService.SubmitReceipt | services/ingress/synthetic-ingress-service.js:42-49 | disk, memory and answer after as many writes as the process lives for |
| IngressService.SyntheticIngressService.PrepareNextBatch | services/ingress/synthetic-ingress-service.js:50-62 | disk, memory and answer after as many writes as the process lives for |
| IngressService.SyntheticIngressService.ReconcileBatch | services/ingress/synthetic-ingress-service.js:68-77 | disk, memory and answer after as many writes as the process lives for |
| IngressService.SyntheticIngressService.RecordBatchResult | services/ingress/synthetic-ingress-service.js:63-67 | disk, memory and answer after as many writes as the process lives for |
| IngressService.SyntheticIngressService.Recover | services/ingress/synthetic-ingress-service.js:23-33 | the constructor throws exactly where the restart specification does, else rebuilds its service |
| IngressService.JournalAppends | services/ingress/synthetic-ingress-service.js:27-33 | one more journal line restores as one more submission |
| IngressService.CheckpointRestores | services/ingress/synthetic-ingress-service.js:40 | after either checkpoint write the restart gives exactly the checkpointed queue, with the journal cleared or not |
| IngressService.CrashAtomic | services/ingress/synthetic-ingress-service.js:40-77 | after a crash behind any write the files hold the queue before or after the operation, decided by one committing write |
| IngressService.DurableRuns | services/ingress/synthetic-ingress-service.js:23-77 | over every run with crashes the files hold the memory; a restart gives it exactly unless the last snapshot has an anchor context; no acknowledged receipt is lost; every returned batch is on file with its receipts, and returned batches share neither an id nor an unresolved receipt |
| IngressService.ReconciledBatch | services/ingress/synthetic-ingress-service.js:68-77 | in every run, reconciling a returned batch that has no result yet leaves each of its receipts as the outcome says, records the status, and restarts from the new files |
| IngressService.JournalStaysShort | services/ingress/synthetic-ingress-service.js:40-48 | fewer submissions than the checkpoint interval are in the journal only, but for one more with each crash |
| IngressService.RefusedHasContext | services/ingress/synthetic-ingress-service.js:23-24 | files that a restart refuses hold a queue that has accepted a general receipt |
| IngressService.LegacyRunsRestart | services/ingress/synthetic-ingress-service.js:23-33 | as long as no general receipt is submitted, no restart throws, whatever crashes |
| IngressService.CheckpointRestartsIff | services/ingress/synthetic-ingress-service.js:23-40 | a checkpointed service restarts exactly when no general receipt has set an anchor context |
| IngressService.GeneralReceiptThrows | services/ingress/synthetic-ingress-service.js:23-24 | one accepted general receipt, its checkpoint and a crash after which the restart throws |
| CappedRelayer.Prepare | services/relayer/base-sepolia-capped-relayer.js:30-40 | the filters and the sum decide exactly as the budget specification, refusals in order |
| CappedRelayer.CheckIff | services/relayer/base-sepolia-capped-relayer.js:31-39 | a quote is given exactly if its fee is within the price cap, its gas limit is the estimate times the multiplier, its day is the clock's, and one more reservation of limit times fee is within the day's and the hour's caps |
| CappedRelayer.RefusedFor | services/relayer/base-sepolia-capped-relayer.js:34-39 | a refusal names a limit that the next reservation would exceed |
| CappedRelayer.BaseSepoliaCappedRelayer.SubmitUnlocked | services/relayer/base-sepolia-capped-relayer.js:48-60 | one submission: a quote within every limit is reserved in the file and broadcast once at its own limit and fee, and answered as submitted exactly if the broadcast and the write after it succeed; without such a quote, or without the reservation in the file, nothing is broadcast; refused when paused |
| CappedRelayer.QuoteEffect | services/relayer/base-sepolia-capped-relayer.js:53-59 | reservations, file, broadcasts and clock after a quote, for every outcome of the writes and the broadcast |
| CappedRelayer.RestartReadsFile | services/relayer/base-sepolia-capped-relayer.js:21-22 | a process started after a crash knows exactly what the file holds |
| CappedRelayer.BaseSepoliaCappedRelayer.ReserveAndSend | services/relayer/base-sepolia-capped-relayer.js:53-59 | a failed reservation write means no broadcast; otherwise the broadcast follows the persisted reservation |
| CappedRelayer.BaseSepoliaCappedRelayer.SettleBroadcast | services/relayer/base-sepolia-capped-relayer.js:55-59 | status and file after the answer, with the error path covering a failed write too |
| CappedRelayer.NextKeepsInv | services/relayer/base-sepolia-capped-relayer.js:42-60 | every step between two awaits or writes keeps the caps, the file a version of memory, and the backing of broadcasts |
| CappedRelayer.BehindCapped | services/relayer/base-sepolia-capped-relayer.js:21 | caps that hold in memory hold for every older file, hence after a restart from it |
| CappedRelayer.WindowCapped | services/relayer/base-sepolia-capped-relayer.js:37 | any one-hour window of a day respects the hourly cap |
| CappedRelayer.AnyWindowCapped | services/relayer/base-sepolia-capped-relayer.js:35-37 | a one-hour window over a midnight holds at most twice the hourly cap, when reservations are made at most 23 hours after their day |
| CappedRelayer.SpentWithinReserved | services/relayer/base-sepolia-capped-relayer.js:53-59 | what is broadcast for a day costs no more than what the file reserves for it |
| CappedRelayer.BudgetHolds | services/relayer/base-sepolia-capped-relayer.js:35-60 | over every interleaving, failed write, failed broadcast and crash: daily and hourly caps, one persisted full-cost reservation per broadcast, total broadcast cost of a day within its cap, and no fee above the price cap |
| CappedRelayer.MidnightBound | services/relayer/base-sepolia-capped-relayer.js:30-53 | over every interleaving, failed write and crash whose delays from the day's reading to the reservation sum to at most 23 hours, any one-hour window holds at most twice the hourly cap |
| CappedRelayer.MidnightExceedsCap | services/relayer/base-sepolia-capped-relayer.js:35-37 | a run without delays that makes two reservations within an hour around a midnight with an hourly cap of one |
| CappedRelayer.InterleavedChecksOverspend | services/relayer/base-sepolia-capped-relayer.js:42-47 | two checks on the same reservations can both pass and overspend, so the promise tail is needed |
| RuntimeRelease.Host.RenameAll | deploy/governance/release-pilot-runtime.py:151-179 | all renames, or the directories as before and an error, for any plan and any one failing rename |
| RuntimeRelease.Host.UndoRenames | deploy/governance/release-pilot-runtime.py:159-165 | undoing in reverse restores the directories exactly |
| RuntimeRelease.Host.StopUnits | deploy/governance/release-pilot-runtime.py:120-129 | returns normally exactly when every stop does, having stopped all units in order; otherwise the units stopped before are started again in reverse, all of them if starting works |
| RuntimeRelease.Host.CallUnits | deploy/governance/release-pilot-runtime.py:120-134 | issues the calls in order up to the first exception |
| RuntimeRelease.Host.StartUnits | deploy/governance/release-pilot-runtime.py:132-134 | starts in reverse order up to the first exception, and returns normally exactly when every start does |
| RuntimeRelease.Host.Deploy | deploy/governance/release-pilot-runtime.py:192-217 | the guarded part of a release: one release for both components, exactly which, which services are started again, and every final error on its condition |
| RuntimeRelease.Host.Replace | deploy/governance/release-pilot-runtime.py:198-217 | the same from the stopped units on: swap, start and check, or the two handlers |
| RuntimeRelease.Host.RollBack | deploy/governance/release-pilot-runtime.py:205-212 | the new build stays current exactly when a stop raises and the outer restore meets the failing rename; every stopped unit is started again exactly when RollbackStarts says so; the two final errors tell a healthy prior build from an unhealthy one, and appear exactly when stops, renames and starts all go through |
| RuntimeRelease.Host.OuterHandler | deploy/governance/release-pilot-runtime.py:213-217 | restores if both previous builds are there and no rename fails, else changes no directory; then starts the units up to the first exception, unless its restore failed; never returns normally |
| RuntimeRelease.Host.Activate | deploy/governance/release-pilot-runtime.py:182-222 | on every exit both components are on one release, new exactly on normal return or in the stranded case, with no stage left; the last command for every stopped unit is a start exactly when ServicesBack holds of the faults; each final error exactly on its condition |
| RuntimeRelease.CallsSucceedServicesBack | deploy/governance/release-pilot-runtime.py:120-134 | if every systemctl call succeeds, every stopped unit is started again, whatever the health checks and the one failing rename do |
| RuntimeRelease.FailedStopStays | deploy/governance/release-pilot-runtime.py:120-129 | the unit whose stop raises is not started again by the loop that undoes the stops |
| RuntimeRelease.LastOfStarts | deploy/governance/release-pilot-runtime.py:132-134 | the starts undo the stops from the last unit on |
| RuntimeRelease.TwoRounds | deploy/governance/release-pilot-runtime.py:205-217 | the starts of the rollback and of the outer handler together reach every unit exactly when one of the two rounds is complete |
| RuntimeRelease.NormalCallsSucceeded | deploy/governance/release-pilot-runtime.py:192-204 | a normal return means that every stop and start succeeded |
| RuntimeRelease.NonzeroStopsDoNotStrand | deploy/governance/release-pilot-runtime.py:205-208 | a nonzero status of a rollback stop never strands the new build; only a timeout or a command that cannot run does |
| RuntimeRelease.SwapInstalls | deploy/governance/release-pilot-runtime.py:151-158 | the swap finds every path free and installs both new builds beside the old ones |
| RuntimeRelease.RestoreRollsBack | deploy/governance/release-pilot-runtime.py:168-175 | the restore finds every path free and brings both old builds back |
| RuntimeRelease.StrandingHappens | deploy/governance/release-pilot-runtime.py:203-217 | concrete faults, one failing rename among them, that strand the new build |
| ImportQueue.DurableQueue.Enqueue | sdk/typescript/orvessian-queue.js:20-30 | inserts, recognises a repeat, or refuses a collision or a full queue, changing nothing on refusal |
| ImportQueue.DurableQueue.Flush | sdk/typescript/orvessian-queue.js:31-40 | delivers the oldest rows in order up to the limit or the first failure; delivered and pending together stay the same, and only accepted rows leave |
| ImportQueue.DurableQueue.InsertPage | sdk/typescript/orvessian-queue.js:59 | all rows of a page or none |
| ImportQueue.DurableQueue.CommitImportPage | sdk/typescript/orvessian-queue.js:48-63 | page and checkpoint together, or nothing and the first error |
| ImportQueue.AllDistinct | sdk/typescript/orvessian-queue.js:52 | the identity set decides exactly whether two rows of a page share an id |
| ImportQueue.InsertedRows | sdk/typescript/orvessian-queue.js:59 | an inserted page adds exactly its rows behind the older ones, within capacity and with unique ids |
| ImportQueue.CommitAdvances | sdk/typescript/orvessian-queue.js:55-61 | a commit succeeds only at the stored position and moves it one step along the source's path |
| ImportQueue.ImportWindow | sdk/typescript/orvessian-langfuse.js:65-77 | one importer stores and commits the next pages of the path, in order, up to its page limit or the end; it returns normally exactly if the pages due stay below 10000, have a checkpoint slot, repeat no id within a page and no cursor, conflict with nothing and fit the table, and then has read all of them; otherwise the error says what is wrong with the next page; another source's import is left alone |
| ImportQueue.InsertRowsIff | sdk/typescript/orvessian-queue.js:20-30 | a table takes a list of rows exactly when no two bodies share an id and the ids fit, and then holds all their ids; a refusal names the reason |
| ImportQueue.AloneImports | sdk/typescript/orvessian-langfuse.js:65-77 | an importer of the step machine that nothing interrupts imports all pages due if they are importable, as ImportWindow does |
| ImportQueue.EveryRunWithinLimits | sdk/typescript/orvessian-langfuse.js:67-68 | in every interleaving no call reads more pages than its limit and no import more than 10000 |
| ImportQueue.CursorsRemembered | sdk/typescript/orvessian-langfuse.js:66-75 | a call remembers every cursor it was at and commits no page that leads back to one |
| ImportQueue.AloneFlushes | sdk/typescript/orvessian-queue.js:31-40 | a flush that nothing interrupts takes the oldest rows off the table, all delivered |
| ImportQueue.CycleWithinIff | sdk/typescript/orvessian-langfuse.js:66-75 | on a path with a cycle, n pages from any page in the cycle on repeat a cursor exactly when the cycle is at most n pages long |
| ImportQueue.ImportInCycle | sdk/typescript/orvessian-langfuse.js:65-77 | a call that starts in a cycle reports it only if the cycle is at most as long as its page limit, and returns normally only if it is longer |
| ImportQueue.LongCycleUnseen | sdk/typescript/orvessian-langfuse.js:66-75 | an instance: a cycle of two that calls of one page never see, however many follow each other |
| ImportQueue.ImportsFollowThePath | sdk/typescript/orvessian-langfuse.js:65-76 | over every interleaving, imports of other sources included, the cursor at revision r is the r-th on the path, the first r pages are committed in order and once each, none of their records is lost, and complete means the path ends; nothing is committed if another source took the id first |
| GetworkAdapter.Adapter.RecordWork | scripts/kawpow_getwork_adapter.py:121-125 | is the machine's step: the new work is the newest entry, at most 64 are kept, and the invariant holds |
| GetworkAdapter.Adapter.LookUpWork | scripts/kawpow_getwork_adapter.py:134-144 | is the machine's step: a key exactly for known work that has not expired, made of its work id, nonce and mix digest |
| GetworkAdapter.Adapter.AdmitKey | scripts/kawpow_getwork_adapter.py:146-154 | is the machine's step: the call ends exactly for a key tracked or in flight, any other was not in flight and now is |
| GetworkAdapter.Adapter.DiscardKey | scripts/kawpow_getwork_adapter.py:156-162 | is the machine's step: afterwards the in-flight set still holds the key of every other call at the node, none of them the same key |
| GetworkAdapter.Adapter.TrackSubmission | scripts/kawpow_getwork_adapter.py:163-167 | is the machine's step: the submission is the newest entry and at most 2048 are kept |
| GetworkAdapter.Adapter.FinishSubmission | scripts/kawpow_getwork_adapter.py:155-169 | from the node's answer on, the machine's steps; true exactly for an accepting answer |
| GetworkAdapter.Adapter.SubmitWork | scripts/kawpow_getwork_adapter.py:128-169 | an uninterrupted submission is the machine's steps, keeps the invariant and leaves other threads alone; it returns true if and only if the header has unexpired work, the key made from it is neither tracked nor in flight, and the node accepts |
| GetworkAdapter.GetIs | scripts/kawpow_getwork_adapter.py:134-136 | in a dictionary without repeated keys a lookup gives exactly the entry of the key |
| GetworkAdapter.TouchBounded | scripts/kawpow_getwork_adapter.py:121-125 | touching keeps keys unique and the bound, with the touched key newest |
| GetworkAdapter.EveryRunKeepsInv | scripts/kawpow_getwork_adapter.py:146-167 | in every interleaving the in-flight set is exactly the keys of threads at the node, and every key forwarded so far is accounted for |
| GetworkAdapter.OneSubmissionPerKey | scripts/kawpow_getwork_adapter.py:121-167 | in every interleaving the bounds hold, at most one submission per key is at the node, and none is admitted while its key is tracked or in flight |
| GetworkAdapter.ForwardedAgainIff | scripts/kawpow_getwork_adapter.py:146-167 | when a key is forwarded, it was forwarded before exactly if another thread is then between leaving flight and tracking it, an earlier call for it gave no usable answer, or it was evicted |
| GetworkAdapter.ForwardedOnceIff | scripts/kawpow_getwork_adapter.py:146-167 | a run forwards every key at most once exactly when no admission in it is of a key that is at that moment in the gap, failed or evicted |
| GetworkAdapter.EvictionNeedsLoad | scripts/kawpow_getwork_adapter.py:163-167 | nothing is evicted before more than 2048 submissions have been tracked |
| GetworkAdapter.ForwardedTwice | scripts/kawpow_getwork_adapter.py:160-164 | an interleaving in which a key is forwarded twice |
| PeriodicAgent.Agent.FinalizePending | examples/periodic-base-health-agent.py:190-198 | settles the pending record in one saved state |
| PeriodicAgent.Agent.SendPending | examples/periodic-base-health-agent.py:204-217 | settles on acceptance, else saves a retry time and keeps the pending record |
| PeriodicAgent.Agent.LoopPass | examples/periodic-base-health-agent.py:259-338 | one pass is the seven steps of the machine and has exactly the effect of PassEffect: a pending record is sent again once its retry time has come, else the slot of the current hour is checked if it is not used up and attempts remain; before each external call the file holds what PassFiles says |
| PeriodicAgent.StepFiles | examples/periodic-base-health-agent.py:299-335 | the slot is used up in the file before the heartbeat, the attempt counted before the model call, the record kept before it is sent: what a crash at that call leaves |
| PeriodicAgent.PassIs | examples/periodic-base-health-agent.py:259-338 | the steps of a pass: one model call, attempt, heartbeat and record for a slot, settled if the API accepted it, kept for a retry otherwise; only the slot is used up without a heartbeat |
| PeriodicAgent.DueIff | examples/periodic-base-health-agent.py:287-297 | a check is due exactly in a slot not yet passed whose hour it is, so missed hours are skipped |
| PeriodicAgent.Agent.MainLoop | examples/periodic-base-health-agent.py:259-338 | any number of passes, one after another, and the invariant of the machine |
| PeriodicAgent.NextKeepsInv | examples/periodic-base-health-agent.py:259-338 | every step and every crash keeps the counters ordered and each sent record settled or pending |
| PeriodicAgent.BoundedAgent | examples/periodic-base-health-agent.py:164-338 | over any crashes and restarts: at most 48 model calls, at most one per slot, the counters in order, no sequence number sent with two records, and a file that always loads |

## Left out

- Keccak, SHA-256, signatures and ABI encoding: hash parameters and decoded events stand for them.
- HTTP and RPC clients, SQLite, systemd and file syntax: outcomes are parameters, files and transactions are values.
- Field-shape validators (presentations, receipts, manifests, import pages): one validity flag, or the fields the modelled code reads.
- Index configuration: chain id and binding checks, and the legacy-index refusal. The index results read each range on one view; `ReadsOfOneView` says when the reads of a range are those of one view, and the errors of the scan for a chain that changes there only end the run.
- Which batch a lookup returns when several list the receipt: the model returns any of them.
- LWMA and Ethash control, and the floating-point simulator and its reports.
- CanonicalJson.ParseCanonical: the parser reads compact text only; white space, repeated keys and undefined values are not modelled. A finite number is its shortest decimal digits; how a double gets them is not modelled.
- ReceiptStream.HistoryUnique: receipt validation covers the stream, the shared fields and distinct keys, not every other field.
- The evidence and attestation helpers of verification receipts.
- IngressService.DurableRuns: the policy is fixed. The metrics file, the API key and the settlement adapter are not modelled.
- The entries of the queue's pending list are shared with its record map in the source; the model keeps ids in the list and looks entries up.
- CappedRelayer.BudgetHolds: a nondecreasing clock and a fixed policy; the hourly cap is per day, as in the source. The checks that a transaction matches its manifest are not modelled.
- RuntimeRelease.Host.Activate: at most one failing rename, as an explicit fault; stages are removed without failure, the unpacking limits are not modelled, and the separate rollback command is left out.
- ImportQueue.ImportsFollowThePath: a source whose page depends only on the cursor; the mapping of scores to events is part of the source.
- The audit log and the work status file of the getwork adapter.
- PeriodicAgent.BoundedAgent: the one-shot mode, sleeping, the last block seen and the end of the run window are not modelled; they bear on no counter or only end the run earlier.
- The unused rewindState of the indexer, the deployed copy of the indexer, smart contracts and the hosted worker.
