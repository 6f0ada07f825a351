# Sumweave finance and event-stream verification

This project models the decision cores of Sumweave's finance service and the event stream of its runtime, and proves what
they promise. Each module follows one part of the program:

- **Transfer matching** (`MatchingGraph`, `TransferEvidence`, `TransferGraph`, `TransferIndex`, `TransferSearch`,
  `TransferMatching`, `TransferService`, `TransferMeaning`). Two booked transactions are linked as a transfer when each
  is the other's only candidate. The sorted indexes, binary searches, windows and caps are proved to decide as brute
  force over all eligible rows would, and the order and the split of runs are proved not to matter.
- **FX evidence** (`FxEvidence`, `FxEvidenceParser`, `FxEvidencePrinting`, `FxRates`, `FxConversion`, `FxDescriptions`).
  The description parser inverts printing, rates have canonical forms, and the conversion test is exact half-up
  rounding.
- **Provider sync** (`ProviderSync`, `ProviderDiff`, `ProviderApply`, `ProviderReplan`, `ProviderDecision`,
  `ProviderWritten`, `ProviderExamples`). Checkpointed windows never leave a gap back to three years before the first
  run, user edits survive observations, and when synchronising a batch twice is synchronising it once.
- **Event stream** (`Broadcast` in `EventBus.dfy`, `BackgroundRunner`, `BackgroundExample`). Interleaved steps of
  publishers, subscribers and late readers; everyone gets every event from its join point once and in order, and the
  run's error at its end.
- **CSV import** (`CsvAmount`, `CsvImport`, `CsvImportJob`, `CsvImportPreview`, `CsvImportPrediction`,
  `CsvImportRules`). Retried and crashed jobs equal one run; the preview predicts that run.
- **Cash flow** (`Calendar`, `CashFlowBuckets`, `BucketSums`, `Reporting`, `CashFlowSeries`, `CashFlowAgreement`,
  `ReportAmounts`). The SQL series and the dashboard, two implementations of one report, agree.
- **FX refresh schedule** (`FxSchedule`). Competing schedulers publish each occurrence at most once.
- **Classification** (`Classification`). Keyset pages over a set that the loop and other writers change.

`Prelude` and `Text` hold what they share: 64-bit integers as a subset type, instants in nanoseconds, decimal digits, spaces
and letter case. A class stands for each object the program updates in place; its methods are proved against functions on
values, and the lemmas are about those functions.

## What the code does differently

Where the code and what its documentation or its purpose suggest part ways, the model follows the code:

- A rate fraction that runs into an amount is checked in its first character and the character after the fourth only, so
  some descriptions yield a coefficient that is not a number (`FxConversion.UncheckedFraction`). Such evidence matches
  no conversion.
- The checkpoint is the record with the latest creation time, so after a clock went back a successful run need not move
  it (`ProviderSync.SuccessMovesCheckpoint`). Coverage holds regardless.
- The history is counted before a run is registered, so a count taken during another run can be too small
  (`BackgroundRunner.StaleCountExample`); `BackgroundRunner.EveryRunReaderSeesWholeHistory` has the exact condition.
- The preview does not see a row that repeats an earlier row of its file, and counts a row that repeats a stored
  transaction as a duplicate where the run rejects it; `CsvImportPrediction.PreviewPredictsRun` has the exact condition.
- Planning a batch again is idle exactly when observations that update one transaction use different match rows and
  report the same status and original (`ProviderReplan.SyncTwiceIsSyncOnce`); a shared match row goes to the last
  observation (`ProviderExamples.SharedRowExample`), and several match rows of one identity create a new transaction on
  every sync (`ProviderReplan.ByProviderIdIffOneRow`).
- Enable Banking reports a transaction without a date with an original that states no time. The time is then frozen at
  what it shows, the zero instant for an unedited one, until a later report states that very time
  (`ProviderDiff.TimeFollowsIffDated`, `ProviderDiff.UndatedExample`).
- The dashboard also calls a period incomplete for a booked amount of zero without a rate, which the series skips
  (`CashFlowAgreement.CompletenessAgrees`).
- A transfer matched at the zero instant is reported by the dashboard only (`CashFlowAgreement.InclusionAgrees`).

## Model

| member | source | states |
|---|---|---|
| `TransferGraph.RelatedSymmetric` | finance/service_transfer_matching.go:699-846 | The candidate relation, over all four kinds of evidence and with the guards against the least integer, is symmetric |
| `TransferGraph.RelatedLegsAreOpposite` | finance/service_ledger.go:437-452 | Related transactions with non-zero amounts differ in identifier and account and have opposite signs, as pair validation demands |
| `TransferGraph.PairsDisjoint` | finance/service_transfer_matching.go:461-491 | Two planned pairs that share a transaction are the same pair |
| `TransferGraph.LoadExtensionExact` | finance/persistence/transfer_pair_store.go:83-84 | Over the rows loaded with the 144 hour extension, a start in the range has the candidates and the decision it has over all eligible rows |
| `TransferGraph.SplitRange` | finance/service_transfer_matching.go:153-207 | Runs over any list of ranges that cover the same instants, in any order and overlap, link exactly the pairs of one run over the whole range |
| `MatchingGraph.RemovingPairsKeepsNeighbours` | finance/service_transfer_matching.go:632-653 | Taking accepted pairs out of the pool changes no other member's candidate set |
| `MatchingGraph.RemovingPairsKeepsMutual` | finance/service_transfer_matching.go:632-653 | Taking accepted pairs out changes no other member's accepted partner |
| `MatchingGraph.Confluence` | finance/service_transfer_matching.go:461-491 | For any symmetric relation, a sequence of runs links the pairs of one run over the union of their starts |
| `MatchingGraph.RerunLinksNothing` | finance/service_transfer_matching.go:461-491 | A run repeated after its own links finds no pair |
| `TransferIndex.BuildIndexes` | finance/service_transfer_matching.go:493-548 | The loop fills four indexes that hold, per key, exactly the loaded transactions with that key, each once and sorted by time then identifier, and the starts in the range |
| `TransferIndex.SortBuckets` | finance/service_transfer_matching.go:608-615 | Sorting the buckets keeps each one's members and puts them in time order |
| `TransferSearch.WindowStart` | finance/service_transfer_matching.go:775-809 | The binary search finds the first bucket entry that is not before the window |
| `TransferSearch.ScanWindow` | finance/service_transfer_matching.go:775-809 | A scan that stops past the window and at two candidates yields min(2, n) of the n wanted entries of the bucket, all of them when there are fewer than two |
| `TransferSearch.SameCurrencyCandidates` | finance/service_transfer_matching.go:775-809 | The same-currency search is a capped search for exactly the brute-force counterparts |
| `TransferSearch.FxCandidates` | finance/service_transfer_matching.go:811-846 | The same for FX evidence, over the bucket of equal evidence, which is scanned from its beginning |
| `TransferSearch.MonobankCandidates` | finance/service_transfer_matching.go:734-773 | The same for Monobank evidence |
| `TransferSearch.PkoCandidates` | finance/service_transfer_matching.go:699-732 | The same for PKO evidence |
| `TransferSearch.AddCandidates` | finance/service_transfer_matching.go:667-697 | Merging capped results, dropping repeated identifiers, is a capped search for the union of what they look for |
| `TransferSearch.MatchingCandidates` | finance/service_transfer_matching.go:667-697 | The merged candidates of a transaction are a capped search for the brute-force relation |
| `TransferMatching.SearchRefinesBruteForce` | finance/service_transfer_matching.go:667-697 | A capped result has min(2, n) members for n brute-force candidates, and equals their set when there are fewer than two |
| `TransferMatching.EvaluateStart` | finance/service_transfer_matching.go:632-653 | The decision of a start is unmatched, ambiguous or paired exactly as brute force over the whole pool decides it; paired means mutually unique |
| `TransferMatching.DecidePairs` | finance/service_transfer_matching.go:461-491 | The planned pairs are exactly the mutually unique pairs with a leg among the starts, each once and in order, and the counts are those of the decisions |
| `TransferService.TransferPairStore.ListEligible` | finance/persistence/transfer_pair_store.go:79-162 | The load returns exactly the eligible rows of the widened range, each once |
| `TransferService.TransferPairStore.LinkTransferPair` | finance/persistence/transfer_pair_store.go:164-235 | Linking makes transfers of exactly the two rows, with the group and the match time and no other change, or does nothing when a row is missing or both are one |
| `TransferService.TransferMatchingService.SavePairs` | finance/service_transfer_matching.go:209-306 | Every planned pair is saved under its own fresh group and counted; no other row changes |
| `TransferService.TransferMatchingService.Match` | finance/service_transfer_matching.go:153-207 | A run over a valid range links exactly the pairs that brute force over all eligible rows would, each pair becoming transfers under a group of its own at the time of the run, and returns the number of those pairs and of the starts without a candidate and with an ambiguous one; an invalid range changes nothing |
| `TransferService.PoolAfterRun` | finance/service_transfer_matching.go:153-207 | The eligible pool after a run is the pool before it without the linked legs |
| `TransferService.LinkedLegsBecomeTransfers` | finance/persistence/transfer_pair_store.go:164-181 | After a run, both legs of every linked pair have the kind of a transfer, one group that no other row has, and the time of the run; every other field of them is as before |
| `TransferService.RunTouchesOnly` | finance/persistence/transfer_pair_store.go:140-157 | Every row a run changes was visible on a visible account, booked, regular, expense, income or transfer, not from the system, over an amount, not excluded and not linked; so was its partner, on another account, of the opposite sign, at most 72 hours away, with one of the two in the range |
| `TransferService.LonePairIsLinked` | finance/service_transfer_matching.go:153-207 | Two such rows over opposite amounts of one currency on different accounts, at most 72 hours apart and one of them in the range, are linked when no other usable row lies within 72 hours of either |
| `TransferService.CountsMean` | finance/service_transfer_matching.go:461-491 | The counts of a run are the number of linked pairs, of starts without a candidate and of starts with candidates but no partner, and nothing is skipped |
| `TransferMeaning.SameCurrencyCounterparts` | finance/service_transfer_matching.go:775-809 | Counterparts in one currency are different transactions on different accounts at most 72 hours apart whose amounts add up to zero |
| `TransferMeaning.MonobankCounterparts` | finance/service_transfer_matching.go:734-773 | Counterparts by Monobank evidence are on one connection, and the stored document of each names the other leg's amount and currency, with both category codes of a card transfer |
| `TransferMeaning.PkoCounterparts` | finance/service_transfer_matching.go:699-732 | Counterparts by PKO evidence are on one connection in different currencies, one document a debit from and to the same two accounts of which the other is the credit |
| `TransferMeaning.SameEvidence` | finance/fx_evidence.go:226-245 | Two printed descriptions of one reference and pair yield the same evidence exactly when their rates are the same number |
| `TransferMeaning.FxCounterparts` | finance/service_transfer_matching.go:811-846 | Counterparts by a rate are on one connection, their descriptions yield the same evidence, and their amounts convert at its rate |
| `TransferMeaning.RelatedMeans` | finance/service_transfer_matching.go:667-697 | Two transactions are candidates of each other exactly through one of these four, written out over the transactions and their documents |
| `TransferService.HistoryLinksRange` | finance/service_transfer_matching.go:153-207 | On the store: a history of runs links exactly the pairs that one run over the covered range would have linked at the beginning |
| `TransferEvidence.ExtractMonobank` | finance/internal/monobank/transfer_matching_evidence.go:39-74 | Evidence carries the stored amount and an operation amount of the same sign in another currency |
| `TransferEvidence.ExtractPko` | finance/internal/pko/transfer_matching_evidence.go:61-88 | Evidence carries the stored amount, its direction is the amount's sign, and the tracked account is the source of a debit and the destination of a credit |
| `FxEvidenceParser.ExtractFXEvidence` | finance/fx_evidence.go:27-75 | The cursor parser computes the grammar-level extraction for every description |
| `FxEvidenceParser.ConsumeRate` | finance/fx_evidence.go:111-139 | Consuming a rate takes the digits, separator and fraction, and reports whether amounts must follow, the four-digit fraction before an amount included |
| `FxEvidenceParser.ConsumeLocalizedAmount` | finance/fx_evidence.go:141-171 | Consuming an amount takes exactly one localized amount of the grammar |
| `FxEvidenceParser.Normalize` | finance/fx_evidence.go:226-245 | The trimming loop computes the normal form |
| `FxEvidencePrinting.ParseSound` | finance/fx_evidence.go:27-75 | Every parsed description is the printed form of its parts |
| `FxEvidencePrinting.ParseComplete` | finance/fx_evidence.go:27-75 | Every printed form of well-shaped parts parses to those parts |
| `FxRates.NormalizePrinted` | finance/fx_evidence.go:226-245 | Normalising a printed rate is trimming its digits, and fails exactly on a separator among them |
| `FxRates.NormalizeDecimal` | finance/fx_evidence.go:226-245 | The normal form of a decimal rate has its value, no leading zero and no superfluous trailing zero; zero has none |
| `FxRates.NormalizeIsCanonical` | finance/fx_evidence.go:226-245 | Two positive decimal rates have one normal form exactly when their values are equal |
| `FxRates.ExtractAcceptsPrinted` | finance/fx_evidence.go:27-75 | A description yields evidence exactly when it is the printed form of accepted parts |
| `FxRates.ExtractInvertsPrint` | finance/fx_evidence.go:27-171 | Extracting from a printed description returns its reference, its pair and its normalised rate |
| `FxRates.PrintInjective` | finance/fx_evidence.go:27-171 | Distinct well-shaped parts have distinct descriptions |
| `FxConversion.ConversionMatchesIffHalfUp` | finance/fx_evidence.go:173-224 | For a positive rate between recognised currencies the test holds exactly when both magnitudes are admissible, the signs are opposite and the quote amount is the half-up rounding of the exact product |
| `FxConversion.ConversionDependsOnRateValue` | finance/fx_evidence.go:173-224 | The test gives the same answer for equal rate values and with the legs swapped |
| `FxConversion.FxConversionMatches` | finance/fx_evidence.go:173-224 | The computation with quotient and doubled remainder decides the conversion test |
| `FxConversion.UncheckedFraction` | finance/fx_evidence.go:111-139 | A description of the grammar always yields evidence, and its coefficient is a positive number exactly when the fraction in front of the amounts, if any, is all digits; only its first character is checked |
| `FxConversion.UncheckedFractionExample` | finance/fx_evidence.go:111-139 | A concrete description with such a coefficient |
| `FxConversion.OnlyLegsMatch` | finance/fx_evidence.go:173-224 | Amounts match only in the two recognised currencies of the evidence, and only at a coefficient that is a positive number |
| `FxDescriptions.RateDescription` | finance/fx_evidence.go:27-139 | A description of FX, reference, pair and a rate with a point or a comma yields exactly that reference, pair and number, without superfluous zeros |
| `FxDescriptions.WholeRateDescription` | finance/fx_evidence.go:27-139 | So does one with a whole rate |
| `FxDescriptions.AmountsDescription` | finance/fx_evidence.go:27-171 | So does one whose four decimals run into the amounts of both legs |
| `FxDescriptions.BankDescriptionYields` | finance/fx_evidence_test.go:46-54 | The bank description of the tests, with grouped amounts, yields the rate 4.3668 |
| `FxDescriptions.BankLegsConvert` | finance/fx_evidence.go:173-224 | 2500.00 EUR and 10917.00 PLN of opposite signs match at that rate in either order, and one hundredth more or less does not |
| `ProviderSync.DetermineResumes` | finance/internal/providers/target_window_policy.go:34-83 | A run that continues from a record starts at the earlier of its checkpoint and 30 days before the target end |
| `ProviderSync.FirstRunGoesBackThreeYears` | finance/internal/providers/target_window_policy.go:60-67 | Without a journal and an explicit start, the target starts on the same date at the same clock three years before its end; from 29 February, on 1 March |
| `ProviderSync.ContinuedRunStarts` | finance/internal/providers/target_window_policy.go:64-83 | A continued run starts at the end of a window that succeeded or the start of one that failed, or 30 days before its own end if that is earlier; an invalid recorded window or an empty target stops it |
| `ProviderSync.ExplicitStart` | finance/internal/providers/target_window_policy.go:37-58 | An explicit start is taken as it is, whatever was journaled, unless it leaves no window |
| `ProviderSync.ChunksAre30Days` | finance/internal/providers/window_chunk_policy.go:13-31 | Every chunk but the last is exactly 30 days long and each starts where the one before ends |
| `ProviderSync.Split` | finance/internal/providers/window_chunk_policy.go:13-31 | The chunks are the contiguous oldest-first 30 day tiling of a valid target; an invalid one is rejected |
| `ProviderSync.LastStateIsLatest` | finance/persistence/provider_sync_state_journal_store.go:25-44 | The last state is a record of the journal that no record is dated after |
| `ProviderSync.SyncOrchestrator.ExecuteRequestedWindow` | finance/internal/providers/sync_orchestrator.go:234-302 | A window that succeeds leaves one success record and the merged statistics, one that fails at most one failure record |
| `ProviderSync.SyncOrchestrator.Orchestrate` | finance/internal/providers/sync_orchestrator.go:120-200 | A run executes the chunks in order up to the first failure; its result and its journal are determined by the plan and the outcomes |
| `ProviderSync.NoGapEver` | finance/internal/providers/sync_orchestrator.go:120-302 | After any sequence of runs without an explicit start, with any clocks, ends, failures and lost failure records, succeeded windows cover everything from the first journaled window to the checkpoint |
| `ProviderSync.SuccessfulRunRecords` | finance/internal/providers/sync_orchestrator.go:120-200 | A fully successful run journals every chunk, the last with the statistics of all |
| `ProviderSync.RecordsTell` | finance/internal/providers/sync_orchestrator.go:120-302 | Each record of a run is one chunk, succeeded exactly if that chunk was committed, and carries the statistics of the committed chunks so far; all chunks before it were committed |
| `ProviderSync.RecordsCounted` | finance/internal/providers/sync_orchestrator.go:120-302 | There is one record for each chunk up to the first that failed, which may go unrecorded |
| `ProviderSync.StatsAddUp` | finance/internal/providers/sync_orchestrator.go:202-232 | Each of the six numbers of a run's statistics is the sum of that number over its chunks |
| `ProviderSync.SuccessfulRunCovers` | finance/internal/providers/sync_orchestrator.go:120-200 | The windows that succeeded in a fully successful run cover its whole target |
| `ProviderSync.FirstRunCoversThreeYears` | finance/internal/providers/sync_orchestrator.go:120-200 | A first run that fully succeeds has covered the three years before its end, by date and clock |
| `ProviderSync.NothingMissingSinceBackfill` | finance/internal/providers/sync_orchestrator.go:120-302 | After any sequence of runs the succeeded windows cover everything from three years before the end of the first recorded run up to the checkpoint |
| `ProviderSync.SuccessMovesCheckpoint` | finance/internal/providers/sync_orchestrator.go:120-200 | Its last record's checkpoint is the target end; the next run continues from it exactly when no record is dated after it |
| `ProviderSync.SkewedClockExample` | finance/persistence/provider_sync_state_journal_store.go:25-44 | A failed run, then a successful one on a clock that went back: the checkpoint stays with the failed run |
| `ProviderDiff.Plan` | finance/internal/providers/diff.go:52-90 | Every observation becomes one action in order; the counts are the numbers of creations and updates, and the issues are the warnings of the ambiguous creations in order |
| `ProviderDiff.PlanApply` | finance/internal/providers/apply.go:32-48 | Exactly the updates carry the merge of their stored transaction |
| `ProviderDiff.MergeAgainIffConsistent` | finance/internal/providers/apply.go:57-129 | Merging an observation twice is merging it once for every transaction exactly when its original agrees with its own fields |
| `ProviderDiff.EditsSurvive` | finance/internal/providers/apply.go:57-108 | Over any series of reports that state their originals, an edited field keeps the user's value until that value is reported; otherwise the field is the last report |
| `ProviderDiff.FieldOverAnySeries` | finance/internal/providers/apply.go:57-129 | Over any series at all: a report whose original does not state the field freezes it, and from the last such report on it keeps its value until that value is reported |
| `ProviderDiff.FieldsRefresh` | finance/internal/providers/apply.go:57-80 | Merging any series of consistent observations refreshes each field on its own, takes the last status and leaves account, source and visibility alone |
| `ProviderDiff.UserEditsSurvive` | finance/internal/providers/apply.go:57-129 | The same for amount, currency and description of a whole transaction over any series of consistent observations, and for its time from the last observation without a date on |
| `ProviderDiff.TimeFollowsIffDated` | finance/internal/providers/apply.go:103-129 | An unedited time equals the latest observation, whatever is observed next, exactly when the observation before was dated |
| `ProviderDiff.UndatedExample` | finance/internal/enablebanking/connector.go:641-662 | An unedited time, an observation without a date and one with: the zero instant stays |
| `ProviderApply.WindowSyncStore.ApplySync` | finance/internal/providers/window_sync_store.go:129-227 | Observed accounts without a finance account get one, then the writes are applied in order, or nothing at all when an account is still not mapped |
| `ProviderApply.WindowSyncStore.SaveObservedAccounts` | finance/internal/providers/window_sync_store.go:303-347 | Exactly the observed accounts that are not mapped yet are mapped |
| `ProviderWritten.SyncSucceedsIffMapped` | finance/internal/providers/window_sync_store.go:657-692 | A synchronisation goes through exactly when every transaction it creates has its account mapped by then |
| `ProviderApply.WindowSyncStore.SyncWindow` | finance/internal/providers/window_sync_store.go:71-227 | Load, plan, merge, open accounts and save leave the tables of the sync function, or the old ones on a failure |
| `ProviderWritten.CreatedIsShown` | finance/internal/providers/window_sync_store.go:657-715 | Every creation of a synchronisation that went through is a new visible provider transaction on the observation's finance account with its status, amount, currency, description, time and original, and a new match row of its account, provider identifier, fingerprint and status |
| `ProviderWritten.CreatedFollows` | finance/internal/providers/apply.go:57-80 | Such a transaction follows the next report in status, amount, currency and description, and in time exactly if the report before was dated |
| `ProviderWritten.UpdatedIsMerged` | finance/internal/providers/apply.go:57-80 | The last update of a transaction takes status and original, each other field exactly if the transaction still showed its original there, and its match row has the observation's identity |
| `ProviderWritten.OthersAreLeft` | finance/internal/providers/window_sync_store.go:545-581 | One transaction and one match row are added for each creation; transactions and match rows that no update names stay as they were |
| `ProviderWritten.OpenedAsFirst` | finance/internal/providers/window_sync_store.go:303-347 | A mapped account keeps its finance account, and a new one gets that of its first opening |
| `ProviderReplan.StrongAre` | finance/internal/providers/diff.go:92-113 | The strong matches of an observation are exactly the stored match rows of its account and provider identifier |
| `ProviderReplan.ByProviderIdIffOneRow` | finance/internal/providers/diff.go:92-127 | An observation updates by provider identifier exactly when one row has its identity; with several it always creates another transaction |
| `ProviderDecision.OneFingerprintUpdates` | finance/internal/providers/diff.go:124-142 | Without an identity or a row of it, an observation updates the transaction of the one row in the window with its fingerprint |
| `ProviderDecision.SeveralFingerprintsCreate` | finance/internal/providers/diff.go:124-142 | Several such rows are ambiguous and create a transaction |
| `ProviderDecision.NoMatchCreates` | finance/internal/providers/diff.go:143-163 | Without any, a transaction is created, with a warning exactly when the window holds one of the same account, amount, currency and time |
| `ProviderDecision.ResemblanceIsWeakCandidate` | finance/internal/providers/diff.go:243-280 | A weak candidate is a provider transaction of the window with the observation's account, amount, currency and time |
| `ProviderDecision.WhatIsLoaded` | finance/internal/providers/window_sync_store.go:71-127 | The snapshot holds the provider transactions of mapped accounts in the window with their match rows, and the match rows of the identities that the batch states |
| `ProviderDecision.StrongMatchIsLookedUp` | finance/internal/providers/diff.go:92-122 | One strong match updates its transaction, looked up in the window first and then among the stated identities |
| `ProviderDecision.DanglingMatchIsPassedOver` | finance/internal/providers/diff.go:92-163 | One match whose transaction the snapshot does not hold is passed over as if there were none |
| `ProviderReplan.ReusedStrong` | finance/internal/providers/window_sync_store.go:853-892 | Such an update goes on with that one match row |
| `ProviderReplan.ReusedRow` | finance/internal/providers/window_sync_store.go:853-892 | A reused match row belongs to the transaction that is updated |
| `ProviderReplan.UpdateReuses` | finance/internal/providers/window_sync_store.go:853-892 | Every planned update, by fingerprint too, goes on with one match row of its transaction |
| `ProviderReplan.SyncTwiceIsSyncOnce` | finance/internal/providers/diff.go:52-163 | For unique identities and consistent observations: planned again against the tables its own plan left, in any window, a batch gives only updates by provider identifier whose merges change nothing exactly when observations that update one transaction go on with different match rows and report the same status and original; and then applying it again changes no table |
| `ProviderReplan.SharedRowClash` | finance/internal/providers/window_sync_store.go:694-715 | When two observations go on with one match row the first loses it: planned again, it is no update by provider identifier |
| `ProviderExamples.SharedRowExample` | finance/internal/providers/window_sync_store.go:694-715 | A batch of two observations with one fingerprint of which the first loses its match row |
| `ProviderExamples.TwinExample` | finance/internal/providers/window_sync_store.go:694-715 | A batch of two observations that share a transaction through two match rows, and leave nothing to do |
| `Broadcast.StepKeeps` | runtime/internal/event_bus.go:38-199 | Every step of publisher, subscribers and readers keeps: received, queued and owed events of a subscriber are the buffer from its join point |
| `Broadcast.RunKeeps` | runtime/internal/event_bus.go:38-199 | So does every interleaving |
| `Broadcast.BufferIsPublished` | runtime/internal/event_bus.go:38-50 | The buffer is what was published before the close, in order |
| `Broadcast.DeliveredExactly` | runtime/internal/event_bus.go:38-199 | Received is always a prefix of what was published from the join point; received and queued are all of it while subscribed and between sends; a closed and drained channel has delivered all of it |
| `Broadcast.FinalError` | runtime/internal/event_bus.go:78-95 | Over every interleaving the bus is closed exactly if some step closed it, and its final error is the error of the first that did |
| `Broadcast.ClosedIffSubscribed` | runtime/internal/event_bus.go:78-95 | A channel is closed exactly if its subscriber was subscribed at that first close |
| `Broadcast.QueuesAreBounded` | runtime/internal/event_bus.go:9-11 | No channel ever holds more than 256 events |
| `Broadcast.UnsubscribedGetsNoMore` | runtime/internal/event_bus.go:69-73 | Over every interleaving after it unsubscribed, a reader gets no more than its channel held then |
| `Broadcast.SendsInAnyOrder` | runtime/internal/event_bus.go:38-50 | Sending to the subscribers in any order serves each once |
| `Broadcast.PublishIsBroadcast` | runtime/internal/event_bus.go:38-50 | An uninterrupted publication is one broadcast to all subscribers, in whatever order the map is visited |
| `Broadcast.ClosedBusPublishesNothing` | runtime/internal/event_bus.go:38-45 | On a closed bus a publication does nothing, locked or in steps |
| `Broadcast.EventBus.Publish` | runtime/internal/event_bus.go:38-50 | The locked method appends to the buffer and to every subscriber's channel, and does nothing on a closed bus |
| `Broadcast.EventBus.SubscribeLive` | runtime/internal/event_bus.go:56-65 | A new channel that is owed the events from now on and none before |
| `Broadcast.EventBus.UnsubscribeLive` | runtime/internal/event_bus.go:69-73 | The subscriber is owed nothing more |
| `Broadcast.EventBus.CloseBus` | runtime/internal/event_bus.go:78-95 | Closing keeps the error and closes every subscriber's channel, once; a closed bus keeps its error |
| `Broadcast.EventBus.ReplaySnapshot` | runtime/internal/event_bus.go:112-128 | Snapshot and registration are one step; a closed bus gives the snapshot and its final error |
| `Broadcast.EventBus.ReceiveLive` | runtime/internal/event_bus.go:144-164 | A reader takes the oldest queued event, and ends with the final error once the closed channel is drained |
| `BackgroundRunner.MaterializePrefix` | runtime/internal/background_runner.go:220-235 | At most the counted number of stored events, in order |
| `BackgroundRunner.ChainIters` | runtime/internal/background_runner.go:239-262 | All of the first stream, then the second, up to the first error |
| `BackgroundRunner.BackgroundRunner.Enter` | runtime/internal/background_runner.go:75-90 | Entering is the Register step of the session, refused exactly while the session has an active run; other sessions keep theirs |
| `BackgroundRunner.BackgroundRunner.RemoveActiveRun` | runtime/internal/background_runner.go:131-135 | Removing is the RemoveActive step of the session, behind the close of its bus; other sessions keep their runs |
| `BackgroundRunner.StepKeepsSession` | runtime/internal/background_runner.go:58-200 | Every step of callers, runs and readers keeps the session invariant |
| `BackgroundRunner.ReaderSeesPrefixThenRun` | runtime/internal/background_runner.go:174-200 | Over every interleaving from any history, a reader has yielded a prefix of the counted history and the run's buffer, and all of it once it is finished |
| `BackgroundRunner.BufferIsPublishedOn` | runtime/internal/background_runner.go:108-128 | A run's buffer is the events whose publication began on its bus before the close, whatever else happens in the session |
| `BackgroundRunner.CountIsRightIffQuiet` | runtime/internal/background_runner.go:58-90 | The stored prefix of a run is the whole history before it exactly when its caller counted everything and nothing was stored between its count and its registration |
| `BackgroundRunner.ReaderSeesWholeHistory` | runtime/internal/background_runner.go:58-200 | From any session that keeps the invariant, a finished reader that joined at any moment has yielded the counted prefix and then every event published on the run's bus, each once and in order; that is the whole history and then the run exactly under that condition |
| `BackgroundRunner.StoryOfEveryRun` | runtime/internal/background_runner.go:58-130 | Every run that any interleaving registers was registered with the last count of its caller: the interleaving splits into what came before that count, what came between it and the registration, and what followed |
| `BackgroundRunner.EveryRunReaderSeesWholeHistory` | runtime/internal/background_runner.go:58-200 | Over every interleaving from any history, so split: a finished reader of the run has yielded the counted prefix and then every event published on its bus, each once and in order, and that is the whole history and then the run exactly when the count was full and nothing was stored between count and registration |
| `BackgroundRunner.QuietReaderSeesWholeHistory` | runtime/internal/background_runner.go:58-200 | After a full count while no run was active, every finished reader of the run has yielded the whole history and then the run |
| `BackgroundRunner.QuietCountStaysRight` | runtime/internal/background_runner.go:58-90 | While no run is active nothing is stored, so a full count stays right until its caller registers |
| `BackgroundRunner.QuietCountReadsAll` | runtime/internal/background_runner.go:58-90 | A run registered after such a count reads back the whole history before it |
| `BackgroundRunner.StaleCountExample` | runtime/internal/background_runner.go:58-90 | A count taken during another run can miss that run's events |
| `BackgroundRunner.ReaderEndsWithRunError` | runtime/internal/background_runner.go:108-128 | Over every interleaving from any history, a live or replaying reader ends with exactly the error with which its run's bus was closed first |
| `BackgroundExample.WholeRunExample` | runtime/internal/background_runner.go:58-200 | A whole session with a live and a replaying reader of a run that fails: both see history, event and error |
| `CsvImport.ImportRow` | finance/persistence/csv_import_store.go:29-73 | A row always ends with a stored outcome, stored outcomes never change, and a row that has one writes nothing |
| `CsvImport.Resume` | finance/service_csv_import.go:433-523 | A retry on what a crashed run left goes on exactly where that run stopped |
| `CsvImport.OneMoreDelivery` | finance/service_csv_import.go:433-523 | One more delivery after crashes leaves what an uninterrupted run over some first rows leaves, or completes like the first |
| `CsvImport.RetriesAreOneRun` | finance/service_csv_import.go:433-523 | However often the job is delivered and dies between or inside row writes, a completed one leaves the tables, count and rejections of one uninterrupted run |
| `CsvImport.AcceptedRowShows` | finance/persistence/csv_import_store.go:75-107 | An accepted row adds one transaction that shows its account, category, tags and fields, and its outcome; accounts, categories and tags only grow |
| `CsvImportRules.RowIsTaken` | finance/persistence/csv_import_store.go:75-107 | A row is taken exactly when its account is new or the only one of its name, visible and in its currency, its category is none, new or the only one and of the kind of the amount's sign, no tag is stored twice, and no stored transaction has its account, currency, amount, description and time |
| `CsvImportRules.WhyRejected` | finance/persistence/csv_import_store.go:75-107 | The reason of a rejection is the first in the order of account, category, tags and repetition |
| `CsvImportRules.CompletedJobLeaves` | finance/service_csv_import.go:433-523 | A completed job is recorded as such, has given each row one outcome and counted it once, and has added one transaction for each imported row, which shows it |
| `CsvImportJob.CsvImportStore.ResolveImportAccount` | finance/persistence/csv_import_store.go:190-225 | Finds, creates or rejects the row's account |
| `CsvImportJob.CsvImportStore.ResolveImportCategory` | finance/persistence/csv_import_store.go:227-258 | Finds, creates or rejects the row's category |
| `CsvImportJob.CsvImportStore.ResolveImportTags` | finance/persistence/csv_import_store.go:267-289 | Finds or creates the tags in order, or rejects an ambiguous name |
| `CsvImportJob.CsvImportStore.CreateTransactionRow` | finance/persistence/csv_import_store.go:75-107 | Creates the row's transaction with everything it refers to, or gives the reason for rejecting it |
| `CsvImportJob.CsvImportStore.ImportTransactionRow` | finance/persistence/csv_import_store.go:29-73 | A fault anywhere in the row leaves the tables as before the row or as after it |
| `CsvImportJob.CsvImportService.RunCsvImportJob` | finance/service_csv_import.go:433-523 | A delivery completes, or leaves what a crash between two rows leaves; a completed import is left alone |
| `CsvImportPreview.CsvImportPreviewer.PreviewTransactionRow` | finance/service_csv_import.go:226-292 | The record after one row, statement by statement |
| `CsvImportPreview.CsvImportPreviewer.PopulatePreview` | finance/service_csv_import.go:178-201 | The record after all rows |
| `CsvImportPreview.LookupAfterMaking` | finance/service_csv_import.go:744-776 | A name made during the run is found once, a stored name as before |
| `CsvImportPrediction.DuplicatesAgree` | finance/persistence/csv_import_store.go:291-307 | The run finds a duplicate exactly when the preview sees one among the stored rows or an accepted row repeats |
| `CsvImportPrediction.RowVerdict` | finance/persistence/csv_import_store.go:75-107 | The run takes a row exactly when the preview has no objection and the row repeats nothing |
| `CsvImportPrediction.RowAgrees` | finance/persistence/csv_import_store.go:75-107 | Accepting a row keeps the run's tables equal to the stored ones plus what the preview lists as new |
| `CsvImportPrediction.PreviewPredictsRun` | finance/service_csv_import.go:178-339 | Preview and run reject the same row numbers exactly when no accepted row repeats a stored transaction or an earlier accepted row; then importable count and created names agree too |
| `CsvImportRules.PreviewAccepts` | finance/service_csv_import.go:294-339 | The preview accepts a row exactly when it fits the stored tables and no earlier accepted row makes its account in another currency or its category for the other sign |
| `CsvImportRules.PreviewCounts` | finance/service_csv_import.go:178-292 | Whatever a file repeats, the preview rejects the parser's rows and those it turned down in order, lists as duplicates the accepted ones stored already, and counts the rest as importable |
| `CsvAmount.Split` | finance/imports.go:444-477 | The scan takes exactly the texts that are, spaces aside, digits with perhaps a comma and at most two more |
| `CsvAmount.ParseFraction` | finance/imports.go:479-491 | Padding a fraction gives its value in minor units |
| `CsvAmount.ParseCsvImportAmount` | finance/imports.go:420-442 | The checks in 64 bits decide the exact bound |
| `CsvAmount.AmountIsExact` | finance/imports.go:420-491 | A well-formed amount is accepted exactly when its value in minor units fits into 64 bits, with that value; every other text but a blank one is malformed |
| `CsvAmount.WrittenUnits` | finance/imports.go:420-491 | Spaces aside, digits are whole units, up to 64 bits of minor units |
| `CsvAmount.WrittenAmounts` | finance/imports.go:420-491 | One or two digits behind a comma are tenths and hundredths |
| `CsvAmount.PrintedAmountParses` | finance/imports.go:420-491 | Printing whole units, comma and two digits, then parsing, returns every amount that fits |
| `Calendar.MonthBoundaryIsPlusMonths` | finance/cash_flow_series.go:85-110 | The service's clamped month boundary is the query's month interval addition |
| `Calendar.MonthBoundaryIncreasing` | finance/cash_flow_series.go:85-110 | Month boundaries are strictly increasing in the month index, whatever the clamping |
| `Calendar.DateRoundTrip` | finance/cash_flow_series.go:85-110 | Civil fields and instants convert back and forth |
| `Calendar.DaysBeforeYear` | finance/cash_flow_series.go:85-110 | The months add up to the Gregorian leap-year rule |
| `Calendar.DaysBeforeMonth` | finance/cash_flow_series.go:85-110 | The day number of every first of a month in the closed form that counts years from March |
| `Calendar.ThreeYearsBefore` | finance/internal/providers/target_window_policy.go:64-67 | Three years back keeps month, day and clock, except that 29 February becomes 1 March |
| `Calendar.PlusMonthsCivil` | finance/persistence/cash_flow_series_store.go:130-143 | Months later the day is the same or the last of the month, and the clock is the same |
| `CashFlowBuckets.MonthStep` | finance/cash_flow_series.go:85-110 | The service's boundaries are the bucket starts of the query, at the start's own offset |
| `CashFlowBuckets.CashFlowBucketCount` | finance/cash_flow_series.go:66-83 | The counting loop ends, and counts the buckets the recursive query generates |
| `CashFlowBuckets.ValidateCashFlowSeriesParams` | finance/cash_flow_series.go:41-55 | A request is valid exactly when its timestamps are set and in order, its grouping is known and its query has at most 366 buckets; otherwise the first of these that fails is reported |
| `CashFlowBuckets.BucketsContiguous` | finance/persistence/cash_flow_series_store.go:130-143 | The query's buckets are non-empty and follow one another from the start to the end |
| `CashFlowBuckets.BucketsPartition` | finance/persistence/cash_flow_series_store.go:130-143 | Every instant of the range is in exactly one bucket, and no other instant is in any |
| `CashFlowBuckets.DayBucketsAre` | finance/persistence/cash_flow_series_store.go:130-143 | Daily buckets start 24 hours apart |
| `CashFlowBuckets.MonthBucketsAre` | finance/persistence/cash_flow_series_store.go:130-143 | Monthly buckets start months apart on the start's day or the month's last, at the start's clock and offset |
| `CashFlowSeries.FoldSeriesRows` | finance/persistence/cash_flow_series_store.go:71-93 | The fold keeps the bucket rows in order and is complete exactly without missing rows |
| `CashFlowSeries.GetCashFlowSeries` | finance/persistence/cash_flow_series_store.go:51-93 | The series of a request is the fold of the query's rows; an unknown grouping has none |
| `CashFlowSeries.MissingCurrenciesAre` | finance/persistence/cash_flow_series_store.go:214-231 | The missing rows name each qualifying currency without a rate once, and no other |
| `BucketSums.BucketSumIsPartSum` | finance/persistence/cash_flow_series_store.go:189-213 | Joining contributions on the bucket start sums exactly the transactions inside the bucket |
| `BucketSums.AcrossOnce` | finance/persistence/cash_flow_series_store.go:144-170 | Across disjoint buckets a transaction counts once, or not at all |
| `CashFlowSeries.SeriesAddsUp` | finance/persistence/cash_flow_series_store.go:122-238 | The buckets add up to the qualifying contributions of the period, each once |
| `ReportAmounts.WhatQualifies` | finance/persistence/cash_flow_series_store.go:144-170 | The query takes the booked, visible transactions over an amount on visible accounts, without bookkeeping and matched transfers |
| `ReportAmounts.RoundsToMeans` | finance/persistence/cash_flow_series_store.go:189-207 | The rounding of both reports: the nearest integer, and the one further from zero when two are |
| `ReportAmounts.QueryConverts` | finance/persistence/cash_flow_series_store.go:168-207 | A foreign transaction adds its native income and expense times the rate of the table's row, to the nearest integer, halves away from zero |
| `ReportAmounts.QueryTakesNative` | finance/persistence/cash_flow_series_store.go:168-207 | One in the display currency adds them as they are, one without a rate nothing |
| `ReportAmounts.SeriesMissing` | finance/persistence/cash_flow_series_store.go:214-238 | There is one missing entry for each currency without a rate, into the display currency, with the number of the period's qualifying transactions in it |
| `Reporting.NewFxRateLookup` | finance/reporting.go:344-351 | The lookup holds the last rate of every key |
| `Reporting.FilterDashboardFxRates` | finance/service_reporting.go:219-254 | The loops keep the rates of the pairs that visible accounts and reported transactions ask for |
| `Reporting.DashboardComputation.ProcessDashboardTransaction` | finance/service_reporting.go:289-345 | What one transaction does to both summaries, the native totals, the category breakdowns and the missing list |
| `Reporting.DashboardComputation.AddDashboardCategoryContribution` | finance/reporting.go:200-225 | A settled transaction of a known category is added to that category's breakdown, which is made when missing |
| `Reporting.ComputeDashboard` | finance/service_reporting.go:256-287 | Summaries, native totals, category breakdowns and missing rates are the sums over the loaded transactions, and net is income minus expense |
| `ReportAmounts.WhatIsReported` | finance/reporting.go:264-304 | The dashboard reports the visible transactions on visible accounts in the period, without bookkeeping and matched transfers |
| `ReportAmounts.DashboardConverts` | finance/reporting.go:353-372 | A reported foreign transaction adds its native income and expense times the rate of the table's row to the summary of its status, to the nearest integer, halves away from zero |
| `ReportAmounts.DashboardTakesNative` | finance/reporting.go:353-372 | One in the display currency adds them as they are, one without a rate is listed as missing and adds nothing |
| `ReportAmounts.OthersAddNothing` | finance/service_reporting.go:289-345 | What is not reported or has another status adds nothing to a summary |
| `ReportAmounts.SummaryCounts` | finance/reporting.go:306-313 | A summary counts each converted transaction of its status once |
| `ReportAmounts.BreakdownCounts` | finance/reporting.go:200-225 | A breakdown counts each settled, converted transaction of its category once |
| `CashFlowAgreement.RoundingsAgree` | finance/persistence/cash_flow_series_store.go:189-213 | The SQL rounding and math.Round agree on every exact number |
| `CashFlowAgreement.SqlRoundRounds` | finance/persistence/cash_flow_series_store.go:189-213 | The SQL rounding is to the nearest integer, halves away from zero |
| `CashFlowAgreement.LatestIsRateOf` | finance/reporting.go:344-372 | The dashboard's lookup finds what the query's join finds |
| `CashFlowAgreement.FilterKeepsRate` | finance/service_reporting.go:219-254 | For a reported transaction, restricting the rates keeps its rate exactly when its currency asks for a pair once trimmed and upper-cased |
| `CashFlowAgreement.AccountRateIsLoaded` | finance/service_reporting.go:219-254 | The dashboard has the rate of every visible account's currency, whether or not a transaction uses it |
| `CashFlowAgreement.InclusionAgrees` | finance/persistence/cash_flow_series_store.go:144-170 | Of the booked, visible, non-zero transactions both reports include the same, except a transfer matched at the zero instant |
| `CashFlowAgreement.ShareIsContribution` | finance/reporting.go:272-372 | What a transaction adds to the settled summary is what it adds to the series |
| `CashFlowAgreement.SeriesAgreesWithDashboard` | finance/persistence/cash_flow_series_store.go:122-238 | Summed over its buckets, by day or month, the series has exactly the income and expense of the settled summary for that period |
| `CashFlowAgreement.CompletenessAgrees` | finance/persistence/cash_flow_series_store.go:214-238 | The dashboard is complete exactly when the series is and no booked transaction over zero lacks a rate |
| `FxSchedule.NextRun` | finance/fx_refresh_schedule_service.go:137-141 | The loop stops at the first time on the grid after now |
| `FxSchedule.FxRefreshScheduleService.Ensure` | finance/persistence/fx_refresh_schedule_store.go:72-81 | An existing schedule is left alone |
| `FxSchedule.FxRefreshScheduleService.EnqueueOccurrence` | finance/fx_refresh_schedule_service.go:89-181 | Claim, publication and finalization commit together or not at all |
| `FxSchedule.FxRefreshScheduleService.EnqueueDue` | finance/fx_refresh_schedule_service.go:67-87 | Exactly the listed occurrences before the first failure get one command each and their next run after now; nothing else changes |
| `FxSchedule.StepKeeps` | finance/fx_refresh_schedule_service.go:67-181 | Every step of any scheduler keeps commands and advances paired and each advance linked to the one before |
| `FxSchedule.PublishedOnce` | finance/fx_refresh_schedule_service.go:67-181 | Over every interleaving of schedulers with any clocks, stale listings and failures, a schedule's commands stand for strictly later occurrences, and each advance went to the first grid point after its scheduler's clock |
| `FxSchedule.EachPublicationAdvances` | finance/fx_refresh_schedule_service.go:115-181 | Every single command, the newest too, pairs with the one advance of its schedule, from its due time to the first grid point after its scheduler's clock |
| `FxSchedule.DueIsClaimed` | finance/fx_refresh_schedule_service.go:89-181 | A scheduler left alone claims the occurrence it listed: one command for it, the schedule's next run at the first grid time after now, and no other schedule changes |
| `FxSchedule.StaleClaimsNothing` | finance/persistence/fx_refresh_schedule_store.go:133-148 | A reading whose row is gone, disabled or moved on changes nothing |
| `FxSchedule.NotDueIsLeft` | finance/fx_refresh_schedule_service.go:115-132 | An occurrence is left alone exactly when its schedule is gone, disabled, at another time or not due yet |
| `FxSchedule.WhatFails` | finance/fx_refresh_schedule_service.go:133-181 | A due occurrence fails for an interval that is not positive, a failed publication or a reference of white space, in that order, and is claimed otherwise |
| `FxSchedule.ClaimEndsAttempt` | finance/persistence/fx_refresh_schedule_store.go:133-175 | A claim ends its attempt, and publishes exactly when the row is still enabled and due as it was read, its interval is positive and the publication gives a reference |
| `FxSchedule.EnsureMakes` | finance/persistence/fx_refresh_schedule_store.go:72-81 | Among all schedulers' steps, a schedule is made only where there is none |
| `FxSchedule.DueIsClaimedAfter` | finance/fx_refresh_schedule_service.go:67-181 | After any interleaving at all, a due schedule gets its command from a scheduler that then works undisturbed |
| `FxSchedule.EnqueuedMeans` | finance/fx_refresh_schedule_service.go:67-87 | What a pass has left, field by field: one command for each listed occurrence, its schedule moved on behind now, everything else as before |
| `Classification.ContainsFold` | finance/service_classification.go:368-386 | Trying every part decides whether the text occurs, for any folding of characters |
| `Classification.MatchClassificationRule` | finance/service_classification.go:344-366 | The first matching rule in rule order |
| `Classification.FirstRule` | finance/service_classification.go:344-366 | It matches and none before it does; without one no rule matches |
| `Classification.SelectPage` | finance/persistence/classification_transaction_store.go:43-65 | The page is the first 200 eligible rows beyond the position, in order |
| `Classification.WhatIsEligible` | finance/persistence/classification_transaction_store.go:43-65 | Eligible are the visible, booked rows without a category that are no transfers and no bookkeeping, within the bounds that are set |
| `Classification.PagesHold200` | finance/persistence/classification_transaction_store.go:43-65 | A page leaves an eligible row out only when it has 200 rows, all before it |
| `Classification.WhatMatches` | finance/service_classification.go:344-386 | A rule matches when description and condition hold more than white space and, trimmed and case aside, are the same or the one contains the other |
| `Text.TrimSpaceIs` | finance/service_classification.go:344-366 | Trimming leaves the stretch from the first to the last character that is no white space |
| `Text.SpacesAre` | finance/service_classification.go:344-366 | White space by code points |
| `Text.UpperIs` | finance/service_reporting.go:219-254 | Upper case moves the letters a to z and nothing else |
| `Classification.UnmatchedVisitChanges` | finance/service_classification.go:221-264 | A visited row that no rule matches is left as it is and counted as unmatched |
| `Classification.StepMoves` | finance/service_classification.go:184-217 | A list query is one store call whose rows are to be visited next, and a visited row is the position to go on from |
| `Classification.MatchedVisitChanges` | finance/persistence/classification_transaction_store.go:67-101 | A visited row that can still be classified gets the category and also the tags of the first rule that matches it and keeps its other fields; otherwise it is skipped; nothing else changes |
| `Classification.ClassificationService.AssignClassification` | finance/persistence/classification_transaction_store.go:67-101 | The row is checked again, at no range, before it gets the category and its tags |
| `Classification.ClassificationService.ClassifyTransaction` | finance/service_classification.go:221-264 | Visiting a row is the visit step: no write without a rule, else the first matching rule's category exactly when the row is still eligible by then; it fails exactly for an unavailable category or tag |
| `Classification.ClassificationService.ClassifyPage` | finance/service_classification.go:207-214 | The rows of a page are visited in order, each by a step of the run, up to the first that cannot be |
| `Classification.ClassificationService.Classify` | finance/service_classification.go:168-219 | The loop ends whatever others write; table, store calls and counts are the end of a run of list queries and visits that is exhausted unless it failed; that run is in ascending order, its counts sum to its visits, and without a failure exactly one list query has asked about each row, which was visited exactly when that query found it eligible; alone, exactly the eligible rows are classified |
| `Classification.EveryRunVisitsInOrder` | finance/service_classification.go:168-219 | Every run visits rows in ascending order and counts each once; an exhausted one has visited every row that each of its list queries found eligible |
| `Classification.VisitedIffFoundEligible` | finance/service_classification.go:168-219 | Whatever others write, an exhausted run has asked about every row in exactly one list query and has visited exactly the rows that were eligible in the table their query found |
| `Classification.QueryTakes` | finance/persistence/classification_transaction_store.go:43-65 | The list query that passes a row takes it onto its page exactly when it finds it eligible |
| `Classification.EachVisitDecides` | finance/service_classification.go:221-264 | Each visit of a run changes at most its own row, in the table as others have left it: the first matching rule's category and tags exactly when the row is still eligible |
| `Classification.AloneClassifiesEligible` | finance/service_classification.go:168-219 | Without other writers an exhausted run has classified exactly the rows eligible at its beginning and skipped none |

## Left out

- Database engine: tables are sequences and maps, each database transaction is one atomic step and a conditional update a guarded one; isolation anomalies, lock waits and connection errors other than a crash or a failed window are not modelled.
- Tenants: every table is one tenant's, and access checks are not modelled.
- Identifiers: row identifiers are integers or table positions, fresh ones are assumed fresh; the random generator is not modelled.
- Text: FX descriptions are sequences of bytes; upper case of currencies is that of ASCII; rule matching holds for any folding of characters.
- Decoded input: JSON documents, CSV records and PKO amounts are taken as decoded; JSON decoding, the CSV reader and the parsing of PKO amount texts are not modelled.
- Currency registry: the ISO registry is a table from recognised codes to decimals.
- Floating point: rates are exact numbers; rounding of double precision products is not modelled.
- Integer overflow of report sums: sums of minor units are unbounded; the dashboard wraps and the query fails beyond 64 bits.
- Time zones: instants have a fixed whole-minute offset; daylight saving is not modelled.
- Explicit start of a sync: covered by the step contracts, not by `ProviderSync.NoGapEver`, since a request may skip a stretch by design.
- Executor of a sync window: in the run-level protocol it is taken by its contract that a success commits the window with its record; balances, account names and document snapshots are not modelled.
- Unlinking and concurrent matching runs: a run sees the rows as no one else writes them, so counts of skipped links stay zero.
- FxSchedule.FxRefreshScheduleService.EnqueueDue: takes the listed occurrences as given, in listing order; the ordering of the listing is not modelled.
- CashFlowSeries.FoldSeriesRows: the order of missing-rate rows among themselves is not modelled.
- Dashboard alerts and account balances: easy sums beside the summaries.
- Liveness of the event stream: a full channel blocks the publisher, so only the delivered sequence is stated.
- Context cancellation, logging, telemetry and error texts: no state to reason about.
- Legacy account import, confirmation and audit of CSV imports: easy members beside the job and the preview.
- Bank-connection schedule: sync workers rewrite its next run, so the claim protocol is proved on the FX schedule.
- Saving a schedule from outside: no caller beside the schedulers changes an interval or the enabled flag.
- Fingerprints and encryption: fingerprints are opaque texts; SHA-256 and AES-GCM are not modelled.
