# Verified models of the StockAPI evidence pipeline

Dafny models of the parts of the repository whose correctness rests on counting, ordering and
exact arithmetic, with proofs over every input, every run and every reachable state.

* **Acquisition campaigns.** An append-only journal with three writers and an independent
  validator, a database table of high-water anchors, and the execution protocol around one guarded
  HTTP request per reservation. The protocol is a step system: an execution may crash at any step,
  and between executions the journal file may be truncated, rolled back or replaced by anything.
  SHA-256 content addresses are symbolic: a digest is the document it covers, in a constructor.
* **Adjustment factors.** 34-digit half-even decimal arithmetic built constructively, the backward
  factor loop, its error bound, its exact meaning, the content-addressed artifact with its decoder,
  and the adjusted reads over it. Binary64 conversion and shortest round-trip text are parameters,
  constrained by the reading-back law, and by a bound on one rounding where an accuracy is stated.
* **Versioned bars.** Batch deduplication, the upsert with its triggers, late receipts, and the
  point-in-time selection that feeds the factor builder.
* **Rate control.** The pacing and the refusing vendor guard under any interleaving of callers, the
  one-call guard in front of them, and the API limiter's expiring counters.
* **Smaller contracts.** The exact-cover calibration join, the Wilson interval, the If-None-Match
  parser, canonical decimal text, and the dispatcher's task packet and scope guard.

Code that loops or updates fields is written as methods and classes, each proved equal to a
specification function; the theorems are about those functions. What each main operation accepts and
what its result contains is stated a second time, in terms of its inputs alone, and proved if and only
if: outcomes and headers (`AcquisitionOutcomes`), plans (`AcquisitionPlans`), the anchor table
(`AnchorTable`), factor sets (`FactorMeaning`), selections (`SelectionMeaning`), bar writes
(`BarWriteMeaning`), joined datasets (`JoinMeaning`), task packets (`PacketMeaning`) and globs (`GlobMeaning`).

Five results describe where a promise holds only under a condition, and give the condition.

* The journal validator accepts headers whose split or dividend page covers less than the campaign
  window, which no writer produces. Accepted and producible journals coincide exactly when every
  header's action pages span its window (`LedgerWriters.ProducedIffAccepted`,
  `LedgerWriters.NarrowActionPageAccepted`).
* The module text of `ingestion/upsert.py` calls unchanged replays no-ops. An immediate replay is one.
  A replay after other writes is one exactly when all its values are stored; and a row that had been
  a no-op itself keeps no trace of its newer stamps, so its delayed replay can overturn a correction
  stamped in between (`BarVersions.UpsertChangesIff`, `BarVersions.DelayedReplayOverturns`).
* A selection at a cutoff is fixed against receipts stamped after it. A receipt is stamped when its row is
  inserted and becomes visible when it commits, so one stamped at or before the cutoff but committed after
  the read can still replace a selected version. A selection survives a run if and only if no accepted
  reconciliation of the run receipts, stamped up to the cutoff, a version in scope that is newer than every
  visible one of its observation (`PointInTime.StaysNewestIff`, `PointInTime.SelectionFixedIff`; a failing
  run is `PointInTime.LateCommitReplaces`).
* In every run whose hits are counted in order, the API limiter returns the number of hits its bucket has
  had exactly when the last one is counted less than two windows after the bucket's first
  (`RateLimit.CountExactIff`; a failing run is `RateLimit.LateHitForgotten`).
* The one-call guard checks an attempt before the pacer charges it. One charge per armed call, truthfully
  reported, is guaranteed exactly when no attempt enters and no call completes while another attempt is
  waiting (`PlanBoundGuard.OneChargeIff`).

The If-None-Match parser is stricter than section 5.6.1.2 of RFC 9110: it refuses lists with empty
elements. The model follows the code.

## Model

| member | source | states |
|---|---|---|
| LedgerValidator.ValidateRecords | scripts/vendor_acquisition.py:1220-1502 | The loop over its counter dictionaries accepts exactly the journals the record-by-record rules accept |
| LedgerValidator.AcceptedPrefix | scripts/vendor_acquisition.py:1220-1502 | Every prefix of an accepted journal is accepted |
| LedgerValidator.RejectedForever | scripts/vendor_acquisition.py:1220-1502 | No appended record can repair a rejected journal |
| LedgerValidator.CampaignTracked | scripts/vendor_acquisition.py:1220-1502 | The running per-campaign counters are the ones a fresh count over the records gives |
| LedgerValidator.CampaignBudget | scripts/vendor_acquisition.py:432-476 | In an accepted journal reservations stay within the last authorization, and that within base plus five and 264 |
| LedgerWriters.CampaignStateAgrees | scripts/vendor_acquisition.py:1140-1182 | The recomputed campaign state never fails on an accepted journal, equals the validator's counters and lies inside the budget |
| LedgerWriters.OtherCampaignsUntouched | scripts/vendor_acquisition.py:1140-1182 | A record of one campaign leaves every other campaign's budget state as it was |
| LedgerWriters.PlannedCallsOk | scripts/vendor_acquisition.py:592-702 | A built plan's calls are valid, ordered, inside the window, with action pages spanning it |
| AcquisitionPlans.PlannedIff | scripts/vendor_acquisition.py:592-702 | A plan lists the split page exactly when splits are needed, the dividend page exactly when dividends are, the prices of exactly the uncovered sessions, and nothing else |
| LedgerWriters.WriterSound | scripts/vendor_acquisition.py:924-1119 | Every record a writer appends keeps the journal accepted |
| LedgerWriters.WriterComplete | scripts/vendor_acquisition.py:924-1119 | Every record the validator would accept next, with full action pages, is appended by some writer call |
| LedgerWriters.ProducedIffAccepted | scripts/vendor_acquisition.py:924-1502 | The writers' journals are exactly the accepted ones whose action pages span their windows |
| LedgerWriters.NarrowActionPageAccepted | scripts/vendor_acquisition.py:1220-1502 | The span condition is needed: under any authorization and plan identity there is an accepted journal that no writer produces |
| LedgerWriters.AcquisitionLedger.Begin | scripts/vendor_acquisition.py:924-994 | Appends the header the rules give, keeping the file accepted, or changes nothing |
| LedgerWriters.AcquisitionLedger.Reserve | scripts/vendor_acquisition.py:996-1058 | Appends the reservation the rules give, keeping the file accepted, or changes nothing |
| LedgerWriters.AcquisitionLedger.Finish | scripts/vendor_acquisition.py:1060-1119 | Appends the outcome the rules give, keeping the file accepted, or changes nothing |
| AcquisitionOutcomes.FinishIff | scripts/vendor_acquisition.py:1060-1119 | An outcome can be written exactly for an open reservation of the plan, as a checkpoint with evidence and no failure or as either failure with its type and no evidence, and the record says just that |
| AcquisitionOutcomes.OutcomeAcceptedIff | scripts/vendor_acquisition.py:1469-1502 | The validator accepts exactly those outcomes, of one of the header's own calls |
| AcquisitionOutcomes.HeaderMeans | scripts/vendor_acquisition.py:1220-1502 | Every header of an accepted journal lists proper calls in order inside its scope's window, counts them rightly, and authorizes enough for them within five of the base and 264 |
| AcquisitionOutcomes.FailuresListed | scripts/vendor_acquisition.py:1140-1182 | The campaign state lists exactly the calls with an admitted failure |
| CampaignAnchors.PublishExtends | migrations/versions/0014_vendor_acquisition_campaign_anchor.py:104-261 | The database takes the anchor of every accepted one-record extension of the journal it commits to |
| AnchorTable.PublishIff | migrations/versions/0014_vendor_acquisition_campaign_anchor.py:104-261 | The publishing function takes its own last row again without change, appends exactly the requests that extend the table within budget, and rejects the rest |
| AnchorTable.TableKeeps | migrations/versions/0014_vendor_acquisition_campaign_anchor.py:104-261 | Whatever is requested in whatever order, the table is a history of such extensions |
| AnchorTable.RowMeans | migrations/versions/0014_vendor_acquisition_campaign_anchor.py:104-261 | In such a table numbers count the rows, digests never repeat and every row is within budget |
| AnchorTable.NeverBack | migrations/versions/0014_vendor_acquisition_campaign_anchor.py:104-261 | Within a campaign positions count up, the base never changes, and neither total goes back |
| CampaignAnchors.RepublishHead | migrations/versions/0014_vendor_acquisition_campaign_anchor.py:104-261 | Publishing the current head again is accepted and changes nothing |
| CampaignAnchors.HeadIdentifies | scripts/vendor_acquisition.py:1583-1610 | The head anchor's count and digest match a file exactly when the file is the committed journal |
| AcquisitionProtocol.ExecKeeps | scripts/vendor_acquisition.py:1863-2157 | The protocol invariant holds after every sequence of steps, crashes and file replacements |
| AcquisitionProtocol.SendsWithinBudget | scripts/vendor_acquisition.py:1938-2050 | Requests sent for a campaign never exceed its published reservations, these its authorization, and that min(base+5, 264) |
| AcquisitionProtocol.SendsAreReserved | scripts/vendor_acquisition.py:840-901 | Every request sent has its own published reservation, and no reservation is sent twice |
| AcquisitionProtocol.HighWaterIdentifies | scripts/vendor_acquisition.py:1583-1640 | In every reachable state the high-water check passes exactly when the file is the published log |
| AcquisitionProtocol.PublishedOutcomesHonest | scripts/vendor_acquisition.py:1995-2029 | failed_before_admission is published exactly when the guard admitted nothing, and then nothing was sent |
| AcquisitionProtocol.ReservationsDoNotOverlap | scripts/vendor_acquisition.py:1184-1196 | Between two published reservations of one call the first one's outcome is published |
| AcquisitionProtocol.ActionPagesFirst | scripts/vendor_acquisition.py:1003-1058 | Every published reservation follows those of all action pages its plan lists before it |
| AcquisitionProtocol.ReservationsInPlanOrder | scripts/vendor_acquisition.py:1010-1027 | Of two published reservations of one authorization the earlier is of a call its plan lists earlier |
| AcquisitionProtocol.StrandedFileStops | scripts/vendor_acquisition.py:1583-1610 | While no execution is running and the file differs from the published log, nothing starts, appends, publishes or sends until the file is replaced |
| AcquisitionPlans.StartsIff | scripts/vendor_acquisition.py:1863-1945 | Planning starts an execution exactly when the journal is the published one, the last session is covered, something is missing, none of it waits for an outcome or is unresolved in the one-session ledger, and it fits the budget |
| AcquisitionOutcomes.AdmittedOnce | scripts/vendor_acquisition.py:840-901 | Before anything is admitted for the armed call nothing can be sent and a request for another endpoint changes nothing; one for its own is admitted and sent, once |
| AcquisitionOutcomes.ArmedCloses | scripts/vendor_acquisition.py:1995-2050 | From every reachable armed state, an answer or an exception appends the outcome that says truthfully what happened, the table takes its anchor, the call is no longer unresolved, and only an admitted and answered call is followed by the next |
| AcquisitionOutcomes.ActionPagesCheckpointed | scripts/vendor_acquisition.py:1938-2050 | An execution past an action page has published its checkpoint: only prices are skipped and no failure is passed over |
| AcquisitionProgress.CallCompletes | scripts/vendor_acquisition.py:1966-2050 | On course before a planned call, reservation and checkpoint are accepted: six steps reserve it, publish, admit and send it once, checkpoint, publish, and leave the execution on course for the next call |
| AcquisitionProgress.ExecutionCompletes | scripts/vendor_acquisition.py:1863-2157 | From any reachable idle state, an execution that planning starts under a fresh identity, with the maximum and delta its plan shows, can authorize and work through its whole plan undisturbed, sending exactly the planned calls in order, save the covered prices it skips |
| AcquisitionPlans.ExecutionSends | scripts/vendor_acquisition.py:1863-2157 | Undisturbed, it sends the split page exactly if splits were needed, the dividend page exactly if dividends were, the prices of exactly the uncovered sessions save those that appeared meanwhile, and nothing else |
| PacingGuard.GuardBounds | data_sources/guards.py:56-148 | Under any interleaving spent is the admitted cost, within budget, at most max_calls a window and (m+1) times that in m window lengths |
| PacingGuard.AdmitsWhatFits | data_sources/guards.py:56-148 | Each guard admits exactly what fits the current window, the budget and, when waiting, its check; else it says which failed, the refusing guard looking at the window first and the waiting one at the budget |
| PacingGuard.TwiceIsReached | data_sources/guards.py:121-148 | The factor two is tight, in an interval as short as one likes |
| PacingGuard.OneSleepSuffices | data_sources/guards.py:121-148 | A lone affordable caller told to wait is admitted after sleeping that long, at most one window |
| PacingGuard.AsyncPacingCostRateGuard.Section | data_sources/guards.py:129-147 | The locked section decides and updates one vendor's counters as specified, and no other vendor's |
| PacingGuard.AsyncPacingCostRateGuard.AcquireAlone | data_sources/guards.py:121-148 | Alone, the loop sleeps at most once, refuses exactly the unaffordable, and admits unless the check refuses |
| PacingGuard.InMemoryCostRateGuard.Acquire | data_sources/guards.py:56-73 | The refusing guard decides and updates as specified, one vendor only |
| PlanBoundGuard.PlanBoundGlobalGuard.Arm | scripts/vendor_acquisition.py:866-870 | Arming works only when nothing is armed and starts from no admission |
| PlanBoundGuard.PlanBoundGlobalGuard.Acquire | scripts/vendor_acquisition.py:880-897 | Passes at most once per armed call, only for its vendor, cost and endpoint, and charges exactly one call when it passes |
| PlanBoundGuard.PlanBoundGlobalGuard.Finish | scripts/vendor_acquisition.py:872-878 | Reports admission exactly when the lane was charged since arming |
| PlanBoundGuard.OneChargeIff | scripts/vendor_acquisition.py:866-897 | Whatever the pacer grants and whenever, each armed call is charged once if reported admitted and not at all if not, and nothing is charged outside, if and only if no attempt enters and no call completes while another attempt waits |
| Decimal34.Round | app/services/adjustment_factors.py:687-703 | Rounding has relative error at most 5e-34 |
| Decimal34.RoundHas34Digits | app/services/adjustment_factors.py:687-703 | The result has 34 significant digits |
| Decimal34.RoundNearest | app/services/adjustment_factors.py:687-703 | No 34-digit decimal is nearer |
| Decimal34.RoundTiesToEven | app/services/adjustment_factors.py:687-703 | A tie goes to the even coefficient |
| Decimal34.RoundFixes | app/services/adjustment_factors.py:687-703 | Values with 34 digits are left alone |
| FactorKernel.PriceFactorError | app/services/adjustment_factors.py:264-303 | After k actions, d of them dividends, the rounded price factor is within (1-u)^2k/(1+u)^d and (1+u)^2k/(1-u)^d of the exact one |
| FactorKernel.VolumeFactorError | app/services/adjustment_factors.py:264-303 | The same for volume factors, with splits only and exact denominators |
| FactorKernel.FactorsAccurate | app/services/adjustment_factors.py:60-303 | Over 5000 rows every factor is within one part in 10^29 |
| FactorKernel.AdjustedReturnOverSpan | app/services/adjustment_factors.py:9-15 | The adjusted return over any span is the product of the gross returns, dividends added and splits scaled |
| FactorKernel.SplitOnlyReciprocal | app/services/adjustment_factors.py:282-294 | Without later dividends price factor times volume factor is one |
| FactorKernel.NewAnchorScales | app/services/adjustment_factors.py:264-303 | A newer anchor scales all earlier factors by one ratio |
| FactorKernel.ReturnsUnmoved | app/services/adjustment_factors.py:9-15 | Appending a session leaves the gross return over every earlier span as it was |
| AdjustmentFactors.ValidateRawCloses | app/services/adjustment_factors.py:394-486 | The loop returns the normalised, sorted, contiguous series, or refuses, as specified |
| AdjustmentFactors.ValidateSplits | app/services/adjustment_factors.py:489-522 | The loop returns the normalised splits in order, or refuses, as specified |
| AdjustmentFactors.ValidateDividends | app/services/adjustment_factors.py:525-557 | The loop returns the normalised dividends in order, or refuses, as specified |
| AdjustmentFactors.AccumulateFactors | app/services/adjustment_factors.py:264-305 | The backward loop publishes the recursively defined rounded factor of every row, or refuses |
| AdjustmentFactors.BuildAdjustmentFactorSet | app/services/adjustment_factors.py:241-391 | The whole build returns the specified artifact or refusal |
| FactorMeaning.BuiltIff | app/services/adjustment_factors.py:241-576 | A set is built exactly for distinct collections, closes of every session of their span at its close and received by the cutoff, supported actions on those sessions with no identity or session in common, and rounded factors that have floats |
| FactorMeaning.BuiltCarries | app/services/adjustment_factors.py:241-391 | A built set carries every supplied close, split and dividend once and no other, with its own day, stamps and identities, each amount rounded and each close reading back to the same float, in order, under the digest of all of it |
| FactorMeaning.VersionsListed | app/services/adjustment_factors.py:371-376 | A built set lists the version IDs of exactly the supplied actions, in text order |
| FactorArtifact.OrderIndependent | app/services/adjustment_factors.py:450-576 | Every order of raw closes, splits and dividends gives the same verdict, payload and ID |
| FactorArtifact.BuiltFixed | app/services/adjusted_price_store.py:378-456 | Rebuilding from a built payload gives the identical artifact |
| FactorArtifact.DecodeAcceptsBuilt | app/services/adjusted_price_store.py:378-456 | The decoder accepts exactly the payloads building produces, under their own digest |
| FactorArtifact.DecodedIsBuilt | app/services/adjusted_price_store.py:378-456 | A payload accepted under the ID of a built set is that set |
| FactorArtifact.FactorsAreProducts | app/services/adjustment_factors.py:274-303 | In exact arithmetic a row's factors are the products of the steps of all actions on strictly later sessions |
| FactorArtifact.PublishedFactors | app/services/adjustment_factors.py:264-305 | Every published row is within 10^-29 of that product, its floats are the ones the conversion `nearest` gives for its decimals, and the anchor is one |
| FactorMeaning.PublishedOverInputs | app/services/adjustment_factors.py:264-305 | Every supplied session is published with factors within 10^-29 of the exact products of the supplied actions on later sessions, with the floats `nearest` gives them, and one on the last session |
| AdjustedReads.AdjustOhlcvWindow | app/services/adjusted_prices.py:180-274 | The validating and adjusting loops return the specified window or refusal |
| AdjustedReads.ConsistencyKept | app/services/adjusted_prices.py:589-662 | Adjusting never breaks the order of open, high, low and close: only an unrepresentable product can fail |
| AdjustedReads.WindowReadsIff | app/services/adjusted_prices.py:180-274 | For any set, a window is read exactly when every bar has the time, recorded stamp, receipt and close of its raw input, the receipts fit, every product has a float and time increases, and its rows are then the products |
| AdjustedReads.BuiltWindowReads | app/services/adjusted_prices.py:180-274 | Reading a built set with its own bars and receipts fails only on an unrepresentable product, and every row is available after its inputs |
| AdjustedReads.FourRoundings | app/services/adjusted_prices.py:589-662 | Three float roundings on top of the decimal error stay below four float roundings |
| AdjustedReads.ReadCloseAccurate | app/services/adjusted_prices.py:180-274 | Every close read from a built set is within four float roundings of the stored raw close times the exact product over the later actions, where its conversions and its product each err by one rounding at most |
| AdjustedPaging.FollowUpSelects | app/services/adjusted_price_store.py:329-338 | A page with more is followed by a valid request for exactly the rows before it |
| AdjustedPaging.PageMeans | app/services/adjusted_price_store.py:329-338 | A page lists in order the newest rows from start on and before end, up to the limit; it has more exactly when one is left out, and then it is full and names its first |
| AdjustedPaging.WalkReturnsSelection | app/services/adjusted_price_store.py:329-338 | Following next_end returns every selected row once, in order, in max(1, ceil(n/limit)) pages |
| BarBatches.DedupeRows | ingestion/upsert.py:361-385 | The dictionary loop computes the specified deduplication |
| BarBatches.DedupedMeans | ingestion/upsert.py:361-385 | It fails exactly when two rows of a key differ in value, else gives one earliest row per key, sorted |
| BarWriteMeaning.DedupedEarliest | ingestion/upsert.py:361-385 | The row kept for a key has its values and is the first by as_of, then by fetched_at |
| BarWriteMeaning.KeysInOrder | ingestion/upsert.py:361-385 | Kept rows are ordered by symbol, timespan, multiplier, time, source and basis |
| BarBatches.DedupeForgetsOrder | ingestion/upsert.py:361-385 | The result depends only on which rows are present |
| BarBatches.DedupeIdempotent | ingestion/upsert.py:361-385 | Deduplicating twice is deduplicating once |
| BarVersions.BuildBarUpsertPlan | ingestion/upsert.py:226-250 | The planning loop returns the deduplicated rows and planned revisions, or refuses |
| BarVersions.PlanAgrees | ingestion/upsert.py:226-298 | The trigger writes exactly the planned revisions, and refuses wherever the planner does |
| BarVersions.WritesPersist | ingestion/upsert.py:408-419 | The check after the write cannot fail while the key locks are held |
| BarVersions.UpsertSucceeds | ingestion/upsert.py:266-298 | An upsert does exactly what the statement does on the deduplicated rows, and is refused when two rows of a key differ |
| BarWriteMeaning.UpsertIff | ingestion/upsert.py:226-338 | A batch is written exactly when no two rows of a key disagree and every kept row is new, unchanged or newer in both stamps and not recorded before its as_of; the tables then hold exactly the kept values under their stamps and one revision for each correction |
| BarWriteMeaning.FinalizeIff | ingestion/upsert.py:54-142 | Reconciliation gives exactly the unreceipted versions of the batch's series the stamp given, or is refused for a batch that disagrees with itself or a receipt before its version |
| BarVersions.VersionsIncrease | ingestion/upsert.py:322-338 | Along any run a key's versions increase in as_of, fetched_at and recorded time, each linked to the next |
| BarVersions.ContinueKeeps | ingestion/upsert.py:266-298 | Along any run histories only grow at the end |
| BarVersions.StoredIsHistory | ingestion/upsert.py:79-142 | The union of current, previous and incoming versions is exactly the histories |
| BarVersions.ReplayChangesNothing | ingestion/upsert.py:1-8 | Replaying a batch at once changes nothing |
| BarVersions.UpsertChangesIff | ingestion/upsert.py:266-298 | An accepted batch changes nothing exactly when all its values are stored already |
| BarVersions.WrittenRowIsSpent | ingestion/upsert.py:322-338 | A row that once became a version never becomes one again |
| BarVersions.DelayedReplayOverturns | ingestion/upsert.py:322-338 | A delayed replay of a no-op row can overturn a correction |
| PointInTime.OneVersionPerStamp | app/services/adjustment_factor_builder.py:89-197 | A recorded stamp names one version, so a selection is never ambiguous |
| SelectionMeaning.SelectionMeans | app/services/adjustment_factor_builder.py:89-197 | Every covered observation with a received version, and no other, has one row, with the close, recorded stamp and receipt of its last recorded received version |
| PointInTime.RawSelectionFixed | app/services/adjustment_factor_builder.py:89-197 | Later upserts and receipts stamped after the cutoff leave the selected raw closes as they were |
| PointInTime.StaysNewestIff | app/services/adjustment_factor_builder.py:89-197 | A selected version stays the newest through a run exactly when no accepted reconciliation of the run receipts, stamped up to the cutoff, a newer version of the same observation |
| PointInTime.SelectionFixedIff | app/services/adjustment_factor_builder.py:89-197 | A whole selection survives a run exactly when no accepted reconciliation receipts, stamped up to the cutoff, a version in its scope newer than all visible ones of its observation |
| PointInTime.LateCommitReplaces | migrations/versions/0008_bar_version_availability.py:285-294 | A run in which a receipt stamped before the cutoff, committed after the read, replaces the selected version |
| PointInTime.LoadedFixed | app/services/adjustment_factor_builder.py:262-346 | The collection loaded at a cutoff stays the same, with the same actions |
| SelectionMeaning.NewCollectionLoads | app/services/adjustment_factor_builder.py:262-346 | A new collection is loaded from then on exactly when its scope is the exact one, it is received by the cutoff, and it is recorded later, or together under a greater ID |
| SelectionMeaning.PreparedWhen | app/services/adjustment_factor_builder.py:207-240 | A set is prepared exactly when the cutoff is not in the future, something is selected, every collection row is an action of its kind in the coverage, and the set can be built |
| SelectionMeaning.PreparedMeans | app/services/adjustment_factor_builder.py:207-240 | The prepared set carries the close of the last received version of exactly the covered observations and every action of the two loaded collections |
| PointInTime.PreparedUnique | app/services/adjustment_factor_builder.py:207-240 | One state of the tables prepares at most one factor set |
| PointInTime.PreparedFixed | app/services/adjustment_factor_builder.py:207-240 | Later history cannot change an earlier cutoff's factor set |
| RateLimit.MemoryRateLimitBackend.Increment | app/core/rate_limit.py:89-99 | The sweep and count update the dictionaries as specified |
| RateLimit.ApiRateLimiter.Hit | app/core/rate_limit.py:162-175 | A hit increments its identity's bucket and decides from the count |
| RateLimit.CountsAgree | app/core/rate_limit.py:84-175 | With delays within a window the j-th hit of an identity in a window returns j, so exactly the first limit are allowed and the rest of the limit remains |
| RateLimit.SeenMeans | app/core/rate_limit.py:162-168 | What is counted is the hits of one identity in one window of wall time |
| RateLimit.SecondHitCounted | app/core/rate_limit.py:162-168 | From an empty store two hits of a window are counted together exactly when the second is counted within two windows of the first |
| RateLimit.CountExactIff | app/core/rate_limit.py:84-175 | In every run counted in order the count returned is the number of hits in the bucket exactly when the last is counted less than two windows after the bucket's first |
| RateLimit.LateHitForgotten | app/core/rate_limit.py:162-168 | A run of two hits in one window whose second returns a count other than two |
| RateLimit.ResetCoversWindow | app/core/rate_limit.py:169-175 | reset_after reaches the next window, is at most one window and no second too long |
| WilsonInterval.ClampsAreIdle | app/services/forecast_calibration_evidence.py:1086-1106 | The clamps and special cases never change a bound |
| WilsonInterval.WilsonMeans | app/services/forecast_calibration_evidence.py:1060-1106 | The interval is what the score test accepts, its ends are the roots, and it contains k/n inside [0, 1] |
| WilsonInterval.WilsonMirrors | app/services/forecast_calibration_evidence.py:1060-1106 | Swapping successes and failures mirrors the interval |
| WilsonInterval.WilsonWidens | app/services/forecast_calibration_evidence.py:1060-1106 | A larger quantile gives a containing interval |
| CalibrationJoin.JoinCalibrationEvidence | app/services/forecast_calibration_evidence.py:201-319 | The loop over seen, proofs and observations computes the specified join |
| CalibrationJoin.JoinIsBijection | app/services/forecast_calibration_evidence.py:201-319 | Success means members and proofs correspond one to one by identity |
| JoinMeaning.JoinMeans | app/services/forecast_calibration_evidence.py:201-319 | A joined dataset holds for every proof exactly what its validation against its own member gave, in every field, with intervals on their thousandths in order, ordered by target time, forecast and horizon, each with its own proof, all under the digest |
| JoinMeaning.JoinsIff | app/services/forecast_calibration_evidence.py:201-319 | A join succeeds exactly when members and proofs match one to one, every proof validates, and the observations are acceptable, of one fitting scope and no two of one opportunity and horizon |
| CalibrationJoin.JoinForgetsOrder | app/services/forecast_calibration_evidence.py:201-319 | Every order of the proofs gives the same dataset and digest |
| CalibrationJoin.ShapeFixed | app/services/forecast_calibration_evidence.py:781-934 | Normalising a normalised dataset changes nothing |
| CalibrationJoin.RejoinFixed | app/services/forecast_calibration_evidence.py:761-778 | Re-deriving a dataset from its own stored proofs returns it unchanged |
| JoinMeaning.RequiredMeans | app/services/forecast_calibration_evidence.py:761-778 | A stored dataset is returned only when it is what joining its own proofs gives, up to the order of observations and the noise of their intervals |
| EntityTags.ParseIfNoneMatch | app/core/etag.py:29-56 | The scanning loop terminates and computes the specified parse |
| EntityTags.ParseMeans | app/core/etag.py:29-56 | It returns a tag list exactly for its printings with optional blanks, and the star exactly for a star |
| EntityTags.IfNoneMatchMatches | app/core/etag.py:16-26 | Compares every candidate without its weakness flag |
| EntityTags.MatchesMeans | app/core/etag.py:16-63 | A match is a star, or a listed tag weakly equal to the current one |
| DecimalText.CanonicalIff | app/services/corporate_actions.py:430-454 | Text is produced exactly for positive values with at most 20 integer and 18 fractional digits, up to 256 coefficient digits |
| DecimalText.CanonicalReadsBack | app/services/corporate_actions.py:430-454 | The text reads back to the value and has no superfluous zeros |
| DecimalText.CanonicalForgetsExponent | app/services/corporate_actions.py:430-454 | Equal values with different exponents print identically |
| TaskPackets.EscapedLinesSafe | ai_dispatcher/packets.py:66-68 | Escaped free text contains no field line |
| PacketMeaning.StripMeans | ai_dispatcher/packets.py:61-63 | Stripping takes exactly the whitespace off both ends |
| PacketMeaning.FieldIff | ai_dispatcher/packets.py:31-63 | A field line is a dash, blanks, a key, a colon and the value between whitespace, and nothing else is one |
| PacketMeaning.SplitLinesMean | ai_dispatcher/packets.py:66-68 | Lines are cut at every break, a carriage return and the newline after it being one, and no other way |
| TaskPackets.InlineParses | ai_dispatcher/scope_guard.py:69-75 | Quoted, comma-separated tokens split back into themselves |
| TaskPackets.ScopeRoundTrip | ai_dispatcher/packets.py:93-154 | For any goal and notes the rendered packet parses back to exactly the planned files, in order |
| PacketMeaning.RendersIff | ai_dispatcher/packets.py:93-126 | A packet is rendered exactly when the plan names the scaffold's dispatch, a goal and some files, each one token |
| PacketMeaning.PacketMeans | ai_dispatcher/packets.py:93-154 | A rendered packet reads back with the plan's dispatch and files, the scaffold's author and time, the fixed fields and no other field, and its goal and notes stand line by line, quoted where they would read as a field |
| ScopeGuard.StarSplits | ai_dispatcher/scope_guard.py:17-26 | A star takes any stretch of allowed characters |
| GlobMeaning.GlobMeans | ai_dispatcher/scope_guard.py:17-32 | A glob matches exactly the paths that can be cut into one piece for each item of its one reading, two stars read as one: a double star takes any stretch, a star or question mark stays inside a directory, anything else takes itself |
| ScopeGuard.PlainMatches | ai_dispatcher/scope_guard.py:17-32 | A glob without wildcards matches only itself |
| ScopeGuard.DirectoryMatches | ai_dispatcher/scope_guard.py:17-32 | A directory glob matches exactly the paths below the directory |
| ScopeGuard.ExecuteWithControl | ai_dispatcher/loop.py:150-277 | The loop returns the first round that needs no correction or has none left, and passes exactly when that round is in scope, verified, publishable and passed by the control |
| ScopeGuard.AllowedIff | ai_dispatcher/loop.py:280-284 | A rendered packet allows exactly what its planned globs and the handoffs directory match |
| ScopeGuard.DecideMeans | ai_dispatcher/loop.py:150-277 | A round is followed by a correction exactly when verification is red, the control wants changes or what it passed is not ready, and rounds remain; else it passes, blocks exactly when the executor or the control stops, or fails, reporting its changes |
| ScopeGuard.OutsideAre | ai_dispatcher/scope_guard.py:62-66 | The reported violations are exactly the changes that match no allowed glob, in text order |
| Sorting.TextLessMeans | ai_dispatcher/scope_guard.py:62-66 | Texts are ordered by their first differing code point, a proper beginning first |
| ScopeGuard.PassedWithinPlan | ai_dispatcher/loop.py:150-284 | A passed dispatch changed only planned files or the handoffs directory |
| ScopeGuard.PassedLiterally | ai_dispatcher/loop.py:150-284 | With wildcard-free plans every changed path is a planned file or lies under handoffs |

## Left out

- Journal text: JSON bytes, schema and timestamp fields, identifier patterns and file-system checks; a record is its content.
- Digests: SHA-256 is a constructor, so collisions and malformed digests beyond foreign texts are absent; plan IDs are opaque.
- Repairs: receipt repair steps, ambiguous action-collection states and the command line of `scripts/vendor_acquisition.py`.
- AcquisitionProtocol.SendsWithinBudget: counts requests at the guard's permit, so a provider that sends without asking the guard is outside the model.
- PlanBoundGuard.PlanBoundGlobalGuard.Acquire: is the call alone on its lane; overlapping attempts are the step system of `OneChargeIff`, in which the pacer may grant or refuse any waiting attempt and its budget is not counted.
- PacingGuard.AsyncPacingCostRateGuard.AcquireAlone: states the loop without interleaved callers; with them each pass is one `Section` of an arbitrary sequence.
- The one-session backfill ledger of `scripts/vendor_backfill.py`: the same rules in a simpler journal; only its unresolved dates enter, as a parameter.
- Decimal34.Round: has no exponent range, so overflow and underflow of the decimal context are not modelled.
- Binary64: conversion, shortest text and multiplication are parameters with stated laws; bit patterns are not modelled.
- AdjustmentFactors.ValidateRawCloses: leaves out the uniqueness test on receipt keys, which strict chronology implies.
- Text validation of symbols, identifiers and content IDs, and NaN or infinite decimals, in the factor inputs.
- The exchange calendar is a given list of sessions with close times.
- CalibrationJoin.JoinCalibrationEvidence: takes the validation of one archived run and outcome as a parameter; an empty cohort is refused where the source would raise an index error; letter case of the symbol is not checked.
- BarVersions.VersionsIncrease: models the upsert statement, trigger and receipts as table transformations; creator transaction IDs and row-level locking are absent, a transaction is one step.
- PointInTime.PreparedFixed: action rows with missing fields and incomplete membership are not representable.
- AdjustedReads.AdjustOhlcvWindow: leaves out the second check of the artifact's JSON projection and the final slice.
- The Redis limiter backend and `parse_rate`; they would add only easy members.
- WilsonInterval.WilsonMeans: is stated over the reals, with the quantile and the square root given.
- ScopeGuard.PassedWithinPlan: covers packets rendered from planner JSON; the plan gate loop, the free-markdown fallback and changes made after the scope check are not modelled.
- ScopeGuard.ExecuteWithControl: takes each round's observations as given; parsing of `git status` output is not modelled.
