# Verification of the stock-prediction protocols

A Dafny model of five parts of the stock-prediction services, with proofs about every run and every
reachable state.

- **Intraday replication.** Market Data collects the minutes of a session under a lease, from sampled price
  pages or finance charts, and emits numbered deltas. Verification stores them in whatever order they arrive,
  rebuilds the bars without gaps and scores predictions again and again until a stream is final.
  (`IntradayTypes`, `Avanza`, `FinanceAdapter`, `Intake`, `IntradayContract`, `Collector`, `StreamSafety`,
  `Attempts`, `BatchLog`, `Replication`, `IntradayPolicy`, `VerdictMeaning`, `SampledMeaning`, `VerdictStability`,
  `CarryForward`, `IntradayVerification`, `DeskMeaning`, `ScoredHistory`, `SampledRuns`)
- **Browser gateway.** Attempts and availability rows in the store, and the engine that routes one request to
  one slot of one provider, alone and many at once.
  (`GatewayStore`, `GatewayMeaning`, `GatewaySafety`, `Engine`, `GatewaySystem`)
- **Close sweep.** Decisions from signed forces, propagation over correlation edges, the stance table with its
  daily cap. (`Decisions`, `Forces`, `Stances`, `StanceRules`, `Propagation`, `SweepSpec`, `Sweep`)
- **Credibility.** Learning from scored predictions, edge ids, credible intervals.
  (`Credibility`, `Shares`, `WeightMovement`, `Overlaps`, `EdgeIds`, `Quantile`)
- **Calendar.** Baseline and settlement sessions. (`Sessions`)

`Wrappers`, `Sequences`, `Sorting` and `Directions` are shared helpers. Tables are maps or sequences, one
transaction is one step, and messages are data. State that the services update in place is held in classes whose
methods are proved equal to functions of the old state. What those functions mean is stated from what goes in and
what comes out, without naming them, and the whole-run theorems are about them. Times are whole seconds, floats and
decimals are reals. Answers of the world are parameters or arbitrary choices: the clock, what providers reply,
whether a market is open, which of several equally recent rows a query returns, at which wait a request is
cancelled. Fresh ids are fresh.

`dafny verify dfyconfig.toml` verifies the whole project.

## Where the code differs from what it promises

- `decide` divides by zero when the deadband is 0, which the configuration allows, exactly on upward edges of
  weight zero (`DividesByZeroExactlyWhen`).
- A comment in the stance store says a weekend can never leave two stances open; it can, exactly when two were
  open before (`ClosedStoreReplacesOne`, `ClosedMarketCanLeaveTwo`).
- Two overlapping deliveries of one scored prediction can credit the graph twice, because the guard row protects
  only the source counts. The overlap is harmless exactly when every credited edge has no share or reaches its
  bound with one credit (`OverlapHarmlessExactlyWhen`); a single edge inside the band moves two steps
  (`OverlapMovesTwoSteps`).
- One message moves weights by at most one step only while stray weights do not have to be brought back: each edge
  keeps to its share exactly when it lies within it of the band (`SharesBoundMovesExactlyWhen`), and all together
  keep to one step exactly when the overshoots fit into unused shares (`OneMessageMovesOneStep`). A weight below
  the floor breaks it (`StrayWeightMovesMore`).
- A gateway request cut off while it waits for its reservation, or for its last unshielded write, can leave its
  attempt unfinished (`ReservationCanBeAbandoned`, `LastWriteCanBeAbandoned`); those and a failing store are the
  only ways (`SingleDispatch`).
- The gateway's finish statement does not look at the attempt's state, and finishing an unknown attempt leaves a
  quarantine with nothing behind it (`StrayFinishBreaksQuarantine`). No interleaving of the engine's requests gets
  there (`GatewayIsSafe`).
- Without look-ahead, as the calendar promises, only where the session of the local date or the one before it is
  complete; a zone that skipped a weekday breaks it (`ResolveBaselineSettlement`, `SkippedDateLooksAhead`).
- Edge ids of different kinds are told apart only where no name is both a factor and an asset
  (`EdgeIdsNeverCollide`).

## Model

| member | source | states |
|---|---|---|
| `Replication.InvariantHolds` | src/services/market-data/market_data/intraday.py:56-236 | every history of requests, registrations, claims, dead workers, failed fetches, commits and deliveries keeps the whole invariant: registered streams, sound logs, fenced workers, mirrored batches |
| `Replication.EventKeepsInvariant` | src/services/market-data/market_data/intraday.py:56-236 | each single event keeps that invariant, whatever the other workers are doing |
| `Replication.StreamsReplay` | src/services/market-data/market_data/intraday.py:171-236 | at any point a stream's messages are numbered 1, 2, 3, ..., replay to exactly its stored bars, end with a final message exactly when it is done, name pages before charts with at most one replacement, and its bars are all samples or all provider minutes |
| `Replication.Fencing` | src/services/market-data/market_data/intraday.py:189-236 | a worker that still holds the lease started from the row exactly as it is now, so no other commit is lost; a worker whose lease was superseded changes nothing |
| `Replication.SwitchSurvives` | src/services/market-data/market_data/intraday.py:117-186 | a switch to charts that a failed fetch interrupted is never forgotten: at any later point of the history the stream is still switching and has said nothing since, or the first thing it said was the one message of its whole log that replaces |
| `Replication.DeliveriesAreAccepted` | src/services/verification/verification/intraday.py:160-223 | however late, repeated or reordered, no delivery of an emitted message is refused: it is stored or recognised, and its revision is then in the table |
| `Replication.DeliveredPrefix` | src/services/verification/verification/intraday.py:255-279 | the rows scoring uses are exactly the longest prefix of the stream's log delivered without a gap |
| `Replication.EndToEnd` | src/services/verification/verification/intraday.py:255-281 | the bars rebuilt by Verification equal the collector's bars as they were at that revision |
| `Replication.EndToEndFinal` | src/services/verification/verification/intraday.py:266-281 | the collector did pass through that revision, and the rebuilt stream is final exactly when the collector is done and everything it said has arrived |
| `Replication.RevisionReached` | src/services/market-data/market_data/intraday.py:199-201 | every revision up to the current one was the current one at some point |
| `Collector.IntradayCollector.constructor` | src/services/market-data/market_data/intraday.py:44-54 | an empty store under the given settings |
| `Collector.IntradayCollector.AddStream` | src/services/market-data/market_data/intraday.py:56-72 | refused exactly for an uncharted, unsampled provider or another registry version; a known stream is left alone; a new one starts on pages only when sampling is on and the policy asks for it |
| `Collector.IntradayCollector.TakeLease` | src/services/market-data/market_data/intraday.py:88-100 | nothing is claimed exactly when no stream is due; otherwise the claimed stream is due, no due stream has waited longer, its lease is the new token and the returned row is the stored one |
| `Collector.IntradayCollector.ReadSource` | src/services/market-data/market_data/intraday.py:117-170 | the source decision with its mutable mode, fallback and replacement flag computes `Gather`, whose meaning in every case is stated by the `Attempts` lemmas below |
| `Collector.IntradayCollector.Merge` | src/services/market-data/market_data/intraday.py:171-175 | the changed bars and the dictionary after applying them |
| `Collector.IntradayCollector.Prepare` | src/services/market-data/market_data/intraday.py:171-216 | the row and message of an attempt are a function of the row it started from |
| `Collector.IntradayCollector.Announce` | src/services/market-data/market_data/intraday.py:184-216 | finality, failure, next revision and message follow from the change, its completeness and the time |
| `Collector.IntradayCollector.GiveBack` | src/services/market-data/market_data/intraday.py:156-170 | an unavailable provider returns the lease and remembers mode and fallback, only for the holder of the lease |
| `Collector.IntradayCollector.CommitAttempt` | src/services/market-data/market_data/intraday.py:189-236 | row and outbox change together, only for the holder of the lease |
| `Collector.IntradayCollector.Collect` | src/services/market-data/market_data/intraday.py:110-236 | the whole attempt refines `Conclude`, whose meaning in every case is stated by the `Attempts` lemmas below |
| `Attempts.StreamStarts` | src/services/market-data/market_data/intraday.py:56-72 | a new stream starts empty, on pages exactly where they are sampled and asked for, and is due from the open on; known streams and all others are left alone |
| `Attempts.ClaimHoldsFor` | src/services/market-data/market_data/intraday.py:88-96 | a claimed stream cannot be claimed again for five minutes and can be from then on; no bar or revision changes |
| `Attempts.PagesAttempt` | src/services/market-data/market_data/intraday.py:132-141 | pages that answer: the stored bars are the old ones overlaid with every minute read, the stream ends exactly when it is due to, and the bars that differ are announced as the next revision exactly when something changed or ended |
| `Attempts.ChartsAttempt` | src/services/market-data/market_data/intraday.py:150-152 | charts that answer: the same over stored chart minutes, while stored samples are replaced |
| `Attempts.SwitchedOffAttempt` | src/services/market-data/market_data/intraday.py:123-152 | sampling switched off: a page stream becomes a chart stream, its samples replaced by what the charts answer |
| `Attempts.FallbackAttempt` | src/services/market-data/market_data/intraday.py:142-149 | pages that fail while charts answer: everything stored is replaced by the chart minutes, with the failure as the reason |
| `Attempts.InvalidAttempt` | src/services/market-data/market_data/intraday.py:153-155 | charts that make no sense end the stream with that failure, and take stored samples with them |
| `Attempts.LateAttempt` | src/services/market-data/market_data/intraday.py:123-129 | past the deadline no source is asked and the stream ends |
| `Attempts.UnavailableAttempt` | src/services/market-data/market_data/intraday.py:156-170 | charts that cannot be had change nothing but the schedule and the source |
| `Attempts.SupersededAttempt` | src/services/market-data/market_data/intraday.py:189-197 | an attempt that lost its lease changes nothing |
| `Attempts.ReadMinuteIsStored` | src/services/market-data/market_data/intraday.py:117-236 | whatever the source, a minute that an attempt reads in time is stored when it ends |
| `Attempts.ReadMinutesAreRebuilt` | src/services/market-data/market_data/intraday.py:110-236 | over any history, a minute that a leaseholder reads is in the bars Verification rebuilds from that revision, whatever happens in between |
| `Collector.Meet` | src/services/market-data/market_data/intraday.py:117-155 | what an attempt meets is exactly what the two adapters read: a reading of the pages, or their failure when the session window changed, and the filtered chart; every such visit keeps the promises the replication theorems rest on |
| `StreamSafety.DeltaIsEnough` | src/services/market-data/market_data/intraday.py:171-175 | leaving out unchanged bars loses nothing: overlaying the delta equals overlaying everything fetched |
| `StreamSafety.ChangedAreFetched` | src/services/market-data/market_data/intraday.py:173-173 | the delta repeats no minute and contains only fetched bars |
| `StreamSafety.SessionFits` | src/shared/shared/schemas/messages.py:512-529 | a message never exceeds its schema's 1500 bars, because a valid session has at most 1440 minutes |
| `StreamSafety.GatheredFits` | src/services/market-data/market_data/intraday.py:117-155 | what an attempt gathers fits the source it ends on; bars of the other source are kept only when there are none; a replacement always has the right policy and a reason |
| `StreamSafety.SwitchIsCarriedOut` | src/services/market-data/market_data/intraday.py:122-152 | in the middle of a switch an attempt either leaves it pending with its reason, or emits a replacing charts message |
| `StreamSafety.InterruptedSwitch` | src/services/market-data/market_data/intraday.py:142-170 | failing pages with unavailable charts leave the stream on charts with the page failure as its reason |
| `StreamSafety.MessageAccepted` | src/services/verification/verification/intraday.py:169-201 | every message an attempt can emit passes all of Verification's checks and its schema |
| `StreamSafety.SaysWhatItStores` | src/services/market-data/market_data/intraday.py:199-236 | the stored row is the old bars with the emitted message applied; with no message nothing but the schedule changes |
| `StreamSafety.ReplacesOnce` | src/services/market-data/market_data/intraday.py:122-152 | a replacement happens only on a stream that never replaced before |
| `StreamSafety.WriteKeepsStream` | src/services/market-data/market_data/intraday.py:171-236 | a commit keeps log, bars, numbering, sources and contract together |
| `StreamSafety.RetryKeepsSources` | src/services/market-data/market_data/intraday.py:156-170 | a postponed attempt keeps the source rule |
| `StreamSafety.EndMeans` | src/services/market-data/market_data/intraday.py:184-186 | a stream ends after the close with its session complete, or with a named failure; it always ends once its deadline is reached or the provider failed for good |
| `StreamSafety.CompleteChartsMeans` | src/services/market-data/market_data/intraday.py:176-177 | counting the bars is the same as having every minute of the session |
| `StreamSafety.ReplayInSession` | src/services/verification/verification/intraday.py:175-176 | everything a stream stores lies on whole minutes of its session |
| `FinanceAdapter.Filter` | src/services/market-data/market_data/intraday_adapter.py:60-84 | keeps exactly the completed in-session minutes with four prices, each once and in order; refuses exactly the charts with an invalid kept minute or two different bars for one minute |
| `Avanza.ValidationIsExact` | src/services/market-data/market_data/avanza.py:82-118 | validation succeeds exactly on unmixed, slot-distinct, identified and sound sessions, and then returns all regular samples known by now in slot order |
| `Avanza.MinuteValues` | src/services/market-data/market_data/avanza.py:154-172 | fails exactly when some sample has no valid provenance; otherwise the minutes of the samples in order, later samples winning |
| `Avanza.CarryForward` | src/services/market-data/market_data/avanza.py:157-171 | the inner loop adds exactly the completed, unexpired minutes of one sample |
| `Avanza.MinutesNeverOverlap` | src/services/market-data/market_data/avanza.py:110-118 | minutes of different samples of a validated session never overlap |
| `Avanza.MinuteOfSample` | src/services/market-data/market_data/avanza.py:154-172 | every minute a sample covers carries that sample's price and provenance |
| `Avanza.SampleOfMinute` | src/services/market-data/market_data/avanza.py:154-172 | every minute comes from a sample that covers it |
| `Avanza.ValidatedMinutesAreSampled` | src/services/verification/verification/intraday.py:177-190 | the minutes of a validated session satisfy the provenance Verification demands |
| `Avanza.SoundSampleHasEvidence` | src/services/market-data/market_data/avanza.py:63-79 | a validated sample always has a provenance its schema accepts |
| `Avanza.Read` | src/services/market-data/market_data/avanza.py:178-272 | minutes exactly when the listing is enabled, the day trades, samples are collected and match an unadjusted series, and the samples are a validated, non-empty session with no overdue slot; pending exactly on a closed day or before the first slot is due; otherwise the reason is the first obstacle |
| `Avanza.ReadSamples` | src/services/market-data/market_data/avanza.py:121-172 | the same for the samples alone, once the listing has been looked up |
| `Intake.ValidatesExactlyWhen` | src/services/market-data/market_data/avanza.py:82-118 | validation succeeds exactly when the known regular samples have one mapping and cadence, one sample a slot, and each is of this listing and session, read in an open market within two minutes of a slot of the grid; then all of them are returned in slot order |
| `Intake.PagesGive` | src/services/market-data/market_data/avanza.py:82-272 | a read gives minutes exactly for such a session with nothing overdue, and then exactly the completed minutes its samples stand for, at their price and with their evidence |
| `Intake.ChartsGive` | src/services/market-data/market_data/intraday_adapter.py:60-84 | a chart gives exactly its completed in-session minutes with all four prices, each once and in order, and is refused exactly when it has entries and is incoherent |
| `BatchLog.Rebuild` | src/services/verification/verification/intraday.py:260-279 | the replay loop uses rows up to the first gap or final row and computes their bars, finality, failure, replacement and fallback |
| `BatchLog.UsedIsPrefix` | src/services/verification/verification/intraday.py:266-279 | for any table holding revisions of a log, the rows used are a prefix of the log and no longer prefix was available |
| `BatchLog.ReplayKeepsMinutes` | src/services/verification/verification/intraday.py:272-276 | without a replacement in between no minute disappears from one prefix to a longer one |
| `IntradayContract.NoBarComplaint` | src/services/verification/verification/intraday.py:177-190 | the per-minute checks find nothing exactly when every minute passes them |
| `Intake.MessageIsTaken` | src/services/verification/verification/intraday.py:169-223 | a message is stored exactly when it is proper, in terms of its fields alone, and its revision is new; recognised exactly when it repeats the stored one in everything but its envelope; and refused otherwise without a trace |
| `IntradayPolicy.Evaluate` | src/services/verification/verification/intraday_policy.py:79-254 | the evaluation with its loops computes `Evaluation` for every input |
| `IntradayPolicy.ScoreMinutes` | src/services/verification/verification/intraday_policy.py:97-176 | the provider-minute path, including every early return |
| `IntradayPolicy.ScoreObserved` | src/services/verification/verification/intraday_policy.py:197-254 | the last-known path after its observations are ordered, including every early return |
| `IntradayPolicy.CollectUnique` | src/services/verification/verification/intraday_policy.py:186-193 | one observation per sample in the order first met, or a conflict |
| `IntradayPolicy.ExpectedSlots` | src/services/verification/verification/intraday_policy.py:221-225 | the loop collects exactly the slots from the baseline's slot to the close |
| `IntradayPolicy.FindHit` | src/services/verification/verification/intraday_policy.py:136-142 | the first price that touches the target |
| `IntradayPolicy.Extremes` | src/services/verification/verification/intraday_policy.py:134-135 | the largest and smallest return over the baseline |
| `VerdictMeaning.ReachedMeans` | src/services/verification/verification/intraday_policy.py:146-149 | a directional call is right exactly when some high, or low, touches the target price and wrong exactly when a settled session has none; a neutral call is wrong exactly when some price leaves the band around the baseline and right exactly when a settled session has none; all in prices, against no other function |
| `VerdictMeaning.HitMeans` | src/services/verification/verification/intraday_policy.py:136-142 | the first hit is an earliest price among those that touch the target |
| `VerdictMeaning.ClosingMeans` | src/services/verification/verification/intraday_policy.py:150-160 | the closing call is judged only on settled sessions, by the side of the band the last price is on |
| `VerdictMeaning.ExtremesMean` | src/services/verification/verification/intraday_policy.py:134-135 | the largest rise and fall are those of some price and bound all others |
| `VerdictMeaning.CompleteMeans` | src/services/verification/verification/intraday_policy.py:143-145 | complete exactly when every whole minute from the decision and the open to the close is there and nothing failed |
| `VerdictMeaning.StatusMeans` | src/services/verification/verification/intraday_policy.py:105-176 | the baseline is the open of the first minute that counts; an evaluation with one is open exactly until the stream is final, and then scored exactly when complete |
| `VerdictMeaning.MinuteVerdict` | src/services/verification/verification/intraday_policy.py:97-176 | for every list of provider minutes the evaluation's target, first hit, closing call and extremes are those of the highs, lows and closes of the minutes that count, against the open of the first |
| `VerdictMeaning.MinutesRefused` | src/services/verification/verification/intraday_policy.py:97-132 | what is said when too little of the session is left, no minute counts, the first is too late, or it contradicts the recorded baseline |
| `SampledMeaning.SampleVerdict` | src/services/verification/verification/intraday_policy.py:179-254 | for every list of sampled minutes without contradictions: the baseline is an earliest sample, the first obstacle is named, and otherwise completeness is per slot, the evaluation is scored exactly when final and complete, and the verdict is that of the samples' prices |
| `SampledMeaning.PagesRefused` | src/services/verification/verification/intraday_policy.py:90-192 | sampled minutes mixed with others, or asked for by no policy, are refused, and so are two stories about one sample |
| `SampledMeaning.PagesEmpty` | src/services/verification/verification/intraday_policy.py:201-203 | without a sample in the window nothing is decided |
| `VerdictStability.EarlierMinutesIrrelevant` | src/services/verification/verification/intraday_policy.py:97-108 | minutes before the decision and the order of the minutes never affect the result |
| `VerdictStability.JudgementIsStable` | src/services/verification/verification/intraday_policy.py:134-149 | more prices over the same baseline never flip a decided verdict nor move the first hit later |
| `VerdictStability.CompleteCannotGrow` | src/services/verification/verification/intraday_policy.py:143-145 | a complete session cannot gain a minute |
| `VerdictStability.VerdictIsStable` | src/services/verification/verification/intraday_policy.py:97-176 | as minutes arrive without revision over the same baseline, the next evaluation keeps a decided verdict and never a later first hit |
| `VerdictStability.BaselineSurvives` | src/services/verification/verification/intraday_policy.py:115-132 | the next evaluation keeps the recorded baseline or is unscorable, even if minutes were corrected |
| `CarryForward.UniqueIsExact` | src/services/verification/verification/intraday_policy.py:186-193 | what is kept is exactly what is shown, once per sample id; nothing is kept only when minutes conflict |
| `CarryForward.ConflictIsFound` | src/services/verification/verification/intraday_policy.py:190-192 | two minutes that disagree about a sample are always found |
| `CarryForward.EvidenceDecides` | src/services/verification/verification/intraday_policy.py:179-254 | sampled minutes that show the same observations get the same result, but for the minutes represented |
| `CarryForward.CarryForwardAddsNothing` | src/services/verification/verification/intraday_policy.py:179-254 | for a validated session the expanded minutes are judged exactly as one minute per sample, but for the minutes represented |
| `CarryForward.ReadExpanded` | src/services/market-data/market_data/avanza.py:154-172 | what a read returns is an expansion of a validated session, once each sample has completed its first minute, so the two theorems above apply to it |
| `IntradayVerification.BaselineIsKept` | src/services/verification/verification/intraday.py:234-303 | over any sequence of ticks on provider minutes without source replacement a recorded baseline is kept, or the evaluation ends unscorable or withdrawn |
| `IntradayVerification.VerdictNeverFlips` | src/services/verification/verification/intraday.py:234-303 | over any sequence of ticks with minutes arriving, a decided verdict never flips and the first hit never moves later; only withdrawal takes it back |
| `IntradayVerification.PrefixesArrive` | src/services/verification/verification/intraday.py:260-281 | rebuilding from a longer prefix of a log without replacement loses no minute |
| `ScoredHistory.TablesGrow` | src/services/verification/verification/intraday.py:160-223 | in any history of the replication protocol the stored revisions of a stream only grow |
| `ScoredHistory.LongerTableLongerPrefix` | src/services/verification/verification/intraday.py:260-279 | a table with more revisions never has a shorter usable prefix |
| `ScoredHistory.HistoryArrives` | src/services/verification/verification/intraday.py:255-303 | scorings that follow a history of a stream speaking from charts see provider minutes, lose none from one to the next and see no replacement |
| `ScoredHistory.BaselineIsKeptInHistory` | src/services/verification/verification/intraday.py:234-303 | while the replication protocol runs in any way, with lost, repeated and reordered deliveries, a recorded baseline of such a stream is kept, or the evaluation ends unscorable or withdrawn |
| `SampledRuns.SampledBaselineSurvives` | src/services/verification/verification/intraday_policy.py:179-254 | on sampled prices the next evaluation of samples that include the old ones keeps the recorded baseline or is unscorable |
| `SampledRuns.SampledBaselineIsKept` | src/services/verification/verification/intraday.py:234-303 | over any sequence of ticks on sampled prices that takes no sample back and sees no replacement, a recorded baseline is kept, or the evaluation ends unscorable or withdrawn |
| `IntradayVerification.Desk.constructor` | src/services/verification/verification/intraday.py:50-52 | an empty desk |
| `IntradayVerification.Desk.Observe` | src/services/verification/verification/intraday.py:160-223 | orphans are dropped, complaints and conflicts refused, new revisions stored, equal ones recognised; a stored revision and the other streams never change |
| `IntradayVerification.Desk.Withdraw` | src/services/verification/verification/intraday.py:96-115 | the earliest supersession is remembered, and the older evaluation is withdrawn exactly when its session opens no earlier |
| `IntradayVerification.Desk.OpenEvaluation` | src/services/verification/verification/intraday.py:116-158 | without a calendar nothing happens; otherwise a prediction is evaluated once, its stream is requested once, and without a supported session it is unscorable from the start |
| `IntradayVerification.Desk.ScoreRow` | src/services/verification/verification/intraday.py:252-296 | withdrawal, patience deadline and forgetting a sampled baseline after a replacement, then the evaluation |
| `IntradayVerification.Desk.ScoreOne` | src/services/verification/verification/intraday.py:234-303 | one evaluation is scored from the usable prefix of its batches; settled evaluations and all others are untouched |
| `DeskMeaning.ScoringEvaluates` | src/services/verification/verification/intraday.py:252-296 | what a scoring evaluates: the stream as it is until fifty hours after the close, then as ended with that failure; with the earlier result unless it rests on page prices and the stream was replaced |
| `DeskMeaning.SupersededExactlyWhen` | src/services/verification/verification/intraday.py:96-115 | a stance replaced by the time its session opens is withdrawn by the news and by the next scoring, in either order, and one replaced later is not |
| `DeskMeaning.PatienceEnds` | src/services/verification/verification/intraday.py:280-281 | an unfinished stream ends its evaluation fifty hours after the close, and never as scored |
| `DeskMeaning.ReplacedStreamStartsAgain` | src/services/verification/verification/intraday.py:282-285 | after a replacement the first minute that counts sets a new baseline, whatever the page prices had set |
| `DeskMeaning.RevisedStreamEnds` | src/services/verification/verification/intraday.py:282-296 | without one, another first minute ends the evaluation |
| `GatewayStore.PostgresStore.constructor` | src/services/llm-browser-gateway/llm_browser_gateway/db.py:57-63 | an empty store |
| `GatewayStore.PostgresStore.StartUp` | src/services/llm-browser-gateway/llm_browser_gateway/db.py:65-93 | the four recovery statements compute `Start` |
| `GatewayStore.PostgresStore.TryReserve` | src/services/llm-browser-gateway/llm_browser_gateway/db.py:109-131 | a reservation is granted exactly when the provider has no row in force, no unknown attempt, the id is new and the slot is free |
| `GatewayStore.PostgresStore.MarkSubmitted` | src/services/llm-browser-gateway/llm_browser_gateway/db.py:133-138 | only a reserved attempt becomes submitted; late repair ids name their base attempt |
| `GatewayStore.PostgresStore.FinishAttempt` | src/services/llm-browser-gateway/llm_browser_gateway/db.py:140-182 | attempt state and availability row after a result of any status |
| `GatewayStore.PostgresStore.Reconcile` | src/services/llm-browser-gateway/llm_browser_gateway/db.py:184-203 | a late result releases only an unknown attempt, and the quarantine with the last of them |
| `GatewayStore.PostgresStore.ResetProfile` | src/services/llm-browser-gateway/llm_browser_gateway/db.py:205-214 | unknown attempts of the profile are finished and its rows removed |
| `GatewayMeaning.GrantedExactlyWhen` | src/services/llm-browser-gateway/llm_browser_gateway/db.py:109-131 | a slot is granted exactly when no row bars the provider, nothing of it is unknown, nothing unfinished sits on the slot and the id is new |
| `GatewayMeaning.ReportIsRecorded` | src/services/llm-browser-gateway/llm_browser_gateway/db.py:167-182 | a result about the provider is written down, with its reset or the retry time, unless a rate limit or quarantine still in force shields the row; a rate limit always is |
| `GatewayMeaning.LimitIsRecorded` | src/services/llm-browser-gateway/llm_browser_gateway/db.py:167-182 | a rate limit, the first one included, is in the row and refuses every reservation before its reset |
| `GatewayMeaning.SuccessClearsItsRow` | src/services/llm-browser-gateway/llm_browser_gateway/db.py:155-166 | a success or refusal clears exactly a row no newer than its attempt; request failures touch no row |
| `GatewayMeaning.FinishSettlesItsAttempt` | src/services/llm-browser-gateway/llm_browser_gateway/db.py:148-154 | a result settles its own attempt and no other, as unknown exactly when the submission is |
| `GatewayMeaning.ReportedLimitHolds` | src/services/llm-browser-gateway/llm_browser_gateway/db.py:109-203 | over any run, from its report on a rate limit refuses every reservation up to any instant before its reset, unless the profile is reset or a later report names an earlier one |
| `GatewayMeaning.RestartedAttempts` | src/services/llm-browser-gateway/llm_browser_gateway/db.py:73-93 | a restart makes everything in flight unknown, forgets old finished attempts and keeps the rest |
| `GatewayMeaning.RestartedRows` | src/services/llm-browser-gateway/llm_browser_gateway/db.py:77-89 | a restart quarantines every provider with something unfinished unless it is rate limited, forgets rows about requests and keeps all others |
| `GatewayMeaning.LateResultReopens` | src/services/llm-browser-gateway/llm_browser_gateway/db.py:184-203 | a late result settles exactly an unknown attempt of its provider, under its own or its repair's id, and the quarantine goes with the last of them |
| `GatewayMeaning.ResetReopens` | src/services/llm-browser-gateway/llm_browser_gateway/db.py:205-214 | after a reset every slot of the profile without an attempt in flight can be reserved again; other profiles are as they were |
| `GatewayMeaning.SubmissionIsMarked` | src/services/llm-browser-gateway/llm_browser_gateway/db.py:133-138 | only a reserved attempt is marked, under its own or its repair's id |
| `GatewaySafety.InvariantHolds` | src/services/llm-browser-gateway/llm_browser_gateway/db.py:65-214 | every run keeps: rows newer than the attempts they cover or expired before them, rows behind unknown attempts, rows newer than in-flight attempts beside unknown ones, backed quarantines, exclusive slots |
| `GatewaySafety.StepKeepsInvariant` | src/services/llm-browser-gateway/llm_browser_gateway/db.py:65-214 | each store operation keeps that invariant |
| `GatewaySafety.UnknownQuarantine` | src/services/llm-browser-gateway/llm_browser_gateway/db.py:65-131 | in every reachable state an unknown attempt has a row, a quarantine row has an unknown attempt, nothing is reserved beside an unknown attempt, and a restart quarantines everything in flight |
| `GatewaySafety.UnknownStaysQuarantined` | src/services/llm-browser-gateway/llm_browser_gateway/db.py:109-214 | an unknown attempt stays unknown, and its provider unreservable, until its own late result or a reset of its profile |
| `GatewaySafety.RateLimitPersists` | src/services/llm-browser-gateway/llm_browser_gateway/db.py:73-203 | in any run, while a rate limit is in force no next step lifts it or renames it except a reset of its profile, and only another report of the limit rewrites it |
| `GatewaySafety.RateLimitHoldsUntil` | src/services/llm-browser-gateway/llm_browser_gateway/db.py:109-203 | until a given time, a provider limited beyond it stays limited and unreservable through any run whose further reports also name a later time |
| `GatewaySafety.TabsBoundAttempts` | src/services/llm-browser-gateway/llm_browser_gateway/db.py:26-28 | across all requests a provider has at most one active attempt per slot and at most as many as its tabs, for runs that ask only for existing slots; `GatewaySystem.GatewayIsSafe` derives that of the engine |
| `GatewaySafety.RequestsRunProperly` | src/services/llm-browser-gateway/llm_browser_gateway/engine.py:55-111 | every history of requests that finish what they hold, cancellations and crashes is one of the runs above: the store only sees finishes of in-flight attempts under their own provider; `GatewaySystem.RoutesLiveProperly` derives those histories from the engine's routes |
| `GatewaySafety.StrayFinishBreaksQuarantine` | src/services/llm-browser-gateway/llm_browser_gateway/db.py:140-182 | the run that shows why: finishing an attempt a restart has made unknown leaves its quarantine row without an unknown attempt behind it |
| `Engine.Engine.constructor` | src/services/llm-browser-gateway/llm_browser_gateway/engine.py:18-23 | an idle engine |
| `Engine.Engine.Complete` | src/services/llm-browser-gateway/llm_browser_gateway/engine.py:25-32 | refused exactly when the queue is full; the place in the queue is given back on every path; otherwise the outcome and calls are those of a route |
| `Engine.Engine.Route` | src/services/llm-browser-gateway/llm_browser_gateway/engine.py:34-122 | every route is a number of full rounds that each found someone busy, and then a pass that binds the request, finds everyone shut or is cut off, or no pass because the time is up, which is exactly when the rounds have used the budget |
| `Engine.Engine.Pass` | src/services/llm-browser-gateway/llm_browser_gateway/engine.py:45-120 | one pass takes the first open provider with a free slot, reports unavailability, is cut off, or found a provider busy and leaves nothing behind |
| `Engine.Engine.Visit` | src/services/llm-browser-gateway/llm_browser_gateway/engine.py:48-111 | one provider's turn either leaves nothing behind, is cut short, or binds the request to that provider for good |
| `Engine.Engine.ReserveSlot` | src/services/llm-browser-gateway/llm_browser_gateway/engine.py:55-65 | slots are tried in order and the lowest free one is taken |
| `Engine.Engine.Serve` | src/services/llm-browser-gateway/llm_browser_gateway/engine.py:66-111 | probe, dispatch only when ready, and one finish with the status the outcome calls for, on normal, failing and cancelled paths |
| `Engine.ClosedAs` | src/services/llm-browser-gateway/llm_browser_gateway/engine.py:70-100 | an attempt is closed with the provider's answer where there is one, as disconnected when the probe was stopped, and as unknown when a failed probe or a stopped or failed execution may have reached the provider |
| `Engine.EligibleExactly` | src/services/llm-browser-gateway/llm_browser_gateway/engine.py:35-39 | the providers asked are exactly those with all the required capabilities, each once, by priority |
| `Engine.UnavailableMeans` | src/services/llm-browser-gateway/llm_browser_gateway/engine.py:48-120 | unavailable means that every capable provider was just asked and found shut, and rate limited exactly when all were shut by a rate limit |
| `Engine.SingleDispatch` | src/services/llm-browser-gateway/llm_browser_gateway/engine.py:34-122 | at most one reservation, one dispatch and one finish; the reserved attempt is finished in the store exactly once if and only if the request was not cut off during its reservation or its last unshielded write, and the store did not fail |
| `Engine.ReservationCanBeAbandoned` | src/services/llm-browser-gateway/llm_browser_gateway/engine.py:57-60 | a route cut off while its reservation commits: one reservation and no finish |
| `Engine.LastWriteCanBeAbandoned` | src/services/llm-browser-gateway/llm_browser_gateway/engine.py:100-100 | a route whose provider answered, cut off before its last write commits: one reservation and no finish |
| `Engine.FinishesWhatItHolds` | src/services/llm-browser-gateway/llm_browser_gateway/engine.py:85-111 | the finish is the last call and names the provider and attempt that were granted before |
| `GatewaySystem.ClosesWhatItHolds` | src/services/llm-browser-gateway/llm_browser_gateway/engine.py:85-100 | in a system of many requests over one store, the attempt a request closes is one it was granted earlier and still holds, under its own provider and profile, and closing it is its last call |
| `GatewaySystem.RoutesLiveProperly` | src/services/llm-browser-gateway/llm_browser_gateway/engine.py:34-122 | every interleaving of engine routes, with grants answered by the store, crashes, late results and resets is a history in which requests finish only what they hold |
| `GatewaySystem.HistoryAsksForSlots` | src/services/llm-browser-gateway/llm_browser_gateway/engine.py:56-60 | every reservation of such an interleaving asks for a slot below the number of tabs |
| `GatewaySystem.GatewayIsSafe` | src/services/llm-browser-gateway/llm_browser_gateway/engine.py:34-122 | in every such interleaving the store goes through a proper run, so its whole invariant holds, and no provider ever has more active attempts than tabs or two on one slot |
| `GatewaySystem.TakeRoute` | src/services/llm-browser-gateway/llm_browser_gateway/engine.py:34-122 | whatever the engine's routing method does is a route of that system |
| `Decisions.Decide` | src/services/prediction/prediction/decision.py:108-193 | the decision with its accumulating loop computes `Verdict` of the effective forces, whose meaning in terms of the edges is stated by the `Forces` lemmas below |
| `Decisions.Accumulate` | src/services/prediction/prediction/decision.py:152-158 | net and total force of the edges |
| `Forces.EffectiveExactly` | src/services/prediction/prediction/decision.py:37-70 | an edge survives exactly when it pulls: an edge whose factor did not resolve its own way; a resolved upward edge down, and only where the price is elevated; a resolved downward edge up; a neutral edge neither way |
| `Forces.EdgesDecide` | src/services/prediction/prediction/decision.py:142-170 | in terms of the edges: confidence is the difference of the two sides' strengths over their sum and the half-point, to four decimals with ties to even; direction is the heavier side once confidence reaches the deadband |
| `Forces.EdgesWeigh` | src/services/prediction/prediction/decision.py:171-177 | magnitude is that of the mean weight of the edges on the decided side, or of both sides when neutral |
| `Forces.DecidesExactlyWhen` | src/services/prediction/prediction/decision.py:142-176 | there is a decision exactly when some edge pulls up or down, but for the division by zero, whose condition is given on the edges |
| `Forces.LoneEdgeDecides` | src/services/prediction/prediction/decision.py:37-70 | a lone edge decides its own way, a resolved one the other way, and a resolved upward one only where the price is elevated |
| `Decisions.ConfidenceClosedForm` | src/services/prediction/prediction/decision.py:160-162 | consensus times mass equals net force over total strength plus half-point, and is below one |
| `Decisions.DividesByZeroExactlyWhen` | src/services/prediction/prediction/decision.py:164-175 | the average divides by zero exactly when the deadband is not positive and every directional edge is an upward edge of weight zero |
| `Decisions.ZeroWeightEdgeDividesByZero` | src/services/prediction/prediction/decision.py:164-175 | a concrete edge and setting for which it does |
| `Decisions.DecisionMeaning` | src/services/prediction/prediction/decision.py:108-193 | direction is the sign of the net force behind the deadband, confidence is the closed form up to rounding, magnitude is that of the agreeing edges |
| `Decisions.DecisionIgnoresOrder` | src/services/prediction/prediction/decision.py:108-193 | the decision is the same for every order of the edges |
| `Decisions.VerdictMirrors` | src/services/prediction/prediction/decision.py:108-193 | reversing every effective direction reverses the decision and nothing else |
| `Decisions.AgreeingForceReinforces` | src/services/prediction/prediction/decision.py:108-193 | one more agreeing edge keeps the direction and never lowers the confidence |
| `Decisions.Round4Near` | src/services/prediction/prediction/decision.py:160-162 | rounding to four places moves a value by at most half a unit, fixes zero and stays in the unit interval |
| `Decisions.Round4Monotone` | src/services/prediction/prediction/decision.py:160-162 | rounding is monotone |
| `Stances.LatestActive` | src/services/prediction/prediction/repository.py:218-239 | the open stance read is one of the most recent, and there is none exactly when nothing is open |
| `Stances.PredictionRepository.constructor` | src/services/prediction/prediction/repository.py:26-30 | an empty table |
| `Stances.PredictionRepository.CountPredictionsOn` | src/services/prediction/prediction/repository.py:241-262 | the number of standing predictions of an asset on a local date |
| `Stances.PredictionRepository.StorePredictionWithOutbox` | src/services/prediction/prediction/repository.py:271-352 | one new row per key, and the superseded row withdrawn with it |
| `Stances.PredictionRepository.StorePrediction` | src/services/prediction/prediction/pipeline.py:265-372 | contradiction, repetition, daily cap and replacement on a closed market |
| `StanceRules.OpenMarketAdmits` | src/services/prediction/prediction/pipeline.py:279-320 | on an open market a stance is admitted exactly when it is new, changes the direction the asset holds, is no propagation against it, and fewer rows than the cap stand on the local date; nothing is withdrawn |
| `StanceRules.ClosedMarketReplaces` | src/services/prediction/prediction/pipeline.py:279-328 | on a closed market a new stance replaces the one the asset holds, unless it is a propagation against it |
| `Stances.DailyCapHolds` | src/services/prediction/prediction/pipeline.py:227-372 | however open and closed market stores alternate, no asset exceeds the cap on one local date |
| `Stances.ClosedStoreReplacesOne` | src/services/prediction/prediction/pipeline.py:322-328 | a closed-market store leaves exactly one open stance if and only if at most one was open before |
| `Stances.ClosedMarketCanLeaveTwo` | src/services/prediction/prediction/pipeline.py:322-328 | a run after which a closed-market store leaves two stances open |
| `Propagation.CollectInbound` | src/services/prediction/prediction/pipeline.py:459-504 | every unvisited target of a level with all its inbound edges, the targets in the order they are first met |
| `Propagation.NextLevel` | src/services/prediction/prediction/pipeline.py:398-457 | deciding the new targets completes one more level of shortest distances |
| `Propagation.DecidedAtShortestDistance` | src/services/prediction/prediction/pipeline.py:398-457 | a target is decided at the length of a shortest chain of stored stances leading to it |
| `Sweep.PredictionPipeline.constructor` | src/services/prediction/prediction/pipeline.py:120-135 | the pipeline over its repository, graph and settings |
| `Sweep.PredictionPipeline.StoreStance` | src/services/prediction/prediction/pipeline.py:265-372 | a store under any market state and any choice among equally recent stances |
| `Sweep.PredictionPipeline.DecideTarget` | src/services/prediction/prediction/pipeline.py:408-455 | a target is decided once from all its edges, and exactly its directional decision is asked of the table; a division by zero aborts, which takes a deadband of zero |
| `Sweep.PredictionPipeline.DecideContext` | src/services/prediction/prediction/pipeline.py:524-582 | one context is decided from its causal edges with its polarities and price, and nothing is asked when the graph cannot be read |
| `Sweep.PredictionPipeline.DecideLevel` | src/services/prediction/prediction/pipeline.py:407-456 | every target of a level is decided exactly once and asked for in order, and the next level holds exactly those stored; an abort stops it and keeps what is stored |
| `Sweep.PredictionPipeline.PropagateLevel` | src/services/prediction/prediction/pipeline.py:403-456 | one level is collected completely before it is decided; an abort is passed on |
| `Sweep.PredictionPipeline.RunPropagation` | src/services/prediction/prediction/pipeline.py:374-457 | ends within the depth cap, every wave asking for exactly the stances its level decides; targets sit at their shortest distance, none within the cap is left out, and no excluded asset is stored; an abort keeps the guarantees for what is stored |
| `Sweep.PredictionPipeline.DecideDirect` | src/services/prediction/prediction/pipeline.py:524-582 | every context before the first division by zero is decided in order, its stance asked of the table at depth zero, and deferred exactly when directional |
| `Sweep.PredictionPipeline.CloseReadyContexts` | src/services/prediction/prediction/pipeline.py:506-605 | a sweep asks for every direct decision and then, unless it aborts, propagates exactly those confident enough, one after the other; aborted or not, propagation has stored nothing for a directly decided asset, and per asset only one direction, that of its standing stance if it had one; it aborts only with a deadband of zero on a decision that divides by zero |
| `Sweep.PropagatedStancesAgree` | src/services/prediction/prediction/pipeline.py:279-297 | any two stances a sweep propagates to an asset agree, and follow the stance it held |
| `Sweep.TiedStancesCanSplit` | src/services/prediction/prediction/repository.py:218-239 | where an asset took two opposite stances at the sweep's own instant, two propagated stores can leave it with both directions, so that case has to be excluded |
| `Sweep.StoreKeepsPhase` | src/services/prediction/prediction/pipeline.py:279-350 | each propagated store keeps that guarantee |
| `Sweep.CompleteLevel` | src/services/prediction/prediction/pipeline.py:403-456 | deciding the collected targets keeps shortest distances, completeness and the record of decisions |
| `SweepSpec.WaveTaken` | src/services/prediction/prediction/pipeline.py:403-456 | a level that asked for the stances it decides leaves the next stage: its targets visited, and those stored firing next |
| `SweepSpec.PropagatedStep` | src/services/prediction/prediction/pipeline.py:585-604 | one more deferred decision is propagated exactly when its confidence reaches the minimum, from the table its predecessors left |
| `Credibility.CredibilityPipeline.constructor` | src/services/credibility/credibility/pipeline.py:174-192 | a learner that has processed nothing |
| `Credibility.CredibilityPipeline.UpdateCorrelationEdges` | src/services/credibility/credibility/pipeline.py:194-279 | the loop over a propagated prediction's edges, up to the first id that does not parse |
| `Credibility.CredibilityPipeline.UpdateCausalEdges` | src/services/credibility/credibility/pipeline.py:281-346 | the loop over a direct prediction's edges, up to the first id that does not parse |
| `Credibility.CredibilityPipeline.UpdateEdges` | src/services/credibility/credibility/pipeline.py:281-346 | propagated and direct predictions go their own way |
| `Credibility.CredibilityPipeline.UpdateSources` | src/services/credibility/credibility/pipeline.py:348-378 | the new counts of every credited source |
| `Credibility.CredibilityPipeline.ProcessScored` | src/services/credibility/credibility/pipeline.py:380-428 | guard, withdrawal, edges, sources and the commit of one message; `Shares` states what it moves |
| `Credibility.RegistryEdgesAreRead` | src/services/credibility/credibility/pipeline.py:104-171 | the id reader the learner relies on reads every edge the graph can print: causal edges as causal, propagated ones as correlations, and a propagated one also as causal exactly when its source is the name of a factor |
| `Credibility.SharesSumToOne` | src/services/credibility/credibility/updater.py:53-66 | the shares of the edges are not negative and add up to one; `Shares.SharesAreProportional` says which they are |
| `Shares.ShareExactly` | src/services/credibility/credibility/updater.py:53-66 | an edge's share times the total influence is its own influence, and without any influence all shares are equal |
| `Shares.SharesAreProportional` | src/services/credibility/credibility/updater.py:53-66 | shares stand to each other as the influences do |
| `Shares.DirectMessageMoves` | src/services/credibility/credibility/pipeline.py:281-346 | a direct message moves each contributing edge by its part of the influence times the step, up or down and kept in the band; from the first unreadable id on nothing moves, nor does any edge it does not name |
| `Shares.PropagatedMessageMoves` | src/services/credibility/credibility/pipeline.py:236-279 | a propagated message moves its correlation edges by their part of the correlation edges' influence, and no causal edge; one that names an unknown asset moves nothing |
| `Shares.MovesAreProportional` | src/services/credibility/credibility/pipeline.py:194-346 | two credited edges that end up inside the band have moved in the ratio of their influences |
| `Shares.SourcesGain` | src/services/credibility/credibility/pipeline.py:348-378 | each source of a message gains an even part of one observation on the side of the outcome, from the prior where nothing is stored, and no other source changes |
| `Credibility.CreditsSumToOne` | src/services/credibility/credibility/updater.py:53-66 | so do the credits, for distinct ids |
| `Credibility.SourceCreditMass` | src/services/credibility/credibility/updater.py:68-80 | the sources of a message share one observation exactly when none is repeated, and less otherwise |
| `Credibility.WeightDeltaIsBounded` | src/services/credibility/credibility/updater.py:97-118 | a touched weight ends in the band, moves the right way and by at most its share plus the correction of a stray weight; it stays within its share exactly when the correction does |
| `Credibility.CreditEdgesPointwise` | src/services/credibility/credibility/pipeline.py:281-346 | each edge moves once by its own share and no other edge moves |
| `WeightMovement.ProcessPointwise` | src/services/credibility/credibility/pipeline.py:281-428 | one applied message moves each edge it credits once by that edge's share, and no other edge; edges neither appear nor vanish |
| `WeightMovement.MoveIsExact` | src/services/credibility/credibility/updater.py:97-118 | a weight moves by exactly its share, plus the overshoot of a stray weight, less what the bounds of the band leave unused |
| `WeightMovement.SharesBoundMovesExactlyWhen` | src/services/credibility/credibility/pipeline.py:281-428 | every edge a message credits moves by at most its share if and only if every credited edge lies within its share of the band |
| `WeightMovement.OneMessageMovesOneStep` | src/services/credibility/credibility/pipeline.py:281-428 | all weights together move by at most one step if and only if the overshoots of stray weights fit into what the other shares leave unused, and always by at most one step plus the corrections |
| `WeightMovement.InBandMovesOneStep` | src/services/credibility/credibility/pipeline.py:281-428 | a message whose credited weights lie in the band moves them by at most one step |
| `WeightMovement.StrayWeightMovesMore` | src/services/credibility/credibility/updater.py:97-118 | a weight below the floor, as the schema admits, that one miss moves by two and a half steps |
| `Credibility.SingleEdgeMoves` | src/services/credibility/credibility/updater.py:97-118 | a message with one contribution moves its edge by the whole step |
| `Credibility.EvidencePointwise` | src/services/credibility/credibility/updater.py:82-95 | a credited source gains its credit on one side and no other source changes |
| `Credibility.EvidenceGrowsByCredits` | src/services/credibility/credibility/pipeline.py:348-378 | total evidence grows by exactly the credits handed out |
| `Credibility.ExactlyOnce` | src/services/credibility/credibility/pipeline.py:380-428 | for any delivery sequence the state is that of learning once from the first delivery of each prediction not withdrawn |
| `Credibility.FirstDeliveriesAreFirst` | src/services/credibility/credibility/repository.py:24-30 | the messages learned from are exactly those at the first delivery of their prediction |
| `Credibility.FirstDeliveriesAreDistinct` | src/services/credibility/credibility/repository.py:57-125 | no prediction is learned from twice |
| `Credibility.WeightsStayInBand` | src/services/credibility/credibility/updater.py:97-118 | over any delivery sequence from any graph, malformed messages included, every weight that changed lies in the band, every other weight is as it was, and reliability counts stay frozen |
| `Credibility.EvidenceCountsPredictions` | src/services/credibility/credibility/repository.py:57-125 | total source evidence counts the predictions learned from |
| `Overlaps.CreditedOnceOrTwice` | src/services/credibility/credibility/pipeline.py:281-428 | however the reads and writes of two overlapping deliveries of one prediction interleave, each credited edge ends up credited once or twice and no other edge changes |
| `Overlaps.OverlapCreditsEdgesTwice` | src/services/credibility/credibility/pipeline.py:380-428 | one after the other, they credit the sources once and the edges twice |
| `Overlaps.OverlapHarmlessExactlyWhen` | src/services/credibility/credibility/pipeline.py:380-428 | that leaves the state of a single delivery if and only if every credited edge has no share or sits so close to its bound that one credit takes it there; and all interleavings do if and only if the same holds |
| `Overlaps.AbsorbsExactly` | src/services/credibility/credibility/updater.py:97-118 | a second credit changes nothing exactly for such an edge |
| `Overlaps.OverlapMovesTwoSteps` | src/services/credibility/credibility/pipeline.py:380-428 | a single edge inside the band moves by two steps |
| `Overlaps.LostWriteCreditsOnce` | src/services/credibility/credibility/pipeline.py:281-428 | when both deliveries read an edge before either writes it, the result is that of one delivery |
| `Quantile.BetaPpf` | src/services/credibility/credibility/history.py:78-90 | the loop stops after exactly 40 halvings at the midpoint of the bracket, for any distribution function |
| `Quantile.QuantilesAreOrdered` | src/services/credibility/credibility/history.py:78-90 | a smaller probability never gets a larger quantile, even if the function is not monotone |
| `Quantile.QuantileIsAccurate` | src/services/credibility/credibility/history.py:78-90 | after k halvings the result is within 2^-(k+1) of the crossing point |
| `Quantile.FortyHalvings` | src/services/credibility/credibility/history.py:78-90 | the tolerance lies between the 40th and the 39th power of one half |
| `Quantile.BetaCredibleInterval` | src/services/credibility/credibility/history.py:92-105 | the interval is ordered and in the unit interval for every non-negative confidence, and each bound is within 2^-41 of its point; other shapes are refused |
| `EdgeIds.CausalEdgeRoundTrip` | src/shared/shared/graph/models.py:44-59 | direct, conditioned and group-inherited edges parse back to their factor, condition and target |
| `EdgeIds.PropagatedEdgeRoundTrip` | src/shared/shared/graph/models.py:44-92 | a propagated edge prints the id of its correlation edge, which parses back to it |
| `EdgeIds.CausalEdgeIsNoCorrelation` | src/services/credibility/credibility/pipeline.py:104-129 | a causal edge is read as a correlation edge exactly when its condition is an upstream one and both its names are assets; otherwise it is passed over or rejected, as its condition says |
| `EdgeIds.PropagatedEdgeIsNoCause` | src/services/credibility/credibility/pipeline.py:131-171 | a propagated edge is read as a causal edge exactly when its source is also the name of a factor |
| `EdgeIds.EdgeIdsNeverCollide` | src/shared/shared/graph/models.py:44-92 | two edges of one kind share an id only when they are the same edge; a causal and a propagated edge share one only over a name that is both a factor and an asset |
| `EdgeIds.ParsedEdgeIdPrintsBack` | src/services/credibility/credibility/pipeline.py:104-171 | for any text, a parsed key prints the id it came from and names known entities |
| `Sessions.PreviousSession` | src/shared/shared/calendar/sessions.py:90-95 | the nearest weekday before, with none between: three days back from a Monday, two from a Sunday, one otherwise |
| `Sessions.NextSession` | src/shared/shared/calendar/sessions.py:98-103 | the nearest weekday after, with none between: three days on from a Friday, two from a Saturday, one otherwise |
| `Sessions.CompletionFollowsTheCalendar` | src/shared/shared/calendar/sessions.py:61-83 | a session is complete from its completion instant on and not before; sessions after the local date are not complete; those before it are, unless the zone skipped a date |
| `Sessions.ResolveBaselineSettlement` | src/shared/shared/calendar/sessions.py:111-137 | the baseline is the latest weekday session complete at the decision and the settlement the next one, not complete, if and only if the session of the local date or the one before it is complete, which holds wherever no date was skipped |
| `Sessions.TradingDayUpTo` | src/shared/shared/calendar/sessions.py:127-129 | the latest weekday up to the local date |
| `Sessions.SkippedDateLooksAhead` | src/shared/shared/calendar/sessions.py:111-137 | a zone that skipped a weekday, where the baseline is a session not yet complete |
| `Sessions.ResolutionIsMonotone` | src/shared/shared/calendar/sessions.py:111-137 | the resolution is unique and a later decision never moves it backwards |

## Left out

- Replication.Fencing: leases expire only by being claimed again after their retry time; database row locks are covered by one transaction being one step.
- Collector.IntradayCollector.Announce: page completeness compares against the cadence of whichever sample the dictionary lists first; the model takes that cadence as given.
- ScoredHistory.BaselineIsKeptInHistory: for streams that speak from charts throughout; for sampled streams `SampledRuns.SampledBaselineIsKept` takes it as given that stored samples are not taken back.
- Avanza.Read: sessions open on whole minutes, as those of the exchange calendars do; the samples table and the listing lookup are given as what they answer.
- FinanceAdapter.Filter: the response's listing identity and its split events are checked before the minutes, and are given as a chart that makes no sense.
- GatewayMeaning.LateResultReopens: for attempt ids that do not themselves end in the repair suffix, as random hexadecimal ids do not; `SubmissionIsMarked` likewise.
- CarryForward.ReadExpanded: a sample whose first minute is still running has no minute yet, and the read is then no expansion of it.
- IntradayVerification.Desk.ScoreOne: bars are listed by their minute; the dictionary's own order matters only for samples observed at the same instant.
- IntradayVerification.Desk.OpenEvaluation: the exchange calendar's answer and the stream's hashed identity are given; the prediction's policy and window arrive as one case.
- GatewayStore.PostgresStore.StartUp: its four statements, and the two of a reset, are one step each; the source runs them one after the other while nothing else uses the database at start.
- Engine.Engine.Route: the remaining time shrinks by at least the sleep on every pass; provider calls are arbitrary answers.
- Sweep.PredictionPipeline.CloseReadyContexts: requires that no stored stance is from the future and that no asset took two opposite stances at the sweep's own instant (`TiedStancesCanSplit`); provenance chains and context states are not modelled.
- EdgeIds.CausalEdgeRoundTrip: for names without the separators of an id, and assets and groups with different names, as the taxonomy has them.
- Sessions.ResolveBaselineSettlement: local dates never go backwards and sessions complete in order, not before their own date; times of day within a date are left to the zone.
- Overlaps.OverlapHarmlessExactlyWhen: two overlapping deliveries of one prediction, without other messages between their reads and writes; a third delivery is not modelled.
- WeightMovement.OneMessageMovesOneStep: for messages that name each edge once.
- Credibility.ExactlyOnce: for messages whose edge ids parse; an unreadable id stops the update of its message (`UpdateCausalEdges`), and store failures are not modelled.
- Decisions.Decide: requires a positive evidence half-point, as the configuration does; rationale texts are not modelled.
- Quantile.BetaPpf: the distribution function is arbitrary; its continued fraction and rounding errors are not modelled.
- Stances.DailyCapHolds: for time and local dates that never decrease and a cap of at least one, as the configuration demands.
- Message transport, SQL text, HTTP, browser adapters and the Chrome extension: only their effects appear, as steps and answers.
- Outbox relays, daily price requests and daily scores: their at-most-once facts come from primary keys.
- Cleansing, its taxonomy and the cluster lifecycle: large tables with shallow logic.
- Session summaries, daily sampled closes and reports: they only read what is modelled here.
- Liveness of retries: the code promises none, so only safety is proved.
