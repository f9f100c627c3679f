# ChronosHFT verification

A Dafny 4.11 model of ten components of ChronosHFT and proofs about them. Check it with
`dafny verify dfyconfig.toml`.

| component | modules | what is proved |
|---|---|---|
| Recursive ridge regression | `LinearAlgebra`, `RidgeSignal`, `SignalPredictors` | the rank-one update equals the batch solution, for every horizon and after the history wraps |
| Strongly connected components | `DependencyGraph` | Tarjan's search returns exactly the classes with more than one member |
| Calibration journal replay | `CalibrationReplay`, `CalibrationTheorems`, `CalibrationJournal` | exactly which journals are accepted; signed quotas, windows, spacing and the loss latch over every one |
| Event engine | `EventEngine`, `EventEngineTheorems`, `EventEngineDrain`, `EventEngineTokens`, `EventEngineQueues`, `EventEngineObject` | hot-to-cold handoff, the drain barrier and queue order in every interleaving, stop tokens over restarts |
| Order book | `BookLevels`, `OrderBook` | caches are exact and every level is what the last delta to name it says |
| Evidence journal | `EvidenceChain`, `EvidenceSessions`, `EvidenceRecorder`, `EvidenceRuns` | hash commitment, anchors, writer/validator round trip, what a session loses, sessions in sequence |
| Equity reconstruction | `EquityCurve`, `EquityAccount`, `EquityWindow` | PnL as proceeds, attribution, maximum drawdown, flat-boundary bound |
| RPI exposure and Poisson fit | `RpiExposure`, `PoissonFit`, `PoissonLikelihood`, `PoissonBound`, `PoissonRoot` | exposure conservation, monotone score, one root in the bracket, the fitted slope against the global maximum |
| Request-weight budget | `RateLimitBudget`, `RateLimitTheorems` | nested reserves with their exact clock condition, the block |
| Configuration composition | `ConfigComposition` | success iff no conflict, order independence, single source of every value |

`Options` and `RealArithmetic` hold shared definitions. Code that changes state is modelled by
classes and loops whose contracts tie the new state to a function of the old one; the theorems are
about those functions and about runs of them.

## Assumptions

- Numbers that the program keeps as floats or `Decimal` are reals. `math.exp` and `math.log` are
  function parameters with their laws (positive, exp(a+b) = exp(a) exp(b), tangent bound, inverse);
  nothing else is assumed of them. That the likelihood has a maximum also needs the completeness of
  the reals: the least upper bound of a set is a parameter with its law (`PoissonRoot.IsSup`).
- SHA-256 is a function from record contents to text; commitment assumes it injective and its
  output already in the form readers normalize to.
- A ridge model is created with lambda_reg > 0, which its only callers do.
- Event handlers are registered before start(); one thread starts and stops the engine and does not
  hold the admission lock when it seals it. Any number of puts may be in progress, which covers a
  failure callback that calls put() again.
- Journal entries are decoded records: `wellFormed` stands for key sets, versions, timestamps and
  fixed-identity comparisons, `verified` for a passed signature check, which hands over a permit
  with not_before < expires.
- One SQLite transaction is one step; the clock and the availability of the store are inputs.

## Where the code does not keep a promise

- Event engine: a worker whose `get` times out just before a stop sees `_active` cleared and exits
  without taking its stop token (event/engine.py:405-421). After a restart the leftover token has two
  consequences. The new worker takes it and exits, so an active, accepting engine has a dead lane, at
  any capacity (`EventEngineTokens.DeadLaneAfterRestart`); a lane is safe from this if and only if no
  stop token is left in its queue when start() is called (`EventEngineTokens.StartKeepsWorkerIff`),
  and always is at the first start (`FirstStartKeepsWorker`). If instead the token is still queued at
  the next stop, that stop's `put_nowait` can raise; this can happen if and only if some lane has
  capacity 1 (`EventEngineTokens.TokenOverflowExactly`), so never with the default capacities.
- Budget: deleting attempts older than the previous minute forgets admitted weight when a call comes
  back to a minute after one two or more minutes later. With the store available this, and nothing
  else, breaks the limits (`RateLimitTheorems.ClockConditionExact`). While it is unavailable,
  emergencies are let through unrecorded and can add to the total
  (`OutagesOnlyAddEmergencies`, `OutageOverspends`).
- Evidence journal: one payload that does not validate clears `_healthy`, after which every later
  record is refused without being counted (data/live_evidence.py:1032-1065). The session is sealed
  with zero dropped records and the file is accepted and reopened
  (`EvidenceRuns.InvalidPayloadSilencesTheRest`; the exact condition is `AcceptedYetIncompleteIff`).
  Only the result of close() tells (`CleanMeansComplete`).
- Evidence journal: the summary's final hash is the stored text, not its normal form
  (data/live_evidence.py:272). An externally respelled last hash is accepted on reopening and the
  next record breaks the chain; `EvidenceRecorder.AppendedChain` is the exact condition. The
  recorder's own journals are never affected (`RoundTrip`).
- RPI exposure: `mark_censored` with a reason of blanks only stores an empty reason, so the order
  stays uncensored (alpha/rpi_intensity.py:168-170). That happens for exactly the non-empty reasons
  that str.strip() empties (`RpiExposure.BlankReasonDoesNotCensor`).
- Checks that never fail on their own: the unexpired-permit check of `finish`
  (`CalibrationTheorems.FinishNeedsNoExpiryCheck`), the last-kind check on reopening
  (`EvidenceSessions.AcceptedEndsInStop`), the missing-mark error inside the equity loop
  (`EquityWindow.NeverMissingMark`).

## Model

| member | source | states |
|---|---|---|
| `RidgeSignal.UpdateSolves` | alpha/signal.py:22-39 | With A = lambda_reg * I + sum of x x^T and b = sum of x y, one rank-one update carries A P = I and A w = b of the samples so far to the samples plus the new one. |
| `RidgeSignal.DenominatorAtLeastOne` | alpha/signal.py:26-29 | The denominator 1 + x^T P x is at least 1 after any samples, so the gain is always defined. |
| `RidgeSignal.InitialSolves` | alpha/signal.py:10-15 | P = I / lambda_reg with zero weights solves the empty batch. |
| `RidgeSignal.LeftInverse` | alpha/signal.py:37-38 | P is a two-sided inverse of the normal matrix although the update only keeps it a right inverse. |
| `RidgeSignal.InverseSymmetric` | alpha/signal.py:37-38 | P stays symmetric although the update formula is not written symmetrically. |
| `RidgeSignal.ResidualShrinks` | alpha/signal.py:22-35 | Learning a sample divides its residual y - x.w by the denominator 1 + x^T P x. |
| `RidgeSignal.LossIsQuadratic` | alpha/signal.py:22-39 | The batch ridge loss, a sum over all samples, is the quadratic form given by A, b and the labels. |
| `RidgeSignal.RidgeOptimal` | alpha/signal.py:22-39 | The recursive weights are the one minimiser of the batch ridge loss; any other candidate loses by at least lambda_reg times its squared distance. |
| `SignalPredictors.OnlineRidgePredictor.constructor` | alpha/signal.py:10-20 | A new model solves the empty batch. |
| `SignalPredictors.OnlineRidgePredictor.Update` | alpha/signal.py:22-39 | The object still solves the batch problem, now of its old samples followed by this one; the residual at x is divided by a number of at least 1, and the prediction at x moves towards the label and not past it. |
| `SignalPredictors.OnlineRidgePredictor.Predict` | alpha/signal.py:41-46 | The prediction is x.w where that lies in [-20, 20], and the nearer bound outside. |
| `SignalPredictors.PredictionApproaches` | alpha/signal.py:22-46 | Learning a sample never moves the clamped prediction for it away from its label. |
| `SignalPredictors.ReturnBps` | alpha/signal.py:117-123 | The label is the return from the past price to the present one in basis points: the past price grown by it is the present price. |
| `SignalPredictors.PredictorIsBatchRidge` | alpha/signal.py:6-46 | After any updates the weights beat every other vector on the batch loss of everything seen. |
| `SignalPredictors.BoundedAppendIsLastOf` | alpha/signal.py:86-87 | Appending to the bounded history keeps exactly the last entries of the unbounded stream, also after it wraps. |
| `SignalPredictors.LaggedGrows` | alpha/signal.py:114-126 | A new observation adds exactly one training pair per horizon that reaches back far enough, and none otherwise. |
| `SignalPredictors.MultiHorizonPredictor.Train` | alpha/signal.py:117-126 | Reading the bounded history at its end minus the horizon trains the model on exactly the pairs (t - h, t) of the whole stream. |
| `SignalPredictors.MultiHorizonPredictor.Learn` | alpha/signal.py:106-126 | All three models are trained on exactly their own lagged pairs after every observation. |
| `SignalPredictors.MultiHorizonPredictor.UpdateAndPredict` | alpha/signal.py:97-132 | A non-positive mid changes nothing and returns zeros; any other call extends the stream by one observation and returns, for each horizon, the clamped product of the features with that horizon's ridge weights. |
| `SignalPredictors.MultiHorizonPredictor.SampleCount` | alpha/signal.py:90-95 | The smallest sample count is the stream length less the longest horizon, or 0. |
| `SignalPredictors.HorizonIsBatchRidge` | alpha/signal.py:97-132 | Each horizon's weights are the unique ridge solution, with lambda_reg = 1, of exactly the pairs (t - h, t) of everything observed, whatever the 100-entry history has dropped. |
| `DependencyGraph.StronglyConnectedComponents` | governance/dependency_graph.py:133-180 | For every finite graph and every visiting order, the result holds exactly the classes of mutual reachability with more than one member, pairwise disjoint. |
| `DependencyGraph.ComponentSearch.Visit` | governance/dependency_graph.py:152-175 | Visiting an unindexed module terminates and keeps the stack invariant; everything newly indexed is closed or on the stack above the old one, with the module's lowlink explained. |
| `DependencyGraph.ComponentSearch.Explore` | governance/dependency_graph.py:159-164 | The successor loop: on exit no edge leaves the visited part to a stacked module lower than the lowlink. |
| `DependencyGraph.ComponentSearch.PopComponent` | governance/dependency_graph.py:165-175 | When lowlink equals index, the popped suffix is published iff it has more than one member and the invariant holds again. |
| `DependencyGraph.ComponentSearch.PopUntil` | governance/dependency_graph.py:167-173 | The pop loop removes exactly the stack suffix from the module upward. |
| `DependencyGraph.SuffixIsScc` | governance/dependency_graph.py:165-175 | With no edge crossing below the module, the stack suffix above it is a whole class: mutually reachable and maximal. |
| `DependencyGraph.SuffixMaximal` | governance/dependency_graph.py:163-164 | No edge from the suffix leads to a module outside it that can reach back. |
| `DependencyGraph.ExploreChild` | governance/dependency_graph.py:160-162 | Visiting a new successor and taking the minimum of the lowlinks keeps the explanation of the lowlink. |
| `DependencyGraph.ExploreStacked` | governance/dependency_graph.py:163-164 | A successor on the stack lowers the lowlink to its index. |
| `DependencyGraph.ExploreClosed` | governance/dependency_graph.py:159-164 | A successor already closed may be ignored. |
| `DependencyGraph.AllClassesClosed` | governance/dependency_graph.py:177-180 | Once every module has an index the stack is empty and the closed classes are all the classes. |
| `CalibrationReplay.CalibrationJournalReplay.constructor` | governance/calibration_artifact.py:732-891 | A new replay has seen nothing. |
| `CalibrationReplay.CalibrationJournalReplay.RegisterWindow` | governance/calibration_artifact.py:949-978 | A known permit must repeat its window; a new one must start at or after every earlier end under a new hash, and is then registered. |
| `CalibrationReplay.CalibrationJournalReplay.ActivatePermit` | governance/calibration_artifact.py:980-1326 | An activation is accepted iff all its conditions held of the old state, and then has exactly its effect. |
| `CalibrationReplay.CalibrationJournalReplay.ExpirePermit` | governance/calibration_artifact.py:1582-1778 | An expiry is accepted iff its conditions held; it closes the permit and may only tighten the cap and raise the loss. |
| `CalibrationReplay.ReplayJournal` | governance/calibration_artifact.py:3075-3200 | The journal walk accepts iff every entry in turn is accepted, and ends in the state the entries describe. |
| `CalibrationReplay.RejectedPrefix` | governance/calibration_artifact.py:3075-3200 | A journal with a rejected prefix is rejected. |
| `CalibrationReplay.ActivationAfterRegistration` | governance/calibration_artifact.py:980-1326 | Registering the window before the remaining checks does not change their outcome. |
| `CalibrationTheorems.StepKeepsInv` | governance/calibration_artifact.py:892-907 | Every accepted entry keeps the whole invariant. |
| `CalibrationTheorems.RunKeepsInv` | governance/calibration_artifact.py:892-907 | Every state an accepted journal reaches satisfies the invariant. |
| `CalibrationTheorems.WindowsKept` | governance/calibration_artifact.py:949-978 | Signed windows stay pairwise disjoint with distinct hashes, one per permit. |
| `CalibrationTheorems.OpenKept` | governance/calibration_artifact.py:1016-1048 | At most one permit is open, and every activated permit is open or expired. |
| `CalibrationTheorems.QuotasKept` | governance/calibration_artifact.py:1470-1527 | Counters keep matching the reservations, overall and per permit. |
| `CalibrationTheorems.SpacedKept` | governance/calibration_artifact.py:1407-1428 | Neighbouring reservations stay at least the later permit's minimum interval apart. |
| `CalibrationTheorems.ActivationsAreSigned` | governance/calibration_artifact.py:1190-1326 | In every accepted journal the activated permits are exactly those of its activation entries, each with the hash, window, depths and limits that were signed. |
| `CalibrationTheorems.QuotasSurviveRenewal` | governance/calibration_artifact.py:1470-1580 | In every accepted journal the count and notional are the number and sum of all reservations, and no permit's own reservations exceed the order count or cumulative notional it was signed for. |
| `CalibrationTheorems.ReservationInOneWindow` | governance/calibration_artifact.py:1016-1048 | A reservation lies in the signed window of one activated permit and no other: its own. |
| `CalibrationTheorems.FinishNeedsNoExpiryCheck` | governance/calibration_artifact.py:1885-1898 | With no permit open, every activation has already expired, so that check of finish never fails alone. |
| `CalibrationTheorems.CountBound` | governance/calibration_artifact.py:1407-1428 | Reservations spaced by an interval: n of them inside a stretch need n - 1 intervals. |
| `CalibrationTheorems.ReservationDensity` | governance/calibration_artifact.py:1407-1428 | Any stretch of L nanoseconds holds at most L / min_interval + 1 reservations of a permit, for the interval it was signed for. |
| `CalibrationTheorems.CapIsMinimum` | governance/calibration_artifact.py:1240-1272 | The effective cap is the minimum of the signed permits' maxLoss over all permits seen. |
| `CalibrationTheorems.MinCapIsMinimum` | governance/calibration_artifact.py:1728-1777 | That minimum is positive, is one of the signed caps, and none is below it. |
| `CalibrationTheorems.LossMonotone` | governance/calibration_artifact.py:1240-1272 | A set cap only tightens, the peak loss only grows, the equity baseline is written once. |
| `CalibrationTheorems.BreachLatches` | governance/calibration_artifact.py:1240-1272 | After the peak loss reaches the cap no activation is ever accepted, and every later reservation is under the permit open at that moment. |
| `CalibrationTheorems.BreachIsFinal` | governance/calibration_artifact.py:1240-1272 | In every accepted journal, once the peak loss has reached the cap no permit is open, and nothing accepted later activates a permit or adds a reservation. |
| `CalibrationJournal.AcceptedExactly` | governance/calibration_artifact.py:892-1898 | The replay accepts a journal iff every entry is admissible after the entries before it, where admissibility is told by those entries alone: signed terms, windows, counters, spacing, client ids, baseline, peak and smallest signed cap. |
| `CalibrationJournal.ActivationAgrees` | governance/calibration_artifact.py:980-1272 | An activation passes its checks iff its permit is new, none is open, its window fits the earlier ones, its terms are the signed ones, its counters are those of everything placed, and its peak lies below the smallest signed cap. |
| `CalibrationJournal.ReservationAgrees` | governance/calibration_artifact.py:1328-1580 | A reservation passes its checks iff, under a permit that the journal activated and did not end, it is inside the signed window, spaced from every earlier one, passive at a signed depth, exact in its notional and totals, within the signed quotas and below the smallest signed cap. |
| `CalibrationJournal.ExpiryAgrees` | governance/calibration_artifact.py:1582-1778 | An expiry passes its checks iff its permit has not ended, its window and hash fit the earlier entries, no other permit is open, and it settles the counters, baseline, peak and smallest signed cap of the journal. |
| `CalibrationJournal.BypassAgrees` | governance/calibration_artifact.py:1780-1867 | A bypass passes its checks iff its client id is new, its hash fits, its time is later than every earlier bypass and its notional is exact. |
| `CalibrationJournal.WindowAgrees` | governance/calibration_artifact.py:949-978 | Comparing with the latest end only is comparing with every earlier window. |
| `CalibrationJournal.CapAgrees` | governance/calibration_artifact.py:1240-1272 | Tightening the running cap is taking the smallest signed cap of the whole journal. |
| `CalibrationJournal.RunReflects` | governance/calibration_artifact.py:732-891 | Every field of the replay is what the accepted journal says it is. |
| `EventEngineTheorems.BeginBook` | event/engine.py:236-251 | Opening a dispatch books one delivery per registered hot lane and, if cold is registered too, one pending handoff for all of them. |
| `EventEngineTheorems.PutEnqueueBook` | event/engine.py:253-257 | Enqueuing moves a delivery to the queue; a refusal moves it to refused with its handoff due. |
| `EventEngineTheorems.PutHandoffBook` | event/engine.py:258-261 | The handoff of a refused lane: one lane less is due, and the put is elected exactly when none is left. |
| `EventEngineTheorems.TakeBook` | event/engine.py:405-410 | Taking from a queue moves the delivery at its head to the worker. |
| `EventEngineTheorems.FinishBook` | event/engine.py:411-416 | Finished handlers turn a running delivery into a finished one with its handoff due. |
| `EventEngineTheorems.HandoffBook` | event/engine.py:434-448 | The locked decrement: one lane less is due, and its caller is elected exactly when none is left. |
| `EventEngineTheorems.EnqueueColdBook` | event/engine.py:446-447 | The attempt is counted once and settles the election. |
| `EventEngineTheorems.PutStepKeeps` | event/engine.py:229-265 | Every step of put() keeps the books of every dispatch balanced. |
| `EventEngineTheorems.WorkerStepKeeps` | event/engine.py:403-448 | Every step of a worker keeps the books of every dispatch balanced. |
| `EventEngineTheorems.RunBooks` | event/engine.py:229-448 | In every interleaving the books of every dispatch balance. |
| `EventEngineTheorems.HandoffExactlyOnce` | event/engine.py:434-448 | In every reachable state a cold-registered dispatch has at most one cold attempt, none before every hot lane finished or refused it, and exactly one once no thread has anything left to do for it. |
| `EventEngineTheorems.AttemptFindsHotSettled` | event/engine.py:229-265 | The step that makes the attempt is the first, and finds every hot lane settled. |
| `EventEngineTheorems.LaneHandlesOnce` | event/engine.py:403-421 | No lane handles or refuses a dispatch twice, and a lane without handlers for it never sees it. |
| `EventEngineDrain.CountedKept` | event/engine.py:370-427 | Every step keeps the pending-work count equal to queued plus in-flight dispatches. |
| `EventEngineDrain.PendingWorkIsExact` | event/engine.py:370-427 | In every reachable state _pending_work is exactly the queued dispatches plus those in flight. |
| `EventEngineDrain.SealedKept` | event/engine.py:174-192 | After the seal no put is in progress; tokens are sent only in a sealed engine whose count is zero. |
| `EventEngineDrain.BarrierState` | event/engine.py:211-227 | Sealed with a zero count: queues hold no dispatch, nobody is in flight, no cold handoff is pending, and every dispatch ever begun is settled on every lane. |
| `EventEngineDrain.ZeroStays` | event/engine.py:174-227 | Sealed with a zero count stays so under every step but start(). |
| `EventEngineDrain.DrainBarrier` | event/engine.py:174-227 | Once admission is sealed and the count reads zero, every continuation without start() is quiescent. |
| `EventEngineTokens.TokensKept` | event/engine.py:194-207 | With two slots on every lane, or before a restart, every step keeps the token rule: tokens stand in front of all work, at most two to a lane, and two only while a stop is under way and the worker is still there to take them. |
| `EventEngineTokens.TokensFit` | event/engine.py:194-197 | With two slots on every lane, or before a restart, no stop token ever meets a full queue. |
| `EventEngineTokens.LeftoverToken` | event/engine.py:403-421 | At any capacities and on any lane, a worker whose get() timed out just before the stop exits without taking its token. |
| `EventEngineTokens.OverflowAtOne` | event/engine.py:194-197 | A lane with a single slot has a run in which the next stop's put_nowait raises. |
| `EventEngineTokens.TokenOverflowExactly` | event/engine.py:194-197 | Over all runs and restarts, a stop token can meet a full queue iff some lane is configured with a single slot. |
| `EventEngineTokens.DeadLaneAfterRestart` | event/engine.py:403-421 | At any capacities a restarted engine can be active and accepting with a lane whose worker took a leftover token, although no handler ever ran. |
| `EventEngineTokens.StartKeepsWorkerIff` | event/engine.py:149-172 | From any state in which start() runs, over any number of restarts: every continuation without an uncaught exception and before the next stop tokens keeps the lane's worker iff no stop token was left in the lane's queue. |
| `EventEngineTokens.FirstStartKeepsWorker` | event/engine.py:149-172 | The first start() of an engine always keeps its workers that way. |
| `EventEngineQueues.FirstInFirstOut` | event/engine.py:370-421 | In every interleaving, what was put into a lane's queue is what its worker (or the drain) took out, in the same order, followed by what is still queued. |
| `EventEngineQueues.QueuesFit` | event/engine.py:370-401 | In every reachable state no queue holds more than its capacity. |
| `EventEngineObject.Engine.Enqueue` | event/engine.py:370-401 | The item and the count are added together, or neither when the queue is full. |
| `EventEngineObject.Engine.HandoffToCold` | event/engine.py:434-448 | Handoff and, if elected, the cold enqueue; false only when that enqueue was refused. |
| `EventEngineObject.Engine.TryHotLanes` | event/engine.py:253-261 | The hot-lane loop performs the machine's steps and reports whether every lane had room. |
| `EventEngineObject.Engine.Put` | event/engine.py:229-265 | Without interference put() is a run of the machine, and returns true iff admission is open and every hot lane (or the cold one, if it is alone) had room. |
| `EventEngineObject.Engine.DrainOne` | event/engine.py:676-690 | One drained dispatch is a run of the machine. |
| `EventEngineObject.Engine.DrainLane` | event/engine.py:676-704 | The drain loop of a lane empties it, leaves other hot lanes alone, and fails iff a stop token is queued; either way it is a run of the machine. |
| `EventEngineObject.Engine.ProcessExistingEvents` | event/engine.py:676-704 | Draining without workers terminates quiescent, with empty queues, no pending handoff and a zero count, unless a leftover stop token is queued. |
| `EventEngineObject.DispatchRuns` | event/engine.py:676-704 | One iteration of the drain is a run of the machine and leaves it drainable. |
| `EventEngineObject.ColdHandoffIsIdle` | event/engine.py:699-702 | The drain's handoff on the cold lane never finds a pending entry. |
| `BookLevels.TopUnique` | data/orderbook.py:355-365 | A book has one sorted top-n list. |
| `BookLevels.TopHeadIsBest` | data/orderbook.py:333-365 | The head of the top list is the cached best price and volume. |
| `BookLevels.ApplyOne` | data/orderbook.py:292-326 | Applying entries one at a time builds the folded delta: zero deletes, anything else sets. |
| `BookLevels.UntouchedFrontier` | data/orderbook.py:367-380 | If no price of a delta passes the frontier test against the pre-delta list, that list is still the true top-n afterwards. |
| `BookLevels.BestAfterSet` | data/orderbook.py:304-308 | After setting a level the cached quote is right when it moves exactly for a price no worse. |
| `BookLevels.BestAfterDelete` | data/orderbook.py:297-302 | Deleting a level other than the best leaves the cached quote right. |
| `BookLevels.BestPrice` | data/orderbook.py:333-349 | The maximum (or minimum) of the price keys. |
| `BookLevels.TopLevels` | data/orderbook.py:355-365 | The n best levels, best first. |
| `OrderBook.ParseLevels` | data/orderbook.py:235-249 | The dictionary that the entries build, or an error. |
| `OrderBook.ParseFails` | data/orderbook.py:235-249 | An error iff some entry is malformed, has no positive price or a negative quantity. |
| `OrderBook.ParsedLevel` | data/orderbook.py:235-249 | Otherwise a price is a key iff some entry gives it a positive quantity (or any, where zeros are kept), with the quantity of the last such entry. |
| `OrderBook.ValidateBook` | data/orderbook.py:274-283 | Accepted iff both sides are non-empty and every bid is below every ask. |
| `OrderBook.HistoryGrows` | data/orderbook.py:127-144 | A delta that follows extends the chain: its pu is the last u, or it bridges the snapshot. |
| `OrderBook.FoldedLevel` | data/orderbook.py:292-326 | At each price the folded history holds the snapshot's quantity until a delta names the price, then the quantity of the last delta that does, zero meaning that the level is gone. |
| `OrderBook.IdsNeverDecrease` | data/orderbook.py:127-144 | Update ids never go back along the accepted deltas of a snapshot. |
| `OrderBook.LocalOrderBook.constructor` | data/orderbook.py:13-47 | An uninitialized book with the normalized depth and capacities. |
| `OrderBook.LocalOrderBook.InitSnapshot` | data/orderbook.py:49-68 | Loaded iff within capacity, well formed, with a non-negative id and uncrossed; then the book is that snapshot with exact caches; otherwise it stays hidden. |
| `OrderBook.LocalOrderBook.ApplyBids` | data/orderbook.py:156-157 | The bid loop folds the delta, keeps the best quote exact, and reports dirty iff some price touched the frontier. |
| `OrderBook.LocalOrderBook.ApplyAsks` | data/orderbook.py:159-160 | The ask loop, likewise. |
| `OrderBook.LocalOrderBook.ProcessDelta` | data/orderbook.py:112-183 | The exact outcome of every delta; while initialized the maps equal the snapshot with the accepted deltas folded in order, the caches are exact, the book is uncrossed and within capacity; any rejection hides it. |
| `OrderBook.LocalOrderBook.Install` | data/orderbook.py:154-183 | A following delta is accepted iff the folded book is within capacity and uncrossed. |
| `OrderBook.LocalOrderBook.RefreshBids` | data/orderbook.py:172-173 | Recomputing only when dirty still leaves the true top-n. |
| `OrderBook.LocalOrderBook.RefreshAsks` | data/orderbook.py:174-175 | Recomputing only when dirty still leaves the true top-n. |
| `OrderBook.LocalOrderBook.GenerateEventData` | data/orderbook.py:192-229 | Nothing unless initialized; otherwise the true top lists, headed by the cached quotes, of an uncrossed book. |
| `OrderBook.Published` | data/orderbook.py:206-207 | The published dictionary holds exactly the listed levels. |
| `EvidenceChain.ReadChain` | data/live_evidence.py:163-239 | The reading loop accepts exactly the contiguous, hash-linked journals and ends with the last hash. |
| `EvidenceChain.HashFixesPrefix` | data/oos_reconstruction.py:366-407 | Where two accepted journals show the same hash they do so at the same position and agree on every record up to it. |
| `EvidenceChain.ChainCommitment` | data/oos_reconstruction.py:366-407 | Two accepted journals have the same final hash iff they are the same journal, hash texts up to the reader's normal form. |
| `EvidenceChain.CanonicalCommitment` | data/live_evidence.py:198-239 | For journals stored in normal form, equal final hash iff equal record by record. |
| `EvidenceChain.HashesBySeq` | data/oos_reconstruction.py:776-779 | The lookup table maps each sequence number to its record's hash. |
| `EvidenceChain.ValidateAnchors` | data/oos_reconstruction.py:768-788 | Accepted iff there is an anchor and every one names the hash stored just before its next sequence number. |
| `EvidenceChain.AnchorFixesPrefix` | data/oos_reconstruction.py:768-788 | A matching anchor fixes every record that existed when it was taken. |
| `EvidenceChain.AnchorOfPrefixHolds` | data/oos_reconstruction.py:768-788 | An anchor taken from a prefix holds of whatever grew from it. |
| `EvidenceSessions.WalkSession` | data/live_evidence.py:267-356 | One proper session takes the validator from between sessions back to between sessions. |
| `EvidenceSessions.ProperIsWalked` | data/live_evidence.py:267-356 | Proper sessions are walked to their end, with exactly their deployments and digests collected. |
| `EvidenceSessions.WalkedIsProper` | data/live_evidence.py:267-356 | Whatever is walked is proper sessions, possibly followed by one still open. |
| `EvidenceSessions.AcceptsExactlySessions` | data/live_evidence.py:246-371 | The session rules accept exactly the concatenations of one or more proper sessions. |
| `EvidenceSessions.AcceptedEndsInStop` | data/live_evidence.py:748-756 | An accepted journal ends in a clean stop, so the extra test on reopening never fails. |
| `EvidenceSessions.RejectedForGood` | data/live_evidence.py:267-356 | A rejected prefix is never repaired by what follows. |
| `EvidenceSessions.DroppedStopsWalk` | data/live_evidence.py:347-355 | A stop that reports dropped records ends the walk, whatever stands before it. |
| `EvidenceSessions.DroppedRecordsReject` | data/live_evidence.py:347-355 | A stop that reports dropped records makes every extension unacceptable. |
| `EvidenceSessions.UnsealedRejects` | data/live_evidence.py:368-371 | A journal not ending in a clean stop is rejected. |
| `EvidenceSessions.StartsAndStops` | data/live_evidence.py:364-371 | Starts equal stops plus the open session, so the count checks at the end add nothing to the seal check. |
| `EvidenceSessions.TallyCountsKinds` | data/live_evidence.py:253-266 | The four counts are the numbers of records of the four kinds. |
| `EvidenceSessions.WalkCollects` | data/live_evidence.py:283-294 | The deployments and digests collected are exactly those that session starts name. |
| `EvidenceSessions.ValidateJournal` | data/live_evidence.py:246-388 | Accepted iff the chain and the session rules hold, with the counts, tail hash and identities of the records. |
| `EvidenceRecorder.BatchingInvisible` | data/live_evidence.py:842-889 | Two batches leave the file that one batch of both would leave. |
| `EvidenceRecorder.AppendedBodies` | data/live_evidence.py:842-889 | Appending adds exactly the payloads, behind an unchanged prefix. |
| `EvidenceRecorder.AppendedChain` | data/live_evidence.py:853-874 | Appending continues an accepted chain iff the stored tail hash is in the reader's normal form. |
| `EvidenceRecorder.RespelledTailBreaksReopening` | data/live_evidence.py:767-769 | A journal whose last hash is respelled is accepted for reopening, and the first record written then makes it invalid. |
| `EvidenceRecorder.SealedSessionAccepted` | data/live_evidence.py:748-795 | A clean session leaves the journal valid, reopenable by the same identity, and canonical. |
| `EvidenceRecorder.RoundTrip` | data/live_evidence.py:748-1025 | Any number of clean sessions, each reopening the last file, leave a journal the validator accepts, with matching length and counts. |
| `EvidenceRecorder.DroppedSessionRejected` | data/live_evidence.py:1011-1025 | A session sealed with dropped records is never accepted, whatever follows. |
| `EvidenceRecorder.UnsealedSessionRejected` | data/live_evidence.py:368-371 | A session without its stop is not accepted. |
| `EvidenceRecorder.EncodeBatch` | data/live_evidence.py:853-874 | The hashing loop produces exactly the appended records, numbers and hashes. |
| `EvidenceRecorder.LiveEvidenceRecorder.WriteRecords` | data/live_evidence.py:842-889 | The file and the recorder's own position advance together by the batch. |
| `EvidenceRecorder.LiveEvidenceRecorder.Enqueue` | data/live_evidence.py:1032-1043 | Accepted iff open, healthy and not full; overflow is counted once and fails the recorder. |
| `EvidenceRecorder.LiveEvidenceRecorder.OnEvent` | data/live_evidence.py:1045-1065 | A payload that does not validate, or is refused, fails the recorder; only an overflow is counted. |
| `EvidenceRecorder.LiveEvidenceRecorder.Collect` | data/live_evidence.py:964-977 | Collecting moves exactly as many queued items into the batch as fit under the limit, in order. |
| `EvidenceRecorder.LiveEvidenceRecorder.Flush` | data/live_evidence.py:984-993 | A flush writes exactly the collected batch. |
| `EvidenceRecorder.LiveEvidenceRecorder.WriterTurn` | data/live_evidence.py:943-997 | A writer turn collects up to the batch limit and writes the batch iff it is full or a sync is due; it never changes which items there are or their order. |
| `EvidenceRecorder.LiveEvidenceRecorder.FinishWriter` | data/live_evidence.py:999-1025 | At the stop everything taken in is in the file, in order, followed by the clean stop. |
| `EvidenceRecorder.Open` | data/live_evidence.py:748-795 | Opens iff the file is empty or validates, is sealed and has this identity alone. |
| `EvidenceRecorder.ReopensOwnFilesOnly` | data/live_evidence.py:748-795 | A file can be reopened iff it is empty, or valid with every session start naming this deployment and configuration. |
| `EvidenceRuns.OfferAll` | data/live_evidence.py:1032-1065 | What is taken in is the valid offers before the first invalid one, short of all of them iff one overflowed. |
| `EvidenceRuns.OfferLate` | data/live_evidence.py:1108-1118 | Offers after close() begins are refused without being counted. |
| `EvidenceRuns.StoppingLoses` | data/live_evidence.py:1054-1065 | Stopping at the first invalid offer loses something iff a valid offer follows it. |
| `EvidenceRuns.RecordSession` | data/live_evidence.py:748-1139 | For any interleaving and batching the file grows by start, the items taken in, stop; what is taken in, what is counted as dropped and what close() returns are exact, and nothing is dropped when every turn writes all that it is offered. |
| `EvidenceRuns.NothingLostIff` | data/live_evidence.py:1032-1065 | Every valid offer made before close() is in the file iff nothing overflowed and no valid offer came after an invalid one. |
| `EvidenceRuns.CleanMeansComplete` | data/live_evidence.py:1108-1139 | When close() returns true, everything ever offered is in the file. |
| `EvidenceRuns.SessionAcceptedIff` | data/live_evidence.py:842-1025 | The validator accepts the file a session leaves iff its stop reports no drops. |
| `EvidenceRuns.AcceptedYetIncompleteIff` | data/live_evidence.py:1032-1065 | The file is accepted although a valid offer is missing from it iff nothing overflowed and a valid offer came after an invalid one. |
| `EvidenceRuns.InvalidPayloadSilencesTheRest` | data/live_evidence.py:1054-1065 | After one invalid payload nothing more is recorded, no drop is counted, and the file is accepted. |
| `EvidenceRuns.OutcomeIsData` | data/live_evidence.py:1045-1065 | Whatever a session takes in from valid offers is data records only. |
| `EvidenceRuns.SessionsAcceptedIff` | data/live_evidence.py:748-1139 | After any number of sessions on one file it is accepted, and can be reopened, iff every session reported zero drops. |
| `EvidenceRuns.RecordSessions` | data/live_evidence.py:748-1139 | Sessions run one after the other leave exactly the file of their recorded outcomes, until one is refused because the file cannot be reopened. |
| `EquityCurve.DrawdownGrows` | data/oos_reconstruction.py:1063-1064 | Keeping only the peak and the deepest fall maintains the maximum over all pairs. |
| `EquityCurve.Valuation` | data/oos_reconstruction.py:1054-1062 | Equity is cash plus position times mark over the held symbols; error iff an open position has no mark. |
| `EquityCurve.EquityLoop` | data/oos_reconstruction.py:1039-1066 | Returns final cash and the maximum of e_i - e_j over i <= j with e_0 = 0, or an error iff some step left an open position without a mark. |
| `EquityCurve.EquityIsAttributed` | data/oos_reconstruction.py:1043-1062 | Equity changes by funding, minus commissions, plus each fill's edge against the mark, plus each mark move times the position. |
| `EquityCurve.FinalEquityAttributed` | data/oos_reconstruction.py:1039-1066 | The identity for the whole curve. |
| `EquityCurve.NothingValuedWithoutMark` | data/oos_reconstruction.py:1054-1062 | In an accepted run no fill and no open position is valued at a missing mark. |
| `EquityAccount.CashIsProceeds` | data/oos_reconstruction.py:1043-1051 | The cash of any run is quantity times price of its sales, less that of its purchases, less commissions, plus funding. |
| `EquityAccount.PositionIsTraded` | data/oos_reconstruction.py:1043-1048 | A position is the quantity bought less the quantity sold. |
| `EquityAccount.RoundTripProfit` | data/oos_reconstruction.py:96-101 | Buying and then selling the same quantity earns the price difference less both commissions. |
| `EquityAccount.MarkedGain` | data/oos_reconstruction.py:1054-1062 | From a flat position a purchase gains, and a sale loses, quantity times what the mark is above the price. |
| `EquityAccount.ProceedsPermutation` | data/oos_reconstruction.py:1008-1051 | The proceeds do not depend on the order of executions and payments. |
| `EquityWindow.PositionAt` | data/oos_reconstruction.py:854-863 | Stopping at the first late execution gives the net position of all earlier ones, on time-ordered input. |
| `EquityWindow.FinalPositions` | data/oos_reconstruction.py:1135-1140 | Start positions plus the window's net. |
| `EquityWindow.WindowContinues` | data/oos_reconstruction.py:1121-1140 | Start and window together are the net up to and including the end time. |
| `EquityWindow.PositionIsNet` | data/oos_reconstruction.py:1043-1048 | The ledger's position is the net of its fills. |
| `EquityWindow.NetIsTraded` | data/oos_reconstruction.py:854-863 | A net position is the quantity bought less the quantity sold. |
| `EquityWindow.SelectedExecutions` | data/oos_reconstruction.py:1121-1132 | Executions before the start, and inside the window with both ends included, are selected as often as they occur, and no others. |
| `EquityWindow.SelectedFunding` | data/oos_reconstruction.py:1173-1177 | So are the payments inside the window. |
| `EquityWindow.NetPermutation` | data/oos_reconstruction.py:1037-1048 | Net positions do not depend on the order of the executions. |
| `EquityWindow.FlatBoundaryBound` | data/oos_reconstruction.py:1121-1146 | Flat at both boundaries bounds the gap between final equity and cash by twice the tolerance times the final marks. |
| `EquityWindow.SortedIsOrder` | data/oos_reconstruction.py:1008-1037 | The processed order is by time, funding before fills before marks, and is a permutation of the events. |
| `EquityWindow.ProcessedInOrder` | data/oos_reconstruction.py:1008-1037 | Pair by pair: earlier times first, and at one time funding, then fills, then marks. |
| `EquityWindow.SortedIsStable` | data/oos_reconstruction.py:1037 | Events that tie keep the order in which they were collected. |
| `EquityWindow.OrderHasTheEvents` | data/oos_reconstruction.py:1008-1037 | The processed order holds every execution and payment, and every mark after the start and no later than the end, as often as it occurs, and nothing else. |
| `EquityWindow.OrderHasTheFills` | data/oos_reconstruction.py:1008-1037 | The fills and payments of the processed order are exactly the window's. |
| `EquityWindow.MarksAtStart` | data/oos_reconstruction.py:997-1006 | The marks in force are each symbol's last mark no later than the start. |
| `EquityWindow.LastMarkIsLast` | data/oos_reconstruction.py:997-1006 | A mark is in force iff it is the last of its symbol no later than that time. |
| `EquityWindow.DistinctBySize` | data/oos_reconstruction.py:1090-1097 | The set of symbols is as large as the list iff the list has no duplicate. |
| `EquityWindow.NeverMissingMark` | data/oos_reconstruction.py:1054-1060 | With a starting mark for every configured symbol the missing-mark error cannot happen. |
| `EquityWindow.Reconstruct` | data/oos_reconstruction.py:1076-1174 | Succeeds iff the conditions a caller can check beforehand hold: dates, symbols, executions, marks, transfers, flatness. The PnL is then what the window's sales bring less what its purchases cost, less commissions, plus its funding, with the maximum drawdown, the attribution identity and the cash bound. |
| `PoissonFit.ScoreDecreases` | alpha/rpi_intensity.py:676-698 | With two depths present the exposure-weighted depth strictly decreases in k. |
| `PoissonFit.Anchor` | alpha/rpi_intensity.py:676-698 | The anchor is the largest log weight, so no exponent is positive after it is subtracted. |
| `PoissonFit.StableDepthIsScore` | alpha/rpi_intensity.py:676-698 | Subtracting the largest log weight and the reference depth does not change the value. |
| `PoissonFit.ExposureWeightedDepth` | alpha/rpi_intensity.py:676-698 | The stable computation is the plain ratio of weighted sums. |
| `PoissonFit.Bisect` | alpha/rpi_intensity.py:619-632 | The bracket keeps score(lower) > mean >= score(upper), has width max_k / 2^n after n rounds, and stops within its tolerance or after 160 rounds, not a round earlier than the smallest tolerance asks. |
| `PoissonFit.FitProfilePoisson` | alpha/rpi_intensity.py:588-674 | Exactly when each refusal happens; otherwise the bracketed slope and a scale whose expected fills equal the observed fills. |
| `PoissonFit.ScaleMatchesFills` | alpha/rpi_intensity.py:633-674 | The log-space scale makes the expected number of fills equal the observed number. |
| `PoissonFit.BracketLocatesRoot` | alpha/rpi_intensity.py:619-632 | Outside the bracket the sign is fixed: a root is unique, inside it, and within half its width of the returned slope. |
| `PoissonLikelihood.LikelihoodGap` | alpha/rpi_intensity.py:588-674 | A lower bound on the likelihood lost by any other scale and slope. |
| `PoissonLikelihood.ScaleIsProfileOptimum` | alpha/rpi_intensity.py:633-674 | The computed scale is the best one for its slope. |
| `PoissonLikelihood.RootMaximisesLikelihood` | alpha/rpi_intensity.py:604-674 | A slope whose score is the event mean, with its scale, maximises the Poisson likelihood over all scales and slopes. |
| `PoissonLikelihood.FittedSlopeNearMaximum` | alpha/rpi_intensity.py:604-674 | A root with its own scale is a global maximum of the likelihood, and the returned slope is within half the final bracket of it. |
| `PoissonBound.ScoreFallsSlowly` | alpha/rpi_intensity.py:676-698 | Between two slopes the exposure-weighted depth falls by at most their distance times the square of the depth span. |
| `PoissonBound.NearStationary` | alpha/rpi_intensity.py:604-674 | A slope whose score is within g of the event mean, with its own scale, loses to any other pair at most g per fill and unit of slope distance. |
| `PoissonBound.FittedPairNearMaximum` | alpha/rpi_intensity.py:588-674 | With no root assumed: no pair's likelihood exceeds that of the returned pair by more than fills times slope distance times bracket width times the squared depth span. |
| `PoissonRoot.RootExists` | alpha/rpi_intensity.py:619-632 | Whenever the score is above the mean at one end of a bracket and not above it at the other, some slope in between scores exactly the mean. |
| `PoissonRoot.BracketContainsUniqueRoot` | alpha/rpi_intensity.py:604-632 | The final bracket of the bisection contains a root, and there is no other root anywhere. |
| `PoissonRoot.MaximumExists` | alpha/rpi_intensity.py:588-674 | With no root assumed: the likelihood has a global maximum, its slope lies in the bracket, and the returned slope is within half the bracket width of it. |
| `RpiExposure.Quantized` | alpha/rpi_intensity.py:287-297 | None for a missing or negative depth, otherwise the nearest multiple of the bin width. |
| `RpiExposure.GroupingConserves` | alpha/rpi_intensity.py:252-263 | Per-depth sums add up to the total. |
| `RpiExposure.PublishSums` | alpha/rpi_intensity.py:252-263 | Publishing only exposed bins keeps all exposure, and all fills iff none sits at a never-exposed depth. |
| `RpiExposure.PublicationConserves` | alpha/rpi_intensity.py:225-263 | Published exposure is the total time; published fills are all fills iff none is stranded. |
| `RpiExposure.SortedKeys` | alpha/rpi_intensity.py:252-263 | The bins in increasing depth order. |
| `RpiExposure.PublishedExactly` | alpha/rpi_intensity.py:252-263 | The published bins are exactly the exposed depths, each with its own slot. |
| `RpiExposure.PublishedCarriesLog` | alpha/rpi_intensity.py:252-263 | Each published bin carries what the log credits to its depth, and every exposed depth is published. |
| `RpiExposure.StripsExactly` | alpha/rpi_intensity.py:168-170 | Stripping takes the blanks at both ends away and nothing else. |
| `RpiExposure.RPIOrderExposure.constructor` | alpha/rpi_intensity.py:128-155 | Censored from the start iff a reason is given or the initial depth is unusable. |
| `RpiExposure.RPIOrderExposure.MarkCensored` | alpha/rpi_intensity.py:168-170 | The first reason stays; the order ends censored iff it was or the text is empty or holds a character that str.strip() keeps. |
| `RpiExposure.RPIOrderExposure.ObserveDepth` | alpha/rpi_intensity.py:172-199 | Accepted iff uncensored, not back in time and at a usable depth; then exactly the elapsed time is credited to the depth before. |
| `RpiExposure.RPIOrderExposure.RecordFill` | alpha/rpi_intensity.py:201-223 | A fill counts iff uncensored and its id is non-blank and new; it is credited to the current depth. |
| `RpiExposure.RPIOrderExposure.Finish` | alpha/rpi_intensity.py:225-263 | Uncensored iff nothing censored the order, the terminal time is valid and no fill is stranded; then every exposed depth is published with exactly the exposure, fills and samples logged at it, exposure adds up to terminal - ack > 0 and fills to the distinct trade ids; censored results publish no bins. |
| `RpiExposure.BlankReasonDoesNotCensor` | alpha/rpi_intensity.py:168-170 | A reason leaves an uncensored order uncensored iff it is non-empty and all blanks, Unicode blanks included. |
| `RpiExposure.FinishedSampleAccepted` | governance/calibration_artifact.py:2082-2142 | Every finished result meets the artifact's duration and fill-count checks. |
| `RateLimitBudget.ParseRetryAfter` | infrastructure/binance_rate_limit_budget.py:459-475 | Section 10.2.3 of RFC 9110: a delay in seconds, or a date as the time left until it; anything else, or a past date, is no delay. |
| `RateLimitBudget.RetryWait` | infrastructure/binance_rate_limit_budget.py:207-217 | A refused request is told to come back in the next minute, at its start unless that is closer than 0.05 s. |
| `RateLimitBudget.BlockFor` | infrastructure/binance_rate_limit_budget.py:271-280 | A usable delay is taken as it is; without one a 418 blocks for 120 s, a 429 until the next minute, anything else not at all. |
| `RateLimitTheorems.PurgedWeight` | infrastructure/binance_rate_limit_budget.py:160-163 | A purge empties exactly the minutes before the previous one. |
| `RateLimitTheorems.PurgeKeeps` | infrastructure/binance_rate_limit_budget.py:160-163 | A minute's table weights equal everything admitted in it unless a call two or more minutes later has come. |
| `RateLimitTheorems.LimitsByAsk` | infrastructure/binance_rate_limit_budget.py:180-230 | An admitted request keeps the three nested limits of its minute. |
| `RateLimitTheorems.NestedReserves` | infrastructure/binance_rate_limit_budget.py:115-230 | Of what the store admits: if no call returns to a minute after one two or more minutes later, every minute's background weight stays within the limit less both reserves, background plus trading within the limit less the emergency reserve, and the total within the limit. |
| `RateLimitTheorems.AdmittedExactly` | infrastructure/binance_rate_limit_budget.py:172-230 | On such a schedule a request is admitted iff no block is in force and neither the minute's admitted weight nor its reported usage would pass the limit of its priority. |
| `RateLimitTheorems.NeverFarBehindSuffices` | infrastructure/binance_rate_limit_budget.py:159-163 | That holds in particular when no call is more than one minute behind an earlier one. |
| `RateLimitTheorems.RevisitedMinuteOverspends` | infrastructure/binance_rate_limit_budget.py:159-163 | Any schedule that does return has a run admitting twice the full limit in one minute. |
| `RateLimitTheorems.ClockConditionExact` | infrastructure/binance_rate_limit_budget.py:115-230 | Of what the store admits, whatever happens during outages: the limits hold for every run on a schedule of minutes iff the schedule never returns to a minute that way. |
| `RateLimitTheorems.OutagesOnlyAddEmergencies` | infrastructure/binance_rate_limit_budget.py:236-250 | With outages, everything granted keeps the background and background-plus-trading limits, and exceeds the total only by emergencies let through without the store. |
| `RateLimitTheorems.OutageOverspends` | infrastructure/binance_rate_limit_budget.py:236-245 | That excess is real: a recorded full emergency and another during an outage grant twice the limit. |
| `RateLimitTheorems.EmergencyAdmitted` | infrastructure/binance_rate_limit_budget.py:193-230 | An unblocked emergency request is admitted while the minute's emergency total stays within the reserve and the reported usage leaves room. |
| `RateLimitTheorems.TradingAdmitted` | infrastructure/binance_rate_limit_budget.py:193-230 | While no emergency was admitted in the minute, an unblocked trading request is admitted while the minute's trading total stays within the trading reserve and the reported usage leaves room. |
| `RateLimitTheorems.UsageIsLargestReport` | infrastructure/binance_rate_limit_budget.py:290-304 | The usage kept for a minute is the largest one reported for it since the last report for another minute. |
| `RateLimitTheorems.LatestDeadline` | infrastructure/binance_rate_limit_budget.py:305-309 | The block deadline is the latest one that any response has set. |
| `RateLimitTheorems.BlockNeverShortens` | infrastructure/binance_rate_limit_budget.py:305-309 | The block deadline never moves earlier. |
| `RateLimitTheorems.BlockHolds` | infrastructure/binance_rate_limit_budget.py:172-178 | Until the deadline a response sets, every request that reaches the store is blocked, emergencies included. |
| `RateLimitTheorems.BlockedExactly` | infrastructure/binance_rate_limit_budget.py:172-178 | A request is blocked, emergencies included, iff some response set a deadline it has not reached, and it is told to wait for the latest one. |
| `ConfigComposition.CompatibleIffNoConflict` | infrastructure/config_scaling.py:281-317 | Two fragments merge iff no path is defined by both unless as an object. |
| `ConfigComposition.UnionHolds` | infrastructure/config_scaling.py:289-310 | The merged tree holds at a path exactly what one of the two holds there. |
| `ConfigComposition.SameEverywhere` | infrastructure/config_scaling.py:281-317 | A tree is determined by what it holds at every path. |
| `ConfigComposition.UnionCompatible` | infrastructure/config_scaling.py:281-317 | Testing a third fragment against the merge of two is testing it against each. |
| `ConfigComposition.ComposeIffPairwise` | infrastructure/config_scaling.py:365-399 | Composition succeeds iff the fragments are pairwise compatible. |
| `ConfigComposition.ComposeIffNoConflict` | infrastructure/config_scaling.py:365-399 | Composition succeeds iff no two fragments conflict on a path. |
| `ConfigComposition.ComposeHolds` | infrastructure/config_scaling.py:365-399 | The composed tree holds exactly what some fragment holds. |
| `ConfigComposition.LeafHasOneSource` | infrastructure/config_scaling.py:312-317 | Every value comes from exactly one fragment, and no other defines its path. |
| `ConfigComposition.OrderIndependent` | infrastructure/config_scaling.py:365-399 | Every order of the same fragments gives the same result, success or failure. |
| `ConfigComposition.RecordPaths` | infrastructure/config_scaling.py:263-278 | Exactly the paths at or below the given one are recorded, for this source. |
| `ConfigComposition.MergeField` | infrastructure/config_scaling.py:289-317 | One field: copied if new, merged if both are objects, refused otherwise. |
| `ConfigComposition.MergeFragment` | infrastructure/config_scaling.py:281-317 | Succeeds iff compatible, giving the union, with every newly defined path owned by this source. |
| `ConfigComposition.FirstDefiner` | infrastructure/config_scaling.py:301-314 | The first fragment that defines a path. |
| `ConfigComposition.DefinedSomewhere` | infrastructure/config_scaling.py:365-399 | A path is in the composed tree iff some fragment defines it. |
| `ConfigComposition.ComposeManifest` | infrastructure/config_scaling.py:365-399 | Succeeds iff no file is listed twice, every fragment reads and none conflict; every path is owned by the first file that defines it. |

## Left out

- Files, fsync, disk-reserve checks, JSON and timestamp parsing, Ed25519, configuration digests, SQLite mechanics.
- Floating-point rounding and range checks.
- RpiExposure.Quantized: does not model the `%.12g` rounding of the quantized depth (alpha/rpi_intensity.py:297); a depth is identified by its multiple of the bin width.
- PoissonFit.FitProfilePoisson: leaves out the rejections of non-finite floats.
- `OnlineRidgePredictor.update_and_predict` (alpha/signal.py:48-65), a wrapper that no horizon uses.
- `RPIIntensityAccumulator` and the statistics around the fit (alpha/rpi_intensity.py:300-587): sums of bins and reporting.
- DependencyGraph.StronglyConnectedComponents: components are sets, so the final sorting of names is not modelled; nor is the import scan that builds the adjacency map.
- CalibrationReplay.ReplayJournal: covers the calibration entries of the walk; the sample, order and execution records around them are not modelled, and the chain itself is `EvidenceChain`.
- EvidenceSessions.ValidateJournal: reads the chain before the sessions, where the program interleaves them; this only decides which error a bad journal raises.
- EvidenceRecorder.LiveEvidenceRecorder.Enqueue: the admission check and the queue put are one step.
- EvidenceRuns.RecordSession: leaves out write failures, which leave the session unsealed and the file rejected (`EvidenceRecorder.UnsealedSessionRejected`), the timeouts of close() and the release of the fence.
- Event-engine metrics, alerts and queue timestamps; the value that put() returns when other threads interleave.
- EventEngineObject.Engine.Put: is stated for a caller that no other thread interrupts; interleavings are covered by the machine in `EventEngine`.
- EquityWindow.Reconstruct: leaves out the maker, RPI, notional, fee and asset checks, the normalization of symbol text, the markout statistics and the rejection when the reconstructed PnL and the exchange's differ by more than the tolerance (data/oos_reconstruction.py:1262-1270); its marks are those of the configured symbols, already sorted by time and symbol (data/oos_reconstruction.py:1240-1258).
- EquityCurve.EquityLoop: lists held symbols in a sequence beside the position map, where the program has one insertion-ordered dictionary.
- ConfigComposition.MergeFragment: returns a new tree where the program updates nested dictionaries in place; a merge that raises leaves a half-merged dictionary behind, which composition discards.
- ConfigComposition.ComposeManifest: an include that does not resolve, read or validate is an input without content; schema validation of the composed result is not modelled.
- The OMS, the risk sidecar, the paper ledger, gateways, strategies, dashboards and launch scripts.
