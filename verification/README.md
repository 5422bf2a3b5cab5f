# Trading platform: verified models

This project models the stateful core of a crypto and equities trading platform in Dafny and
proves what its ledgers, state machines and time alignment keep over whole runs.

| files | what they model |
|---|---|
| `ConsumerGroup`, `ClaimOrder`, `CrashTrace`, `Recovery`, `EventBus` | the Redis consumer-group protocol (at-least-once delivery, claim, dead-letter), when its attempt bound holds, that nothing pending is lost, and the bus whose loops follow it |
| `Orders`, `Fills`, `Router`, `Execution`, `ExecutionRuns`, `EmergencyFlatten`, `Intents`, `FillEvents`, `ExecutionService` | order states, the two fill ledgers, broker choice, the execution engine with halt flag, in-flight map and dedupe set, what becomes of an intent and what is announced of a fill |
| `ExactlyOnce`, `Resubmission` | bus and engine composed, with handler crashes and restarts, and what a restart submits again |
| `Simulator`, `Backtest`, `BacktestRuns`, `Decisions`, `BacktestService` | fills, the cash and position ledger, bar alignment, when a decision is executed, and the event loop |
| `CrossSection`, `LongShort`, `LongShortRuns`, `Turnover`, `BookBuilder`, `Smoothing` | leg selection with hysteresis, weights, returns and turnover, and the causal smoother |
| `LotMatching`, `LotHistory`, `Retention`, `Evaluator` | FIFO profit attribution, and what the learning loop keeps in memory |
| `AuxFeatures`, `RateLimiter`, `Performance` | fast forms against simple ones: as-of lookup, pruned window, running maximum |
| `PaperBroker`, `BrokerState`, `BrokerStateService`, `Restart`, `TrailingStop` | the simulated account, its checkpoint and restore, what a restart rebuilds, and ratcheting stops |
| `Wrappers`, `Arithmetic`, `Sequences` | options, arithmetic and facts about sequences the models share |

Where the original changes fields step by step there is a class whose methods carry that
code's loops and branches; each is proved equal to a specification function, and the properties
are lemmas about that function over every run.

Conventions. Prices, quantities and money are exact reals; rounding is modelled where it decides
something (the simulator's four places, leg sizes). Times, random draws, broker replies, the
handlers' outcomes and strategies are parameters, so the theorems hold for all of them; a strategy
may remember everything it was shown. Order ids are a counter. A missing or infinite cell is
`None`. Redis is a map of pending entries with delivery counts, database tables are sequences of
rows. The snapshot writer reads money and positions in two calls
(`services/persistence/snapshot_writer.py:100-109`); only the simulated broker is ever restored,
and it answers both without suspending, so for it they are one instant and a checkpoint is one
account state.

## Where code and documentation part

The model follows the code. What the proofs show about the difference:

- `core/events/base.py:34-36` promises at most MAX_DELIVERIES attempts. The XPENDING reply is cut
  to the number of claimed messages, so a fresher pending entry in the range can push a claimed id
  out of it, whose count then defaults to 1. A delivery past the limit reaches the handler iff it
  was due and left out of a reply (`PastLimitExactlyWhenMissed`). So the bound holds when the
  replies cover the claims (`AttemptsAreBounded`, with coverage characterised by
  `ReplyCoversExactlyWhen`), and without looking at replies when claims are oldest-first, batches
  finish before they go stale, and no consumer goes down holding a message due for dead-lettering
  (`AttemptsAreBoundedAnyway`).
  `CrashesBreakTheBound` shows that the last condition cannot be dropped.
- Exactly-once submission holds per lifetime of the engine; a restart forgets the dedupe set. A
  message that alone carries its correlation id can be submitted again after a restart iff it was
  not acked at the restart (`SubmittedAgainExactlyWhenUnacked`).
- A broker rejection deletes the in-flight entry twice (`services/execution/service.py:654`), so the
  poll pass ends there (`PassStopsAtFirstRejection`). A filled report without quantity or price
  drops the order silently (`LeavesSilentlyExactlyWhen`). A poll from a snapshot the order has left
  since can announce a second ending (`StalePollEndsAgainExactlyWhen`).
- `services/execution/service.py:511-512` promises to flatten every broker position. Each closing
  order is routed by symbol, whoever holds the position. In the wiring of
  `services/worker.py:37-61` the simulated broker comes first and serves every symbol, also in live
  mode, so no position held at a real broker is closed there (`FlattenOutcome`,
  `FlattenTradesOnPaper`).
- `backtesting/simulator.py:87` says market orders fill at the close; the code fills at the open
  (`MarketFillsAtTheOpen`).
- Executing "on the next bar" is, under forward fill, executing on the next step: a symbol without
  a new bar trades against its stale bar (`ExecutesOnLaterBarExactlyWhen`, `StaleBarIsTraded`).
- `services/backtesting/cross_section.py:246-249` calls the spread neutral. It is whenever two legs
  fit, which holds for every admissible cross-section iff the quantile is below one half
  (`LegsAlwaysFitExactlyWhen`, `HalfQuantileIsNotNeutral`), and with the exit buffer under the
  condition of `BufferedBookIsNeutralExactlyWhen`, which fails at quantile one
  (`WholeQuantileIsNotNeutral`).
- `backtesting/simulator.py:88-89` fills a limit order when the bar's range crosses the limit. The
  code also fills one that the whole range lies beyond, at a price the bar never traded, and a
  stop the bar has gapped through likewise (`FillHonoursOrder`, `StopLiesInsideExactlyWhen`,
  `GapsFillOutsideTheBar`).
- `services/continuous_learning/evaluator.py:84-85` says outcomes stay exactly in sync with
  predictions. They stay within them iff outcomes are recorded for retained predictions only
  (`OutcomeKeepsSyncExactlyWhen`, `StrayOutcomeStays`), and duplicate ids can lose one
  (`RetainedOutcomeIsLostExactlyWhen`).
- The rate limiter keys requests by their timestamp text, so requests of one instant count once
  (`SameInstantBurstIsAdmitted`).
- `services/persistence/broker_state.py:13-16` bounds the loss of an unclean shutdown to nothing.
  Rows are stamped when the fill event is persisted (`services/persistence/order_sync.py:84-98`),
  after the fill is in the book, so a fill can be inside a checkpoint and stamped after it; the
  restart then applies it again (`LateStampIsAppliedTwice`). A fill never persisted is lost. What
  the restart gets wrong is exactly the difference of the two
  (`RestartMisstatesByMissedAndDoubled`), plus the commissions, which replay ignores (the
  simulated broker charges none today).

## Model

| member | source | states |
|---|---|---|
| ConsumerGroup.NextKeepsInv | core/events/base.py:159-300 | every atomic step of publish, `>` read, autoclaim, XPENDING, dispatch, crash, ack and dead-letter keeps the protocol invariant |
| ConsumerGroup.RunKeepsInv | core/events/base.py:159-300 | so does every interleaving of any number of consumers |
| ConsumerGroup.EveryMessageInOnePlace | core/events/base.py:159-300 | in every reachable state each published id is exactly one of undelivered, pending, acked |
| ConsumerGroup.AckedOnlyWithReason | core/events/base.py:191-294 | an ack means the handler returned, or the message was dead-lettered and Redis has counted more than MAX_DELIVERIES deliveries of it |
| ConsumerGroup.PastLimitExactlyWhenMissed | core/events/base.py:227-294 | over all interleavings, a handler is called on a delivery past the limit iff that delivery was claimed, due, and left out of the XPENDING reply |
| ConsumerGroup.UnmissedIsBounded | core/events/base.py:227-294 | so a message none of whose due deliveries was left out is tried at most MAX_DELIVERIES times |
| ConsumerGroup.AttemptsAreBounded | core/events/base.py:227-294 | in particular when every XPENDING reply covers the claimed ids, over all interleavings |
| ConsumerGroup.ListedExactlyWhen | core/events/base.py:262-275 | one claimed id is in the reply iff it is still pending at the claimer and fewer of the claimer's own pending ids than were claimed lie between the first claimed id and it; a due one left out is missed |
| ConsumerGroup.ReplyCoversExactlyWhen | core/events/base.py:262-275 | the reply of length `len(messages)` covers the claimed ids iff the consumer owns no other pending id in their range and still owns them all |
| ConsumerGroup.DeadLetteredExactlyWhenSeen | core/events/base.py:274-290 | at every position of a claimed batch, a message is bound for dead-lettering iff the reply lists it with a count above the limit; otherwise for the handler |
| ClaimOrder.ClaimKeepsRanks | core/events/base.py:241-248 | oldest-first claims keep every lower pending id delivered at least as often as a higher one, and no later if equally often |
| ClaimOrder.ReplyListsTheDue | core/events/base.py:262-273 | under that order the reply lists every claimed message over the limit, whether or not it covers the rest |
| ClaimOrder.NextKeepsSafe | core/events/base.py:227-294 | every step with oldest-first claims, prompt consumers and no crash over a due message keeps delivery numbers at the handler within the limit |
| ClaimOrder.AttemptsAreBoundedAnyway | core/events/base.py:227-294 | so over every such run the handler is tried at most MAX_DELIVERIES times per message, with no assumption on the replies |
| CrashTrace.CrashesBreakTheBound | core/events/base.py:262-290 | without the last condition the bound fails: a run from the initial state, every claim oldest-first, whose two crashes lead to a sixth attempt |
| Recovery.BatchIsOldest | core/events/base.py:241-248 | what XAUTOCLAIM answers for a count, its bounded scan included, is a claimable, oldest-first batch of stale entries |
| Recovery.BatchCountsAreExact | core/events/base.py:262-275 | once every pending entry is stale the reply covers the batch, and a message is dead-lettered iff the claim took its count past the limit |
| Recovery.PassLowersWork | core/events/base.py:227-294 | a pass over a batch that has not got to a message yet leaves that message as it is and strictly fewer claims to take below it, however the dispatches end |
| Recovery.PassProgresses | core/events/base.py:227-294 | the same for the pass and the wait as a whole: afterwards the consumer is idle and everything is stale again |
| Recovery.BatchGetsThere | core/events/base.py:274-294 | every decodable delivery of a claimed batch is handled or dead-lettered once the ones before it have been dealt with, however those end |
| Recovery.PendingStaysRecoverable | core/events/base.py:227-294 | no decodable pending message is ever out of reach: in every reachable state, and for any given outcomes of the other dispatches, some run of an idle consumer with the batches Redis answers gets to it, whatever their size and however many entries are older |
| ConsumerGroup.SettledStays | core/events/base.py:296-300 | an acked message nobody holds stays so, and gains no attempt, under every step |
| ConsumerGroup.AckedIsNeverHandledAgain | core/events/base.py:296-300 | the same over every continuation of the run |
| ConsumerGroup.OwnedInRange | core/events/base.py:263-270 | the XPENDING range lists exactly the consumer's own pending ids in the interval, in order |
| EventBus.ReachableIsSound | core/events/base.py:65-300 | everything the imperative bus can reach satisfies the protocol invariant |
| EventBus.EventBus.Publish | core/events/base.py:101-116 | appends one message; the fields mirror the protocol step |
| EventBus.EventBus.ReadGroup | core/events/base.py:178-190 | hands over the next undelivered ids, never more than the batch |
| EventBus.EventBus.AutoClaimStale | core/events/base.py:241-254 | claims exactly the batch of the bounded scan, oldest stale entries first |
| EventBus.EventBus.PendingRange | core/events/base.py:262-270 | the upward scan that stops at `count` entries finds the first `count` of the consumer's own ids in the range |
| EventBus.EventBus.CollectCounts | core/events/base.py:271-273 | the count dictionary built from the reply |
| EventBus.EventBus.Dispatch | core/events/base.py:207-225 | acks only after the handler returned; anything else leaves the message pending |
| EventBus.EventBus.WorkThrough | core/events/base.py:274-294 | acks exactly the poison messages and those whose handler succeeded |
| EventBus.EventBus.ClaimStalePending | core/events/base.py:227-294 | one claim pass claims that batch; the counts are what XPENDING answers after that claim; acks are exactly the poison by those counts and the handled |
| EventBus.EventBus.DispatchNew | core/events/base.py:191-199 | acks exactly the fresh messages whose handler succeeded |
| EventBus.EventBus.ConsumeOnce | core/events/base.py:159-205 | one loop turn continues the run so far: claims that batch iff due, acks exactly what the claim pass settles and the fresh messages whose handler succeeded; every other fresh message is pending |
| Orders.AverageIsBetweenPrices | services/execution/order_manager.py:189-203 | the average price lies between the cheapest and the dearest fill and prices the filled quantity at what the fills cost |
| Orders.CreateKeepsBook | services/execution/order_manager.py:132-168 | a new order has a fresh id and no fills; pruning before it drops exactly the terminal orders past retention and changes no other |
| Orders.StatusMovesExactlyWhen | services/execution/order_manager.py:66-116 | a change of status goes through iff the order is known and the move is one of the eleven the manager lists; it is stamped and nothing else changes |
| Orders.TerminalIsKeptFor | services/execution/order_manager.py:242-259 | an order that reaches a terminal status survives a later creation, with its fills, iff that is at most the retention period after |
| Orders.SubmittedTakesFills | services/execution/order_manager.py:175-215 | a fill on a SUBMITTED order always succeeds and affects that order only |
| Orders.StatusMovesAlongTransitions | services/execution/order_manager.py:73-116 | any operation leaves a status or makes one of those moves; terminal statuses never change |
| Orders.TerminalIsForever | services/execution/order_manager.py:73-116 | over any run, a terminal status is kept while retained and a pruned id never returns |
| Orders.FillIsStoredAndRaisesExactlyWhen | services/execution/order_manager.py:175-215 | record_fill stores every fill; it raises iff the fill completes an order that is neither SUBMITTED nor partly filled, and then leaves the status |
| Orders.OrderManager.PruneTerminal | services/execution/order_manager.py:242-259 | drops exactly the terminal orders past retention |
| Orders.OrderManager.CreateOrder | services/execution/order_manager.py:132-168 | equals the specification step whose invariants are proved |
| Orders.OrderManager.UpdateStatus | services/execution/order_manager.py:170-173 | the same for a status change, raising exactly on an illegal transition |
| Orders.OrderManager.RecordFill | services/execution/order_manager.py:175-215 | the same for a fill |
| Fills.PositionIsNetOfLog | services/execution/fill_tracker.py:47-87 | tracked quantity is what was bought less what was sold over all fills; cost basis is the cost since the symbol was last flat; the average spreads it; commissions add up |
| Fills.LastFlat | services/execution/fill_tracker.py:75-86 | the longest prefix of the log after which the symbol was flat |
| Fills.FillTracker.RecordFill | services/execution/fill_tracker.py:47-87 | equals the specification step |
| Fills.LastReportCounts | services/execution/fill_tracker.py:89-137 | of several entries for one symbol in a list of positions the last one counts |
| Fills.FillTracker.Reconcile | services/execution/fill_tracker.py:89-137 | reports exactly the symbols on which broker and books (the database's when given, else the tracked ones) differ, once each; empty iff they agree |
| Router.SelectionIsSafe | services/execution/smart_router.py:140-190 | whatever the wiring order: refuses only without an eligible broker, never picks a live broker outside live mode, serves the asset class if anyone can |
| Router.ServesWhatItSuits | services/execution/smart_router.py:154-169 | a broker serves a symbol iff it takes everything, or takes crypto and the symbol has a slash, or takes stocks and it has none |
| Router.SelectsExactlyWhen | services/execution/smart_router.py:140-190 | a broker is chosen iff it is the first safe one suiting the symbol, or, if none suits it, the first safe one |
| Router.NameFindsItsBroker | services/execution/smart_router.py:140-190 | the chosen name denotes the chosen broker |
| ExecutionRuns.RunKeepsInv | services/execution/service.py:312-699 | the engine invariant holds over every run of submits, cancels, polls, halts and flattens |
| ExecutionRuns.InFlightIsSubmitted | services/execution/service.py:335-454 | whatever is in flight is a retained SUBMITTED order at a known broker |
| ExecutionRuns.RunKeepsEvents | services/execution/service.py:335-699 | with fresh ids each order emits Created once and at most one of Filled, Rejected, Cancelled, none while in flight |
| ExecutionRuns.ReuseAnnouncesTwice | services/execution/service.py:335-372 | submitting a known id again emits Created twice, in every state |
| ExecutionRuns.CallsAreSafe | services/execution/service.py:374-454 | only bypass orders reach a broker while halted; no live-capable broker outside live mode |
| ExecutionRuns.LedgersAgree | services/execution/service.py:598-669 | fill tracker quantity equals the signed sum of every fill recorded, and each retained order holds exactly its fills |
| ExecutionRuns.HaltedSendsNothing | services/execution/service.py:500-509 | from a halted state no broker call and no new order until resume or flatten |
| ExecutionRuns.CancelsExactlyWhenConfirmed | services/execution/service.py:456-484 | an order in flight leaves it as CANCELLED, announced once, iff its broker confirms; otherwise nothing changes |
| ExecutionRuns.LeavesSilentlyExactlyWhen | services/execution/service.py:607-669 | a poll drops an order without an event iff it is reported filled with no quantity or price |
| ExecutionRuns.StalePollEndsAgainExactlyWhen | services/execution/service.py:598-669 | a poll of an order that left flight since the snapshot announces one more ending iff the report is a rejection, a cancellation, or a positive fill that stays short of the quantity or meets a SUBMITTED or partly filled order |
| ExecutionRuns.PollTouchesOneFlight | services/execution/service.py:598-669 | a poll touches one in-flight entry and aborts iff the broker says rejected |
| ExecutionRuns.Reach | services/execution/service.py:598-669 | how far a pass gets: to the first rejected order, that one included |
| ExecutionRuns.PassStopsAtFirstRejection | services/execution/service.py:598-669 | a pass is the atomic polls up to the first rejected order, where the second `del` raises |
| Intents.ApprovedIntentIsSentExactlyWhen | services/execution/service.py:125-197 | a risk-approved message that goes through adds at most one call, with its symbol, side, quantity, type, limit price and correlation id; it is made iff not halted, a safe broker is wired, and it is no buy over the buying power at its limit or else its reference price; otherwise one rejection with its reason, or nothing while halted |
| Intents.ManualIntentIsSentExactlyWhen | services/execution/service.py:266-306 | the same for manual intents, never dropped as duplicates |
| Intents.ResubmissionIsSentExactlyWhen | services/execution/service.py:312-454 | an order submitted again under its own id is announced, and sent on the same conditions with its own terms, or rejected |
| Intents.MarkedExactlyWhen | services/execution/service.py:142-169 | over every run the dedupe set holds the correlation ids of the earlier messages that made an order |
| Intents.EveryIntentIsDealtWith | services/execution/service.py:125-454 | over every run every message is dealt with so: risk-approved iff it makes an order and no earlier one that did carries its id |
| Intents.EveryCallWasAskedFor | services/execution/service.py:312-556 | over every run every call a broker got is the one some message, resubmission or flatten asked for, with its terms |
| Intents.HaltedExactlyWhen | services/execution/service.py:218-241 | over every run the engine is halted iff some halt or flatten has not been resumed since |
| FillEvents.PollAnnounces | services/execution/service.py:598-669 | what each report on an order in flight announces and records: a fill with the order's symbol, side and client id and the report's price and quantity |
| FillEvents.FillEventsTellTheLedger | services/execution/service.py:598-669 | over every run the fill events are exactly the recorded fills, in order, and each belongs to a call with the same id, symbol, side and client id |
| EmergencyFlatten.CloseAllAnswers | services/execution/service.py:528-556 | if any broker is eligible there is one call per open position, in order, of exactly the opposite quantity, at the broker the router chooses for the symbol; otherwise none |
| EmergencyFlatten.FlattenOutcome | services/execution/service.py:510-556 | after the kill switch: halted, listed orders in flight only if the cancel was not confirmed, those calls made, and each at the broker that reported the position iff the router chooses that broker |
| EmergencyFlatten.FlattenReportsThePositions | services/execution/service.py:522-556 | the report has one line for each open position, in order, with the side that reduces it and all of it |
| EmergencyFlatten.CancellationsAreAnnounced | services/execution/service.py:510-527 | the count of cancellations is the number of orders that left flight, one event each |
| EmergencyFlatten.FlattenTradesOnPaper | services/worker.py:33-65 | with the simulated broker wired first, as it always is, every closing order goes to it, in live mode too, wherever the position is held |
| ExecutionService.ExecutionEngine.HandleRiskApproved | services/execution/service.py:125-197 | the class does what the theorem on approved intents describes; it raises iff the quantity is a NaN that gets as far as the comparison |
| ExecutionService.ExecutionEngine.HandleOrderIntent | services/execution/service.py:266-306 | the same for the theorem on manual intents |
| ExecutionService.ExecutionEngine.SubmitOrder | services/execution/service.py:312-454 | the same for submission |
| ExecutionService.ExecutionEngine.CancelOrder | services/execution/service.py:456-484 | true iff in flight at a known broker that confirmed |
| ExecutionService.ExecutionEngine.PollOrder | services/execution/service.py:598-669 | the same for one poll, including the aborting second deletion |
| ExecutionService.ExecutionEngine.MonitorPass | services/execution/service.py:592-679 | the same for a whole pass over a snapshot |
| ExecutionService.ExecutionEngine.EmergencyFlatten | services/execution/service.py:510-556 | the same for the kill switch; returned are the number of confirmed cancellations among the listed orders and the open positions with their offsetting sides and sizes |
| ExecutionService.ExecutionEngine.HandleControl | services/execution/service.py:218-241 | halt, resume and flatten act; foreign and unknown actions change nothing |
| ExecutionService.ExecutionEngine.PublishRejected | services/execution/service.py:681-699 | the same for a rejection |
| ExactlyOnce.HandlerAdmitsOnce | services/execution/service.py:142-169 | checking and adding a correlation id is one step, so no id is admitted twice in a lifetime |
| ExactlyOnce.MoveKeepsOk | services/execution/service.py:125-197 | bus and engine together keep their joint invariant under every step, crash and restart |
| ExactlyOnce.TraceKeepsOk | services/execution/service.py:125-197 | the same over every trace |
| ExactlyOnce.AtMostOncePerLifetime | services/execution/service.py:142-169 | submit_order is called at most once per correlation id in each lifetime of the engine, under every interleaving |
| ExactlyOnce.ExactlyOnceWhenAcked | services/execution/service.py:125-197 | a well-formed message acked on the normal path was submitted exactly once in the lifetime that acked it |
| ExactlyOnce.AckedMeansSubmittedOnce | services/execution/service.py:125-197 | over every trace each well-formed message that Redis has acked and that was not dead-lettered was submitted exactly once in some lifetime |
| ExactlyOnce.AtMostOneOrderAtTheBroker | services/execution/service.py:142-197 | at most one order with its correlation id reaches a broker per lifetime, unless a manual order borrows the id |
| Resubmission.SettledKept | services/execution/service.py:125-197 | an acked message nobody holds stays so under every step of bus and engine, restarts included |
| Resubmission.AckedIsNeverSubmittedAgain | services/execution/service.py:142-169 | a message acked at a restart is submitted in no later lifetime, whatever happens, unless its correlation id is published anew |
| Resubmission.StolenGoesToHandler | core/events/base.py:262-290 | a consumer held up until another one has claimed its batch hands all of that batch to the handler, whatever the delivery counts |
| Resubmission.UnackedIsSubmittedAgain | services/execution/service.py:142-169 | a well-formed message not acked at a restart can be submitted again, undelivered or pending, wherever it stands and after however many passes: by two consumers always, by one if it was delivered fewer than MAX_DELIVERIES times |
| Resubmission.SubmittedAgainExactlyWhenUnacked | services/execution/service.py:142-169 | the dedupe set dies with the process: some continuation with the batches Redis answers submits the message again in the lifetime the restart begins iff it was not acked at the restart |
| Arithmetic.RoundIsNearestEven | backtesting/simulator.py:113-145 | the rounding behind four-place prices and leg sizes is to nearest, ties to even |
| Simulator.QuantizeIsMonotone | backtesting/simulator.py:113-145 | and monotone in the price |
| Simulator.SlippageIsAdverse | backtesting/simulator.py:113-145 | after rounding, a sell fills no higher and a buy no lower than the rounded reference |
| Simulator.MarketFillsAtTheOpen | backtesting/simulator.py:113-145 | a market order always fills, within half a unit of the fourth place of the open moved by the slippage, whatever the rest of the bar |
| Simulator.RestingOrderFillsExactlyWhenCrossed | backtesting/simulator.py:147-217 | limit and stop orders fill iff the bar crosses their price, limits at the limit, stops at the stop moved by the slippage |
| Simulator.FillHonoursOrder | backtesting/simulator.py:113-217 | a fill is for the whole order at the commission rate, to half a cent; a limit order fills at its limit, inside the bar iff a buy limit is not above the high, a sell limit not below the low |
| Simulator.StopLiesInsideExactlyWhen | backtesting/simulator.py:181-217 | a triggered stop fills at the slipped stop price; the stop lies inside the bar iff a buy stop is not below the low, a sell stop not above the high |
| Simulator.GapsFillOutsideTheBar | backtesting/simulator.py:147-217 | a buy limit and a sell stop above the high of a bar both fill at that price |
| Backtest.FillKeepsBalance | backtesting/engine.py:386-454 | no fill of any size, price or commission creates or destroys money |
| Decisions.FillExecutes | backtesting/engine.py:386-454 | a fill closes the first opposing position, as far as it goes, at both prices, or opens a position, or is refused iff a buy costs more than the cash |
| Decisions.SignalDoes | backtesting/engine.py:359-384 | a signal without a bar or a fill does nothing; any other does that with its own symbol, side and quantity |
| Backtest.EquityDecomposes | backtesting/engine.py:341-357 | equity is capital plus realised P&L minus opening commissions plus signed unrealised gain |
| Backtest.FindOpposing | backtesting/engine.py:456-467 | the first opposing position of the symbol |
| Backtest.ClosedAgainstIsOldest | backtesting/engine.py:456-467 | in an orderly book that is the oldest position of its symbol |
| Backtest.FillKeepsOrderExactlyWhen | backtesting/engine.py:386-454 | a fill keeps the book one-sided and positive iff its quantity is positive, or it closes, or it is unaffordable |
| Backtest.CloseKeepsOrder | backtesting/engine.py:396-431 | closing keeps oldest-first order and never flips a side |
| Backtest.AllKeepOrder | backtesting/engine.py:359-384 | a step's signals of positive quantity keep the book orderly and every position priced |
| Backtest.AllKeepBalance | backtesting/engine.py:359-384 | and the books balanced, whatever the quantities |
| BacktestRuns.RunIsBalanced | backtesting/engine.py:221-242 | the accounting identity holds after every step of every run |
| BacktestRuns.RunIsOrderly | backtesting/engine.py:221-242 | one side per symbol, positive quantities, priced positions, oldest-first closing, in every reachable state |
| BacktestRuns.RecordedEquityDecomposes | backtesting/engine.py:221-242 | each recorded equity decomposes as above |
| Decisions.DecisionsWaitOneStep | backtesting/engine.py:221-242 | strategies that agree on histories of fewer than n steps leave the same ledger after n steps; the last decision is still queued |
| Decisions.StepExecutesWhatWasDecided | backtesting/engine.py:221-242 | every step executes what was decided at the step before, each signal once and in turn, on its own bars, and nothing else, then shows the strategy the outcome |
| Decisions.EverythingWasDecidedBefore | backtesting/engine.py:221-242 | over every run each position and both ends of each trade go back to a signal decided on an earlier step and filled at that price by the bar of the step recorded |
| Decisions.MarketBuyIsFilledNextStep | backtesting/engine.py:221-242 | a market buy decided alone is bought at the next step's open if the cash covers it, and refused otherwise |
| Decisions.NothingDecidedNothingDone | backtesting/engine.py:221-242 | a step before which nothing was decided trades nothing |
| BacktestRuns.NoLookAhead | backtesting/engine.py:307-323 | two timestamped bar sets agreeing up to a time give identical cash, positions, trades, equity, queued signals and observations up to it, for any deterministic strategy, whatever it remembers of the run |
| BacktestRuns.NoPositionalLookAhead | backtesting/engine.py:325-339 | the same for positional alignment |
| BacktestRuns.ExecutesOnLaterBarExactlyWhen | backtesting/engine.py:307-323 | the bar a symbol shows at a step is later than the one it showed the step before iff a new one lies between them; otherwise it is the same, stale one |
| BacktestRuns.StaleBarIsTraded | backtesting/engine.py:307-323 | two symbols on which the second step shows, for one of them, the bar of the first |
| BacktestRuns.Latest | backtesting/engine.py:314-322 | the forward-filled bar is the latest at or before the step |
| BacktestRuns.LatestAdvances | backtesting/engine.py:314-322 | carrying the last bar forward computes it |
| BacktestRuns.TimestampBarsStay | backtesting/engine.py:314-322 | timestamp alignment never loses a bar |
| BacktestRuns.PositionalBarsStay | backtesting/engine.py:325-339 | nor does positional alignment |
| BacktestRuns.StepsKeepBars | backtesting/engine.py:290-339 | so the steps of any backtest meet what the theorem on orderly runs asks of them |
| BacktestService.BacktestEngine.FindOpposingPosition | backtesting/engine.py:456-467 | the loop finds it |
| BacktestService.BacktestEngine.ApplyFill | backtesting/engine.py:386-454 | the statement-by-statement update equals the specification |
| BacktestService.BacktestEngine.ProcessSignal | backtesting/engine.py:359-384 | the same for a signal, in the sense of the theorems on decisions |
| BacktestService.BacktestEngine.ComputeEquity | backtesting/engine.py:341-357 | the loop computes the specified equity |
| BacktestService.BacktestEngine.Advance | backtesting/engine.py:316-322 | one step of forward fill |
| BacktestService.BacktestEngine.BuildTimestampSteps | backtesting/engine.py:307-323 | builds exactly the latest-bar snapshots over the sorted distinct times |
| BacktestService.BacktestEngine.BuildPositionalSteps | backtesting/engine.py:325-339 | builds the positional snapshots up to the shortest series |
| BacktestService.BacktestEngine.BuildSteps | backtesting/engine.py:290-339 | chooses between them |
| BacktestService.BacktestEngine.Run | backtesting/engine.py:180-242 | ends in the state of the run the theorems above describe |
| CrossSection.PlainLegsOk | services/backtesting/cross_section.py:276-278 | two legs that fit are duplicate-free, disjoint, usable and of size k |
| CrossSection.SizesAreShares | services/backtesting/cross_section.py:273-280 | leg and exit zone are the quantile of the usable symbols to the nearest number, a leg never empty, a zone never narrower than the leg |
| CrossSection.PlainLegsDisjointExactlyWhen | services/backtesting/cross_section.py:276-278 | without the buffer the legs are disjoint iff two of them fit |
| CrossSection.PlainLegsAreExtremes | services/backtesting/cross_section.py:271-278 | no symbol left out of a leg beats a member of it |
| CrossSection.BufferedLegsOk | services/backtesting/cross_section.py:279-295 | with the buffer legs are always duplicate-free, disjoint and usable, and of size k whenever two fit |
| CrossSection.BufferedLegsAreHeld | services/backtesting/cross_section.py:276-291 | with the buffer both legs are held as soon as one leg is smaller than the cross-section |
| CrossSection.OversizedLegs | services/backtesting/cross_section.py:276-291 | otherwise the shorts are the previous shorts still usable and the longs are everything else |
| CrossSection.IncumbentsStay | services/backtesting/cross_section.py:283-285 | an incumbent still in its zone is dropped only by the size cut |
| CrossSection.IncumbentsLeaveFromTheBack | services/backtesting/cross_section.py:283-285 | the size cut drops the incumbents furthest back in the previous leg |
| CrossSection.EntrantsAreBest | services/backtesting/cross_section.py:286-295 | a symbol enters the long leg only if every stronger one is in a leg, the short leg only if every weaker one is |
| CrossSection.NoBufferMeansPlain | services/backtesting/cross_section.py:279-295 | with a zone of size k the buffered legs are the plain ones whatever the previous legs |
| CrossSection.LegsAlwaysFitExactlyWhen | services/backtesting/cross_section.py:273-274 | two legs fit into every admissible cross-section iff the quantile is below one half |
| CrossSection.UsableIdx | services/backtesting/cross_section.py:263-272 | the usable symbols, each once |
| LongShort.Exposure | services/backtesting/cross_section.py:297-301 | net and gross exposure of any pair of legs, overlap included |
| LongShort.OverlapExactlyWhen | services/backtesting/cross_section.py:297-301 | the overlap term vanishes iff the legs are disjoint |
| LongShort.SpreadIsMeanDifference | services/backtesting/cross_section.py:297-302 | the return is the longs' mean less the shorts' mean |
| LongShort.MarketMoveEarnsNothing | services/backtesting/cross_section.py:302-302 | adding a constant to every forward return changes nothing |
| LongShortRuns.NeutralExactlyWhen | services/backtesting/cross_section.py:297-301 | with both legs held: net zero iff disjoint, and then gross two; gross never above two |
| LongShortRuns.TurnoverIsBounded | services/backtesting/cross_section.py:303-304 | turnover lies in [0, 4] at every rebalance whatever the quantiles |
| Turnover.TurnoverOfLegs | services/backtesting/cross_section.py:297-304 | between books of disjoint legs of any sizes: what leaves and enters each leg at that leg's weight, plus the rescaling of what stays |
| Turnover.TurnoverCountsMoves | services/backtesting/cross_section.py:297-304 | with k symbols in every leg: one k-th for each symbol entering or leaving the book, two for each switching sides |
| Turnover.NoTurnoverExactlyWhenSameWeights | services/backtesting/cross_section.py:303-304 | over every run a traded period turns over nothing iff it leaves the weights of the period before |
| Turnover.RunTurnoverOfLegs | services/backtesting/cross_section.py:265-305 | over every run the reported turnover is that of the legs held before and after the period |
| Turnover.ConsecutiveRebalancesCountMoves | services/backtesting/cross_section.py:265-305 | over every run two consecutive traded periods of one leg size that fits, with or without the buffer, report that count |
| LongShortRuns.PlainBookIsNeutralExactlyWhen | services/backtesting/cross_section.py:265-305 | the unbuffered book is never net long, and neutral iff 2k <= count |
| LongShortRuns.BufferedBookIsNeutralExactlyWhen | services/backtesting/cross_section.py:276-302 | with the buffer the book is neutral iff a leg is smaller than the cross-section, or some but not all of the cross-section were shorts before; gross two then |
| LongShortRuns.HalfQuantileIsNotNeutral | services/backtesting/cross_section.py:239-249 | at quantile one half the book is net short whenever 23 symbols are usable |
| LongShortRuns.WholeQuantileIsNotNeutral | services/backtesting/cross_section.py:276-302 | at quantile one the first buffered book of twenty symbols is not neutral |
| LongShortRuns.LadderIsPeriod | services/backtesting/cross_section.py:265-272 | such periods exist, for every number of symbols |
| LongShortRuns.RebalanceIsBalanced | services/backtesting/cross_section.py:265-305 | k longs and k shorts, net zero, gross two, return the mean difference, turnover in range |
| LongShortRuns.TurnoverAfterReset | services/backtesting/cross_section.py:266-269 | turnover is two after a reset |
| LongShortRuns.MarketMoveChangesNothing | services/backtesting/cross_section.py:265-305 | a common shift of the forward row changes neither legs, turnover nor return |
| LongShortRuns.Rebalance | services/backtesting/cross_section.py:265-305 | every rebalance keeps the carried legs and weights consistent; its return and turnover are those of the theorems on them |
| LongShortRuns.EveryRebalanceIsBalanced | services/backtesting/cross_section.py:265-305 | over every run, any rebalance into which two legs fit has k distinct longs and k distinct shorts inside the usable set, net zero, gross two, mean-difference return, turnover in [0,4], and exactly 2 after a reset |
| LongShortRuns.NarrowBufferIsNoBuffer | services/backtesting/cross_section.py:276-302 | over every run whose traded periods fit two legs, an exit zone no wider than the leg gives exactly the unbuffered returns, turnover and weights |
| BookBuilder.FillLeg | services/backtesting/cross_section.py:286-295 | the filling loop with its early exit |
| BookBuilder.NewLegs | services/backtesting/cross_section.py:274-295 | the leg selection of one period |
| BookBuilder.LongShortReturns | services/backtesting/cross_section.py:239-306 | the whole loop returns the return and turnover that the run theorems describe, for every period |
| Smoothing.SmoothSignal | services/backtesting/cross_section.py:216-236 | the nested loops give each cell its column's smoothed value; span <= 1 returns the signal |
| Smoothing.AbsorbRow | services/backtesting/cross_section.py:229-235 | one row updates every column's state |
| Smoothing.SmoothingIsCausal | services/backtesting/cross_section.py:216-236 | cell t depends on rows up to t only |
| Smoothing.FiniteExactlyWhenSeen | services/backtesting/cross_section.py:229-235 | a column has a value iff it has had a finite input |
| Smoothing.StaysFinite | services/backtesting/cross_section.py:229-235 | and never loses it |
| Smoothing.EachRowCountsTwice | services/backtesting/cross_section.py:229-235 | each finite row enters with weight 2 against span - 1 for the value so far; the first one seeds it; gaps leave it |
| Smoothing.SmoothedLiesBetweenInputs | services/backtesting/cross_section.py:229-235 | the value lies between two finite inputs already seen |
| LotMatching.Match | services/continuous_learning/service.py:429-464 | the closing loop terminates and leaves only positive lots |
| LotMatching.SaleClosesPrefix | services/continuous_learning/service.py:429-464 | a sale consumes a prefix of the lots, with at most one shrunken head; all but the last touched lot close in full at their whole commission |
| LotMatching.SaleConservesQuantity | services/continuous_learning/service.py:429-470 | matched plus left over is the sale; held less matched is what remains, up to one residue of at most 1e-12 |
| LotMatching.SaleProfit | services/continuous_learning/service.py:432-441 | profits booked trade by trade add up to proceeds less cost less the pro-rated exit and entry commissions |
| LotMatching.EveryTradeIsFair | services/continuous_learning/service.py:440-456 | every trade of a sale: its return takes the entry price to the sale's price and is its profit before both pro-rated commissions |
| LotMatching.OutcomesTellTheTruth | services/continuous_learning/service.py:440-456 | one outcome for each closed lot with a prediction, in order, with that lot's prediction, return and profit; none for the others |
| LotMatching.Step | services/continuous_learning/service.py:405-470 | any fill keeps at most twenty positive lots |
| LotMatching.FreshKeepsTheYoung | services/continuous_learning/service.py:407-407 | exactly the lots no older than a day stay |
| LotMatching.LotBook.CloseLots | services/continuous_learning/service.py:429-464 | the imperative loop equals the matching function and feeds back the outcomes those theorems describe |
| LotMatching.LotBook.HandleOrderFilled | services/continuous_learning/service.py:375-470 | one fill: only its symbol changes, as the histories say, with those outcomes; malformed fills change nothing |
| LotHistory.EventReconciles | services/continuous_learning/service.py:405-470 | any fill keeps the lots' books, the trades' books and the booked profit reconciled |
| LotHistory.RunReconciles | services/continuous_learning/service.py:405-470 | over every run each lot ever opened is open or gone, and lots, trades and booked profit reconcile |
| LotHistory.LotsAreChargedProRata | services/continuous_learning/service.py:437-461 | over any number of sales a lot is charged its opening commission in proportion to what was sold, exactly all of it once all is sold |
| LotHistory.ProfitOfARun | services/continuous_learning/service.py:405-470 | total profit is proceeds less the cost and commissions of exactly what the lots gave up |
| LotHistory.EveryTradeIsARoundTrip | services/continuous_learning/service.py:405-470 | over every run every lot has the terms of the buy that opened it, and every trade joins one of those buys to a later sale: prices, return, prediction, exploration flag |
| LotHistory.SellKeepsOk | services/continuous_learning/service.py:458-464 | a lot leaves through a sale only with a residue of at most 1e-12 |
| Retention.PruneKeepsTheNewest | services/continuous_learning/service.py:702-714 | the counting walk keeps exactly the newest resolved records up to the cap and the unexpired unresolved ones |
| Retention.NewestCountsToTheCap | services/continuous_learning/service.py:702-714 | the number of resolved records left is the smaller of their number and the cap |
| Retention.PruneKeepsOrder | services/continuous_learning/service.py:702-714 | as a subsequence |
| Retention.LaterPassSubsumes | services/continuous_learning/service.py:702-714 | pruning again later gives what one later pass gives |
| Retention.PruneIsIdempotent | services/continuous_learning/service.py:702-714 | in particular the pass is idempotent |
| Retention.RehydratedSurvivesPrune | services/continuous_learning/service.py:313-353 | a prune after a cold start removes none |
| Retention.LearningMemory.PruneRecords | services/continuous_learning/service.py:702-714 | the loop computes the reference selection |
| Retention.LearningMemory.PrunePass | services/continuous_learning/service.py:702-714 | every model is pruned independently |
| Retention.LearningMemory.SelectNewest | services/continuous_learning/service.py:313-323 | the per-model counter keeps the newest rows of every model |
| Retention.FeedingKeepsSync | services/continuous_learning/service.py:325-343 | feeding rows to the evaluator keeps its outcomes within its predictions, whatever the rows |
| Retention.FeedingFillsEvaluator | services/continuous_learning/service.py:325-343 | in a cold start the evaluator holds exactly the tracked rows of each model, in the same order |
| Retention.FeedingDescribesRows | services/continuous_learning/service.py:325-343 | each of them with its row's symbol, direction, confidence and time |
| Retention.FeedingRecordsOutcomes | services/continuous_learning/service.py:325-343 | and, when ids are distinct, the outcome of every one of them |
| Retention.LearningMemory.Replay | services/continuous_learning/service.py:325-353 | the reversed replay appends oldest first and feeds the evaluator row by row |
| Retention.LearningMemory.Rehydrate | services/continuous_learning/service.py:313-353 | each model gains its newest rows up to the cap, oldest first; an empty evaluator ends with exactly their predictions, in sync, and with distinct ids holds every kept row's outcome |
| Evaluator.PredictionKeepsSync | services/continuous_learning/evaluator.py:60-91 | recording a prediction never leaves an outcome without its prediction |
| Evaluator.OutcomeKeepsSyncExactlyWhen | services/continuous_learning/evaluator.py:93-103 | recording an outcome keeps that iff the prediction is still retained |
| Evaluator.StrayOutcomeStays | services/continuous_learning/evaluator.py:93-103 | the failing input: an outcome for an id nobody predicted |
| Evaluator.RetainedOutcomeIsLostExactlyWhen | services/continuous_learning/evaluator.py:85-91 | a prediction that stays retained loses its outcome iff its id is also carried by an evicted one |
| Evaluator.UniqueIdsLoseNothing | services/continuous_learning/evaluator.py:85-91 | with unique ids no retained prediction loses its outcome |
| Evaluator.BoundedMemoryTruncates | services/continuous_learning/evaluator.py:60-103 | over every well-used run the bounded evaluator is the unbounded one cut to the newest predictions |
| Evaluator.ModelEvaluator.AddPrediction | services/continuous_learning/evaluator.py:60-91 | append, evict and drop the evicted outcomes |
| Evaluator.ModelEvaluator.AddOutcome | services/continuous_learning/evaluator.py:93-103 | unconditional overwrite |
| AuxFeatures.ReplayIsLive | services/feature_engineering/aux_features.py:92-173 | train/serve parity for every symbol and time, per-series ordered rows, ties and missing series included |
| AuxFeatures.LatestExactlyWhen | services/feature_engineering/aux_features.py:155-165 | the as-of answer is the last of the latest points at or before ts |
| AuxFeatures.SortingKeepsLatest | services/feature_engineering/aux_features.py:149-153 | the stable sort changes no as-of answer, for rows in any order |
| AuxFeatures.LatestByIndex | services/feature_engineering/aux_features.py:160-165 | on a sorted series it sits just before the bisection point |
| AuxFeatures.ReplayIgnoresTheFuture | services/feature_engineering/aux_features.py:155-173 | rows stamped later never matter |
| AuxFeatures.BisectRight | services/feature_engineering/aux_features.py:160-162 | the insertion point |
| AuxFeatures.Group | services/feature_engineering/aux_features.py:145-147 | grouping keeps each series in arrival order |
| AuxFeatures.HistoricalAuxProvider.constructor | services/feature_engineering/aux_features.py:144-153 | groups and sorts every series |
| AuxFeatures.HistoricalAuxProvider.Asof | services/feature_engineering/aux_features.py:155-165 | bisect lookup equals the as-of value over the raw rows |
| AuxFeatures.HistoricalAuxProvider.FeaturesAsof | services/feature_engineering/aux_features.py:167-173 | all four features |
| AuxFeatures.LiveAuxProvider.Update | services/feature_engineering/aux_features.py:107-117 | one arriving row updates its metric only |
| AuxFeatures.LiveAuxProvider.FeaturesAsof | services/feature_engineering/aux_features.py:119-127 | serves the snapshot and ignores ts |
| RateLimiter.SetIsTheWindow | api/middleware/rate_limit.py:65-78 | for non-decreasing times the set always holds the distinct arrivals of (now - window, now], and now |
| RateLimiter.ExpiryNeverMatters | api/middleware/rate_limit.py:76-77 | the key expiry never changes the set |
| RateLimiter.CountIsExactExactlyWhen | api/middleware/rate_limit.py:72-80 | the count is the number of requests iff no two in the window share a timestamp |
| RateLimiter.SameInstantBurstIsAdmitted | api/middleware/rate_limit.py:72-73 | requests sharing one timestamp count once, so a burst of any size passes |
| RateLimiter.AdmittedExactlyWhen | api/middleware/rate_limit.py:80-94 | for increasing times a request passes iff the one max_requests places earlier, passed or not, has left the window |
| RateLimiter.AtMostTheLimit | api/middleware/rate_limit.py:54-94 | every half-open interval of window length contains at most max_requests admitted requests |
| RateLimiter.AtMostTheLimitOfInstants | api/middleware/rate_limit.py:54-94 | with equal timestamps, at most max_requests distinct instants with admitted requests |
| RateLimiter.Limiter.Check | api/middleware/rate_limit.py:54-94 | prune, add, count, renew; clients are independent; without Redis everything passes |
| Performance.DrawdownIsTheWorstFall | backtesting/performance.py:176-198 | on a curve that starts positive and never falls below zero the running-maximum form is the minimum of e[j]/e[i] - 1 over all i <= j with e[i] positive, attained at the returned indices, in [-1, 0] |
| Performance.DrawdownIsFallFromPeak | backtesting/performance.py:189-196 | on any curve that starts positive the drawdown of a point is its fall from the highest point so far |
| Performance.DepthTellsTheLow | backtesting/performance.py:189-196 | there the result is at least -1 iff the curve never falls below zero, and above -1 iff it stays positive |
| Performance.ZeroPeakReportsTheLoss | backtesting/performance.py:191-196 | while the highest equity so far is zero the drawdown is the equity itself |
| Performance.WorstFallIsMissedBelowZero | backtesting/performance.py:189-196 | below zero the form misses the worst fall: an input |
| Performance.RunningMaxIsMax | backtesting/performance.py:189-196 | the running maximum and its first index |
| Performance.TroughIsDeepest | backtesting/performance.py:194-194 | argmin is the first deepest index |
| Performance.MaxConsecutiveLosses | backtesting/performance.py:229-241 | the loop returns the length of the longest contiguous losing run |
| PaperBroker.CostMovesWithMoney | services/execution/brokers/paper_broker.py:264-288 | adding, reducing or flipping: new position cost is old cost plus money spent less profit taken |
| PaperBroker.AddingSettles | services/execution/brokers/paper_broker.py:252-293 | a fill on the side of the position moves cash and quantity, takes no profit, and averages cost by size |
| PaperBroker.ClosingSettles | services/execution/brokers/paper_broker.py:252-293 | a fill against it closes as much as there is and takes the profit on that; the rest keeps its average, a flip starts at the price |
| PaperBroker.OthersKeepTheirBook | services/execution/brokers/paper_broker.py:252-293 | no other symbol moves |
| PaperBroker.CashAndCostReconcile | services/execution/brokers/paper_broker.py:252-293 | over every run of fills cash plus book cost less realised profit is constant |
| PaperBroker.FillsKeepBookOk | services/execution/brokers/paper_broker.py:286-290 | a cost is kept only for open positions |
| PaperBroker.ReplayOmitsCommissions | services/execution/brokers/paper_broker.py:246-250 | replaying fills gives the same book and misstates cash and profit by exactly the commissions |
| PaperBroker.PaperBroker.ApplyFill | services/execution/brokers/paper_broker.py:252-293 | the statement-by-statement update equals the specification |
| PaperBroker.PaperBroker.GetPositions | services/execution/brokers/paper_broker.py:156-171 | reports exactly the non-zero positions, once each |
| BrokerState.CheckpointKeepsOneRow | services/persistence/broker_state.py:192-234 | a checkpoint never gives any mode a second open row for a symbol |
| BrokerState.CheckpointWritesBook | services/persistence/broker_state.py:192-234 | it leaves exactly the held non-zero book open |
| BrokerState.CheckpointLeavesTheRest | services/persistence/broker_state.py:192-216 | closed rows are never reopened or edited and other modes never touched; rows of positions no longer held are closed |
| BrokerState.RestoreIsExact | services/persistence/broker_state.py:112-131 | restoring a checkpoint of one account state gives that account's cash, realised profit, signed positions and cost; open rows are missing only if the snapshot counts no positions |
| BrokerState.RestoredMarks | services/persistence/broker_state.py:112-131 | a restored position is marked at the price the booting account has seen, else at the last price checkpointed, else at its cost |
| BrokerState.RestorationExactlyWhen | services/persistence/broker_state.py:72-140 | fresh iff there is no snapshot of the mode; with the latest one, equity as cash on a flat book iff it counted positions of which no row is open; restored otherwise |
| Restart.RestartMisstatesByMissedAndDoubled | services/persistence/broker_state.py:72-173 | for any stamps and any order: rebuilt positions and cash are the uncrashed ones without the fills applied later but not replayed and with those applied earlier and replayed again; positions agree iff the two cancel in every symbol |
| Restart.LateStampIsAppliedTwice | services/persistence/order_sync.py:84-98 | a fill in the checkpoint whose row is written, and stamped, after it is applied twice by the restart |
| Restart.RestartLosesOnlyCommissions | services/persistence/broker_state.py:72-173 | if fills are stamped after the checkpoint exactly when applied after it, restore plus replay equals the uncrashed account, cost basis included, iff the replayed fills' commissions sum to zero, and differs by exactly that sum otherwise |
| Restart.TotalOfPermutation | services/persistence/broker_state.py:151-173 | quantities and cash do not depend on the order in which fills are replayed |
| BrokerStateService.BrokerStateStore.UpdateOpenRows | services/persistence/broker_state.py:199-216 | marks or closes each open row of the mode, in place |
| BrokerStateService.BrokerStateStore.AddRows | services/persistence/broker_state.py:218-234 | adds one row for each held symbol that had none |
| BrokerStateService.BrokerStateStore.Checkpoint | services/persistence/broker_state.py:179-234 | together they make a checkpoint in the sense the theorems use |
| BrokerStateService.BrokerStateStore.WriteOnce | services/persistence/snapshot_writer.py:42-73 | the caller's money becomes the snapshot and the caller's book, when fetched, its checkpoint |
| BrokerStateService.BrokerStateStore.Tick | services/persistence/snapshot_writer.py:97-124 | one tick of the writer on the simulated broker: the snapshot and the open rows are one and the same account state |
| BrokerStateService.BrokerStateStore.Restore | services/persistence/broker_state.py:72-140 | fresh, rebased or restored, with the account each leaves |
| BrokerStateService.BrokerStateStore.ReplayFillsAfter | services/persistence/broker_state.py:151-173 | applies exactly the mode's later fills, in order |
| TrailingStop.StopLivesUntilHit | services/liquidation/trailing_stop.py:85-155 | over any run that leaves the stop alone it is active iff no price of its symbol has reached the given fraction of the best price so far, and its extreme is that best |
| TrailingStop.FiresAtTheFirstHit | services/liquidation/trailing_stop.py:96-155 | it fires on exactly the tick of the first hit, other symbols notwithstanding |
| TrailingStop.TriggerTellsTheHit | services/liquidation/trailing_stop.py:101-150 | it reports its symbol, the price that hit and the level trailing the best price of the stream |
| TrailingStop.RegisteredStopLivesUntilHit | services/liquidation/trailing_stop.py:55-83 | registering starts the stop afresh over whatever stood under its id, removing ends it for good, and neither touches another |
| TrailingStop.BestIsExtreme | services/liquidation/trailing_stop.py:103-128 | the best price is the maximum (minimum) of the seed and the stream |
| TrailingStop.LevelRatchetsExactlyWhen | services/liquidation/trailing_stop.py:101-133 | the level only tightens iff the percentage is at most one (at least minus one for shorts) |
| TrailingStop.TrailingStopManager.UpdatePrices | services/liquidation/trailing_stop.py:85-157 | moves every stop, reports exactly those that fire once each, then removes them |
| TrailingStop.TrailingStopManager.SetTrailingStop | services/liquidation/trailing_stop.py:55-83 | registers, replacing any stop of that position |
| TrailingStop.TrailingStopManager.RemoveStop | services/liquidation/trailing_stop.py:159-161 | removes that stop only |

## Left out

- Aliasing: orders, positions, lots and stop records are values inside the maps and sequences their owners hold; sharing one mutable record between two holders is not captured.
- Preemption inside one submit, cancel or poll: these are atomic steps of the engine; the code gives no exactly-once event guarantee for a cancel racing a poll of the same order beyond `StalePollEndsAgainExactlyWhen`.
- Publishing failures of order events, stream trimming and consumer-group creation: publishing is reliable, and no entry of the stream is dropped.
- ConsumerGroup.NextKeepsInv: XAUTOCLAIM may return any ascending set of stale ids here, more than Redis would; what is claimed possible (`Recovery`, `Resubmission`) uses Redis's own batches, cut off where XAUTOCLAIM's scan is, as does `EventBus.AutoClaimStale`.
- EventBus.EventBus.ConsumeOnce: the infinite loop, jitter and block timeout are one turn at a time, with the next tick given.
- ExecutionService.ExecutionEngine.MonitorPass: the in-flight dictionary's order is any enumeration of a snapshot, and one report per order.
- Two processes that share one consumer name, as two engines started with the defaults would: a consumer is one sequential loop.
- BrokerStateService.BrokerStateStore.Tick: brokers of live mode are checkpointed too, from reads that other tasks may come between; nothing restores them (`services/worker.py:352-354`).
- FillEvents.FillEventsTellTheLedger: the other order events are modelled by order id, reason and client id; the terms that the created event repeats are not.
- Simulator.FillHonoursOrder: the slippage amount a fill reports beside its price.
- Execution algorithms, child orders, stop prices, event-payload fallbacks and the buying-power lookup of the execution service: the chosen broker and its reply decide.
- Infinite and not-a-number decimals, Decimal context precision and database rounding.
- BookBuilder.LongShortReturns: argsort is a parameter meeting its contract, ties in any order; dot products and sums of absolute values are the functions they compute.
- `tail_dominance`, `quantile_profile`, factor evaluation, information coefficients and Sharpe ratios: library statistics.
- Performance.DrawdownIsTheWorstFall: curves that start at zero or below are not covered; there the code divides by one (`ZeroPeakReportsTheLoss`) or by a negative maximum. Below zero it is false (`WorstFallIsMissedBelowZero`).
- LotMatching.LotBook.HandleOrderFilled: reading the event's fields and its logging; the fill arrives parsed.
- Retention.LearningMemory.Rehydrate: the query's seven-day window and row limit choose the rows it is given.
- Outcome resolution against stored bars, drift detection and retraining.
- BrokerStateService.BrokerStateStore.ReplayFillsAfter: fills are read in filled_at order; how the database orders equal stamps is not modelled.
- BrokerState.RestoreIsExact: market prices are not part of the equality; what a restored position is marked at is `RestoredMarks`.
- PaperBroker order handling (pending limit and stop orders, slippage, buying power): only its book is modelled.
- RateLimiter.AtMostTheLimitOfInstants: clocks that go backwards are not covered.
- Web API, database access, exchange clients, optimiser, risk service, dataset builder, model registry and frontend: plumbing or separate subjects.
