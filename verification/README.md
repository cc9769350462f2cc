# Verification of the quoting core

A Dafny model of the parts of the repository that turn a sales request into a priced, checked and delivered
quote, with proofs about them. `dafny verify dfyconfig.toml` checks everything.

| file | what it models |
|---|---|
| `Pipeline.dfy`, `PipelineEvents.dfy`, `Recovery.dfy` | the pipeline graph engine as a loop with checkpoints, what its events tell, and as a small-step machine whose worker can crash anywhere |
| `ExtractNode.dfy`, `MatchNode.dfy` | the two nodes whose re-entry after a crash is delicate |
| `QuotingPipeline.dfy`, `QuotingNodes.dfy`, `QuotingRuns.dfy`, `PricedRequests.dfy` | all seven nodes over one store, what each does to a request, what whole runs guarantee, and what a request that ends priced has |
| `Heap.dfy` | the scheduler's binary heap: a growing list, swapped in place |
| `Rrf.dfy` | Reciprocal Rank Fusion of lexical and semantic hits |
| `Breaker.dfy` | the Redis circuit breaker, with clock and expiring keys |
| `QuotePricing.dfy`, `Recompute.dfy`, `RecomputeFigures.dfy`, `RecomputeAgain.dfy` | quantity-break pricing, the recompute path and the price node, what they bill, and running them again |
| `VerticalPricing.dfy`, `Caixilharia.dfy`, `Avac.dfy` | the two vertical engines |
| `CaixilhariaQuotes.dfy`, `CaixilhariaDiscount.dfy`, `AvacQuotes.dfy` | what their quotes guarantee |
| `VerticalFigures.dfy`, `CaixilhariaFigures.dfy`, `AvacFigures.dfy` | what their lines and totals amount to, by request, rules and catalog |
| `CaixilhariaBlocks.dfy`, `AvacBlocks.dfy` | when their quotes are blocked |
| `PolicyGate.dfy`, `PolicyFlags.dfy` | collapse of policy rules, breach evaluation, flag reconciliation |
| `QuoteLifecycle.dfy`, `QuoteHistory.dfy` | compare-and-set updates of quote rows under any interleaving, and what a stored quote tells of them |
| `Remap.dfy`, `RemapRollback.dfy` | the client's optimistic re-map protocol, and when its failures roll back |
| `CatalogImport.dfy`, `CatalogRows.dfy`, `Decimals.dfy` | catalog import, what a row says and that it is what is read, and exact euro parsing |
| `Rounding.dfy`, `Sums.dfy`, `StableSort.dfy`, `InsertionOrder.dfy`, `Text.dfy`, `Wrappers.dfy` | shared: `Math.round`, sums, `Array.sort`, `Map`/`Set` order, text |

Code that updates state is modelled by classes and methods with loops, each proved against a specification
function; the theorems are about those functions and about runs of them.

## Conventions

- Amounts are exact: integers in minor units, and reals where the code does not round (labour hours times rate,
  kilometres times price). `Math.round(x)` is the floor of x + 1/2.
- Rule configurations, extractions and rows are taken as validated records; whether a rule parses is which
  constructor it has. The `Valid` predicates hold what the schemas admit.
- Tables are maps or sequences; one conditional update or one transaction is one atomic step.
- The clock, the model, the search tool, the embedding client and the keyword match are parameters.

## Where the code and its comments differ

The model follows the code.

- The failure window of the breaker is fixed, not sliding (`Breaker.FixedWindowMissesAStraddlingBurst`).
- The state key of the breaker lives 3600 s, which caps a longer cooldown (`Breaker.CooldownIsExact`), and its
  lapse leaves a live probe lock behind (`Breaker.LapsedStateKeepsTheLock`; exactly then,
  `Breaker.LockMeansHalfOpenIff`).
- A job delivered again for a request that stands at FAILED reports overall status success in `processing.complete`
  (exactly then, `PricedRequests.SuccessForAFailedRequestIffRedelivered`; for arbitrary nodes also when the last one
  advances to FAILED, `Pipeline.SuccessReportedForAFailedRunIff`).
- Routing does not look at the quote, so a request can end PRICED without one
  (`PricedRequests.ZeroQuantityEndsPriced`; exactly when, `PricedRequests.PricedHasAQuoteIff`). The same branch for a
  foreign currency is excluded by the check on the SKU table.
- The policy gate fails closed only on lines with SKU and price, so a request with no such line can end PRICED with no
  policy rule at all (`PricedRequests.ZeroQuantityNeedsNoThreshold`; exactly when,
  `PricedRequests.PricedWithoutThresholdIff`).
- A manual price that is cleared leaves its override flag behind, so a recompute can change what the one before it
  stored (`RecomputeAgain.ZeroQuantityLosesTheManualPrice`; exactly when, `RecomputeAgain.RecomputeIsIdempotentIff`).
- A discount cap equal to a break's percentage can report a line priced with that break
  (`PolicyGate.TenPercentOffSixteenIsReported`; exactly when, `PolicyGate.BreakAtCapBreachesIffRoundedDown`).
- Two overlapping re-maps that both fail do not roll back to the confirmed total
  (`Remap.OverlappingFailuresRollBackIff`; on every run, `RemapRollback.RollbackIsToTheConfirmedDetailIff`).
- A caixilharia discount can exceed a fractional subtotal (`CaixilhariaDiscount.HalfAKilometreIsOverDiscounted`;
  exactly when, `CaixilhariaDiscount.DiscountExceedsTheSubtotalIff`).
- An empty `base_price_minor` cell beside a `base_price_eur` cell reads the euros as cents
  (`CatalogImport.EmptyCentCellReadsEurosAsCents`; exactly when, `CatalogImport.PriceIsByItsColumnIff`).

## Model

| member | source | states |
|---|---|---|
| Recovery.RecoveryIsTransparent | src/modules/pipeline/graph.engine.ts:56-224 | When every node is rerunnable, writes no checkpoint but its own next and keeps a valid extraction, and the uninterrupted run needs at most 50 transitions, every schedule of starts, atomic steps, crashes (between steps, or inside a node with its work half done) and repeated deliveries that reaches the end leaves the same store, checkpoint and status as one uninterrupted run |
| Recovery.WalkReaches | src/modules/pipeline/graph.engine.ts:91-220 | Where an uninterrupted run ends is a function of the stored row alone, the same with and without the extract skip |
| Pipeline.PipelineGraphEngine.Run | src/modules/pipeline/graph.engine.ts:56-224 | The method with the loop leaves exactly the row and emits exactly the events of the specified run, and leaves an unknown request alone |
| Pipeline.PipelineGraphEngine.WalkGraph | src/modules/pipeline/graph.engine.ts:91-220 | The transition loop, every exit path: bound exceeded, unregistered node, skipped extract, thrown error by class, clarify, failed, advance |
| Pipeline.PipelineGraphEngine.Visit | src/modules/pipeline/graph.engine.ts:99-219 | One pass of the loop at a registered node: events in order, checkpoint and the status to finalise with, if any |
| Pipeline.PipelineGraphEngine.Finalize | src/modules/pipeline/graph.engine.ts:271-302 | Status is set unless terminal, then processing.complete and request.finalized are emitted in that order |
| Pipeline.RunIsBoundedAndFinalisedOnce | src/modules/pipeline/graph.engine.ts:87-224 | Whatever the nodes return, a run enters at most 50 nodes, closes each entry by exactly one exit of the same node before the next entry, and finalises exactly once, last |
| Pipeline.WalkStatus | src/modules/pipeline/graph.engine.ts:91-224 | A run that ends at FAILED has status FAILED, one that ends PRICED stands at DONE with auto-eligible routing, and conversely |
| Pipeline.StatusAgreesWithCheckpoint | src/modules/pipeline/graph.engine.ts:271-317 | After a run the stored status is FAILED exactly when the checkpoint is, and PRICED only at DONE with auto-eligible routing, unless the request was already SENT or DECLINED, whose status is kept |
| Pipeline.SuccessReportedForAFailedRunIff | src/modules/pipeline/graph.engine.ts:87-224 | A run reports success in processing.complete and is finalised as FAILED if and only if it stood at FAILED on entry or the last node it visited advanced to FAILED |
| PipelineEvents.RunTellsItsVisits | src/modules/pipeline/graph.engine.ts:56-302 | Every run is one trail of visits, each advancing to the next: every exit event reports success exactly if its node advanced, a stage error is reported exactly for a logical error, a resumption exactly when the run does not start at PARSE (first, and from where it stands), and checkpoint, status and overall success are those the last visit leads to, outcome by outcome |
| PricedRequests.SuccessForAFailedRequestIffRedelivered | src/modules/pipeline/graph.engine.ts:87-224 | For the seven nodes, none of which advances to FAILED: a run reports success and is finalised as FAILED if and only if the request stood at FAILED when its job was delivered again |
| Recovery.RecoveryFinishes | src/modules/pipeline/graph.engine.ts:56-224 | Progress: from wherever crashes have left a schedule, any 103 steps without a further crash finish it, in the row of the uninterrupted run |
| Recovery.FinishIsReachable | src/modules/pipeline/graph.engine.ts:91-224 | From every state of the machine such a crash-free way to the end exists |
| QuotingPipeline.QuotingIsRecoverable | src/modules/pipeline/graph.engine.ts:56-224 | The graph of the seven nodes over one store (attachments, extraction, lines, quote, flags, routing) meets every hypothesis of the recovery theorem: each node can be re-run from finished and from half-done work, only classify and score write a checkpoint and it is their own next, and no node takes a valid extraction away |
| QuotingRuns.QuotingSurvivesCrashes | src/modules/pipeline/graph.engine.ts:56-224 | For that graph recovery is transparent without further hypothesis: a finished schedule of crashes and repeated deliveries leaves the row of one uninterrupted run |
| QuotingRuns.QuotingFinishes | src/modules/pipeline/graph.engine.ts:91-224 | And left alone for 103 steps it finishes, in that row |
| QuotingRuns.EveryRunEnds | src/modules/pipeline/graph.engine.ts:91-98 | Wherever a request stands, at most seven transitions end its run, so the bound of 50 never cuts one short |
| QuotingRuns.PricedIsReleased | src/modules/scoring/score.node.ts:54-129 | Whatever crashes and repeated deliveries happened, a request that passed the policy node in its run and ended PRICED has a valid extraction and lines, no line carries a flag of the price or policy node, and each line with SKU and price is allowed by every active rule, of which at least one sets a threshold |
| QuotingRuns.PricedIsWithinPrices | src/modules/policy/quote-policy.service.ts:36-79 | In prices: every line of such a request that has a price and whose SKU the catalog holds is sold within the margin and the discount every active rule allows, by unit price, base price and cost |
| PricedRequests.PricedHasAThresholdIfGated | src/modules/policy/policy.node.ts:54-64 | Such a request had an active policy threshold to pass whenever some line of it has SKU and price |
| PricedRequests.PricedWithoutThresholdIff | src/modules/policy/policy.node.ts:54-72 | The fail-closed branch only sees lines with SKU and price: with no active threshold a request standing at POLICY ends PRICED if and only if no line has both and its lines, stripped of old policy flags, are eligible |
| PricedRequests.ZeroQuantityNeedsNoThreshold | src/modules/policy/policy.node.ts:64 | Such a request without any policy rule: one matched line of quantity zero |
| PricedRequests.PricedHasAQuoteIff | src/modules/pipeline/graph.engine.ts:304-317 | A request that passed the price node in its run and ended PRICED has a quote if and only if its stored answer prices to one as a vertical or, being for no vertical, has a priceable line and all such lines in euros |
| PricedRequests.FreshlyPricedHasAQuoteIff | src/modules/pricing/price.node.ts:57-92 | If moreover it had no valid extraction when the run stood at PARSE or EXTRACT, and the SKU table holds euros only, exactly if a line is priceable |
| PricedRequests.PricedIsNotVertical | src/modules/extraction/extract.node.ts:186-200 | A request without a valid extraction at PARSE or EXTRACT that ends PRICED was extracted as a list of lines: a freshly extracted vertical request always goes to review |
| PricedRequests.NoLinesNeverPriced | src/modules/scoring/scorer.service.ts:14-28 | A request that has no lines when it stands at CLASSIFY or later, short of DONE, never ends PRICED, whatever crashes happen |
| PricedRequests.ZeroQuantityEndsPriced | src/modules/pricing/price.node.ts:73-82 | Such a request without a quote: one certain line of quantity zero, without price or flag, at PRICE, and no cap on automatic sending |
| PricedRequests.PatchedToZero | src/modules/requests/actions/line-item-remap.actions.ts:79-88 | How it comes to be: the PATCH of the quantity to zero, with the recompute in its transaction, leaves that line and no quote |
| QuotingRuns.AutoEligibleIff | src/modules/scoring/scorer.service.ts:14-48 | The minimum of the three factors decides as separate tests would: routing is auto-eligible if and only if the extraction is valid, there are lines, no hard flag, every confidence reaches the threshold, and each penalty that is due still reaches it |
| QuotingPipeline.ParseAgain | src/modules/parse/parse.node.ts:50-96 | Parsing after a crash at any attachment, up to the first unreadable one, ends as one parse does, with the same outcome |
| QuotingPipeline.MatchAgain | src/modules/catalog/match.node.ts:62-154 | Matching after a crash at any line ends as one pass does |
| QuotingPipeline.PriceAgain | src/modules/pricing/price.node.ts:57-135 | Re-running the price node, on either path, changes nothing |
| QuotingPipeline.PolicyAgain | src/modules/policy/policy.node.ts:44-72 | The policy node evaluates the same findings on its own result and changes nothing |
| QuotingNodes.ParseReadsTheAttachments | src/modules/parse/parse.node.ts:37-97 | Attachments are read in order up to the first that cannot be, which alone asks for clarification; pasted ones, those behind it and everything else are left as they are |
| QuotingNodes.TheModelSeesEverything | src/modules/extraction/extract.node.ts:138-167 | The text shown to the model holds subject, body and each attachment's text (the pasted one of a pasted attachment), trimmed and whole; it is empty when all are blank |
| QuotingNodes.ExtractReplacesTheRows | src/modules/extraction/extract.node.ts:169-238 | A newly valid extraction replaces the lines by one row per item in position order, none for a vertical; otherwise lines and facts stay |
| QuotingNodes.MatchSettlesEveryRow | src/modules/catalog/match.node.ts:62-154 | Every row without a SKU is settled by what the search answers for its text: first candidate, score, method, tie and candidates as in MatchNode.MatchedIsSettled; every other field and row stays |
| QuotingNodes.PriceSellsTheRows | src/modules/pricing/price.node.ts:67-135 | Every row with a SKU of the catalog and a positive quantity is sold at that SKU's price less the discount of its own quantity, to half a cent; every other row and every other field stays |
| QuotingNodes.PriceQuotesTheRows | src/modules/pricing/price.node.ts:67-135 | Its quote has a line for every such row and no other: that SKU, the row's quantity and position, the discounted price and amount; total and discount add up to the subtotal |
| QuotingNodes.ConfidenceIsTheLeast | src/modules/scoring/scorer.service.ts:14-122 | The overall confidence is the largest number up to one that no line's match and no penalty that is due falls short of, bad matches taking it no lower than zero; zero without a valid extraction or lines |
| QuotingNodes.RoutedIff | src/modules/scoring/score.node.ts:66-126 | Routing is auto-eligible if and only if the extraction is valid, there are lines, the confidence reaches the threshold and no line carries one of the four flags of the price and policy nodes |
| QuotingNodes.RunEndsWhere | src/modules/pipeline/graph.engine.ts:91-220 | A run takes an existing request to DONE from wherever it stands, except that at PARSE an attachment that cannot be read leaves it there for clarification; it takes a request that is gone to FAILED |
| ExtractNode.ExtractNodeRunner.Run | src/modules/extraction/extract.node.ts:50-136 | At most two model calls, the second given the reason the first was refused; a valid extraction is left alone without any call; the stored result is exactly the specified one |
| ExtractNode.ValidMeansReconciled | src/modules/extraction/extract.node.ts:108-125 | An extraction newly marked valid was parsed by the schema and reconciled with the source text, and is the one stored |
| ExtractNode.FailureKeepsTheLines | src/modules/extraction/extract.node.ts:67-85 | A run that does not end in a valid extraction leaves line items and request facts untouched |
| ExtractNode.ExtractedTwiceIsExtractedOnce | src/modules/extraction/extract.node.ts:54-57 | Running the node on its own result changes nothing and advances the same way |
| ExtractNode.ExtractIsRerunnable | src/modules/extraction/extract.node.ts:169-238 | The extract node on its own store is rerunnable; in the graph of all nodes see QuotingPipeline.QuotingIsRecoverable |
| ExtractNode.AttemptsTell | src/modules/extraction/extract.node.ts:85-136 | The stored extraction by the model's two answers: the first that matches the schema and reconciles, with the number of repeated calls; failing both, the last answer left on record |
| ExtractNode.NothingToAsk | src/modules/extraction/extract.node.ts:54-85 | When the model is not asked: a valid extraction stays, a missing request fails, a blank text is recorded as such |
| MatchNode.MatchNodeRunner.Run | src/modules/catalog/match.node.ts:36-163 | The loop matches exactly the unmatched lines, counts the matched ones and reports degradation if any search was degraded |
| MatchNode.MatchNodeRunner.MatchLine | src/modules/catalog/match.node.ts:62-154 | One line: skipped when matched, empty or unknown, otherwise settled as its search answer says; see MatchedIsSettled |
| MatchNode.MatchedIsSettled | src/modules/catalog/match.node.ts:62-154 | A searched line takes the SKU and score of the first candidate, is exact if and only if that score reaches the threshold and the hit is not semantic, is flagged as a tie if and only if the second score is within the margin, keeps its other flags and stores all candidates in order |
| MatchNode.NoCandidateScoresHigher | src/modules/catalog/match.node.ts:119-151 | From candidates in descending order no stored candidate scores higher than the adopted one, and the tie flag is added if and only if some other candidate comes within the margin |
| MatchNode.MatchedTwiceIsMatchedOnce | src/modules/catalog/match.node.ts:63-66 | A second pass over a line adds no flag and adopts nothing new |
| MatchNode.MatchIsRerunnable | src/modules/catalog/match.node.ts:138-151 | One transaction per line makes the node rerunnable also from a crash after any number of lines |
| RecomputeAgain.PriceIsRerunnable | src/modules/pricing/price.node.ts:112-128 | The price node on lines and quote is rerunnable; in the graph of all nodes see QuotingPipeline.QuotingIsRecoverable |
| PolicyFlags.PolicyIsRerunnable | src/modules/policy/policy.node.ts:81-111 | The reconciliation with fixed findings is rerunnable; in the graph of all nodes see QuotingPipeline.QuotingIsRecoverable |
| Heap.CompareIsTotalPreorder | src/modules/scheduler/heap.ts:12-20 | The three-key comparator is total, reflexive and transitive, with a missing scheduledAt before every time |
| Heap.RootIsMinimum | src/modules/scheduler/heap.ts:30-47 | In a heap the first element precedes every element |
| Heap.HeapPriorityQueue.Insert | src/modules/scheduler/heap.ts:25-28 | The heap stays a heap and its contents gain exactly the inserted node |
| Heap.HeapPriorityQueue.PopMin | src/modules/scheduler/heap.ts:30-39 | Answers a minimum and removes exactly it; undefined exactly when empty |
| Heap.HeapPriorityQueue.BubbleUp | src/modules/scheduler/heap.ts:49-56 | Restores a heap whose only flaw is a node smaller than its parent, keeping the contents |
| Heap.HeapPriorityQueue.BubbleDown | src/modules/scheduler/heap.ts:58-72 | Restores a heap whose only flaw is a node larger than a child, keeping the contents |
| Heap.SweepOrder | src/modules/scheduler/scheduler.service.ts:46-60 | Inserting all jobs and popping until empty terminates with a sorted permutation of the jobs |
| Heap.RunOperations | src/modules/scheduler/heap.ts:22-72 | For any sequence of inserts and pops every pop answers a minimum of what was inserted and not yet popped, and what is left is what was inserted minus what was popped |
| Rrf.FuseRrf | src/modules/catalog/rrf.ts:9-97 | The two accumulation loops, the sort and the labelling compute exactly the fusion of the two lists; a negative k is refused |
| Rrf.EachSkuOnce | src/modules/catalog/rrf.ts:31-69 | Every SKU of either list is returned, exactly once, and nothing else |
| Rrf.RankingIsExact | src/modules/catalog/rrf.ts:71 | One SKU precedes another if and only if its fused score is higher or, on equal scores, it was met first |
| Rrf.FoundByBothPrecedes | src/modules/catalog/rrf.ts:31-71 | With lists of distinct SKUs no longer than k+1, a SKU in both lists precedes every SKU in only one |
| Rrf.AgreementCanLoseBeyondBound | src/modules/catalog/rrf.ts:31-71 | The bound k+1 is tight: with one more hit per list a concrete input reverses the order |
| Rrf.AheadInBothPrecedes | src/modules/catalog/rrf.ts:31-71 | For any lengths, a SKU ahead of another in every list that has the other precedes it |
| Rrf.LabelTellsProvenance | src/modules/catalog/rrf.ts:73-96 | The method names exactly the lists that found the SKU; the score is the similarity of one of its hits, the best of them when lists have distinct SKUs |
| Breaker.CircuitBreakerService.GetState | src/modules/llm/circuit-breaker.service.ts:34-45 | Reads the state and moves OPEN to HALF_OPEN exactly when the cooldown has elapsed |
| Breaker.CircuitBreakerService.IsOpen | src/modules/llm/circuit-breaker.service.ts:49-57 | Blocks while OPEN; in HALF_OPEN admits exactly the caller that takes the probe lock |
| Breaker.CircuitBreakerService.RecordSuccess | src/modules/llm/circuit-breaker.service.ts:60-71 | Clears lock and counter and closes the breaker unless it is OPEN |
| Breaker.CircuitBreakerService.RecordFailure | src/modules/llm/circuit-breaker.service.ts:74-103 | Re-opens from HALF_OPEN dropping the lock; counts while CLOSED and opens at the threshold; nothing while OPEN |
| Breaker.InvariantHolds | src/modules/llm/circuit-breaker.service.ts:34-121 | Over every interleaving of calls, clock ticks and expiry that keeps the state key alive, a held probe lock implies HALF_OPEN, and while CLOSED the counter is below the threshold |
| Breaker.LapsedStateKeepsTheLock | src/modules/llm/circuit-breaker.service.ts:16-25 | A run from empty keys (failure, cooldown, read, an hour less one, a caller, one more) lets the state key lapse under a live lock: the breaker reads CLOSED, and after the next failure OPEN, with the lock held |
| Breaker.LockMeansHalfOpenIff | src/modules/llm/circuit-breaker.service.ts:49-57 | The exact condition: a held lock means HALF_OPEN all along a run if and only if the state key never lapses under a live lock |
| Breaker.OneProbePerEpisode | src/modules/llm/circuit-breaker.service.ts:49-57 | Two admissions within one HALF_OPEN episode are at least the lock lifetime apart |
| Breaker.NobodyDuringCooldown | src/modules/llm/circuit-breaker.service.ts:34-57 | From the step that opens the breaker until the cooldown (or the hour of the state key) is over, every caller is blocked |
| Breaker.CooldownIsExact | src/modules/llm/circuit-breaker.service.ts:38-42 | An undisturbed open breaker with a free lock admits a caller exactly from min(cooldown, 3600 s) on |
| Breaker.CounterRefinesHistory | src/modules/llm/circuit-breaker.service.ts:88-102 | On every run the expiring counter equals the number of failures since the window's first failure with no success in between, and expires with the window |
| Breaker.TripsExactlyAtThreshold | src/modules/llm/circuit-breaker.service.ts:88-102 | A failure while CLOSED opens the breaker if and only if it brings the current window to the threshold |
| Breaker.CountedFailuresShareAWindow | src/modules/llm/circuit-breaker.service.ts:88-93 | On every run the failures the counter counts lie within one window length of the first of them |
| Breaker.FailureTimesAscend | src/modules/llm/circuit-breaker.service.ts:88-93 | On every run failure times ascend |
| Breaker.SuccessCloses | src/modules/llm/circuit-breaker.service.ts:60-71 | On every run a success outside OPEN leaves CLOSED without an opening time, lock and counter gone, and the next caller is let through; in OPEN it changes nothing |
| Breaker.FailedProbeReopens | src/modules/llm/circuit-breaker.service.ts:74-86 | On every run a failure in HALF_OPEN leaves OPEN, opened now, without a lock and with the counter untouched, and everybody is blocked; in OPEN it changes nothing |
| Breaker.TripIsStamped | src/modules/llm/circuit-breaker.service.ts:88-103 | On every run a failure that trips the closed breaker stamps the opening with the time, and one that does not leaves state and lock alone |
| Breaker.AdmissionTakesTheLock | src/modules/llm/circuit-breaker.service.ts:49-57 | On every run a caller admitted in HALF_OPEN holds the lock for two minutes, one admitted otherwise found the breaker closed and changes nothing, and a blocked one leaves the lock |
| Breaker.FixedWindowMissesAStraddlingBurst | src/modules/llm/circuit-breaker.service.ts:18-21 | The window is fixed: a concrete burst of threshold failures inside one window length does not trip when it straddles a window end |
| QuotePricing.LargestReachedBreakApplies | src/modules/pricing/quote-pricing.service.ts:38-48 | The applied discount bounds every reached break and is one of them, or zero when none is reached |
| QuotePricing.DiscountIsMonotoneAndOrderFree | src/modules/pricing/quote-pricing.service.ts:38-48 | A larger quantity never lowers the discount, and rule order does not matter |
| QuotePricing.QuoteIgnoresRuleOrder | src/modules/pricing/quote-pricing.service.ts:19-36 | The whole quote is the same for every permutation of the rules |
| QuotePricing.LineWithinOneUnit | src/modules/pricing/quote-pricing.service.ts:49-62 | 0 <= amount <= base amount, and the amount is within one minor unit of the exact price |
| QuotePricing.QuoteWithinOneUnitPerLine | src/modules/pricing/quote-pricing.service.ts:19-36 | For n lines the total is within n minor units of the exact unrounded sum; total + discount = subtotal; neither is negative |
| QuotePricing.SlowestLineDecides | src/modules/pricing/quote-pricing.service.ts:65-68 | The lead time is the largest of the known ones, none exactly when no line has one |
| QuotePricing.QuoteIsPriced | src/modules/pricing/quote-pricing.service.ts:19-68 | One priced line per input in order, each at its base price less its discount to half a cent; totals are the sums of the lines, the lead time is that of the slowest input, and the quote is blocked exactly with lines and without rules |
| Recompute.RequestPricing.PersistLinePrices | src/modules/pricing/quote-recompute.service.ts:165-188 | Each named row gets its price, lead time and blocked flag; every other row stays |
| Recompute.RequestPricing.ClearLinePricing | src/modules/pricing/quote-recompute.service.ts:191-209 | Rows outside the quote lose price, lead time and blocked flag, and nothing else |
| Recompute.RequestPricing.RecomputeQuote | src/modules/pricing/quote-recompute.service.ts:50-158 | Rule-priced and overridden lines mixed in position order; nothing priceable deletes the quote; a non-euro SKU on a priceable line refuses and changes nothing; the answer carries the figures of the stored quote, its total the sum of the stored lines, its lead time the slowest SKU's, and is blocked exactly if a rule-priced line has no rule |
| Recompute.RequestPricing.RunPriceNode | src/modules/pricing/price.node.ts:67-135 | The price node on a request without a vertical extraction: replace, or delete when nothing is priceable or a currency is wrong |
| RecomputeFigures.QuotedIff | src/modules/pricing/quote-recompute.service.ts:57-81 | One line to be sold in another currency makes the recompute refuse and the price node take the quote away; otherwise each leaves a quote if and only if some line has a SKU and a positive quantity |
| RecomputeFigures.RecomputedQuoteBillsTheLines | src/modules/pricing/quote-recompute.service.ts:57-148 | Every stored quote line bills a line item (its SKU, quantity and position) at the manual price or at the discounted catalog price, to half a cent, and every line item that can be priced is billed |
| RecomputeFigures.RecomputedLineReads | src/modules/pricing/quote-recompute.service.ts:165-209 | Each line item after a recompute is cleared, kept at its manual price or priced by rule, blocked exactly without rules; nothing else of it changes |
| RecomputeFigures.NodeQuoteBillsTheLines | src/modules/pricing/price.node.ts:67-128 | The price node's quote bills every such line by rule, whatever its manual price; total and discount add up to the subtotal, the total is the sum of the lines, and the lead time is the slowest's |
| RecomputeFigures.NodeLineReads | src/modules/pricing/price.node.ts:216-240 | Each line item after the price node is priced by rule where it can be, otherwise untouched |
| RecomputeAgain.RecomputeTwiceIsOnce | src/modules/pricing/quote-recompute.service.ts:50-158 | Without a stale override a second recompute leaves prices, lead times, flags and quote contents as they are |
| RecomputeAgain.RecomputeIsIdempotentIff | src/modules/pricing/quote-recompute.service.ts:50-158 | For every list of lines and every quote: recompute is idempotent if and only if it refuses, or every line flagged as overridden but without a price is priced under rules to an amount its rounded unit price reproduces and listing these lines among the overridden ones reads the same wherever positions are shared |
| RecomputeAgain.UntiedLinesReadTheSame | src/modules/pricing/quote-recompute.service.ts:115-117 | The last condition always holds where no such line shares its position with another priceable line |
| RecomputeAgain.ZeroQuantityLosesTheManualPrice | src/modules/requests/actions/line-item-remap.actions.ts:79-151 | How that state arises: a PATCH to quantity zero clears the manual price and keeps its flag, so the PATCH back is priced from the rules |
| RecomputeAgain.PriceBeforeMatchIsLost | src/modules/requests/actions/line-item-remap.actions.ts:79-151 | And again: a manual price on a line without a SKU is cleared at once, and matching the line prices it from the rules |
| Recompute.RecomputedTotal | src/modules/pricing/quote-recompute.service.ts:115-121 | The stored total is the rule-priced total plus the rounded override amounts, and the discount is the rest of the subtotal |
| Recompute.QuoteFollowsTheLines | src/modules/pricing/quote-recompute.service.ts:115-117 | With distinct positions the merged and sorted quote lists the priceable lines in line order, each at its own price |
| RecomputeAgain.WritersAgreeWithoutOverrides | src/modules/pricing/price.node.ts:67-135 | With no overridden line the recompute leaves the same priceable lines as the price node, and the same quote if and only if no priceable line is in another currency or there was no quote |
| RecomputeAgain.NodeTwiceIsOnce | src/modules/pricing/price.node.ts:67-135 | A second run of the price node changes nothing in lines or quote contents |
| PolicyGate.GetRuleSetForOrg | src/modules/policy/policy-rule.model-action.ts:32-59 | The loop over active rules yields the highest floor and the lowest cap, none exactly when no such rule parses |
| PolicyGate.Evaluate | src/modules/policy/quote-policy.service.ts:23-80 | The loop returns the specified evaluation: breaches in line order, each flagged line once, or fail closed with every line flagged when there is no threshold at all |
| PolicyGate.CollapsedThresholdsAreExact | src/modules/policy/policy-rule.model-action.ts:38-58 | A line breaches the collapsed threshold if and only if it breaches at least one individual active rule of that kind |
| PolicyGate.GateFlagsExactlyForbiddenLines | src/modules/policy/quote-policy.service.ts:24-80 | The gate flags a line if and only if at least one individual active rule forbids it or no active rule sets a threshold, for any order and duplication of rules, including a non-positive price |
| PolicyGate.ReportsExactlyForbiddenLines | src/modules/policy/quote-policy.service.ts:34-79 | A breach of a kind is reported for a line if and only if some active rule of that kind forbids it |
| PolicyGate.GateInPrices | src/modules/policy/quote-policy.service.ts:24-79 | In prices and rules alone: a line is flagged if and only if unit * (100 - floor) < 100 * cost for some active floor (a non-positive price with a positive cost counts), or 100 * (base - unit) > cap * base for some active cap, or no active rule sets a threshold |
| PolicyGate.EvaluationTellsTheFigures | src/modules/policy/quote-policy.service.ts:34-79 | Every breach names one of the lines, the collapsed threshold of its kind and that line's percentage to a tenth, and every line that crosses a collapsed threshold in prices has such a breach |
| PolicyGate.BreachedIffFlagged | src/modules/policy/quote-policy.service.ts:23-80 | The gate reports itself breached if and only if it flags a line, and failing closed, then without breaches, if and only if no active rule sets a threshold |
| PolicyGate.SeenDiscountIsNear | src/modules/policy/quote-policy.service.ts:36-39 | The discount the gate sees on a line priced with a d% break differs from d by at most 50/base percent |
| PolicyGate.BreakWithinCapPasses | src/modules/policy/quote-policy.service.ts:36-47 | No cap of at least d + 50/base percent ever reports a line priced with a d% break |
| PolicyGate.BreakAtCapBreachesIffRoundedDown | src/modules/policy/quote-policy.service.ts:39 | A cap of exactly d% reports the line if and only if rounding took its unit price down |
| PolicyGate.TenPercentOffSixteenIsReported | src/modules/policy/quote-policy.service.ts:36-47 | Such a line: 10% off 16 cents is sold at 14 and flagged against a cap of 10% |
| PolicyFlags.LineTable.FlagsByLine | src/modules/policy/policy.node.ts:81-100 | The in-memory sets: own flags without the managed ones, plus this run's findings, in insertion order |
| PolicyFlags.LineTable.PersistFlags | src/modules/policy/policy.node.ts:81-111 | Writes exactly the lines whose flags change and counts the writes |
| PolicyFlags.SameFlagsIsExact | src/modules/policy/policy.node.ts:154-159 | The skip test passes if and only if the old list has no duplicates and the same elements |
| PolicyFlags.ReconciledFlagsAreExact | src/modules/policy/policy.node.ts:81-111 | Written or skipped, a line ends with exactly its unmanaged flags plus the earned ones, each once |
| PolicyFlags.FlagsNameTheFinding | src/modules/policy/policy.node.ts:81-111 | A line ends with policy_blocked, margin_floor_breach or max_discount_breach if and only if the gate failed closed on it or reported that breach for it; every other flag is as before |
| PolicyFlags.SecondRunWritesNothing | src/modules/policy/policy.node.ts:102-110 | A second run with the same findings writes no line |
| QuoteLifecycle.QuoteModelAction.ReplaceForRequest | src/modules/quotes/quote.model-action.ts:58-104 | Refuses a non-euro quote; otherwise the request has exactly the new draft and its lines |
| QuoteLifecycle.QuoteModelAction.DeleteForRequest | src/modules/quotes/quote.model-action.ts:111-126 | Removes the request's quotes and their lines and nothing else |
| QuoteLifecycle.QuoteModelAction.TryClaimForApproval | src/modules/quotes/quote.model-action.ts:153-159 | Compare-and-set from DRAFT to APPROVED; true exactly when the row changed |
| QuoteLifecycle.QuoteModelAction.TryMarkReady | src/modules/quotes/quote.model-action.ts:166-172 | Compare-and-set from APPROVED to READY with the PDF |
| QuoteLifecycle.QuoteModelAction.TryStartDelivery | src/modules/quotes/quote.model-action.ts:175-186 | Compare-and-set of the delivery start on the tenant's READY quote |
| QuoteLifecycle.QuoteModelAction.TryMarkSent | src/modules/quotes/quote.model-action.ts:189-206 | Compare-and-set from READY to SENT |
| QuoteLifecycle.QuoteModelAction.RevertToDraft | src/modules/quotes/quote.model-action.ts:213-218 | Compare-and-set from APPROVED back to DRAFT |
| QuoteLifecycle.AlwaysConsistent | src/modules/quotes/quote.model-action.ts:58-218 | After any sequence of operations a quote has a PDF exactly when READY or SENT, a request has at most one quote and no line is orphaned |
| QuoteLifecycle.GoneForGood | src/modules/quotes/quote.model-action.ts:58-126 | A deleted or replaced quote never comes back |
| QuoteLifecycle.ClaimsAreSeparatedByARevert | src/modules/quotes/quote.model-action.ts:153-159 | Between two successful claims of a quote lies a revert that took effect |
| QuoteLifecycle.SentIsFrozen | src/modules/quotes/quote.model-action.ts:189-206 | Nothing in a SENT quote changes as long as its row exists |
| QuoteLifecycle.DeliveredAtMostOnce | src/modules/quotes/quote.model-action.ts:175-206 | Starting delivery succeeds at most once per quote, and so does sending |
| QuoteHistory.StoredWasCreated | src/modules/quotes/quote.model-action.ts:58-126 | After any sequence of operations every stored quote was created by one replacement, has its tenant, figures and, in order, its lines, and nothing has deleted or replaced it since |
| QuoteHistory.CreatedIsStored | src/modules/quotes/quote.model-action.ts:58-126 | Conversely a quote that nothing has deleted or replaced is stored with the figures and lines of its input |
| QuoteHistory.OneQuoteAfterReplacing | src/modules/quotes/quote.model-action.ts:58-126 | A replacement leaves the request exactly the new quote, a deletion none |
| QuoteHistory.RowTellsItsHistory | src/modules/quotes/quote.model-action.ts:153-218 | After any sequence of operations a quote is a draft without approver exactly when no claim stands, else names the one claimer whose claim does; its PDF, delivery start and recipient are exactly those of the updates that took effect, by its tenant |
| QuoteHistory.UpdateSucceedsIff | src/modules/quotes/quote.model-action.ts:153-218 | An update takes effect if and only if those before it allow it: a claim when none stands, readiness once on a standing claim, a delivery start once between readiness and sending, sending once after readiness, a revert on a standing claim before readiness; starting and sending by the tenant alone |
| Remap.RemapClient.OnMutate | client/src/api/lineItems.ts:155-165 | Takes the next sequence number of the request and writes the estimate, if there is one |
| Remap.RemapClient.OnError | client/src/api/lineItems.ts:166-171 | Restores the snapshot only for the latest re-map |
| Remap.RemapClient.OnSuccess | client/src/api/lineItems.ts:172-179 | Writes the answered totals only for the latest re-map |
| Remap.EstimateMovesByTheLine | client/src/api/lineItems.ts:90-117 | With total = subtotal - discount the estimate moves the total by exactly new minus old line amount and keeps that equation |
| Remap.EstimatedLine | client/src/api/lineItems.ts:90-100 | The estimated line is the first quote line at the position of the first item of that id; nothing is estimated exactly when there is none |
| Remap.EstimateTouchesOneLine | client/src/api/lineItems.ts:102-117 | Items, discount, lead time, quantities and every quote line at another position stay |
| Remap.AnswerChangesTheTotals | client/src/api/lineItems.ts:120-131 | An answer sets the four totals of a quote that is there and changes nothing else |
| Remap.SupersededAnswersAreIgnored | client/src/api/lineItems.ts:150-179 | Over any order of issues, answers and failures, an answer of any but the latest-issued re-map of its request changes nothing |
| Remap.OtherRequestsUntouched | client/src/api/lineItems.ts:145-186 | No operation touches another request's cache entry or sequence number |
| Remap.LatestAnswerStays | client/src/api/lineItems.ts:145-179 | Once the latest re-map succeeds, the shown totals are its response until the request is re-mapped again or refetched |
| Remap.FailureRollsBack | client/src/api/lineItems.ts:166-171 | The simplest case: a re-map that fails before anything else happens leaves the cache as before it was issued |
| RemapRollback.FailureRestoresTheSnapshot | client/src/api/lineItems.ts:155-171 | On every run a failure of the latest re-map of a request restores exactly the snapshot taken at its issue |
| RemapRollback.RollbackIsToTheConfirmedDetailIff | client/src/api/lineItems.ts:155-184 | On every run: after that failure the request shows the detail last confirmed or refetched if and only if the snapshot was empty or what the estimates standing at its issue showed is that detail |
| RemapRollback.RollsBackIffNothingStood | client/src/api/lineItems.ts:155-184 | When answers arrive once and no refetch of the request lands between a re-map and its failure: exactly if the estimates standing at its issue change nothing, so always when none stood |
| RemapRollback.HistoryReadsTheCache | client/src/api/lineItems.ts:145-186 | On every run the cached detail is the base detail with the standing estimates shown on top, in order |
| Remap.OverlappingFailuresRollBackIff | client/src/api/lineItems.ts:155-171 | Two overlapping failures leave the cache as it was if and only if the first estimate showed nothing |
| VerticalPricing.LowestOrderWins | src/modules/pricing/caixilharia-pricing.engine.ts:403-427 | Of the active rules of the vertical that offer a configuration of the type, one with the lowest sort order is used; none only if none offers |
| VerticalPricing.ActiveRulesOfPermutation | src/modules/pricing/caixilharia-pricing.engine.ts:122-124 | With distinct sort orders the rule list is the same for every storage order |
| VerticalPricing.LookupsOfPermutation | src/modules/pricing/caixilharia-pricing.engine.ts:125-127 | With unique codes and ids both catalog lookups are the same for every storage order |
| VerticalPricing.EuroRow | src/modules/pricing/caixilharia-pricing.engine.ts:377-384 | If the currency check passes, the active row behind every line with a SKU is in euros |
| VerticalPricing.SlowestSkuDecides | src/modules/pricing/caixilharia-pricing.engine.ts:385-395 | The lead time is the largest of the known ones, none exactly when no SKU has one |
| VerticalPricing.Sheet.Push | src/modules/pricing/caixilharia-pricing.engine.ts:130 | Pushing a line gives it the next position |
| VerticalPricing.Sheet.RequireSku | src/modules/pricing/caixilharia-pricing.engine.ts:443-451 | An unknown or inactive code is recorded as missing, once per lookup |
| Caixilharia.PriceOpening | src/modules/pricing/caixilharia-pricing.engine.ts:176-281 | One opening: report unknown measures and type; profile, glass, hardware, blind and screen lines or what is missing for them |
| Caixilharia.PriceOpenings | src/modules/pricing/caixilharia-pricing.engine.ts:173-281 | The loop over the openings with the running area and count |
| Caixilharia.PriceCaixilhariaQuote | src/modules/pricing/caixilharia-pricing.engine.ts:116-401 | The engine returns exactly the specified quote |
| CaixilhariaFigures.BookComesFromTheRules | src/modules/pricing/caixilharia-pricing.engine.ts:132-157 | Profile, glass, hardware, blind, screen and minimum area each come from a stored active rule of the vertical and of their own type, of lowest sort order, and are absent only if none offers them |
| CaixilhariaFigures.WorkComesFromTheRules | src/modules/pricing/caixilharia-pricing.engine.ts:158-343 | And so do labour, removal, transport, margin, discount and tax |
| CaixilhariaFigures.TotalsAreDue | src/modules/pricing/caixilharia-pricing.engine.ts:360-395 | On the returned quote: the discount is, to half a cent, the percentage of the largest threshold the total area exceeds of the subtotal; the tax is 100 times the given rate, else the rule's percentage, else nothing, of subtotal less discount; the total is their sum; the lead time is that of the slowest product on the lines |
| CaixilhariaFigures.SubtotalIsDue | src/modules/pricing/caixilharia-pricing.engine.ts:335-375 | The lines are those before the margin, the margin (its percentage of them, to half a cent) and the tax line (the returned tax); the subtotal is the sum of the first two |
| CaixilhariaFigures.BillableIsTheLarger | src/modules/pricing/caixilharia-pricing.engine.ts:188-190 | What is billed for an opening is the larger of its area and the minimum, times its quantity, to four decimals |
| CaixilhariaFigures.EveryOpeningIsBilled | src/modules/pricing/caixilharia-pricing.engine.ts:176-281 | In an unblocked quote each opening has lines of its own, one after the other: the profile its preference selects at the multiplier of its type, the glass its preference selects, hardware of its type unless fixed, blind and screen exactly where asked for, each by area or by piece at the catalog price |
| CaixilhariaFigures.WorkIsBilled | src/modules/pricing/caixilharia-pricing.engine.ts:283-333 | An unblocked quote lists openings, labour per opening, removal and transport beyond the included kilometres exactly as asked for, margin and tax, in this order |
| CaixilhariaBlocks.UnblockedIff | src/modules/pricing/caixilharia-pricing.engine.ts:165-400 | A quote is unblocked if and only if every role has its rule, each opening has both measures, a known type with a multiplier and stocked products, the requested work has rules and products, and all products are in euros |
| CaixilhariaBlocks.MissingIsNamed | src/modules/pricing/caixilharia-pricing.engine.ts:165-346 | Every role without a rule is among the reported names |
| CaixilhariaBlocks.CurrencyIsNamed | src/modules/pricing/caixilharia-pricing.engine.ts:377-384 | So are a second currency among the products on the lines, and one that is not the euro |
| CaixilhariaQuotes.TotalAreaIsExact | src/modules/pricing/caixilharia-pricing.engine.ts:188-192 | Rounding the running total at each opening loses nothing: it is the exact sum of rounded areas times integer quantities |
| CaixilhariaQuotes.BillableIsAtLeastTheArea | src/modules/pricing/caixilharia-pricing.engine.ts:188-190 | No opening is billed below its rounded area times its quantity |
| CaixilhariaQuotes.AreaLineIsNearExact | src/modules/pricing/caixilharia-pricing.engine.ts:453-471 | An area-priced amount is within half a cent plus half a cent per square metre of the exact product |
| CaixilhariaQuotes.FirstMatchingSelection | src/modules/pricing/caixilharia-pricing.engine.ts:429-441 | A preference selects the first selection with a matching keyword |
| CaixilhariaQuotes.UnblockedMeansNothingMissing | src/modules/pricing/caixilharia-pricing.engine.ts:335-401 | A quote is unblocked if and only if no step reported anything missing |
| CaixilhariaQuotes.LinesAddUp | src/modules/pricing/caixilharia-pricing.engine.ts:335-400 | Positions are 1..n; the lines including tax sum to total + discount if and only if tax has a line or is zero, hence for every unblocked quote |
| CaixilhariaDiscount.DiscountOfTheLargestThreshold | src/modules/pricing/caixilharia-pricing.engine.ts:361-365 | The percentage is that of the largest threshold strictly exceeded, zero when none is |
| CaixilhariaDiscount.SearchFindsTheLargest | src/modules/pricing/caixilharia-pricing.engine.ts:361-365 | Sorting descending and taking the first exceeded threshold equals the reference search, ties included |
| CaixilhariaDiscount.DiscountExceedsTheSubtotalIff | src/modules/pricing/caixilharia-pricing.engine.ts:312-367 | 0 <= discount <= rounded subtotal; the discount exceeds the subtotal if and only if what the percentage leaves over is at most the fraction of the transport cost less half a cent |
| CaixilhariaDiscount.DiscountStaysWithinWithoutHalfACent | src/modules/pricing/caixilharia-pricing.engine.ts:312-367 | From the request and the rules alone: if the transport cost has a fraction below half a cent the discount stays within the subtotal |
| CaixilhariaDiscount.WholeKilometresHaveNoHalfCent | src/modules/pricing/caixilharia-pricing.engine.ts:312-330 | So it does without a distance and for whole kilometres beyond whole included ones |
| CaixilhariaDiscount.FullDiscountExceedsIffHalfACent | src/modules/pricing/caixilharia-pricing.engine.ts:312-367 | Under a 100% discount it exceeds the subtotal if and only if that fraction is at least half a cent |
| CaixilhariaDiscount.HalfAKilometreIsOverDiscounted | src/modules/pricing/caixilharia-pricing.engine.ts:312-367 | Such a quote from stored rule rows: one window, half a kilometre at one cent, everything else free and fully discounted, is not blocked and its discount exceeds its subtotal |
| CaixilhariaQuotes.LinesAreSound | src/modules/pricing/caixilharia-pricing.engine.ts:443-489 | No line before tax is negative, and every SKU on a line is an active catalog row |
| CaixilhariaQuotes.PricedInEuros | src/modules/pricing/caixilharia-pricing.engine.ts:377-384 | In an unblocked quote every SKU on a line is an active row in euros |
| CaixilhariaQuotes.UnblockedBillsEveryOpening | src/modules/pricing/caixilharia-pricing.engine.ts:176-281 | An unblocked quote bills exactly profile, glass and requested blinds of every opening at the billable area, exactly the hardware and requested screens, and at least twice the total area of material |
| CaixilhariaQuotes.QuoteIgnoresRowOrder | src/modules/pricing/caixilharia-pricing.engine.ts:122-127 | With distinct sort orders and unique SKU ids and codes the quote is the same for every permutation of rules and catalog |
| Avac.CountValues | src/modules/pricing/avac-pricing.engine.ts:292-296 | The loop yields each distinct value in order of first occurrence with its number of occurrences |
| Avac.PriceIndoor | src/modules/pricing/avac-pricing.engine.ts:121-149 | One line per distinct selected code, with its count, or the code as missing |
| Avac.PriceAllowance | src/modules/pricing/avac-pricing.engine.ts:168-186 | A line for the measured excess over the allowance, rounded; none for an unknown measure or no excess |
| Avac.PriceConditionals | src/modules/pricing/avac-pricing.engine.ts:188-199 | A line for each surcharge whose condition matches a known value |
| Avac.PriceAdders | src/modules/pricing/avac-pricing.engine.ts:201-209 | A line for each adder whose electrical-panel condition equals the stated fact |
| Avac.PriceAvacQuote | src/modules/pricing/avac-pricing.engine.ts:83-275 | The engine returns exactly the specified quote |
| AvacFigures.BookComesFromTheRules | src/modules/pricing/avac-pricing.engine.ts:89-110 | Indoor and outdoor selection, labour, margin and tax each come from a stored active rule of the vertical and of their own type, of lowest sort order, and are absent only if none offers them |
| AvacFigures.TotalsAreDue | src/modules/pricing/avac-pricing.engine.ts:244-270 | On the returned quote: no discount; the tax is, to half a cent, 100 times the given rate, else the rule's percentage, else nothing, of the subtotal; the total is their sum; the lead time is that of the slowest product on the lines |
| AvacFigures.SubtotalIsDue | src/modules/pricing/avac-pricing.engine.ts:227-252 | The lines are those before the margin, the margin (its percentage of them, to half a cent) and the tax line (the returned tax); the subtotal is the sum of the first two |
| AvacFigures.UnitsAreByRoom | src/modules/pricing/avac-pricing.engine.ts:111-166 | In an unblocked quote every unit has a code by its room's area, each code has one line with the number of its rooms at the catalog price, and one outdoor unit of the rule's SKU follows |
| AvacFigures.WorkIsBilled | src/modules/pricing/avac-pricing.engine.ts:168-252 | An unblocked quote lists units, added lines, labour (the hours of the unit count at the rate), margin and tax, in this order; the added lines are, one each and in order, those of the active allowances whose measure exceeds what is included, of the surcharges whose condition the facts meet, and of the adders whose panel condition they meet, each for its own amount |
| AvacBlocks.UnblockedIff | src/modules/pricing/avac-pricing.engine.ts:111-273 | A quote is unblocked if and only if there is a unit to serve, every rule, a capacity for the count, a stocked product for every room and outside, labour hours for the count, and all products are in euros |
| AvacBlocks.MissingIsNamed | src/modules/pricing/avac-pricing.engine.ts:114-231 | Every missing rule, count, capacity and labour entry is among the reported names |
| AvacQuotes.FirstFittingCovers | src/modules/pricing/avac-pricing.engine.ts:125-131 | A room gets the first selection without a limit or with one its area does not exceed |
| AvacQuotes.CountsCoverEveryUnit | src/modules/pricing/avac-pricing.engine.ts:133-148 | The counts over the grouping map add up to the number of selected units |
| AvacQuotes.UnblockedServesEveryUnit | src/modules/pricing/avac-pricing.engine.ts:112-166 | In an unblocked quote the indoor quantities sum to the requested count, exactly one outdoor unit follows, its capacity covers the count, and no other line is equipment |
| AvacQuotes.LinesAddUp | src/modules/pricing/avac-pricing.engine.ts:227-274 | Positions are 1..n; the lines sum to the total if and only if tax has a line or is zero, hence for every unblocked quote |
| AvacQuotes.LinesAreSound | src/modules/pricing/avac-pricing.engine.ts:133-225 | No line before tax is negative, so neither is the subtotal, and every SKU on a line is an active catalog row |
| AvacQuotes.PricedInEuros | src/modules/pricing/avac-pricing.engine.ts:254-259 | In an unblocked quote every SKU on a line is an active row in euros |
| AvacQuotes.QuoteIgnoresRowOrder | src/modules/pricing/avac-pricing.engine.ts:89-94 | With distinct sort orders and unique SKU ids and codes the quote is the same for every permutation of rules and catalog |
| CatalogImport.CatalogImportService.Import | src/modules/catalog/catalog-import.service.ts:68-130 | created + updated + rejected = rows; rejected rows are reported by sheet row in order; created is the growth of the table; embeddings are counted by outcome; the table is the specified fold |
| CatalogImport.LastValidRowWins | src/modules/catalog/catalog-import.service.ts:105-119 | After an import a code holds the last valid row that names it under the id it had; other codes and other tenants are untouched |
| CatalogImport.ImportTwiceIsImportOnce | src/modules/catalog/catalog-import.service.ts:105-119 | Importing the same sheet again changes nothing |
| CatalogImport.EurosRoundTrip | src/modules/catalog/catalog-import.service.ts:285-296 | The conversion inverts printing with either decimal separator for every safe amount and refuses every larger one |
| CatalogImport.WholeEurosRoundTrip | src/modules/catalog/catalog-import.service.ts:276-296 | Whole euros without decimals, and whole cents, are read exactly |
| CatalogImport.PriceIsByItsColumnIff | src/modules/catalog/catalog-import.service.ts:220-224 | A price is parsed by the rule of the column it is taken from if and only if the cent cell is not empty in a sheet that has the column, or the euro cell holds zero or a whole number beyond the safe range |
| CatalogImport.RulesAgreeIff | src/modules/catalog/catalog-import.service.ts:276-296 | The rules for cents and for euros agree on exactly those cells |
| CatalogImport.EmptyCentCellReadsEurosAsCents | src/modules/catalog/catalog-import.service.ts:220-224 | What goes wrong otherwise: whole euros count as cents, and euros with decimals are refused as not a whole number |
| CatalogRows.ReadIffSaid | src/modules/catalog/catalog-import.service.ts:217-262 | A row is read as a SKU if and only if it says so: code (upper-cased), name, description, price, cost, lead time and attributes each in its own cell, whatever the space around them, an empty or euro currency, and activity as below |
| CatalogRows.TruthIff | src/modules/catalog/catalog-import.service.ts:298-305 | A cell is read as true or false if and only if it is a truth value, or one of the accepted words in any letter case and spacing, or empty, which is true |
| CatalogRows.EurosIff | src/modules/catalog/catalog-import.service.ts:285-296 | A cell is read as n cents if and only if it holds digits alone or digits, a dot or comma and one or two more, which denote n within the safe range |
| CatalogRows.CostIff | src/modules/catalog/catalog-import.service.ts:225-230 | The cost is that of the cent cell where it is filled, else of the euro cell where that is, else none |
| CatalogRows.LeadTimeIff | src/modules/catalog/catalog-import.service.ts:256-259 | The lead time is the whole number in its cell, none exactly if it is empty |
| CatalogRows.SheetIsStored | src/modules/catalog/catalog-import.service.ts:105-127 | After an import a code holds what the last row that says it says, under the id it had, its embedding pending exactly with a queue |
| CatalogRows.OthersAreKept | src/modules/catalog/catalog-import.service.ts:105-127 | A code that no row says and every row of another tenant is as before |
| CatalogRows.ReportedIffSaysNothing | src/modules/catalog/catalog-import.service.ts:91-103 | A row is reported, once and under its number in the sheet, if and only if it says no SKU |
| CatalogRows.ImportKeepsIdsUnique | src/modules/catalog/catalog-import.service.ts:105-119 | However an import mixes new and known codes, no two rows share an id |

## Left out

- QuotingPipeline.QuotingIsRecoverable: files, the model, the search tool, the catalog, the rules and the classifier answer a repeated question the same way; the ids of new lines are a function of their index; latency and routing reasons are not stored.
- PricedRequests.PricedHasAQuoteIff: the AVAC and window quotes enter as a function of the stored answer, which is what their engines compute.
- ExtractNode.ExtractIsRerunnable: the model answers the same question the same way.
- MatchNode.MatchIsRerunnable: the search tool answers a query the same way on both runs.
- RecomputeAgain.RecomputeTwiceIsOnce: quote ids are regenerated on every run, so idempotence is about contents.
- Breaker.InvariantHolds: a lapse of the state key is excluded here; for the lock the exact condition is Breaker.LockMeansHalfOpenIff; a null answer of INCR and other Redis faults are not modelled.
- Remap.LatestAnswerStays: `onMutate` is one atomic step, so the await on cancelled queries is not interleaved, and line contents after a success come from the refetch.
- QuoteLifecycle.AlwaysConsistent: two replacements of one request are serialised by their transactions; email drafts and reads are not modelled.
- Caixilharia.PriceCaixilhariaQuote: the percentage text inside the margin and tax descriptions is not modelled; accent and case folding of keywords is the abstract match.
- Avac.PriceAvacQuote: as above for descriptions; the keys of the labour table are numbers instead of their decimal text.
- CatalogImport.CatalogImportService.Import: reading CSV and XLSX files, header aliases and the advisory lock are not modelled, and error texts are error kinds.
- Bull's deduplication and retention, the recovery sweep that decides when to restart, and the timing wheel.
- Event payloads beyond name, node and outcome; logging, tracing and metrics.
- IEEE rounding of intermediate results, NaN and infinite inputs, and case conversion beyond Latin-1 (nor of its letters whose capital is not there or not a single one).
- Controllers, guards, schemas, migrations, row-level security, analytics, pagination and the user interface: no property spans them.
