# A verified model of the liquidity, calldata, ledger and decision core

This project models, in Dafny, the parts of the prediction-market backend whose correctness is hard to read off
the code, and proves what they promise over all inputs, all runs or all reachable states.

- **Bootstrap market maker** (`app/src/api/evm.rs`). `Planner` turns a seed, a reference price and a measured
  inventory skew into a two-sided ladder of bids in integer basis points; `PlannerProperties` proves the YES/NO
  relabelling symmetry, the inventory response and the price order. `OrderBook` aggregates quotes into level maps
  and shows them as outcome views; `SyntheticBook` puts the ladder into such a book and proves that it conserves the
  seed and is never crossed. `Reconciler` is the tick and report of the runner over the market rows and slot
  records, `ReconcilerProperties` its convergence, shutdown, funding safety, administrators' pauses and dwell time
  over whole runs, `ReconcilerSymmetry` the relabelling of all it works out, and `FleetProperties` what one pass commits
  for a creator and what is live after convergence. `Graduation` is the refresh that opens a market's turn, and its 24
  hour dwell time; `Lifecycle` names the states of a market.
- **Solidity ABI codec** (`app/src/api/evm.rs`). `Hex`, `Decimal` and `Utf8` are the text layers, `Abi` the word,
  string and array encoders and decoders, `AbiCalldata` the round trips of four contract calls, `Feedback` the
  signed 128-bit words and the seven-array feedback batch. The format is that of the Solidity Contract ABI
  Specification, section "Formal Specification of the Encoding".
- **Distribution-market ledger** (`app/src/api/distribution.rs`). `Distribution` holds the handlers as steps on one
  market, `DistributionPayout` the payout formula (`app/src/services/distribution.rs`), `DistributionScheduler` the
  automatic resolution (`app/src/services/distribution_scheduler.rs`), and `DistributionProperties` the water-filling of
  the payout loop and conservation over whole runs.
- **Decision cells** (`app/src/api/decisions.rs`). `Recommendation` scores actions from node probabilities, `Alerts`
  persists a recalculation and fires edge-triggered alerts, `Automation` rate-limits what a pass may trigger.
- **Alias expansion** (`cli/src/runtime.rs`). `ShellQuote` proves that quoting is undone by a lexer with the quoting
  rules of section 2.2 of the POSIX Shell Command Language.

`Numbers`, `Sums` and `Options` are shared. Where the source updates state step by step (`LevelMap`, `Runner`,
`DistributionMarket`, `Cell`, `EventLog`, and the loops that push rungs, words, rows, scores and events) the model
has a class or a method with a loop, proved equal to a specification function; the theorems are about those
functions and about runs of them.

Everything from the outside is an argument of the step that reads it: the chain's balances, approvals, positions
and cooldowns, resolved market prices, the pricing formulas, agent executions, the clocks. Handlers are atomic
steps. Money and ratios that the source keeps in floating point are reals or exact integers.

Places where the code and its comments disagree, or where the code does less than its names promise; the model
follows the code:

- The "half-step" for moderate volatility is commented as a widening but multiplies by 7500/10000, so volatility
  narrows the quotes in exactly the band from 500 to 999 basis points (`app/src/api/evm.rs:1878-1880`,
  `Planner.VolatilityNarrowsExactly`). The paths that plan a ladder cannot reach the band, because line 1825 always
  passes an empty list of fill prices, which the estimator takes for no volatility (`Planner.FillPricesNarrowExactly`,
  `Planner.PlannedSpreadIsNotNarrowed`).
- A node is said to lose half its weight after 6 hours and three quarters after 24; whole hours are counted and
  compared strictly, so the steps are at 7 and 25 hours (`Recommendation.StalenessSteps`). The age is measured from
  the last write to the node, and every recalculation of its cell writes to it, so what goes stale is an idle cell and
  not a node whose market data is old (`Recommendation.WeightReducedIffIdle`).
- `max_triggers_per_day` limits passes, not triggers: one pass can fire several attachments
  (`Automation.DailyLimits`, `Automation.LimitIsReached`).
- An active alert stays silent exactly while every entry into its tripped side comes from a missing value or from
  that side itself, so a node's crossing is lost when the node has no value in between
  (`Alerts.SilentIffEntersUnseen`, `Alerts.CrossingThroughMissingIsLost`).
- `decode_int128_word` ignores the upper half of the word, although its comment speaks of sign extension
  (`app/src/api/evm.rs:8686-8696`): it accepts every lower-case word, and the number it yields encodes back to the
  word exactly when the upper half is the sign extension (`Feedback.DecodedWordIsCanonicalIff`,
  `Feedback.WrongUpperHalfIsAccepted`).
- Each market of a creator is compared with the same vault balance, so the writes of one pass can overdraw it
  (`FleetProperties.PassWrites`, `FleetProperties.PassOverdrawsIff`, `FleetProperties.TwoFreshMarketsOverdraw`).
- Records outside a shrunken ladder stay live, so after convergence the live total can exceed the seed
  (`ReconcilerProperties.RoundsKeepUnwanted`, `FleetProperties.LiveAfterRoundsIff`,
  `FleetProperties.BackfillExceedsSeed`).
- An administrator's pause is lifted by a third failed report, and the success of a withdrawal then lets the market
  quote again (`ReconcilerProperties.HoldLiftedExactly`, `ReconcilerProperties.FailuresLiftHold`).
- Registration does not look for an existing row. Registering a market again overwrites its creator, seed, initial
  price, ladder and status, clears the failures and the reason of a pause, and so also lifts an administrator's pause;
  only the instant from which its depth qualified is kept (`app/src/api/evm.rs:3550-3637`,
  `app/src/services/database.rs:1786-1906`, `ReconcilerProperties.HoldLiftedExactly`).
- A person's resolution guards its payout loop against gross payouts that are negative or not finite, which it fears
  from degenerate density ratios; the automatic one does not. The formula yields no such payout, whatever its densities
  (`DistributionPayout.PayoutBounds`), so both resolve alike (`DistributionProperties.FeedResolvesAsManual`). For
  another formula the loop without the guard would not keep the pool cap (`DistributionScheduler.CapKeptIff`).
- The oracle configuration call pads the feed address with spaces, because a zero flag has no effect on text
  (`app/src/api/evm.rs:7504-7533`, `Feedback.OracleAddressWordIsHex`).
- Quoted arguments reach an alias's command unchanged only if the alias ends outside quotes, escapes and comments
  (`ShellQuote.AppendsIffClean`). After a trailing backslash the first one is glued to the alias's last word
  (`ShellQuote.EscapeGlues`), and after an open quote the line is invalid unless an argument closes it
  (`ShellQuote.OpenQuoteFails`, `ShellQuote.QuotedArgumentClosesQuote`, and in full `ShellQuote.AppendedExact`).

To check the project, run `dafny verify dfyconfig.toml`.

## Model

| member | source | states |
|---|---|---|
| Planner.LadderAgents | app/src/api/evm.rs:1698-1769 | The level loop yields the specified ladder: reference price moved against the skew, spread extra on the crowded side and half of it taken off the other, budgets split and scaled. |
| Planner.LadderSlots | app/src/api/evm.rs:1698-1769 | There is exactly one rung per side and level, at the place its slot determines. |
| Planner.TransferRange | app/src/api/evm.rs:1623-1633 | At most the whole half budget moves between the sides, and all of it exactly when the skew is at the cap. |
| Planner.AdversityWidens | app/src/api/evm.rs:1847-1899 | Without volatility, more adverse signals never narrow the quotes nor enlarge them, within the documented bounds. |
| Planner.VolatilityNarrowsExactly | app/src/api/evm.rs:1847-1884 | Volatility narrows the quotes, against none, if and only if it is moderate, whatever the other signals. |
| Planner.FillPricesNarrowExactly | app/src/api/evm.rs:1801-1845 | Against none, fill prices narrow the spread if and only if there are two or more, all positive, whose estimate lies in that band, for every estimator of the ratio of the highest to the lowest. |
| Planner.PlannedSpreadIsNotNarrowed | app/src/api/evm.rs:1801-1845 | On the empty list of fill prices that is passed where a ladder is planned, whatever the estimator, the signals are the planner's and the spread is not narrowed. |
| PlannerProperties.RelabelSkew | app/src/api/evm.rs:2416-2434 | Exchanging the position's shares negates the measured skew. |
| PlannerProperties.RelabelLadder | app/src/api/evm.rs:1614-1769 | Complementing the initial price and negating the skew exchanges the two sides of the ladder rung by rung in price, size and timing. |
| ReconcilerSymmetry.RelabelInputs | app/src/api/evm.rs:1996-2022 | The same end to end: renaming the outcomes in the initial price, the stored skew, the position, the flow and the organic books negates the measured skew, exchanges the sides of the desired ladder and changes nothing else a tick works out. |
| ReconcilerSymmetry.RelabelSettled | app/src/api/evm.rs:2416-2434 | The same between the rows a tick leaves, whose skew it measured: only the initial price and what is observed are renamed. |
| SyntheticBook.RelabelDepth | app/src/api/evm.rs:1996-2022 | Renaming the outcomes, with the organic books exchanged, leaves the organic and the bootstrap depth unchanged. |
| PlannerProperties.InventoryResponse | app/src/api/evm.rs:1614-1769 | As the skew rises no YES rung rises in price or size and no NO rung falls in either. |
| PlannerProperties.SkewAtCap | app/src/api/evm.rs:2416-2434 | The measured skew is at the cap exactly when an unclaimed net YES holding has reached a positive cap notional. |
| PlannerProperties.CrowdedSideIsEmpty | app/src/api/evm.rs:1623-1646 | At the cap every rung of the crowded side has size 0. |
| PlannerProperties.NeverCrossed | app/src/api/evm.rs:1688-1769 | A YES and a NO rung together cost at most 9999 basis points, for every configuration, skew and multiplier. |
| PlannerProperties.PricesFallWithLevel | app/src/api/evm.rs:1698-1769 | Within a side a deeper level never quotes a higher price. |
| PlannerProperties.NeutralLadder | app/src/api/evm.rs:1698-1769 | Without skew both sides quote around the initial price at base spread plus level times step, on half the seed each. |
| PlannerProperties.LadderAtCap | app/src/api/evm.rs:1614-1769 | With the YES position at its cap the reference moves by a ladder's reach, YES quotes widen by it, NO quotes tighten by half of it, and NO holds the whole seed. |
| OrderBook.LevelMap.Insert | app/src/api/evm.rs:1554-1562 | Inserting saturates quantity and count at the price and ignores empty or off-grid quotes. |
| OrderBook.LevelMap.Merge | app/src/api/evm.rs:1564-1573 | Merging adds the source's levels one by one, in any order, to the pointwise saturated sum. |
| OrderBook.BuildExact | app/src/api/evm.rs:1554-1562 | A level exists exactly when an eligible quote is at its price, and holds the saturated exact sum and count of those. |
| OrderBook.BuildPermuted | app/src/api/evm.rs:1554-1562 | The order of insertion does not matter. |
| OrderBook.MergeIsConcat | app/src/api/evm.rs:1564-1573 | Merging two built books is building from the concatenated quotes. |
| OrderBook.SameWindow | app/src/api/evm.rs:5301-5348 | The endpoint's scan visits the same ids as the collector's: the last 150, or all. |
| OrderBook.CollectLevels | app/src/api/evm.rs:2162-2221 | The collector's two maps are built from exactly the live orders of the market in that window. |
| OrderBook.ViewsMirror | app/src/api/evm.rs:1575-1612 | At every depth the NO view is the YES view with bids and asks exchanged and prices complemented. |
| OrderBook.ViewsMirrorIffOnGrid | app/src/api/evm.rs:1591-1612 | The views mirror at all depths if and only if every level lies on the price grid. |
| OrderBook.MergedOnGridIff | app/src/api/evm.rs:1564-1573 | A merged map is on the price grid if and only if both maps are. |
| OrderBook.EndpointViewsMirrorIff | app/src/api/evm.rs:5350-5444 | The endpoint's views of organic, synthetic and externally mirrored quotes mirror each other at every depth if and only if the mirrored quotes are on the grid. |
| OrderBook.EndpointViewsMirror | app/src/services/liquidity_mirror.rs:199-240 | The mirroring service keeps prices from 100 to 9899, so the endpoint's views always mirror each other. |
| SyntheticBook.DepthExact | app/src/api/evm.rs:1984-1994 | The depth near a mid price is the total of the eligible quotes in the window, while it fits in 64 bits. |
| SyntheticBook.SyntheticBookFromAgents | app/src/api/evm.rs:1962-1975 | The synthetic book is built from the ladder's quotes, side by side. |
| SyntheticBook.BudgetLevelsSum | app/src/api/evm.rs:1635-1646 | Splitting a side budget over the levels loses nothing. |
| SyntheticBook.SideBudgetsSum | app/src/api/evm.rs:1623-1633 | The two side budgets sum to the seed or one unit less, and to the seed for whole cents. |
| SyntheticBook.LadderConservesSeed | app/src/api/evm.rs:1694-1769 | Ladder sizes sum to at most the seed and to within 2·levels + 1 units of the scaled seed; at full size to the seed or one less, exactly the seed for whole cents. |
| SyntheticBook.SyntheticBookConserves | app/src/api/evm.rs:1962-1982 | The synthetic book holds exactly the summed sizes of the ladder. |
| SyntheticBook.SyntheticBookNeverCrossed | app/src/api/evm.rs:1977-1982 | In both outcome views of the synthetic book, at every depth, every bid is strictly below every ask. |
| SyntheticBook.CrowdedBookIsEmpty | app/src/api/evm.rs:1962-1975 | Once the net YES holding reaches the cap notional, the synthetic YES side is empty. |
| Reconciler.Runner.UpdateInputs | app/src/api/evm.rs:2655-2686 | The update loop collects exactly the recorded agents that are inactive or off target, in ladder order. |
| Reconciler.Runner.ExecuteReady | app/src/api/evm.rs:4225-4268 | Ready live agents are executed in record order up to the remaining room. |
| Reconciler.Runner.TickMarket | app/src/api/evm.rs:4082-4265 | One market's pass: the assessed row, and shutdown, launch, update or execution in that priority. |
| Reconciler.Runner.Tick | app/src/api/evm.rs:4011-4272 | The pass over the fleet: each market refreshed by the modelled refresh on the books and clock it reads, then assessed and acted on in turn, stopping at the action limit and leaving later rows untouched. |
| Reconciler.Runner.ReportOutcome | app/src/api/evm.rs:4274-4537 | A failure only counts, the third turns the market to error; a success stores each slot and resets the row by kind; a launch receipt of the wrong length is refused. |
| ReconcilerProperties.HoldLiftedExactly | app/src/api/evm.rs:3550-4537 | Exactly which events lift an administrator's pause: a resume, a graduation, another registration, the success of a write other than a withdrawal, and the third failed report. |
| ReconcilerProperties.HeldRunOnlyWithdraws | app/src/api/evm.rs:3550-4537 | In every run without those, order-book reads, skew changes, backfills and refused registrations included, a paused market stays paused and its ticks at most withdraw what is live. |
| ReconcilerProperties.FailuresLiftHold | app/src/api/evm.rs:4312-4350 | A third failure, a successful withdrawal and a tick with healthy inputs make a paused market quote again. |
| ReconcilerProperties.ExecutesExactlyReady | app/src/api/evm.rs:4225-4268 | Exactly the live agents out of cooldown are executed. |
| ReconcilerProperties.NothingLeft | app/src/api/evm.rs:2632-2686 | Nothing to launch and nothing to update is the same as every desired slot live at its price and size. |
| ReconcilerProperties.LaunchFillsSlots | app/src/api/evm.rs:4352-4520 | Reporting a launch successful leaves no desired slot missing. |
| ReconcilerProperties.UpdateConverges | app/src/api/evm.rs:4352-4520 | With all slots live, reporting an update successful puts every desired slot at its target. |
| ReconcilerProperties.RoundProgress | app/src/api/evm.rs:4133-4268 | A round launches exactly when slots are missing, updates exactly when only targets differ, and otherwise only executes; its reports move the market strictly closer. |
| ReconcilerProperties.Convergence | app/src/api/evm.rs:4133-4268 | From any slot records, at most one launch and one update round put every desired slot live at its target under fixed healthy inputs; every later round keeps it so and only executes. |
| ReconcilerProperties.ObservedConvergence | app/src/api/evm.rs:4016-4272 | The same with everything recomputed in every round, the organic depth ratio included: whatever skew is stored at first, two rounds converge to the ladder of the settled row. |
| ReconcilerProperties.RoundsKeepUnwanted | app/src/api/evm.rs:4133-4268 | However many rounds there are, the record of a slot outside the desired ladder keeps its activity, agent, price and size. |
| ReconcilerProperties.ShutdownIsComplete | app/src/api/evm.rs:4133-4160 | Paused, graduated or in error, the one action names exactly the live agents, and its success report leaves none. |
| ReconcilerProperties.TickIsFunded | app/src/api/evm.rs:2528-2686 | Every launch, update or execution is for an approved market below its inventory cap and under three failures, and writes at most the available balance and the seed. |
| ReconcilerProperties.FundingSafety | app/src/api/evm.rs:3550-4272 | That holds for every tick of every run with order-book reads, reports, pauses, resumes, graduations, skew changes, backfills and registrations with another seed in between. |
| ReconcilerProperties.FleetEmitsTickActions | app/src/api/evm.rs:4011-4272 | A pass emits at most its limit, and only what the single markets' ticks prepare. |
| FleetProperties.PassWrites | app/src/api/evm.rs:4011-4272 | What a pass writes for a creator is what the turns of the creator's markets prepare, and less only when the action limit cuts it short. |
| FleetProperties.CreatorBound | app/src/api/evm.rs:4011-4272 | That is at most the shared balance once per market, and at most the markets' seeds together. |
| FleetProperties.TurnWrites | app/src/api/evm.rs:4082-4265 | A turn writes what its missing slots offer or, when none is missing, its outdated ones; nothing when the market may not quote. |
| FleetProperties.PassOverdrawsIff | app/src/api/evm.rs:4011-4272 | From what is known before it, at any limit, a pass overdraws the shared balance if and only if what is missing or outdated in the creator's unskipped markets whose turns come before the limit is used up adds up to more than it; those are all of them when the turns plan fewer actions than the limit. |
| FleetProperties.TwoFreshMarketsOverdraw | app/src/api/evm.rs:4011-4272 | Two registered markets of 50 USDC with one creator and a balance of 50 USDC write 100 USDC in one pass. |
| FleetProperties.LiveWithinSeedIff | app/src/api/evm.rs:2655-2686 | After convergence the live total is the ladder's plus what is live above its top level, and within the seed exactly when the latter fits. |
| FleetProperties.LiveAfterRoundsIff | app/src/api/evm.rs:4016-4272 | Over a run of two or more rounds with everything recomputed, the live total is the settled ladder's plus what was live above it at the start, and within the seed exactly when the latter fits. |
| FleetProperties.BackfillExceedsSeed | app/src/api/evm.rs:3885-4272 | A registered market launched at six levels and backfilled to four converges with more than its seed live, however many rounds there are. |
| ReconcilerProperties.UpsertAllKeepsUnique | app/src/services/database.rs:2083-2130 | Reports keep one record per side and level. |
| Graduation.SinceIsStreakStart | app/src/api/evm.rs:3060-3099 | The stored instant is the start of the longest unbroken streak of qualifying measurements, and absent when there is none. |
| Graduation.DwellTime | app/src/api/evm.rs:3017-3099 | With a monotone clock, the step after any run graduates for organic depth if and only if it measured qualifying depth and some refresh at least 24 hours earlier did too, with every measurement in between qualifying. |
| Graduation.DwellTimeAnyClock | app/src/api/evm.rs:3017-3099 | With any clock such a graduation rests on a qualifying refresh whose time is 24 hours earlier. |
| ReconcilerProperties.RunDwells | app/src/api/evm.rs:3017-5363 | The same for a tick or an order-book read, which refreshes the row too, in any run of the reconciler, with reports, interventions, backfills and registrations in between. |
| Decimal.ParsePrinted | app/src/api/evm.rs:8267-8281 | A printed 128-bit size is parsed back unchanged. |
| Hex.ParseHexWord | app/src/api/evm.rs:7928-7972 | A zero-padded hexadecimal word is parsed back to its number. |
| Hex.FromHexBytesRoundTrip | app/src/api/evm.rs:8028-8040 | Bytes written as hexadecimal text are read back unchanged. |
| Abi.EncodeRowsTail | app/src/api/evm.rs:8103-8145 | The loop writes the row count and six words per row, and fails on the first malformed size. |
| Abi.EncodeU64ArrayTail | app/src/api/evm.rs:8147-8153 | The loop writes the count and one word per number. |
| Abi.StringTailSpelled | app/src/api/evm.rs:8335-8356 | A string tail decodes to its string wherever an offset word points at it. |
| AbiCalldata.CreateMarketRichRoundTrip | app/src/api/evm.rs:8042-8075 | Encoding fails exactly for a malformed resolver; otherwise the arguments are whole words from which the service's own decoder recovers all four texts, the closing time and the resolver. |
| AbiCalldata.CreateAgentsForRoundTrip | app/src/api/evm.rs:8164-8185 | Encoding fails exactly for a malformed address or size; otherwise whole words decode to owner, manager, every row and the strategy. |
| AbiCalldata.UpdateAgentsRoundTrip | app/src/api/evm.rs:8187-8204 | The same for updates. |
| AbiCalldata.DeactivateAgentsRoundTrip | app/src/api/evm.rs:8206-8214 | Whole words decode to the identifiers. |
| Feedback.Int128RoundTrip | app/src/api/evm.rs:8686-8696 | Decoding inverts encoding on every signed 128-bit number. |
| Feedback.DecodedWordIsCanonicalIff | app/src/api/evm.rs:8686-8696 | Every lower-case word decodes, and the number encodes back to the word if and only if the upper half is the sign extension. |
| Feedback.WrongUpperHalfIsAccepted | app/src/api/evm.rs:8686-8696 | A word with a one just above its lower half is read as zero. |
| Feedback.SignExtensionsAgree | app/src/api/evm.rs:7504-7533 | The byte-wise sign extension of the oracle call writes the same word as the general encoder. |
| Feedback.OracleAddressWordIsHex | app/src/api/evm.rs:7504-7533 | The feed address word of that call is one hexadecimal word exactly for hexadecimal text of 64 digits, hence for no address. |
| Feedback.DecodeReputationFeedbackBatch | app/src/api/evm.rs:8698-8761 | The decoder's loops compute the specified batch, failing where any array, length or field fails. |
| Feedback.DecodedLengthsAgree | app/src/api/evm.rs:8698-8761 | In any payload long enough for seven offsets, a decoded batch has as many entries as each of its seven arrays claims; different lengths are refused. |
| Feedback.MismatchedLengthsFail | app/src/api/evm.rs:8698-8761 | The canonical encoding of arrays of different lengths is refused. |
| Feedback.BatchRoundTrip | app/src/api/evm.rs:8698-8761 | The decoder inverts the canonical encoding of any number of entries. |
| Feedback.AddressArrayRoundTrip | app/src/api/evm.rs:8669-8684 | A canonically encoded address array decodes to its addresses. |
| Distribution.DistributionMarket.Open | app/src/api/distribution.rs:755-1002 | Checks in order, then a new numbered position, an open trade, the new curve and both totals raised by the collateral. |
| Distribution.DistributionMarket.Close | app/src/api/distribution.rs:1026-1164 | Checks in order, then the position closed, its collateral taken off the total and a close logged. |
| Distribution.DistributionMarket.Resolve | app/src/api/distribution.rs:1167-1364 | Checks in order, then the loop settles exactly the open positions from the collateral pool, by the payout formula on the market's curve. |
| DistributionPayout.PayoutBounds | app/src/services/distribution.rs:147-184 | Whatever the curves, the outcome and the exponential, infinities and not-a-number included, the gross payout is finite and between nothing and ten times the collateral, and exactly the collateral on the market's own curve where its density is a number. |
| Distribution.DistributionMarket.Claim | app/src/api/distribution.rs:1367-1481 | Checks in order, then the position claimed and a claim logged. |
| DistributionProperties.WaterFilling | app/src/api/distribution.rs:1271-1312 | At every iteration total gross paid is what is owed so far, capped by the pool. |
| DistributionProperties.PaidInOrder | app/src/api/distribution.rs:1271-1312 | Each position receives exactly its slice of the pool, in the order in which the loop meets them. |
| DistributionProperties.PayoutsWithinPool | app/src/api/distribution.rs:1271-1312 | The rounded-up payouts of n ≥ 1 positions sum to strictly less than what was paid plus n. |
| DistributionProperties.ResolveSolvent | app/src/api/distribution.rs:1234-1316 | After resolution the promised payouts are non-negative and below the pool plus one unit per paid position. |
| DistributionProperties.LedgerConservation | app/src/api/distribution.rs:868-1440 | In every run, automatic resolutions included, the totals equal the positions' collateral, a resolved market has no open position, the log has one open per position, a close iff closed and a claim iff claimed, and what is promised stays below the pool plus one unit per paid position. |
| DistributionProperties.ResolutionIsFinal | app/src/api/distribution.rs:1167-1481 | A resolved market stays resolved; its totals and payouts no longer change. |
| DistributionScheduler.ResolveFromFeed | app/src/services/distribution_scheduler.rs:79-223 | An active market with a non-empty range is resolved at the feed's value clamped to it, and the unguarded loop settles exactly the open positions. |
| DistributionScheduler.CapKeptIff | app/src/services/distribution_scheduler.rs:172-221 | For an arbitrary formula the unguarded loop keeps within the pool, whatever usable payouts follow, if and only if every gross payout so far is non-negative or infinite. |
| DistributionProperties.FeedResolvesAsManual | app/src/services/distribution_scheduler.rs:79-223 | In every state that keeps the ledger invariant, an active market is resolved exactly as by a person at the clamped value. |
| Recommendation.BuildRecommendation | app/src/api/decisions.rs:1367-1612 | The nested loops over nodes and actions accumulate exactly the specified scores, weights, counts and changed node, and the sort ranks them. |
| Recommendation.StalenessSteps | app/src/api/decisions.rs:1350-1364 | Weight is full below 7 hours of age, half below 25 and a quarter from then on. |
| Recommendation.WeightReducedIffIdle | app/src/api/decisions.rs:1617-1663 | In every run of recalculations and edits, a live node counts with less than its weight if and only if the weight is positive and nothing wrote to the node for seven hours. |
| Recommendation.ScoreWithinRange | app/src/api/decisions.rs:1432-1440 | Every score lies within ±10000 before it is clamped. |
| Recommendation.OrderIndependent | app/src/api/decisions.rs:1367-1482 | Scores, ranking, confidence, lead and state do not depend on the order of the nodes. |
| Recommendation.StateNamesTheLeader | app/src/api/decisions.rs:1467-1481 | An action is recommended if and only if two nodes are live and it leads every other one by 750 basis points; otherwise the state is insufficient signal. |
| Recommendation.Sort | app/src/api/decisions.rs:1452-1457 | The ranking orders by score, then rank, and is a permutation. |
| Recommendation.SortIsStable | app/src/api/decisions.rs:1452-1457 | Actions that tie on score and rank keep their order. |
| Recommendation.LastChangedIsLargest | app/src/api/decisions.rs:1411-1429 | The changed node moved most among those with a probability now or before, the last such on ties. |
| Recommendation.ScoreFollowsProbability | app/src/api/decisions.rs:1393-1409 | Raising one node's probability never lowers an action it supports nor raises one it opposes. |
| Alerts.Cell.Recalculate | app/src/api/decisions.rs:2283-2334 | Persists the recommendation and snapshots, then records change and alert events and flags against what was loaded. |
| Alerts.EvaluateAlerts | app/src/api/decisions.rs:1760-1898 | The loop records the events of exactly the firing alerts, in order, and raises the matching flags. |
| Alerts.Cell.Upsert | app/src/api/decisions.rs:3171-3184 | An alert of the same kind, by its name, is replaced in place; another is appended. |
| Alerts.CrossesIsTripping | app/src/api/decisions.rs:1777-1843 | A threshold alert crosses exactly when a recalculation takes the persisted value from the armed to the tripped side. |
| Alerts.FiringsAreSeparated | app/src/api/decisions.rs:1699-1898 | Between two firings of the same threshold alert some recalculation persisted a value back on the armed side. |
| Alerts.FiresIffTrips | app/src/api/decisions.rs:1699-1898 | In a run an active alert fires in a step exactly when the step takes the persisted value from armed to tripped. |
| Alerts.SilentIffEntersUnseen | app/src/api/decisions.rs:1699-1898 | Over any stretch of a run it stays silent if and only if every entry into the tripped side comes from a missing value or from that side itself. |
| Alerts.CrossingIsNotMissed | app/src/api/decisions.rs:1699-1898 | While its value is never missing, moving from armed to tripped fires it on the way. |
| Alerts.CrossingThroughMissingIsLost | app/src/api/decisions.rs:1811-1855 | A node that has no value in between crosses without firing. |
| Alerts.ChangesLeadToCurrent | app/src/api/decisions.rs:1617-1740 | In every run the recorded changes form one chain from insufficient signal to the current recommendation, so the latest always carries it. |
| Automation.EventLog.RunPass | app/src/api/decisions.rs:1900-2138 | The gates in order, then the loop over attachments appends exactly the specified events, with the executed and skipped counts. |
| Automation.EachEligibleIsRecorded | app/src/api/decisions.rs:1980-2135 | A pass records one event per eligible attachment, and a trigger exactly for those whose agent is found, active, within the policy and executed. |
| Automation.TriggeredObeysPolicy | app/src/api/decisions.rs:1909-2080 | Every trigger passed the confidence, signal, provider and notional limits and belongs to the changed node. |
| Automation.SkipCountsAreExact | app/src/api/decisions.rs:1905-2135 | Each reason is counted once per skip event that names it. |
| Automation.TriggersAreSpaced | app/src/api/decisions.rs:1933-1954 | Triggers of different passes are at least the minimum interval apart, whatever the log held before. |
| Automation.DailyLimits | app/src/api/decisions.rs:1956-1973 | On any day at most the configured number of passes trigger, and together at most that minus one plus what one pass can fire, even across midnight. |
| Automation.CapKeptBySingleFirings | app/src/api/decisions.rs:1956-1973 | Where a pass has at most one eligible attachment, the setting is a cap on the day's triggers. |
| Automation.LimitIsReached | app/src/api/decisions.rs:1956-1973 | The bound is tight: for every cap and firing width some run of passes over distinct attachments, each with the recommendation and flags of a recalculation that finds a lost market again, reaches it. |
| ShellQuote.QuotingRoundTrip | cli/src/runtime.rs:227-238 | Any list of words, quoted and joined with spaces, lexes back to itself. |
| ShellQuote.AppendsIffClean | cli/src/runtime.rs:202-225 | Appending quoted arguments yields the alias's words and then the arguments, for all arguments, if and only if the alias ends cleanly. |
| ShellQuote.EscapeGlues | cli/src/runtime.rs:202-225 | After a trailing backslash, the alias's last word, a blank and the first argument are one word, and the other arguments follow unchanged. |
| ShellQuote.OpenQuoteFails | cli/src/runtime.rs:202-225 | An open single quote with arguments that need no quoting, or an open double quote with arguments free of quotes, makes the line invalid. |
| ShellQuote.QuotedArgumentClosesQuote | cli/src/runtime.rs:202-225 | After an open single quote a backslash as argument makes the line valid again, and comes out as a quote. |
| ShellQuote.AppendedExact | cli/src/runtime.rs:202-225 | What any alias makes of any arguments: they follow a clean end unchanged; after a backslash the first is glued; in a comment or an open quote their text is read on until its first line end or unescaped closing quote, and from there lexed anew, or to the end, which a quote makes invalid. |
| ShellQuote.ParsedLine | cli/src/runtime.rs:33-50 | The argument list of every shell line: none if it cannot be lexed, its own words without an alias, the alias's words alone, or what the alias makes of the remaining words. |

## Left out

- Floating point rounding: ratios, notionals, prices and gross payouts are reals, action scores are exact; in particular node order can move a floating point sum by its last bits.
- Integer widths where the source would overflow: the 128-bit product in the skew of astronomically large share counts, 64-bit running totals of a ledger, the signed time arithmetic of huge intervals, 32-bit sums of weights.
- Hostile offsets whose arithmetic would overflow the machine word in the ABI decoders, and payloads that are not ASCII text.
- PlannerProperties.InventoryResponse: compares single rungs at a fixed multiplier; the adaptive multipliers' dependence on the position is covered by Planner.AdversityWidens.
- Recommendation.OrderIndependent: leaves out which of several equally changed nodes is named, since the source takes the last one listed.
- Feedback.AddressArrayRoundTrip: is stated for the canonical offset 32, because the decoder reads the length from the second word whatever the offset word says.
- Alerts.Cell.Recalculate: one atomic step; a request that fails between persisting and alerting loses its events in the source.
- Automation.DailyLimits: assumes one clock that never runs backwards and passes that do not overlap; overlapping requests for one cell are not serialised in the source.
- Distribution: the pricing formula is an arbitrary argument, and so is the exponential in the payout formula; when the scheduler meets a market is an input.
- DistributionProperties.PaidInOrder: speaks of the order in which the loop meets the open positions; the source selects them without an order, so which of them are cut short is unspecified.
- SyntheticBook.DepthNear: sums exactly, where the source's 64-bit sum of a book near the mid price would overflow.
- Reports with hand-made side names or size text, the order in which records are listed, manager and reserved amounts, transaction hashes and timestamps on records.
- The aerodrome strategy, registration parsing beyond the ranges it enforces, who may register or intervene, and the tier, hackathon and API-key checks.
- Top contributors, the explanation text and notifications of a recommendation.
- Threshold payloads of alerts as JSON; an alert carries its parsed numbers.
- The logarithm in the Parkinson estimator, which is an arbitrary function of the price ratio; Sharpe ratio and tradability score.
- HTTP handlers, authentication, SQL, Redis, RPC, websockets and notifications; their results are step inputs.
- The command line's network retry, hooks, session files and configuration loading.
