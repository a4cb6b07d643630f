# ticker-agent core, modelled in Dafny

ticker-agent is a crypto paper-trading agent. It scrapes market data, asks a
group of language-model "bots" for BUY/SELL/HOLD decisions, keeps a simulated
USD portfolio in DuckDB and periodically rewrites the bots' system prompts from
their trading record. This project models the decision-making and
book-keeping core of that program and proves properties of the model.

What is modelled, one Dafny module per source file:

- **Ledger** (`src/trader/paper.py`, `src/db.py`): the paper trader is a class
  over a balance map and a trade list. Each method is specified by a function on
  a `Book` value. `LedgerFacts` proves what opening, closing and checking trades
  do to the portfolio's worth. Two lemmas record gaps in the code as written:
  - `FailedOpenKeepsDebit`: a failed open keeps its USD debit.
  - `CloseTwiceCreditsTwice`: closing the same trade twice credits it twice.
- **Strategies** (`src/trader/strategy_manager.py`) and **PromptReset**
  (`src/update_prompts.py`): these cover four parts of the strategy registry:
  - seeding the missing default bots;
  - building a backend for every bot whose provider has a key;
  - collecting the decisions;
  - the learning loop that rewrites the prompt of a bot whose recent closed trade lost more than 5% or gained more than 10%.
- **Replies**: the line-by-line parsing of the `ACTION:` / `CONFIDENCE:` /
  `REASON:` reply and of the ensemble's `CONFIDENCE:` / `DECISION:` verdict,
  including what Python's `except: pass` keeps when `int()` fails.
- **Ensemble** (`src/llm/ensemble.py`): the role configuration and the
  Analyst/Critic/Strategist (bull/bear/narrative) council,
  with its fallback verdict.
- **Indicators**, **Stats**, **Numeric**, **Correlator** (`src/ml/`): these
  cover RSI with Wilder smoothing, EMA, MACD and Bollinger bands, together with
  z-scores and the pump correlator.
- **DexScreener**, **DefiLlama**, **RugCheck** (`src/scrapers/`,
  `src/safety/`): symbol filtering, ranking and the reports built from the
  responses.
- **Listener**, **Researcher**, **WhaleWatcher** (`src/listener.py`,
  `src/agents/`): cashtag extraction and ranking of new tickers, the web-search
  risk check, and the whale watcher's search for the ticker next to six
  market-maker phrases, which reports the titles of the results that mention it.
- **Text**, **Seqs**, **Ranking**: the Python string and list operations the
  core relies on. These are `in`, `split`, `join`, `strip`, `upper`, `lower`,
  `replace`, `int()`, `str()`, slicing, `sum`, counting and the stable
  `list.sort` with a key.

Language-model backends, HTTP responses, search results, the tweet stream and
the environment variables are parameters of the model. A backend's reply is
either text or a raised exception. `asyncio.gather` returns its results in
task order.

## Model

| member | source | states |
|---|---|---|
| Ledger.BalanceOf | src/trader/paper.py:11-13 | the stored balance of the asset, and 0.0 when the asset has no row |
| Ledger.SetUsd | src/trader/paper.py:36-40 | the USD update sets USD alone, keeps every other row, and adds no row when USD is missing |
| Ledger.OpenTrades | src/trader/paper.py:19-22 | a trade is listed exactly when it is in the table and open |
| Ledger.IndexOf | src/trader/paper.py:99-102 | a found index holds a row with that id; nothing is found exactly when no row has the id |
| Ledger.PriceFor | src/trader/paper.py:70-76 | the price of the cleaned upper-case key when it is non-zero, else that of the raw ticker; there is no price exactly when neither key gives a non-zero price |
| Ledger.CheckSpecStep | src/trader/paper.py:66-93 | one trade of the snapshot that does not raise advances the scan without changing its final outcome |
| Ledger.PaperTrader.constructor | src/db.py:66-68 | a new store holds the 10000 USD starting row and no trade |
| Ledger.PaperTrader.GetBalance | src/trader/paper.py:11-13 | the stored balance of the asset, and 0.0 when the asset has no row |
| Ledger.PaperTrader.GetActiveTrades | src/trader/paper.py:19-22 | returns exactly the open trades of the table |
| Ledger.PaperTrader.OpenTrade | src/trader/paper.py:24-55 | the new book and result are those of the open-trade rule: refuse when short of USD, debit first, then insert, with the debit kept when the insert or the division fails; ids stay unique |
| Ledger.PaperTrader.CloseTrade | src/trader/paper.py:95-133 | the new book is that of the close rule: unknown id or zero entry changes nothing, otherwise the row is closed and USD credited; ids stay unique |
| Ledger.PaperTrader.CheckTrade | src/trader/paper.py:66-93 | one trade is looked up, closed on a threshold, and a zero entry price is reported as raised |
| Ledger.PaperTrader.CheckTrades | src/trader/paper.py:57-93 | the loop over the snapshot of open trades ends in the book the trade-by-trade rule gives, and reports whether a zero entry price aborted the scan |
| LedgerFacts.OpenValueUpdate | src/trader/paper.py:110-121 | replacing one row changes the open value by the difference of the two rows' locked-in cash |
| LedgerFacts.OpenTradeOutcome | src/trader/paper.py:28-50 | a shortfall changes nothing and returns false; a balance equal to the amount is enough; success holds exactly when funds suffice, the price is non-zero and the store takes a new id; USD falls by the amount |
| LedgerFacts.OpenConservesWorth | src/trader/paper.py:36-50 | a successful open appends one open row with the given id, ticker and entry price, amount times price equal to the spent USD and zero exit and PnL, and leaves the book's worth unchanged |
| LedgerFacts.FailedOpenKeepsDebit | src/trader/paper.py:36-55 | with enough funds, a zero price or a refused insert returns false, adds no row, and the worth falls by the amount |
| LedgerFacts.OpenNeverOverdraws | src/trader/paper.py:30-33 | open never takes a non-negative USD balance below zero |
| LedgerFacts.CloseRealizesPnl | src/trader/paper.py:104-128 | closing an open trade changes only its row: closed, exit price, PnL amount times exit minus amount times entry, percentage, appended notes; USD grows by the proceeds and the worth by exactly the PnL |
| LedgerFacts.CloseUnknownIsNoop | src/trader/paper.py:99-102 | an unknown id leaves the book unchanged |
| LedgerFacts.CloseTwiceCreditsTwice | src/trader/paper.py:95-128 | close does not check the status: a second close credits USD again and raises the worth by the second proceeds |
| LedgerFacts.IndexOfAfterUpdate | src/trader/paper.py:110-121 | rewriting a row under the same id does not move where the id is found |
| LedgerFacts.ExitThresholds | src/trader/paper.py:79-90 | with a positive entry: take profit exactly at or above 115% of entry, stop loss exactly at or below 90%, no action strictly between |
| LedgerFacts.CloseTouchesOnlyItsRow | src/trader/paper.py:110-121 | close keeps the row count and every id, and changes no row with another id |
| LedgerFacts.CheckTouchesOnlySnapshot | src/trader/paper.py:57-93 | the scan keeps the row count and ids and rewrites only rows whose id is in its snapshot |
| LedgerFacts.CheckLeavesClosedTrades | src/trader/paper.py:60-93 | a check leaves every closed row exactly as it was |
| LedgerFacts.IndexOfUnique | src/trader/paper.py:98-101 | with unique ids the lookup by id finds the row carrying that id |
| LedgerFacts.FilterKeepsUniqueIds | src/trader/paper.py:62 | the snapshot of open trades keeps the table's unique ids |
| LedgerFacts.CheckOneOwnRow | src/trader/paper.py:66-93 | one step of the scan on a row's own trade leaves that row as the exit rule says |
| LedgerFacts.CheckOneOtherRow | src/trader/paper.py:66-93 | one step of the scan on another trade leaves the row and every id alone |
| LedgerFacts.CheckOneOwnRowId | src/trader/paper.py:66-93 | one step of the scan on a row's own trade keeps that row's id |
| LedgerFacts.CheckRow | src/trader/paper.py:57-93 | a scan that does not raise leaves each snapshot row closed at the current price when it crossed a threshold, and unchanged otherwise |
| LedgerFacts.CheckClosesCrossers | src/trader/paper.py:57-93 | an open trade with a positive entry ends closed at the current price with the take-profit reason at or above 115% of entry, with the stop-loss reason at or below 90%, and stays as it was strictly between or without a price |
| LedgerFacts.OpenThenCloseExample | src/trader/paper.py:24-128 | buying 1000 USD at 10 and closing at 11.5 gives PnL 150, 15%, a 9000 balance after the open and 1150 credited by the close |
| LedgerFacts.InsufficientFundsExample | src/trader/paper.py:30-33 | a 12000 USD order against the starting 10000 is refused and changes nothing |
| Strategies.DefaultsDistinct | src/trader/strategy_manager.py:11-27 | the six default bots have distinct ids |
| Strategies.SeededPromptTexts | src/trader/strategy_manager.py:41-48 | every row seeding adds carries its own bot's default prompt text, none of them empty |
| Strategies.SeedsAreMissingDefaults | src/trader/strategy_manager.py:41-48 | a seeded row is exactly the new row of a default bot whose id was not yet in the table |
| Strategies.SeedingKeepsRowsAndAddsDefaults | src/trader/strategy_manager.py:38-48 | seeding keeps every existing row unchanged in place, afterwards every default bot has a row, and the appended rows are exactly the missing defaults |
| Strategies.SeedsNoneMissing | src/trader/strategy_manager.py:41-42 | when every default already has a row nothing is seeded |
| Strategies.SeedingIdempotent | src/trader/strategy_manager.py:38-48 | seeding a seeded table changes nothing |
| Strategies.SeedsUnique | src/trader/strategy_manager.py:41-48 | defaults with distinct ids seed rows with distinct ids |
| Strategies.SeedingKeepsKeysUnique | src/trader/strategy_manager.py:38-48 | seeding keeps the bot_id primary key unique |
| Strategies.BackendsStep | src/trader/strategy_manager.py:63-83 | handling one more default bot adds its backend exactly when its provider type has a key |
| Strategies.BackendsRule | src/trader/strategy_manager.py:53-83 | a bot gets a backend exactly when its provider's key variable is set and non-empty, built from that bot's provider, model and key |
| Strategies.QueriedRule | src/trader/strategy_manager.py:92-118 | a bot is asked exactly when it has an active row and a backend |
| Strategies.Decisions | src/trader/strategy_manager.py:125-152 | there are never more decisions than queried bots |
| Strategies.DecisionsKeepOrder | src/trader/strategy_manager.py:125-152 | decisions keep query order: those of a concatenated query are the decisions of each part, concatenated |
| Strategies.DecisionsComplete | src/trader/strategy_manager.py:125-150 | every reply that is text not starting with "Error" gives its parsed decision |
| Strategies.DecisionsSound | src/trader/strategy_manager.py:125-152 | every decision is the parsed decision of an accepted reply of a queried bot |
| Strategies.NoAcceptedNoDecisions | src/trader/strategy_manager.py:151-152 | when every reply failed there are no decisions |
| Strategies.Window | src/trader/strategy_manager.py:165-170 | at most five trades are reviewed, each closed and naming its bot |
| Strategies.EvolvedPromptClean | src/trader/strategy_manager.py:211-212 | the evolved prompt has no surrounding whitespace and holds no NEW_PROMPT marker |
| Strategies.RewrittenPromptText | src/trader/strategy_manager.py:211-214 | the text a rewrite stores is stripped and holds no NEW_PROMPT marker |
| Strategies.SetPrompt | src/trader/strategy_manager.py:214 | the update rewrites the prompt of the rows with that bot id and leaves every other row and column as it was |
| Strategies.LearnStepTouchesOwnPrompt | src/trader/strategy_manager.py:178-215 | one reviewed trade changes at most the prompt of its own bot: only outside the -5..10 deadband, only without a raise, only from an answer holding `NEW_PROMPT:`, and then to that answer's evolved prompt |
| Strategies.LearnStepRewrites | src/trader/strategy_manager.py:186-215 | a known bot's trade outside the deadband with an answer holding `NEW_PROMPT:` sets that bot's prompt to the stripped text after the marker; an answer without the marker changes nothing |
| Strategies.LearnTouchesOnlyPrompts | src/trader/strategy_manager.py:178-215 | the loop rewrites only prompts. A changed prompt is the evolved prompt of an answer holding `NEW_PROMPT:` about a reviewed trade of that bot outside the deadband |
| Strategies.NoMarkerNoRewrite | src/trader/strategy_manager.py:211-215 | when no answer holds `NEW_PROMPT:` the loop leaves the table unchanged |
| Strategies.LearningLoopRewrites | src/trader/strategy_manager.py:156-215 | the whole loop changes only prompts. A change needs the optimizer backend and a rewriting answer about one of the five reviewed trades |
| Strategies.DeadbandIsIgnored | src/trader/strategy_manager.py:186-191 | trades with PnL from -5 to 10 percent leave the table unchanged and raise nothing |
| Strategies.NoOptimizerNoLearning | src/trader/strategy_manager.py:174-176 | without the Gemini_Trend backend the loop changes nothing |
| Strategies.StrategyManager.constructor | src/trader/strategy_manager.py:30-33 | opening the registry seeds the missing default bots and builds the backends the keys allow |
| Strategies.StrategyManager.InitializeBots | src/trader/strategy_manager.py:35-51 | the loop appends the missing default rows, the key stays unique, then the backends are loaded |
| Strategies.StrategyManager.LoadProviders | src/trader/strategy_manager.py:53-83 | the loop adds exactly the backends the keys allow, with the table unchanged and its bot ids still unique |
| Strategies.StrategyManager.GetDecisions | src/trader/strategy_manager.py:85-154 | the two loops return the decisions of the bots with an active row and a backend, in table order |
| Strategies.StrategyManager.RunLearningLoop | src/trader/strategy_manager.py:156-215 | the loop leaves the table as the trade-by-trade learning rule does over the newest five reviewable trades, and reports a raise. It keeps the bot ids unique and changes only prompts. A changed prompt is the stripped text after `NEW_PROMPT:` in the optimizer's answer about one of that bot's reviewed trades outside the deadband |
| PromptReset.ResetRows | src/update_prompts.py:23-30 | row by row: a row of a default bot that was present gets its default prompt back, every other row is as it was, and no row is added |
| PromptReset.ResetTable | src/update_prompts.py:18-30 | over the whole table, every default bot's row gets its default prompt and every other row is untouched |
| PromptReset.ResetIdempotent | src/update_prompts.py:12-40 | running the reset twice gives the same table as once |
| PromptReset.DefaultIdsSnoc | src/update_prompts.py:23 | the ids of one more default are the earlier ids plus its own |
| PromptReset.LastIdFresh | src/trader/strategy_manager.py:11-18 | with distinct ids, the last default's id is not among the earlier ones |
| PromptReset.OverlapSnoc | src/update_prompts.py:24-30 | one more default raises the number of present defaults by one exactly when it is present |
| PromptReset.PresentCountIsOverlap | src/update_prompts.py:21-30 | the counter equals the number of default ids that have a row |
| PromptReset.UpdatePrompts | src/update_prompts.py:12-35 | the loop resets each present default bot's prompt and counts exactly the default ids present in the table |
| Replies.MarkerHasColon | src/trader/strategy_manager.py:135-140 | a line that holds a marker ending in a colon holds a colon, so the second colon field exists |
| Replies.Marked | src/trader/strategy_manager.py:135-140 | a marked line always holds a colon |
| Replies.SecondFieldOf | src/trader/strategy_manager.py:136 | for a line `a:b` with no colon in a or b, the second field is exactly b |
| Replies.ScanStops | src/trader/strategy_manager.py:132-142 | once a line raised inside the try block, no later line is read |
| Replies.ScanLast | src/trader/strategy_manager.py:134 | the last line is applied on top of what the earlier lines left, unless they raised |
| Replies.ScanLastSetter | src/trader/strategy_manager.py:134-140 | a field set by one line and untouched by every later line keeps that line's value |
| Replies.ScanTwo | src/llm/ensemble.py:123 | a two-line scan with two steps that do not raise ends in the second step's fields |
| Replies.ScanUnread | src/trader/strategy_manager.py:134-140 | lines that match no marker leave every field unchanged |
| Replies.ParseDecisionDefaults | src/trader/strategy_manager.py:129-131 | a reply naming no field gives action HOLD, confidence 0 and the whole reply as the reason |
| Replies.DecisionLineSetsAction | src/trader/strategy_manager.py:135-136 | an ACTION line sets the action to the stripped, upper-cased second field, even when the same line later raises |
| Replies.DecisionLineRaises | src/trader/strategy_manager.py:137-142 | a confidence that `int()` rejects ends the scan and keeps the earlier confidence and reason |
| Replies.DecisionLineKeepsAction | src/trader/strategy_manager.py:135 | a line without ACTION leaves the action alone |
| Replies.LastActionWins | src/trader/strategy_manager.py:134-136 | when the scan completes, the action comes from the last line that names one |
| Replies.ScanRaisesAt | src/trader/strategy_manager.py:133-142 | a line that raises whatever the fields hold makes the whole `try` block raise |
| Replies.DecisionLineSetsConfidence | src/trader/strategy_manager.py:137-138 | a CONFIDENCE line whose stripped second field is an integer sets the confidence to it and does not raise |
| Replies.DecisionLineKeepsConfidence | src/trader/strategy_manager.py:137 | a line without CONFIDENCE keeps the confidence and does not raise |
| Replies.DecisionLineSetsReason | src/trader/strategy_manager.py:139-140 | a REASON line sets the stripped second field as reason, unless its confidence raised first |
| Replies.DecisionLineKeepsReason | src/trader/strategy_manager.py:139 | a line without REASON keeps the reason |
| Replies.LastConfidenceWins | src/trader/strategy_manager.py:134-138 | when the scan completes, the confidence is the integer on the last line that names one |
| Replies.LastReasonWins | src/trader/strategy_manager.py:134-140 | when the scan completes, the reason is the stripped field of the last line that names one |
| Replies.ParseVerdictDefaults | src/llm/ensemble.py:119-120 | a verdict naming neither field gives confidence 50 and the whole verdict as the decision |
| Replies.VerdictConfidenceLine | src/llm/ensemble.py:124-125 | a CONFIDENCE line with an integer sets the confidence and nothing else |
| Replies.VerdictDecisionLine | src/llm/ensemble.py:126-127 | a DECISION line sets the stripped decision and nothing else |
| Replies.FallbackConfidenceLine | src/llm/ensemble.py:116 | the fallback's first line sets confidence 50 |
| Replies.FallbackDecisionLine | src/llm/ensemble.py:116 | the fallback's second line sets the decision "Consensus failed." |
| Replies.ParseTwoLineVerdict | src/llm/ensemble.py:123-127 | a two-line verdict reads as its two lines applied in order |
| Replies.FallbackLineSteps | src/llm/ensemble.py:116-127 | each fallback line, read from the defaults, sets its own field |
| Replies.FallbackParse | src/llm/ensemble.py:116-127 | a verdict made of the two fallback lines reads as confidence 50, decision "Consensus failed." |
| Replies.FallbackVerdictParse | src/llm/ensemble.py:116-129 | the fallback verdict reads as confidence 50, decision "Consensus failed." |
| Ensemble.ActiveRoles | src/llm/ensemble.py:76-85 | a role is asked exactly when it is configured |
| Ensemble.ActiveRolesOrdered | src/llm/ensemble.py:72-85 | the roles are asked once each, in the order Analyst, Critic, Strategist |
| Ensemble.Views | src/llm/ensemble.py:90-93 | there is a view exactly for each asked role |
| Ensemble.ViewOfRole | src/llm/ensemble.py:91-93 | each role's view is its own answer's text, or "Error: " and the exception |
| Ensemble.ViewsStep | src/llm/ensemble.py:91-93 | one more result adds that role's view on top of the earlier ones |
| Ensemble.Excerpt | src/llm/ensemble.py:134-136 | a case is the first 200 characters of the role's view followed by "...", just "..." for an absent role, never over 203 characters |
| Ensemble.NoProvidersInactive | src/llm/ensemble.py:35-36 | with no role configured the answer is confidence 0 and "No AI models active." |
| Ensemble.FallbackWithoutAnalyst | src/llm/ensemble.py:98-116 | without a usable Analyst view the report has confidence 50 and decision "Consensus failed.", whatever the synthesis says |
| Ensemble.FallbackReport | src/llm/ensemble.py:116-137 | the report for the fallback verdict has confidence 50, decision "Consensus failed." and the three cases |
| Ensemble.FailedAnalystIsNoSynthesis | src/llm/ensemble.py:93-98 | an Analyst call that raised or answered "Error..." never leads to a synthesis |
| Ensemble.SynthesisFailureRaises | src/llm/ensemble.py:114 | a synthesis request that raises makes the whole call raise |
| Ensemble.EnsembleAnalyst.constructor | src/llm/ensemble.py:9-25 | a role is configured exactly when its key variable is set and non-empty |
| Ensemble.EnsembleAnalyst.AnalyzeSignal | src/llm/ensemble.py:30-137 | the loop collects the views and the call returns the council's report for them |
| Indicators.Deltas | src/ml/indicators.py:13 | one difference per consecutive pair of prices, each the later price minus the earlier |
| Indicators.Gain | src/ml/indicators.py:29 | a gain is never negative |
| Indicators.Loss | src/ml/indicators.py:30 | a loss is never negative |
| Indicators.PositiveSum | src/ml/indicators.py:17 | the sum of the positive deltas is never negative |
| Indicators.NegativeSum | src/ml/indicators.py:18 | the sum of the negative deltas is never positive |
| Indicators.Smooth | src/ml/indicators.py:32-33 | Wilder's smoothing keeps a non-negative average non-negative |
| Indicators.Smoothed | src/ml/indicators.py:27-33 | the smoothed average gain and loss stay non-negative |
| Indicators.SmoothedSnoc | src/ml/indicators.py:27-33 | smoothing in one more delta is one more Wilder step |
| Indicators.RsiOf | src/ml/indicators.py:20-24 | the index from the averages lies in [0, 100], and is 100 without losses |
| Indicators.SeedAverage | src/ml/indicators.py:17-18 | the seed average of a non-negative total is non-negative |
| Indicators.Rsi | src/ml/indicators.py:4-41 | the RSI is always within [0, 100]: 50 without enough prices, 100 for a lossless seed |
| Indicators.RsiIgnoresLaterPricesAfterLosslessSeed | src/ml/indicators.py:16-21 | when the first period+1 prices never fall the RSI is 100, whatever prices follow |
| Indicators.NoNegatives | src/ml/indicators.py:18 | deltas that are all non-negative have a zero negative sum |
| Indicators.CalculateRsi | src/ml/indicators.py:4-41 | the seed and the smoothing loop compute the RSI function |
| Indicators.Alpha | src/ml/indicators.py:53 | the smoothing factor 2/(span+1) lies in (0, 1] |
| Indicators.Ema | src/ml/indicators.py:52-57 | the average series has one value per data point and starts at the first point |
| Indicators.EmaWithinRange | src/ml/indicators.py:52-57 | every average lies between the smallest and the largest data point |
| Indicators.EmaOfConstant | src/ml/indicators.py:52-57 | the average of a constant series is that constant throughout |
| Indicators.CalculateEma | src/ml/indicators.py:52-57 | the append loop computes the average series |
| Indicators.MacdLine | src/ml/indicators.py:66-68 | the MACD line is the fast minus the slow average, point by point |
| Indicators.MacdSecondGuardUnreachable | src/ml/indicators.py:48-73 | past the first guard the MACD line has at least `signal` points, so the second guard never fires |
| Indicators.FlatPricesZeroMacd | src/ml/indicators.py:43-85 | flat prices give zero MACD, signal and histogram |
| Indicators.ShortPricesZeroMacd | src/ml/indicators.py:48-49 | fewer than slow + signal prices give a zero MACD, signal and histogram |
| Indicators.SignalWithinMacdRange | src/ml/indicators.py:75-78 | the signal value lies within the range of the MACD line |
| Indicators.CalculateMacd | src/ml/indicators.py:43-85 | the method returns zeros without enough prices, otherwise the last MACD value, the last signal value and their difference |
| Indicators.BandsSymmetric | src/ml/indicators.py:94-104 | the middle band is the mean of the last `period` prices and both bands lie numStd standard deviations from it |
| Indicators.BandsOrdered | src/ml/indicators.py:87-104 | with a non-negative numStd, lower <= middle <= upper |
| Indicators.ShortPricesZeroBands | src/ml/indicators.py:91-92 | fewer prices than the window give three zero bands |
| Indicators.FlatPricesCollapseBands | src/ml/indicators.py:94-104 | flat prices collapse all three bands onto the price |
| Numeric.Abs | src/ml/stats.py:25 | the absolute value is non-negative and equals the value or its negation |
| Numeric.Sqrt | src/ml/indicators.py:98 | the square root is non-negative and zero exactly for zero |
| Numeric.Square | src/ml/indicators.py:97 | a square is non-negative and zero exactly for zero |
| Numeric.SquaredDeviations | src/ml/indicators.py:97 | a sum of squared deviations is never negative |
| Numeric.SquaredDeviationsZero | src/ml/stats.py:14-16 | the squared deviations vanish exactly when every point equals the reference |
| Numeric.MeanOfConstant | src/ml/stats.py:13 | the mean of a constant series is that constant |
| Stats.SampleStd | src/ml/stats.py:14 | the sample standard deviation (divisor n-1) is never negative |
| Stats.ShortHistoryScoresZero | src/ml/stats.py:9-10 | a history of fewer than two points scores 0 |
| Stats.StdZeroIffConstant | src/ml/stats.py:14-17 | the deviation is zero exactly when every point equals the mean |
| Stats.ConstantHistoryScoresZero | src/ml/stats.py:16-17 | a constant history scores 0 whatever the current value |
| Stats.ZScoreSign | src/ml/stats.py:19 | with a varying history the score is positive, negative or zero exactly as the value is above, below or at the mean |
| Stats.AnomalySymmetric | src/ml/stats.py:21-25 | the anomaly test ignores the sign, holds exactly beyond plus or minus the threshold, and is strict at the threshold |
| Correlator.Correlate | src/ml/correlator.py:14-23 | the signal carries the ticker and both z-scores computed against their own histories |
| Correlator.PumpRule | src/ml/correlator.py:26-28 | a pump is flagged exactly when both scores exceed 1.5 in magnitude; its confidence is then above 1.5, and 0 otherwise |
| Correlator.NegativeSpikesFlag | src/ml/correlator.py:26 | joint negative spikes below -1.5 are flagged as a pump too |
| Correlator.ShortHistoryNoPump | src/ml/correlator.py:14-28 | a history of fewer than two points rules a pump out, with confidence 0 |
| DexScreener.ChainPriority | src/scrapers/dexscreener.py:30-32 | solana, ethereum, base and bsc rank 1 to 4 (case-insensitively), every other chain 99 |
| DexScreener.Process | src/scrapers/dexscreener.py:63-99 | one entry per pair of `pairs[:limit]`, in order, each built from the pair at the same place |
| DexScreener.TokenBoosts | src/scrapers/dexscreener.py:46-59 | the boosts are the decoded body exactly on a 200 response, and nothing otherwise |
| DexScreener.KeptAreExactlyMatches | src/scrapers/dexscreener.py:22-26 | a pair is kept exactly when its upper-cased base symbol equals the upper-cased query |
| DexScreener.MissingSymbolNeverMatches | src/scrapers/dexscreener.py:24-25 | a pair without a symbol never matches a non-empty query |
| DexScreener.ScrapeTakesBestPairs | src/scrapers/dexscreener.py:16-38 | on a 200 response the output has min(limit, matches) entries, built in order from the ranked matching pairs |
| DexScreener.RankedIsOrdered | src/scrapers/dexscreener.py:28-36 | the ranked pairs, and any prefix of them, are ordered by chain priority and then by descending liquidity |
| DexScreener.RankedIsStable | src/scrapers/dexscreener.py:36 | pairs with equal keys keep their response order |
| DexScreener.RankedIsPermutation | src/scrapers/dexscreener.py:36 | sorting neither loses nor adds a pair |
| DexScreener.ErrorsYieldNothing | src/scrapers/dexscreener.py:39-44 | a non-200 status or an exception yields an empty list |
| DexScreener.MissingMetricsAreZero | src/scrapers/dexscreener.py:81-89 | missing price changes and transaction counts read as 0 |
| DexScreener.ProcessPairs | src/scrapers/dexscreener.py:63-99 | the append loop over `pairs[:limit]` builds the processed entries |
| DexScreener.ScrapePairs | src/scrapers/dexscreener.py:9-44 | the filtering loop, the sort and the processing compute the scrape result |
| DefiLlama.OrZero | src/scrapers/defillama.py:27 | one value per input, a missing value reading as 0 |
| DefiLlama.TotalSnoc | src/scrapers/defillama.py:27 | appending a value adds it to the total, a missing value adding nothing |
| DefiLlama.Yields | src/scrapers/defillama.py:41-47 | one row per listed pool, in order, carrying the pool's project, symbol, chain, APY and TVL |
| DefiLlama.Scrape | src/scrapers/defillama.py:11-59 | the record always comes back as a one-element list |
| DefiLlama.TvlRule | src/scrapers/defillama.py:24-27 | tvl is the total of the chains' TVLs on a 200 response and 0 otherwise |
| DefiLlama.YieldsRule | src/scrapers/defillama.py:29-48 | the yield rows are the listed pools on a 200 response when the chains request did not raise, and none otherwise |
| DefiLlama.StablecoinsRule | src/scrapers/defillama.py:49-55 | stablecoins is the sum of the pegged-USD supplies on a 200 response when neither earlier request raised, and 0 otherwise |
| DefiLlama.FailureStopsLaterSteps | src/scrapers/defillama.py:22-57 | an exception on a request leaves that field and every later one at its default |
| DefiLlama.TopPoolsRule | src/scrapers/defillama.py:34-39 | the listed pools come from the response with TVL over 1M, highest APY first, min(limit, large pools) of them |
| DefiLlama.TopPoolsStable | src/scrapers/defillama.py:35-38 | pools with equal APY keep their response order |
| DefiLlama.AllLargePoolsListed | src/scrapers/defillama.py:34-39 | when the limit covers them all, every pool with TVL over 1M is listed |
| DefiLlama.MissingSupplyAddsNothing | src/scrapers/defillama.py:54 | a stablecoin without a supply figure adds nothing to the total |
| DefiLlama.ScrapeOverview | src/scrapers/defillama.py:11-59 | the step-by-step updates, with a return on the first exception, compute the scrape record |
| RugCheck.ParseReport | src/safety/rugcheck.py:27-38 | the score (0 when absent), the risk count, the risk names in report order, and safe exactly when the score is below 5000 |
| RugCheck.CheckToken | src/safety/rugcheck.py:10-25 | the fallback (score -1) applies exactly off a 200 response; its status is "error" exactly when the request raised, "unknown" otherwise |
| RugCheck.MissingScoreIsSafe | src/safety/rugcheck.py:31-37 | a report without a score is safe |
| RugCheck.SafetyIsMonotone | src/safety/rugcheck.py:37 | lowering the score never makes a safe report unsafe |
| RugCheck.RiskNamesFollowReport | src/safety/rugcheck.py:36 | the names of concatenated risk lists are the concatenated names |
| Listener.TryFrom | src/listener.py:6 | a found letter count is one the pattern matches with, at most the count tried; none found means no count up to it matches |
| Listener.CashtagsAreTags | src/listener.py:6-10 | every extracted tag has two to six upper-case letters |
| Listener.UpperRun | src/listener.py:6 | the run covers only upper-case letters and stops at the first other character |
| Listener.TryFromRun | src/listener.py:6 | backtracking from n letters finds the whole upper-case run when it has 2 to n letters and ends a word, and nothing otherwise |
| Listener.TagLengthRule | src/listener.py:6 | the pattern matches at a `$` exactly when 2 to 6 upper-case letters follow and no word character comes after them; then it takes the whole run |
| Listener.FetchCount | src/listener.py:12-17 | at most `limit` tweets and never more than the stream holds |
| Listener.FetchTweets | src/listener.py:12-17 | the loop yields the first min(limit, stream length) tweets, in order |
| Listener.MentionsAdd | src/listener.py:37 | exploding the tags adds the mentions tweet by tweet, a tag named twice counting twice |
| Listener.Dedup | src/listener.py:42 | each mentioned tag appears exactly once |
| Listener.Grouped | src/listener.py:42-46 | one row per distinct tag, carrying its number of mentions |
| Listener.TopTickersSound | src/listener.py:47-49 | at most three rows, each a mentioned tag with its true count of at least five, in non-increasing count order |
| Listener.TopTickersComplete | src/listener.py:47-49 | a tag with at least five mentions is left out only when three rows with at least as many mentions fill the result |
| Listener.NoMentionsNoTickers | src/listener.py:37-39 | tweets without tags leave no mention after `dropna`, and no mentions give no rows |
| Listener.RankNewTickers | src/listener.py:31-49 | raises `KeyError` (None) exactly when no tweet is fetched (`limit <= 0` or an empty stream); otherwise the record loop, grouping, filter, sort and head give the top tickers of the first `limit` tweets |
| Listener.TweetTags | src/listener.py:35-36 | one tag record per tweet |
| Researcher.TitleWarnings | src/agents/researcher.py:44-46 | at most one warning per risk word |
| Researcher.TitleWarningsRule | src/agents/researcher.py:41-46 | a result yields a warning exactly when its lower-cased title holds some risk word |
| Researcher.WarningsRule | src/agents/researcher.py:37-48 | there is a warning exactly when some result's lower-cased title holds some risk word |
| Researcher.UntitledNeverWarns | src/agents/researcher.py:41 | a result without a title never warns |
| Researcher.EmptyContainsNothing | src/agents/researcher.py:45 | the empty title holds no non-empty word |
| Researcher.BodiesAreIgnored | src/agents/researcher.py:42-46 | results with the same titles give the same warnings, whatever their bodies |
| Researcher.TitlesDecide | src/agents/researcher.py:44-46 | two results with the same title give the same warnings |
| Researcher.HighRiskRule | src/agents/researcher.py:48-54 | only HIGH risk is unverified; it arises exactly when the risk search finds a warning, with the first two warnings as notes, whatever the news search would give |
| Researcher.MediumMeansNoPresence | src/agents/researcher.py:61-66 | MEDIUM risk means both searches came back empty |
| Researcher.FoundRisks | src/agents/researcher.py:38-46 | the nested loop collects one warning per result and risk word in its title, in order |
| Researcher.VerifySignalWith | src/agents/researcher.py:21-76 | the method gives the researcher's verdict: unavailable, HIGH, MEDIUM, LOW, or UNKNOWN on an exception |
| WhaleWatcher.Clean | src/agents/whale_watcher.py:16 | the cleaned ticker holds no `$` |
| WhaleWatcher.Hits | src/agents/whale_watcher.py:28-34 | at most one entry per result |
| WhaleWatcher.Outcomes | src/agents/whale_watcher.py:21-23 | one search per market-maker phrase, in phrase order, for the cleaned ticker and the phrase with two results at most |
| WhaleWatcher.AnalyzeHolders | src/agents/whale_watcher.py:44-50 | the holder analysis is the fixed placeholder whatever the holders |
| WhaleWatcher.HitsRule | src/agents/whale_watcher.py:28-34 | the entries are exactly `Found mention: ` plus the title of each result whose lower-cased title or body holds the lower-cased ticker, in result order |
| WhaleWatcher.SignalsSplit | src/agents/whale_watcher.py:21-34 | searches that succeeded contribute their entries in order |
| WhaleWatcher.FailureKeepsEarlierEntries | src/agents/whale_watcher.py:20-37 | a search that raises drops every later search but keeps the entries found before it |
| WhaleWatcher.AlertRule | src/agents/whale_watcher.py:39-42 | an alert is raised exactly when there is an entry, listing the first three joined by " \| " |
| WhaleWatcher.SignalsStep | src/agents/whale_watcher.py:21-34 | one more successful search appends its hits |
| WhaleWatcher.MentionsIn | src/agents/whale_watcher.py:28-34 | the inner loop collects the hits of one search |
| WhaleWatcher.CheckWhaleActivityLoop | src/agents/whale_watcher.py:10-42 | the keyword loop, stopped by the first search that raises, gives the whale report |
| Text.Find | src/trader/strategy_manager.py:135 | a found position is one where the pattern occurs |
| Text.FindFrom | src/trader/strategy_manager.py:135 | a position found from `start` is at or after it and the pattern occurs there |
| Text.FindFromIsFirst | src/trader/strategy_manager.py:135 | the search from `start` finds the first occurrence at or after it, and nothing when there is none |
| Text.FindIsFirst | src/trader/strategy_manager.py:135 | the search finds the first occurrence, and nothing when there is none |
| Text.OccursContains | src/trader/strategy_manager.py:135 | any occurrence makes the search succeed, at that position or before |
| Text.Split | src/trader/strategy_manager.py:133 | `str.split` always returns at least one part |
| Text.SplitStep | src/trader/strategy_manager.py:133 | with a separator present, the parts are the text before the first one followed by the parts of the rest |
| Text.JoinSplit | src/trader/strategy_manager.py:133 | joining the parts with the separator gives back the original text |
| Text.SplitPartsFree | src/trader/strategy_manager.py:133 | no part contains the separator |
| Text.BeforeFirstIsFree | src/trader/strategy_manager.py:136 | the text before the first separator holds no separator |
| Text.SplitHeadFree | src/trader/strategy_manager.py:136 | the first part holds no separator |
| Text.SplitSecond | src/trader/strategy_manager.py:212 | with a separator present there is a second part; the text after the first separator starts with it, and it holds no separator |
| Text.SplitHasSecond | src/trader/strategy_manager.py:136 | with a separator present there are at least two parts |
| Text.SplitSecondIsNextHead | src/trader/strategy_manager.py:212 | the second part is the first part of what follows the first separator |
| Text.SplitHeadIsPrefix | src/trader/strategy_manager.py:133 | the text starts with its first part |
| Text.SpaceRunEnd | src/trader/strategy_manager.py:136 | the run from `i` covers only white space and ends at a non-space or the end |
| Text.SpaceRunStart | src/trader/strategy_manager.py:136 | the run ending at `i` covers only white space and starts after a non-space or at the start |
| Text.StripLeft | src/trader/strategy_manager.py:136 | a suffix of the text that starts with a non-space, after only white space |
| Text.StripRight | src/trader/strategy_manager.py:136 | a prefix of the text that ends with a non-space, before only white space |
| Text.StripEnds | src/trader/strategy_manager.py:136 | the stripped text neither starts nor ends with white space |
| Text.StripInfix | src/trader/strategy_manager.py:136 | the stripped text is a contiguous piece of the original |
| Text.StripTail | src/trader/strategy_manager.py:136 | only white space follows the stripped piece |
| Text.StripIsTrimmedInfix | src/trader/strategy_manager.py:136 | the stripped text is the piece of the original between leading and trailing white space |
| Text.StripIdempotent | src/trader/strategy_manager.py:212 | stripping twice is stripping once |
| Text.Upper | src/scrapers/dexscreener.py:24-25 | upper-casing keeps the length and maps each character |
| Text.Lower | src/agents/researcher.py:41 | lower-casing keeps the length and maps each character |
| Text.UpperIsUpper | src/scrapers/dexscreener.py:24-25 | an upper-cased text holds no lower-case ASCII letter and upper-casing again changes nothing |
| Text.RemoveChar | src/trader/paper.py:70 | removing a character leaves none of it and adds nothing |
| Text.RemoveAbsentChar | src/agents/researcher.py:29 | removing an absent character changes nothing |
| Text.ParseInt | src/trader/strategy_manager.py:138 | `int()` accepts only a non-empty text |
| Text.NatToString | src/llm/ensemble.py:125 | the decimal text of a natural number is a non-empty run of digits |
| Text.DigitValueOfString | src/trader/strategy_manager.py:138 | the digits written for n have the value n |
| Text.DigitsAreRun | src/trader/strategy_manager.py:138 | a non-empty run of digits is accepted by `int()` |
| Text.ParseIntOfString | src/trader/strategy_manager.py:138 | `int()` reads back every integer that `str()` writes |
| Text.ReplaceChar | src/trader/strategy_manager.py:47 | replacing one character keeps the length and changes only that character |
| Text.AbsentCharNotContained | src/llm/ensemble.py:124-126 | a text lacking a character of the pattern does not contain the pattern |
| Text.ContainsInfix | src/trader/strategy_manager.py:211-212 | a pattern in a piece of a text is in the text |
| Text.FindChar | src/trader/strategy_manager.py:136 | the first occurrence of a one-character separator is found at its position |
| Text.SplitAbsent | src/trader/strategy_manager.py:133 | without the separator the text is a single part |
| Text.SplitFirst | src/trader/strategy_manager.py:136 | splitting at the first occurrence of a character gives the text before it, then the parts of the rest |
| Text.SplitNone | src/trader/strategy_manager.py:136 | without the character the text is a single part |
| Text.SplitInTwo | src/llm/ensemble.py:125 | `a + c + b`, with no c in a or b, splits into exactly [a, b] |
| Text.StartsWithContains | src/llm/ensemble.py:124 | a text that starts with a pattern contains it |
| Text.StripOneSpace | src/llm/ensemble.py:125 | a text with one leading space and non-space ends strips to the rest |
| Text.SplitPartContains | src/trader/strategy_manager.py:133-140 | a pattern found in a line is in the whole reply |
| Seqs.Prefix | src/agents/researcher.py:53 | Python's `[:k]`: a prefix of min(k, length) elements for k >= 0, and the length plus k (not below 0) for negative k |
| Seqs.SumAppend | src/ml/indicators.py:95 | the sum of a concatenation is the sum of the sums |
| Seqs.SumNonNegative | src/ml/indicators.py:97 | a sum of non-negative terms is non-negative |
| Seqs.SumZeroIsAllZero | src/ml/indicators.py:97 | a sum of non-negative terms is zero only when every term is zero |
| Seqs.SumConstant | src/ml/indicators.py:95 | the sum of n copies of c is n times c |
| Seqs.Filter | src/scrapers/dexscreener.py:22-26 | the kept elements are exactly those of the input that satisfy the condition |
| Seqs.FilterAppend | src/scrapers/dexscreener.py:23-26 | filtering a concatenation concatenates the filtered parts |
| Seqs.Count | src/listener.py:43 | the count is the element's multiplicity |
| Ranking.Insert | src/scrapers/dexscreener.py:36 | inserting adds exactly one element |
| Ranking.SortByRank | src/scrapers/dexscreener.py:36 | the sort keeps every element, with its multiplicity |
| Ranking.InsertSorted | src/scrapers/dexscreener.py:36 | inserting into a sorted list keeps it sorted |
| Ranking.SortIsSorted | src/scrapers/dexscreener.py:36 | the sorted list is ordered by priority, then by descending weight |
| Ranking.InsertStable | src/scrapers/dexscreener.py:36 | inserting places the element ahead of the equal-keyed ones |
| Ranking.SortIsStable | src/scrapers/dexscreener.py:36 | among equal keys the input order is kept |

## Left out

- Floating point: prices, balances and scores are reals. There is no IEEE rounding, overflow or NaN.
- `math.sqrt` is known only to be non-negative and zero exactly at zero. This is enough for the stated sign and symmetry facts, but not for numeric values.
- Case mapping and `\b` cover ASCII only. The model has no Unicode case folding and no Unicode word characters.
- JSON `null` values are not modelled: a field is either absent or present. A missing history is treated as an empty one.
- Clocks are not modelled: timestamps, trade ids derived from the clock, and the tweet query's since-date are left out. A trade id is a parameter.
- Concurrency is not modelled. `asyncio.gather` is an ordered sequence of replies, one per task.
- The provider HTTP clients and how they are constructed are not part of this model; a backend is its provider type, model and key. The wording of the prompts sent to backends is not modelled. The default system prompts are symbolic names, not their texts.
- Listener.Dedup: lists the groups in order of last occurrence, where `groupby` sorts them by tag. The group order only decides how tags with equal counts are ordered, and pandas leaves that tie order unspecified, because `sort_values` uses quicksort by default. Listener.TopTickersSound, Listener.TopTickersComplete and Listener.RankNewTickers therefore fix one tie order (a stable sort over the groups in last-occurrence order). The source may order tied tags differently and, when ties straddle the third place, report a different tied tag.
- The listener's `avg_sent` and `first_tweet` columns, the VADER sentiment score, and the tweet fields other than the content are left out.
- `get_portfolio` is left out. SQL row order is taken as insertion order. Database exceptions other than the refused insert, and transaction rollback, are not modelled. Trade notes are never NULL in the model.
- The trades insert in `src/trader/paper.py` supplies a different number of values than the columns `src/db.py` declares. Whether the store accepts the row is therefore the `storeAccepts` parameter of `Ledger.PaperTrader.OpenTrade`.
- Indicators.Rsi: requires `period >= 1`, and so does Indicators.CalculateRsi. With a period of 0 the source divides by zero.
- Indicators.Ema: requires `span >= 1` and a non-empty series. An empty series raises `IndexError` in the source, and `calculate_macd` never passes one. A span of 0 would make the smoothing factor 2, and that case is not modelled.
- Indicators.CalculateMacd: requires `fast`, `slow` and `signal` to be at least 1, as does the function it computes, Indicators.MacdOf. The source accepts 0 and then smooths with the factor 2.
- Indicators.BandsSymmetric: requires `period >= 1`, as do Indicators.BandsOrdered and Indicators.FlatPricesCollapseBands. With a period of 0 the source divides by zero.
- The web search: `max_results` is passed to the search engine but the model does not enforce it. The tweet stream is finite. Whether the researcher has a search client is the `available` parameter. Importing the search library is not modelled.
- Text.ParseInt: states only that an accepted text is non-empty; what it accepts is tied to `str()` by Text.ParseIntOfString. Python's `int()` also accepts surrounding white space and non-ASCII digits, which the model does not.
