# Verification of the trading agent

A Dafny model of the agent's decision, accounting and recovery logic, with proofs of what it promises.
`dafny verify dfyconfig.toml` checks everything.

The model has five parts.

* **The trade protocol** (`LiveLoop`, `PersistentState`, `Durable`, `Agent`, `Ticks`, `Runs`, `Watchdog`). One pass
  of the live loop reconciles from chain, decides, appends a receipt, stages the intent on disk, calls the executor,
  books the fill and writes one snapshot. It is a transition system over the disk, the memory, the two logs and a
  control point; the loop may raise and the process may die before any step, and any read of the chain may fail.
  Statements about it hold in every state that some sequence of steps reaches. `Durable` shows that the
  program on its real state file, whose writes may break off anywhere, only makes runs of this system;
  `Agent` puts the ledger, the strategy and the engine into it, `Ticks` says what a whole tick does to the
  ledger, and `Runs` what runs keep of it.
* **The verifiable log** (`Canonical`, `JsonText`, `Receipts`, `ExecLog`). The canonical JSON form, the hash
  chain over it, and the two public verifiers. SHA-256 is a parameter `H`; what is assumed of it, only
  among the texts actually hashed, is `Receipts.SoundOn`.
* **Strategy, policy engine and ledger** (`Ladder`, `Signals`, `Survival`, `Cascade`, `Engine`, `Ledger`, `Booking`,
  `NavFloor`). Two rule cascades written independently, the ledger that books what they agree on, and the floor
  under NAV that the three give together. `Cascade` and `Booking` say what the cascade decides and the ledger
  books in terms of prices, quantities and dollars alone.
* **The backtest** (`Portfolios`, `Lots`, `Champion`, `Choices`, `Backtest`, `Samples`, `Threshold`, `Breaches`,
  `Metrics`). A portfolio under fees and slippage, the champion with its flat-cooldown re-baseline, the hourly run
  over a price feed, and the drawdown scans. `Choices` says what the champion decides without its functions, and
  `Samples` follows particular runs hour by hour.
* **Nonces and order sizing** (`Nonce`, `Sizing`).

`Rounding`, `Arithmetic` and `Wrappers` are shared. What the source does by updating objects is a class
whose methods are proved against a function on values; the theorems are about those functions. Where a
proof needs only the name of a function its body is hidden, to keep verification quick.

Numbers: Python floats are modelled by reals, with `round(x, 2)` as rounding half to even (`Rounding`), and
`Decimal` by exact reals. Clocks, market data, chain replies and the results of executors are parameters.

Where the repository's own words and its code differ, the model follows the code:

* `backtest/portfolio.py:31` says `entry_hour` is the hour of the last open or add; the code sets it only when
  a position is opened (lines 157-159), so adding to a position does not restart its time stop:
  `Portfolios.AddingKeepsEntryHour`.
* `agent/run_live.py:176-178` relies on the reconcile having absorbed whatever was broadcast. When no
  reconcile is configured the flag is cleared all the same, and the same trade can be sent again:
  `LiveLoop.RefireCondition` says exactly when, and `Agent.StrategyRefires` that the strategy does it by itself.
* `backtest/portfolio.py:105-118` presents a re-baseline as accepting a loss. Because a book counts as flat up
  to a tolerance of 1e-9, it can raise the high-water mark instead, exactly when the NAV last marked is below
  199 tolerances, 199 billionths of a dollar (`Threshold.RaiseCondition`). A floor under the NAVs of a run keeps
  the recorded drawdowns from exceeding the true ones exactly if it is at least that (`Threshold.SoundCondition`).
* `backtest/portfolio.py:111-113` and `backtest/champion.py:168-170` say that a re-baseline leaves the reported
  figures honest. That is so of the maximum drawdown, which is read from the NAVs; but the elimination hour
  is read from the recorded drawdowns (`backtest/run.py:286-287`), and a breach can go unreported there:
  `Breaches.BreachUnreported`.

## Model

| member | source | states |
|---|---|---|
| LiveLoop.NoRefire | agent/run_live.py:166-214 | With a reconcile configured: after a life dies between staging an intent and its end-of-tick write, the next executor call anywhere in the future is preceded by a successful reconcile immediately followed by the clearing of that very intent's flag, and until then nothing is decided, staged or sent, through any number of failed reads and deaths |
| LiveLoop.OrphanStaysOnDisk | agent/run_live.py:166-184 | In every reachable state the pending intent on disk is the one the history says is unsettled, and there is none when all are settled |
| LiveLoop.CallFindsIntentOnDisk | agent/core.py:127-208 | When the executor is called live, the intent with the call's own number, decision and amount is already on disk, and its receipt, in the chain with verdict allow or clamp, records that very decision |
| LiveLoop.IntentNumbersIncrease | agent/core.py:179-195 | Over any runs, lives and crashes, live calls carry strictly increasing intent numbers |
| LiveLoop.OrderIdsSentOnce | agent/core.py:127-208 | Where the receipts' ids are distinct, no order id is ever sent twice, over any runs, lives and crashes |
| LiveLoop.RecordsOneDecision | agent/types.py:10-24 | Two decisions with the same dictionary are the same, if the texts of their two amounts tell the amounts apart |
| LiveLoop.VerdictTextMeans | agent/core.py:126-130 | A receipt's verdict is "hold" exactly for what is no trade, "reject" exactly for what breaks a rule, "clamp" exactly for what is let through for less than asked |
| LiveLoop.RecordsMeans | agent/types.py:10-24 | The dictionary of a decision has its side, chain, tokens and amount under their names |
| LiveLoop.LostCallsBounded | agent/ops/watchdog.py:38-56 | Calls whose tick never reached its final write number at most the deaths; within one run they are, with the one in flight, at most four; another life follows exactly the first three deaths by an exception |
| LiveLoop.LivesBounded | agent/ops/watchdog.py:38-56 | A run of the watchdog has at most four lives, and each but the first follows the death of another |
| LiveLoop.LogsAlwaysVerify | agent/core.py:127-208 | In every reachable state, after a crash at any step, both logs pass both public verifiers under the committed policy, and every order id ever sent belongs to the receipt last appended before it, which let it through and records the decision it was sent for |
| LiveLoop.InvHolds | agent/run_live.py:139-214 | The invariant tying disk, memory, logs, counters and history together holds after every possible sequence of steps |
| LiveLoop.StepKeepsInv | agent/run_live.py:160-214 | Every single step, an exception or a kill included, keeps that invariant |
| LiveLoop.RefiresWithoutReconcile | agent/run_live.py:176-184 | Without a reconcile, whenever the engine lets a trade through there is a run that dies in its live call, clears that intent's flag without a read of the chain, and sends the same decision again |
| LiveLoop.RefireCondition | agent/run_live.py:166-184 | The same decision can be sent again after a death with no read of the chain in between exactly when no reconcile is configured, the executor is live, and the engine lets some trade through |
| Agent.ProtocolRuns | agent/run_live.py:160-214 | With ledger, strategy and engine in place every run is a run of the protocol |
| Agent.CallFollowsChain | agent/run_live.py:166-201 | With a reconcile, in every state that decides, records, stages or calls, after any deaths, the ledger is the synced and marked one of the balances last read, and what is about to be sent is the strategy's proposal on it, let through by the engine |
| Agent.CrashLeavesNoTrace | agent/run_live.py:166-185 | Two agents that decide on the same balances and prices decide on the same cash, holdings and NAV, whatever ledgers, deaths and broadcasts came before |
| Agent.DecidesOnChainValue | agent/run_live.py:84-113 | The NAV decided on is never above the value on chain, and below it by at most a dollar per risky symbol |
| Agent.StrategyRefires | agent/core.py:176-208 | Without a reconcile, wherever the strategy would trade, and would again on a later look at the same prices, a death in the call makes it send the same decision twice |
| Agent.SampleRefires | agent/run_live.py:176-201 | This happens, from the first start on a sample configuration |
| Agent.SampleCanTrade | agent/policy/engine.py:84-161 | The engine lets some trade through, so that the condition for sending again can be met |
| Ticks.TickBooks | agent/core.py:169-213 | A tick that ends, whatever course it takes and whatever came before, leaves in memory and on disk the ledger that a pass of `NavFloor` makes of the one decided on: the fill is booked exactly if the executor reported the trade as executed |
| Ticks.IterationBooks | agent/run_live.py:160-204 | A whole iteration makes that pass on the ledger read from chain or, without a reconcile, on the agent's own, seeded only if it is empty |
| Ticks.LogTellsFill | agent/core.py:196-213 | A record of the execution log bears its receipt's number, hash, id and time, and says "executed" exactly if the tick's ledger has the fill |
| Runs.FloorHoldsOverRuns | agent/run_live.py:160-214 | Without a reconcile: from an answer that books a buy to the next one, through any steps, deaths and restarts, the NAV that an iteration marks at any positive prices is at least (1-T)(1-cap) of the high-water mark at that buy, less half a cent |
| Runs.SampleRunBuys | agent/core.py:176-213 | Such a run exists: begun with a thousand dollars, the sample agent reaches a call whose answer books a buy |
| Runs.EntryIsKept | agent/run_live.py:71-79 | Through any reconciles, fills of other tokens, deaths and restarts a position keeps its entry price and time, as long as every balance read of it counts and no trade in it is executed |
| Watchdog.RunWithWatchdog | agent/ops/watchdog.py:29-56 | At most maxRestarts + 1 lives are given; each further life follows an exception with no kill file; and the reported end is exactly how the last life and the kill file ended it |
| PersistentState.LastCompleteWriteSurvives | agent/ops/state.py:58-96 | Of the file that any writes leave, each possibly breaking off anywhere, a load yields the whole state of the last write that reached its rename, with nothing of any other |
| PersistentState.WriteAll | agent/ops/state.py:83-96 | Writes made one after another on a store, each possibly breaking off, leave exactly that file |
| PersistentState.LoadMeans | agent/ops/state.py:40-56 | A load finds under each key what the file's object has, or else the default; anything but an object is an error |
| Durable.EveryRunIsModelled | agent/run_live.py:160-214 | Through any broken writes, deaths and restarts the program on the real file makes a run of the transition system, and what a life would load shows the disk of that run |
| Durable.CallFindsIntentInFile | agent/core.py:176-195 | When the executor is called live, the state file already shows the call's number and, as pending, its decision and amount |
| Durable.PendingMeans | agent/core.py:180-186 | A pending intent that is shown has its number, side, tokens and amount under their names |
| Durable.ShowsOneSnapshot | agent/core.py:180-189 | A state file shows one intent number and one pending number |
| PersistentState.Store.Load | agent/ops/state.py:40-56 | A missing file gives the defaults, an object is merged over them, anything else is an error that leaves the loaded data alone |
| PersistentState.Store.Write | agent/ops/state.py:83-96 | The file holds either the complete new snapshot or the complete old one, by whether the rename was reached |
| PersistentState.Store.Update | agent/ops/state.py:74-81 | Unknown keys change nothing at all; known ones are merged and saved atomically |
| Canonical.StripIdempotent | agent/policy/canonical.py:30-36 | Stripping comments twice is stripping once |
| Canonical.StripMeans | agent/policy/canonical.py:30-36 | No key at any depth of what is left begins with an underscore, array items stay in their places, and a value without such keys is left alone |
| Canonical.StripMembersContents | agent/policy/canonical.py:30-36 | Exactly the members whose key does not begin with an underscore remain, their values stripped |
| Canonical.NormaliseSame | agent/policy/canonical.py:39-42 | Two values normalise to the same value exactly when they are equal up to the order of members, at every depth |
| Canonical.NormaliseAscends | agent/policy/canonical.py:39-42 | In every object, at any depth, each key is a proper beginning of the next, or has the smaller code point where they first differ |
| JsonText.ReadEscapedChar | agent/policy/canonical.py:39-42 | An escaped character, surrogate pairs included, is read back by the grammar of section 7 of RFC 8259 |
| JsonText.ReadEscapedString | agent/policy/canonical.py:39-42 | Every string printed is a JSON string that denotes it, whatever follows |
| JsonText.PrintUnambiguous | agent/policy/canonical.py:39-42 | From a printed value and what follows, both can be recovered: no two different values share a text |
| JsonText.ReadPrinted | agent/policy/canonical.py:39-42 | A JSON reader that allows no white space between tokens gets back from the text of any value, whatever delimits it, exactly that value, and stops where it ends |
| JsonText.CanonicalReads | agent/policy/canonical.py:39-42 | Canonical text, read as JSON, is the comment-free value up to the order of members, with the members of every object in ascending order |
| JsonText.EscapeIsShortest | agent/policy/canonical.py:39-42 | Of all printable ASCII texts that a reader takes for a character, its escaped form is the shortest, and the one in small hexadecimal digits |
| JsonText.CanonicalInjective | agent/policy/canonical.py:39-42 | Canonical texts are equal exactly when the comment-free values are equal up to the order of members |
| JsonText.CanonicalPrintable | agent/policy/canonical.py:39-42 | Canonical text is printable ASCII, so its bytes are its characters |
| Receipts.TamperEvident | agent/policy/receipt.py:108-128 | Two chains the verifier accepts end in the same hash exactly when they have equal length and the same record at every index |
| Receipts.BodyMeans | agent/policy/receipt.py:54-59 | The body hashed is a dictionary of every field but the two hashes, each under its name |
| Receipts.BodyCommits | agent/policy/receipt.py:54-62 | Two receipts have the same canonical body exactly when every committed field agrees, the decision up to comments and member order |
| Receipts.VerifyChain | agent/policy/receipt.py:108-128 | The verifier accepts exactly the valid chains, and otherwise names the first broken link and how it breaks |
| Receipts.ReceiptChain.Append | agent/policy/receipt.py:91-100 | Appending keeps a valid chain valid and a numbered one numbered |
| Receipts.AppendKeepsValid | agent/policy/receipt.py:84-100 | Whatever the producer writes, the verifier accepts |
| Receipts.HashesDistinct | agent/policy/receipt.py:84-128 | In a numbered valid chain no two receipts share a hash |
| Receipts.CidIsDigestPrefix | agent/policy/receipt.py:34-38 | An order id is the first 32 hexadecimal digits of its receipt's digest |
| ExecLog.VerifyExecutions | agent/policy/execlog.py:77-102 | The report is ok exactly when every logged order carries the id of a receipt in the chain that let it through, and it lists every order that does not, with the reason |
| ExecLog.FindingsMean | agent/policy/execlog.py:85-101 | An order is found fault with exactly if its id does not belong to its receipt's hash, there is no such receipt, or the last receipt of that hash says neither "allow" nor "clamp"; a rejected one is reported with its verdict |
| ExecLog.ProducedLogsAreBound | agent/policy/execlog.py:50-102 | Orders recorded from receipts of a valid chain that let them through always pass the verifier |
| Ladder.ScanLadder | agent/policy/engine.py:76-81 | The loop finds the last entry reached |
| Ladder.RungIsMostSevere | agent/strategy/survival.py:50-55 | On an escalating ladder the rung found is the most severe one reached, in whatever order the ladder is written |
| Ladder.RungIsDeepest | agent/policy/engine.py:60-82 | On any ladder, in whatever order it is written, the rung is the action of the deepest threshold reached, of equal ones the last written |
| Engine.AllowedTradeIsSafe | agent/policy/engine.py:84-161 | An allowed trade has fresh data, a committed pair and no rung against it, and its size respects the decision, the caps and the exposure room, up to half a cent |
| Engine.AllowedSize | agent/policy/engine.py:108-161 | An allowed trade is in whole cents and, up to half a cent, for the least of what was asked, the dollar cap, the share of NAV and a buy's exposure room, the caps being halved on the halving rung; it counts as clamped exactly when that is less than what was asked |
| Engine.RejectsFirstBroken | agent/policy/engine.py:84-143 | A trade is rejected exactly when it breaks one of the eight rules, a buy that is clamped to the exposure room being free of the rate limits, and the reason names the first it breaks |
| Rounding.RoundsToNearest | agent/policy/engine.py:158-161 | Rounding gives the nearest unit, cent or ten-thousandth, and of two as near the even one |
| Engine.DeeperIsStricter | agent/policy/engine.py:76-161 | A deeper drawdown never turns a rejection into an approval and never raises the size of a risk-increasing buy |
| Signals.RankEntries | agent/strategy/signals.py:63-73 | The loop and in-place sort compute the ranking |
| Signals.RankedIsBestFirst | agent/strategy/signals.py:36-73 | The ranking holds exactly the risk-on tokens, best score first |
| Signals.ClassifyMeans | agent/strategy/signals.py:36-60 | A token is risk-on exactly when both momenta are up and its volatility is below the ceiling or unknown, and risk-off exactly when both are known and it is too volatile or both are down |
| Signals.RankedByStrength | agent/strategy/signals.py:63-73 | The rising tokens are ranked by the sum of the momenta less the volatility, tokens of equal sum in the order of the views |
| Signals.PriceMapMeans | agent/strategy/survival.py:79 | A token's price is that of the last view of it |
| Survival.ScanExits | agent/strategy/survival.py:82-100 | The scan stops at the first held position that must close, and at none exactly when none must |
| Survival.ScanEntries | agent/strategy/survival.py:112-120 | The scan stops at the best-ranked token that is not held and whose size reaches a dollar, and at none exactly when there is none |
| Survival.Decide | agent/strategy/survival.py:75-157 | The cascade with its loops computes the intent the theorems speak of |
| Cascade.ExitRule | agent/strategy/survival.py:82-100 | A position is closed exactly when the ladder demands stablecoins, the price has fallen by the stop or risen by the target from the entry price, or it was held for the longest time; the first such position is closed, for its whole value in cents |
| Cascade.EntryRule | agent/strategy/survival.py:102-120 | With nothing to close, a token is entered exactly when the ladder allows new risk, more than one percent of room is left, and some rising token of the universe is not held and worth a dollar's entry; it is the strongest such token |
| Cascade.EntrySizeIsLeast | agent/strategy/survival.py:58-72 | An entry is for the least of the dollar cap, the room and a share of NAV, halved on the halving rung, that lies between the least and the greatest share as the volatility lies between the ceiling and zero |
| Cascade.CalmerIsLarger | agent/strategy/survival.py:65-67 | Of two tokens of known volatility the calmer is entered for at least as much |
| Cascade.RebalanceRule | agent/strategy/survival.py:122-157 | Otherwise the exposure is nudged by the micro amount exactly when the interval has passed, no stablecoins are demanded, and it is below the band with a token to buy, or above it with one to sell: the strongest, else the calmest not held, or the largest holding |
| Survival.StrategyAgreesWithEngine | agent/core.py:35-48 | For a coherent configuration the decision trades what the intent says, a rebalance into a dollar token counting as a sell, and the engine rejects it exactly for stale data or a binding rate limit, never for whitelist, ladder or full exposure |
| Ledger.LiveState.MarkNav | agent/core.py:252-260 | NAV becomes cash plus the marked positions and the high-water mark never falls |
| Ledger.LiveState.ApplyFill | agent/core.py:222-249 | A fill is booked whole or not at all, as the specification's fill |
| Ledger.LiveState.SyncFromChain | agent/run_live.py:84-113 | A readable chain overwrites cash and positions; an unreadable one changes nothing and reports it |
| Booking.MarkMeans | agent/core.py:252-260 | Each holding counts at its quote, at its entry price where that is missing or zero; nothing but NAV and mark changes |
| Booking.BuyMeans | agent/core.py:222-238 | A buy is booked exactly when its token is quoted and the cash suffices; then cash falls and the position's quantity at the price and cost basis rise by the amount, its entry time stays, and the NAV at the quotes is unchanged |
| Booking.SellMeans | agent/core.py:239-249 | A sell is booked exactly when its token is held and quoted; the cash rises by the lesser of amount and holding, the rest keeps its entry, and the NAV at the quotes falls by nothing but a closed position's last billionth of a unit |
| Booking.SyncMeans | agent/run_live.py:84-113 | A reconcile leaves exactly the balances worth a dollar, each with the entry the ledger had for its symbol or, if it had none, the present quote and time |
| Booking.SyncedCash | agent/run_live.py:96-97 | Its cash is the stablecoins at their quotes, at a dollar where there is none |
| Ledger.ReconcileForgetsDrift | agent/run_live.py:53-113 | After a successful read and mark, cash, holdings and NAV depend on balances and prices alone, not on the old ledger |
| Ledger.ReconciledNavIsChainValue | agent/run_live.py:84-113 | The reconciled NAV is never above the value on chain and below it by less than one dollar of dust per risky symbol |
| NavFloor.BuildPortfolioState | agent/core.py:51-70 | Exposure and drawdown are those of the marked ledger |
| NavFloor.PortfolioMeans | agent/core.py:51-70 | The drawdown is the percentage of the high-water mark that NAV lacks; the exposure is the holdings' part of NAV, where, unlike in NAV, a holding quoted at zero counts for nothing |
| NavFloor.PassKeepsSane | agent/core.py:222-260 | No pass makes a quantity or entry price negative or adds a token outside the universe, and only a booked buy lowers cash |
| NavFloor.BuyLeavesFloor | agent/policy/engine.py:108-161 | A booked buy leaves at least (1-T)(1-cap) of the high-water mark in cash, less half a cent |
| NavFloor.NavFloorHolds | agent/run_live.py:185-201 | From a booked buy to the next, over any passes and any positive prices, NAV stays at or above that floor |
| NavFloor.SampleBuys | agent/core.py:105-125 | The floor's premises are met: on a sample configuration a fresh book buys a rising token, so the floor is about real runs |
| Portfolios.NavFallsByCosts | backtest/portfolio.py:121-207 | Over any buys, sells and flattens at one price vector NAV falls by exactly fees, slippage and dropped dust, none negative; cash stays non-negative and the three dictionaries consistent |
| Portfolios.OpCharge | backtest/portfolio.py:121-207 | The same for each single operation |
| Portfolios.DustIsSmall | backtest/portfolio.py:187-191 | What a sell drops is worth at most 1e-12 units at its price |
| Portfolios.FlattenEmpties | backtest/portfolio.py:196-207 | Where every holding has a positive price, flattening leaves an empty book whose NAV is its cash |
| Portfolios.BuyMeans | backtest/portfolio.py:121-163 | A buy fills exactly if price, amount and cash are positive and the cash exceeds the fee; it costs amount and fee or all the cash, and what is left after the fee buys units at the price plus slippage |
| Portfolios.SellMeans | backtest/portfolio.py:165-194 | A sell brings the fraction held at the price, less slippage, less the fee; the rest keeps its entry, or is dropped at a millionth of a millionth |
| Portfolios.ValueMeans | backtest/portfolio.py:64-78 | A holding is worth quantity times price, and nothing without a price |
| Portfolios.Portfolio.MarkedRisk | backtest/portfolio.py:73-78 | The sum over the dictionary does not depend on its order |
| Portfolios.Portfolio.Buy | backtest/portfolio.py:121-163 | A buy is the specification's buy on the account, keeps the dictionaries consistent, and returns exactly the cash that left |
| Portfolios.AddingKeepsEntryHour | backtest/portfolio.py:149-160 | A filled buy sets the entry hour only when it opens the position |
| Portfolios.Portfolio.Sell | backtest/portfolio.py:165-194 | A sell is the specification's sell, keeps the dictionaries consistent, and returns exactly the cash that came in |
| Portfolios.Portfolio.Flatten | backtest/portfolio.py:196-207 | Selling the holdings one after another, in any order, turns the sellable ones into their value at net prices and counts each |
| Portfolios.Portfolio.Mark | backtest/portfolio.py:85-100 | One NAV and one drawdown are recorded, against the raised high-water mark |
| Portfolios.Portfolio.Rebaseline | backtest/portfolio.py:105-118 | The high-water mark becomes the present NAV, the last drawdown zero, and nothing else recorded changes |
| Lots.AverageRefinesLots | backtest/portfolio.py:149-191 | Over any trades at any prices, quantity and entry price are the total and the weighted average of the lots bought, each sell shrinking every lot alike |
| Champion.ScanState | backtest/champion.py:129-141 | The loop finds the last known action reached, in the order written |
| Champion.ScanExits | backtest/champion.py:193-208 | The first asset of the universe with a stop, a target or a time limit reached is sold, and none exactly when none has |
| Champion.ScanEntries | backtest/champion.py:229-261 | The best-so-far loop computes the strongest of the assets that pass every filter |
| Champion.StrongestIsFirstGreatest | backtest/champion.py:252-258 | That is a candidate of greatest momentum, and the first of equals |
| Choices.LadderStateMeans | backtest/champion.py:129-142 | The rung is the known action of the last threshold reached in the order written, however deep |
| Choices.ExitRule | backtest/champion.py:181-208 | At the stablecoin rung everything is flattened; otherwise the first asset whose price has fallen by the stop or risen by the target from its entry, or that was held the longest time, is sold whole, and nothing is sold exactly if there is none |
| Choices.MomentumMeans | backtest/champion.py:97-105 | The momentum is positive exactly if the price has risen over the lookback, and by how much |
| Choices.SizeMeans | backtest/champion.py:244-252 | An entry's share of NAV is twice the greatest share over the volatility, within the least and the greatest, halved on the halving rung |
| Choices.EntryRule | backtest/champion.py:214-274 | With nothing to sell and no blocking rung an entry is made exactly if the risk is below the cap and the cash covers it: of the assets risen over every lookback and within the volatility limit, the first of greatest momentum |
| Choices.MicroRule | backtest/champion.py:276-298 | Otherwise the micro amount is bought exactly at the cadence, on no rung, below the band and with the cash for it; else nothing is done |
| Champion.Decide | backtest/champion.py:145-298 | One decision does the cooldown bookkeeping on the portfolio, leaves its account alone, and returns the choice on the result |
| Champion.NoBuyOnBlockingRung | backtest/champion.py:181-212 | No buy is chosen once the drawdown has reached a rung that blocks new risk |
| Champion.BuyStaysUnderCap | backtest/champion.py:214-296 | Right after a filled entry the risk is below (max_risky + max_single) of the NAV before it, and after a micro-rebalance below (target - band) of it plus the micro amount, at every re-decision |
| Backtest.RunStrategy | backtest/run.py:66-99 | The nested loops over hours and re-decisions, each hour shown its prices and the histories up to it, compute the specified run, and its recorded drawdowns ratchet |
| Backtest.RunHour | backtest/run.py:82-97 | An hour of up to four re-decisions, broken off by a hold or an unexecuted trade, is the specified hour |
| Backtest.Execute | backtest/run.py:46-63 | An intent does to the account what the operation it names does, and counts as executed exactly when there was a fill |
| Backtest.RunRatchets | backtest/run.py:66-99 | Over every run each recorded drawdown is at most the true drawdown of the curve up to it while the NAVs before it are at least 199 tolerances, and equals it if the mark was never re-based |
| Backtest.HourRatchets | backtest/run.py:82-95 | This survives any number of re-decisions, with their re-baselines, trades and flattens |
| Backtest.RebaselineNeverRaises | backtest/champion.py:171-179 | A re-baseline never raises the high-water mark when the last marked NAV is at least 199 tolerances |
| Threshold.RaiseCondition | backtest/champion.py:164-179 | A re-baseline can raise the high-water mark exactly where the NAV last marked is below 199 tolerances: for every such NAV a run over the hours from 0 on, begun with cash alone, does, and at or above it no run of any hours |
| Threshold.SoundCondition | backtest/run.py:81-97 | The recorded drawdowns are at most the true ones on all runs whose NAVs stay at or above a floor exactly if that floor is at least 199 tolerances, and runs over the hours from 0 on need no less |
| Threshold.RaisesOnlyBelow | backtest/champion.py:164-179 | No run, at any re-decision of any hour, raises the mark from such a NAV or above |
| Threshold.RaisesBelow | backtest/champion.py:164-179 | From every smaller NAV a run of 24 hours of one price feed that buys and loses all, and then rebounds, does raise it |
| Breaches.TrueDropMeans | backtest/metrics.py:43-54 | The true drawdown at an hour reaches a gate exactly if the curve from the initial cash on falls by it from some earlier value |
| Breaches.BreachIsTrue | backtest/metrics.py:81-86 | A breach of a gate in the recorded drawdowns is a fall of at least the gate from an earlier value of the real curve, and so of its maximum drawdown |
| Breaches.UnrebasedBreachIsExact | backtest/run.py:286-287 | Without a re-baseline the hours reported are exactly the hours of true breaches |
| Breaches.FirstBreach | backtest/metrics.py:81-86 | Without a re-baseline the scan returns the first true breach, and none exactly if there is none |
| Breaches.BreachUnreported | backtest/champion.py:171-179 | With one, a run from hour 0 on whose every recorded drawdown is below six percent while its curve has fallen by more |
| Metrics.WorstDropIsMaximum | backtest/metrics.py:43-54 | The one-pass scan bounds the drop between every earlier and later value, and some pair attains it |
| Metrics.MaxDrawdownPct | backtest/metrics.py:43-54 | The loop returns that maximum |
| Metrics.PerRegimeDrawdown | backtest/run.py:240-265 | Each window gets its worst drawdown from the peak carried over the whole curve so far |
| Metrics.WindowDropMeans | backtest/run.py:240-265 | That is the greatest fall to a value of the window from any value since the first bound, and some pair attains it |
| Metrics.DropReaches | backtest/metrics.py:43-54 | A drop reaches a percentage exactly if what is left is at most the rest of the peak |
| Metrics.RegimesKeepMaximum | backtest/run.py:240-265 | Contiguous windows covering the curve have, rounding included, its overall maximum: no drop is lost at a boundary |
| Metrics.FirstBreachHour | backtest/metrics.py:81-86 | The first hour at or above the gate is returned, and none exactly when there is none |
| Nonce.NoncesIncrease | agent/ops/nonce.py:31-74 | Over any calls and chain replies the nonces handed out strictly increase and every open one is below the next |
| Nonce.GapIsAbsorbing | agent/ops/nonce.py:46-74 | Once gapped, always gapped, and nothing more is handed out |
| Nonce.UngappedSyncSawLowest | agent/ops/nonce.py:31-44 | A later sync leaves the manager ungapped exactly when it was so and no nonce is open or the chain is past the lowest open one |
| Nonce.SyncedMeans | agent/ops/nonce.py:31-44 | A later sync settles exactly the open nonces the chain has passed, and leaves a gap exactly where there was one or the chain waits for the lowest open one |
| Nonce.ReserveMeans | agent/ops/nonce.py:46-58 | The next nonce is handed out and opened exactly when there is no gap and it is known or can be read |
| Nonce.ClosingMeans | agent/ops/nonce.py:60-74 | A nonce that failed below the next, or was confirmed above an open one, leaves a gap, and neither call closes another nonce by itself |
| Nonce.NonceManager.Sync | agent/ops/nonce.py:31-44 | Settles what the chain has passed; an unreadable chain changes nothing |
| Nonce.NonceManager.Reserve | agent/ops/nonce.py:46-58 | Hands out the next nonce, or raises when gapped or when a first sync fails |
| Nonce.NonceManager.OnConfirmed | agent/ops/nonce.py:60-66 | Closes the nonce and detects one left open below it |
| Nonce.NonceManager.OnFailed | agent/ops/nonce.py:68-74 | Closes the nonce and marks the gap it leaves |
| Sizing.Size | agent/execution/injective_backend.py:120-148 | With ticks known, quantity and worst price are whole ticks, the order is worth at most the dollars asked and less than a tick short of them, and the price is within a tick of the slippage bound on the marketable side |
| Sizing.SnapRounds | agent/ops/injective_market.py:150-159 | Snapping gives a whole multiple less than a tick away, in the direction asked |
| Sizing.SnapFixesMultiples | agent/ops/injective_market.py:150-159 | Snapping leaves exactly the whole multiples alone, hence is idempotent |
| Sizing.SlippageBoundMeans | agent/execution/injective_backend.py:125-126 | The tolerance is in hundredths of a percent of the reference price, above it for a buy and below for a sell |
| Sizing.UfixedRoundTrip | agent/ops/injective_market.py:67-73 | One is 10 to the 18th; truncation to 18 places loses less than 1e-18 towards zero, and nothing exactly on its multiples; raw amounts survive |
| Sizing.ChainAmountRoundTrip | agent/ops/injective_market.py:76-82 | A raw balance read into human units converts back to the same integer for any token decimals, each of which makes a unit ten times as many |

## Left out

- Network and process effects: market data, the payment gate, RPC transport, subprocess backends and the
  contract call are results supplied to the model, each possibly a failure.
- Floating-point error: reals stand for floats, so NaN, infinities and rounding inside `repr` or
  `f"{amount:g}"` are not modelled. Number lexemes in JSON are kept as text.
- SHA-256 itself: a parameter, assumed to give 64 digits, no collision among the texts hashed, and never the
  all-zero digest.
- JSON inputs with keys that are not strings, with repeated keys, or with lone surrogates.
- PersistentState.WriteAll: the write is atomic at its rename; a `fault` says where it breaks off.
- Text files: lines are appended whole, the state file's text reads back as the dictionary written, and a
  rename is atomic. Torn lines and a second writer are not modelled.
- Upper-casing: token symbols are taken to be in upper case, and the reasons and rationale texts are tags.
- `confidence`, the abstention record, the heartbeat and backoff sleeps, and the equity file: they decide nothing.
- The hourly trade counter: `tick` reads `trades_last_hour` and never advances it, so no rate-limit
  guarantee is claimed, and a buy clamped to the exposure room passes before the rate checks.
- Liveness: an exit's amount is rounded to cents, so a residual worth under half a cent gives an exit of size
  zero that keeps its priority. No claim is made that exits complete.
- "Drawdown stays under 6%": the code does not imply it over arbitrary prices; `NavFloor.NavFloorHolds` is
  what it does imply.
- Agent.CallFollowsChain: chain balances are whatever a read returns; that they reflect the broadcasts is the
  chain's part. Of the state file's two halves `Durable` treats the protocol's, `Agent` the ledger's.
- Ledger.LiveState.ApplyFill: positions are values, so that the source updates the inner dictionary of a
  position in place is not captured.
- Ledger.LiveState.SyncFromChain: stands for both reconcile functions, whose loops over balances agree once
  the balances are read; how each reads its balances is left out.
- Ladder.ScanLadder: the actions are the three the program knows.
- Signals.RankEntries: volatilities are non-negative, as absolute moves and standard deviations are; so no token
  that ranks makes the sizing divide by a ceiling of zero.
- Nonce.NonceManager.Sync: the confirmed and failed sets only record; no operation reads them.
- Champion.Decide: the realised volatility of an asset is an input, since it rests on logarithms and a
  standard deviation; the ledger of printed lines and the naive challenger strategy are left out.
- Backtest.RunRatchets: the prices of the feed are non-negative.
- Sizing.ChainAmountRoundTrip: decimals are exact here; Python's default context keeps 28 significant digits, so
  that the round trip loses the digits of a raw amount beyond the 28th. The same holds of the other members of
  `Sizing`.
- Sharpe, Calmar and total return; the order-book and indexer reads; the older loop, the guardrail policy, the
  specification generator, the web, chat and command-line interfaces, and the Solidity executor.
