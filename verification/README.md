# MA-crossover trading bot: a Dafny model of its decision logic

`ma_bot.py` is a Telegram bot. It watches a list of Binance symbols, spot or
USDT-M futures ("contract"), and computes the 9- and 26-period moving averages
of 15-minute closes once a minute. When the fast average crosses the slow one
it announces BUY or SELL. When automation is armed it also opens a futures
position for the signal, protects it with a bracket order, and closes it on
take-profit, stop-loss or the opposite signal. A dialogue in the chat
configures the leverage, the order amount and the two percentages. Positions
opened outside the bot can be adopted.

This project models that decision logic as pure functions over immutable
state. Every exchange reply is an input of the function that receives it
(`Option` where the request can fail). Each function is therefore the decision
the bot takes given those replies. Prices and averages are exact `real`
numbers.

Modules, one per file:

- `Common` (common.dfy): `Option`, `Result`, signal, side and market kinds.
- `Indicator` (indicator.dfy): `calculate_ma`.
- `Poller` (poller.dfy): the poll step of one watched key: skip rules, crossover edges, per-key state.
- `Settings` (settings.dfy):
  - the trade-settings document and its default merge
  - the validity the dialogue enforces
  - order sizing
- `Book` (book.dfy):
  - the position store: `positions`, `oco_orders` and `existing_positions`
  - the two filters over the exchange's position-risk reply
- `TpSl` (tpsl.dfy): `check_tp_sl` thresholds and decisions, and the bracket prices of `place_oco_order`.
- `Trading` (trading.dfy): `execute_trade` and `close_position`.
- `Monitor` (monitor.dfy): the whole loop body for one watched item: poll, trade, then TP/SL checks.
- `Reconcile` (reconcile.dfy): discovery, adopt-all, toggle-selection and confirmation of foreign positions.
- `Dialogue` (dialogue.dfy): the `step` branches of `handle_message` and the configuration and reconciliation buttons, with event runs.

## Model

| member | source | states |
|---|---|---|
| Common.SideOf | ma_bot.py:435-439 | A BUY records a LONG position and a SELL records a SHORT one; the two sides are never confused. |
| Common.ClosingOrder | ma_bot.py:491 | The order that closes a position is on the opposite side of that position. |
| Indicator.CalculateMa | ma_bot.py:255-263 | With fewer than 26 candles the reading is (0, 0, 0). Otherwise the price is the last close, the fast value is the mean of the last 9 closes and the slow value the mean of the last 26. |
| Indicator.Window | ma_bot.py:260-261 | `closes[-k:]` holds exactly k elements: the closes of the last k candles, in order. |
| Indicator.MeanWithinWindow | ma_bot.py:260-261 | An average lies between the lowest and the highest close of its window. |
| Indicator.MeanOfFlatWindow | ma_bot.py:260-261 | When all closes of the window are equal, the average equals that close. |
| Indicator.MeanSlides | ma_bot.py:260-261 | When one new candle arrives and the oldest drops out, the mean moves by (new close - dropped close) / k. |
| Indicator.WindowSlides | ma_bot.py:260-261 | When the history advances by one candle, the window sum gains the new close and loses the close leaving the window. |
| Indicator.SumBounded | ma_bot.py:260-261 | A sum of k values that each lie in [lo, hi] lies in [k*lo, k*hi]. |
| Poller.Detect | ma_bot.py:289-311 | BUY fires exactly when a previous pair exists with prev_ma9 <= prev_ma26 and now ma9 > ma26. SELL fires exactly when prev_ma9 >= prev_ma26 and now ma9 < ma26. The two exclude each other, and no previous pair means no signal. |
| Poller.PollStep | ma_bot.py:278-313 | A missing or short reply, or an unchanged last open-time, is skipped and changes no state. Otherwise the key's candles and averages are stored, the reading is `calculate_ma` of the reply, and the signal is Detect against the stored pair. A trade is requested exactly when there is a signal, the item is a contract and automation is armed. |
| Poller.PollStepKeepsWellFormed | ma_bot.py:279-286 | Every stored candle list holds at least 26 candles, and every key with averages also has candles. |
| Poller.SameTimestampTwiceIsSilent | ma_bot.py:283-284 | Feeding a second reply whose last candle has the same open-time yields no evaluation and no state change. |
| Poller.PollStepIsLocal | ma_bot.py:276-313 | A step for one key (symbol and market kind) leaves every other key's candles and averages untouched. |
| Poller.FirstEvaluationIsSilent | ma_bot.py:289 | The first evaluation of a key never signals or trades, but it stores the averages. |
| Poller.NextSignalReverses | ma_bot.py:293-311 | On a run without ties, the first signal after a strictly ordered pair is the opposite of that pair's order. |
| Poller.TieFreeSignalsAlternate | ma_bot.py:293-311 | On runs where ma9 never equals ma26, BUY and SELL strictly alternate. |
| Poller.TouchFiresBuyTwice | ma_bot.py:293 | Counterexample to alternation in general: 99/100, 101/100.2, 100/100, 101/100 emits BUY, BUY, because a tie satisfies both `<=` guards. |
| Poller.CrossingScenarios | ma_bot.py:293-311 | An upward cross gives one BUY, a downward cross one SELL, and a run that stays below gives nothing. |
| Poller.PollRunEmitsEdges | ma_bot.py:274-313 | Over any sequence of replies, the signals emitted equal the crossover edges of the sequence of evaluated averages, starting from the stored pair. |
| Settings.Load | ma_bot.py:94-114 | A missing or unreadable file gives the defaults (automation off, global mode, leverage 10, amount 100, no overrides, TP 0, SL 0). Otherwise each missing key takes its default and each present key keeps its value. |
| Settings.Save | ma_bot.py:129-131 | Saving writes every key. |
| Settings.SaveLoadRoundTrip | ma_bot.py:94-131 | Loading a saved document reproduces the settings exactly. |
| Settings.EmptyDocumentLoadsDefaults | ma_bot.py:108-111 | A document with no keys loads as the defaults. |
| Settings.LoadIsStable | ma_bot.py:94-114 | Load, save and load again gives the same settings. |
| Settings.DefaultsAreValid | ma_bot.py:95-103 | The defaults satisfy every bound the dialogue enforces. |
| Settings.ResolveSizing | ma_bot.py:370-382 | Global mode uses the global leverage and amount. Individual mode uses the symbol's own values, each falling back to the global one when absent. The notional is raised to 20 when below. |
| Settings.GlobalModeIgnoresOverrides | ma_bot.py:374-378 | In global mode the per-symbol table has no influence on sizing. |
| Settings.ValidSettingsGiveValidLeverage | ma_bot.py:370-378 | With validated settings the leverage sent to the exchange is within 1..125. |
| Settings.FloorOnlyRaises | ma_bot.py:381-382 | The floor never lowers an amount: an amount of 20 or more is used unchanged. |
| Settings.Quantity | ma_bot.py:404 | The order quantity times the price equals the notional value. |
| Book.RowPosition | ma_bot.py:204-209 | A nonzero amount is LONG when positive and SHORT when negative. The quantity is its absolute value and the entry price is copied. |
| Book.FindPosition | ma_bot.py:199-215 | `get_position` returns the first row with the symbol and a nonzero amount. It returns None exactly when the request failed or no such row exists. |
| Book.FirstOpenSpec | ma_bot.py:202-214 | The first-match scan returns the first open row for the symbol, or None when there is none. |
| Book.Discovered | ma_bot.py:571-577 | A discovered position starts inactive, not system-owned, with positive quantity. |
| Book.ForeignFromRowsSpec | ma_bot.py:566-577 | A symbol is discovered exactly when some row holds a nonzero amount for it. Its entry comes from the last such row. |
| Book.DiscoveredEntriesAreFresh | ma_bot.py:566-577 | Every discovered entry is inactive, foreign and has positive quantity. |
| Book.DiscoveryAgreesWithLookup | ma_bot.py:199-215 | When each symbol appears once, discovery and `get_position` report the same side, quantity and entry. |
| TpSl.ThresholdsFor | ma_bot.py:342-347 | LONG: TP = entry*(1+tp/100), SL = entry*(1-sl/100). SHORT is mirrored. |
| TpSl.CheckTpSl | ma_bot.py:349-361 | Take-profit is requested exactly when tp > 0 and the price reached the TP threshold on the position's side. Stop-loss likewise with sl > 0. TP is checked before SL. |
| TpSl.TakeProfitMeansGainOfTp | ma_bot.py:342-354 | Take-profit fires exactly when tp > 0 and the price moved at least tp percent in the position's favour. |
| TpSl.StopLossMeansLossOfSl | ma_bot.py:342-361 | Stop-loss fires exactly when sl > 0 and the price moved at least sl percent against the position. |
| TpSl.NeverBothTriggers | ma_bot.py:349-361 | With tp > 0, sl > 0 and a positive entry, one price never triggers both. |
| TpSl.ThresholdsBracketEntry | ma_bot.py:342-347 | With percentages in 0..100 both thresholds are non-negative and lie on the expected sides of the entry. |
| TpSl.BracketFor | ma_bot.py:230-251 | No bracket when neither percentage is positive; otherwise the bracket order is on the side opposite to the opening order. |
| TpSl.BracketMatchesMonitor | ma_bot.py:230-251 | The exchange bracket and the poll loop's own check use the same two prices, and the bracket closes the position it protects. |
| Trading.LatestClose | ma_bot.py:393-398 | The price is the last candle's close; an empty or missing reply gives none. |
| Trading.ClosePosition | ma_bot.py:477-540 | Succeeds exactly when the exchange reports a position, the closing order is accepted and entry*qty is nonzero. The close price is the given price, else the latest close, else the entry. Success removes the symbol from positions and bracket records, and deactivates an adopted entry when asked. Any failure changes nothing. The report carries the exchange's position, the profit (close - entry) * qty for LONG or (entry - close) * qty for SHORT at that position's entry, and the percentage `abs(profit / (entry * qty)) * 100`. |
| Trading.ProfitPercent | ma_bot.py:506 | The reported percentage is never negative. |
| Trading.ProfitMirrors | ma_bot.py:505 | LONG and SHORT of the same size closed at the same price have opposite profits. |
| Trading.ProfitSign | ma_bot.py:505 | A LONG gains exactly when the close is above the entry; a SHORT exactly when it is below. |
| Trading.PercentIsPriceMove | ma_bot.py:505-506 | The percentage is |close - entry| / |entry| * 100, independent of the quantity. |
| Trading.ProfitTracksMove | ma_bot.py:505-506 | The percentage equals the size of the favourable price move, and the profit is non-negative exactly when that move is. |
| Trading.ProfitRatio | ma_bot.py:505-506 | Profit over entry value is the relative price move, negated for SHORT. |
| Trading.TriggeredClosesRealiseThreshold | ma_bot.py:505-506 | At the entry the monitor checked, a price that triggers take-profit means a gain of at least tp percent, and one that triggers stop-loss means a loss of at least sl percent. |
| Trading.ConfirmedCloseRealisesThreshold | ma_bot.py:489-506 | When the exchange reports the position the monitor checked (same side and entry), the report of a confirmed take-profit close shows the triggering price and a gain of at least tp percent. A confirmed stop-loss close shows a loss of at least sl percent. |
| Trading.ExchangeEntryCanTurnTakeProfitIntoLoss | ma_bot.py:489-506 | A local LONG at 100 with take-profit 5 triggers at 106. The exchange reports an entry of 110, so the confirmed take-profit close reports a loss of 4. |
| Trading.ExecuteTrade | ma_bot.py:364-474 | Succeeds exactly when automation is on, the leverage is accepted, a nonzero price is available, the leverage is nonzero and the order is accepted. The new record has side LONG for BUY and SHORT for SELL, quantity*price = notional, and entry = the order's price or the candle price. A bracket is wanted exactly when tp > 0 or sl > 0. An accepted bracket order is recorded under the symbol; otherwise the bracket records are those the reversal left (unchanged, or the symbol's removed by a confirmed reversal close). Other symbols and the foreign snapshot never change. A failure before the order changes nothing. A rejected order keeps exactly what the reversal step did. |
| Trading.Reverse | ma_bot.py:407-429 | The reversal close runs exactly when the exchange holds the side opposite to the signal. It is `close_position` with the signal reason, no price and `is_existing` False; otherwise nothing changes. |
| Trading.RecordOpened | ma_bot.py:433-464 | The new position replaces the symbol's record. The bracket order is recorded exactly when one was wanted and the exchange accepted it. No foreign entry changes. |
| Trading.RejectedOrderKeepsReversalEffect | ma_bot.py:407-433 | When the order is rejected after a confirmed reversal close, the symbol's record and bracket stay removed. Without a confirmed close, a rejected order changes nothing. |
| Trading.CloseKeepsBracketsCovered | ma_bot.py:527-530 | After a close every bracket record still has its position. |
| Trading.TradeKeepsBracketsCovered | ma_bot.py:433-464 | After a trade every bracket record still has its position. |
| Trading.OpenedBracketMatchesMonitor | ma_bot.py:455-464 | The bracket of a new position uses exactly the thresholds `check_tp_sl` uses for it. |
| Trading.ReversalClosesOppositeFirst | ma_bot.py:407-431 | When the exchange holds the opposite side, a close is attempted before the order. On success the old record is replaced by the new position; otherwise the new position overwrites it. |
| Trading.NoReversalOverwritesRecord | ma_bot.py:407-439 | Without an opposite position nothing is closed and the new record replaces any stored one. |
| Trading.BuyAtFiftyOpensTwo | ma_bot.py:370-439 | Default settings with automation on, amount 100, price 50: a BUY opens LONG 2 at 50. |
| Monitor.GuardPosition | ma_bot.py:338-361 | Nothing changes unless CheckTpSl requests a close. Only the symbol's own records can disappear, and its adopted entry can only be deactivated. When the exchange confirms the first close requested (take-profit, or stop-loss when take-profit did not trigger), the position and its bracket are gone and an adopted entry for the symbol is inactive. When every requested close fails, nothing changes and the position stays for the next poll. |
| Monitor.GuardSymbol | ma_bot.py:316-325 | The managed position is checked first, with its own side and entry. The adopted entry is checked next, with its own side and entry, but only if it is still active afterwards. With neither, nothing changes. When the managed position triggers nothing, the adopted one is checked against the unchanged book. A confirmed close of the managed position removes the symbol and deactivates the adopted entry, so it is not closed a second time. |
| Monitor.MonitorItem | ma_bot.py:274-325 | The poll state is the poll step's. A skipped poll changes nothing. A spot item never touches the book. Without a trade request a contract item's book changes only by the TP/SL checks. With one, the trade runs first and the checks see its result. Without automation and with nothing to guard, the book is unchanged. |
| Monitor.MonitorItemIsLocal | ma_bot.py:274-325 | One item's pass changes no other symbol's records and keeps every foreign entry. |
| Monitor.MonitorItemKeepsBracketsCovered | ma_bot.py:274-325 | A pass never leaves a bracket record without its position. |
| Monitor.OpenedPositionIsGuardedAtOnce | ma_bot.py:299-320 | A position opened in a pass is checked in the same pass. If its take-profit is already reached and the close is confirmed, it is gone at the end of the pass. |
| Reconcile.Discover | ma_bot.py:562-584 | When some row holds a nonzero amount, the foreign snapshot is replaced by the discovered entries and the prompt is shown. Otherwise, including a failed request, nothing changes. |
| Reconcile.AdoptAll | ma_bot.py:765-775 | Every foreign entry is copied into positions with the same side, quantity and entry price, and is marked system-owned and active. Other positions and the bracket records stay as they were. |
| Reconcile.AdoptAllLeavesNoneUnmanaged | ma_bot.py:765-775 | After adopt-all every foreign entry is managed and has a position. |
| Reconcile.Toggle | ma_bot.py:801-811 | A selected symbol is deselected, and an unselected foreign one is selected with its entry. An unknown symbol is the KeyError. |
| Reconcile.ToggleTwiceRestores | ma_bot.py:805-809 | Pressing the same symbol twice restores the selection. |
| Reconcile.ConfirmSelected | ma_bot.py:827-841 | Exactly the selected entries are copied into positions and promoted; everything else is kept. None when a selected symbol is not in the snapshot. |
| Reconcile.ConfirmAllIsAdoptAll | ma_bot.py:827-841 | Confirming a selection of every foreign entry is the same as adopt-all. |
| Reconcile.ToggleDistinctSelects | ma_bot.py:801-811 | Pressing distinct, unselected foreign symbols once each adds exactly those symbols, with their entries, to the selection. |
| Reconcile.SelectEachThenConfirmIsAdoptAll | ma_bot.py:801-841 | Selecting every foreign symbol once and confirming has exactly the effect of adopt-all. |
| Reconcile.ReconcileKeepsBracketsCovered | ma_bot.py:765-841 | Discovery, adopt-all and confirmation never strand a bracket record. |
| Reconcile.DiscoverThenAdoptAll | ma_bot.py:566-577 | A symbol's last open row becomes a managed position with that row's side, quantity and entry price. |
| Reconcile.AdoptTwoForeignPositions | ma_bot.py:765-775 | BTCUSDT +0.5 @ 60000 and ETHUSDT -2 @ 3000 become LONG 0.5 and SHORT 2 with unchanged entries. |
| Dialogue.WatchSymbols | ma_bot.py:753 | The per-symbol path asks for the watch list's symbols in order. |
| Dialogue.WithLeverage | ma_bot.py:1175-1179 | The current symbol's leverage is set, its amount is kept, and the other symbols are untouched. |
| Dialogue.HandleMessage | ma_bot.py:1128-1352 | Cancel deletes the session and changes nothing else. Leverage is accepted exactly in 1..125, amounts exactly when > 0, and percentages exactly in 0..100. A rejected or non-numeric answer changes nothing. An accepted answer stores the field and moves to the next question; stop-loss stays on its step. The per-symbol path advances the index by one per accepted amount and commits the table after the last symbol. Outside the configuration steps the menu's disarm command switches automation off and changes nothing else; other menu text changes nothing. |
| Dialogue.Press | ma_bot.py:740-940 | The effect of each button. Mode choice stores the mode and asks the first question. Adopt-all, keep-as-is and confirm-selection arm automation and end the dialogue. Select toggles one symbol. Cancel ends the selection. Confirm-settings arms automation unless foreign positions are found. Decline disarms it. |
| Dialogue.MessageKeepsValid | ma_bot.py:1137-1284 | No text message can store an out-of-range value. |
| Dialogue.PressKeepsValid | ma_bot.py:740-940 | No button breaks the settings' bounds, the sessions' partial tables or the bracket records. |
| Dialogue.RunKeepsValid | ma_bot.py:1128-1284 | Any sequence of messages and buttons from a valid state ends in a valid state. |
| Dialogue.EnteredSpec | ma_bot.py:1169-1222 | With distinct symbols, the table the per-symbol path builds holds exactly those symbols, each with its own leverage and amount. |
| Dialogue.IndividualPathCommits | ma_bot.py:1169-1222 | Answering every remaining per-symbol question with valid values commits the table and moves to the take-profit question. Nothing else changes. |
| Dialogue.IndividualModeSetsEverySymbol | ma_bot.py:1169-1222 | Choosing per-symbol mode over distinct watched symbols and answering validly gives every symbol exactly its own pair. |
| Dialogue.RejectedAnswersChangeNothing | ma_bot.py:1137-1151 | "200", "0", "2.5" and text at the leverage question change nothing; "50" is stored. |
| Dialogue.SixDisarmsOnlyOutsideTheDialogue | ma_bot.py:1351-1352 | The menu text "6" switches automation off only outside the dialogue. At the leverage question it is the answer 6 and leaves automation as it was. |
| Dialogue.GlobalPathArmsAutomation | ma_bot.py:1137-1284 | Global mode with answers 200 (rejected), 50, 100, 5, 2, then confirmation with no foreign position: automation is armed with exactly those settings and the dialogue ends. |
| Dialogue.EmptyWatchListStalls | ma_bot.py:750-757 | Per-symbol mode over an empty watch list: every answer fails on the missing symbol, and only cancel leaves the step. |

## Left out

- Telegram I/O is left out: messages, keyboards, formatting, `show_status`, `show_help`, `show_auto_trade_settings` text, and the menu commands of `handle_message` other than the disarm: add/delete symbols, start/stop monitoring, and the status and help commands, which also drop the user's dialogue state. Other text outside a configuration step is treated as changing nothing, because those commands are not part of this model.
- The exchange access layer is not part of this model: `binance_request`, `generate_signature` (HMAC-SHA256), `get_klines`, `set_leverage`, `place_market_order` and `place_oco_order` as network calls. Their replies are parameters.
- `TimeSync`, `asyncio.sleep(60)`, task creation and the interleaving of user actions with the poll loop are left out. They are clocks and concurrency; each event is modelled as atomic.
- JSON file reads and writes are left out. Only the key-by-key merge of `load_trade_settings` is modelled (`Settings.Load`).
- `round(quantity, 3)` and `round(price, 4)` are left out. The model uses exact reals and makes no claim about floating-point rounding.
- Python floats `inf` and `nan` are left out. The parse results of `int(text)` and `float(text)` are given as `Option`s of exact numbers.
- `Settings.Quantity`: states the unrounded quantity; the order actually sent is rounded to 3 decimals.
- Watch keys `f"{symbol}_{type}"` are modelled as the pair (symbol, kind). This assumes no two different pairs produce the same string.
- `Reconcile.ConfirmSelected`: a selected symbol missing from the snapshot is modelled as no change. The source has already promoted earlier symbols of the selection when the KeyError strikes.
- `close_all` and the rest of `handle_auto_trade` are left out: the arming path's ping and the disarm path's position listing only query the exchange and send messages. The disarm itself is modelled (`Dialogue.HandleMessage`). Which menu text reaches it is an input flag of the message, not a model of the menu's string tests.
- `handle_message` keys the dialogue by chat id and `button_callback` by the sender's user id. The model uses one key for both, so it assumes a private chat, where the two are equal. In a group chat a dialogue started by a button is not found by the next text message.
- The default constants of `config.py` are left out. `ma_bot.py` does not use them and sets its own defaults of 10 and 100.

## Behaviour of the code that the model follows

- `close_position` closes the position the exchange reports for the symbol, not the local record.
- The profit of a take-profit or stop-loss close is computed from the exchange's entry, while the trigger used the local entry. When they differ, a take-profit close can report a loss (`Trading.ExchangeEntryCanTurnTakeProfitIntoLoss`).
- After a successful reversal close, a failed order leaves the symbol without a record (`Trading.RejectedOrderKeepsReversalEffect`).
- The reversal close passes `is_existing` False. A reversed adopted position therefore stays active in the foreign snapshot (`Trading.ExecuteTrade` keeps `foreign` unchanged).
- `prev_states` is local to `monitor_task`, but `prev_klines` is a module global. After monitoring is stopped and restarted, the averages are forgotten and the candles are kept, so the first poll after a restart is skipped when its candle has not changed. The model's poll state holds both, and its runs start from a state where both are empty, as at the first start.
- A bracket order is never cancelled when a position closes. A position closed by its bracket on the exchange keeps its local record.
- A same-side signal while already holding that side replaces the record with the new order's quantity alone.
- A tie between the averages lets two BUYs (or two SELLs) fire in a row (`Poller.TouchFiresBuyTwice`). Alternation holds only on tie-free runs.
- `check_existing_positions` does not exclude positions the bot already manages. A failed request counts as "none found" and arms automation directly.
- Choosing per-symbol mode with an empty watch list stores the dialogue state before failing on the first symbol. The dialogue then stays on that question until cancelled or another button is pressed (`Dialogue.EmptyWatchListStalls` covers text input).
- Accepting a stop-loss leaves the dialogue on the stop-loss question. A further valid answer overwrites the stored value.
