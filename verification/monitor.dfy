/**
 * One pass of the `monitor_task` loop body for one watched item: the poll
 * step, the trade a signal triggers, and the take-profit / stop-loss check
 * of the managed position and of an active adopted one, in the order the
 * loop performs them.
 */
module Monitor {
  import opened Common
  import opened Indicator
  import opened Settings
  import opened Book
  import opened TpSl
  import opened Trading
  import opened Poller

  /** Replies for the two closes one `check_tp_sl` call may request. */
  datatype TpSlReplies = TpSlReplies(takeProfit: CloseReplies, stopLoss: CloseReplies)

  /**
   * The exchange confirms the first close `check_tp_sl` requests: the
   * take-profit close when take-profit triggered, else the stop-loss close
   * when stop-loss triggered.
   */
  predicate FirstCloseConfirmed(b: Book, s: TradeSettings, symbol: string, side: Side, entry: real, price: real, rep: TpSlReplies)
  {
    var c := CheckTpSl(side, entry, s.takeProfit, s.stopLoss, price);
    || (TakeProfitClose in c
        && ClosePosition(b, symbol, TakeProfitClose, Some(price), symbol in b.foreign, rep.takeProfit).1.Success?)
    || (StopLossClose in c && TakeProfitClose !in c
        && ClosePosition(b, symbol, StopLossClose, Some(price), symbol in b.foreign, rep.stopLoss).1.Success?)
  }

  /**
   * `check_tp_sl` for a position of `side` entered at `entry`: each
   * triggered close runs `close_position` with the live price, flagged as
   * an adopted position when the symbol is in the foreign snapshot at
   * that moment.
   */
  function GuardPosition(b: Book, s: TradeSettings, symbol: string, side: Side, entry: real, price: real, rep: TpSlReplies)
    : (r: Book)
    ensures CheckTpSl(side, entry, s.takeProfit, s.stopLoss, price) == [] ==> r == b
    ensures r.positions == b.positions || r.positions == b.positions - {symbol}
    ensures r.brackets == b.brackets || r.brackets == b.brackets - {symbol}
    ensures r.foreign.Keys == b.foreign.Keys
    ensures forall k :: k in b.foreign && k != symbol ==> r.foreign[k] == b.foreign[k]
    ensures symbol in b.positions && symbol !in r.positions ==> CheckTpSl(side, entry, s.takeProfit, s.stopLoss, price) != []
    ensures TakeProfitClose in CheckTpSl(side, entry, s.takeProfit, s.stopLoss, price)
            && ClosePosition(b, symbol, TakeProfitClose, Some(price), symbol in b.foreign, rep.takeProfit).1.Success?
            ==> symbol !in r.positions && symbol !in r.brackets
    ensures FirstCloseConfirmed(b, s, symbol, side, entry, price, rep) ==>
      && symbol !in r.positions && symbol !in r.brackets
      && (symbol in b.foreign ==> !r.foreign[symbol].active)
    ensures symbol in b.foreign ==>
      r.foreign[symbol] == b.foreign[symbol] || r.foreign[symbol] == b.foreign[symbol].(active := false)
    // Closes the exchange does not confirm leave everything in place, to
    // be retried at the next poll.
    ensures var c := CheckTpSl(side, entry, s.takeProfit, s.stopLoss, price);
      && (TakeProfitClose in c ==>
            ClosePosition(b, symbol, TakeProfitClose, Some(price), symbol in b.foreign, rep.takeProfit).1.Failure?)
      && (StopLossClose in c ==>
            ClosePosition(b, symbol, StopLossClose, Some(price), symbol in b.foreign, rep.stopLoss).1.Failure?)
      ==> r == b
    ensures BracketsCovered(b) ==> BracketsCovered(r)
  {
    var t := ThresholdsFor(side, entry, s.takeProfit, s.stopLoss);
    var b1 :=
      if s.takeProfit > 0.0 && TakeProfitHit(side, t, price)
      then ClosePosition(b, symbol, TakeProfitClose, Some(price), symbol in b.foreign, rep.takeProfit).0
      else b;
    var b2 :=
      if s.stopLoss > 0.0 && StopLossHit(side, t, price)
      then ClosePosition(b1, symbol, StopLossClose, Some(price), symbol in b1.foreign, rep.stopLoss).0
      else b1;
    b2
  }

  /**
   * The two checks of the loop body: the managed position first, then the
   * adopted one if it is still active, each against the same live price.
   */
  function GuardSymbol(b: Book, s: TradeSettings, symbol: string, price: real, managed: TpSlReplies, adopted: TpSlReplies)
    : (r: Book)
    ensures symbol !in b.positions && (symbol !in b.foreign || !b.foreign[symbol].active) ==> r == b
    // Only a managed position: it is checked with its own side and entry.
    ensures symbol in b.positions && (symbol !in b.foreign || !b.foreign[symbol].active) ==>
      var p := b.positions[symbol];
      r == GuardPosition(b, s, symbol, p.side, p.entryPrice, price, managed)
    // Only an active adopted position: it is checked with its own side and entry.
    ensures symbol !in b.positions && symbol in b.foreign && b.foreign[symbol].active ==>
      var f := b.foreign[symbol];
      r == GuardPosition(b, s, symbol, f.side, f.entryPrice, price, adopted)
    // Both, and the managed one triggers nothing: the adopted one is checked next.
    ensures symbol in b.positions && symbol in b.foreign && b.foreign[symbol].active
            && CheckTpSl(b.positions[symbol].side, b.positions[symbol].entryPrice, s.takeProfit, s.stopLoss, price) == [] ==>
      var f := b.foreign[symbol];
      r == GuardPosition(b, s, symbol, f.side, f.entryPrice, price, adopted)
    // A confirmed close of the managed position removes the symbol and
    // deactivates its adopted entry, which is then not checked again.
    ensures symbol in b.positions
            && FirstCloseConfirmed(b, s, symbol, b.positions[symbol].side, b.positions[symbol].entryPrice, price, managed) ==>
      var p := b.positions[symbol];
      && r == GuardPosition(b, s, symbol, p.side, p.entryPrice, price, managed)
      && symbol !in r.positions && symbol !in r.brackets
      && (symbol in r.foreign ==> !r.foreign[symbol].active)
    ensures BracketsCovered(b) ==> BracketsCovered(r)
  {
    var b2 :=
      if symbol in b.positions
      then GuardPosition(b, s, symbol, b.positions[symbol].side, b.positions[symbol].entryPrice, price, managed)
      else b;
    if symbol in b2.foreign && b2.foreign[symbol].active
    then GuardPosition(b2, s, symbol, b2.foreign[symbol].side, b2.foreign[symbol].entryPrice, price, adopted)
    else b2
  }

  /** The replies the exchange gives during one item's pass. */
  datatype PassReplies = PassReplies(candles: Option<seq<Candle>>, trade: TradeReplies, managed: TpSlReplies, adopted: TpSlReplies)

  /**
   * The body of the per-item loop of `monitor_task`. A skipped poll does
   * nothing else; otherwise a signal on a contract item with automation
   * armed runs `execute_trade`, and then a contract item's managed
   * position and active adopted position are checked against the live
   * price.
   */
  function MonitorItem(st: PollState, b: Book, s: TradeSettings, item: WatchItem, rep: PassReplies)
    : (r: (PollState, Book))
    ensures r.0 == PollStep(st, item, rep.candles, s.autoTrade).0
    ensures PollStep(st, item, rep.candles, s.autoTrade).1.None? ==> r == (st, b)
    // Without a trade request the book changes only by the TP/SL checks.
    ensures var ev := PollStep(st, item, rep.candles, s.autoTrade).1;
      ev.Some? && !ev.value.trade && item.kind == Contract ==>
        r.1 == GuardSymbol(b, s, item.symbol, ev.value.reading.price, rep.managed, rep.adopted)
    // With one, the trade runs first and the checks see its result.
    ensures var ev := PollStep(st, item, rep.candles, s.autoTrade).1;
      ev.Some? && ev.value.trade ==>
        && item.kind == Contract
        && r.1 == GuardSymbol(ExecuteTrade(b, s, item.symbol, ev.value.signal.value, rep.trade).0,
                              s, item.symbol, ev.value.reading.price, rep.managed, rep.adopted)
    ensures item.kind == Spot ==> r.1 == b
    ensures (&& !s.autoTrade && item.symbol !in b.positions
             && (item.symbol !in b.foreign || !b.foreign[item.symbol].active)) ==> r.1 == b
  {
    var (st', ev) := PollStep(st, item, rep.candles, s.autoTrade);
    if ev.None? then (st', b)
    else
      var e := ev.value;
      var b1 := if e.trade then ExecuteTrade(b, s, item.symbol, e.signal.value, rep.trade).0 else b;
      if item.kind != Contract then (st', b1)
      else
        (st', GuardSymbol(b1, s, item.symbol, e.reading.price, rep.managed, rep.adopted))
  }

  /** `r` differs from `b` at most in the records of `symbol`, and keeps every foreign key. */
  ghost predicate LocalTo(b: Book, r: Book, symbol: string)
  {
    && r.foreign.Keys == b.foreign.Keys
    && (forall k :: k != symbol ==> (k in r.positions <==> k in b.positions))
    && (forall k :: k in b.positions && k != symbol ==> r.positions[k] == b.positions[k])
    && (forall k :: k in b.foreign && k != symbol ==> r.foreign[k] == b.foreign[k])
  }

  lemma LocalToChains(a: Book, b: Book, c: Book, symbol: string)
    requires LocalTo(a, b, symbol) && LocalTo(b, c, symbol)
    ensures LocalTo(a, c, symbol)
  {
  }

  lemma TradeIsLocal(b: Book, s: TradeSettings, symbol: string, signal: Signal, rep: TradeReplies)
    ensures LocalTo(b, ExecuteTrade(b, s, symbol, signal, rep).0, symbol)
  {
    var r := ExecuteTrade(b, s, symbol, signal, rep).0;
    assert r.positions - {symbol} == b.positions - {symbol};
    forall k | k != symbol ensures k in r.positions <==> k in b.positions {
      assert k in r.positions <==> k in r.positions - {symbol};
      assert k in b.positions <==> k in b.positions - {symbol};
    }
    forall k | k in b.positions && k != symbol ensures r.positions[k] == b.positions[k] {
      assert (r.positions - {symbol})[k] == (b.positions - {symbol})[k];
    }
  }

  lemma GuardSymbolIsLocal(b: Book, s: TradeSettings, symbol: string, price: real, managed: TpSlReplies, adopted: TpSlReplies)
    ensures LocalTo(b, GuardSymbol(b, s, symbol, price, managed, adopted), symbol)
  {
    var b2 :=
      if symbol in b.positions
      then GuardPosition(b, s, symbol, b.positions[symbol].side, b.positions[symbol].entryPrice, price, managed)
      else b;
    assert LocalTo(b, b2, symbol);
    var b3 := GuardSymbol(b, s, symbol, price, managed, adopted);
    assert LocalTo(b2, b3, symbol);
    LocalToChains(b, b2, b3, symbol);
  }

  /** A pass touches no other symbol's records and never drops a foreign entry. */
  lemma MonitorItemIsLocal(st: PollState, b: Book, s: TradeSettings, item: WatchItem, rep: PassReplies)
    ensures LocalTo(b, MonitorItem(st, b, s, item, rep).1, item.symbol)
  {
    var (st', ev) := PollStep(st, item, rep.candles, s.autoTrade);
    if ev.Some? {
      var e := ev.value;
      var b1 := if e.trade then ExecuteTrade(b, s, item.symbol, e.signal.value, rep.trade).0 else b;
      if e.trade {
        TradeIsLocal(b, s, item.symbol, e.signal.value, rep.trade);
      }
      if item.kind == Contract {
        var b3 := GuardSymbol(b1, s, item.symbol, e.reading.price, rep.managed, rep.adopted);
        GuardSymbolIsLocal(b1, s, item.symbol, e.reading.price, rep.managed, rep.adopted);
        LocalToChains(b, b1, b3, item.symbol);
      }
    }
  }

  /** A pass never leaves a bracket record without its position. */
  lemma MonitorItemKeepsBracketsCovered(st: PollState, b: Book, s: TradeSettings, item: WatchItem, rep: PassReplies)
    requires BracketsCovered(b)
    ensures BracketsCovered(MonitorItem(st, b, s, item, rep).1)
  {
    var ev := PollStep(st, item, rep.candles, s.autoTrade).1;
    if ev.Some? && ev.value.trade {
      TradeKeepsBracketsCovered(b, s, item.symbol, ev.value.signal.value, rep.trade);
    }
  }

  /**
   * A freshly opened position is checked in the same pass: when its
   * take-profit is already reached at the signal's price and the exchange
   * confirms the close, the pass ends without it.
   */
  lemma OpenedPositionIsGuardedAtOnce(st: PollState, b: Book, s: TradeSettings, item: WatchItem, rep: PassReplies)
    requires item.kind == Contract
    requires var ev := PollStep(st, item, rep.candles, s.autoTrade).1;
      ev.Some? && ev.value.trade && ExecuteTrade(b, s, item.symbol, ev.value.signal.value, rep.trade).1.Success?
    ensures var ev := PollStep(st, item, rep.candles, s.autoTrade).1;
      var b1 := ExecuteTrade(b, s, item.symbol, ev.value.signal.value, rep.trade).0;
      var p := b1.positions[item.symbol];
      TakeProfitClose in CheckTpSl(p.side, p.entryPrice, s.takeProfit, s.stopLoss, ev.value.reading.price)
      && ClosePosition(b1, item.symbol, TakeProfitClose, Some(ev.value.reading.price), item.symbol in b1.foreign,
                       rep.managed.takeProfit).1.Success?
      ==> item.symbol !in MonitorItem(st, b, s, item, rep).1.positions
  {
  }
}
