/**
 * Opening, reversing and closing positions (`execute_trade` and
 * `close_position`). Every exchange call is an input: its reply is passed
 * in, so each function is the decision the source takes given those replies.
 */
module Trading {
  import opened Common
  import opened Indicator
  import opened Settings
  import opened Book
  import opened TpSl

  /** Close of the last candle of a candle reply (falsy replies give None). */
  function LatestClose(reply: Option<seq<Candle>>): (p: Option<real>)
    ensures p.Some? <==> reply.Some? && |reply.value| > 0
    ensures p.Some? ==> p.value == reply.value[|reply.value| - 1].close
  {
    if reply.Some? && |reply.value| > 0 then Some(reply.value[|reply.value| - 1].close) else None
  }

  // ---------------------------------------------------------------------
  // close_position

  /** Replies `close_position` receives: position lookup, closing order, candle fetch. */
  datatype CloseReplies = CloseReplies(positionRisk: Option<seq<ExchangeRow>>, orderAccepted: bool, candles: Option<seq<Candle>>)

  datatype CloseError =
    | NoPosition          // the exchange reports no open position for the symbol
    | CloseOrderRejected  // the opposing market order failed
    | CloseCrashed        // entry * qty == 0: division by zero after the order was sent

  datatype CloseReport = CloseReport(position: Position, closePrice: real, profit: real, percent: real, reason: CloseReason)

  /** Realised profit: (close - entry) * qty for LONG, (entry - close) * qty for SHORT. */
  function Profit(side: Side, entry: real, qty: real, closePrice: real): real
  {
    match side
    case Long => (closePrice - entry) * qty
    case Short => (entry - closePrice) * qty
  }

  /** `abs(profit / (entry * qty)) * 100`. */
  function ProfitPercent(profit: real, entry: real, qty: real): (pct: real)
    requires entry * qty != 0.0
    ensures pct >= 0.0
  {
    Abs(profit / (entry * qty)) * 100.0
  }

  /**
   * `close_position(symbol, reason, priceHint, isExisting)`. The position
   * closed is the one the exchange reports, not the local record. The
   * close price is the hint, else the latest candle close, else the entry.
   */
  function ClosePosition(b: Book, symbol: string, reason: CloseReason, priceHint: Option<real>,
                         isExisting: bool, rep: CloseReplies): (r: (Book, Result<CloseReport, CloseError>))
    ensures r.1.Failure? ==> r.0 == b
    ensures var held := FindPosition(rep.positionRisk, symbol);
      r.1.Success? <==> held.Some? && rep.orderAccepted && held.value.entryPrice * held.value.qty != 0.0
    ensures r.1.Success? ==>
      && r.0.positions == b.positions - {symbol}
      && r.0.brackets == b.brackets - {symbol}
      && r.0.foreign == (if isExisting && symbol in b.foreign
                         then b.foreign[symbol := b.foreign[symbol].(active := false)] else b.foreign)
    ensures r.1.Success? ==>
      var rp := r.1.value;
      && rp.position == FindPosition(rep.positionRisk, symbol).value
      && rp.reason == reason
      && rp.closePrice == priceHint.GetOr(LatestClose(rep.candles).GetOr(rp.position.entryPrice))
      && rp.profit == Profit(rp.position.side, rp.position.entryPrice, rp.position.qty, rp.closePrice)
      && rp.position.entryPrice * rp.position.qty != 0.0
      && rp.percent == ProfitPercent(rp.profit, rp.position.entryPrice, rp.position.qty)
      && rp.percent >= 0.0
  {
    var held := FindPosition(rep.positionRisk, symbol);
    if held.None? then (b, Failure(NoPosition))
    else if !rep.orderAccepted then (b, Failure(CloseOrderRejected))
    else
      var pos := held.value;
      var closePrice := priceHint.GetOr(LatestClose(rep.candles).GetOr(pos.entryPrice));
      if pos.entryPrice * pos.qty == 0.0 then (b, Failure(CloseCrashed))
      else
        var profit := Profit(pos.side, pos.entryPrice, pos.qty, closePrice);
        var report := CloseReport(pos, closePrice, profit, ProfitPercent(profit, pos.entryPrice, pos.qty), reason);
        var foreign := if isExisting && symbol in b.foreign
                       then b.foreign[symbol := b.foreign[symbol].(active := false)] else b.foreign;
        (Book(b.positions - {symbol}, b.brackets - {symbol}, foreign), Success(report))
  }

  /** A LONG and a SHORT of the same size closed at the same price have opposite results. */
  lemma ProfitMirrors(entry: real, qty: real, closePrice: real)
    ensures Profit(Long, entry, qty, closePrice) == -Profit(Short, entry, qty, closePrice)
  {
  }

  /** For a positive quantity a LONG gains exactly when the close is above the entry. */
  lemma ProfitSign(side: Side, entry: real, qty: real, closePrice: real)
    requires qty > 0.0
    ensures Profit(side, entry, qty, closePrice) > 0.0 <==>
      (if side == Long then closePrice > entry else closePrice < entry)
  {
    var p := Profit(side, entry, qty, closePrice);
    var d := if side == Long then closePrice - entry else entry - closePrice;
    assert p == d * qty;
    if d > 0.0 { assert d * qty > 0.0; } else { assert d * qty <= 0.0; }
  }

  lemma DivCancel(a: real, e: real, q: real)
    requires e != 0.0 && q != 0.0
    ensures (a * q) / (e * q) == a / e
  {
    assert (a * q) / (e * q) * (e * q) == a * q;
    assert (a / e) * (e * q) == a * q;
  }

  /** The reported percentage does not depend on the size: it is |close - entry| / |entry| * 100. */
  lemma PercentIsPriceMove(side: Side, entry: real, qty: real, closePrice: real)
    requires entry != 0.0 && qty != 0.0
    ensures entry * qty != 0.0
    ensures ProfitPercent(Profit(side, entry, qty, closePrice), entry, qty) == Abs((closePrice - entry) / entry) * 100.0
  {
    NonZeroProduct(entry, qty);
    var x := (closePrice - entry) / entry;
    var ratio := Profit(side, entry, qty, closePrice) / (entry * qty);
    ProfitRatio(side, entry, qty, closePrice);
    assert ratio == x || ratio == -x;
    assert Abs(ratio) == Abs(x);
  }

  /** Profit over the position's entry value is the signed relative price move. */
  lemma ProfitRatio(side: Side, entry: real, qty: real, closePrice: real)
    requires entry != 0.0 && qty != 0.0
    ensures Profit(side, entry, qty, closePrice) / (entry * qty)
         == (if side == Long then (closePrice - entry) / entry else -((closePrice - entry) / entry))
  {
    match side
    case Long =>
      DivCancel(closePrice - entry, entry, qty);
    case Short =>
      DivCancel(entry - closePrice, entry, qty);
      NegatedDivision(closePrice - entry, entry);
      assert entry - closePrice == -(closePrice - entry);
  }

  lemma NonZeroProduct(a: real, b: real)
    requires a != 0.0 && b != 0.0
    ensures a * b != 0.0
  {
  }

  lemma NegatedDivision(a: real, e: real)
    requires e != 0.0
    ensures (-a) / e == -(a / e)
  {
    assert (-a) / e * e == -a;
    assert -(a / e) * e == -a;
  }

  /**
   * The reported percentage is the size of the favourable move, and the
   * profit is non-negative exactly when that move is.
   */
  lemma ProfitTracksMove(side: Side, entry: real, qty: real, price: real)
    requires entry > 0.0 && qty > 0.0
    ensures ProfitPercent(Profit(side, entry, qty, price), entry, qty) == Abs(FavourableMovePct(side, entry, price))
    ensures Profit(side, entry, qty, price) >= 0.0 <==> FavourableMovePct(side, entry, price) >= 0.0
  {
    PercentIsPriceMove(side, entry, qty, price);
    var d := if side == Long then price - entry else entry - price;
    assert Profit(side, entry, qty, price) == d * qty;
    assert FavourableMovePct(side, entry, price) == d / entry * 100.0;
    assert Abs((price - entry) / entry) == Abs(d / entry) by {
      assert (entry - price) / entry == -((price - entry) / entry);
    }
    if d >= 0.0 {
      assert d * qty >= 0.0 && d / entry >= 0.0;
    } else {
      assert d * qty < 0.0 && d / entry < 0.0;
    }
  }

  /**
   * At the entry the monitor checked, a price that triggers take-profit
   * means a gain of at least tp percent and one that triggers stop-loss a
   * loss of at least sl percent.
   */
  lemma TriggeredClosesRealiseThreshold(side: Side, entry: real, qty: real, tp: real, sl: real, price: real)
    requires entry > 0.0 && qty > 0.0
    ensures TakeProfitClose in CheckTpSl(side, entry, tp, sl, price) ==>
      Profit(side, entry, qty, price) >= 0.0 && ProfitPercent(Profit(side, entry, qty, price), entry, qty) >= tp
    ensures StopLossClose in CheckTpSl(side, entry, tp, sl, price) ==>
      Profit(side, entry, qty, price) <= 0.0 && ProfitPercent(Profit(side, entry, qty, price), entry, qty) >= sl
  {
    TakeProfitMeansGainOfTp(side, entry, tp, sl, price);
    StopLossMeansLossOfSl(side, entry, tp, sl, price);
    ProfitTracksMove(side, entry, qty, price);
  }

  /**
   * The report of a confirmed take-profit or stop-loss close realises the
   * threshold when the exchange reports the position the monitor checked
   * (same side and entry): a gain of at least tp percent, a loss of at
   * least sl percent, at the triggering price.
   */
  lemma ConfirmedCloseRealisesThreshold(b: Book, symbol: string, side: Side, entry: real, tp: real, sl: real,
                                        price: real, isExisting: bool, rep: CloseReplies)
    requires entry > 0.0
    ensures var held := FindPosition(rep.positionRisk, symbol);
      var r := ClosePosition(b, symbol, TakeProfitClose, Some(price), isExisting, rep).1;
      TakeProfitClose in CheckTpSl(side, entry, tp, sl, price) && r.Success?
      && held.value.side == side && held.value.entryPrice == entry
      ==> r.value.closePrice == price && r.value.profit >= 0.0 && r.value.percent >= tp
    ensures var held := FindPosition(rep.positionRisk, symbol);
      var r := ClosePosition(b, symbol, StopLossClose, Some(price), isExisting, rep).1;
      StopLossClose in CheckTpSl(side, entry, tp, sl, price) && r.Success?
      && held.value.side == side && held.value.entryPrice == entry
      ==> r.value.closePrice == price && r.value.profit <= 0.0 && r.value.percent >= sl
  {
    var held := FindPosition(rep.positionRisk, symbol);
    if held.Some? {
      TriggeredClosesRealiseThreshold(side, entry, held.value.qty, tp, sl, price);
    }
  }

  /**
   * The report is computed from the exchange's entry, not the one the
   * monitor checked: a LONG entered locally at 100 hits a 5% take-profit
   * at 106, but the exchange reports an entry of 110, so the take-profit
   * close reports a loss of 4.
   */
  lemma ExchangeEntryCanTurnTakeProfitIntoLoss()
    ensures TakeProfitClose in CheckTpSl(Long, 100.0, 5.0, 0.0, 106.0)
    ensures var rep := CloseReplies(Some([ExchangeRow("X", 1.0, 110.0)]), true, None);
      var r := ClosePosition(Empty, "X", TakeProfitClose, Some(106.0), false, rep).1;
      r.Success? && r.value.profit == -4.0
  {
    var rep := CloseReplies(Some([ExchangeRow("X", 1.0, 110.0)]), true, None);
    assert OpenRowFor(rep.positionRisk.value[0], "X");
    assert FindPosition(rep.positionRisk, "X") == Some(Position(Long, 1.0, 110.0));
  }

  // ---------------------------------------------------------------------
  // execute_trade

  /** A market order reply; `price` is its optional "price" field. */
  datatype OrderReply = OrderReply(price: Option<real>)

  /** Replies `execute_trade` receives, in the order it asks. */
  datatype TradeReplies = TradeReplies(
    leverageAccepted: bool,              // set_leverage
    candles: Option<seq<Candle>>,        // get_klines(symbol, "contract")
    positionRisk: Option<seq<ExchangeRow>>, // get_position before the order
    reversal: CloseReplies,              // close_position of an opposite position
    order: Option<OrderReply>,           // place_market_order
    bracket: Option<BracketOrder>)       // place_oco_order

  datatype TradeError =
    | AutoTradeOff
    | LeverageRejected
    | NoMarketData
    | TradeCrashed     // zero leverage or zero price: division by zero
    | OrderRejected

  datatype Opened = Opened(
    position: Position,
    sizing: Sizing,
    reversal: Option<Result<CloseReport, CloseError>>,
    bracket: Option<Bracket>)

  /** The failures that happen before anything is sent besides the leverage. */
  predicate EarlyFailure(e: TradeError)
  {
    e != OrderRejected
  }

  /**
   * The reversal step of `execute_trade`: when the exchange holds the side
   * opposite to the signal, `close_position(symbol)` runs with the
   * signal as its reason, no price and `is_existing` False.
   */
  function Reverse(b: Book, symbol: string, side: Side, held: Option<Position>, rep: CloseReplies)
    : (r: (Book, Option<Result<CloseReport, CloseError>>))
    ensures r.1.Some? <==> held.Some? && held.value.side != side
    ensures r.1.None? ==> r.0 == b
    ensures r.1.Some? ==>
      (r.0, r.1.value) == ClosePosition(b, symbol, SignalClose, None, false, rep)
  {
    if held.Some? && held.value.side != side then
      var (b', res) := ClosePosition(b, symbol, SignalClose, None, false, rep);
      (b', Some(res))
    else (b, None)
  }

  /** Whether a trade asks for a bracket order: either percentage is positive. */
  predicate BracketWanted(s: TradeSettings)
  {
    s.takeProfit > 0.0 || s.stopLoss > 0.0
  }

  /**
   * The bookkeeping after an accepted order: the new position replaces
   * the symbol's record, and the bracket order is recorded when one was
   * wanted and the exchange accepted it.
   */
  function RecordOpened(b: Book, s: TradeSettings, symbol: string, pos: Position, bracket: Option<BracketOrder>)
    : (r: Book)
    ensures r.foreign == b.foreign
    ensures r.positions == b.positions[symbol := pos]
    ensures BracketWanted(s) && bracket.Some? ==> r.brackets == b.brackets[symbol := bracket.value]
    ensures !(BracketWanted(s) && bracket.Some?) ==> r.brackets == b.brackets
  {
    var b2 := b.(positions := b.positions[symbol := pos]);
    if BracketWanted(s) && bracket.Some? then b2.(brackets := b2.brackets[symbol := bracket.value]) else b2
  }

  /**
   * `execute_trade(symbol, signal)`: size the order, set the leverage,
   * price it from the latest candle, close an opposite exchange position,
   * place the market order and, only when it is accepted, record the new
   * position (and the bracket order when one was wanted and placed).
   */
  function ExecuteTrade(b: Book, s: TradeSettings, symbol: string, signal: Signal, rep: TradeReplies)
    : (r: (Book, Result<Opened, TradeError>))
    ensures r.1.Success? <==>
      && s.autoTrade && rep.leverageAccepted
      && LatestClose(rep.candles).Some? && LatestClose(rep.candles).value != 0.0
      && ResolveSizing(s, symbol).leverage != 0
      && rep.order.Some?
    ensures r.0.foreign == b.foreign
    ensures r.0.positions - {symbol} == b.positions - {symbol}
    ensures r.0.brackets - {symbol} == b.brackets - {symbol}
    ensures r.1.Failure? && EarlyFailure(r.1.error) ==> r.0 == b
    ensures r.1.Failure? && !EarlyFailure(r.1.error) ==>
      r.0 == b || (r.0.positions == b.positions - {symbol} && r.0.brackets == b.brackets - {symbol})
    // A rejected order keeps whatever the reversal close did.
    ensures r.1.Failure? && r.1.error == OrderRejected ==>
      r.0 == Reverse(b, symbol, SideOf(signal), FindPosition(rep.positionRisk, symbol), rep.reversal).0
    ensures r.1.Success? ==>
      var o := r.1.value;
      var price := LatestClose(rep.candles).value;
      && symbol in r.0.positions && r.0.positions[symbol] == o.position
      && o.position.side == SideOf(signal)
      && o.sizing == ResolveSizing(s, symbol)
      && o.position.qty * price == o.sizing.notional
      && o.position.entryPrice == rep.order.value.price.GetOr(price)
      && (o.bracket.Some? <==> BracketWanted(s))
      && (symbol in r.0.brackets ==>
            (o.bracket.Some? && rep.bracket == Some(r.0.brackets[symbol]))
            || (symbol in b.brackets && r.0.brackets[symbol] == b.brackets[symbol]))
    // An accepted bracket order is recorded under the symbol.
    ensures r.1.Success? && BracketWanted(s) && rep.bracket.Some? ==>
      symbol in r.0.brackets && r.0.brackets[symbol] == rep.bracket.value
    // Otherwise the bracket records are those left by the reversal step.
    ensures r.1.Success? && !(BracketWanted(s) && rep.bracket.Some?) ==>
      var rev := r.1.value.reversal;
      && (rev.None? ==> r.0.brackets == b.brackets)
      && (rev.Some? && rev.value.Success? ==> r.0.brackets == b.brackets - {symbol})
      && (rev.Some? && rev.value.Failure? ==> r.0.brackets == b.brackets)
  {
    if !s.autoTrade then (b, Failure(AutoTradeOff))
    else
      var z := ResolveSizing(s, symbol);
      if !rep.leverageAccepted then (b, Failure(LeverageRejected))
      else
        var latest := LatestClose(rep.candles);
        if latest.None? then (b, Failure(NoMarketData))
        else if z.leverage == 0 || latest.value == 0.0 then (b, Failure(TradeCrashed))
        else
          var price := latest.value;
          var side := SideOf(signal);
          var (b1, reversal) := Reverse(b, symbol, side, FindPosition(rep.positionRisk, symbol), rep.reversal);
          if rep.order.None? then (b1, Failure(OrderRejected))
          else
            var pos := Position(side, Quantity(z.notional, price), rep.order.value.price.GetOr(price));
            var bracket := if BracketWanted(s) then BracketFor(signal, pos.entryPrice, s.takeProfit, s.stopLoss) else None;
            (RecordOpened(b1, s, symbol, pos, rep.bracket), Success(Opened(pos, z, reversal, bracket)))
  }

  /**
   * The one failure that leaves partial state: a confirmed reversal close
   * has already dropped the symbol's record and bracket when the new
   * order is rejected, and they stay dropped. Without a confirmed close a
   * rejected order changes nothing.
   */
  lemma RejectedOrderKeepsReversalEffect(b: Book, s: TradeSettings, symbol: string, signal: Signal, rep: TradeReplies)
    requires ExecuteTrade(b, s, symbol, signal, rep).1 == Failure(OrderRejected)
    ensures var held := FindPosition(rep.positionRisk, symbol);
      var r := ExecuteTrade(b, s, symbol, signal, rep).0;
      if held.Some? && held.value.side != SideOf(signal)
         && ClosePosition(b, symbol, SignalClose, None, false, rep.reversal).1.Success?
      then symbol !in r.positions && symbol !in r.brackets
           && r.positions == b.positions - {symbol} && r.brackets == b.brackets - {symbol}
      else r == b
  {
  }

  /** Closing keeps every bracket record attached to a position. */
  lemma CloseKeepsBracketsCovered(b: Book, symbol: string, reason: CloseReason, priceHint: Option<real>,
                                  isExisting: bool, rep: CloseReplies)
    requires BracketsCovered(b)
    ensures BracketsCovered(ClosePosition(b, symbol, reason, priceHint, isExisting, rep).0)
  {
  }

  /** Opening or reversing keeps every bracket record attached to a position. */
  lemma TradeKeepsBracketsCovered(b: Book, s: TradeSettings, symbol: string, signal: Signal, rep: TradeReplies)
    requires BracketsCovered(b)
    ensures BracketsCovered(ExecuteTrade(b, s, symbol, signal, rep).0)
  {
    var r := ExecuteTrade(b, s, symbol, signal, rep);
    if r.1.Success? {
      assert symbol in r.0.positions;
      forall k | k in r.0.brackets ensures k in r.0.positions {
        if k != symbol {
          assert k in r.0.brackets - {symbol};
          assert k in b.positions - {symbol};
        }
      }
    }
  }

  /** An accepted order's bracket is priced exactly like the poll loop's own TP/SL check. */
  lemma OpenedBracketMatchesMonitor(b: Book, s: TradeSettings, symbol: string, signal: Signal, rep: TradeReplies)
    requires ExecuteTrade(b, s, symbol, signal, rep).1.Success?
    requires s.takeProfit > 0.0 || s.stopLoss > 0.0
    ensures var o := ExecuteTrade(b, s, symbol, signal, rep).1.value;
      o.bracket.Some? && o.bracket.value.prices == ThresholdsFor(o.position.side, o.position.entryPrice, s.takeProfit, s.stopLoss)
  {
    var o := ExecuteTrade(b, s, symbol, signal, rep).1.value;
    BracketMatchesMonitor(signal, o.position.entryPrice, s.takeProfit, s.stopLoss);
  }

  /**
   * A reversal closes first: when the exchange holds the opposite side,
   * the close is attempted before the order, and a successful close and
   * order leave exactly the new position under the symbol.
   */
  lemma ReversalClosesOppositeFirst(b: Book, s: TradeSettings, symbol: string, signal: Signal, rep: TradeReplies)
    requires ExecuteTrade(b, s, symbol, signal, rep).1.Success?
    requires FindPosition(rep.positionRisk, symbol).Some?
    requires FindPosition(rep.positionRisk, symbol).value.side != SideOf(signal)
    ensures var r := ExecuteTrade(b, s, symbol, signal, rep);
      && r.1.value.reversal.Some?
      && (r.1.value.reversal.value.Success? ==> r.0.positions == (b.positions - {symbol})[symbol := r.1.value.position])
      && (r.1.value.reversal.value.Failure? ==> r.0.positions == b.positions[symbol := r.1.value.position])
  {
  }

  /**
   * Without an opposite position nothing is closed: the new record simply
   * replaces whatever was stored for the symbol, also when the exchange
   * already holds the same side (the stored quantity is then the new
   * order's alone).
   */
  lemma NoReversalOverwritesRecord(b: Book, s: TradeSettings, symbol: string, signal: Signal, rep: TradeReplies)
    requires ExecuteTrade(b, s, symbol, signal, rep).1.Success?
    requires FindPosition(rep.positionRisk, symbol).None? || FindPosition(rep.positionRisk, symbol).value.side == SideOf(signal)
    ensures var r := ExecuteTrade(b, s, symbol, signal, rep);
      && r.1.value.reversal.None?
      && r.0.positions == b.positions[symbol := r.1.value.position]
  {
  }

  /**
   * The end-to-end example: automation armed, order amount 100, last
   * price 50, nothing held. A BUY opens one LONG of quantity 2 at 50.
   */
  lemma BuyAtFiftyOpensTwo(symbol: string)
    ensures
      var s := Defaults.(autoTrade := true);
      var rep := TradeReplies(true, Some([Candle(0, 50.0)]), Some([]),
                              CloseReplies(None, false, None), Some(OrderReply(None)), None);
      var r := ExecuteTrade(Empty, s, symbol, Buy, rep);
      r.1.Success? && r.0.positions == map[symbol := Position(Long, 2.0, 50.0)] && r.0.brackets == map[]
  {
    var s := Defaults.(autoTrade := true);
    assert ResolveSizing(s, symbol) == Sizing(10, 100.0);
  }
}
