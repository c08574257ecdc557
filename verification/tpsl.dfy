/**
 * Take-profit / stop-loss: the threshold prices derived from a position's
 * entry price (`check_tp_sl`, and the bracket prices of `place_oco_order`)
 * and the decision whether the live price closes the position.
 */
module TpSl {
  import opened Common

  datatype Thresholds = Thresholds(takeProfitPrice: real, stopLossPrice: real)

  /** Take-profit above and stop-loss below the entry for LONG; mirrored for SHORT. */
  function ThresholdsFor(side: Side, entry: real, tp: real, sl: real): (t: Thresholds)
    ensures side == Long ==> t.takeProfitPrice - entry == entry * tp / 100.0 && entry - t.stopLossPrice == entry * sl / 100.0
    ensures side == Short ==> entry - t.takeProfitPrice == entry * tp / 100.0 && t.stopLossPrice - entry == entry * sl / 100.0
  {
    match side
    case Long => Thresholds(entry * (1.0 + tp / 100.0), entry * (1.0 - sl / 100.0))
    case Short => Thresholds(entry * (1.0 - tp / 100.0), entry * (1.0 + sl / 100.0))
  }

  predicate TakeProfitHit(side: Side, t: Thresholds, price: real)
  {
    match side
    case Long => price >= t.takeProfitPrice
    case Short => price <= t.takeProfitPrice
  }

  predicate StopLossHit(side: Side, t: Thresholds, price: real)
  {
    match side
    case Long => price <= t.stopLossPrice
    case Short => price >= t.stopLossPrice
  }

  /**
   * The closes one `check_tp_sl` call requests, in the order it requests
   * them: take-profit is checked only when tp > 0, stop-loss only when
   * sl > 0, and the two tests are independent.
   */
  function CheckTpSl(side: Side, entry: real, tp: real, sl: real, price: real): (r: seq<CloseReason>)
    ensures r == [] || r == [TakeProfitClose] || r == [StopLossClose] || r == [TakeProfitClose, StopLossClose]
    ensures TakeProfitClose in r <==> tp > 0.0 && TakeProfitHit(side, ThresholdsFor(side, entry, tp, sl), price)
    ensures StopLossClose in r <==> sl > 0.0 && StopLossHit(side, ThresholdsFor(side, entry, tp, sl), price)
  {
    var t := ThresholdsFor(side, entry, tp, sl);
    (if tp > 0.0 && TakeProfitHit(side, t, price) then [TakeProfitClose] else [])
    + (if sl > 0.0 && StopLossHit(side, t, price) then [StopLossClose] else [])
  }

  /** How far the price has moved in the position's favour, in percent of the entry. */
  function FavourableMovePct(side: Side, entry: real, price: real): real
    requires entry != 0.0
  {
    match side
    case Long => (price - entry) / entry * 100.0
    case Short => (entry - price) / entry * 100.0
  }

  lemma PercentMove(move: real, entry: real, pct: real)
    requires entry > 0.0
    ensures move >= entry * pct / 100.0 <==> move / entry * 100.0 >= pct
  {
    assert move / entry * 100.0 == (move * 100.0) / entry;
    if move >= entry * pct / 100.0 {
      assert move * 100.0 >= entry * pct;
    }
    if move / entry * 100.0 >= pct {
      assert move * 100.0 >= pct * entry;
    }
  }

  /**
   * Take-profit fires exactly when tp > 0 and the price has moved at least
   * tp percent in the position's favour.
   */
  lemma TakeProfitMeansGainOfTp(side: Side, entry: real, tp: real, sl: real, price: real)
    requires entry > 0.0
    ensures TakeProfitClose in CheckTpSl(side, entry, tp, sl, price)
        <==> tp > 0.0 && FavourableMovePct(side, entry, price) >= tp
  {
    var t := ThresholdsFor(side, entry, tp, sl);
    match side
    case Long =>
      PercentMove(price - entry, entry, tp);
      assert TakeProfitHit(side, t, price) <==> price - entry >= entry * tp / 100.0;
    case Short =>
      PercentMove(entry - price, entry, tp);
      assert TakeProfitHit(side, t, price) <==> entry - price >= entry * tp / 100.0;
  }

  /**
   * Stop-loss fires exactly when sl > 0 and the price has moved at least
   * sl percent against the position.
   */
  lemma StopLossMeansLossOfSl(side: Side, entry: real, tp: real, sl: real, price: real)
    requires entry > 0.0
    ensures StopLossClose in CheckTpSl(side, entry, tp, sl, price)
        <==> sl > 0.0 && -FavourableMovePct(side, entry, price) >= sl
  {
    var t := ThresholdsFor(side, entry, tp, sl);
    match side
    case Long =>
      PercentMove(entry - price, entry, sl);
      assert StopLossHit(side, t, price) <==> entry - price >= entry * sl / 100.0;
      assert -((price - entry) / entry * 100.0) == (entry - price) / entry * 100.0;
    case Short =>
      PercentMove(price - entry, entry, sl);
      assert StopLossHit(side, t, price) <==> price - entry >= entry * sl / 100.0;
      assert -((entry - price) / entry * 100.0) == (price - entry) / entry * 100.0;
  }

  /** With both percentages set and a positive entry, one check closes at most once. */
  lemma NeverBothTriggers(side: Side, entry: real, tp: real, sl: real, price: real)
    requires entry > 0.0 && tp > 0.0 && sl > 0.0
    ensures |CheckTpSl(side, entry, tp, sl, price)| <= 1
  {
    TakeProfitMeansGainOfTp(side, entry, tp, sl, price);
    StopLossMeansLossOfSl(side, entry, tp, sl, price);
  }

  /** With percentages of at most 100 the thresholds bracket the entry price on the expected sides. */
  lemma ThresholdsBracketEntry(side: Side, entry: real, tp: real, sl: real)
    requires entry > 0.0 && 0.0 <= tp <= 100.0 && 0.0 <= sl <= 100.0
    ensures var t := ThresholdsFor(side, entry, tp, sl);
      && t.takeProfitPrice >= 0.0 && t.stopLossPrice >= 0.0
      && (side == Long ==> t.stopLossPrice <= entry <= t.takeProfitPrice)
      && (side == Short ==> t.takeProfitPrice <= entry <= t.stopLossPrice)
  {
    var t := ThresholdsFor(side, entry, tp, sl);
    assert 0.0 <= entry * tp / 100.0 <= entry;
    assert 0.0 <= entry * sl / 100.0 <= entry;
  }

  /** A bracket order: its order side and its take-profit / stop prices. */
  datatype Bracket = Bracket(side: Signal, prices: Thresholds)

  /**
   * The price computation of `place_oco_order` for an opening order of
   * side `opening`; no order at all when neither percentage is positive.
   */
  function BracketFor(opening: Signal, entry: real, tp: real, sl: real): (b: Option<Bracket>)
    ensures b.None? <==> tp <= 0.0 && sl <= 0.0
    ensures b.Some? ==> b.value.side != opening
  {
    if tp <= 0.0 && sl <= 0.0 then None
    else if opening == Buy then
      Some(Bracket(Sell, Thresholds(entry * (1.0 + tp / 100.0), entry * (1.0 - sl / 100.0))))
    else
      Some(Bracket(Buy, Thresholds(entry * (1.0 - tp / 100.0), entry * (1.0 + sl / 100.0))))
  }

  /**
   * The exchange-side bracket and the poll loop's own check use the same
   * thresholds, and the bracket's order closes the position it protects.
   */
  lemma BracketMatchesMonitor(opening: Signal, entry: real, tp: real, sl: real)
    requires tp > 0.0 || sl > 0.0
    ensures BracketFor(opening, entry, tp, sl).Some?
    ensures BracketFor(opening, entry, tp, sl).value.prices == ThresholdsFor(SideOf(opening), entry, tp, sl)
    ensures BracketFor(opening, entry, tp, sl).value.side == ClosingOrder(SideOf(opening))
  {
  }
}
