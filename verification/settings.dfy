/**
 * Trade settings: the document `load_trade_settings` reads (missing keys
 * filled from defaults), the validity the configuration dialogue enforces,
 * and order sizing as `execute_trade` resolves it.
 */
module Settings {
  import opened Common

  datatype Mode = Global | Individual

  /** One `individual_settings[symbol]` dictionary; either key may be absent. */
  datatype SymbolSettings = SymbolSettings(leverage: Option<int>, orderAmount: Option<real>)

  const NoOverrides := SymbolSettings(None, None)

  datatype TradeSettings = TradeSettings(
    autoTrade: bool,
    mode: Mode,
    globalLeverage: int,
    globalOrderAmount: real,
    individual: map<string, SymbolSettings>,
    takeProfit: real,
    stopLoss: real)

  /** `default_settings` of `load_trade_settings`. */
  const Defaults := TradeSettings(false, Global, 10, 100.0, map[], 0.0, 0.0)

  /** The saved JSON document; a key missing from the file is None. */
  datatype StoredSettings = StoredSettings(
    autoTrade: Option<bool>,
    mode: Option<Mode>,
    globalLeverage: Option<int>,
    globalOrderAmount: Option<real>,
    individual: Option<map<string, SymbolSettings>>,
    takeProfit: Option<real>,
    stopLoss: Option<real>)

  /** `save_trade_settings` writes every key. */
  function Save(s: TradeSettings): (d: StoredSettings)
    ensures d.autoTrade.Some? && d.mode.Some? && d.globalLeverage.Some? && d.globalOrderAmount.Some?
    ensures d.individual.Some? && d.takeProfit.Some? && d.stopLoss.Some?
  {
    StoredSettings(Some(s.autoTrade), Some(s.mode), Some(s.globalLeverage), Some(s.globalOrderAmount),
                   Some(s.individual), Some(s.takeProfit), Some(s.stopLoss))
  }

  /**
   * `load_trade_settings`: None stands for a missing or unparsable file
   * (all defaults); otherwise each missing key takes its default.
   */
  function Load(doc: Option<StoredSettings>): (s: TradeSettings)
    ensures doc.None? ==> s == Defaults
    ensures doc.Some? ==>
      && s.autoTrade == doc.value.autoTrade.GetOr(Defaults.autoTrade)
      && s.mode == doc.value.mode.GetOr(Defaults.mode)
      && s.globalLeverage == doc.value.globalLeverage.GetOr(Defaults.globalLeverage)
      && s.globalOrderAmount == doc.value.globalOrderAmount.GetOr(Defaults.globalOrderAmount)
      && s.individual == doc.value.individual.GetOr(Defaults.individual)
      && s.takeProfit == doc.value.takeProfit.GetOr(Defaults.takeProfit)
      && s.stopLoss == doc.value.stopLoss.GetOr(Defaults.stopLoss)
  {
    match doc
    case None => Defaults
    case Some(d) =>
      TradeSettings(d.autoTrade.GetOr(Defaults.autoTrade), d.mode.GetOr(Defaults.mode),
                    d.globalLeverage.GetOr(Defaults.globalLeverage),
                    d.globalOrderAmount.GetOr(Defaults.globalOrderAmount),
                    d.individual.GetOr(Defaults.individual),
                    d.takeProfit.GetOr(Defaults.takeProfit), d.stopLoss.GetOr(Defaults.stopLoss))
  }

  /** Saving then reloading reproduces the settings exactly. */
  lemma SaveLoadRoundTrip(s: TradeSettings)
    ensures Load(Some(Save(s))) == s
  {
  }

  /** A document with no keys at all loads as the defaults. */
  lemma EmptyDocumentLoadsDefaults()
    ensures Load(Some(StoredSettings(None, None, None, None, None, None, None))) == Defaults
  {
  }

  /** Loading is stable: loading, saving and loading again changes nothing. */
  lemma LoadIsStable(doc: Option<StoredSettings>)
    ensures Load(Some(Save(Load(doc)))) == Load(doc)
  {
    SaveLoadRoundTrip(Load(doc));
  }

  // ---------------------------------------------------------------------
  // Validity enforced by the configuration dialogue

  const MinLeverage: int := 1
  const MaxLeverage: int := 125

  predicate ValidLeverage(l: int) { MinLeverage <= l <= MaxLeverage }
  predicate ValidAmount(a: real) { a > 0.0 }
  predicate ValidPercent(p: real) { 0.0 <= p <= 100.0 }

  predicate ValidOverrides(o: SymbolSettings)
  {
    && (o.leverage.Some? ==> ValidLeverage(o.leverage.value))
    && (o.orderAmount.Some? ==> ValidAmount(o.orderAmount.value))
  }

  predicate ValidOverrideMap(m: map<string, SymbolSettings>)
  {
    forall sym :: sym in m ==> ValidOverrides(m[sym])
  }

  predicate Valid(s: TradeSettings)
  {
    && ValidLeverage(s.globalLeverage)
    && ValidAmount(s.globalOrderAmount)
    && ValidOverrideMap(s.individual)
    && ValidPercent(s.takeProfit)
    && ValidPercent(s.stopLoss)
  }

  lemma DefaultsAreValid()
    ensures Valid(Defaults)
  {
  }

  // ---------------------------------------------------------------------
  // Sizing (execute_trade)

  /** The minimum notional value an order is raised to. */
  const MinNotional: real := 20.0

  datatype Sizing = Sizing(leverage: int, notional: real)

  /**
   * Leverage and notional value for `symbol`: the global values, each
   * replaced by the symbol's own entry in individual mode when it has one,
   * and the notional raised to at least 20.
   */
  function ResolveSizing(s: TradeSettings, symbol: string): (z: Sizing)
    ensures z.notional >= MinNotional
    ensures s.mode == Global || symbol !in s.individual ==>
      z.leverage == s.globalLeverage
      && z.notional == (if s.globalOrderAmount < MinNotional then MinNotional else s.globalOrderAmount)
    ensures s.mode == Individual && symbol in s.individual ==>
      z.leverage == s.individual[symbol].leverage.GetOr(s.globalLeverage)
      && var base := s.individual[symbol].orderAmount.GetOr(s.globalOrderAmount);
         z.notional == (if base < MinNotional then MinNotional else base)
  {
    var o := if s.mode == Individual && symbol in s.individual then s.individual[symbol] else NoOverrides;
    var leverage := o.leverage.GetOr(s.globalLeverage);
    var notional := o.orderAmount.GetOr(s.globalOrderAmount);
    Sizing(leverage, if notional < MinNotional then MinNotional else notional)
  }

  /** In global mode the per-symbol table is never consulted. */
  lemma GlobalModeIgnoresOverrides(s: TradeSettings, symbol: string, other: map<string, SymbolSettings>)
    requires s.mode == Global
    ensures ResolveSizing(s, symbol) == ResolveSizing(s.(individual := other), symbol)
  {
  }

  /** With valid settings the leverage sent to the exchange is within 1..125. */
  lemma ValidSettingsGiveValidLeverage(s: TradeSettings, symbol: string)
    requires Valid(s)
    ensures ValidLeverage(ResolveSizing(s, symbol).leverage)
  {
    if s.mode == Individual && symbol in s.individual {
      assert ValidOverrides(s.individual[symbol]);
    }
  }

  /** The floor only ever raises the amount: an amount of 20 or more is used as is. */
  lemma FloorOnlyRaises(s: TradeSettings, symbol: string)
    requires s.mode == Global || symbol !in s.individual || s.individual[symbol].orderAmount.None?
    ensures ResolveSizing(s, symbol).notional >= s.globalOrderAmount
    ensures s.globalOrderAmount >= MinNotional ==> ResolveSizing(s, symbol).notional == s.globalOrderAmount
  {
  }

  /** `quantity = notional_value / price`. */
  function Quantity(notional: real, price: real): (q: real)
    requires price != 0.0
    ensures q * price == notional
  {
    notional / price
  }
}
