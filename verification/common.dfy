/**
 * Shared vocabulary of the MA crossover trading bot: optional values,
 * position sides, crossover signals, watched instruments and the reasons a
 * position can be closed for.
 */
module Common {

  /** An exchange reply or a dictionary lookup that may be missing. */
  datatype Option<+T> = None | Some(value: T) {
    function GetOr(default: T): T {
      match this
      case Some(v) => v
      case None => default
    }
  }

  /** A successful value or the reason an operation gave up. */
  datatype Result<+R, +E> = Success(value: R) | Failure(error: E)

  /** Direction of an open futures position ("LONG" / "SHORT"). */
  datatype Side = Long | Short

  /** Crossover signal ("BUY" / "SELL"); it also names the market order side. */
  datatype Signal = Buy | Sell

  /** Market kind of a watched instrument ("spot" / "contract"). */
  datatype MarketKind = Spot | Contract

  /** One entry of the watch list; the poll loop keys its state by the pair. */
  datatype WatchItem = WatchItem(symbol: string, kind: MarketKind)

  /** Why a position is closed ("signal", "take_profit", "stop_loss", anything else is manual). */
  datatype CloseReason = SignalClose | TakeProfitClose | StopLossClose | ManualClose

  /** A BUY opens a LONG position, a SELL opens a SHORT one. */
  function SideOf(s: Signal): (side: Side)
    ensures side == Long <==> s == Buy
  {
    if s == Buy then Long else Short
  }

  /** The market order side that closes a position of the given side. */
  function ClosingOrder(side: Side): (s: Signal)
    ensures SideOf(s) != side
  {
    if side == Long then Sell else Buy
  }

  function Abs(x: real): (r: real)
    ensures r >= 0.0
    ensures r == x || r == -x
  {
    if x < 0.0 then -x else x
  }
}
