/**
 * The bot's position bookkeeping: `positions` (system-managed positions),
 * `oco_orders` (bracket orders placed for them) and `existing_positions`
 * (positions found on the exchange), plus the two filters over the
 * exchange's position-risk reply (`get_position` and
 * `check_existing_positions`).
 */
module Book {
  import opened Common

  /** A `positions[symbol]` entry; `system_order` is always true there. */
  datatype Position = Position(side: Side, qty: real, entryPrice: real)

  /** An `existing_positions[symbol]` entry. */
  datatype ForeignPosition = ForeignPosition(side: Side, qty: real, entryPrice: real, active: bool, systemOrder: bool)

  /** The exchange's reply to a bracket order, stored as `oco_orders[symbol]`. */
  datatype BracketOrder = BracketOrder(orderListId: int)

  /** Keying every store by symbol makes "one position per symbol" structural. */
  datatype Book = Book(
    positions: map<string, Position>,
    brackets: map<string, BracketOrder>,
    foreign: map<string, ForeignPosition>)

  const Empty := Book(map[], map[], map[])

  /** A bracket record never outlives its position. */
  predicate BracketsCovered(b: Book)
  {
    b.brackets.Keys <= b.positions.Keys
  }

  /** One element of the position-risk reply. */
  datatype ExchangeRow = ExchangeRow(symbol: string, positionAmt: real, entryPrice: real)

  /** A nonzero amount is an open position: positive is LONG, |amount| its quantity. */
  function RowPosition(r: ExchangeRow): (p: Position)
    requires r.positionAmt != 0.0
    ensures p.qty > 0.0 && (p.qty == r.positionAmt || p.qty == -r.positionAmt)
    ensures p.side == Long <==> r.positionAmt > 0.0
    ensures p.entryPrice == r.entryPrice
  {
    Position(if r.positionAmt > 0.0 then Long else Short, Abs(r.positionAmt), r.entryPrice)
  }

  predicate OpenRowFor(r: ExchangeRow, symbol: string)
  {
    r.symbol == symbol && r.positionAmt != 0.0
  }

  /**
   * `get_position`: the first open row for `symbol` in the reply; None when
   * the request failed or no row matches.
   */
  function FindPosition(reply: Option<seq<ExchangeRow>>, symbol: string): (p: Option<Position>)
    ensures p.None? <==> reply.None? || forall i :: 0 <= i < |reply.value| ==> !OpenRowFor(reply.value[i], symbol)
    ensures p.Some? ==> exists i :: 0 <= i < |reply.value| && OpenRowFor(reply.value[i], symbol)
                         && p.value == RowPosition(reply.value[i])
                         && forall j :: 0 <= j < i ==> !OpenRowFor(reply.value[j], symbol)
  {
    match reply
    case None => None
    case Some(rows) => FirstOpenSpec(rows, symbol); FirstOpen(rows, symbol)
  }

  /** The first open row for `symbol`, as a position. */
  function FirstOpen(rows: seq<ExchangeRow>, symbol: string): Option<Position>
    decreases |rows|
  {
    if |rows| == 0 then None
    else if OpenRowFor(rows[0], symbol) then Some(RowPosition(rows[0]))
    else FirstOpen(rows[1..], symbol)
  }

  lemma {:induction false} FirstOpenSpec(rows: seq<ExchangeRow>, symbol: string)
    ensures var p := FirstOpen(rows, symbol);
      && (p.None? <==> forall i :: 0 <= i < |rows| ==> !OpenRowFor(rows[i], symbol))
      && (p.Some? ==> exists i :: 0 <= i < |rows| && OpenRowFor(rows[i], symbol)
                       && p.value == RowPosition(rows[i])
                       && forall j :: 0 <= j < i ==> !OpenRowFor(rows[j], symbol))
    decreases |rows|
  {
    if |rows| > 0 && !OpenRowFor(rows[0], symbol) {
      var p := FirstOpen(rows[1..], symbol);
      FirstOpenSpec(rows[1..], symbol);
      if p.Some? {
        var i :| 0 <= i < |rows[1..]| && OpenRowFor(rows[1..][i], symbol)
                 && p.value == RowPosition(rows[1..][i])
                 && forall j :: 0 <= j < i ==> !OpenRowFor(rows[1..][j], symbol);
        assert OpenRowFor(rows[i + 1], symbol) && p.value == RowPosition(rows[i + 1]);
        assert forall j :: 0 <= j < i + 1 ==> !OpenRowFor(rows[j], symbol) by {
          forall j | 0 <= j < i + 1 ensures !OpenRowFor(rows[j], symbol) {
            if j > 0 { assert rows[j] == rows[1..][j - 1]; }
          }
        }
      } else {
        assert forall i :: 0 <= i < |rows| ==> !OpenRowFor(rows[i], symbol) by {
          forall i | 0 <= i < |rows| ensures !OpenRowFor(rows[i], symbol) {
            if i > 0 { assert rows[i] == rows[1..][i - 1]; }
          }
        }
      }
    }
  }

  /** A freshly discovered exchange position: not active, not system-owned. */
  function Discovered(r: ExchangeRow): (f: ForeignPosition)
    requires r.positionAmt != 0.0
    ensures !f.active && !f.systemOrder
    ensures f.qty > 0.0
  {
    var p := RowPosition(r);
    ForeignPosition(p.side, p.qty, p.entryPrice, false, false)
  }

  /**
   * The filter of `check_existing_positions`: every open row becomes an
   * entry under its symbol; a later row for the same symbol overwrites an
   * earlier one, as a dictionary assignment in a loop does.
   */
  function ForeignFromRows(rows: seq<ExchangeRow>): map<string, ForeignPosition>
    decreases |rows|
  {
    if |rows| == 0 then map[]
    else
      var last := rows[|rows| - 1];
      var m := ForeignFromRows(rows[..|rows| - 1]);
      if last.positionAmt != 0.0 then m[last.symbol := Discovered(last)] else m
  }

  /**
   * A symbol is discovered exactly when some row holds a nonzero amount for
   * it, and its entry comes from the last such row.
   */
  lemma {:induction false} ForeignFromRowsSpec(rows: seq<ExchangeRow>)
    ensures forall sym :: sym in ForeignFromRows(rows) <==> exists i :: 0 <= i < |rows| && OpenRowFor(rows[i], sym)
    ensures forall sym :: sym in ForeignFromRows(rows) ==>
      (exists i :: (0 <= i < |rows| && OpenRowFor(rows[i], sym)
                    && ForeignFromRows(rows)[sym] == Discovered(rows[i])
                    && forall j :: i < j < |rows| ==> !OpenRowFor(rows[j], sym)))
    decreases |rows|
  {
    if |rows| > 0 {
      var init := rows[..|rows| - 1];
      var last := rows[|rows| - 1];
      var m := ForeignFromRows(init);
      ForeignFromRowsSpec(init);
      var m' := ForeignFromRows(rows);
      assert m' == if last.positionAmt != 0.0 then m[last.symbol := Discovered(last)] else m;
      forall sym ensures sym in m' <==> exists i :: 0 <= i < |rows| && OpenRowFor(rows[i], sym) {
        if sym in m' && !(last.positionAmt != 0.0 && sym == last.symbol) {
          assert sym in m;
          var i :| 0 <= i < |init| && OpenRowFor(init[i], sym);
          assert OpenRowFor(rows[i], sym);
        }
        if exists i :: 0 <= i < |rows| && OpenRowFor(rows[i], sym) {
          var i :| 0 <= i < |rows| && OpenRowFor(rows[i], sym);
          if i < |init| { assert OpenRowFor(init[i], sym); }
        }
      }
      forall sym | sym in m'
        ensures exists i :: (0 <= i < |rows| && OpenRowFor(rows[i], sym)
                             && m'[sym] == Discovered(rows[i])
                             && forall j :: i < j < |rows| ==> !OpenRowFor(rows[j], sym))
      {
        if last.positionAmt != 0.0 && sym == last.symbol {
          assert OpenRowFor(rows[|rows| - 1], sym) && m'[sym] == Discovered(rows[|rows| - 1]);
        } else {
          assert sym in m && m'[sym] == m[sym];
          var i :| 0 <= i < |init| && OpenRowFor(init[i], sym)
                   && m[sym] == Discovered(init[i])
                   && forall j :: i < j < |init| ==> !OpenRowFor(init[j], sym);
          assert OpenRowFor(rows[i], sym) && m'[sym] == Discovered(rows[i]);
          assert forall j :: i < j < |rows| ==> !OpenRowFor(rows[j], sym) by {
            forall j | i < j < |rows| ensures !OpenRowFor(rows[j], sym) {
              if j < |init| { assert rows[j] == init[j]; }
            }
          }
        }
      }
    }
  }

  /** Every discovered entry is a fresh, inactive, foreign one with positive quantity. */
  lemma DiscoveredEntriesAreFresh(rows: seq<ExchangeRow>)
    ensures forall sym :: sym in ForeignFromRows(rows) ==>
      var f := ForeignFromRows(rows)[sym];
      !f.active && !f.systemOrder && f.qty > 0.0
  {
    var m := ForeignFromRows(rows);
    ForeignFromRowsSpec(rows);
    forall sym | sym in m
      ensures !m[sym].active && !m[sym].systemOrder && m[sym].qty > 0.0
    {
      var i :| 0 <= i < |rows| && OpenRowFor(rows[i], sym) && m[sym] == Discovered(rows[i])
               && forall j :: i < j < |rows| ==> !OpenRowFor(rows[j], sym);
    }
  }

  /**
   * The two filters agree when the exchange lists each symbol at most once:
   * the discovered entry carries the side, quantity and entry price that
   * `get_position` reports for that symbol.
   */
  lemma DiscoveryAgreesWithLookup(rows: seq<ExchangeRow>, sym: string)
    requires forall i, j :: 0 <= i < j < |rows| ==> rows[i].symbol != rows[j].symbol
    requires sym in ForeignFromRows(rows)
    ensures
      var f := ForeignFromRows(rows)[sym];
      FindPosition(Some(rows), sym) == Some(Position(f.side, f.qty, f.entryPrice))
  {
    var m := ForeignFromRows(rows);
    ForeignFromRowsSpec(rows);
    var i :| 0 <= i < |rows| && OpenRowFor(rows[i], sym) && m[sym] == Discovered(rows[i])
             && forall j :: i < j < |rows| ==> !OpenRowFor(rows[j], sym);
    var p := FindPosition(Some(rows), sym);
    var k :| 0 <= k < |rows| && OpenRowFor(rows[k], sym) && p.value == RowPosition(rows[k])
             && forall j :: 0 <= j < k ==> !OpenRowFor(rows[j], sym);
    assert k == i;
  }
}
