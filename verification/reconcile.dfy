/**
 * Reconciliation of positions opened outside the bot: discovery
 * (`check_existing_positions`), adopt-all (`integrate_existing:all`),
 * toggle-selection (`select_position`) and confirmation
 * (`confirm_selection`).
 */
module Reconcile {
  import opened Common
  import opened Book

  /**
   * `check_existing_positions`: when the reply holds an open row, the
   * foreign snapshot is replaced by the discovered entries and `true` is
   * returned; otherwise (failed request included) nothing changes.
   */
  function Discover(b: Book, reply: Option<seq<ExchangeRow>>): (r: (Book, bool))
    ensures r.1 <==> reply.Some? && exists i :: 0 <= i < |reply.value| && reply.value[i].positionAmt != 0.0
    ensures !r.1 ==> r.0 == b
    ensures r.1 ==> r.0 == b.(foreign := ForeignFromRows(reply.value))
  {
    if reply.None? then (b, false)
    else
      var found := ForeignFromRows(reply.value);
      ForeignFromRowsSpec(reply.value);
      assert (exists i :: 0 <= i < |reply.value| && reply.value[i].positionAmt != 0.0)
        ==> reply.value[0].symbol in found || exists sym :: sym in found by {
        if exists i :: 0 <= i < |reply.value| && reply.value[i].positionAmt != 0.0 {
          var i :| 0 <= i < |reply.value| && reply.value[i].positionAmt != 0.0;
          assert OpenRowFor(reply.value[i], reply.value[i].symbol);
          assert reply.value[i].symbol in found;
        }
      }
      if found == map[] then (b, false)
      else (b.(foreign := found), true)
  }

  /** The `positions` entry made from a foreign one: same side, quantity and entry price. */
  function Adopted(f: ForeignPosition): (p: Position)
    ensures p.side == f.side && p.qty == f.qty && p.entryPrice == f.entryPrice
  {
    Position(f.side, f.qty, f.entryPrice)
  }

  /** A foreign entry after promotion: system-owned and active. */
  function Promoted(f: ForeignPosition): (g: ForeignPosition)
    ensures g.systemOrder && g.active
    ensures g.side == f.side && g.qty == f.qty && g.entryPrice == f.entryPrice
  {
    f.(systemOrder := true, active := true)
  }

  /** Adopt-all: every foreign entry is promoted and copied into `positions`. */
  function AdoptAll(b: Book): (r: Book)
    ensures r.positions.Keys == b.positions.Keys + b.foreign.Keys
    ensures forall sym :: sym in b.foreign ==> r.positions[sym] == Adopted(b.foreign[sym])
    ensures forall sym :: sym in b.positions && sym !in b.foreign ==> r.positions[sym] == b.positions[sym]
    ensures r.foreign.Keys == b.foreign.Keys
    ensures forall sym :: sym in r.foreign ==> r.foreign[sym] == Promoted(b.foreign[sym])
    ensures r.brackets == b.brackets
  {
    var copies := map sym | sym in b.foreign :: Adopted(b.foreign[sym]);
    var marked := map sym | sym in b.foreign :: Promoted(b.foreign[sym]);
    Book(b.positions + copies, b.brackets, marked)
  }

  /** After adopt-all no foreign entry is left unmanaged. */
  lemma AdoptAllLeavesNoneUnmanaged(b: Book)
    ensures forall sym :: sym in AdoptAll(b).foreign ==>
      AdoptAll(b).foreign[sym].systemOrder && AdoptAll(b).foreign[sym].active && sym in AdoptAll(b).positions
  {
  }

  /**
   * `select_position`: a selected symbol is deselected; an unselected one
   * is selected with its foreign entry. None when the symbol is neither
   * selected nor foreign (the source's KeyError).
   */
  function Toggle(selected: map<string, ForeignPosition>, foreign: map<string, ForeignPosition>, symbol: string)
    : (r: Option<map<string, ForeignPosition>>)
    ensures symbol in selected ==> r == Some(selected - {symbol})
    ensures symbol !in selected && symbol in foreign ==> r == Some(selected[symbol := foreign[symbol]])
    ensures symbol !in selected && symbol !in foreign ==> r.None?
  {
    if symbol in selected then Some(selected - {symbol})
    else if symbol in foreign then Some(selected[symbol := foreign[symbol]])
    else None
  }

  /** Pressing the same symbol twice restores the selection. */
  lemma ToggleTwiceRestores(selected: map<string, ForeignPosition>, foreign: map<string, ForeignPosition>, symbol: string)
    requires symbol in foreign
    requires symbol in selected ==> selected[symbol] == foreign[symbol]
    ensures Toggle(selected, foreign, symbol).Some?
    ensures Toggle(Toggle(selected, foreign, symbol).value, foreign, symbol) == Some(selected)
  {
    if symbol !in selected {
      assert selected[symbol := foreign[symbol]] - {symbol} == selected;
    } else {
      assert (selected - {symbol})[symbol := foreign[symbol]] == selected;
    }
  }

  /**
   * `confirm_selection`: exactly the selected entries are copied into
   * `positions` and promoted in the foreign snapshot. None when a selected
   * symbol has meanwhile left the snapshot (the source's KeyError).
   */
  function ConfirmSelected(b: Book, selected: map<string, ForeignPosition>): (r: Option<Book>)
    ensures r.Some? <==> selected.Keys <= b.foreign.Keys
    ensures r.Some? ==>
      && r.value.positions.Keys == b.positions.Keys + selected.Keys
      && (forall sym :: sym in selected ==> r.value.positions[sym] == Adopted(selected[sym]))
      && (forall sym :: sym in b.positions && sym !in selected ==> r.value.positions[sym] == b.positions[sym])
      && r.value.foreign.Keys == b.foreign.Keys
      && (forall sym :: sym in selected ==> r.value.foreign[sym] == Promoted(b.foreign[sym]))
      && (forall sym :: sym in b.foreign && sym !in selected ==> r.value.foreign[sym] == b.foreign[sym])
      && r.value.brackets == b.brackets
  {
    if !(selected.Keys <= b.foreign.Keys) then None
    else
      var copies := map sym | sym in selected :: Adopted(selected[sym]);
      var marked := map sym | sym in selected :: Promoted(b.foreign[sym]);
      Some(Book(b.positions + copies, b.brackets, b.foreign + marked))
  }

  /** Confirming a selection of every foreign entry is the same as adopt-all. */
  lemma ConfirmAllIsAdoptAll(b: Book)
    ensures ConfirmSelected(b, b.foreign) == Some(AdoptAll(b))
  {
    var r := ConfirmSelected(b, b.foreign).value;
    var a := AdoptAll(b);
    assert r.positions == a.positions;
    assert r.foreign == a.foreign;
  }

  /** Toggling a list of symbols in order. */
  function ToggleAll(selected: map<string, ForeignPosition>, foreign: map<string, ForeignPosition>, syms: seq<string>)
    : Option<map<string, ForeignPosition>>
    decreases |syms|
  {
    if |syms| == 0 then Some(selected)
    else
      match Toggle(selected, foreign, syms[0])
      case None => None
      case Some(next) => ToggleAll(next, foreign, syms[1..])
  }

  /** The foreign entries of the listed symbols. */
  function Picked(foreign: map<string, ForeignPosition>, syms: seq<string>): map<string, ForeignPosition>
    requires forall i :: 0 <= i < |syms| ==> syms[i] in foreign
  {
    map sym | sym in syms :: foreign[sym]
  }

  lemma PickedCons(foreign: map<string, ForeignPosition>, syms: seq<string>)
    requires |syms| > 0
    requires forall i :: 0 <= i < |syms| ==> syms[i] in foreign
    ensures Picked(foreign, syms) == Picked(foreign, syms[1..])[syms[0] := foreign[syms[0]]]
  {
    assert forall sym :: sym in syms <==> sym == syms[0] || sym in syms[1..] by {
      assert syms == [syms[0]] + syms[1..];
    }
  }

  /**
   * Pressing distinct, not yet selected foreign symbols once each adds
   * exactly those symbols, with their foreign entries, to the selection.
   */
  lemma {:induction false} ToggleDistinctSelects(selected: map<string, ForeignPosition>, foreign: map<string, ForeignPosition>,
                                                 syms: seq<string>)
    requires forall i, j :: 0 <= i < j < |syms| ==> syms[i] != syms[j]
    requires forall i :: 0 <= i < |syms| ==> syms[i] in foreign && syms[i] !in selected
    ensures ToggleAll(selected, foreign, syms) == Some(selected + Picked(foreign, syms))
    decreases |syms|
  {
    if |syms| > 0 {
      var first := syms[0];
      var rest := syms[1..];
      var next := selected[first := foreign[first]];
      assert Toggle(selected, foreign, first) == Some(next);
      assert ToggleAll(selected, foreign, syms) == ToggleAll(next, foreign, rest);
      forall i | 0 <= i < |rest| ensures rest[i] in foreign && rest[i] !in next {
        assert rest[i] == syms[i + 1];
      }
      forall i, j | 0 <= i < j < |rest| ensures rest[i] != rest[j] {
        assert rest[i] == syms[i + 1] && rest[j] == syms[j + 1];
      }
      ToggleDistinctSelects(next, foreign, rest);
      PickedCons(foreign, syms);
      assert first !in rest by {
        forall i | 0 <= i < |rest| ensures rest[i] != first {
          assert rest[i] == syms[i + 1];
        }
      }
      assert first !in Picked(foreign, rest);
      MergeShift(selected, first, foreign[first], Picked(foreign, rest));
      calc {
        ToggleAll(selected, foreign, syms);
        ToggleAll(next, foreign, rest);
        Some(next + Picked(foreign, rest));
        Some(selected + Picked(foreign, rest)[first := foreign[first]]);
        Some(selected + Picked(foreign, syms));
      }
    } else {
      assert Picked(foreign, syms) == map[];
      assert selected + map[] == selected;
    }
  }

  lemma MergeShift(m: map<string, ForeignPosition>, k: string, v: ForeignPosition, n: map<string, ForeignPosition>)
    requires k !in n
    ensures m[k := v] + n == m + n[k := v]
  {
  }

  /**
   * Selecting every foreign symbol one by one from an empty selection and
   * then confirming has exactly the effect of adopt-all.
   */
  lemma SelectEachThenConfirmIsAdoptAll(b: Book, syms: seq<string>)
    requires forall i, j :: 0 <= i < j < |syms| ==> syms[i] != syms[j]
    requires forall sym :: sym in b.foreign <==> sym in syms
    ensures ToggleAll(map[], b.foreign, syms).Some?
    ensures ConfirmSelected(b, ToggleAll(map[], b.foreign, syms).value) == Some(AdoptAll(b))
  {
    ToggleDistinctSelects(map[], b.foreign, syms);
    var sel := ToggleAll(map[], b.foreign, syms).value;
    assert sel == b.foreign;
    ConfirmAllIsAdoptAll(b);
  }

  /** Reconciliation never touches bracket records and only adds positions. */
  lemma ReconcileKeepsBracketsCovered(b: Book, selected: map<string, ForeignPosition>, reply: Option<seq<ExchangeRow>>)
    requires BracketsCovered(b)
    ensures BracketsCovered(AdoptAll(b))
    ensures ConfirmSelected(b, selected).Some? ==> BracketsCovered(ConfirmSelected(b, selected).value)
    ensures BracketsCovered(Discover(b, reply).0)
  {
  }

  /**
   * Discovery followed by adopt-all: every symbol with an open row ends up
   * as a managed position whose side, quantity and entry price are those
   * of its last open row.
   */
  lemma DiscoverThenAdoptAll(b: Book, rows: seq<ExchangeRow>, i: nat)
    requires i < |rows| && rows[i].positionAmt != 0.0
    requires forall j :: i < j < |rows| ==> rows[j].symbol != rows[i].symbol
    ensures Discover(b, Some(rows)).1
    ensures var a := AdoptAll(Discover(b, Some(rows)).0);
      && rows[i].symbol in a.positions
      && a.positions[rows[i].symbol] == RowPosition(rows[i])
      && rows[i].symbol in a.foreign
      && a.foreign[rows[i].symbol].systemOrder && a.foreign[rows[i].symbol].active
  {
    var sym := rows[i].symbol;
    ForeignFromRowsSpec(rows);
    var m := ForeignFromRows(rows);
    assert OpenRowFor(rows[i], sym);
    var k :| 0 <= k < |rows| && OpenRowFor(rows[k], sym) && m[sym] == Discovered(rows[k])
             && forall j :: k < j < |rows| ==> !OpenRowFor(rows[j], sym);
    assert k == i;
  }

  /** Two foreign positions, adopt-all: both become managed with unchanged side, quantity and entry. */
  lemma AdoptTwoForeignPositions()
    ensures
      var rows := [ExchangeRow("BTCUSDT", 0.5, 60000.0), ExchangeRow("ETHUSDT", -2.0, 3000.0)];
      var a := AdoptAll(Discover(Empty, Some(rows)).0);
      && a.positions == map["BTCUSDT" := Position(Long, 0.5, 60000.0), "ETHUSDT" := Position(Short, 2.0, 3000.0)]
      && forall sym :: sym in a.foreign ==> a.foreign[sym].systemOrder
  {
    var rows := [ExchangeRow("BTCUSDT", 0.5, 60000.0), ExchangeRow("ETHUSDT", -2.0, 3000.0)];
    assert rows[..1] == [rows[0]] && rows[..1][..0] == [];
    assert ForeignFromRows(rows[..1]) == map["BTCUSDT" := Discovered(rows[0])];
    var f := ForeignFromRows(rows);
    assert f == map["BTCUSDT" := Discovered(rows[0]), "ETHUSDT" := Discovered(rows[1])];
    assert Discover(Empty, Some(rows)).0 == Empty.(foreign := f);
    var a := AdoptAll(Empty.(foreign := f));
    assert a.positions.Keys == {"BTCUSDT", "ETHUSDT"};
  }
}
