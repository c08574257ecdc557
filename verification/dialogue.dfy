/**
 * The configuration dialogue: the `step` branches of `handle_message`
 * (numeric input with validation, per-symbol advancement, cancel) and the
 * buttons of `button_callback` that choose the setting mode, confirm the
 * settings and reconcile foreign positions. Every event maps one bot state
 * to the next; exchange replies arrive as parameters.
 */
module Dialogue {
  import opened Common
  import opened Settings
  import opened Book
  import opened Reconcile

  /** The `step` of a user's dialogue state. */
  datatype Step =
    | NoStep
    | GlobalLeverage
    | GlobalAmount
    | IndividualLeverage(symbols: seq<string>, index: nat, partial: map<string, SymbolSettings>)
    | IndividualAmount(symbols: seq<string>, index: nat, partial: map<string, SymbolSettings>)
    | TakeProfitStep
    | StopLossStep
    | SelectPositions

  /** `user_states[user_id]`: its step and, once a symbol was pressed, the selection. */
  datatype Session = Session(step: Step, selected: Option<map<string, ForeignPosition>>)

  const Fresh := Session(NoStep, None)

  datatype Bot = Bot(
    settings: TradeSettings,
    sessions: map<int, Session>,
    book: Book,
    watch: seq<WatchItem>)

  /**
   * A text message: the cancel word, or any other text together with the
   * results of `int(text)` and `float(text)` (None where Python raises
   * ValueError) and whether, outside a configuration step, the menu
   * dispatch sends it to `handle_auto_trade(..., False)` (the text is "6",
   * or names that command and none of the menu entries checked before it).
   * The two parses are taken as given and independent; for a real text an
   * integer parse implies the same value as a float parse, and no
   * contract here depends on that.
   */
  datatype Input = Cancel | Entry(asInt: Option<int>, asReal: Option<real>, disarms: bool)

  datatype Button =
    | ChooseMode(mode: Mode)
    | IntegrateAll
    | IntegrateNone
    | IntegrateSelect
    | SelectPosition(symbol: string)
    | ConfirmSelection
    | CancelSelection
    | ConfirmTrade(yes: bool)

  /** The symbols of the watch list in order, as `auto_trade_setting:individual` collects them. */
  function WatchSymbols(watch: seq<WatchItem>): (syms: seq<string>)
    ensures |syms| == |watch|
    ensures forall i :: 0 <= i < |watch| ==> syms[i] == watch[i].symbol
  {
    seq(|watch|, i requires 0 <= i < |watch| => watch[i].symbol)
  }

  function StepOf(bot: Bot, user: int): Step
  {
    if user in bot.sessions then bot.sessions[user].step else NoStep
  }

  /** The per-symbol entry after a leverage was accepted for `symbol`. */
  function WithLeverage(partial: map<string, SymbolSettings>, symbol: string, leverage: int): (m: map<string, SymbolSettings>)
    ensures m.Keys == partial.Keys + {symbol}
    ensures m[symbol].leverage == Some(leverage)
    ensures symbol in partial ==> m[symbol].orderAmount == partial[symbol].orderAmount
    ensures symbol !in partial ==> m[symbol].orderAmount.None?
    ensures forall s :: s in partial && s != symbol ==> m[s] == partial[s]
  {
    var before := if symbol in partial then partial[symbol] else NoOverrides;
    partial[symbol := before.(leverage := Some(leverage))]
  }

  /**
   * `handle_message` for one user's text. Cancel drops the session; in a
   * configuration step a valid number is stored and the step advances,
   * anything else changes nothing. A branch that raises an exception other
   * than ValueError (an index past the symbol list, a symbol with no
   * leverage entry) aborts the handler before any state is written, so it
   * changes nothing either. Text outside the configuration steps goes to
   * the menu commands, of which only the disarm is part of this model.
   */
  function HandleMessage(bot: Bot, user: int, input: Input): (r: Bot)
    ensures r.book == bot.book && r.watch == bot.watch
    ensures input == Cancel ==> r == bot.(sessions := bot.sessions - {user})
    ensures input != Cancel ==> forall u :: u != user ==> (u in r.sessions <==> u in bot.sessions)
    ensures input != Cancel ==> forall u :: u in r.sessions && u != user ==> r.sessions[u] == bot.sessions[u]
    // Global leverage: accepted exactly in 1..125.
    ensures input.Entry? && StepOf(bot, user) == GlobalLeverage ==>
      if input.asInt.Some? && ValidLeverage(input.asInt.value) then
        r == bot.(settings := bot.settings.(globalLeverage := input.asInt.value),
                  sessions := bot.sessions[user := Session(GlobalAmount, None)])
      else r == bot
    // Global amount: accepted exactly when positive.
    ensures input.Entry? && StepOf(bot, user) == GlobalAmount ==>
      if input.asReal.Some? && ValidAmount(input.asReal.value) then
        r == bot.(settings := bot.settings.(globalOrderAmount := input.asReal.value),
                  sessions := bot.sessions[user := Session(TakeProfitStep, None)])
      else r == bot
    // Take-profit: accepted exactly in 0..100.
    ensures input.Entry? && StepOf(bot, user) == TakeProfitStep ==>
      if input.asReal.Some? && ValidPercent(input.asReal.value) then
        r == bot.(settings := bot.settings.(takeProfit := input.asReal.value),
                  sessions := bot.sessions[user := Session(StopLossStep, None)])
      else r == bot
    // Stop-loss: accepted exactly in 0..100; the step stays where it is.
    ensures input.Entry? && StepOf(bot, user) == StopLossStep ==>
      if input.asReal.Some? && ValidPercent(input.asReal.value) then
        r == bot.(settings := bot.settings.(stopLoss := input.asReal.value))
      else r == bot
    // Individual leverage: the current symbol's leverage is recorded and the
    // same symbol's amount is asked next.
    ensures input.Entry? && StepOf(bot, user).IndividualLeverage? ==>
      var st := StepOf(bot, user);
      if input.asInt.Some? && ValidLeverage(input.asInt.value) && st.index < |st.symbols| then
        r == bot.(sessions := bot.sessions[user := bot.sessions[user].(step :=
               IndividualAmount(st.symbols, st.index, WithLeverage(st.partial, st.symbols[st.index], input.asInt.value)))])
      else r == bot
    // Individual amount: recorded, then either the next symbol's leverage or,
    // after the last symbol, the whole table is committed.
    ensures input.Entry? && StepOf(bot, user).IndividualAmount? ==>
      var st := StepOf(bot, user);
      if input.asReal.Some? && ValidAmount(input.asReal.value) && st.index < |st.symbols| && st.symbols[st.index] in st.partial then
        var sym := st.symbols[st.index];
        var partial := st.partial[sym := st.partial[sym].(orderAmount := Some(input.asReal.value))];
        if st.index + 1 < |st.symbols| then
          r == bot.(sessions := bot.sessions[user := bot.sessions[user].(step := IndividualLeverage(st.symbols, st.index + 1, partial))])
        else
          r == bot.(settings := bot.settings.(individual := partial),
                    sessions := bot.sessions[user := Session(TakeProfitStep, None)])
      else r == bot
    // Outside the configuration steps the text goes to the menu: the disarm
    // command switches automation off and nothing else; the other menu
    // commands change no modelled state.
    ensures input.Entry? && (StepOf(bot, user).NoStep? || StepOf(bot, user).SelectPositions?) ==>
      if input.disarms then r == bot.(settings := bot.settings.(autoTrade := false))
      else r == bot
  {
    match input
    case Cancel => bot.(sessions := bot.sessions - {user})
    case Entry(asInt, asReal, disarms) =>
      match StepOf(bot, user)
      case GlobalLeverage =>
        if asInt.Some? && ValidLeverage(asInt.value) then
          bot.(settings := bot.settings.(globalLeverage := asInt.value),
               sessions := bot.sessions[user := Session(GlobalAmount, None)])
        else bot
      case GlobalAmount =>
        if asReal.Some? && ValidAmount(asReal.value) then
          bot.(settings := bot.settings.(globalOrderAmount := asReal.value),
               sessions := bot.sessions[user := Session(TakeProfitStep, None)])
        else bot
      case IndividualLeverage(symbols, index, partial) =>
        if asInt.Some? && ValidLeverage(asInt.value) && index < |symbols| then
          var next := IndividualAmount(symbols, index, WithLeverage(partial, symbols[index], asInt.value));
          bot.(sessions := bot.sessions[user := bot.sessions[user].(step := next)])
        else bot
      case IndividualAmount(symbols, index, partial) =>
        if asReal.Some? && ValidAmount(asReal.value) && index < |symbols| && symbols[index] in partial then
          var sym := symbols[index];
          var updated := partial[sym := partial[sym].(orderAmount := Some(asReal.value))];
          if index + 1 < |symbols| then
            bot.(sessions := bot.sessions[user := bot.sessions[user].(step := IndividualLeverage(symbols, index + 1, updated))])
          else
            bot.(settings := bot.settings.(individual := updated),
                 sessions := bot.sessions[user := Session(TakeProfitStep, None)])
        else bot
      case TakeProfitStep =>
        if asReal.Some? && ValidPercent(asReal.value) then
          bot.(settings := bot.settings.(takeProfit := asReal.value),
               sessions := bot.sessions[user := Session(StopLossStep, None)])
        else bot
      case StopLossStep =>
        if asReal.Some? && ValidPercent(asReal.value) then
          bot.(settings := bot.settings.(stopLoss := asReal.value))
        else bot
      case NoStep => Menu(bot, disarms)
      case SelectPositions => Menu(bot, disarms)
  }

  /**
   * The menu branch of `handle_message`. Of its commands only the disarm
   * (`handle_auto_trade` with `enable` false) writes modelled state: it
   * switches automation off and saves the settings.
   */
  function Menu(bot: Bot, disarms: bool): Bot
  {
    if disarms then bot.(settings := bot.settings.(autoTrade := false)) else bot
  }

  /**
   * `button_callback` for the mode, confirmation and reconciliation
   * buttons. `reply` is the position-risk reply `check_existing_positions`
   * receives when the settings are confirmed.
   */
  function Press(bot: Bot, user: int, button: Button, reply: Option<seq<ExchangeRow>>): (r: Bot)
    ensures r.watch == bot.watch
    ensures forall u :: u != user ==> (u in r.sessions <==> u in bot.sessions)
    ensures forall u :: u in r.sessions && u != user ==> r.sessions[u] == bot.sessions[u]
    // Mode choice: the mode is stored and the first question is asked.
    ensures button.ChooseMode? ==>
      && r.settings == bot.settings.(mode := button.mode) && r.book == bot.book
      && user in r.sessions
      && r.sessions[user] == Session(if button.mode == Global then GlobalLeverage
                                     else IndividualLeverage(WatchSymbols(bot.watch), 0, map[]), None)
    // Adopt-all and keep-as-is both arm automation and end the dialogue.
    ensures button == IntegrateAll ==>
      r == bot.(settings := bot.settings.(autoTrade := true), sessions := bot.sessions - {user}, book := AdoptAll(bot.book))
    ensures button == IntegrateNone ==>
      r == bot.(settings := bot.settings.(autoTrade := true), sessions := bot.sessions - {user})
    ensures button == IntegrateSelect ==>
      r == bot.(sessions := bot.sessions[user := Session(SelectPositions, None)])
    ensures button == CancelSelection ==> r == bot.(sessions := bot.sessions - {user})
    // Toggling a symbol changes only the user's selection.
    ensures button.SelectPosition? ==> r.settings == bot.settings && r.book == bot.book
    ensures button.SelectPosition? ==>
      var sel := if user in bot.sessions then bot.sessions[user].selected.GetOr(map[]) else map[];
      match Toggle(sel, bot.book.foreign, button.symbol)
      case Some(next) => user in r.sessions && r.sessions[user].selected == Some(next)
                         && r.sessions[user].step == StepOf(bot, user)
      case None => (user in r.sessions <==> user in bot.sessions)
                   && (user in bot.sessions ==> r.sessions[user] == bot.sessions[user].(selected := Some(sel)))
    // Confirming a selection promotes exactly the selected entries.
    ensures button == ConfirmSelection ==>
      if user in bot.sessions && bot.sessions[user].selected.Some?
         && ConfirmSelected(bot.book, bot.sessions[user].selected.value).Some? then
        r == bot.(settings := bot.settings.(autoTrade := true), sessions := bot.sessions - {user},
                  book := ConfirmSelected(bot.book, bot.sessions[user].selected.value).value)
      else r == bot
    // Confirming the settings: arm automation at once unless foreign positions are found.
    ensures button == ConfirmTrade(true) ==>
      if Discover(bot.book, reply).1 then r == bot.(book := Discover(bot.book, reply).0)
      else r == bot.(settings := bot.settings.(autoTrade := true), sessions := bot.sessions - {user})
    ensures button == ConfirmTrade(false) ==>
      r == bot.(settings := bot.settings.(autoTrade := false), sessions := bot.sessions[user := Fresh])
  {
    match button
    case ChooseMode(mode) =>
      var step := if mode == Global then GlobalLeverage else IndividualLeverage(WatchSymbols(bot.watch), 0, map[]);
      bot.(settings := bot.settings.(mode := mode), sessions := bot.sessions[user := Session(step, None)])
    case IntegrateAll =>
      bot.(settings := bot.settings.(autoTrade := true), sessions := bot.sessions - {user}, book := AdoptAll(bot.book))
    case IntegrateNone =>
      bot.(settings := bot.settings.(autoTrade := true), sessions := bot.sessions - {user})
    case IntegrateSelect =>
      bot.(sessions := bot.sessions[user := Session(SelectPositions, None)])
    case SelectPosition(symbol) =>
      var session := if user in bot.sessions then bot.sessions[user] else Fresh;
      var sel := session.selected.GetOr(map[]);
      (match Toggle(sel, bot.book.foreign, symbol)
       // The KeyError strikes after an empty selection was attached to a
       // stored session, and before a new session is stored.
       case None =>
         if user in bot.sessions then bot.(sessions := bot.sessions[user := session.(selected := Some(sel))])
         else bot
       case Some(next) =>
         bot.(sessions := bot.sessions[user := session.(selected := Some(next))]))
    case ConfirmSelection =>
      if user in bot.sessions && bot.sessions[user].selected.Some? then
        (match ConfirmSelected(bot.book, bot.sessions[user].selected.value)
         case None => bot
         case Some(b) =>
           bot.(settings := bot.settings.(autoTrade := true), sessions := bot.sessions - {user}, book := b))
      else bot
    case CancelSelection =>
      bot.(sessions := bot.sessions - {user})
    case ConfirmTrade(yes) =>
      if yes then
        var (b, found) := Discover(bot.book, reply);
        if found then bot.(book := b)
        else bot.(settings := bot.settings.(autoTrade := true), sessions := bot.sessions - {user})
      else
        bot.(settings := bot.settings.(autoTrade := false), sessions := bot.sessions[user := Fresh])
  }

  /** One user event: a text message or a button press (with the reply the press needs). */
  datatype Event =
    | Text(user: int, input: Input)
    | Tap(user: int, button: Button, reply: Option<seq<ExchangeRow>>)

  function Apply(bot: Bot, e: Event): Bot
  {
    match e
    case Text(user, input) => HandleMessage(bot, user, input)
    case Tap(user, button, reply) => Press(bot, user, button, reply)
  }

  function Run(bot: Bot, events: seq<Event>): Bot
    decreases |events|
  {
    if |events| == 0 then bot else Run(Apply(bot, events[0]), events[1..])
  }

  // ---------------------------------------------------------------------
  // Invariants

  /** A partial per-symbol table only ever holds values the dialogue accepted. */
  predicate SessionValid(s: Session)
  {
    match s.step
    case IndividualLeverage(_, _, partial) => ValidOverrideMap(partial)
    case IndividualAmount(_, _, partial) => ValidOverrideMap(partial)
    case _ => true
  }

  predicate BotValid(bot: Bot)
  {
    && Valid(bot.settings)
    && (forall u :: u in bot.sessions ==> SessionValid(bot.sessions[u]))
    && BracketsCovered(bot.book)
  }

  lemma StartIsValid(watch: seq<WatchItem>)
    ensures BotValid(Bot(Load(None), map[], Empty, watch))
  {
  }

  /** Every text message keeps the settings and the sessions valid. */
  lemma MessageKeepsValid(bot: Bot, user: int, input: Input)
    requires BotValid(bot)
    ensures BotValid(HandleMessage(bot, user, input))
  {
    var r := HandleMessage(bot, user, input);
    if input.Entry? {
      match StepOf(bot, user)
      case IndividualLeverage(symbols, index, partial) =>
        if input.asInt.Some? && ValidLeverage(input.asInt.value) && index < |symbols| {
          assert SessionValid(bot.sessions[user]);
          assert ValidOverrideMap(WithLeverage(partial, symbols[index], input.asInt.value));
          assert SessionValid(r.sessions[user]);
        }
      case IndividualAmount(symbols, index, partial) =>
        if input.asReal.Some? && ValidAmount(input.asReal.value) && index < |symbols| && symbols[index] in partial {
          assert SessionValid(bot.sessions[user]);
        }
      case _ =>
    }
  }

  /** Every button press keeps the settings, the sessions and the bracket records valid. */
  lemma PressKeepsValid(bot: Bot, user: int, button: Button, reply: Option<seq<ExchangeRow>>)
    requires BotValid(bot)
    ensures BotValid(Press(bot, user, button, reply))
  {
    ReconcileKeepsBracketsCovered(bot.book, if user in bot.sessions then bot.sessions[user].selected.GetOr(map[]) else map[], reply);
  }

  /** Any sequence of events from a valid state ends in a valid state. */
  lemma {:induction false} RunKeepsValid(bot: Bot, events: seq<Event>)
    requires BotValid(bot)
    ensures BotValid(Run(bot, events))
    decreases |events|
  {
    if |events| > 0 {
      match events[0] {
        case Text(user, input) => MessageKeepsValid(bot, user, input);
        case Tap(user, button, reply) => PressKeepsValid(bot, user, button, reply);
      }
      RunKeepsValid(Apply(bot, events[0]), events[1..]);
    }
  }

  // ---------------------------------------------------------------------
  // The per-symbol path

  /**
   * The table the per-symbol path builds from `partial` when the symbols
   * receive the given leverages and amounts in order; a symbol listed
   * twice keeps its last pair.
   */
  function Entered(partial: map<string, SymbolSettings>, syms: seq<string>, levs: seq<int>, amts: seq<real>)
    : map<string, SymbolSettings>
    requires |levs| == |syms| && |amts| == |syms|
    decreases |syms|
  {
    if |syms| == 0 then partial
    else Entered(partial[syms[0] := SymbolSettings(Some(levs[0]), Some(amts[0]))], syms[1..], levs[1..], amts[1..])
  }

  /** With distinct symbols, each one ends up with exactly its own pair. */
  lemma {:induction false} EnteredSpec(partial: map<string, SymbolSettings>, syms: seq<string>, levs: seq<int>, amts: seq<real>)
    requires |levs| == |syms| && |amts| == |syms|
    requires forall i, j :: 0 <= i < j < |syms| ==> syms[i] != syms[j]
    ensures var m := Entered(partial, syms, levs, amts);
      && (forall s :: s in m <==> s in partial || s in syms)
      && (forall i :: 0 <= i < |syms| ==> m[syms[i]] == SymbolSettings(Some(levs[i]), Some(amts[i])))
      && (forall s :: s in partial && s !in syms ==> m[s] == partial[s])
    decreases |syms|
  {
    if |syms| > 0 {
      var p := partial[syms[0] := SymbolSettings(Some(levs[0]), Some(amts[0]))];
      forall i, j | 0 <= i < j < |syms[1..]| ensures syms[1..][i] != syms[1..][j] {
        assert syms[1..][i] == syms[i + 1] && syms[1..][j] == syms[j + 1];
      }
      EnteredSpec(p, syms[1..], levs[1..], amts[1..]);
      var m := Entered(partial, syms, levs, amts);
      assert m == Entered(p, syms[1..], levs[1..], amts[1..]);
      assert forall s :: s in syms <==> s == syms[0] || s in syms[1..] by {
        assert syms == [syms[0]] + syms[1..];
      }
      forall i | 0 <= i < |syms| ensures m[syms[i]] == SymbolSettings(Some(levs[i]), Some(amts[i])) {
        if i == 0 {
          assert syms[0] !in syms[1..] by {
            forall k | 0 <= k < |syms[1..]| ensures syms[1..][k] != syms[0] {
              assert syms[1..][k] == syms[k + 1];
            }
          }
        } else {
          assert syms[i] == syms[1..][i - 1] && levs[i] == levs[1..][i - 1] && amts[i] == amts[1..][i - 1];
        }
      }
    }
  }

  /** The text events answering the per-symbol questions: leverage, then amount, for each symbol. */
  function Answers(user: int, levs: seq<int>, amts: seq<real>): (es: seq<Event>)
    requires |levs| == |amts|
    ensures |es| == 2 * |levs|
    decreases |levs|
  {
    if |levs| == 0 then []
    else [Text(user, Entry(Some(levs[0]), Some(levs[0] as real), false)), Text(user, Entry(None, Some(amts[0]), false))]
         + Answers(user, levs[1..], amts[1..])
  }

  lemma RunAppend(bot: Bot, a: seq<Event>, b: seq<Event>)
    ensures Run(bot, a + b) == Run(Run(bot, a), b)
    decreases |a|
  {
    if |a| == 0 {
      assert a + b == b;
    } else {
      assert (a + b)[0] == a[0] && (a + b)[1..] == a[1..] + b;
      RunAppend(Apply(bot, a[0]), a[1..], b);
    }
  }

  /**
   * Answering every remaining per-symbol question with valid values
   * commits the table built from them and moves on to the take-profit
   * question; nothing else changes.
   */
  lemma {:induction false} IndividualPathCommits(bot: Bot, user: int, symbols: seq<string>, index: nat,
                                                 partial: map<string, SymbolSettings>, levs: seq<int>, amts: seq<real>)
    requires user in bot.sessions && bot.sessions[user].step == IndividualLeverage(symbols, index, partial)
    requires index < |symbols| && |levs| == |symbols| - index && |amts| == |levs|
    requires forall i :: 0 <= i < |levs| ==> ValidLeverage(levs[i]) && ValidAmount(amts[i])
    ensures Run(bot, Answers(user, levs, amts))
         == bot.(settings := bot.settings.(individual := Entered(partial, symbols[index..], levs, amts)),
                 sessions := bot.sessions[user := Session(TakeProfitStep, None)])
    decreases |symbols| - index
  {
    var sym := symbols[index];
    var e1 := Text(user, Entry(Some(levs[0]), Some(levs[0] as real), false));
    var e2 := Text(user, Entry(None, Some(amts[0]), false));
    var rest := Answers(user, levs[1..], amts[1..]);
    assert Answers(user, levs, amts) == [e1, e2] + rest;
    RunAppend(bot, [e1, e2], rest);
    var b1 := HandleMessage(bot, user, e1.input);
    var withLev := WithLeverage(partial, sym, levs[0]);
    assert b1 == bot.(sessions := bot.sessions[user := bot.sessions[user].(step := IndividualAmount(symbols, index, withLev))]);
    var b2 := HandleMessage(b1, user, e2.input);
    var updated := withLev[sym := withLev[sym].(orderAmount := Some(amts[0]))];
    assert updated == partial[sym := SymbolSettings(Some(levs[0]), Some(amts[0]))];
    assert Run(bot, [e1, e2]) == b2 by {
      assert [e1, e2][0] == e1 && [e1, e2][1..] == [e2];
      assert [e2][0] == e2 && [e2][1..] == [];
      assert Run(bot, [e1, e2]) == Run(b1, [e2]);
      assert Run(b1, [e2]) == Run(b2, []);
    }
    assert symbols[index..][1..] == symbols[index + 1..];
    if index + 1 < |symbols| {
      assert b2 == bot.(sessions := bot.sessions[user := bot.sessions[user].(step := IndividualLeverage(symbols, index + 1, updated))]);
      IndividualPathCommits(b2, user, symbols, index + 1, updated, levs[1..], amts[1..]);
      assert b2.sessions[user := Session(TakeProfitStep, None)] == bot.sessions[user := Session(TakeProfitStep, None)];
    } else {
      assert rest == [];
      assert Entered(updated, symbols[index + 1..], levs[1..], amts[1..]) == updated;
    }
  }

  /**
   * Choosing the per-symbol mode over a watch list of distinct symbols and
   * answering every question with valid values leaves exactly those
   * symbols in the table, each with its own leverage and amount.
   */
  lemma IndividualModeSetsEverySymbol(bot: Bot, user: int, levs: seq<int>, amts: seq<real>)
    requires |bot.watch| > 0 && |levs| == |bot.watch| && |amts| == |levs|
    requires forall i, j :: 0 <= i < j < |bot.watch| ==> bot.watch[i].symbol != bot.watch[j].symbol
    requires forall i :: 0 <= i < |levs| ==> ValidLeverage(levs[i]) && ValidAmount(amts[i])
    ensures var r := Run(bot, [Tap(user, ChooseMode(Individual), None)] + Answers(user, levs, amts));
      && r.settings.mode == Individual
      && user in r.sessions && r.sessions[user] == Session(TakeProfitStep, None)
      && (forall s :: s in r.settings.individual <==> exists i :: 0 <= i < |bot.watch| && bot.watch[i].symbol == s)
      && (forall i :: 0 <= i < |bot.watch| ==>
            r.settings.individual[bot.watch[i].symbol] == SymbolSettings(Some(levs[i]), Some(amts[i])))
  {
    var syms := WatchSymbols(bot.watch);
    var tap := Tap(user, ChooseMode(Individual), None);
    var b1 := Apply(bot, tap);
    RunAppend(bot, [tap], Answers(user, levs, amts));
    assert Run(bot, [tap]) == b1 by {
      assert [tap][1..] == [];
    }
    IndividualPathCommits(b1, user, syms, 0, map[], levs, amts);
    assert syms[0..] == syms;
    EnteredSpec(map[], syms, levs, amts);
    var r := Run(b1, Answers(user, levs, amts));
    forall s ensures s in r.settings.individual <==> exists i :: 0 <= i < |bot.watch| && bot.watch[i].symbol == s {
      if s in r.settings.individual {
        var i :| 0 <= i < |syms| && syms[i] == s;
        assert bot.watch[i].symbol == s;
      }
      if exists i :: 0 <= i < |bot.watch| && bot.watch[i].symbol == s {
        var i :| 0 <= i < |bot.watch| && bot.watch[i].symbol == s;
        assert syms[i] == s;
      }
    }
  }

  // ---------------------------------------------------------------------
  // Scenarios

  /** Out-of-range and non-numeric answers re-prompt without changing anything. */
  lemma RejectedAnswersChangeNothing(bot: Bot, user: int)
    requires user in bot.sessions && bot.sessions[user].step == GlobalLeverage
    ensures HandleMessage(bot, user, Entry(Some(200), Some(200.0), false)) == bot
    ensures HandleMessage(bot, user, Entry(Some(0), Some(0.0), false)) == bot
    ensures HandleMessage(bot, user, Entry(None, Some(2.5), false)) == bot
    ensures HandleMessage(bot, user, Entry(None, None, false)) == bot
    ensures HandleMessage(bot, user, Entry(Some(50), Some(50.0), false)).settings.globalLeverage == 50
  {
  }

  /**
   * The menu text "6" disarms automation only outside the configuration
   * steps; while the leverage question is open it is the answer 6.
   */
  lemma SixDisarmsOnlyOutsideTheDialogue(bot: Bot, user: int)
    ensures StepOf(bot, user) == NoStep ==>
      HandleMessage(bot, user, Entry(Some(6), Some(6.0), true)) == bot.(settings := bot.settings.(autoTrade := false))
    ensures StepOf(bot, user) == GlobalLeverage ==>
      var r := HandleMessage(bot, user, Entry(Some(6), Some(6.0), true));
      r.settings.autoTrade == bot.settings.autoTrade && r.settings.globalLeverage == 6
  {
  }

  /**
   * The whole global path: mode, leverage 50, amount 100, take-profit 5,
   * stop-loss 2, confirm with no foreign positions. Automation is armed
   * with exactly those settings and the dialogue is over.
   */
  lemma GlobalPathArmsAutomation(watch: seq<WatchItem>)
    ensures var bot := Bot(Defaults, map[], Empty, watch);
      var events := [Tap(7, ChooseMode(Global), None),
                     Text(7, Entry(Some(200), Some(200.0), false)),
                     Text(7, Entry(Some(50), Some(50.0), false)),
                     Text(7, Entry(Some(100), Some(100.0), false)),
                     Text(7, Entry(Some(5), Some(5.0), false)),
                     Text(7, Entry(Some(2), Some(2.0), false)),
                     Tap(7, ConfirmTrade(true), Some([ExchangeRow("BTCUSDT", 0.0, 0.0)]))];
      Run(bot, events) == Bot(TradeSettings(true, Global, 50, 100.0, map[], 5.0, 2.0), map[], Empty, watch)
  {
    var bot := Bot(Defaults, map[], Empty, watch);
    var reply := Some([ExchangeRow("BTCUSDT", 0.0, 0.0)]);
    var b1 := Press(bot, 7, ChooseMode(Global), None);
    var b2 := HandleMessage(b1, 7, Entry(Some(200), Some(200.0), false));
    assert b2 == b1;
    var b3 := HandleMessage(b2, 7, Entry(Some(50), Some(50.0), false));
    var b4 := HandleMessage(b3, 7, Entry(Some(100), Some(100.0), false));
    var b5 := HandleMessage(b4, 7, Entry(Some(5), Some(5.0), false));
    var b6 := HandleMessage(b5, 7, Entry(Some(2), Some(2.0), false));
    assert b6.settings == TradeSettings(false, Global, 50, 100.0, map[], 5.0, 2.0);
    assert b6.sessions == map[7 := Session(StopLossStep, None)];
    assert !Discover(b6.book, reply).1 by {
      assert ForeignFromRows([ExchangeRow("BTCUSDT", 0.0, 0.0)]) == map[];
    }
    var b7 := Press(b6, 7, ConfirmTrade(true), reply);
    assert b7.sessions == map[];
  }

  /**
   * The per-symbol mode over an empty watch list: the first question
   * refers to a symbol that does not exist, so every answer aborts the
   * handler and the dialogue stays where it is until cancelled.
   */
  lemma EmptyWatchListStalls(bot: Bot, user: int, input: Input)
    requires bot.watch == []
    ensures var b := Press(bot, user, ChooseMode(Individual), None);
      && b.sessions[user].step == IndividualLeverage([], 0, map[])
      && (input.Entry? ==> HandleMessage(b, user, input) == b)
      && (input == Cancel ==> user !in HandleMessage(b, user, input).sessions)
  {
  }
}
