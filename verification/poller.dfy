/**
 * One pass of the poll loop for one watched instrument (the body of the
 * `for item in data["symbols"]` loop of `monitor_task`): the short-history
 * and same-candle skips, MA crossover edge detection against the stored
 * previous averages, and the update of `prev_klines` / `prev_states`.
 */
module Poller {
  import opened Common
  import opened Indicator

  /** The averages remembered per key, `prev_states[key] = (ma9, ma26)`. */
  datatype MaPair = MaPair(fast: real, slow: real)

  /** `prev_klines` (last accepted candle list) and `prev_states` per watch key. */
  datatype PollState = PollState(klines: map<WatchItem, seq<Candle>>, averages: map<WatchItem, MaPair>)

  const Fresh := PollState(map[], map[])

  /** What an evaluated (not skipped) poll step produced. */
  datatype Evaluation = Evaluation(reading: Reading, signal: Option<Signal>, trade: bool)

  /**
   * Edge detection. BUY when the fast average goes from at-or-below to
   * strictly above the slow one; otherwise SELL when it goes from
   * at-or-above to strictly below. Nothing without a previous pair.
   */
  function Detect(prev: Option<MaPair>, cur: MaPair): (s: Option<Signal>)
    ensures s == Some(Buy) <==> prev.Some? && prev.value.fast <= prev.value.slow && cur.fast > cur.slow
    ensures s == Some(Sell) <==> prev.Some? && prev.value.fast >= prev.value.slow && cur.fast < cur.slow
  {
    match prev
    case None => None
    case Some(p) =>
      if p.fast <= p.slow && cur.fast > cur.slow then Some(Buy)
      else if p.fast >= p.slow && cur.fast < cur.slow then Some(Sell)
      else None
  }

  function Lookup<K, V>(m: map<K, V>, k: K): Option<V>
  {
    if k in m then Some(m[k]) else None
  }

  /** The reply was missing or held fewer than 26 candles. */
  predicate Insufficient(reply: Option<seq<Candle>>)
  {
    reply.None? || |reply.value| < SlowPeriod
  }

  /**
   * The last candle is the one already seen for this key. An empty stored
   * list makes the source raise IndexError, which the per-item handler
   * swallows; that is a skip as well.
   */
  predicate SameCandle(st: PollState, item: WatchItem, ks: seq<Candle>)
    requires |ks| > 0
  {
    item in st.klines
    && (|st.klines[item]| == 0 || ks[|ks| - 1].openTime == st.klines[item][|st.klines[item]| - 1].openTime)
  }

  /**
   * One poll step. `reply` is the candle fetch (None when the request
   * failed); `autoTrade` is `trade_settings["auto_trade"]`.
   */
  function PollStep(st: PollState, item: WatchItem, reply: Option<seq<Candle>>, autoTrade: bool)
    : (r: (PollState, Option<Evaluation>))
    ensures Insufficient(reply) ==> r == (st, None)
    ensures !Insufficient(reply) && SameCandle(st, item, reply.value) ==> r == (st, None)
    ensures r.1.Some? <==> !Insufficient(reply) && !SameCandle(st, item, reply.value)
    ensures r.1.Some? ==>
      var e := r.1.value;
      var ks := reply.value;
      && r.0.klines == st.klines[item := ks]
      && r.0.averages == st.averages[item := MaPair(e.reading.fast, e.reading.slow)]
      && e.reading == CalculateMa(ks)
      && (item !in st.averages ==> e.signal.None?)
      && (e.signal == Some(Buy) <==>
            item in st.averages && st.averages[item].fast <= st.averages[item].slow && e.reading.fast > e.reading.slow)
      && (e.signal == Some(Sell) <==>
            item in st.averages && st.averages[item].fast >= st.averages[item].slow && e.reading.fast < e.reading.slow)
      && (e.trade <==> e.signal.Some? && item.kind == Contract && autoTrade)
  {
    if Insufficient(reply) then (st, None)
    else
      var ks := reply.value;
      if SameCandle(st, item, ks) then (st, None)
      else
        var reading := CalculateMa(ks);
        var cur := MaPair(reading.fast, reading.slow);
        var signal := Detect(Lookup(st.averages, item), cur);
        var trade := signal.Some? && item.kind == Contract && autoTrade;
        (PollState(st.klines[item := ks], st.averages[item := cur]), Some(Evaluation(reading, signal, trade)))
  }

  /**
   * Every stored candle list passed the length check, and a key has stored
   * averages only once its candles were stored with them.
   */
  predicate WellFormed(st: PollState)
  {
    && (forall k :: k in st.klines ==> |st.klines[k]| >= SlowPeriod)
    && st.averages.Keys <= st.klines.Keys
  }

  lemma PollStepKeepsWellFormed(st: PollState, item: WatchItem, reply: Option<seq<Candle>>, autoTrade: bool)
    requires WellFormed(st)
    ensures WellFormed(PollStep(st, item, reply, autoTrade).0)
  {
  }

  /**
   * Idempotence: once a candle list has been evaluated, a second reply
   * whose last candle has the same open time produces no evaluation, no
   * signal and no state change.
   */
  lemma SameTimestampTwiceIsSilent(st: PollState, item: WatchItem, first: seq<Candle>, second: seq<Candle>, autoTrade: bool)
    requires |first| >= SlowPeriod && |second| >= SlowPeriod
    requires first[|first| - 1].openTime == second[|second| - 1].openTime
    ensures
      var mid := PollStep(st, item, Some(first), autoTrade).0;
      PollStep(mid, item, Some(second), autoTrade) == (mid, None)
  {
    var mid := PollStep(st, item, Some(first), autoTrade).0;
    assert item in mid.klines;
    assert mid.klines[item] == first || mid.klines[item] == st.klines[item];
    if mid.klines[item] != first {
      assert mid == st;
      assert SameCandle(st, item, first);
    }
  }

  /** Steps on one key leave every other key's state alone. */
  lemma PollStepIsLocal(st: PollState, item: WatchItem, reply: Option<seq<Candle>>, autoTrade: bool, other: WatchItem)
    requires other != item
    ensures Lookup(PollStep(st, item, reply, autoTrade).0.klines, other) == Lookup(st.klines, other)
    ensures Lookup(PollStep(st, item, reply, autoTrade).0.averages, other) == Lookup(st.averages, other)
  {
  }

  // ---------------------------------------------------------------------
  // Runs of evaluations

  /** Signals emitted over a run of evaluated average pairs. */
  function Emitted(prev: Option<MaPair>, run: seq<MaPair>): seq<Signal>
    decreases |run|
  {
    if |run| == 0 then []
    else
      var s := Detect(prev, run[0]);
      (if s.Some? then [s.value] else []) + Emitted(Some(run[0]), run[1..])
  }

  ghost predicate Alternates(sigs: seq<Signal>)
  {
    forall i :: 0 <= i < |sigs| - 1 ==> sigs[i] != sigs[i + 1]
  }

  predicate TieFree(run: seq<MaPair>)
  {
    forall i :: 0 <= i < |run| ==> run[i].fast != run[i].slow
  }

  /**
   * After a pair with the fast average strictly above (below) the slow one,
   * the next signal a tie-free run can emit is SELL (BUY).
   */
  lemma {:induction false} NextSignalReverses(p: MaPair, run: seq<MaPair>)
    requires TieFree(run)
    requires p.fast != p.slow
    ensures |Emitted(Some(p), run)| > 0 ==>
      Emitted(Some(p), run)[0] == (if p.fast > p.slow then Sell else Buy)
    decreases |run|
  {
    if |run| > 0 {
      var s := Detect(Some(p), run[0]);
      if s.None? {
        assert (p.fast > p.slow) == (run[0].fast > run[0].slow);
        assert Emitted(Some(p), run) == Emitted(Some(run[0]), run[1..]);
        NextSignalReverses(run[0], run[1..]);
      }
    }
  }

  /**
   * Without ties, BUY and SELL signals strictly alternate: exactly one
   * signal per crossing of the two averages.
   */
  lemma {:induction false} TieFreeSignalsAlternate(prev: Option<MaPair>, run: seq<MaPair>)
    requires TieFree(run)
    ensures Alternates(Emitted(prev, run))
    decreases |run|
  {
    if |run| > 0 {
      var s := Detect(prev, run[0]);
      var rest := Emitted(Some(run[0]), run[1..]);
      TieFreeSignalsAlternate(Some(run[0]), run[1..]);
      NextSignalReverses(run[0], run[1..]);
      var all := (if s.Some? then [s.value] else []) + rest;
      assert Emitted(prev, run) == all;
      if s.Some? {
        forall i, j | 0 <= i < j < |all| && j == i + 1
          ensures all[i] != all[j]
        {
          if i > 0 {
            assert all[i] == rest[i - 1] && all[j] == rest[j - 1];
          }
        }
      }
    }
  }

  /**
   * With a tie the pairing does not prevent a repeat: the fast average goes
   * above, touches the slow one, and goes above again, and BUY fires twice
   * with no SELL between.
   */
  lemma TouchFiresBuyTwice()
    ensures Emitted(None, [MaPair(99.0, 100.0), MaPair(101.0, 100.2), MaPair(100.0, 100.0), MaPair(101.0, 100.0)])
         == [Buy, Buy]
  {
    var run := [MaPair(99.0, 100.0), MaPair(101.0, 100.2), MaPair(100.0, 100.0), MaPair(101.0, 100.0)];
    assert run[1..][1..][1..][1..] == [];
  }

  /** 99/100 then 101/100.2 is one BUY; the mirrored sequence is one SELL. */
  lemma CrossingScenarios()
    ensures Emitted(None, [MaPair(99.0, 100.0), MaPair(101.0, 100.2)]) == [Buy]
    ensures Emitted(None, [MaPair(101.0, 100.2), MaPair(99.0, 100.0)]) == [Sell]
    ensures Emitted(None, [MaPair(99.0, 100.0), MaPair(98.0, 100.0), MaPair(99.5, 100.0)]) == []
  {
    assert [MaPair(99.0, 100.0), MaPair(101.0, 100.2)][1..][1..] == [];
    assert [MaPair(101.0, 100.2), MaPair(99.0, 100.0)][1..][1..] == [];
    assert [MaPair(99.0, 100.0), MaPair(98.0, 100.0), MaPair(99.5, 100.0)][1..][1..][1..] == [];
  }

  // ---------------------------------------------------------------------
  // Successive poll steps on one key

  datatype Trace = Trace(state: PollState, readings: seq<MaPair>, signals: seq<Signal>)

  /** Repeated poll steps for one key, collecting evaluated pairs and signals. */
  function PollRun(st: PollState, item: WatchItem, replies: seq<Option<seq<Candle>>>, autoTrade: bool): Trace
    decreases |replies|
  {
    if |replies| == 0 then Trace(st, [], [])
    else
      var (st', ev) := PollStep(st, item, replies[0], autoTrade);
      var t := PollRun(st', item, replies[1..], autoTrade);
      if ev.None? then t
      else
        var e := ev.value;
        Trace(t.state, [MaPair(e.reading.fast, e.reading.slow)] + t.readings,
              (if e.signal.Some? then [e.signal.value] else []) + t.signals)
  }

  /**
   * The poll loop emits, for one key, exactly the signals the edge detector
   * gives on the sequence of its evaluated averages, starting from the pair
   * remembered for the key (none on its first computation).
   */
  lemma {:induction false} PollRunEmitsEdges(st: PollState, item: WatchItem, replies: seq<Option<seq<Candle>>>, autoTrade: bool)
    ensures
      var t := PollRun(st, item, replies, autoTrade);
      t.signals == Emitted(Lookup(st.averages, item), t.readings)
    decreases |replies|
  {
    if |replies| > 0 {
      var (st', ev) := PollStep(st, item, replies[0], autoTrade);
      PollRunEmitsEdges(st', item, replies[1..], autoTrade);
      var t := PollRun(st', item, replies[1..], autoTrade);
      if ev.Some? {
        var cur := MaPair(ev.value.reading.fast, ev.value.reading.slow);
        var rs := [cur] + t.readings;
        assert rs[0] == cur && rs[1..] == t.readings;
        assert Lookup(st'.averages, item) == Some(cur);
        assert ev.value.signal == Detect(Lookup(st.averages, item), cur);
      }
    }
  }

  /** A key seen for the first time never signals on that first evaluation. */
  lemma FirstEvaluationIsSilent(item: WatchItem, ks: seq<Candle>, autoTrade: bool)
    requires |ks| >= SlowPeriod
    ensures
      var (st, ev) := PollStep(Fresh, item, Some(ks), autoTrade);
      ev.Some? && ev.value.signal.None? && !ev.value.trade && item in st.averages
  {
  }
}
