/**
 * The MA9 / MA26 indicator computed from a candle history
 * (`calculate_ma` in ma_bot.py).
 */
module Indicator {

  /** A candle as the poll loop uses it: field 0 (open time) and field 4 (close). */
  datatype Candle = Candle(openTime: int, close: real)

  const FastPeriod: nat := 9
  const SlowPeriod: nat := 26

  /** Python's `sum`: a left-to-right fold. */
  function Sum(xs: seq<real>): real
  {
    if |xs| == 0 then 0.0 else Sum(xs[..|xs| - 1]) + xs[|xs| - 1]
  }

  function Closes(ks: seq<Candle>): (cs: seq<real>)
    ensures |cs| == |ks|
    ensures forall i :: 0 <= i < |ks| ==> cs[i] == ks[i].close
  {
    seq(|ks|, i requires 0 <= i < |ks| => ks[i].close)
  }

  /** The last `k` closes, `closes[-k:]`. */
  function Window(ks: seq<Candle>, k: nat): (w: seq<real>)
    requires k <= |ks|
    ensures |w| == k
    ensures forall j :: 0 <= j < k ==> w[j] == ks[|ks| - k + j].close
  {
    Closes(ks[|ks| - k..])
  }

  /** Arithmetic mean of the last `k` closes. */
  function Mean(ks: seq<Candle>, k: nat): real
    requires 0 < k <= |ks|
  {
    Sum(Window(ks, k)) / (k as real)
  }

  /** (ma9, ma26, last close); all three are 0 when the history is too short. */
  datatype Reading = Reading(fast: real, slow: real, price: real)

  function CalculateMa(ks: seq<Candle>): (r: Reading)
    ensures |ks| < SlowPeriod ==> r == Reading(0.0, 0.0, 0.0)
    ensures |ks| >= SlowPeriod ==> r.price == ks[|ks| - 1].close
    ensures |ks| >= SlowPeriod ==> r.fast == Mean(ks, FastPeriod) && r.slow == Mean(ks, SlowPeriod)
  {
    if |ks| < SlowPeriod then Reading(0.0, 0.0, 0.0)
    else Reading(Mean(ks, FastPeriod), Mean(ks, SlowPeriod), ks[|ks| - 1].close)
  }

  lemma {:induction false} SumBounded(xs: seq<real>, lo: real, hi: real)
    requires forall i :: 0 <= i < |xs| ==> lo <= xs[i] <= hi
    ensures (|xs| as real) * lo <= Sum(xs) <= (|xs| as real) * hi
  {
    if |xs| > 0 {
      SumBounded(xs[..|xs| - 1], lo, hi);
    }
  }

  lemma {:induction false} SumCons(x: real, xs: seq<real>)
    ensures Sum([x] + xs) == x + Sum(xs)
  {
    if |xs| > 0 {
      var ys := [x] + xs;
      assert ys[..|ys| - 1] == [x] + xs[..|xs| - 1];
      SumCons(x, xs[..|xs| - 1]);
    } else {
      assert [x] + xs == [x];
      assert [x][..0] == [];
    }
  }

  /**
   * Both averages lie between the smallest and the largest close of their
   * window: if every close of the last `k` candles is within [lo, hi], so
   * is the k-period mean.
   */
  lemma MeanWithinWindow(ks: seq<Candle>, k: nat, lo: real, hi: real)
    requires 0 < k <= |ks|
    requires forall i :: |ks| - k <= i < |ks| ==> lo <= ks[i].close <= hi
    ensures lo <= Mean(ks, k) <= hi
  {
    var w := Window(ks, k);
    SumBounded(w, lo, hi);
    DivideBounds(Sum(w), k as real, lo, hi);
  }

  lemma DivideBounds(s: real, k: real, lo: real, hi: real)
    requires k > 0.0 && k * lo <= s <= k * hi
    ensures lo <= s / k <= hi
  {
    var m := s / k;
    assert (m - lo) * k == s - k * lo;
    assert (hi - m) * k == k * hi - s;
  }

  /** A flat market: when the last `k` closes are all `c`, the mean is `c`. */
  lemma MeanOfFlatWindow(ks: seq<Candle>, k: nat, c: real)
    requires 0 < k <= |ks|
    requires forall i :: |ks| - k <= i < |ks| ==> ks[i].close == c
    ensures Mean(ks, k) == c
  {
    MeanWithinWindow(ks, k, c, c);
  }

  /**
   * The moving part of a moving average: when the history advances by one
   * candle (oldest dropped, `next` appended) the k-period mean changes by
   * (new close - close leaving the window) / k.
   */
  lemma MeanSlides(ks: seq<Candle>, next: Candle, k: nat)
    requires 0 < k <= |ks|
    ensures Mean(ks[1..] + [next], k) == Mean(ks, k) + (next.close - ks[|ks| - k].close) / (k as real)
  {
    WindowSlides(ks, next, k);
    DivideSum(Sum(Window(ks, k)), next.close - ks[|ks| - k].close, k as real);
  }

  /** The window sum gains the new close and loses the one leaving the window. */
  lemma WindowSlides(ks: seq<Candle>, next: Candle, k: nat)
    requires 0 < k <= |ks|
    ensures Sum(Window(ks[1..] + [next], k)) == Sum(Window(ks, k)) + (next.close - ks[|ks| - k].close)
  {
    var n := |ks|;
    var ks' := ks[1..] + [next];
    var oldW := Window(ks, k);
    var newW := Window(ks', k);
    var keep := oldW[1..];
    assert oldW == [oldW[0]] + keep;
    assert newW == keep + [next.close] by {
      forall j | 0 <= j < k
        ensures newW[j] == (keep + [next.close])[j]
      {
        if j < k - 1 {
          assert ks'[n - k + j] == ks[n - k + j + 1];
        }
      }
    }
    assert newW[..|newW| - 1] == keep;
    SumCons(oldW[0], keep);
  }

  lemma DivideSum(a: real, b: real, d: real)
    requires d != 0.0
    ensures (a + b) / d == a / d + b / d
  {
  }
}
