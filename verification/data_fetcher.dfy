/**
 * The data fetcher: the fixed symbol list, and the indicator columns it adds to a fetched
 * history (20- and 50-row trailing means of the close and a 14-row RSI).
 */
module DataFetcher {
  import opened Wrappers
  import opened Frames

  /** The symbols offered to the user, loaded once when the fetcher is built. */
  const Sp500Symbols: seq<string> :=
    ["AAPL", "MSFT", "GOOGL", "AMZN", "TSLA", "META", "NVDA",
     "JPM", "V", "JNJ", "WMT", "PG", "UNH", "HD", "BAC"]

  /** Returns the symbol list as loaded: fifteen distinct tickers, AAPL first, BAC last. */
  function AvailableSymbols(): (r: seq<string>)
    ensures |r| == 15
    ensures r[0] == "AAPL" && r[14] == "BAC"
    ensures forall i, j :: 0 <= i < j < |r| ==> r[i] != r[j]
  {
    Sp500Symbols
  }

  /** Default RSI window. */
  const RsiPeriod: nat := 14

  /**
   * Positive part of the close-to-close differences. The undefined first difference is
   * masked to 0, as `where(delta > 0, 0)` does with NaN.
   */
  function Gains(prices: seq<real>): (g: seq<real>)
    ensures |g| == |prices|
    ensures forall i :: 0 <= i < |g| ==> g[i] >= 0.0
    ensures |g| > 0 ==> g[0] == 0.0
  {
    seq(|prices|, i requires 0 <= i < |prices| =>
      if i > 0 && prices[i] - prices[i - 1] > 0.0 then prices[i] - prices[i - 1] else 0.0)
  }

  /** Negated negative part of the differences, first difference masked to 0 likewise. */
  function Losses(prices: seq<real>): (l: seq<real>)
    ensures |l| == |prices|
    ensures forall i :: 0 <= i < |l| ==> l[i] >= 0.0
    ensures |l| > 0 ==> l[0] == 0.0
  {
    seq(|prices|, i requires 0 <= i < |prices| =>
      if i > 0 && prices[i] - prices[i - 1] < 0.0 then prices[i - 1] - prices[i] else 0.0)
  }

  /** Gain and loss split each price move: their difference is the move, and one of them is 0. */
  lemma GainsAndLossesSplitMoves(prices: seq<real>)
    ensures forall i :: 0 < i < |prices| ==> Gains(prices)[i] - Losses(prices)[i] == prices[i] - prices[i - 1]
    ensures forall i :: 0 <= i < |prices| ==> Gains(prices)[i] == 0.0 || Losses(prices)[i] == 0.0
  {
  }

  /**
   * `100 - 100 / (1 + gain / loss)` with the division by a zero average loss written out:
   * a positive gain over no loss is infinite strength (100), no movement at all is NaN.
   */
  function RsiOf(gain: real, loss: real): (r: Option<real>)
    requires gain >= 0.0 && loss >= 0.0
    ensures r.None? <==> gain == 0.0 && loss == 0.0
    ensures r.Some? ==> 0.0 <= r.value <= 100.0
    ensures r.Some? ==> r.value * (gain + loss) == 100.0 * gain
    ensures loss > 0.0 ==> r.Some? && r.value < 100.0
    ensures loss > 0.0 && gain == 0.0 ==> r == Some(0.0)
    ensures loss == 0.0 && gain > 0.0 ==> r == Some(100.0)
  {
    if loss > 0.0 then
      var v := 100.0 - 100.0 / (1.0 + gain / loss);
      RsiClosedForm(gain, loss);
      Some(v)
    else if gain > 0.0 then Some(100.0)
    else None
  }

  /** With a positive average loss the RSI is `100 * gain / (gain + loss)`, below 100. */
  lemma RsiClosedForm(gain: real, loss: real)
    requires gain >= 0.0 && loss > 0.0
    ensures 100.0 - 100.0 / (1.0 + gain / loss) == 100.0 * gain / (gain + loss)
    ensures 0.0 <= 100.0 * gain / (gain + loss) < 100.0
  {
    var rs := gain / loss;
    var total := gain + loss;
    assert rs * loss == gain;
    var d := 1.0 + rs;
    assert d * loss == total;
    assert d > 0.0;
    var t := 100.0 / d;
    assert t * d == 100.0;
    assert t > 0.0;
    assert t * total == 100.0 * loss by {
      calc {
        t * total;
        t * (d * loss);
        (t * d) * loss;
        100.0 * loss;
      }
    }
    var v := 100.0 - t;
    assert v * total == 100.0 * gain;
    ScaledQuotient(v, 100.0 * gain, total);
    assert v < 100.0;
  }

  /** `v * y == x` with positive `y` pins `v` to `x / y`. */
  lemma ScaledQuotient(v: real, x: real, y: real)
    requires y > 0.0 && v * y == x
    ensures v == x / y
  {
  }

  /**
   * `_calculate_rsi(prices, period)`: the RSI of the trailing `period`-row means of the
   * masked gains and losses. Rows before the window is full are undefined.
   */
  function CalculateRsi(prices: seq<real>, period: nat): (r: Column)
    requires period > 0
    ensures |r| == |prices|
    ensures forall i :: 0 <= i < |prices| && i + 1 < period ==> r[i].None?
    ensures forall i :: 0 <= i < |prices| && r[i].Some? ==> 0.0 <= r[i].value <= 100.0
  {
    var gains := RollingMean(Gains(prices), period);
    var losses := RollingMean(Losses(prices), period);
    RollingMeanNonNegative(Gains(prices), period);
    RollingMeanNonNegative(Losses(prices), period);
    seq(|prices|, i requires 0 <= i < |prices| =>
      if gains[i].Some? && losses[i].Some? then RsiOf(gains[i].value, losses[i].value) else None)
  }

  /**
   * RSI of a full window, stated on the window sums `G` and `L` of gains and losses:
   * defined exactly when the window saw some movement, then `100 G / (G + L)`, in `[0, 100]`,
   * below 100 iff the window saw a loss, and 0 iff it saw no gain.
   */
  lemma RsiWindow(prices: seq<real>, period: nat, i: nat)
    requires period > 0 && i < |prices|
    ensures i + 1 < period ==> CalculateRsi(prices, period)[i].None?
    ensures i + 1 >= period ==>
      var gs := Sum(Gains(prices)[i + 1 - period..i + 1]);
      var ls := Sum(Losses(prices)[i + 1 - period..i + 1]);
      var r := CalculateRsi(prices, period)[i];
      && (r.Some? <==> gs + ls > 0.0)
      && (r.Some? ==> r.value == 100.0 * gs / (gs + ls) && 0.0 <= r.value <= 100.0)
      && (r.Some? ==> (r.value < 100.0 <==> ls > 0.0))
      && (r.Some? ==> (r.value == 0.0 <==> gs == 0.0))
  {
    if i + 1 >= period {
      RsiOfWindow(prices, period, i);
      RsiOfMeans(Sum(Gains(prices)[i + 1 - period..i + 1]), Sum(Losses(prices)[i + 1 - period..i + 1]),
                 period as real);
    }
  }

  /** A full window's RSI is `RsiOf` of the window means of gains and losses. */
  lemma RsiOfWindow(prices: seq<real>, period: nat, i: nat)
    requires period > 0 && period <= i + 1 <= |prices|
    ensures var gs := Sum(Gains(prices)[i + 1 - period..i + 1]);
      var ls := Sum(Losses(prices)[i + 1 - period..i + 1]);
      && gs >= 0.0 && ls >= 0.0
      && gs / period as real >= 0.0 && ls / period as real >= 0.0
      && CalculateRsi(prices, period)[i] == RsiOf(gs / period as real, ls / period as real)
  {
    var gw := Gains(prices)[i + 1 - period..i + 1];
    var lw := Losses(prices)[i + 1 - period..i + 1];
    SumNonNegative(gw);
    SumNonNegative(lw);
    assert RollingMean(Gains(prices), period)[i] == Some(Sum(gw) / period as real);
    assert RollingMean(Losses(prices), period)[i] == Some(Sum(lw) / period as real);
  }

  /** The RSI of two means over `p` rows, restated on the sums they were taken from. */
  lemma RsiOfMeans(gs: real, ls: real, p: real)
    requires gs >= 0.0 && ls >= 0.0 && p > 0.0
    ensures gs / p >= 0.0 && ls / p >= 0.0
    ensures var r := RsiOf(gs / p, ls / p);
      && (r.Some? <==> gs + ls > 0.0)
      && (r.Some? ==> r.value == 100.0 * gs / (gs + ls) && 0.0 <= r.value <= 100.0)
      && (r.Some? ==> (r.value < 100.0 <==> ls > 0.0))
      && (r.Some? ==> (r.value == 0.0 <==> gs == 0.0))
  {
    var g := gs / p;
    var l := ls / p;
    MeanTimesCount(gs, p);
    MeanTimesCount(ls, p);
    var r := RsiOf(g, l);
    assert (g + l) * p == gs + ls;
    assert gs + ls > 0.0 <==> g + l > 0.0;
    assert ls > 0.0 <==> l > 0.0;
    assert gs == 0.0 <==> g == 0.0;
    if gs + ls > 0.0 {
      assert r.value * (gs + ls) == 100.0 * gs by {
        calc {
          r.value * (gs + ls);
          r.value * ((g + l) * p);
          (r.value * (g + l)) * p;
          (100.0 * g) * p;
          100.0 * (g * p);
          100.0 * gs;
        }
      }
      ScaledQuotient(r.value, 100.0 * gs, gs + ls);
    }
  }

  /**
   * The first defined RSI (row `period - 1`) averages the masked first difference, so
   * it is built from only `period - 1` real price moves.
   */
  lemma FirstRsiUsesMaskedDifference(prices: seq<real>, period: nat)
    requires period > 0 && period <= |prices|
    ensures RollingMean(Gains(prices), period)[period - 1].Some?
    ensures RollingMean(Gains(prices), period)[period - 1].value * period as real == Sum(Gains(prices)[1..period])
    ensures RollingMean(Losses(prices), period)[period - 1].Some?
    ensures RollingMean(Losses(prices), period)[period - 1].value * period as real == Sum(Losses(prices)[1..period])
  {
    var gains := Gains(prices);
    var losses := Losses(prices);
    SumFront(gains[0..period]);
    assert gains[0..period][1..] == gains[1..period];
    SumFront(losses[0..period]);
    assert losses[0..period][1..] == losses[1..period];
  }

  /**
   * `fetch_data`: the fetched history with `MA_20`, `MA_50` and `RSI` added. A fetch that
   * raised gives `None`. Cells are `[Close, Volume, MA_20, MA_50, RSI]`; the index label
   * of each row is its position.
   */
  function FetchData(history: Option<seq<Bar>>): (r: Option<seq<Row>>)
    ensures r.None? <==> history.None?
    ensures r.Some? ==> |r.value| == |history.value|
    ensures r.Some? ==> forall i :: 0 <= i < |r.value| ==>
      var cells := r.value[i].cells;
      && r.value[i].index == i
      && |cells| == 5
      && cells[0] == Some(history.value[i].close)
      && cells[1] == Some(history.value[i].volume)
      && (cells[2].Some? <==> i >= 19)
      && (cells[3].Some? <==> i >= 49)
      && (cells[2].Some? ==> cells[2].value * 20.0 == Sum(Closes(history.value)[i - 19..i + 1]))
      && (cells[3].Some? ==> cells[3].value * 50.0 == Sum(Closes(history.value)[i - 49..i + 1]))
      && cells[4] == CalculateRsi(Closes(history.value), RsiPeriod)[i]
  {
    match history
    case None => None
    case Some(bars) =>
      var closes := Closes(bars);
      var ma20 := RollingMean(closes, 20);
      var ma50 := RollingMean(closes, 50);
      var rsi := CalculateRsi(closes, RsiPeriod);
      Some(seq(|bars|, i requires 0 <= i < |bars| =>
        Row(i, [Some(bars[i].close), Some(bars[i].volume), ma20[i], ma50[i], rsi[i]])))
  }
}
