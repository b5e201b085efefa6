/**
 * The dashboard's second predictor: a feature table built from a fetched frame
 * (`Close, Volume, MA_20, MA_50, RSI`), lagged closes 1, 2, 3 and 5 rows back, 5- and
 * 10-row means and the relative change, with NaN rows dropped; targets are the closes
 * `days_to_predict` rows later, looked up by position (a fetched frame's labels are its
 * positions); the first 80% of the rows train.
 *
 * The scaler and regressor are one given function from the split to the fitted result,
 * `None` when the library raises.
 */
module Predictor {
  import opened Wrappers
  import opened Frames
  import opened DataFetcher

  /** Column names of the feature table, in cell order. */
  const FeatureNames: seq<string> :=
    ["Close", "Volume", "MA_20", "MA_50", "RSI",
     "Close_Lag_1", "Close_Lag_2", "Close_Lag_3", "Close_Lag_5",
     "MA_5", "MA_10", "Price_Change"]

  /** The lags taken; there is no four-row lag. */
  const Lags: seq<nat> := [1, 2, 3, 5]

  lemma FeatureNamesShape()
    ensures |FeatureNames| == 12
    ensures 4 !in Lags && "Close_Lag_4" !in FeatureNames
    ensures forall i, j :: 0 <= i < j < |FeatureNames| ==> FeatureNames[i] != FeatureNames[j]
  {
  }

  /** A fetched frame: five cells per row, and a positive close in every row. */
  predicate Shaped(df: seq<Row>)
  {
    forall p :: 0 <= p < |df| ==> |df[p].cells| == 5 && df[p].cells[0].Some? && df[p].cells[0].value > 0.0
  }

  /** Each row is labelled with its position, so a label lookup is a position lookup. */
  predicate Positional(df: seq<Row>)
  {
    forall p :: 0 <= p < |df| ==> df[p].index == p
  }

  function CloseSeries(df: seq<Row>): (s: seq<real>)
    requires Shaped(df)
    ensures |s| == |df|
    ensures forall p :: 0 <= p < |df| ==> df[p].cells[0] == Some(s[p]) && s[p] > 0.0
  {
    seq(|df|, p requires 0 <= p < |df| => df[p].cells[0].value)
  }

  /** The feature cells of frame row `p`, before rows with a NaN are dropped. */
  function FeatureCells(df: seq<Row>, p: nat): (cells: seq<Option<real>>)
    requires Shaped(df) && p < |df|
    ensures |cells| == |FeatureNames|
    ensures cells[..5] == df[p].cells
  {
    var close := CloseSeries(df);
    var col := Lift(close);
    df[p].cells
      + [ShiftAt(col, p, Lags[0]), ShiftAt(col, p, Lags[1]), ShiftAt(col, p, Lags[2]), ShiftAt(col, p, Lags[3])]
      + [RollingMean(close, 5)[p], RollingMean(close, 10)[p], PctChangeAt(close, p)]
  }

  function FeatureTable(df: seq<Row>): (table: seq<Row>)
    requires Shaped(df)
    ensures |table| == |df|
    ensures forall p {:trigger table[p]} :: 0 <= p < |df| ==> table[p] == Row(df[p].index, FeatureCells(df, p))
  {
    seq(|df|, p requires 0 <= p < |df| => Row(df[p].index, FeatureCells(df, p)))
  }

  /** `prepare_features`: the feature table with every row holding a NaN dropped. */
  function PrepareFeatures(df: seq<Row>): (features: seq<Row>)
    requires Shaped(df)
    ensures |features| <= |df|
    ensures forall k :: 0 <= k < |features| ==> |features[k].cells| == 12 && Complete(features[k].cells)
    ensures Increasing(df) ==> Increasing(features)
  {
    var table := FeatureTable(df);
    DropNaKeepsRows(table);
    assert Increasing(df) ==> Increasing(table);
    DropNa(table)
  }

  /**
   * A feature row is free of NaN iff the frame row is and it has nine earlier rows (the
   * 10-row mean is the last column to become defined).
   */
  lemma FeatureRowComplete(df: seq<Row>, p: nat)
    requires Shaped(df) && p < |df|
    ensures Complete(FeatureCells(df, p)) <==> p >= 9 && Complete(df[p].cells)
  {
    var close := CloseSeries(df);
    var cells := FeatureCells(df, p);
    assert cells[9] == RollingMean(close, 5)[p] && cells[10] == RollingMean(close, 10)[p];
    assert cells[11] == PctChangeAt(close, p);
    if p >= 9 && Complete(df[p].cells) {
      forall j | 0 <= j < 12 ensures cells[j].Some? {
        if j < 5 {
          assert cells[..5][j] == df[p].cells[j];
        }
      }
    } else if p < 9 {
      assert cells[10].None?;
    } else {
      var j :| 0 <= j < 5 && df[p].cells[j].None?;
      assert cells[..5][j] == cells[j];
    }
  }

  /** The lag, mean and change cells of a kept row, in terms of the closes. */
  lemma FeatureRowValues(df: seq<Row>, p: nat)
    requires Shaped(df) && 9 <= p < |df|
    ensures var cells := FeatureCells(df, p);
      var close := CloseSeries(df);
      && cells[5..9] == [df[p - 1].cells[0], df[p - 2].cells[0], df[p - 3].cells[0], df[p - 5].cells[0]]
      && cells[9].Some? && cells[9].value * 5.0 == Sum(close[p - 4..p + 1])
      && cells[10].Some? && cells[10].value * 10.0 == Sum(close[p - 9..p + 1])
      && cells[11] == Some((close[p] - close[p - 1]) / close[p - 1])
  {
    var close := CloseSeries(df);
    var cells := FeatureCells(df, p);
    assert cells[9] == RollingMean(close, 5)[p] && cells[10] == RollingMean(close, 10)[p];
    assert cells[11] == PctChangeAt(close, p);
  }

  /** Every feature row is the table row at its own label, and labels stay in the frame. */
  lemma FeatureLabels(df: seq<Row>)
    requires Shaped(df) && Positional(df)
    ensures var features := PrepareFeatures(df);
      forall k :: 0 <= k < |features| ==>
        features[k].index < |df| && features[k] == FeatureTable(df)[features[k].index]
  {
    var table := FeatureTable(df);
    DropNaKeepsRows(table);
    var features := PrepareFeatures(df);
    forall k | 0 <= k < |features|
      ensures features[k].index < |df| && features[k] == table[features[k].index]
    {
      var p :| 0 <= p < |table| && table[p] == features[k];
    }
  }

  /** No feature row comes from one of the first nine frame rows. */
  lemma KeptRowsPassWarmUp(df: seq<Row>)
    requires Shaped(df) && Positional(df)
    ensures forall k :: 0 <= k < |PrepareFeatures(df)| ==> PrepareFeatures(df)[k].index >= 9
  {
    var features := PrepareFeatures(df);
    var table := FeatureTable(df);
    FeatureLabels(df);
    forall k | 0 <= k < |features| ensures features[k].index >= 9 {
      var p := features[k].index;
      assert features[k] == table[p];
      FeatureRowComplete(df, p);
    }
  }

  /** The first nine frame rows are dropped, so at most `|df| - 9` feature rows remain. */
  lemma FeaturesSkipWarmUp(df: seq<Row>)
    requires Shaped(df) && |df| >= 9
    ensures |PrepareFeatures(df)| <= |df| - 9
  {
    var table := FeatureTable(df);
    forall p | 0 <= p < 9 ensures !Complete(table[p].cells) {
      FeatureRowComplete(df, p);
    }
    DropNaSkipsPrefix(table, 9);
  }

  /** A fetched frame (with positive closes) is shaped and positionally labelled. */
  lemma FetchedFrame(bars: seq<Bar>)
    requires PositiveCloses(bars)
    ensures Shaped(FetchData(Some(bars)).value) && Positional(FetchData(Some(bars)).value)
  {
  }

  /**
   * On a fetched frame the unfiltered feature row of bar `p` is free of NaN iff `MA_50`
   * is defined there (row 49 on) and so is the RSI.
   */
  lemma FetchedRowComplete(bars: seq<Bar>, p: nat)
    requires PositiveCloses(bars) && p < |bars|
    ensures var df := FetchData(Some(bars)).value;
      Shaped(df) &&
      (Complete(FeatureCells(df, p)) <==> p >= 49 && CalculateRsi(Closes(bars), RsiPeriod)[p].Some?)
  {
    var df := FetchData(Some(bars)).value;
    FetchedFrame(bars);
    FeatureRowComplete(df, p);
    var cells := df[p].cells;
    var rsi := CalculateRsi(Closes(bars), RsiPeriod)[p];
    assert |cells| == 5 && cells[0].Some? && cells[1].Some? && (cells[2].Some? <==> p >= 19)
      && (cells[3].Some? <==> p >= 49) && cells[4] == rsi;
    FiveCells(cells);
  }

  /** `dropna` keeps bar `p`'s feature row iff `MA_50` and the RSI are both defined there. */
  lemma FetchedRowKept(bars: seq<Bar>, p: nat)
    requires PositiveCloses(bars) && p < |bars|
    ensures var df := FetchData(Some(bars)).value;
      Shaped(df) &&
      ((exists k :: 0 <= k < |PrepareFeatures(df)| && PrepareFeatures(df)[k].index == p)
         <==> p >= 49 && CalculateRsi(Closes(bars), RsiPeriod)[p].Some?)
  {
    var df := FetchData(Some(bars)).value;
    FetchedFrame(bars);
    FetchedRowComplete(bars, p);
    var table := FeatureTable(df);
    var features := PrepareFeatures(df);
    DropNaKeepsComplete(table);
    FeatureLabels(df);
    if p >= 49 && CalculateRsi(Closes(bars), RsiPeriod)[p].Some? {
      assert table[p] in table;
      var k :| 0 <= k < |features| && features[k] == table[p];
      assert features[k].index == p;
    }
  }

  lemma FiveCells(cells: seq<Option<real>>)
    requires |cells| == 5
    ensures Complete(cells) <==> cells[0].Some? && cells[1].Some? && cells[2].Some? && cells[3].Some? && cells[4].Some?
  {
  }

  /** The target of the frame row at position `row`: the close `days` rows later, NaN past the end. */
  function TargetAt(df: seq<Row>, row: nat, days: nat): (t: Option<real>)
    requires Shaped(df)
    ensures t.Some? <==> row + days < |df|
    ensures t.Some? ==> df[row + days].cells[0] == t
  {
    ShiftAt(Lift(CloseSeries(df)), row, -(days as int))
  }

  /** `int(n * 0.8)`: the number of training rows. */
  function SplitIndex(n: nat): (s: nat)
    ensures s <= n
  {
    (4 * n) / 5
  }

  /** The training share is 80% of the rows, rounded down. */
  lemma SplitIndexIsFourFifths(n: nat)
    ensures 5 * SplitIndex(n) <= 4 * n < 5 * SplitIndex(n) + 5
  {
  }

  /** Training and test rows with their targets. */
  datatype Split = Split(xTrain: seq<Row>, xTest: seq<Row>, yTrain: Column, yTest: Column)

  /** What the library returns: predictions on the test rows and the score. */
  datatype Fitted = Fitted(predictions: seq<real>, score: real)

  datatype Forecast = Forecast(predictions: seq<real>, actual: Column, dates: seq<nat>, score: real)

  /**
   * The split of `train_predict` over the prepared feature rows: the first 80% train, the rest test;
   * each row's target is looked up at the position its label names, and undefined targets are kept.
   */
  function MakeSplit(df: seq<Row>, features: seq<Row>, days: nat): (s: Split)
    requires Shaped(df)
    ensures s.xTrain + s.xTest == features
    ensures |s.xTrain| == SplitIndex(|features|)
    ensures |s.yTrain| == |s.xTrain| && |s.yTest| == |s.xTest|
    ensures forall j :: 0 <= j < |s.yTrain| ==> s.yTrain[j] == TargetAt(df, s.xTrain[j].index, days)
    ensures forall j :: 0 <= j < |s.yTest| ==> s.yTest[j] == TargetAt(df, s.xTest[j].index, days)
  {
    var target := Targets(df, features, days);
    var split := SplitIndex(|features|);
    Split(features[..split], features[split..], target[..split], target[split..])
  }

  /** `target[features.index]`: the target of each feature row, at the position its label names. */
  function Targets(df: seq<Row>, features: seq<Row>, days: nat): (target: Column)
    requires Shaped(df)
    ensures |target| == |features|
    ensures forall k :: 0 <= k < |features| ==> target[k] == TargetAt(df, features[k].index, days)
  {
    seq(|features|, k requires 0 <= k < |features| => TargetAt(df, features[k].index, days))
  }

  /** `df.index`: the label of every frame row, in order. */
  function Labels(df: seq<Row>): (labels: seq<nat>)
    ensures |labels| == |df|
    ensures forall p :: 0 <= p < |df| ==> labels[p] == df[p].index
  {
    seq<nat>(|df|, p requires 0 <= p < |df| => df[p].index)
  }

  /** `labels[start:]`: the labels from position `start` on, none when `start` is past the end. */
  function DatesFrom(labels: seq<nat>, start: nat): (dates: seq<nat>)
    ensures start <= |labels| ==> dates == labels[start..]
    ensures start > |labels| ==> dates == []
  {
    if start <= |labels| then labels[start..] else []
  }

  /**
   * `train_predict`: `None` when the library raises; otherwise its predictions and score,
   * the test targets as the actual values, and the dates from position `split + days`.
   */
  function TrainPredict(df: seq<Row>, days: nat, fit: Split -> Option<Fitted>): (r: Option<Forecast>)
    requires Shaped(df)
    ensures var s := MakeSplit(df, PrepareFeatures(df), days);
      && (r.None? <==> fit(s).None?)
      && (r.Some? ==>
            && r.value.predictions == fit(s).value.predictions
            && r.value.score == fit(s).value.score
            && r.value.actual == s.yTest
            && r.value.dates == DatesFrom(Labels(df), |s.xTrain| + days)
            && |r.value.actual| == |PrepareFeatures(df)| - SplitIndex(|PrepareFeatures(df)|)
            && |r.value.dates| == (if |s.xTrain| + days <= |df| then |df| - |s.xTrain| - days else 0))
  {
    var s := MakeSplit(df, PrepareFeatures(df), days);
    match fit(s)
    case None => None
    case Some(fitted) =>
      Some(Forecast(fitted.predictions, s.yTest, DatesFrom(Labels(df), |s.xTrain| + days), fitted.score))
  }

  /** The horizon `train_predict` uses when the caller names none. */
  const DefaultDaysToPredict: nat := 7

  /** `train_predict(df)` without a horizon: targets and dates are seven rows ahead. */
  function TrainPredictDefault(df: seq<Row>, fit: Split -> Option<Fitted>): (r: Option<Forecast>)
    requires Shaped(df)
    ensures var s := MakeSplit(df, PrepareFeatures(df), 7);
      && (r.None? <==> fit(s).None?)
      && (r.Some? ==> r.value.actual == s.yTest && r.value.dates == DatesFrom(Labels(df), |s.xTrain| + 7))
  {
    TrainPredict(df, DefaultDaysToPredict, fit)
  }

  /** Each defined target is the close `days` rows after its feature row. */
  lemma TargetIsLaterClose(df: seq<Row>, days: nat)
    requires Shaped(df) && Positional(df)
    ensures var s := MakeSplit(df, PrepareFeatures(df), days);
      && (forall j :: 0 <= j < |s.yTrain| && s.yTrain[j].Some? ==>
            s.xTrain[j].index + days < |df| && s.yTrain[j] == df[s.xTrain[j].index + days].cells[0])
      && (forall j :: 0 <= j < |s.yTest| && s.yTest[j].Some? ==>
            s.xTest[j].index + days < |df| && s.yTest[j] == df[s.xTest[j].index + days].cells[0])
  {
  }

  /**
   * Every training target is defined as long as there are at least `days` test rows: the
   * label of a training row is at least `days` below the last feature row's label.
   */
  lemma TrainTargetsDefined(df: seq<Row>, days: nat)
    requires Shaped(df) && Positional(df)
    requires days <= |MakeSplit(df, PrepareFeatures(df), days).xTest|
    ensures forall j :: 0 <= j < |MakeSplit(df, PrepareFeatures(df), days).yTrain| ==> MakeSplit(df, PrepareFeatures(df), days).yTrain[j].Some?
  {
    var s := MakeSplit(df, PrepareFeatures(df), days);
    var features := PrepareFeatures(df);
    assert Increasing(df);
    FeatureLabels(df);
    forall j | 0 <= j < |s.yTrain| ensures s.yTrain[j].Some? {
      var last := |features| - 1;
      assert features[j] == s.xTrain[j];
      IndexGap(features, j, last);
      assert features[last].index < |df|;
    }
  }

  /**
   * When the last fetched row survives `prepare_features` and `days` is positive, the
   * last test target is NaN: it would lie past the end of the frame.
   */
  lemma LastTestTargetUndefined(df: seq<Row>, days: nat)
    requires Shaped(df) && Positional(df) && days >= 1
    requires |PrepareFeatures(df)| > 0 && PrepareFeatures(df)[|PrepareFeatures(df)| - 1].index == |df| - 1
    ensures var s := MakeSplit(df, PrepareFeatures(df), days);
      |s.yTest| > 0 && s.yTest[|s.yTest| - 1].None?
  {
    var s := MakeSplit(df, PrepareFeatures(df), days);
    var features := PrepareFeatures(df);
    assert s.xTest[|s.xTest| - 1] == features[|features| - 1];
  }

  /**
   * The dates outnumber the test rows by at least `9 - days`: they start `days` rows after
   * position `split_idx` of the frame, while the test rows start at feature row
   * `split_idx`, which is frame row `split_idx + 9` or later.
   */
  lemma DatesOutnumberTestRows(df: seq<Row>, days: nat)
    requires Shaped(df) && |df| >= 9
    ensures var s := MakeSplit(df, PrepareFeatures(df), days);
      |DatesFrom(Labels(df), |s.xTrain| + days)| + days >= |s.xTest| + 9
  {
    FeaturesSkipWarmUp(df);
  }

  /** The date of each test row's predicted close: `days` rows after the row, one per prediction. */
  function TestDates(s: Split, days: nat): (dates: seq<nat>)
    ensures |dates| == |s.xTest|
    ensures forall k :: 0 <= k < |dates| ==> dates[k] == s.xTest[k].index + days
  {
    seq<nat>(|s.xTest|, k requires 0 <= k < |s.xTest| => s.xTest[k].index + days)
  }

  /**
   * `train_predict` with one date per test row: date k is the position of the close that
   * prediction k forecasts, `days` rows after test row k, so dates line up with the actual
   * values; a date past the end of the frame is exactly one whose actual value is NaN.
   */
  function TrainPredictAligned(df: seq<Row>, days: nat, fit: Split -> Option<Fitted>): (r: Option<Forecast>)
    requires Shaped(df)
    ensures var s := MakeSplit(df, PrepareFeatures(df), days);
      && (r.None? <==> fit(s).None?)
      && (r.Some? ==>
            && |r.value.dates| == |r.value.actual|
            && r.value.actual == s.yTest
            && (forall k :: 0 <= k < |r.value.dates| ==>
                  && r.value.dates[k] == s.xTest[k].index + days
                  && (r.value.actual[k].Some? <==> r.value.dates[k] < |df|)
                  && (r.value.actual[k].Some? ==> r.value.actual[k] == df[r.value.dates[k]].cells[0]))
            && r.value.predictions == fit(s).value.predictions
            && r.value.score == fit(s).value.score)
  {
    var s := MakeSplit(df, PrepareFeatures(df), days);
    match fit(s)
    case None => None
    case Some(fitted) => Some(Forecast(fitted.predictions, s.yTest, TestDates(s, days), fitted.score))
  }
}
