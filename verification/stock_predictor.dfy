/**
 * The dashboard's price predictor: technical indicators on a fetched history, a feature
 * table of lagged closes with a close `days_ahead` rows later as target, and the guards
 * that decide whether a prediction is returned.
 *
 * The technical-analysis library columns (RSI, MACD, Bollinger bands) are given inputs,
 * and so are the fitted regressor (a function from the latest feature row to a price)
 * and its mean absolute error on the held-out rows.
 */
module StockPredictor {
  import opened Wrappers
  import opened Frames

  /** Library indicator columns, one entry per fetched bar. */
  datatype LibraryIndicators = LibraryIndicators(
    rsi: Column, macd: Column, macdSignal: Column, bbUpper: Column, bbLower: Column)

  predicate Aligned(bars: seq<Bar>, lib: LibraryIndicators)
  {
    && |lib.rsi| == |bars| && |lib.macd| == |bars| && |lib.macdSignal| == |bars|
    && |lib.bbUpper| == |bars| && |lib.bbLower| == |bars|
  }

  predicate LibraryDefinedAt(lib: LibraryIndicators, i: nat)
    requires i < |lib.rsi| && i < |lib.macd| && i < |lib.macdSignal| && i < |lib.bbUpper| && i < |lib.bbLower|
  {
    lib.rsi[i].Some? && lib.macd[i].Some? && lib.macdSignal[i].Some? && lib.bbUpper[i].Some? && lib.bbLower[i].Some?
  }

  /** Column names of the indicator frame, in cell order. */
  const IndicatorNames: seq<string> :=
    ["Close", "Volume", "SMA_20", "SMA_50", "RSI", "MACD", "MACD_signal", "BB_upper", "BB_lower",
     "Volume_SMA", "Daily_Return", "Price_Change"]

  /** The indicator cells of bar `i`, before rows with a NaN are dropped. */
  function IndicatorCells(bars: seq<Bar>, lib: LibraryIndicators, i: nat): (cells: seq<Option<real>>)
    requires Aligned(bars, lib) && PositiveCloses(bars) && i < |bars|
    ensures |cells| == |IndicatorNames|
    ensures cells[0] == Some(bars[i].close)
  {
    var closes := Closes(bars);
    [ Some(bars[i].close), Some(bars[i].volume),
      RollingMean(closes, 20)[i], RollingMean(closes, 50)[i],
      lib.rsi[i], lib.macd[i], lib.macdSignal[i], lib.bbUpper[i], lib.bbLower[i],
      RollingMean(Volumes(bars), 20)[i], PctChangeAt(closes, i), DiffAt(closes, i) ]
  }

  /**
   * A bar's indicator row is free of NaN exactly when the 50-row mean is defined (row 49
   * on) and the library columns are defined there; the 20-row means and the differences
   * are defined earlier.
   */
  lemma IndicatorCellsComplete(bars: seq<Bar>, lib: LibraryIndicators, i: nat)
    requires Aligned(bars, lib) && PositiveCloses(bars) && i < |bars|
    ensures Complete(IndicatorCells(bars, lib, i)) <==> i >= 49 && LibraryDefinedAt(lib, i)
  {
    var cells := IndicatorCells(bars, lib, i);
    var closes := Closes(bars);
    assert cells[2] == RollingMean(closes, 20)[i] && cells[3] == RollingMean(closes, 50)[i];
    assert cells[9] == RollingMean(Volumes(bars), 20)[i];
    assert cells[10] == PctChangeAt(closes, i) && cells[11] == DiffAt(closes, i);
    assert cells[4] == lib.rsi[i] && cells[5] == lib.macd[i] && cells[6] == lib.macdSignal[i];
    assert cells[7] == lib.bbUpper[i] && cells[8] == lib.bbLower[i];
    if i >= 49 && LibraryDefinedAt(lib, i) {
      forall j | 0 <= j < 12 ensures cells[j].Some? {
      }
    } else if i < 49 {
      assert cells[3].None?;
    } else {
      assert !(cells[4].Some? && cells[5].Some? && cells[6].Some? && cells[7].Some? && cells[8].Some?);
    }
  }

  /** One row per fetched bar, labelled with its position, before `dropna`. */
  function IndicatorTable(bars: seq<Bar>, lib: LibraryIndicators): (table: seq<Row>)
    requires Aligned(bars, lib) && PositiveCloses(bars)
    ensures |table| == |bars|
    ensures forall i {:trigger table[i]} :: 0 <= i < |bars| ==> table[i] == Row(i, IndicatorCells(bars, lib, i))
  {
    seq(|bars|, i requires 0 <= i < |bars| => Row(i, IndicatorCells(bars, lib, i)))
  }

  /**
   * `add_technical_indicators`: an empty history is returned as it is; otherwise the rows
   * with every indicator defined, in order.
   */
  function AddTechnicalIndicators(bars: seq<Bar>, lib: LibraryIndicators): (frame: seq<Row>)
    requires Aligned(bars, lib) && PositiveCloses(bars)
    ensures |bars| == 0 ==> frame == []
    ensures Increasing(frame)
    ensures forall k :: 0 <= k < |frame| ==>
      && frame[k].index < |bars|
      && |frame[k].cells| == |IndicatorNames|
      && frame[k].cells[0] == Some(bars[frame[k].index].close)
      && Complete(frame[k].cells)
  {
    if |bars| == 0 then []
    else
      var table := IndicatorTable(bars, lib);
      DropNaKeepsRows(table);
      DropNa(table)
  }

  /** Each kept row holds the indicator cells of the bar it is labelled with. */
  lemma IndicatorRowContents(bars: seq<Bar>, lib: LibraryIndicators)
    requires Aligned(bars, lib) && PositiveCloses(bars)
    ensures var frame := AddTechnicalIndicators(bars, lib);
      forall k :: 0 <= k < |frame| ==> frame[k].cells == IndicatorCells(bars, lib, frame[k].index)
  {
    if |bars| > 0 {
      DropNaKeepsRows(IndicatorTable(bars, lib));
    }
  }

  /** A bar survives `add_technical_indicators` iff it is row 49 or later and the library columns are defined there. */
  lemma IndicatorRowsKept(bars: seq<Bar>, lib: LibraryIndicators, i: nat)
    requires Aligned(bars, lib) && PositiveCloses(bars) && i < |bars|
    ensures var frame := AddTechnicalIndicators(bars, lib);
      (exists k :: 0 <= k < |frame| && frame[k].index == i) <==> i >= 49 && LibraryDefinedAt(lib, i)
  {
    var frame := AddTechnicalIndicators(bars, lib);
    var table := IndicatorTable(bars, lib);
    IndicatorCellsComplete(bars, lib, i);
    DropNaKeepsRows(table);
    DropNaKeepsComplete(table);
    if i >= 49 && LibraryDefinedAt(lib, i) {
      assert table[i] in table;
      var k :| 0 <= k < |frame| && frame[k] == table[i];
    }
  }

  /** The nine indicator columns the feature table starts from. */
  const BaseFeatureNames: seq<string> :=
    ["Close", "Volume", "SMA_20", "SMA_50", "RSI", "MACD", "MACD_signal", "BB_upper", "BB_lower"]

  /** Names of the model's input columns: the base columns and five lagged closes, no `Target`. */
  const FeatureNames: seq<string> :=
    BaseFeatureNames + ["Close_lag_1", "Close_lag_2", "Close_lag_3", "Close_lag_4", "Close_lag_5"]

  lemma FeatureNamesShape()
    ensures |FeatureNames| == 14
    ensures FeatureNames[..9] == IndicatorNames[..9]
    ensures "Target" !in FeatureNames
    ensures forall i, j :: 0 <= i < j < |FeatureNames| ==> FeatureNames[i] != FeatureNames[j]
  {
  }

  /** The frame has the nine selected columns. */
  predicate Selectable(frame: seq<Row>)
  {
    forall p :: 0 <= p < |frame| ==> |frame[p].cells| >= 9
  }

  function CloseColumn(frame: seq<Row>): (c: Column)
    requires Selectable(frame)
    ensures |c| == |frame|
    ensures forall p {:trigger c[p]} :: 0 <= p < |frame| ==> c[p] == frame[p].cells[0]
  {
    seq(|frame|, p requires 0 <= p < |frame| => frame[p].cells[0])
  }

  /** Cells of feature row `p`: base columns, `Close_lag_1..5`, then the `Target` close. */
  function FeatureCells(frame: seq<Row>, p: nat, forecastDays: nat): (cells: seq<Option<real>>)
    requires Selectable(frame) && p < |frame|
    ensures |cells| == 15
  {
    var close := CloseColumn(frame);
    frame[p].cells[..9]
      + seq(5, j requires 0 <= j < 5 => ShiftAt(close, p, j + 1))
      + [ShiftAt(close, p, -(forecastDays as int))]
  }

  function FeatureTable(frame: seq<Row>, forecastDays: nat): (table: seq<Row>)
    requires Selectable(frame)
    ensures |table| == |frame|
    ensures forall p {:trigger table[p]} :: 0 <= p < |frame| ==> table[p] == Row(frame[p].index, FeatureCells(frame, p, forecastDays))
  {
    seq(|frame|, p requires 0 <= p < |frame| => Row(frame[p].index, FeatureCells(frame, p, forecastDays)))
  }

  /** `prepare_features`: the feature table with every row holding a NaN dropped. */
  function PrepareFeatures(frame: seq<Row>, forecastDays: nat): (features: seq<Row>)
    requires Selectable(frame)
    ensures |features| <= |frame|
    ensures forall k :: 0 <= k < |features| ==> |features[k].cells| == 15 && Complete(features[k].cells)
    ensures Increasing(frame) ==> Increasing(features)
  {
    var table := FeatureTable(frame, forecastDays);
    DropNaKeepsRows(table);
    assert Increasing(frame) ==> Increasing(table);
    DropNa(table)
  }

  /** Every cell of the nine selected columns is defined. */
  predicate BaseDefined(frame: seq<Row>)
    requires Selectable(frame)
  {
    forall p :: 0 <= p < |frame| ==> Complete(frame[p].cells[..9])
  }

  /** A feature row is free of NaN iff it has five earlier rows and a row `forecastDays` later. */
  lemma FeatureRowComplete(frame: seq<Row>, forecastDays: nat, p: nat)
    requires Selectable(frame) && BaseDefined(frame) && p < |frame|
    ensures Complete(FeatureCells(frame, p, forecastDays)) <==> 5 <= p && p + forecastDays < |frame|
  {
    var close := CloseColumn(frame);
    var cells := FeatureCells(frame, p, forecastDays);
    assert cells[..9] == frame[p].cells[..9];
    assert cells[9..14] == seq(5, j requires 0 <= j < 5 => ShiftAt(close, p, j + 1));
    assert cells[14] == ShiftAt(close, p, -(forecastDays as int));
    if 5 <= p && p + forecastDays < |frame| {
      forall j | 0 <= j < 15 ensures cells[j].Some? {
        if j < 9 {
          assert cells[..9][j] == frame[p].cells[..9][j];
        } else if j < 14 {
          assert cells[9..14][j - 9] == cells[j];
          assert frame[p - (j - 8)].cells[..9][0] == frame[p - (j - 8)].cells[0];
        } else {
          assert frame[p + forecastDays].cells[..9][0] == frame[p + forecastDays].cells[0];
        }
      }
    } else if p < 5 {
      assert cells[9..14][4] == ShiftAt(close, p, 5);
      assert cells[13].None?;
    } else {
      assert cells[14].None?;
    }
  }

  /** The cells of feature row `p`: base cells, closes 1..5 rows earlier, close `forecastDays` later. */
  lemma FeatureRowShape(frame: seq<Row>, forecastDays: nat, p: nat)
    requires Selectable(frame) && 5 <= p && p + forecastDays < |frame|
    ensures var cells := FeatureCells(frame, p, forecastDays);
      && cells[..9] == frame[p].cells[..9]
      && cells[9..14] == [frame[p - 1].cells[0], frame[p - 2].cells[0], frame[p - 3].cells[0],
                          frame[p - 4].cells[0], frame[p - 5].cells[0]]
      && cells[14] == frame[p + forecastDays].cells[0]
  {
    var close := CloseColumn(frame);
    var cells := FeatureCells(frame, p, forecastDays);
    assert cells[9..14] == seq(5, j requires 0 <= j < 5 => ShiftAt(close, p, j + 1));
  }

  /** Start and end of the block of frame rows the feature table keeps. */
  function KeptFrom(n: nat, forecastDays: nat): nat
  {
    if n >= 5 then 5 else n
  }

  function KeptUntil(n: nat, forecastDays: nat): nat
  {
    if n >= 5 + forecastDays then n - forecastDays else KeptFrom(n, forecastDays)
  }

  /** The feature table is one contiguous block of the unfiltered table. */
  lemma FeaturesAreBlock(frame: seq<Row>, forecastDays: nat)
    requires Selectable(frame) && BaseDefined(frame)
    ensures KeptFrom(|frame|, forecastDays) <= KeptUntil(|frame|, forecastDays) <= |frame|
    ensures PrepareFeatures(frame, forecastDays)
         == FeatureTable(frame, forecastDays)[KeptFrom(|frame|, forecastDays)..KeptUntil(|frame|, forecastDays)]
  {
    var n := |frame|;
    var table := FeatureTable(frame, forecastDays);
    forall p | 0 <= p < n
      ensures Complete(table[p].cells) <==> 5 <= p < n - forecastDays
    {
      FeatureRowComplete(frame, forecastDays, p);
    }
    DropNaBlock(table, KeptFrom(n, forecastDays), KeptUntil(n, forecastDays));
  }

  /**
   * On a frame whose selected columns are all defined, the feature table keeps exactly
   * frame rows `5 .. n-1-forecastDays`, in order: row `k` of the table is frame row `k+5`.
   */
  lemma PrepareFeaturesWindow(frame: seq<Row>, forecastDays: nat)
    requires Selectable(frame) && BaseDefined(frame)
    ensures var features := PrepareFeatures(frame, forecastDays);
      && |features| == (if |frame| >= 5 + forecastDays then |frame| - 5 - forecastDays else 0)
      && (forall k :: 0 <= k < |features| ==> features[k].index == frame[k + 5].index)
  {
    FeaturesAreBlock(frame, forecastDays);
  }

  /** Row `k` of the feature table, spelled out in terms of the frame it was built from. */
  lemma FeatureRowContents(frame: seq<Row>, forecastDays: nat, k: nat)
    requires Selectable(frame) && BaseDefined(frame)
    requires k < |PrepareFeatures(frame, forecastDays)|
    ensures var row := PrepareFeatures(frame, forecastDays)[k];
      && k + 5 + forecastDays < |frame|
      && row.index == frame[k + 5].index
      && row.cells[..9] == frame[k + 5].cells[..9]
      && row.cells[9..14] == [frame[k + 4].cells[0], frame[k + 3].cells[0], frame[k + 2].cells[0],
                              frame[k + 1].cells[0], frame[k].cells[0]]
      && row.cells[14] == frame[k + 5 + forecastDays].cells[0]
  {
    FeatureRowAt(frame, forecastDays, k);
    FeatureRowShape(frame, forecastDays, k + 5);
  }

  /** Row `k` of the feature table is the unfiltered row built from frame row `k + 5`. */
  lemma FeatureRowAt(frame: seq<Row>, forecastDays: nat, k: nat)
    requires Selectable(frame) && BaseDefined(frame)
    requires k < |PrepareFeatures(frame, forecastDays)|
    ensures k + 5 + forecastDays < |frame|
    ensures PrepareFeatures(frame, forecastDays)[k]
         == Row(frame[k + 5].index, FeatureCells(frame, k + 5, forecastDays))
  {
    FeaturesAreBlock(frame, forecastDays);
    assert PrepareFeatures(frame, forecastDays)[k] == FeatureTable(frame, forecastDays)[k + 5];
  }

  /** `max(0, min(100, 100 - mae))`. */
  function Confidence(mae: real): (c: real)
    ensures 0.0 <= c <= 100.0
    ensures 0.0 <= mae <= 100.0 ==> c == 100.0 - mae
    ensures mae > 100.0 ==> c == 0.0
    ensures mae < 0.0 ==> c == 100.0
  {
    var capped := if 100.0 < 100.0 - mae then 100.0 else 100.0 - mae;
    if 0.0 > capped then 0.0 else capped
  }

  /** Fewer feature rows than this and no model is trained. */
  const MinFeatureRows: nat := 100

  datatype Prediction = Prediction(
    symbol: string,
    currentPrice: real,
    predictedPrice: real,
    daysAhead: nat,
    priceChangePct: real,
    mae: real,
    featuresUsed: seq<string>,
    confidence: real)

  /**
   * `predict`: no prediction for an empty history or fewer than 100 feature rows.
   * Otherwise the model is applied to the last feature row (without its target), and the
   * change is measured against the last close of the indicator frame.
   */
  function Predict(symbol: string, bars: seq<Bar>, lib: LibraryIndicators, daysAhead: nat,
                   mae: real, model: seq<real> -> real): (r: Option<Prediction>)
    requires Aligned(bars, lib) && PositiveCloses(bars)
    ensures r.None? <==>
      |bars| == 0 || |PrepareFeatures(AddTechnicalIndicators(bars, lib), daysAhead)| < MinFeatureRows
    ensures r.Some? ==>
      && r.value.currentPrice > 0.0
      && r.value.priceChangePct == PercentChange(r.value.predictedPrice, r.value.currentPrice)
      && r.value.confidence == Confidence(mae) && 0.0 <= r.value.confidence <= 100.0
      && r.value.featuresUsed == FeatureNames
      && r.value.symbol == symbol && r.value.daysAhead == daysAhead && r.value.mae == mae
  {
    if |bars| == 0 then None
    else
      var frame := AddTechnicalIndicators(bars, lib);
      var features := PrepareFeatures(frame, daysAhead);
      if |features| < MinFeatureRows then None
      else
        LatestRows(bars, lib, daysAhead);
        var current := frame[|frame| - 1].cells[0].value;
        var predicted := model(Values(features[|features| - 1].cells)[..14]);
        Some(Prediction(symbol, current, predicted, daysAhead, PercentChange(predicted, current),
                        mae, FeatureNames, Confidence(mae)))
  }

  /** The horizon `predict` uses when the caller names none. */
  const DefaultDaysAhead: nat := 5

  /** `predict(symbol)` without a horizon: the target is the close five rows ahead. */
  function PredictDefault(symbol: string, bars: seq<Bar>, lib: LibraryIndicators, mae: real,
                          model: seq<real> -> real): (r: Option<Prediction>)
    requires Aligned(bars, lib) && PositiveCloses(bars)
    ensures r.None? <==> |bars| == 0 || |PrepareFeatures(AddTechnicalIndicators(bars, lib), 5)| < 100
    ensures r.Some? ==> r.value.daysAhead == 5 && r.value.symbol == symbol
  {
    Predict(symbol, bars, lib, DefaultDaysAhead, mae, model)
  }

  /** `(x - base) / base * 100`: the change from `base` to `x` in percent of `base`. */
  function PercentChange(x: real, base: real): (pct: real)
    requires base > 0.0
    ensures pct * base == (x - base) * 100.0
    ensures pct > 0.0 <==> x > base
    ensures pct == 0.0 <==> x == base
  {
    (x - base) / base * 100.0
  }

  /**
   * A prediction comes from the right rows: the model sees the first 14 cells of the last
   * feature row, and the current price is the close of the frame's last bar. Which frame
   * row the last feature row is, `LatestRows` states.
   */
  lemma PredictUsesLatestRows(symbol: string, bars: seq<Bar>, lib: LibraryIndicators, daysAhead: nat,
                              mae: real, model: seq<real> -> real)
    requires Aligned(bars, lib) && PositiveCloses(bars)
    requires Predict(symbol, bars, lib, daysAhead, mae, model).Some?
    ensures var r := Predict(symbol, bars, lib, daysAhead, mae, model).value;
      var frame := AddTechnicalIndicators(bars, lib);
      var features := PrepareFeatures(frame, daysAhead);
      && |frame| > 0 && |features| > 0
      && r.currentPrice == bars[frame[|frame| - 1].index].close
      && r.predictedPrice == model(Values(features[|features| - 1].cells)[..14])
  {
    LatestRows(bars, lib, daysAhead);
  }

  /**
   * With at least 100 feature rows, the last feature row is the indicator frame's row
   * `daysAhead` before its last, and the last row's close is a positive price.
   */
  lemma LatestRows(bars: seq<Bar>, lib: LibraryIndicators, daysAhead: nat)
    requires Aligned(bars, lib) && PositiveCloses(bars)
    requires |PrepareFeatures(AddTechnicalIndicators(bars, lib), daysAhead)| >= MinFeatureRows
    ensures var frame := AddTechnicalIndicators(bars, lib);
      var features := PrepareFeatures(frame, daysAhead);
      && |frame| >= MinFeatureRows + 5 + daysAhead
      && features[|features| - 1].index == frame[|frame| - 1 - daysAhead].index
      && frame[|frame| - 1].cells[0] == Some(bars[frame[|frame| - 1].index].close)
      && bars[frame[|frame| - 1].index].close > 0.0
  {
    var frame := AddTechnicalIndicators(bars, lib);
    FrameIsFeatureReady(bars, lib);
    LastFeatureRow(frame, daysAhead);
  }

  /** The last of at least 100 feature rows comes from the frame's row `forecastDays` before its last. */
  lemma LastFeatureRow(frame: seq<Row>, forecastDays: nat)
    requires Selectable(frame) && BaseDefined(frame)
    requires |PrepareFeatures(frame, forecastDays)| >= MinFeatureRows
    ensures |frame| >= MinFeatureRows + 5 + forecastDays
    ensures var features := PrepareFeatures(frame, forecastDays);
      features[|features| - 1].index == frame[|frame| - 1 - forecastDays].index
  {
    PrepareFeaturesWindow(frame, forecastDays);
    var features := PrepareFeatures(frame, forecastDays);
    var n := |features|;
    assert n == |frame| - 5 - forecastDays;
    assert features[n - 1].index == frame[n - 1 + 5].index;
  }

  /** The indicator frame has the selected columns, all defined, and positive closes. */
  lemma FrameIsFeatureReady(bars: seq<Bar>, lib: LibraryIndicators)
    requires Aligned(bars, lib) && PositiveCloses(bars)
    ensures var frame := AddTechnicalIndicators(bars, lib);
      && Selectable(frame) && BaseDefined(frame)
      && forall k :: 0 <= k < |frame| ==> frame[k].cells[0] == Some(bars[frame[k].index].close)
  {
    var frame := AddTechnicalIndicators(bars, lib);
    forall p | 0 <= p < |frame| ensures Complete(frame[p].cells[..9]) {
      assert forall j :: 0 <= j < 9 ==> frame[p].cells[..9][j] == frame[p].cells[j];
    }
  }
}
