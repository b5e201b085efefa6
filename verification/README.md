# Stock dashboard core, modelled in Dafny

The dashboard has three pieces of repeatable logic, and this project models all three.

1. **Price alerts.** There are two stores of alerts.
   - The chat bot's store (`financial_bot.py`) adds alerts with id `count + 1`, removes them by id, and checks them against fetched prices. It supports price-above, price-below and percent-change alerts, and its comparisons are strict.
   - The standalone alert system (`alerts.py`) checks one symbol's price at a time, and its comparisons are inclusive.

   An alert moves from Active to Triggered at most once. When it does, it records the price it saw and its own reading of the clock, taken when it fired; two alerts fired by one check can therefore carry different times.
2. **The fundamentals checklist** (`backend/bot/finance_bot.py`). Seven criteria give one point each. The total picks a Buy, Watch or Avoid verdict, and one reasoning line per criterion is joined with newlines.
3. **Two prediction pipelines**, both built on frames of optional reals, where `None` stands for NaN.
   - `data_fetcher.py` adds `MA_20`, `MA_50` and a 14-row RSI to a fetched history.
   - `stock_predictor.py` adds technical indicators, drops incomplete rows, and builds five lagged closes plus a `Target` close `days_ahead` rows later. It refuses to predict on fewer than 100 feature rows and clamps its confidence to `[0, 100]`.
   - `predictor.py` builds lags 1, 2, 3 and 5, 5- and 10-row means and the relative change. It drops NaN rows, looks targets up by label, and splits the rows 80/20 in order.

Files and modules:

| file | module | models |
|---|---|---|
| `wrappers.dfy` | `Wrappers` | `Option` |
| `frames.dfy` | `Frames` | columns, rows, rolling means, shift, `pct_change`, `diff`, `dropna` |
| `financial_bot.dfy` | `FinancialBot` | the chat bot's alert store |
| `alerts.dfy` | `AlertSystem` | the standalone alert system |
| `alert_comparison.dfy` | `AlertComparison` | the boundary where the two alert implementations differ |
| `finance_bot.dfy` | `FinanceBot` | `analyze_stock` |
| `data_fetcher.dfy` | `DataFetcher` | symbols, RSI, `fetch_data` columns |
| `stock_predictor.dfy` | `StockPredictor` | indicators, features and the guards of `predict` |
| `predictor.dfy` | `Predictor` | features, targets and the split of `train_predict` |

Outside collaborators are parameters:
- **Market data.** A price history is an input, and a fetch that raised is `None`. The chat bot's check receives one `Quote` per alert: the latest close and the two-day closes.
- **The clock.** Adding an alert takes one reading, a `now` string. A check takes a `clock` sequence with one reading per alert, because the code reads the clock separately for each alert that fires; alert i gets `clock[i]`.
- **Writing the alert file.** It is a `saved` flag in the result.
- **Technical-analysis library columns.** RSI, MACD and Bollinger bands in `stock_predictor.py` are input columns.
- **The fitted regressor.** In `stock_predictor.py` it is a function from a feature row to a price, plus its mean absolute error. In `predictor.py` the scaler, fit, predict and score together are one function from the split to an optional result, where `None` means the library raised.

Three behaviours are modelled as the code is written, even where they look unintended:
- **Comparisons.** Both comparison styles are modelled as they are written: strict in the chat bot, inclusive in the alert system. `AlertComparison.BoundaryDisagreement` states where they differ.
- **RSI with no losses.** An RSI window with no losses and some gains is 100, because `100 / (1 + inf)` is 0. A window with neither gains nor losses is NaN (`0 / 0`), not 100.
- **Alert ids.** The chat bot's ids are not unique after a removal (see Findings).

## Model

| member | source | states |
|---|---|---|
| FinancialBot.AddAlert | financial_bot.py:22-35 | The new alert is appended. Its id is the store size plus one. It is untriggered, carries the given symbol, type, threshold, condition and creation time, and the store is saved. |
| FinancialBot.RemoveAlert | financial_bot.py:104-108 | Keeps exactly the alerts whose id differs, in their original order. The store shrinks by the number of alerts carrying that id. It always reports success and saves. |
| FinancialBot.Step | financial_bot.py:39-64 | A Triggered alert is skipped unchanged. An Active alert becomes Triggered iff its rule fires, and is then the same alert stamped with the clock reading it is given and the current price. An Active alert that does not fire, or whose lookup failed, is unchanged. Id, symbol, type and threshold never change. |
| FinancialBot.Scan | financial_bot.py:39-64 | The loop updates every alert by `Step` against its own quote and its own clock reading. It collects the alerts that went from Active to Triggered, in store order. |
| FinancialBot.CheckAlerts | financial_bot.py:36-72 | Every alert is updated against its own quote, so one failed lookup does not stop the others. The result is the newly triggered alerts in store order. The store is saved iff that list is non-empty. |
| FinancialBot.PriceComparisonsAreStrict | financial_bot.py:46-49 | Price-above fires iff price > threshold, and price-below iff price < threshold. A price equal to the threshold never fires, and an unknown alert type never fires. |
| FinancialBot.PercentChangeRule | financial_bot.py:50-59 | Percent-change alerts need two rows of history. `increase` fires iff the change is above the threshold, and `decrease` iff it is below the negated threshold. Any other condition, or a failed lookup, never fires. |
| FinancialBot.PercentChangeExample | financial_bot.py:52-57 | With a previous close of 100 and a threshold of 5, a price of 106 fires and a price of 104 does not. |
| FinancialBot.NewlyTriggeredAreStamped | financial_bot.py:60-64 | Every alert a check returns is Triggered, has a price, and is the alert at some position i that was Active before, stamped with that alert's own clock reading `clock[i]`. |
| FinancialBot.CheckIsIdempotent | financial_bot.py:39-64 | A second check with the same quotes fires nothing, changes nothing and does not save: an alert fires at most once. |
| FinancialBot.PriceAboveFiresOnce | financial_bot.py:40-64 | A price-above-100 alert checked at 98, 99, 101 and 95 fires only on the check that sees 101. It keeps 101 as its trigger price afterwards. |
| FinancialBot.AddKeepsSequentialIds | financial_bot.py:25 | With no removals, ids stay 1..n and therefore unique. |
| FinancialBot.RemoveAbsentIsIdentity | financial_bot.py:106 | Removing an id that no alert carries leaves the store unchanged. |
| FinancialBot.RemoveIsIdempotent | financial_bot.py:106 | Removing the same id twice gives the same store as removing it once. |
| FinancialBot.CheckKeepsIds | financial_bot.py:60-63 | A check keeps every alert's id, so unique ids stay unique. |
| FinancialBot.IdReuseAfterRemove | financial_bot.py:25 | From ids [1, 2], removing 1 and then adding gives the new alert id 2, which is already taken. |
| FinancialBot.AddAlertFreshId | financial_bot.py:22-35 | The corrected add: it appends the same alert, but with an id larger than every id in use. |
| FinancialBot.FreshIdsStayUnique | financial_bot.py:104-108 | With fresh ids, both adding and removing keep ids unique. |
| FinancialBot.RemovePreservesUnique | financial_bot.py:106 | Filtering out an id keeps the remaining ids unique. |
| AlertSystem.CreatePriceAlert | alerts.py:13-25 | The new alert is appended. Its id is the store size plus one. It is untriggered, carries the given fields and creation time, and the store is saved. |
| AlertSystem.CreateDefaultPriceAlert | alerts.py:13 | Without a condition, the alert watches for the price reaching the target from below (`above`). |
| AlertSystem.Update | alerts.py:31-41 | Alerts on other symbols, Triggered alerts and alerts whose inclusive condition does not hold are left unchanged. An alert becomes Triggered iff its condition holds, and is then the same alert with the clock reading it is given and the price recorded, every other field kept. |
| AlertSystem.Scan | alerts.py:30-41 | The loop updates every alert, alert i with its own clock reading, and collects the newly triggered ones in store order. |
| AlertSystem.CheckAlerts | alerts.py:27-47 | Every alert is updated against the checked symbol and price. The result is the newly triggered alerts in store order. The store is saved iff something fired. |
| AlertSystem.InclusiveComparisons | alerts.py:32-37 | `above` fires iff price >= target, and `below` iff price <= target. A price exactly at the target fires. Any other condition never fires. |
| AlertSystem.TriggeredAreOnSymbol | alerts.py:31-41 | Every returned alert is on the checked symbol, is Triggered with the checked price, and is the alert at some position i that was Active before, stamped with that alert's own clock reading `clock[i]`. |
| AlertSystem.CheckIsIdempotent | alerts.py:31 | Checking the same symbol at the same price again returns nothing, changes nothing and does not save. |
| AlertSystem.IdsStaySequential | alerts.py:16 | Creating and checking keep ids 1..n; the alert system has no removal. |
| AlertComparison.BoundaryDisagreement | alerts.py:32-37 | At a price equal to the threshold, the alert system's above and below alerts fire while the chat bot's price-above and price-below alerts (financial_bot.py:46-49) do not. At any other price the two agree. |
| FinanceBot.Score | backend/bot/finance_bot.py:10-60 | The score is the number of the seven criteria the input passes, so it is at most 7. |
| FinanceBot.VerdictFor | backend/bot/finance_bot.py:62-68 | Buy iff the score is at least 5, Watch iff it is 3 or 4, Avoid iff it is below 3. |
| FinanceBot.Reasoning | backend/bot/finance_bot.py:11-60 | Seven lines. Line k is criterion k's pass message iff the input passes criterion k, and its fail message iff it does not; the two messages of a criterion differ, so each line tells the outcome. |
| FinanceBot.PassLinesCountScore | backend/bot/finance_bot.py:10-60 | The number of pass messages among the reasoning lines equals the score. |
| FinanceBot.AnalyzeStock | backend/bot/finance_bot.py:3-70 | The label is `Buy ✅` iff the score is at least 5, `Watch ⏳` iff it is 3 or 4, and `Avoid ❌` iff it is below 3. The text is the reasoning lines joined with newlines and has exactly six newlines. |
| FinanceBot.JoinedNewlines | backend/bot/finance_bot.py:70 | Joining n newline-free lines yields exactly n - 1 newlines. |
| FinanceBot.ReasoningHasSevenLines | backend/bot/finance_bot.py:70 | The reasoning text of any input has exactly six newlines, i.e. seven lines. |
| FinanceBot.VerdictIsMonotone | backend/bot/finance_bot.py:63-68 | Passing more criteria never lowers the score or the verdict. |
| FinanceBot.ThresholdsAreStrict | backend/bot/finance_bot.py:21-42 | Each numeric threshold is strict on its own: revenue growth ≤ 0.1, profit consistency ≤ 0.8, debt level ≥ 0.5 and promoter trend ≤ 0 each fail their criterion. All four exactly on their thresholds score at most 3. |
| FinanceBot.StaticRouteInputIsBuy | backend/app.py:50-59 | The fixed input served by the analysis route scores 7 and gets a Buy. |
| DataFetcher.AvailableSymbols | data_fetcher.py:12-13 | 15 distinct symbols, from AAPL to BAC. |
| DataFetcher.Gains | data_fetcher.py:31-32 | Gains of the close differences are non-negative. The first row's gain is 0, because the NaN first difference is masked. |
| DataFetcher.Losses | data_fetcher.py:31-33 | Losses of the close differences are non-negative, and the first row's loss is 0. |
| DataFetcher.GainsAndLossesSplitMoves | data_fetcher.py:31-33 | Gain minus loss is the price move, and at most one of them is non-zero. |
| DataFetcher.RsiOf | data_fetcher.py:34-35 | The RSI is undefined iff there are neither gains nor losses. Otherwise it lies in [0, 100] and satisfies RSI × (gain + loss) = 100 × gain. It is below 100 iff there is a loss, 0 with only losses, and 100 with only gains. |
| DataFetcher.RsiClosedForm | data_fetcher.py:34-35 | `100 - 100 / (1 + gain/loss)` equals `100 gain / (gain + loss)` and lies in [0, 100). |
| DataFetcher.CalculateRsi | data_fetcher.py:30-36 | One value per price. Rows before the first full window are NaN, and every defined value lies in [0, 100]. Its exact value is stated by `DataFetcher.RsiWindow`. |
| DataFetcher.RsiWindow | data_fetcher.py:30-36 | Rows before the first full window are undefined. A full window's RSI is defined iff the window moved, and is then `100 G / (G + L)` for the window sums G and L. It is below 100 iff L > 0, and 0 iff G = 0. |
| DataFetcher.FirstRsiUsesMaskedDifference | data_fetcher.py:31-32 | The first full window (row `period - 1`) is already defined, and `period` times its mean gain (and mean loss) is the sum over rows 1 to `period - 1` only: the masked first difference adds nothing, so the window averages one fewer real move than its length. |
| DataFetcher.FetchData | data_fetcher.py:15-28 | A failed fetch gives `None`. Otherwise there is one row per bar: `Close`, `Volume`, `MA_20` (defined from row 19, with 20 × value = the sum of the last 20 closes), `MA_50` (from row 49, likewise), then the RSI. |
| Frames.RollingMean | data_fetcher.py:21-22 | A value is defined iff the window is full, and w × value is the sum of the last w entries. |
| Frames.TrailingMeans | data_fetcher.py:21-22 | A running-sum computation of the trailing means equals the rolling mean. |
| Frames.RollingMeanNonNegative | data_fetcher.py:32-33 | Means of non-negative series are non-negative. |
| Frames.DropNa | stock_predictor.py:53 | Every kept row is complete, and no more rows come out than went in. |
| Frames.DropNaKeepsRows | stock_predictor.py:53 | Every kept row comes from the input, and increasing labels stay increasing. |
| Frames.DropNaKeepsComplete | stock_predictor.py:53 | No complete row is dropped. |
| Frames.DropNaBlock | stock_predictor.py:63 | When the complete rows form one contiguous block, `dropna` returns exactly that block. |
| Frames.DropNaSkipsPrefix | predictor.py:33 | When the first m rows are incomplete, at most the remaining rows are kept. |
| StockPredictor.IndicatorCellsComplete | stock_predictor.py:36-52 | A bar's indicator row has no NaN iff it is row 49 or later and the library columns are defined there. |
| StockPredictor.AddTechnicalIndicators | stock_predictor.py:31-53 | An empty history is returned as is. Otherwise the result is complete rows with increasing labels, 12 cells each, whose `Close` is the bar's close. |
| StockPredictor.IndicatorRowContents | stock_predictor.py:36-52 | Each kept row holds the indicator cells of the bar it is labelled with. |
| StockPredictor.IndicatorRowsKept | stock_predictor.py:53 | A bar survives iff it is row 49 or later and the library columns are defined there. |
| StockPredictor.PrepareFeatures | stock_predictor.py:54-63 | Every row has 15 cells, all defined, and increasing labels stay increasing. |
| StockPredictor.FeatureRowComplete | stock_predictor.py:59-63 | On a fully defined frame, the unfiltered feature row at position p is free of NaN iff it has five earlier rows and a row `forecast_days` later. |
| StockPredictor.FeatureRowShape | stock_predictor.py:56-62 | A row's cells are the nine base columns, the closes 1 to 5 rows earlier, and the close `forecast_days` rows later. |
| StockPredictor.FeaturesAreBlock | stock_predictor.py:63 | The kept rows are one contiguous block of the unfiltered table. |
| StockPredictor.PrepareFeaturesWindow | stock_predictor.py:54-63 | There are `max(0, n - 5 - forecast_days)` feature rows, and row k comes from frame row k + 5. |
| StockPredictor.FeatureRowContents | stock_predictor.py:56-63 | Feature row k consists of frame row k + 5's base cells, the closes of frame rows k + 4 down to k, and the close of frame row k + 5 + forecast_days. |
| StockPredictor.FeatureRowAt | stock_predictor.py:63 | Feature row k is the unfiltered row built from frame row k + 5. |
| StockPredictor.FeatureNamesShape | stock_predictor.py:56-62 | 14 distinct feature names: the first nine indicator columns and `Close_lag_1` to `Close_lag_5`. `Target` is not among them. |
| StockPredictor.FrameIsFeatureReady | stock_predictor.py:53-57 | The indicator frame has the columns `prepare_features` selects, fully defined, and its `Close` is each row's bar close. |
| StockPredictor.Confidence | stock_predictor.py:122 | The confidence lies in [0, 100]. It is `100 - mae` inside that range, 0 above it and 100 below it. |
| StockPredictor.Predict | stock_predictor.py:90-123 | No prediction iff the history is empty or there are fewer than 100 feature rows. Otherwise the current price is positive, the percent change is measured against it, the confidence is `Confidence(mae)` (so it lies in [0, 100]), and `features_used` lists the 14 feature names. |
| StockPredictor.PredictDefault | stock_predictor.py:90 | Without a horizon, `predict` looks five rows ahead: no prediction iff the history is empty or there are fewer than 100 feature rows for `days_ahead` = 5, and a prediction reports `days_ahead` = 5. |
| StockPredictor.PercentChange | stock_predictor.py:120 | pct × base = (x − base) × 100. It is positive iff the price rose and zero iff it did not move. |
| StockPredictor.PredictUsesLatestRows | stock_predictor.py:107-112 | The model sees the first 14 cells of the last feature row, and the current price is the close of the frame's last bar. |
| StockPredictor.LatestRows | stock_predictor.py:98-112 | With at least 100 feature rows, the frame has at least 105 + days rows. The last feature row is the frame row `days` before the last, and the last close is a positive price. |
| StockPredictor.LastFeatureRow | stock_predictor.py:100-107 | The last of at least 100 feature rows comes from the frame row `forecast_days` before the frame's last row. |
| Predictor.FeatureNamesShape | predictor.py:15-30 | 12 distinct feature names, with lags 1, 2, 3 and 5 only (no lag 4). |
| Predictor.FetchedFrame | data_fetcher.py:15-25 | A fetched frame of positive closes has five cells per row, a defined positive `Close`, and positions as labels. |
| Predictor.PrepareFeatures | predictor.py:12-35 | Every row has 12 cells, all defined, and increasing labels stay increasing. |
| Predictor.FeatureRowComplete | predictor.py:22-33 | A feature row is complete iff it is frame row 9 or later and its five base cells are defined. |
| Predictor.FeatureRowValues | predictor.py:22-30 | The lag cells are the closes 1, 2, 3 and 5 rows back. The 5- and 10-row means times their window sizes equal the sums of the trailing closes. The change is relative to the previous close. |
| Predictor.FeatureLabels | predictor.py:33 | Every feature row is the unfiltered row at its own label, and its label lies inside the frame. |
| Predictor.FeaturesSkipWarmUp | predictor.py:26-33 | On a frame of at least nine rows there are at most nine fewer feature rows than frame rows. |
| Predictor.KeptRowsPassWarmUp | predictor.py:26-33 | On a positionally labelled frame, no feature row comes from one of the first nine frame rows. |
| Predictor.FetchedRowComplete | predictor.py:15-30 | On a fetched frame, bar p's unfiltered feature row is free of NaN iff p ≥ 49 and the RSI is defined there. |
| Predictor.FetchedRowKept | predictor.py:15-33 | On a fetched frame, `dropna` keeps bar p's feature row (some feature row carries label p) iff p ≥ 49 and the RSI is defined there. |
| Predictor.TargetAt | predictor.py:43-44 | The target of the row at a position is defined iff the row `days` later exists, and is then that row's close. |
| Predictor.SplitIndexIsFourFifths | predictor.py:47 | The number of training rows is `floor(0.8 n)`: 5s ≤ 4n < 5s + 5. |
| Predictor.MakeSplit | predictor.py:43-51 | Training rows followed by test rows give back the feature rows, and the first `floor(0.8 n)` rows train. Each row's target is the one looked up by its label, with undefined targets kept. |
| Predictor.TrainPredict | predictor.py:37-71 | `None` iff the library raises. Otherwise the actual values are the test targets, one per test row (the feature rows minus `floor(0.8 n)`), and the dates are the frame labels from position `split + days` on: the frame length minus `split + days` of them, none when that is negative. `Predictor.DatesOutnumberTestRows` shows the two counts differ. |
| Predictor.TrainPredictDefault | predictor.py:37 | Without a horizon, `train_predict` uses seven rows: `None` iff the library raises, and otherwise the actual values are the test targets seven rows ahead and the dates start at position `split + 7`. |
| Predictor.TargetIsLaterClose | predictor.py:43-44 | Each defined target is the close `days` rows after its feature row. |
| Predictor.TrainTargetsDefined | predictor.py:43-50 | With at least `days` test rows, every training target is defined. |
| Predictor.LastTestTargetUndefined | predictor.py:43-51 | If the last frame row is kept and `days` ≥ 1, the last test target is NaN. |
| Predictor.DatesOutnumberTestRows | predictor.py:66 | On a frame of at least nine rows, dates + days ≥ test rows + 9. So for `days` < 9 there are more dates than test rows. |
| Predictor.TrainPredictAligned | predictor.py:63-68 | The corrected result: one date per actual value. Date k is the position of the close prediction k forecasts, `days` after test row k. Actual value k is defined iff that position lies in the frame, and is then the close there. |

## Left out

- Reading and writing `alerts.json` is not modelled; the results carry a `saved` flag instead. This covers `load_alerts`, `save_alerts`, and the round trip of persisting and loading the alerts.
- Printed notifications and error messages (`send_notifications`, `print`) are not modelled, and neither is the `schedule`/`threading` machinery that `alerts.py` imports. They are output or concurrency only.
- The `yfinance` calls are not modelled. Fetched prices and histories are inputs, and a lookup that raised is `None`.
- `datetime.now()` is not modelled. Its readings are arguments: `now` for a new alert, and one `clock[i]` per alert for a check, so the model does not say how far apart the readings of one check are. `prediction_date` and `last_training_date` are not modelled.
- The `ta` library's RSI, MACD and Bollinger band columns in `stock_predictor.py` are input columns. Their formulas belong to that library.
- `scikit-learn` is not modelled, because it is foreign numerical code. This covers `train_test_split`, `StandardScaler`, `RandomForestRegressor` and `mean_absolute_error`:
  - in `stock_predictor.py` the trained model and its MAE are inputs;
  - in `predictor.py` fitting and scoring are one given function of the split.
- The 80/20 split inside `train_model` of `stock_predictor.py` is therefore not modelled; only its `features_used` list is.
- Floating point is not modelled; reals are exact. NaN is `None`, and the one place where the source relies on infinity (the RSI with no losses) is written out explicitly.
- StockPredictor.Predict: the returned prices and percentage are not rounded to two decimals, because `round` on floats is left out with floating point.
- Predictor.SplitIndex: `int(n * 0.8)` is modelled as `floor(4n / 5)`. The two agree for every frame length that fits in memory, but IEEE rounding is not modelled.
- FinancialBot.Fires: the percent-change rule requires a non-zero previous close (`Evaluable`), because a zero close makes the source divide by zero.
- The prediction pipelines require positive closes, so that `pct_change` never divides by zero, and require fetched frames whose `Close` column is fully defined.
- The frames carry only the columns the code reads or adds. The fetched history's other columns (Open, High, Low, Dividends, Stock Splits) also take part in `df.dropna()` at `stock_predictor.py:53`. A NaN in one of them would drop that row as well; the model assumes those columns have no NaN, because the history itself is an input and its extra columns are not modelled.
- Frame labels are modelled as positions in the fetched history. A label lookup in `predictor.py` is therefore a position lookup, which holds for the frames `fetch_data` produces (unique, increasing dates).
- The Streamlit dashboard in `app.py` and the Flask routes in `backend/app.py` are not modelled, apart from the static analysis input. Also not modelled: `get_market_summary`, `config.py`, and `fetch_data` of `stock_predictor.py`. These are presentation, configuration and I/O outside the core.
- Alerts are dictionaries in the source. Here they are records with the fields the code reads, and an unknown alert type is `OtherType`.

## Findings

| source | as written | input that shows it | evidently intended | confidence | as-written member | corrected member |
|---|---|---|---|---|---|---|
| financial_bot.py:25 | the new id is `len(self.alerts) + 1` | alerts with ids 1 and 2; remove id 1, then add: the new alert gets id 2, which the remaining alert already has | ids unique and stable, as the alert record promises | high (not executed) | FinancialBot.IdReuseAfterRemove | FinancialBot.AddAlertFreshId |
| predictor.py:66 | the dates are `df.index[split_idx + days_to_predict:]`, taken from frame positions | any frame of at least nine rows with `days_to_predict` below 9: `prepare_features` drops at least the first nine rows, so the dates outnumber the test rows and the predictions. A caller sees it with `days_to_predict = 0`, or when the last frame rows are dropped; with `days_to_predict` ≥ 1 and the last row kept, the last test target is NaN (`Predictor.LastTestTargetUndefined`) and the library's scoring, which is not modelled, then raises and `None` is returned | one date per test row: the date of the close it predicts, aligned with the predictions and the actual values | medium (not executed) | Predictor.DatesOutnumberTestRows | Predictor.TrainPredictAligned |
