# Stock forecasting: a Dafny model

This project models the core of a small sales-forecasting system. The system has four parts:

- **The forecasting pipeline** (`fastapi/ml_model.py`), module `MlModel`. It takes an uploaded
  sales table, keeps the rows whose transaction date parses, and sums quantities per product,
  category and month. It then derives the lag features `lag_1` and `lag_3_avg`, numbers the
  products densely, and weights rows whose month matches the target. Next it trains a model,
  forecasts the target month from each product's latest row, and writes a stock report. A
  product is flagged HIGH STOCK REQUIRED when its forecast is at least 1.2 times the mean
  forecast.
- **The prediction API** (`fastapi/main.py`), module `Api`. This covers the `"<Month> <YYYY>"`
  parser, the checks on a prediction request, how exceptions raised inside the handler map to
  HTTP 400 or 500, the response records and counters, the insight tier, and the
  dataset-validation endpoint.
- **The browser component** (`predictStoke/src/components/StockPredictionApp.jsx`), module
  `Client`. It is a class with the component's state fields. Its handlers are methods: file
  upload, type, product and month changes, the local "average × 1.2" predictor, and the submit
  handler that builds the form and stores the reply's `predictions`.
- **The simpler backend** (`backend/main.py`), module `Backend`. Its first `predict_stock`
  handler does a column check, then makes one half-to-even-rounded "average × 1.2" prediction
  per product, or for the requested product. It reports errors as dictionaries.

Module `Common` holds the shared vocabulary: sums and means, and the three roundings. Python's
`round` is half to even (`HalfEven`). JavaScript's `Math.round` rounds ties upward (`JsRound`).
`round(x, 2)` and pandas `.round(2)` are `Round2`. `Common` also has first-appearance
de-duplication (`Distinct`, like pandas `unique` and `new Set`), filtering, and the
lexicographic order pandas uses to sort string columns.

Some things the code depends on become parameters:

- The scikit-learn training step is the `train` parameter. It maps the training rows either to
  a predictor with its metrics, or to the message of the ValueError training raised.
- The parsed CSV upload is a parameter: `csv` in `Api`, `upload` in `Backend`. In `Api` a
  failed read is an exception carried by the parameter. `Backend` receives only the parsed
  upload.
- The network reply in the browser is the `reply` parameter of `HandleSubmit`.

Some behaviours of the code are easy to miss, and the model keeps them as written:

- The component posts its form to `http://127.0.0.1:8000/api/debug`. Neither server defines
  that path. FastAPI answers it with 404 and `{"detail": "Not Found"}`, so the shown
  predictions become `undefined` (`Client.DebugRouteReply`). The lemmas that relate the form to
  `Api` state what `/api/predict-stock` would make of the same form.
- The component's product-id guard tests for the type `"single"`, which the selector never
  offers, so it never blocks a submission (`Client.StockPredictionApp.HandleSubmit`).
- The product and month change handlers store `console.log`'s return value, which is
  `undefined`. So the form always carries an empty product id. After the month is changed, the
  form's month is "undefined", which `/api/predict-stock` would reject
  (`Client.PickedMonthIsRefused`, `Client.SpecificSubmissionRefused`). FastAPI reads an
  empty text field of an optional form parameter as the parameter's default, so the empty
  product id arrives as `None` (`Client.AsApiRequest`).
- `handlePredict`, the local "average × 1.2" predictor, is attached to no element: the only
  button handler in the markup is `onClick={handleSubmit}`. The local predictor therefore never
  runs in the page; `Client.StockPredictionApp.HandlePredict` models what it would do.
- The 404 for an unknown product is raised inside the handler's `try`, so `except Exception`
  catches it and it reaches the caller as a 500 (`Api.UnknownProductIs500`).
- `groupby` yields its groups sorted by product, category, year and month. The multi-column
  `sort_values` after it is a stable sort, so rows of one product and month stay ordered by
  category (`MlModel.KeyLess`). For the same reason `tail(1)` keeps the later row in table
  order among a product's rows with the same year and month (`MlModel.LatestOf`).
- `lag_1` and `lag_3_avg` count earlier rows of a product, not earlier months. A product sold
  in two categories in one month has two rows for that month. The second row's `lag_1` is then
  the first row's quantity from the same month (`MlModel.LagCountsRowsNotMonths`).

## Model

| member | source | states |
|---|---|---|
| Common.HalfEven | backend/main.py:52 | Python `round`: within 0.5 of x, and exact halves go to the even neighbour |
| Common.JsRound | predictStoke/src/components/StockPredictionApp.jsx:34 | `Math.round`: the integer in (x-0.5, x+0.5] |
| Common.Round2 | fastapi/ml_model.py:222-223 | two-decimal rounding stays within 0.005 of its argument, gives a whole number of hundredths, and sends exact half-hundredths to the even hundredth |
| Common.Round2Idempotent | fastapi/main.py:143-145 | rounding an already rounded report value again (as the response does) changes nothing |
| Common.Round2Monotone | fastapi/main.py:145 | two-decimal rounding keeps order and fixes 0, so it never flips the sign of a growth figure |
| Common.Distinct | fastapi/ml_model.py:49 | `unique()` has no duplicates, the same members as its input, and is no longer |
| Common.DistinctFirstAppearance | fastapi/ml_model.py:49 | `unique()` lists values in order of first appearance |
| Common.Filter | fastapi/main.py:129 | a boolean mask keeps exactly the rows satisfying the condition |
| Common.FilterOrder | fastapi/main.py:129 | the kept rows appear in their original order |
| Common.FilterCount | fastapi/main.py:129 | each kept row appears as often as in the input, and no other row appears |
| Common.Positions | fastapi/ml_model.py:97 | the positions kept are exactly those satisfying the condition, each once, in ascending order |
| Common.NotAllAtLeastScaledMean | fastapi/ml_model.py:204-211 | some value is below 1.2 times a positive mean |
| MlModel.MissingColumns | fastapi/ml_model.py:12-22 | the missing names are exactly the required names absent from the table, in required order; none is missing iff all four are present |
| MlModel.DatedRows | fastapi/ml_model.py:28-36 | keeps exactly the rows whose date parsed, reduced to the four columns; empty iff no date parsed |
| MlModel.DatedRowsFiltered | fastapi/ml_model.py:28-36 | row for row, the cleaned table is the rows with a parsed date, in table order and with their multiplicity |
| MlModel.ExtractAndCleanData | fastapi/ml_model.py:8-41 | missing columns raise with their list; otherwise no parsed date raises "No valid data after cleaning dates"; with all columns and some parsed date the result is exactly the dated rows, non-empty |
| MlModel.KeyLessTransitive | fastapi/ml_model.py:79 | the (product, year, month, category) sort order is transitive |
| MlModel.KeyLessTotal | fastapi/ml_model.py:79 | any two distinct group keys are ordered |
| MlModel.Insert | fastapi/ml_model.py:74-78 | adding a transaction adds exactly its key to the set of group keys |
| MlModel.InsertSorted | fastapi/ml_model.py:74-80 | adding a transaction keeps the group table sorted with one row per key |
| MlModel.AggregateCorrect | fastapi/ml_model.py:67-82 | the aggregated table is sorted, has exactly the input's keys, holds each group's sum, and keeps the total quantity |
| MlModel.AggregateRowIsGroupSum | fastapi/ml_model.py:74-78 | each aggregated row's quantity is the sum over the transactions of its group |
| MlModel.AggregateMonthlySales | fastapi/ml_model.py:67-82 | the aggregated table has exactly the group keys of the dated rows |
| MlModel.Lag1 | fastapi/ml_model.py:89 | the grouped `shift(1)`; what it yields is stated by Lag1NoneIff and Lag1IsLastEarlier |
| MlModel.Lag1NoneIff | fastapi/ml_model.py:89 | `lag_1` is NaN exactly on the first row of each product |
| MlModel.Lag1IsLastEarlier | fastapi/ml_model.py:89 | `lag_1` is the quantity of the latest earlier row of the product, whatever its month or category |
| MlModel.LagCountsRowsNotMonths | fastapi/ml_model.py:89-97 | with two categories in one month the second row's `lag_1` is that same month's quantity, and four rows over three months already survive `dropna` |
| MlModel.Lag3Avg | fastapi/ml_model.py:90-95 | the un-grouped `rolling(3).mean()` over the shifted column; stated by Lag3AvgWindow and SortedFeaturesPerProduct |
| MlModel.Lag3AvgWindow | fastapi/ml_model.py:90-95 | `lag_3_avg` exists iff `lag_1` exists on the row and the two rows above it, and is then their mean |
| MlModel.CreateTimeFeatures | fastapi/ml_model.py:85-98 | `dropna` keeps exactly the rows with both lag features, with their lag values; the j-th result is the featured row at the j-th surviving position, so each surviving row appears once and in table order |
| MlModel.Lag1OfGrouped | fastapi/ml_model.py:89 | in a product-grouped table the group-wise shift is the previous row when it is the same product, NaN otherwise |
| MlModel.SurvivesOfGrouped | fastapi/ml_model.py:90-97 | the un-grouped `rolling(3)` still works per product: a row survives iff its three predecessors are the same product, and then `lag_3_avg` is their mean |
| MlModel.SurvivesIffThreeEarlier | fastapi/ml_model.py:89-97 | in a table grouped by product, a row survives iff its product has at least three earlier rows |
| MlModel.SortedIsGrouped | fastapi/ml_model.py:79 | the sorted aggregated table keeps each product's rows contiguous |
| MlModel.SortedFeaturesPerProduct | fastapi/ml_model.py:85-98 | on the sorted table: survival iff three earlier rows of the product, and `lag_3_avg` is the mean of the previous three quantities |
| MlModel.AggregateSorted | fastapi/ml_model.py:79 | the table the pipeline builds is sorted by product, year, month and category, so `SortedFeaturesPerProduct` (survival iff three earlier rows of the product, `lag_3_avg` the mean of the previous three quantities) holds on it |
| MlModel.IdMapsInverse | fastapi/ml_model.py:49-59 | the k-th distinct id maps to k, the numbers are exactly 0..n-1, and the reverse map is a two-sided inverse |
| MlModel.BuildIdMaps | fastapi/ml_model.py:49-59 | the forward map covers exactly the ids, each sent to a position holding it; the reverse map covers exactly 0..n-1, each sent to the id at that position; on ids without duplicates the forward map undoes the reverse |
| MlModel.MapProductIds | fastapi/ml_model.py:44-64 | every row keeps its data and gets the forward map's number for its id, which the reverse map sends back to that id |
| MlModel.ApplyMonthWeight | fastapi/ml_model.py:101-110 | weight 0.8 iff the row's month is the target month, 0.2 otherwise; rows otherwise unchanged |
| MlModel.PrepareTrainingData | fastapi/ml_model.py:113-130 | one training row per row: the six feature columns (mapped id, month, year, `lag_1`, `lag_3_avg`, weight) and the monthly quantity as target |
| MlModel.TrainingRowsOfFeatures | fastapi/ml_model.py:101-130 | the model is trained on one row per feature row, with its month, year, lags and quantity, a number the reverse map sends back to its product, and weight 0.8 exactly in the target month |
| MlModel.LatestOf | fastapi/ml_model.py:169-174 | a product's kept row is one of its rows and no row of it is later by (year, month) |
| MlModel.LatestFrom | fastapi/ml_model.py:169-174 | one kept row per product number, in ascending number order |
| MlModel.LatestFromComplete | fastapi/ml_model.py:169-174 | every product that occurs has its latest row kept |
| MlModel.LatestPerProduct | fastapi/ml_model.py:169-174 | one kept row per product, in ascending number order, each the latest of that product; every product that occurs has its row |
| MlModel.PredictNextMonth | fastapi/ml_model.py:164-197 | one forecast per kept row, dated to the target, previous sales = `lag_1`, prediction on the target-dated features, original id via the reverse map |
| MlModel.ChangePct | fastapi/ml_model.py:214-219 | percent change defined iff previous > 0, positive iff the forecast rose and negative iff it fell |
| MlModel.GenerateStockReport | fastapi/ml_model.py:200-234 | per row: ids kept, forecast rounded to 2 places, change percent rounded, status from forecast ≥ 1.2 × mean |
| MlModel.SomeProductNormal | fastapi/ml_model.py:204-211 | with a positive mean forecast some product is NORMAL STOCK |
| MlModel.Classify | fastapi/ml_model.py:207-211 | the status rule, forecast at least 1.2 × the mean; stated by GenerateStockReport, StatusMonotone and SomeProductNormal |
| MlModel.StatusMonotone | fastapi/ml_model.py:207-211 | a product forecast at least as high as a flagged one is flagged |
| MlModel.ZeroForecastsAllHigh | fastapi/ml_model.py:204-211 | when every forecast is 0 every product is flagged HIGH STOCK REQUIRED |
| MlModel.StatusDependsOnOthers | fastapi/ml_model.py:204-211 | a product's status depends on the other products' forecasts (30 is flagged next to 10, not alone) |
| MlModel.PredictSalesPipeline | fastapi/ml_model.py:237-283 | cleaning errors propagate unchanged; a training error only arises after cleaning succeeded and is reported with its message; otherwise the stock report of the forecasts from the weighted feature table, with the training metrics |
| MlModel.ForecastOnePerProduct | fastapi/ml_model.py:260-278 | the forecast has one row per product, in first-appearance order, under its original id |
| MlModel.PipelineOnePerProduct | fastapi/ml_model.py:237-283 | the report has one row per product that kept features, in first-appearance order, under its original id |
| Api.YearOfTail | fastapi/main.py:33 | the whitespace and four digits after the month name give a year in 1..9999 |
| Api.ParseMonthString | fastapi/main.py:26-36 | success only on a well-formed label; failure carries "Invalid month format: <text>. Expected format: 'March 2026'" |
| Api.MatchFrom | fastapi/main.py:33 | `%B %Y` matching tried from month m on: a match is a well-formed label of a month no earlier than m |
| Api.ParseMonthStringExact | fastapi/main.py:26-36 | the parse yields (y, m) iff the text is month m's name in any case, white space, and four digits for y ≥ 1 |
| Api.ParseCanonicalLabel | fastapi/main.py:26-36 | every "<Month> <YYYY>" label parses to its year and month |
| Api.CheckRequest | fastapi/main.py:89-108 | every failed check is a 400 |
| Api.CheckRequestOrder | fastapi/main.py:89-108 | each error is given exactly when the earlier checks pass and its own fails; a request passes iff CSV name, known type, and for "specific" a product id |
| Api.ToHttpError | fastapi/main.py:180-191 | ValueErrors become 400, every other exception 500 |
| Api.RowsOfProduct | fastapi/main.py:129 | keeps exactly the report rows whose id equals the requested one |
| Api.RowsOfProductOrder | fastapi/main.py:129 | the kept report rows keep their order and multiplicity |
| Api.TryBlock | fastapi/main.py:110-125 | an unparsable month raises its ValueError first; otherwise a failed read propagates; a success carries the parsed year and month |
| Api.SelectRows | fastapi/main.py:127-135 | "all" keeps the report; "specific" keeps exactly `RowsOfProduct` of the report (its product's rows in report order, each once), or raises the 404 exactly when the report has none |
| Api.BadMonthIs400 | fastapi/main.py:112 | an unparsable month is answered 400 with the parser's message |
| Api.PipelineErrorIs400 | fastapi/main.py:125 | pipeline ValueErrors are answered 400 "Data validation error: ..." |
| Api.UnknownProductIs500 | fastapi/main.py:131-135 | an unknown product id is answered 500 "Internal server error: 404: Product ID '...' not found in the dataset" |
| Api.AllKeepsFullReport | fastapi/main.py:110-125 | an "all" request that gets through carries the pipeline's whole report and metrics, for the parsed year and month |
| Api.SpecificKeepsRowsOfFullReport | fastapi/main.py:125-129 | a "specific" answer is exactly `RowsOfProduct` of the all-product report: the rows with that id, in report order, each once |
| Api.ToRecord | fastapi/main.py:140-147 | the row's product and category; last-month and predicted sales rounded to two places; the percent change rounded to two places, or growth 0 when it is missing; the status text is HIGH STOCK REQUIRED iff the row was flagged |
| Api.Records | fastapi/main.py:138-147 | one record per report row, in order, with the row's product and category, its three figures rounded to two places (growth 0 without a percent change), HIGH STOCK REQUIRED iff the row was flagged |
| Api.BuildPredictions | fastapi/main.py:138-147 | the loop yields one record per report row, in report order |
| Api.CountHigh | fastapi/main.py:150 | the high-stock count is at most the number of records |
| Api.AvgGrowth | fastapi/main.py:151 | 0 with no records, otherwise the sum of the growths divided by their count |
| Api.AvgGrowthBetween | fastapi/main.py:151 | the average growth lies between any bounds of the individual growths (for no records, bounds around 0) |
| Api.ChooseInsight | fastapi/main.py:153-160 | tier by average growth: surge iff > 50, moderate iff in (20, 50], steady iff in (0, 20], decline iff ≤ 0 |
| Api.InsightMonotone | fastapi/main.py:153-160 | higher average growth never selects a lower tier |
| Api.PredictStock | fastapi/main.py:59-191 | check errors first, then try-block exceptions mapped to 400/500, else records, counts, average growth and insight as computed from the rows |
| Api.CountHighOfRecords | fastapi/main.py:150 | the high-stock count equals the number of flagged report rows |
| Api.HighBelowTotal | fastapi/main.py:150-172 | with a positive mean forecast fewer products are flagged than reported |
| Api.GrowthFollowsForecast | fastapi/main.py:145 | the shown growth is ≥ 0 when the forecast did not fall and ≤ 0 when it did not rise |
| Api.ValidateDataset | fastapi/main.py:194-240 | non-CSV is 400; a read failure is 500 "Error validating dataset: ..."; "valid" iff all required columns present; the report lists the missing required columns in required order, the table's columns, and its row and column counts |
| Client.RecordsOf | predictStoke/src/components/StockPredictionApp.jsx:32 | keeps exactly the records of the product; non-empty when the id occurs |
| Client.RecordsOfOrder | predictStoke/src/components/StockPredictionApp.jsx:32 | the product's records keep their order and multiplicity |
| Client.ResultFor | predictStoke/src/components/StockPredictionApp.jsx:33-41 | shown average and prediction are `Math.round` of the mean and of 1.2 × the mean; label "+20%" |
| Client.LocalPredict | predictStoke/src/components/StockPredictionApp.jsx:25-68 | "all": one result per distinct id, each summarising that id's records; otherwise empty id alerts "Please enter a Product ID", unknown id alerts "Product ID not found in data", a known id gives exactly the result over its records |
| Client.LocalPredictAll | predictStoke/src/components/StockPredictionApp.jsx:28-42 | "all" results follow first appearance of the ids |
| Client.PredictedNotBelowAverage | predictStoke/src/components/StockPredictionApp.jsx:33-39 | with non-negative sales the prediction is never below the shown average |
| Client.LocalPredictOnSalesData | predictStoke/src/components/StockPredictionApp.jsx:10-42 | on the embedded data: P101 110 → 132, P102 65 → 78 |
| Client.IncreaseLabelCanBeWrong | predictStoke/src/components/StockPredictionApp.jsx:34-40 | a single sale of 1 is shown as 1 → 1 labelled "+20%" |
| Client.FormFields | predictStoke/src/components/StockPredictionApp.jsx:83-87 | fields file, predictionType, month, productId in that order; `undefined` month becomes "undefined"; falsy product id becomes "" |
| Client.Lookup | predictStoke/src/components/StockPredictionApp.jsx:110 | a key is found iff the object has it, and its value is that of the last field with the key |
| Client.Property | predictStoke/src/components/StockPredictionApp.jsx:124 | reading `predictions` throws exactly on null; an object yields the lookup of the key; anything else yields `undefined` |
| Client.DebugRouteReply | predictStoke/src/components/StockPredictionApp.jsx:105-124 | the 404 reply to the `/api/debug` post holds no `predictions`, so the shown value becomes `undefined` |
| Client.StockPredictionApp.constructor | predictStoke/src/components/StockPredictionApp.jsx:4-8 | initial state: "all", "", "March 2026", no file, no predictions |
| Client.StockPredictionApp.HandleFileUpload | predictStoke/src/components/StockPredictionApp.jsx:17-22 | the first picked file is stored; an empty pick changes nothing |
| Client.StockPredictionApp.SelectPredictionType | predictStoke/src/components/StockPredictionApp.jsx:351-356 | stores the chosen type, nothing else changes |
| Client.StockPredictionApp.TypeProductId | predictStoke/src/components/StockPredictionApp.jsx:368 | the product id becomes `undefined` whatever was typed |
| Client.StockPredictionApp.SelectMonth | predictStoke/src/components/StockPredictionApp.jsx:380-388 | the month becomes `undefined` whatever was chosen |
| Client.StockPredictionApp.HandlePredict | predictStoke/src/components/StockPredictionApp.jsx:25-68 | stores the local results or shows the alert and keeps the old predictions; in any reachable state "specific" alerts |
| Client.StockPredictionApp.HandleSubmit | predictStoke/src/components/StockPredictionApp.jsx:70-131 | no file: alert, nothing sent; the "single" guard blocks only for type "single"; otherwise the form is sent, a throw or null body alerts and keeps predictions, else predictions = `data.predictions`; in reachable states a file always leads to a request with empty product id |
| Client.AsApiRequest | predictStoke/src/components/StockPredictionApp.jsx:83-87 | the server sees the file's name, the prediction type and the month text; the product id is absent exactly when the field is empty, and otherwise is the field's text |
| Client.OfferedMonthsParse | predictStoke/src/components/StockPredictionApp.jsx:384-388 | each offered label parses on the server to its month of 2026 |
| Client.PickedMonthIsRefused | predictStoke/src/components/StockPredictionApp.jsx:380 | the month text "undefined" would be rejected by the parser of `/api/predict-stock` |
| Client.SpecificSubmissionRefused | predictStoke/src/components/StockPredictionApp.jsx:87 | a "specific" form from a reachable state would fail the product-id check of `/api/predict-stock` |
| Backend.RowsOf | backend/main.py:49 | keeps exactly the rows of the product; empty iff the id does not occur |
| Backend.RowsOfOrder | backend/main.py:49 | the product's rows keep their order and multiplicity |
| Backend.PredictionFor | backend/main.py:51-58 | last-month and predicted figures are within 0.5 of the mean and of 1.2 × the mean, with exact halves going to the even integer; growth 20 |
| Backend.AllPredictions | backend/main.py:45-59 | one prediction per distinct id, over exactly that id's rows |
| Backend.PredictStock | backend/main.py:28-84 | missing column error first; "all" gives every product's prediction; otherwise empty id, unknown id, or one prediction; month echoed with the fixed insight |
| Backend.AllPredictionsOnePerProduct | backend/main.py:45-49 | every product occurs in "all", in first-appearance order |
| Backend.PredictedNotBelowLast | backend/main.py:51-56 | with non-negative quantities the prediction is never below the last-month figure |
| Backend.ReportedGrowthCanBeWrong | backend/main.py:52-58 | the fixed growth of 20 can sit beside 1 → 1, and an average of 2.5 is shown as 2 where the browser shows 3 |

## Left out

- Reading the upload and parsing CSV text, and pandas' date parsing (`format="mixed"`,
  `dayfirst`): rows arrive already parsed, with a date that is present or absent.
- The random forest, the train/test split and the metric formulas. Training is the `train`
  parameter. Only what the pipeline does with its result is modelled.
- Floating point. Quantities, means and percentages are exact reals. `Round2` is half-to-even
  on exact hundredths. On binary doubles, ties can round differently.
- NaN anywhere other than the lag features and the percent change, and pandas dtype coercion
  (numeric ids, string quantities). Product ids are strings throughout.
- Api.ParseMonthString: only ASCII case folding, ASCII white space and ASCII digits are
  modelled. `strptime`'s locale-dependent month names and Unicode digits are not.
- Api.PredictStock: the formatted insight text (`:.1f` and the emoji) is reduced to its tier and
  numbers. A missing upload filename is not modelled.
- HTTP transport, CORS, `uvicorn`, and the console prints in the API.
- The root and health endpoints in `fastapi/main.py`, the debug handler in `backend/main.py`,
  and the duplicate app definitions there. They only echo data.
- Api.ValidateDataset: the three-row `sample_data` preview is left out.
- Client: styles, markup and focus handlers are presentation. `alert` is an out-parameter,
  `fetch` is the `reply` parameter, and `console.log` is left out.
- Client.StockPredictionApp.HandleSubmit: the exchange is one atomic step. Handlers that run
  while the `fetch` is pending are not interleaved with it.
- Client: the component has no pagination, report export, loading flag or error panel, so
  none is modelled.
- Backend.PredictStock: a CSV that cannot be read raises out of the handler, which the
  framework turns into a 500; the model starts from the parsed upload.
- Backend.PredictStock: NaN quantities, and the error raised when a product's mean is NaN, are
  not modelled.
