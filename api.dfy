/** The request handling of fastapi/main.py: the month-label parser, the checks of
    the prediction endpoint and their HTTP errors, the mapping of exceptions raised
    inside its `try` block, the conversion of report rows into response records,
    the response counters and the insight tier, and the dataset validation endpoint.
    Reading the upload and the CSV is a parameter (`csv`), the trained model is the
    `train` parameter of the pipeline. */
module Api {
  import opened Common
  import MlModel

  // ---------------------------------------------------------------------------
  // parse_month_string: datetime.strptime(s, "%B %Y")

  const MonthNames: seq<string> := ["January", "February", "March", "April", "May", "June",
                                    "July", "August", "September", "October", "November", "December"]

  function LowerAscii(c: char): char
  {
    if 'A' <= c <= 'Z' then (c as int + 32) as char else c
  }

  /** `%B` matches month names without regard to case. */
  predicate SameIgnoringCase(a: string, b: string)
  {
    |a| == |b| && forall i :: 0 <= i < |a| ==> LowerAscii(a[i]) == LowerAscii(b[i])
  }

  /** The characters `\s` matches (the ASCII range of them). */
  predicate IsSpace(c: char)
  {
    c == ' ' || 9 <= c as int <= 13 || 28 <= c as int <= 31
  }

  predicate IsDigit(c: char)
  {
    '0' <= c <= '9'
  }

  predicate AllSpace(s: string)
  {
    forall i :: 0 <= i < |s| ==> IsSpace(s[i])
  }

  predicate AllDigits(s: string)
  {
    forall i :: 0 <= i < |s| ==> IsDigit(s[i])
  }

  function DigitsValue(s: string): nat
    requires AllDigits(s)
  {
    if s == [] then 0 else DigitsValue(s[..|s| - 1]) * 10 + (s[|s| - 1] as int - '0' as int)
  }

  /** The year a tail `\s+\d\d\d\d` denotes; `datetime` refuses year 0. */
  function YearOfTail(t: string): (r: Option<int>)
    ensures r.Some? ==> 1 <= r.value <= 9999
  {
    if |t| >= 5 && AllSpace(t[..|t| - 4]) && AllDigits(t[|t| - 4..]) && DigitsValue(t[|t| - 4..]) >= 1 then
      DigitsBound(t[|t| - 4..]);
      assert Pow10(4) == 10000;
      Some(DigitsValue(t[|t| - 4..]))
    else None
  }

  lemma {:induction false} DigitsBound(s: string)
    requires AllDigits(s)
    ensures DigitsValue(s) < Pow10(|s|)
  {
    if s != [] {
      DigitsBound(s[..|s| - 1]);
    }
  }

  function Pow10(n: nat): nat
  {
    if n == 0 then 1 else 10 * Pow10(n - 1)
  }

  /** s is the name of month m in any case, at least one white-space character, and
      four digits giving the year y (1..9999). */
  ghost predicate WellFormedLabel(s: string, y: int, m: int)
  {
    && 1 <= m <= 12
    && var name := MonthNames[m - 1];
       && |s| >= |name|
       && SameIgnoringCase(s[..|name|], name)
       && YearOfTail(s[|name|..]) == Some(y)
  }

  /** Tries the month names from m on. */
  function MatchFrom(s: string, m: nat): (r: Option<(int, int)>)
    requires 1 <= m
    ensures r.Some? ==> m <= r.value.1 && WellFormedLabel(s, r.value.0, r.value.1)
    decreases 13 - m
  {
    if m > 12 then None
    else
      var name := MonthNames[m - 1];
      if |name| <= |s| && SameIgnoringCase(s[..|name|], name) && YearOfTail(s[|name|..]).Some? then
        Some((YearOfTail(s[|name|..]).value, m))
      else MatchFrom(s, m + 1)
  }

  function InvalidMonthMessage(s: string): string
  {
    "Invalid month format: " + s + ". Expected format: 'March 2026'"
  }

  /** (year, month number) of a label such as "March 2026", or the message of the
      ValueError raised for anything else. */
  function ParseMonthString(s: string): (r: Result<(int, int), string>)
    ensures r.Ok? ==> WellFormedLabel(s, r.value.0, r.value.1)
    ensures r.Err? ==> r.error == InvalidMonthMessage(s)
  {
    match MatchFrom(s, 1)
    case Some(ym) => Ok(ym)
    case None => Err(InvalidMonthMessage(s))
  }

  /** The first three letters of every month name, lower-cased, are pairwise distinct. */
  function Abbreviation(m: int): string
    requires 1 <= m <= 12
  {
    var name := MonthNames[m - 1];
    [LowerAscii(name[0]), LowerAscii(name[1]), LowerAscii(name[2])]
  }

  lemma AbbreviationsDistinct(m1: int, m2: int)
    requires 1 <= m1 <= 12 && 1 <= m2 <= 12 && m1 != m2
    ensures Abbreviation(m1) != Abbreviation(m2)
  {
    assert Abbreviation(1) == "jan" && Abbreviation(2) == "feb" && Abbreviation(3) == "mar";
    assert Abbreviation(4) == "apr" && Abbreviation(5) == "may" && Abbreviation(6) == "jun";
    assert Abbreviation(7) == "jul" && Abbreviation(8) == "aug" && Abbreviation(9) == "sep";
    assert Abbreviation(10) == "oct" && Abbreviation(11) == "nov" && Abbreviation(12) == "dec";
  }

  /** A label that starts with month m's name does not start with another month's. */
  lemma OtherNameMismatch(s: string, y: int, m: int, other: int)
    requires WellFormedLabel(s, y, m) && 1 <= other <= 12 && other != m
    ensures var name := MonthNames[other - 1];
            !(|name| <= |s| && SameIgnoringCase(s[..|name|], name))
  {
    var own := MonthNames[m - 1];
    assert Abbreviation(m) == [LowerAscii(s[0]), LowerAscii(s[1]), LowerAscii(s[2])] by {
      assert s[..|own|][0] == s[0] && s[..|own|][1] == s[1] && s[..|own|][2] == s[2];
    }
    AbbreviationsDistinct(other, m);
  }

  /** A label matching month m is not taken for any earlier month name. */
  lemma {:induction false} MatchFromFinds(s: string, y: int, m: int, lo: nat)
    requires WellFormedLabel(s, y, m) && 1 <= lo <= m
    ensures MatchFrom(s, lo) == Some((y, m))
    decreases m - lo
  {
    if lo < m {
      OtherNameMismatch(s, y, m, lo);
      MatchFromFinds(s, y, m, lo + 1);
    }
  }

  /** Parsing succeeds exactly on well-formed labels, and then gives their year and
      month. */
  lemma ParseMonthStringExact(s: string, y: int, m: int)
    ensures ParseMonthString(s) == Ok((y, m)) <==> WellFormedLabel(s, y, m)
  {
    if WellFormedLabel(s, y, m) {
      MatchFromFinds(s, y, m, 1);
    }
  }

  /** The four-digit, zero-padded decimal form of a year. */
  function Year4(y: int): (r: string)
    requires 0 <= y <= 9999
    ensures |r| == 4 && AllDigits(r) && DigitsValue(r) == y
  {
    var r := [Digit(y / 1000), Digit(y / 100 % 10), Digit(y / 10 % 10), Digit(y % 10)];
    assert r[..1][..0] == [] && r[..2][..1] == r[..1] && r[..3][..2] == r[..2] && r[..|r| - 1] == r[..3];
    assert DigitsValue(r[..1]) == y / 1000;
    assert DigitsValue(r[..2]) == y / 100;
    assert DigitsValue(r[..3]) == y / 10;
    r
  }

  function Digit(d: int): char
    requires 0 <= d <= 9
  {
    ('0' as int + d) as char
  }

  /** Every "<Month> <YYYY>" label, such as "March 2026", parses to its year and month. */
  lemma ParseCanonicalLabel(m: int, y: int)
    requires 1 <= m <= 12 && 1 <= y <= 9999
    ensures ParseMonthString(MonthNames[m - 1] + " " + Year4(y)) == Ok((y, m))
  {
    var name := MonthNames[m - 1];
    var s := name + " " + Year4(y);
    assert s[..|name|] == name;
    assert s[|name|..] == " " + Year4(y);
    assert s[|name|..][1..] == Year4(y);
    ParseMonthStringExact(s, y, m);
  }

  // ---------------------------------------------------------------------------
  // predict_stock: checks before the try block

  datatype HttpError = HttpError(status: int, detail: string)

  /** The form fields of a prediction request; `productId` is None when absent. */
  datatype Request = Request(filename: string, predictionType: string, month: string, productId: Option<string>)

  predicate EndsWith(s: string, suffix: string)
  {
    |s| >= |suffix| && s[|s| - |suffix|..] == suffix
  }

  const NotCsv := HttpError(400, "File must be a CSV file")
  const BadPredictionType := HttpError(400, "predictionType must be 'all' or 'specific'")
  const ProductIdRequired := HttpError(400, "productId is required when predictionType is 'specific'")

  /** The three checks, in order; the first that fails decides the error. */
  function CheckRequest(req: Request): (r: Option<HttpError>)
    ensures r.Some? ==> r.value.status == 400
  {
    if !EndsWith(req.filename, ".csv") then Some(NotCsv)
    else if req.predictionType != "all" && req.predictionType != "specific" then Some(BadPredictionType)
    else if req.predictionType == "specific" && Falsy(req.productId) then Some(ProductIdRequired)
    else None
  }

  /** Each error is reported only when every earlier check passed, and a request
      passes exactly when it names a CSV file, a known type, and for "specific" a
      product id. */
  lemma CheckRequestOrder(req: Request)
    ensures CheckRequest(req) == Some(NotCsv) <==> !EndsWith(req.filename, ".csv")
    ensures CheckRequest(req) == Some(BadPredictionType) <==>
              EndsWith(req.filename, ".csv") && req.predictionType !in {"all", "specific"}
    ensures CheckRequest(req) == Some(ProductIdRequired) <==>
              EndsWith(req.filename, ".csv") && req.predictionType == "specific" && Falsy(req.productId)
    ensures CheckRequest(req).None? <==>
              EndsWith(req.filename, ".csv") && req.predictionType in {"all", "specific"} &&
              (req.predictionType == "specific" ==> !Falsy(req.productId))
  {
  }

  // ---------------------------------------------------------------------------
  // predict_stock: the try block and its exception handlers

  /** Exceptions raised inside the `try`: ValueErrors (also those of pandas' CSV
      reader), the 404 HTTPException, and any other exception. */
  datatype Exception =
    | ValueError(message: string)
    | NotFound(detail: string)
    | OtherException(message: string)

  /** `str(e)`; Starlette renders an HTTPException as "<status>: <detail>". */
  function ExceptionText(e: Exception): string
  {
    match e
    case ValueError(message) => message
    case NotFound(detail) => "404: " + detail
    case OtherException(message) => message
  }

  /** `except ValueError` gives 400, `except Exception` gives 500, and the latter
      also catches the 404 raised inside the `try`. */
  function ToHttpError(e: Exception): (r: HttpError)
    ensures r.status == 400 <==> e.ValueError?
    ensures r.status == 500 <==> !e.ValueError?
  {
    match e
    case ValueError(message) => HttpError(400, "Data validation error: " + message)
    case _ => HttpError(500, "Internal server error: " + ExceptionText(e))
  }

  function PyStr(x: Option<string>): string
  {
    if x.Some? then x.value else "None"
  }

  function NotFoundDetail(productId: Option<string>): string
  {
    "Product ID '" + PyStr(productId) + "' not found in the dataset"
  }

  /** `stock_report[stock_report["product_id"].astype(str) == str(productId)]` */
  function RowsOfProduct(report: seq<MlModel.ReportRow>, productId: Option<string>): (r: seq<MlModel.ReportRow>)
    ensures forall x :: x in r <==> x in report && x.productId == PyStr(productId)
  {
    Filter(report, HasProductId(productId))
  }

  function HasProductId(productId: Option<string>): MlModel.ReportRow -> bool
  {
    (x: MlModel.ReportRow) => x.productId == PyStr(productId)
  }

  /** The kept rows are in report order, each as often as in the report. */
  lemma RowsOfProductOrder(report: seq<MlModel.ReportRow>, productId: Option<string>)
    ensures IsSubsequence(RowsOfProduct(report, productId), report)
    ensures forall x :: multiset(RowsOfProduct(report, productId))[x] ==
                        if x.productId == PyStr(productId) then multiset(report)[x] else 0
  {
    FilterOrder(report, HasProductId(productId));
    FilterCount(report, HasProductId(productId));
  }

  datatype TryOutcome = TryOutcome(rows: seq<MlModel.ReportRow>, metrics: MlModel.Metrics, year: int, month: int)

  /** The `try` block up to the product filter: parse the month, read the CSV, run
      the pipeline on all products, then keep the requested product's rows. */
  function TryBlock(req: Request, csv: Result<MlModel.Table, Exception>,
                    train: seq<MlModel.TrainingRow> -> MlModel.Trained): (r: Result<TryOutcome, Exception>)
    ensures ParseMonthString(req.month).Err? ==> r == Err(ValueError(InvalidMonthMessage(req.month)))
    ensures ParseMonthString(req.month).Ok? && csv.Err? ==> r == Err(csv.error)
    ensures r.Ok? ==> csv.Ok? && ParseMonthString(req.month) == Ok((r.value.year, r.value.month))
  {
    match ParseMonthString(req.month)
    case Err(message) => Err(ValueError(message))
    case Ok(ym) =>
      match csv
      case Err(e) => Err(e)
      case Ok(table) =>
        match MlModel.PredictSalesPipeline(table, ym.0, ym.1, train)
        case Err(pe) => Err(ValueError(MlModel.ErrorMessage(pe)))
        case Ok(out) => SelectRows(req, out, ym.0, ym.1)
  }

  /** The end of the `try` block: a "specific" request keeps its product's rows and
      raises the 404 when there are none. */
  function SelectRows(req: Request, out: MlModel.PipelineOutput, year: int, month: int): (r: Result<TryOutcome, Exception>)
    ensures req.predictionType != "specific" ==> r == Ok(TryOutcome(out.report, out.metrics, year, month))
    ensures r.Ok? ==> r.value.metrics == out.metrics && r.value.year == year && r.value.month == month
    ensures req.predictionType == "specific" && r.Ok? ==>
              && r.value.rows != []
              && forall x :: x in r.value.rows <==> x in out.report && x.productId == PyStr(req.productId)
    ensures req.predictionType == "specific" && r.Ok? ==>
              r.value.rows == RowsOfProduct(out.report, req.productId)
    ensures req.predictionType == "specific" && r.Err? ==>
              && r.error == NotFound(NotFoundDetail(req.productId))
              && forall i :: 0 <= i < |out.report| ==> out.report[i].productId != PyStr(req.productId)
  {
    if req.predictionType == "specific" then
      var rows := RowsOfProduct(out.report, req.productId);
      if rows == [] then Err(NotFound(NotFoundDetail(req.productId)))
      else Ok(TryOutcome(rows, out.metrics, year, month))
    else Ok(TryOutcome(out.report, out.metrics, year, month))
  }

  /** A month label that does not parse is answered with 400 and the parser's message. */
  lemma BadMonthIs400(req: Request, csv: Result<MlModel.Table, Exception>,
                      train: seq<MlModel.TrainingRow> -> MlModel.Trained)
    requires ParseMonthString(req.month).Err?
    ensures TryBlock(req, csv, train).Err?
    ensures ToHttpError(TryBlock(req, csv, train).error) ==
              HttpError(400, "Data validation error: " + InvalidMonthMessage(req.month))
  {
  }

  /** A pipeline ValueError (missing columns, no dated rows, failed training) is
      answered with 400 and the error's text. */
  lemma PipelineErrorIs400(req: Request, table: MlModel.Table, train: seq<MlModel.TrainingRow> -> MlModel.Trained)
    requires ParseMonthString(req.month).Ok?
    requires var ym := ParseMonthString(req.month).value;
             MlModel.PredictSalesPipeline(table, ym.0, ym.1, train).Err?
    ensures TryBlock(req, Ok(table), train).Err?
    ensures var ym := ParseMonthString(req.month).value;
            ToHttpError(TryBlock(req, Ok(table), train).error) ==
              HttpError(400, "Data validation error: " +
                             MlModel.ErrorMessage(MlModel.PredictSalesPipeline(table, ym.0, ym.1, train).error))
  {
  }

  /** An unknown product id is not answered with 404: the HTTPException is raised
      inside the `try`, caught by `except Exception`, and becomes a 500. */
  lemma UnknownProductIs500(req: Request, out: MlModel.PipelineOutput, year: int, month: int)
    requires req.predictionType == "specific"
    requires forall i :: 0 <= i < |out.report| ==> out.report[i].productId != PyStr(req.productId)
    ensures SelectRows(req, out, year, month).Err?
    ensures ToHttpError(SelectRows(req, out, year, month).error) ==
              HttpError(500, "Internal server error: 404: " + NotFoundDetail(req.productId))
  {
    var d := NotFoundDetail(req.productId);
    assert SelectRows(req, out, year, month).error == NotFound(d);
    assert "Internal server error: " + ("404: " + d) == "Internal server error: 404: " + d;
  }

  /** A "specific" request keeps exactly the rows of the full report with the
      requested id, in report order and each once, so their stock status was decided
      against all products. */
  lemma SpecificKeepsRowsOfFullReport(req: Request, table: MlModel.Table, train: seq<MlModel.TrainingRow> -> MlModel.Trained)
    requires req.predictionType == "specific"
    requires TryBlock(req, Ok(table), train).Ok?
    ensures var ym := ParseMonthString(req.month).value;
            var out := MlModel.PredictSalesPipeline(table, ym.0, ym.1, train);
            && out.Ok?
            && TryBlock(req, Ok(table), train).value.rows == RowsOfProduct(out.value.report, req.productId)
            && forall x :: x in TryBlock(req, Ok(table), train).value.rows <==>
                             x in out.value.report && x.productId == PyStr(req.productId)
  {
  }

  /** An "all" request that gets through the `try` block carries the pipeline's whole
      report and its metrics, for the parsed year and month. */
  lemma AllKeepsFullReport(req: Request, table: MlModel.Table, train: seq<MlModel.TrainingRow> -> MlModel.Trained)
    requires req.predictionType != "specific"
    requires ParseMonthString(req.month).Ok?
    requires var ym := ParseMonthString(req.month).value;
             MlModel.PredictSalesPipeline(table, ym.0, ym.1, train).Ok?
    ensures var ym := ParseMonthString(req.month).value;
            var out := MlModel.PredictSalesPipeline(table, ym.0, ym.1, train).value;
            TryBlock(req, Ok(table), train) == Ok(TryOutcome(out.report, out.metrics, ym.0, ym.1))
  {
  }

  // ---------------------------------------------------------------------------
  // predict_stock: response records, counters and insight

  const HighStockText := "HIGH STOCK REQUIRED"

  datatype PredictionRecord = PredictionRecord(productId: string, productCategory: string, lastMonthSales: real,
                                               predictedSales: real, growthPercentage: real, stockStatus: string)

  /** One record per report row; a missing percent change becomes growth 0. */
  function ToRecord(row: MlModel.ReportRow): (r: PredictionRecord)
    ensures r.productId == row.productId && r.productCategory == row.category
    ensures r.lastMonthSales == Round2(row.previous) && r.predictedSales == Round2(row.predicted)
    ensures row.changePct.Some? ==> r.growthPercentage == Round2(row.changePct.value)
    ensures row.changePct.None? ==> r.growthPercentage == 0.0
    ensures r.stockStatus == HighStockText <==> row.status == MlModel.HighStockRequired
  {
    PredictionRecord(row.productId, row.category, Round2(row.previous), Round2(row.predicted),
                     if row.changePct.Some? then Round2(row.changePct.value) else 0.0,
                     MlModel.StatusText(row.status))
  }

  /** One record per report row, in report order, for the same product and category,
      with the three figures rounded to two places (growth 0 where there is no percent
      change), flagged HIGH STOCK REQUIRED exactly when the row is. */
  function Records(rows: seq<MlModel.ReportRow>): (r: seq<PredictionRecord>)
    ensures |r| == |rows|
    ensures forall i :: 0 <= i < |rows| ==>
              && r[i].productId == rows[i].productId && r[i].productCategory == rows[i].category
              && (r[i].stockStatus == HighStockText <==> rows[i].status == MlModel.HighStockRequired)
    ensures forall i :: 0 <= i < |rows| ==>
              && r[i].lastMonthSales == Round2(rows[i].previous)
              && r[i].predictedSales == Round2(rows[i].predicted)
              && r[i].growthPercentage ==
                   (if rows[i].changePct.Some? then Round2(rows[i].changePct.value) else 0.0)
  {
    seq(|rows|, i requires 0 <= i < |rows| => ToRecord(rows[i]))
  }

  /** The loop that appends one record per row of the report, in report order. */
  method BuildPredictions(rows: seq<MlModel.ReportRow>) returns (predictions: seq<PredictionRecord>)
    ensures predictions == Records(rows)
  {
    predictions := [];
    var i := 0;
    while i < |rows|
      invariant 0 <= i <= |rows|
      invariant predictions == Records(rows[..i])
    {
      assert Records(rows[..i + 1]) == Records(rows[..i]) + [ToRecord(rows[i])];
      predictions := predictions + [ToRecord(rows[i])];
      i := i + 1;
    }
    assert rows[..i] == rows;
  }

  /** Number of records whose status is HIGH STOCK REQUIRED. */
  function CountHigh(preds: seq<PredictionRecord>): (n: nat)
    ensures n <= |preds|
  {
    if preds == [] then 0
    else CountHigh(preds[..|preds| - 1]) + (if preds[|preds| - 1].stockStatus == HighStockText then 1 else 0)
  }

  function Growths(preds: seq<PredictionRecord>): (xs: seq<real>)
    ensures |xs| == |preds| && forall i :: 0 <= i < |preds| ==> xs[i] == preds[i].growthPercentage
  {
    seq(|preds|, i requires 0 <= i < |preds| => preds[i].growthPercentage)
  }

  /** Mean growth, 0 when there are no records. */
  function AvgGrowth(preds: seq<PredictionRecord>): (r: real)
    ensures preds == [] ==> r == 0.0
    ensures |preds| as real * r == Sum(Growths(preds))
  {
    if preds == [] then 0.0 else Mean(Growths(preds))
  }

  lemma AvgGrowthBetween(preds: seq<PredictionRecord>, lo: real, hi: real)
    requires preds == [] ==> lo <= 0.0 <= hi
    requires forall i :: 0 <= i < |preds| ==> lo <= preds[i].growthPercentage <= hi
    ensures lo <= AvgGrowth(preds) <= hi
  {
    if preds != [] {
      MeanBetween(Growths(preds), lo, hi);
    }
  }

  datatype Insight =
    | DemandSurge(avgGrowth: real, highCount: nat)
    | ModerateGrowth(avgGrowth: real, highCount: nat)
    | SteadyDemand(highCount: nat)
    | SalesDecline(avgGrowth: real)

  function ChooseInsight(avgGrowth: real, highCount: nat): (r: Insight)
    ensures r.DemandSurge? <==> avgGrowth > 50.0
    ensures r.ModerateGrowth? <==> 20.0 < avgGrowth <= 50.0
    ensures r.SteadyDemand? <==> 0.0 < avgGrowth <= 20.0
    ensures r.SalesDecline? <==> avgGrowth <= 0.0
  {
    if avgGrowth > 50.0 then DemandSurge(avgGrowth, highCount)
    else if avgGrowth > 20.0 then ModerateGrowth(avgGrowth, highCount)
    else if avgGrowth > 0.0 then SteadyDemand(highCount)
    else SalesDecline(avgGrowth)
  }

  function Tier(i: Insight): nat
  {
    match i
    case SalesDecline(_) => 0
    case SteadyDemand(_) => 1
    case ModerateGrowth(_, _) => 2
    case DemandSurge(_, _) => 3
  }

  /** Higher average growth never selects a lower tier. */
  lemma InsightMonotone(a: real, b: real, highCount: nat)
    requires a <= b
    ensures Tier(ChooseInsight(a, highCount)) <= Tier(ChooseInsight(b, highCount))
  {
  }

  datatype Metadata = Metadata(targetMonth: string, targetYear: int, targetMonthNumber: int,
                               totalProducts: nat, highStockRequired: nat, averageGrowth: real,
                               modelMetrics: MlModel.Metrics)

  datatype Response = Response(status: string, predictions: seq<PredictionRecord>, insight: Insight, metadata: Metadata)

  /** The prediction endpoint: the checks, then the `try` block with its exception
      mapping, then the records, counters and insight of the response. */
  method PredictStock(req: Request, csv: Result<MlModel.Table, Exception>,
                      train: seq<MlModel.TrainingRow> -> MlModel.Trained)
    returns (r: Result<Response, HttpError>)
    ensures CheckRequest(req).Some? ==> r == Err(CheckRequest(req).value)
    ensures CheckRequest(req).None? && TryBlock(req, csv, train).Err? ==>
              r == Err(ToHttpError(TryBlock(req, csv, train).error))
    ensures CheckRequest(req).None? && TryBlock(req, csv, train).Ok? ==>
              var out := TryBlock(req, csv, train).value;
              && r.Ok?
              && r.value.status == "success"
              && r.value.predictions == Records(out.rows)
              && r.value.metadata.totalProducts == |r.value.predictions|
              && r.value.metadata.highStockRequired == CountHigh(r.value.predictions)
              && r.value.metadata.averageGrowth == Round2(AvgGrowth(r.value.predictions))
              && r.value.insight == ChooseInsight(AvgGrowth(r.value.predictions), CountHigh(r.value.predictions))
              && r.value.metadata.targetMonth == req.month
              && r.value.metadata.targetYear == out.year && r.value.metadata.targetMonthNumber == out.month
              && r.value.metadata.modelMetrics == out.metrics
  {
    var check := CheckRequest(req);
    if check.Some? {
      return Err(check.value);
    }
    var attempt := TryBlock(req, csv, train);
    if attempt.Err? {
      return Err(ToHttpError(attempt.error));
    }
    var out := attempt.value;
    var predictions := BuildPredictions(out.rows);
    var highStockCount := CountHigh(predictions);
    var avgGrowth := AvgGrowth(predictions);
    var insight := ChooseInsight(avgGrowth, highStockCount);
    var metadata := Metadata(req.month, out.year, out.month, |predictions|, highStockCount,
                             Round2(avgGrowth), out.metrics);
    r := Ok(Response("success", predictions, insight, metadata));
  }

  /** The high-stock counter counts the report rows the pipeline flagged. */
  lemma {:induction false} CountHighOfRecords(rows: seq<MlModel.ReportRow>)
    ensures CountHigh(Records(rows)) == |Filter(rows, (x: MlModel.ReportRow) => x.status == MlModel.HighStockRequired)|
  {
    if rows != [] {
      var n := |rows| - 1;
      assert Records(rows)[..n] == Records(rows[..n]);
      CountHighOfRecords(rows[..n]);
    }
  }

  /** For an "all" request with a positive mean forecast, fewer products are flagged
      HIGH STOCK REQUIRED than are reported. */
  lemma HighBelowTotal(preds: seq<MlModel.PredRow>)
    requires preds != [] && Mean(MlModel.PredictedSales(preds)) > 0.0
    ensures CountHigh(Records(MlModel.GenerateStockReport(preds))) < |preds|
  {
    var rows := MlModel.GenerateStockReport(preds);
    MlModel.SomeProductNormal(preds);
    var i :| 0 <= i < |preds| && rows[i].status == MlModel.NormalStock;
    CountHighMissesNormal(Records(rows), i);
  }

  lemma {:induction false} CountHighMissesNormal(preds: seq<PredictionRecord>, i: nat)
    requires i < |preds| && preds[i].stockStatus != HighStockText
    ensures CountHigh(preds) < |preds|
  {
    var n := |preds| - 1;
    if i < n {
      assert preds[..n][i] == preds[i];
      CountHighMissesNormal(preds[..n], i);
    }
  }

  /** The growth shown for a product has the sign of its forecast change: never
      negative when the forecast is not below last month, never positive when it
      is not above. */
  lemma GrowthFollowsForecast(preds: seq<MlModel.PredRow>, i: nat)
    requires i < |preds|
    ensures var g := ToRecord(MlModel.GenerateStockReport(preds)[i]).growthPercentage;
            && (preds[i].predicted >= preds[i].previous ==> g >= 0.0)
            && (preds[i].predicted <= preds[i].previous ==> g <= 0.0)
  {
    var p := preds[i];
    var c := MlModel.ChangePct(p.previous, p.predicted);
    if c.Some? {
      var v := c.value;
      if v >= 0.0 {
        Round2Monotone(0.0, v);
        Round2Monotone(0.0, Round2(v));
      } else {
        Round2Monotone(v, 0.0);
        Round2Monotone(Round2(v), 0.0);
      }
    }
  }

  // ---------------------------------------------------------------------------
  // validate_dataset

  datatype DatasetReport = DatasetReport(status: string, availableColumns: seq<string>, requiredColumns: seq<string>,
                                         missingColumns: seq<string>, rows: nat, columns: nat)

  /** The dataset check: a CSV name is required, a failure to read the file is a
      500, and the file is "valid" exactly when no required column is missing. */
  function ValidateDataset(filename: string, csv: Result<MlModel.Table, Exception>): (r: Result<DatasetReport, HttpError>)
    ensures !EndsWith(filename, ".csv") ==> r == Err(NotCsv)
    ensures EndsWith(filename, ".csv") && csv.Err? ==>
              r == Err(HttpError(500, "Error validating dataset: " + ExceptionText(csv.error)))
    ensures r.Ok? ==> (csv.Ok? &&
              (r.value.status == "valid" <==> forall c :: c in MlModel.RequiredColumns ==> c in csv.value.columns))
    ensures r.Ok? ==> forall c :: c in r.value.missingColumns <==>
                                  c in MlModel.RequiredColumns && c !in csv.value.columns
    ensures r.Ok? ==> && r.value.missingColumns == MlModel.MissingColumns(csv.value.columns)
                      && r.value.availableColumns == csv.value.columns
                      && r.value.requiredColumns == MlModel.RequiredColumns
                      && r.value.rows == |csv.value.rows| && r.value.columns == |csv.value.columns|
  {
    if !EndsWith(filename, ".csv") then Err(NotCsv)
    else
      match csv
      case Err(e) => Err(HttpError(500, "Error validating dataset: " + ExceptionText(e)))
      case Ok(t) =>
        var missing := MlModel.MissingColumns(t.columns);
        Ok(DatasetReport(if missing == [] then "valid" else "invalid", t.columns, MlModel.RequiredColumns,
                         missing, |t.rows|, |t.columns|))
  }
}
