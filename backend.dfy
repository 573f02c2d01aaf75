/** The first `predict_stock` handler of backend/main.py: the required-column check,
    one "average x 1.2" prediction per product (or for the requested product), and
    the error dictionaries it returns instead of raising. Reading the CSV is left
    to the caller, which passes the parsed upload. */
module Backend {
  import opened Common

  datatype Row = Row(productId: string, quantity: real)

  /** The parsed upload: its column names and its rows. */
  datatype Upload = Upload(columns: seq<string>, rows: seq<Row>)

  datatype Prediction = Prediction(productId: string, lastMonthSales: int, predictedSales: int, growthPercentage: int)

  datatype Reply =
    | ErrorReply(error: string)
    | Success(month: string, predictions: seq<Prediction>, insight: string)

  const RequiredColumns: set<string> := {"productId", "transaction_date", "quantity"}

  const ColumnsError := "CSV must contain productId, transaction_date, quantity columns"
  const ProductIdMissing := "productId is required for single prediction"
  const ProductNotFound := "Product ID not found"
  const Insight := "Demand is increasing. Maintain 20% extra stock."

  function Quantities(rows: seq<Row>): (xs: seq<real>)
    ensures |xs| == |rows| && forall i :: 0 <= i < |rows| ==> xs[i] == rows[i].quantity
  {
    seq(|rows|, i requires 0 <= i < |rows| => rows[i].quantity)
  }

  /** The `product_id` column of the uploaded table (a row type of this module
      only; `MlModel` projects its feature rows the same way). */
  function ProductIds(rows: seq<Row>): (ids: seq<string>)
    ensures |ids| == |rows| && forall i :: 0 <= i < |rows| ==> ids[i] == rows[i].productId
  {
    seq(|rows|, i requires 0 <= i < |rows| => rows[i].productId)
  }

  function HasId(pid: string): Row -> bool
  {
    (x: Row) => x.productId == pid
  }

  /** `df[df["productId"] == pid]` */
  function RowsOf(rows: seq<Row>, pid: string): (r: seq<Row>)
    ensures forall x :: x in r <==> x in rows && x.productId == pid
    ensures r == [] <==> pid !in ProductIds(rows)
  {
    var r := Filter(rows, HasId(pid));
    assert forall i :: 0 <= i < |rows| && rows[i].productId == pid ==> rows[i] in r;
    r
  }

  /** The product's rows keep their order in the upload, each as often as there. */
  lemma RowsOfOrder(rows: seq<Row>, pid: string)
    ensures IsSubsequence(RowsOf(rows, pid), rows)
    ensures forall x :: multiset(RowsOf(rows, pid))[x] == if x.productId == pid then multiset(rows)[x] else 0
  {
    FilterOrder(rows, HasId(pid));
    FilterCount(rows, HasId(pid));
  }

  /** Both figures are rounded half to even, as Python's `round`; the growth is
      always reported as 20. */
  function PredictionFor(pid: string, rows: seq<Row>): (p: Prediction)
    requires rows != []
    ensures p.productId == pid && p.growthPercentage == 20
    ensures var avg := Mean(Quantities(rows));
            && -0.5 <= avg - p.lastMonthSales as real <= 0.5
            && -0.5 <= 1.2 * avg - p.predictedSales as real <= 0.5
            && (avg - p.lastMonthSales as real == 0.5 || avg - p.lastMonthSales as real == -0.5 ==>
                  p.lastMonthSales % 2 == 0)
            && (1.2 * avg - p.predictedSales as real == 0.5 || 1.2 * avg - p.predictedSales as real == -0.5 ==>
                  p.predictedSales % 2 == 0)
  {
    var avg := Mean(Quantities(rows));
    Prediction(pid, HalfEven(avg), HalfEven(avg * 1.2), 20)
  }

  /** The predictions of an "all" request: one per distinct product id, in order of
      first appearance, each over exactly that product's rows. */
  function AllPredictions(rows: seq<Row>): (ps: seq<Prediction>)
    ensures |ps| == |Distinct(ProductIds(rows))|
    ensures forall k :: 0 <= k < |ps| ==>
              var pid := Distinct(ProductIds(rows))[k];
              ps[k] == PredictionFor(pid, RowsOf(rows, pid))
  {
    var ids := Distinct(ProductIds(rows));
    seq(|ids|, k requires 0 <= k < |ids| => PredictionFor(ids[k], RowsOf(rows, ids[k])))
  }

  /** The handler: the column check, then the "all" loop or the single-product
      branch with its two error replies. */
  method PredictStock(upload: Upload, predictionType: string, month: string, productId: Option<string>)
    returns (reply: Reply)
    ensures !(RequiredColumns <= set c | c in upload.columns) ==> reply == ErrorReply(ColumnsError)
    ensures RequiredColumns <= (set c | c in upload.columns) && predictionType == "all" ==>
              reply == Success(month, AllPredictions(upload.rows), Insight)
    ensures RequiredColumns <= (set c | c in upload.columns) && predictionType != "all" ==>
              && (productId.None? || productId.value == "" ==> reply == ErrorReply(ProductIdMissing))
              && (productId.Some? && productId.value != "" && productId.value !in ProductIds(upload.rows) ==>
                    reply == ErrorReply(ProductNotFound))
              && (productId.Some? && productId.value in ProductIds(upload.rows) && productId.value != "" ==>
                    reply == Success(month, [PredictionFor(productId.value, RowsOf(upload.rows, productId.value))], Insight))
  {
    if !(RequiredColumns <= set c | c in upload.columns) {
      return ErrorReply(ColumnsError);
    }
    var predictions: seq<Prediction> := [];
    if predictionType == "all" {
      var ids := Distinct(ProductIds(upload.rows));
      var k := 0;
      while k < |ids|
        invariant 0 <= k <= |ids|
        invariant predictions == AllPredictions(upload.rows)[..k]
      {
        var pid := ids[k];
        var productData := RowsOf(upload.rows, pid);
        predictions := predictions + [PredictionFor(pid, productData)];
        k := k + 1;
      }
      assert AllPredictions(upload.rows)[..k] == AllPredictions(upload.rows);
    } else {
      if productId.None? || productId.value == "" {
        return ErrorReply(ProductIdMissing);
      }
      var productData := RowsOf(upload.rows, productId.value);
      if productData == [] {
        return ErrorReply(ProductNotFound);
      }
      predictions := [PredictionFor(productId.value, productData)];
    }
    reply := Success(month, predictions, Insight);
  }

  /** "all" lists every product once, in order of first appearance. */
  lemma AllPredictionsOnePerProduct(rows: seq<Row>)
    ensures forall pid :: pid in ProductIds(rows) <==>
              exists k :: 0 <= k < |AllPredictions(rows)| && AllPredictions(rows)[k].productId == pid
    ensures forall j, k :: 0 <= j < k < |AllPredictions(rows)| ==>
              FirstIndex(ProductIds(rows), AllPredictions(rows)[j].productId) <
              FirstIndex(ProductIds(rows), AllPredictions(rows)[k].productId)
  {
    var ids := Distinct(ProductIds(rows));
    var ps := AllPredictions(rows);
    forall pid | pid in ProductIds(rows)
      ensures exists k :: 0 <= k < |ps| && ps[k].productId == pid
    {
      var k :| 0 <= k < |ids| && ids[k] == pid;
      assert ps[k].productId == pid;
    }
    forall j, k | 0 <= j < k < |ps|
      ensures FirstIndex(ProductIds(rows), ps[j].productId) < FirstIndex(ProductIds(rows), ps[k].productId)
    {
      DistinctFirstAppearance(ProductIds(rows), j, k);
    }
  }

  /** With non-negative quantities the prediction is never below the last-month
      figure. */
  lemma PredictedNotBelowLast(pid: string, rows: seq<Row>)
    requires rows != [] && forall i :: 0 <= i < |rows| ==> rows[i].quantity >= 0.0
    ensures PredictionFor(pid, rows).lastMonthSales <= PredictionFor(pid, rows).predictedSales
  {
    var xs := Quantities(rows);
    MeanAtLeast(xs, 0.0);
    HalfEvenMonotone(Mean(xs), Mean(xs) * 1.2);
  }

  /** The reported growth of 20 need not match the figures: a single sale of 1
      gives 1 -> 1, and half-to-even rounding shows an average of 2.5 as 2 where the
      browser's `Math.round` shows 3. */
  lemma ReportedGrowthCanBeWrong()
    ensures PredictionFor("P1", [Row("P1", 1.0)]) == Prediction("P1", 1, 1, 20)
    ensures PredictionFor("P1", [Row("P1", 2.0), Row("P1", 3.0)]).lastMonthSales == 2
    ensures JsRound(2.5) == 3
  {
    var one := Quantities([Row("P1", 1.0)]);
    assert one == [1.0] && one[..0] == [];
    var two := Quantities([Row("P1", 2.0), Row("P1", 3.0)]);
    assert two[..1][..0] == [] && two[..1] == [2.0] && Sum(two[..1]) == 2.0;
    assert Sum(two) == 5.0;
  }
}
