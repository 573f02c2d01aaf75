/** The browser component predictStoke/src/components/StockPredictionApp.jsx: its
    state, the file, type, product and month handlers, the local "average x 1.2"
    predictor, and the submit handler that posts the form and stores the reply's
    `predictions`. The network exchange is a parameter of the submit handler, and
    an alert is returned as an out-parameter. */
module Client {
  import opened Common
  import Api

  /** A File object picked in the upload input. */
  datatype FileRef = FileRef(name: string)

  /** The parts of a JSON reply the component can meet. */
  datatype Json =
    | JNull
    | JBool(b: bool)
    | JNum(n: real)
    | JStr(s: string)
    | JArray(items: seq<Json>)
    | JObject(fields: seq<(string, Json)>)

  /** The value shown as predictions: `null` before any prediction, a local result
      list, or whatever `data.predictions` held (None for `undefined`). */
  datatype Shown =
    | NotYet
    | Local(results: seq<LocalResult>)
    | Received(value: Option<Json>)

  datatype SaleRecord = SaleRecord(productId: string, month: string, sales: int)

  datatype LocalResult = LocalResult(productId: string, currentAvg: int, predicted: int, increase: string)

  /** The four sales records embedded in the component. */
  const SalesData: seq<SaleRecord> := [
    SaleRecord("P101", "Jan", 100), SaleRecord("P101", "Feb", 120),
    SaleRecord("P102", "Jan", 60), SaleRecord("P102", "Feb", 70)
  ]

  /** The labels offered by the month selector. */
  const MonthOptions: seq<string> := ["March 2026", "April 2026", "May 2026", "June 2026", "July 2026"]

  // ---------------------------------------------------------------------------
  // handlePredict: the local predictor

  function SalesOf(rows: seq<SaleRecord>): (xs: seq<real>)
    ensures |xs| == |rows| && forall i :: 0 <= i < |rows| ==> xs[i] == rows[i].sales as real
  {
    seq(|rows|, i requires 0 <= i < |rows| => rows[i].sales as real)
  }

  /** The `productId` field of each sample record, in order (the records are this
      component's own type, not a server table). */
  function IdsOf(rows: seq<SaleRecord>): (ids: seq<string>)
    ensures |ids| == |rows| && forall i :: 0 <= i < |rows| ==> ids[i] == rows[i].productId
  {
    seq(|rows|, i requires 0 <= i < |rows| => rows[i].productId)
  }

  function HasId(pid: string): SaleRecord -> bool
  {
    (x: SaleRecord) => x.productId == pid
  }

  /** `salesData.filter(item => item.productId === pid)` */
  function RecordsOf(sales: seq<SaleRecord>, pid: string): (r: seq<SaleRecord>)
    ensures forall x :: x in r <==> x in sales && x.productId == pid
    ensures pid in IdsOf(sales) ==> r != []
  {
    var r := Filter(sales, HasId(pid));
    assert forall i :: 0 <= i < |sales| && sales[i].productId == pid ==> sales[i] in r;
    r
  }

  /** The product's records keep their order in the data, each as often as there. */
  lemma RecordsOfOrder(sales: seq<SaleRecord>, pid: string)
    ensures IsSubsequence(RecordsOf(sales, pid), sales)
    ensures forall x :: multiset(RecordsOf(sales, pid))[x] == if x.productId == pid then multiset(sales)[x] else 0
  {
    FilterOrder(sales, HasId(pid));
    FilterCount(sales, HasId(pid));
  }

  /** The average of the records' sales, shown rounded, and that average times 1.2,
      rounded; the growth label is always "+20%". */
  function ResultFor(pid: string, rows: seq<SaleRecord>): (r: LocalResult)
    requires rows != []
    ensures r.productId == pid && r.increase == "+20%"
    ensures var avg := Mean(SalesOf(rows));
            && avg - 0.5 < r.currentAvg as real <= avg + 0.5
            && 1.2 * avg - 0.5 < r.predicted as real <= 1.2 * avg + 0.5
  {
    var avg := Mean(SalesOf(rows));
    LocalResult(pid, JsRound(avg), JsRound(avg * 1.2), "+20%")
  }

  /** The results `handlePredict` stores, or the text of the alert it shows instead. */
  function LocalPredict(sales: seq<SaleRecord>, predictionType: string, productId: Option<string>)
    : (r: Result<seq<LocalResult>, string>)
    ensures predictionType == "all" ==>
              && r.Ok? && |r.value| == |Distinct(IdsOf(sales))|
              && forall k :: 0 <= k < |r.value| ==>
                   var pid := Distinct(IdsOf(sales))[k];
                   r.value[k] == ResultFor(pid, RecordsOf(sales, pid))
    ensures predictionType != "all" && Falsy(productId) ==> r == Err("Please enter a Product ID")
    ensures predictionType != "all" && !Falsy(productId) ==>
              (r == Err("Product ID not found in data") <==> productId.value !in IdsOf(sales))
    ensures predictionType != "all" && r.Ok? ==> |r.value| == 1 && r.value[0].productId == productId.value
    ensures predictionType != "all" && !Falsy(productId) && productId.value in IdsOf(sales) ==>
              r == Ok([ResultFor(productId.value, RecordsOf(sales, productId.value))])
  {
    if predictionType == "all" then
      var ids := Distinct(IdsOf(sales));
      Ok(seq(|ids|, k requires 0 <= k < |ids| => ResultFor(ids[k], RecordsOf(sales, ids[k]))))
    else if Falsy(productId) then Err("Please enter a Product ID")
    else
      var rows := RecordsOf(sales, productId.value);
      if rows == [] then Err("Product ID not found in data")
      else Ok([ResultFor(productId.value, rows)])
  }

  /** For "all", the k-th result belongs to the k-th distinct product id in order of
      first appearance and summarises exactly that product's records. */
  lemma LocalPredictAll(sales: seq<SaleRecord>, k: nat)
    requires k < |Distinct(IdsOf(sales))|
    ensures var pid := Distinct(IdsOf(sales))[k];
            var r := LocalPredict(sales, "all", None).value[k];
            && r.productId == pid
            && r == ResultFor(pid, RecordsOf(sales, pid))
            && forall j :: 0 <= j < k ==>
                 FirstIndex(IdsOf(sales), LocalPredict(sales, "all", None).value[j].productId) <
                 FirstIndex(IdsOf(sales), pid)
  {
    var ids := Distinct(IdsOf(sales));
    forall j | 0 <= j < k
      ensures FirstIndex(IdsOf(sales), ids[j]) < FirstIndex(IdsOf(sales), ids[k])
    {
      DistinctFirstAppearance(IdsOf(sales), j, k);
    }
  }

  /** With non-negative sales the prediction is never below the shown average. */
  lemma PredictedNotBelowAverage(pid: string, rows: seq<SaleRecord>)
    requires rows != [] && forall i :: 0 <= i < |rows| ==> rows[i].sales >= 0
    ensures ResultFor(pid, rows).currentAvg <= ResultFor(pid, rows).predicted
  {
    var avg := Mean(SalesOf(rows));
    MeanBetween(SalesOf(rows), 0.0, Sum(SalesOf(rows)) + 1.0) by {
      SumNonNegative(rows);
      forall i | 0 <= i < |rows| ensures SalesOf(rows)[i] <= Sum(SalesOf(rows)) + 1.0 {
        SumAtLeastElement(SalesOf(rows), i);
      }
    }
    JsRoundMonotone(avg, avg * 1.2);
  }

  lemma {:induction false} SumNonNegative(rows: seq<SaleRecord>)
    requires forall i :: 0 <= i < |rows| ==> rows[i].sales >= 0
    ensures Sum(SalesOf(rows)) >= 0.0
  {
    SumLowerBound(SalesOf(rows), 0.0);
  }

  lemma {:induction false} SumAtLeastElement(xs: seq<real>, i: nat)
    requires i < |xs| && forall j :: 0 <= j < |xs| ==> xs[j] >= 0.0
    ensures xs[i] <= Sum(xs)
  {
    var n := |xs| - 1;
    SumLowerBound(xs[..n], 0.0);
    if i < n {
      SumAtLeastElement(xs[..n], i);
    }
  }

  /** On the embedded data, "all" predicts 110 -> 132 for P101 and 65 -> 78 for P102. */
  lemma LocalPredictOnSalesData()
    ensures LocalPredict(SalesData, "all", None) ==
              Ok([LocalResult("P101", 110, 132, "+20%"), LocalResult("P102", 65, 78, "+20%")])
  {
    SalesDataIds();
    SalesDataRecords();
    SalesDataResults();
    LocalPredictTwoProducts(SalesData, "P101", "P102");
  }

  lemma LocalPredictTwoProducts(sales: seq<SaleRecord>, a: string, b: string)
    requires Distinct(IdsOf(sales)) == [a, b]
    ensures RecordsOf(sales, a) != [] && RecordsOf(sales, b) != []
    ensures LocalPredict(sales, "all", None) ==
              Ok([ResultFor(a, RecordsOf(sales, a)), ResultFor(b, RecordsOf(sales, b))])
  {
    var r := LocalPredict(sales, "all", None).value;
    assert a in Distinct(IdsOf(sales)) && b in Distinct(IdsOf(sales));
    assert r == [r[0], r[1]];
    assert r[0] == ResultFor(a, RecordsOf(sales, a));
    assert r[1] == ResultFor(b, RecordsOf(sales, b));
  }

  lemma SalesDataResults()
    ensures ResultFor("P101", [SalesData[0], SalesData[1]]) == LocalResult("P101", 110, 132, "+20%")
    ensures ResultFor("P102", [SalesData[2], SalesData[3]]) == LocalResult("P102", 65, 78, "+20%")
  {
    MeanOfTwo(SalesData[0], SalesData[1]);
    MeanOfTwo(SalesData[2], SalesData[3]);
  }

  lemma SalesDataIds()
    ensures Distinct(IdsOf(SalesData)) == ["P101", "P102"]
  {
    var ids := IdsOf(SalesData);
    assert ids == ["P101", "P101", "P102", "P102"];
    assert ids[..3][..2][..1][..0] == [] && ids[..3][..2][..1] == ids[..1] && ids[..3][..2] == ids[..2];
    assert Distinct(ids[..1]) == ["P101"];
    assert Distinct(ids[..2]) == ["P101"];
    assert Distinct(ids[..3]) == ["P101", "P102"];
  }

  lemma SalesDataRecords()
    ensures RecordsOf(SalesData, "P101") == [SalesData[0], SalesData[1]]
    ensures RecordsOf(SalesData, "P102") == [SalesData[2], SalesData[3]]
  {
    var s := SalesData;
    assert s[0].productId == s[1].productId == "P101";
    assert s[2].productId == s[3].productId == "P102";
    RecordsOfPairs(s, "P101", "P102");
  }

  /** Four records, the first two of product a and the last two of product b. */
  lemma RecordsOfPairs(s: seq<SaleRecord>, a: string, b: string)
    requires |s| == 4 && a != b
    requires s[0].productId == s[1].productId == a && s[2].productId == s[3].productId == b
    ensures RecordsOf(s, a) == [s[0], s[1]] && RecordsOf(s, b) == [s[2], s[3]]
  {
    RecordsOfFirstTwo(s, a);
    RecordsOfLastTwo(s, b);
  }

  lemma RecordsOfFirstTwo(s: seq<SaleRecord>, a: string)
    requires |s| == 4
    requires s[0].productId == s[1].productId == a && s[2].productId != a && s[3].productId != a
    ensures RecordsOf(s, a) == [s[0], s[1]]
  {
    var p := HasId(a);
    assert p(s[0]) && p(s[1]) && !p(s[2]) && !p(s[3]);
    assert s[..0] == [] && s[..4] == s;
    FilterKeep(s, 0, p);
    FilterKeep(s, 1, p);
    FilterSkip(s, 2, p);
    FilterSkip(s, 3, p);
    assert [] + [s[0]] + [s[1]] == [s[0], s[1]];
  }

  lemma RecordsOfLastTwo(s: seq<SaleRecord>, b: string)
    requires |s| == 4
    requires s[0].productId != b && s[1].productId != b && s[2].productId == s[3].productId == b
    ensures RecordsOf(s, b) == [s[2], s[3]]
  {
    var p := HasId(b);
    assert !p(s[0]) && !p(s[1]) && p(s[2]) && p(s[3]);
    assert s[..0] == [] && s[..4] == s;
    FilterSkip(s, 0, p);
    FilterSkip(s, 1, p);
    FilterKeep(s, 2, p);
    FilterKeep(s, 3, p);
    assert [] + [s[2]] + [s[3]] == [s[2], s[3]];
  }

  lemma MeanOfTwo(a: SaleRecord, b: SaleRecord)
    ensures Mean(SalesOf([a, b])) == (a.sales + b.sales) as real / 2.0
  {
    var xs := SalesOf([a, b]);
    assert xs[..1][..0] == [] && xs[..1] == [a.sales as real];
    assert Sum(xs[..1]) == a.sales as real;
    assert Sum(xs) == (a.sales + b.sales) as real;
  }

  /** The growth label says "+20%" even where rounding makes the shown prediction
      equal to the shown average: a single sale of 1 is shown as 1 -> 1. */
  lemma IncreaseLabelCanBeWrong()
    ensures var r := LocalPredict([SaleRecord("P1", "Jan", 1)], "all", None);
            r.Ok? && r.value == [LocalResult("P1", 1, 1, "+20%")]
  {
    var x := SaleRecord("P1", "Jan", 1);
    OneRecord(x);
    assert JsRound(1.0) == 1 && JsRound(1.0 * 1.2) == 1;
    LocalPredictOneProduct([x], x.productId);
  }

  lemma OneRecord(x: SaleRecord)
    ensures Distinct(IdsOf([x])) == [x.productId]
    ensures RecordsOf([x], x.productId) == [x]
    ensures Mean(SalesOf([x])) == x.sales as real
  {
    OneRecordIds(x);
    OneRecordFilter(x);
    OneRecordSum(x);
  }

  lemma OneRecordIds(x: SaleRecord)
    ensures Distinct(IdsOf([x])) == [x.productId]
  {
    var ids := IdsOf([x]);
    assert ids == [x.productId];
    assert ids[..0] == [];
  }

  lemma OneRecordFilter(x: SaleRecord)
    ensures RecordsOf([x], x.productId) == [x]
  {
    var s := [x];
    assert s[..0] == [];
    assert HasId(x.productId)(x);
  }

  lemma OneRecordSum(x: SaleRecord)
    ensures Mean(SalesOf([x])) == x.sales as real
  {
    var xs := SalesOf([x]);
    assert xs == [x.sales as real];
    assert xs[..0] == [];
    assert Sum(xs) == x.sales as real;
  }

  lemma LocalPredictOneProduct(sales: seq<SaleRecord>, a: string)
    requires Distinct(IdsOf(sales)) == [a]
    ensures RecordsOf(sales, a) != []
    ensures LocalPredict(sales, "all", None) == Ok([ResultFor(a, RecordsOf(sales, a))])
  {
    var r := LocalPredict(sales, "all", None).value;
    assert a in Distinct(IdsOf(sales));
    assert r == [r[0]];
    assert r[0] == ResultFor(a, RecordsOf(sales, a));
  }

  // ---------------------------------------------------------------------------
  // handleSubmit: the form and the reply

  datatype FormValue = FileValue(file: FileRef) | TextValue(text: string)

  datatype FormField = FormField(name: string, value: FormValue)

  /** `FormData.append` turns `undefined` into the text "undefined". */
  function JsText(x: Option<string>): string
  {
    if x.Some? then x.value else "undefined"
  }

  /** The four fields of the request, in order; a falsy product id is sent as "". */
  function FormFields(file: FileRef, predictionType: string, month: Option<string>, productId: Option<string>)
    : (r: seq<FormField>)
    ensures |r| == 4
    ensures r[0] == FormField("file", FileValue(file))
    ensures r[1] == FormField("predictionType", TextValue(predictionType))
    ensures r[2] == FormField("month", TextValue(JsText(month)))
    ensures r[3] == FormField("productId", TextValue(if Falsy(productId) then "" else productId.value))
  {
    [FormField("file", FileValue(file)), FormField("predictionType", TextValue(predictionType)),
     FormField("month", TextValue(JsText(month))),
     FormField("productId", TextValue(if productId.Some? && productId.value != "" then productId.value else ""))]
  }

  /** How the exchange ended: `fetch` or `response.json()` threw, or the body parsed. */
  datatype Exchange = Threw | Replied(body: Json)

  /** JSON.parse keeps the last of duplicated keys. */
  function Lookup(fields: seq<(string, Json)>, key: string): (r: Option<Json>)
    ensures r.Some? <==> exists i :: 0 <= i < |fields| && fields[i].0 == key
    ensures r.Some? ==> exists i :: 0 <= i < |fields| && fields[i] == (key, r.value) &&
                                    forall j :: i < j < |fields| ==> fields[j].0 != key
  {
    if fields == [] then None
    else if fields[|fields| - 1].0 == key then Some(fields[|fields| - 1].1)
    else
      var r := Lookup(fields[..|fields| - 1], key);
      assert forall i :: 0 <= i < |fields| - 1 ==> fields[..|fields| - 1][i] == fields[i];
      r
  }

  /** `data.predictions`: a TypeError (Err) on null, `undefined` (None) on anything
      but an object holding the key. */
  function Property(data: Json, key: string): (r: Result<Option<Json>, string>)
    ensures r.Err? <==> data.JNull?
    ensures r.Ok? && r.value.Some? ==> data.JObject?
    ensures data.JObject? ==> r == Ok(Lookup(data.fields, key))
  {
    match data
    case JNull => Err("TypeError")
    case JObject(fields) => Ok(Lookup(fields, key))
    case _ => Ok(None)
  }

  const SubmitFailed := "Something went wrong while predicting"

  /** FastAPI's reply to a path no route matches, such as the `/api/debug` the
      component posts to. */
  const RouteNotFound := JObject([("detail", JStr("Not Found"))])

  /** The reply to the component's post holds no `predictions`, so a submission
      shows `undefined`. */
  lemma DebugRouteReply()
    ensures Property(RouteNotFound, "predictions") == Ok(None)
  {
    assert RouteNotFound.fields[..0] == [];
  }

  // ---------------------------------------------------------------------------
  // The component

  class StockPredictionApp {
    var predictionType: string
    var productId: Option<string>
    var selectedMonth: Option<string>
    var uploadedFile: Option<FileRef>
    var predictions: Shown

    /** The states the UI can reach: the type comes from its selector, the product
        id is never truthy (its handler stores `undefined`), and the month is an
        offered label or `undefined`. */
    ghost predicate Valid()
      reads this
    {
      && (predictionType == "all" || predictionType == "specific")
      && Falsy(productId)
      && (selectedMonth.Some? ==> selectedMonth.value in MonthOptions)
    }

    constructor()
      ensures predictionType == "all" && productId == Some("") && selectedMonth == Some("March 2026")
      ensures uploadedFile == None && predictions == NotYet
      ensures Valid()
    {
      predictionType := "all";
      productId := Some("");
      selectedMonth := Some("March 2026");
      uploadedFile := None;
      predictions := NotYet;
    }

    /** Keeps the first picked file; an empty pick changes nothing. */
    method HandleFileUpload(files: seq<FileRef>)
      modifies this
      ensures files != [] ==> uploadedFile == Some(files[0])
      ensures files == [] ==> uploadedFile == old(uploadedFile)
      ensures predictionType == old(predictionType) && productId == old(productId)
      ensures selectedMonth == old(selectedMonth) && predictions == old(predictions)
      ensures old(Valid()) ==> Valid()
    {
      if files != [] {
        uploadedFile := Some(files[0]);
      }
    }

    /** The prediction-type selector offers "all" and "specific". */
    method SelectPredictionType(value: string)
      requires value == "all" || value == "specific"
      modifies this
      ensures predictionType == value
      ensures productId == old(productId) && selectedMonth == old(selectedMonth)
      ensures uploadedFile == old(uploadedFile) && predictions == old(predictions)
      ensures old(Valid()) ==> Valid()
    {
      predictionType := value;
    }

    /** The product input stores what `console.log` returns: `undefined`. */
    method TypeProductId(typed: string)
      modifies this
      ensures productId == None
      ensures predictionType == old(predictionType) && selectedMonth == old(selectedMonth)
      ensures uploadedFile == old(uploadedFile) && predictions == old(predictions)
      ensures old(Valid()) ==> Valid()
    {
      productId := None;
    }

    /** The month selector stores `undefined` as well, whatever label was chosen. */
    method SelectMonth(choice: string)
      requires choice in MonthOptions
      modifies this
      ensures selectedMonth == None
      ensures predictionType == old(predictionType) && productId == old(productId)
      ensures uploadedFile == old(uploadedFile) && predictions == old(predictions)
      ensures old(Valid()) ==> Valid()
    {
      selectedMonth := None;
    }

    /** Runs the local predictor: its results replace the shown predictions, or
        its alert is shown and nothing changes. */
    method HandlePredict() returns (alert: Option<string>)
      modifies this
      ensures var r := LocalPredict(SalesData, old(predictionType), old(productId));
              && (r.Ok? ==> predictions == Local(r.value) && alert == None)
              && (r.Err? ==> predictions == old(predictions) && alert == Some(r.error))
      ensures predictionType == old(predictionType) && productId == old(productId)
      ensures selectedMonth == old(selectedMonth) && uploadedFile == old(uploadedFile)
      ensures old(Valid()) && predictionType == "specific" ==>
                alert == Some("Please enter a Product ID") && predictions == old(predictions)
    {
      var r := LocalPredict(SalesData, predictionType, productId);
      if r.Ok? {
        predictions := Local(r.value);
        alert := None;
      } else {
        alert := Some(r.error);
      }
    }

    /** The submit button: the two guards, then the form and the exchange. The
        returned request is the form that was posted, if any. */
    method HandleSubmit(reply: Exchange) returns (request: Option<seq<FormField>>, alert: Option<string>)
      modifies this
      ensures predictionType == old(predictionType) && productId == old(productId)
      ensures selectedMonth == old(selectedMonth) && uploadedFile == old(uploadedFile)
      ensures uploadedFile.None? ==>
                request == None && alert == Some("Please upload a sales report file") && predictions == old(predictions)
      ensures uploadedFile.Some? && predictionType == "single" && Falsy(productId) ==>
                request == None && alert == Some("Please enter Product ID") && predictions == old(predictions)
      ensures request.Some? ==>
                request.value == FormFields(uploadedFile.value, predictionType, selectedMonth, productId)
      ensures request.Some? && (reply.Threw? || reply.body.JNull?) ==>
                alert == Some(SubmitFailed) && predictions == old(predictions)
      ensures request.Some? && reply.Replied? && !reply.body.JNull? ==>
                alert == None && predictions == Received(Property(reply.body, "predictions").value)
      ensures request.None? ==> predictions == old(predictions)
      ensures uploadedFile.Some? && !(predictionType == "single" && Falsy(productId)) ==> request.Some?
      ensures old(Valid()) && uploadedFile.Some? ==>
                request.Some? && request.value[3] == FormField("productId", TextValue(""))
    {
      if uploadedFile.None? {
        return None, Some("Please upload a sales report file");
      }
      if predictionType == "single" && Falsy(productId) {
        return None, Some("Please enter Product ID");
      }
      var form := FormFields(uploadedFile.value, predictionType, selectedMonth, productId);
      request := Some(form);
      if reply.Threw? {
        return request, Some(SubmitFailed);
      }
      var data := Property(reply.body, "predictions");
      if data.Err? {
        return request, Some(SubmitFailed);
      }
      predictions := Received(data.value);
      alert := None;
    }
  }

  // ---------------------------------------------------------------------------
  // What the server makes of the component's form

  /** The prediction request the form amounts to on the API side. An empty text field
      of an optional form parameter is read by the server as the parameter's default,
      so an empty product id arrives as no product id. */
  function AsApiRequest(form: seq<FormField>): (r: Api.Request)
    requires |form| == 4 && form[0].value.FileValue?
    requires form[1].value.TextValue? && form[2].value.TextValue? && form[3].value.TextValue?
    ensures r.filename == form[0].value.file.name && r.month == form[2].value.text
    ensures r.predictionType == form[1].value.text
    ensures r.productId.Some? <==> form[3].value.text != ""
    ensures r.productId.Some? ==> r.productId.value == form[3].value.text
  {
    var id := form[3].value.text;
    Api.Request(form[0].value.file.name, form[1].value.text, form[2].value.text, if id == "" then None else Some(id))
  }

  /** Every month label the selector offers parses on the server, to a month of 2026. */
  lemma OfferedMonthsParse(i: nat)
    requires i < |MonthOptions|
    ensures Api.ParseMonthString(MonthOptions[i]) == Ok((2026, i + 3))
  {
    OfferedMonthIsCanonical(i);
    Api.ParseCanonicalLabel(i + 3, 2026);
  }

  lemma OfferedMonthIsCanonical(i: nat)
    requires i < |MonthOptions|
    ensures MonthOptions[i] == Api.MonthNames[i + 2] + " " + Api.Year4(2026)
  {
    assert Api.Year4(2026) == "2026";
  }

  /** Once a month was picked the form says "undefined", which the server refuses. */
  lemma PickedMonthIsRefused()
    ensures Api.ParseMonthString(JsText(None)).Err?
  {
    var s := JsText(None);
    forall y, m | 1 <= m <= 12
      ensures !Api.WellFormedLabel(s, y, m)
    {
      var name := Api.MonthNames[m - 1];
      if |name| <= |s| {
        var t := s[|name|..];
        if |t| >= 5 {
          assert t[|t| - 4..] == s[5..] && !Api.IsDigit(s[5]);
        }
      }
    }
  }

  /** A "specific" submission from any reachable state is refused by the server's
      product-id check, since the form never carries a product id. */
  lemma SpecificSubmissionRefused(file: FileRef, month: Option<string>, productId: Option<string>)
    requires Falsy(productId) && Api.EndsWith(file.name, ".csv")
    ensures Api.CheckRequest(AsApiRequest(FormFields(file, "specific", month, productId))) ==
              Some(Api.ProductIdRequired)
  {
  }
}
