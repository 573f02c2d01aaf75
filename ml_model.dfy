/** The server-side forecasting pipeline of fastapi/ml_model.py: each stage is a
    function from the records of one DataFrame to the records of the next, in
    the order `predict_sales_pipeline` runs them. The trained random forest is
    a parameter: `train` maps the training rows to a predictor and its metrics,
    or to the ValueError scikit-learn raises. */
module MlModel {
  import opened Common

  // ---------------------------------------------------------------------------
  // Records

  /** Year and month of a parsed `transaction_date`; the day is never used. */
  datatype Date = Date(year: int, month: int)

  /** One row of the uploaded table, holding the four columns the pipeline reads.
      `date` is None where date parsing produced NaT. */
  datatype RawRow = RawRow(category: string, productId: string, qty: real, date: Option<Date>)

  /** The uploaded table: its column names and its rows. */
  datatype Table = Table(columns: seq<string>, rows: seq<RawRow>)

  /** A row that kept its date: the output of `extract_and_clean_data`. */
  datatype CleanRow = CleanRow(category: string, productId: string, qty: real, date: Date)

  /** Total quantity per (product, category, year, month). */
  datatype MonthlyRow = MonthlyRow(productId: string, category: string, year: int, month: int, qty: real)

  /** A monthly row that survived `dropna` with both lag features. */
  datatype FeatureRow = FeatureRow(productId: string, category: string, year: int, month: int,
                                   qty: real, lag1: real, lag3Avg: real)

  /** A feature row with its dense product number (`product_id_mapped`). */
  datatype MappedRow = MappedRow(f: FeatureRow, mapped: nat)

  /** A mapped row with its seasonal `month_weight`. */
  datatype WeightedRow = WeightedRow(f: FeatureRow, mapped: nat, weight: real)

  /** The six model inputs, in the column order of `prepare_training_data`. */
  datatype Features = Features(mapped: nat, month: int, year: int, lag1: real, lag3Avg: real, weight: real)

  datatype TrainingRow = TrainingRow(x: Features, y: real)

  datatype Metrics = Metrics(mae: real, rmse: real, r2: real)

  /** What training yields: a predictor and its hold-out metrics, or the message
      of the ValueError raised while splitting or fitting. */
  datatype Trained = Trained(predict: Features -> real, metrics: Metrics) | TrainingFailed(message: string)

  /** The row of a product chosen for the forecast, after `model.predict`. */
  datatype PredRow = PredRow(productId: string, category: string, mapped: nat, year: int, month: int,
                             previous: real, predicted: real)

  datatype Status = HighStockRequired | NormalStock

  datatype ReportRow = ReportRow(productId: string, category: string, previous: real, predicted: real,
                                 changePct: Option<real>, status: Status)

  datatype PipelineOutput = PipelineOutput(report: seq<ReportRow>, metrics: Metrics)

  /** The ValueErrors the pipeline raises. */
  datatype PipelineError =
    | ColumnsMissing(missing: seq<string>)
    | NoValidData
    | TrainingError(message: string)

  function StatusText(s: Status): string
  {
    match s
    case HighStockRequired => "HIGH STOCK REQUIRED"
    case NormalStock => "NORMAL STOCK"
  }

  /** Python's `repr` of a list of plain strings, as in `['a', 'b']`. */
  function QuotedList(xs: seq<string>): string
  {
    if xs == [] then ""
    else if |xs| == 1 then "'" + xs[0] + "'"
    else "'" + xs[0] + "', " + QuotedList(xs[1..])
  }

  /** The text of the ValueError, as `str(ve)` shows it. */
  function ErrorMessage(e: PipelineError): string
  {
    match e
    case ColumnsMissing(missing) => "Missing required columns: [" + QuotedList(missing) + "]"
    case NoValidData => "No valid data after cleaning dates"
    case TrainingError(message) => message
  }

  // ---------------------------------------------------------------------------
  // extract_and_clean_data

  const RequiredColumns: seq<string> := ["product_category", "product_id", "transaction_qty", "transaction_date"]

  /** The required names absent from `available`, in the order of `required`. */
  function MissingFrom(required: seq<string>, available: seq<string>): (r: seq<string>)
    ensures forall c :: c in r <==> c in required && c !in available
    ensures IsSubsequence(r, required)
  {
    if required == [] then []
    else
      var last := required[|required| - 1];
      var r' := MissingFrom(required[..|required| - 1], available);
      SubsequenceExtend(r', required[..|required| - 1], last);
      assert required[..|required| - 1] + [last] == required;
      if last in available then r'
      else
        assert (r' + [last])[..|r'|] == r';
        r' + [last]
  }

  function MissingColumns(available: seq<string>): (r: seq<string>)
    ensures forall c :: c in r <==> c in RequiredColumns && c !in available
    ensures IsSubsequence(r, RequiredColumns)
    ensures r == [] <==> forall c :: c in RequiredColumns ==> c in available
  {
    var r := MissingFrom(RequiredColumns, available);
    assert r != [] ==> r[0] in r;
    r
  }

  function ToClean(row: RawRow): CleanRow
    requires row.date.Some?
  {
    CleanRow(row.category, row.productId, row.qty, row.date.value)
  }

  predicate HasDate(row: RawRow)
  {
    row.date.Some?
  }

  /** The rows whose date parsed, in table order, reduced to the four columns. */
  function DatedRows(rows: seq<RawRow>): (r: seq<CleanRow>)
    ensures |r| <= |rows|
    ensures forall i :: 0 <= i < |rows| && rows[i].date.Some? ==> ToClean(rows[i]) in r
    ensures forall c :: c in r ==> exists i :: 0 <= i < |rows| && rows[i].date.Some? && c == ToClean(rows[i])
    ensures r == [] <==> forall i :: 0 <= i < |rows| ==> rows[i].date.None?
  {
    if rows == [] then []
    else
      var n := |rows| - 1;
      var r' := DatedRows(rows[..n]);
      assert forall i :: 0 <= i < n ==> rows[..n][i] == rows[i];
      if rows[n].date.Some? then r' + [ToClean(rows[n])] else r'
  }

  /** Row for row, the dated rows are the table filtered on a parsed date, so they keep its order and multiplicity. */
  lemma {:induction false} DatedRowsFiltered(rows: seq<RawRow>)
    ensures var kept := Filter(rows, HasDate);
            |DatedRows(rows)| == |kept| &&
            forall j :: 0 <= j < |kept| ==> HasDate(kept[j]) && DatedRows(rows)[j] == ToClean(kept[j])
  {
    if rows != [] {
      var n := |rows| - 1;
      DatedRowsFiltered(rows[..n]);
      var d, kept := DatedRows(rows[..n]), Filter(rows[..n], HasDate);
      if HasDate(rows[n]) {
        assert DatedRows(rows) == d + [ToClean(rows[n])] && Filter(rows, HasDate) == kept + [rows[n]];
      } else {
        assert DatedRows(rows) == d && Filter(rows, HasDate) == kept;
      }
    }
  }

  function ExtractAndCleanData(t: Table): (r: Result<seq<CleanRow>, PipelineError>)
    ensures MissingColumns(t.columns) != [] <==> r == Err(ColumnsMissing(MissingColumns(t.columns)))
    ensures r == Err(NoValidData) <==>
              MissingColumns(t.columns) == [] && forall i :: 0 <= i < |t.rows| ==> t.rows[i].date.None?
    ensures r.Ok? ==> r.value != [] && r.value == DatedRows(t.rows)
    ensures MissingColumns(t.columns) == [] && DatedRows(t.rows) != [] ==> r == Ok(DatedRows(t.rows))
  {
    var missing := MissingColumns(t.columns);
    if missing != [] then Err(ColumnsMissing(missing))
    else
      var cleaned := DatedRows(t.rows);
      if cleaned == [] then Err(NoValidData) else Ok(cleaned)
  }

  // ---------------------------------------------------------------------------
  // aggregate_monthly_sales

  /** The grouping key, listed in the order the output is sorted by. */
  datatype Key = Key(productId: string, year: int, month: int, category: string)

  function CleanKey(c: CleanRow): Key
  {
    Key(c.productId, c.date.year, c.date.month, c.category)
  }

  function KeyOf(m: MonthlyRow): Key
  {
    Key(m.productId, m.year, m.month, m.category)
  }

  /** Sorting order of the aggregated table: product, year, month, then category. */
  predicate KeyLess(a: Key, b: Key)
  {
    || StrLess(a.productId, b.productId)
    || (a.productId == b.productId &&
        (|| a.year < b.year
         || (a.year == b.year &&
             (|| a.month < b.month
              || (a.month == b.month && StrLess(a.category, b.category))))))
  }

  lemma KeyLessIrreflexive(a: Key)
    ensures !KeyLess(a, a)
  {
    StrLessIrreflexive(a.productId);
    StrLessIrreflexive(a.category);
  }

  lemma KeyLessTransitive(a: Key, b: Key, c: Key)
    requires KeyLess(a, b) && KeyLess(b, c)
    ensures KeyLess(a, c)
  {
    StrLessIrreflexive(a.productId);
    StrLessIrreflexive(b.productId);
    if StrLess(a.productId, b.productId) && StrLess(b.productId, c.productId) {
      StrLessTransitive(a.productId, b.productId, c.productId);
    }
    if a.productId == b.productId == c.productId && a.year == b.year == c.year && a.month == b.month == c.month {
      StrLessTransitive(a.category, b.category, c.category);
    }
  }

  lemma KeyLessTotal(a: Key, b: Key)
    requires a != b
    ensures KeyLess(a, b) || KeyLess(b, a)
  {
    if a.productId != b.productId {
      StrLessTotal(a.productId, b.productId);
    } else if a.year == b.year && a.month == b.month {
      StrLessTotal(a.category, b.category);
    }
  }

  ghost predicate SortedByKey(g: seq<MonthlyRow>)
  {
    forall i, j :: 0 <= i < j < |g| ==> KeyLess(KeyOf(g[i]), KeyOf(g[j]))
  }

  function Keys(g: seq<MonthlyRow>): set<Key>
  {
    set m | m in g :: KeyOf(m)
  }

  function CleanKeys(rows: seq<CleanRow>): set<Key>
  {
    set c | c in rows :: CleanKey(c)
  }

  lemma KeysConcat(a: seq<MonthlyRow>, b: seq<MonthlyRow>)
    ensures Keys(a + b) == Keys(a) + Keys(b)
  {
    forall k | k in Keys(a + b) ensures k in Keys(a) + Keys(b) {
      var m :| m in a + b && KeyOf(m) == k;
    }
    forall k | k in Keys(a) + Keys(b) ensures k in Keys(a + b) {
      if k in Keys(a) {
        var m :| m in a && KeyOf(m) == k;
        assert m in a + b;
      } else {
        var m :| m in b && KeyOf(m) == k;
        assert m in a + b;
      }
    }
  }

  lemma KeysSingleton(m: MonthlyRow)
    ensures Keys([m]) == {KeyOf(m)}
  {
    assert m in [m];
  }

  function Single(c: CleanRow): MonthlyRow
  {
    MonthlyRow(c.productId, c.category, c.date.year, c.date.month, c.qty)
  }

  /** Adds one transaction to the sorted group table: to the quantity of its group
      when that group exists, as a new group at its sorted place otherwise. */
  function Insert(g: seq<MonthlyRow>, c: CleanRow): (r: seq<MonthlyRow>)
    ensures Keys(r) == Keys(g) + {CleanKey(c)}
  {
    KeysSingleton(Single(c));
    if g == [] then [Single(c)]
    else
      assert g == [g[0]] + g[1..];
      KeysConcat([g[0]], g[1..]);
      KeysSingleton(g[0]);
      if KeyOf(g[0]) == CleanKey(c) then
        var merged := g[0].(qty := g[0].qty + c.qty);
        KeysConcat([merged], g[1..]);
        KeysSingleton(merged);
        [merged] + g[1..]
      else if KeyLess(CleanKey(c), KeyOf(g[0])) then
        KeysConcat([Single(c)], g);
        [Single(c)] + g
      else
        var rest := Insert(g[1..], c);
        KeysConcat([g[0]], rest);
        [g[0]] + rest
  }

  /** The groupby-sum: one row per key present in the input. */
  function AggregateMonthlySales(rows: seq<CleanRow>): (r: seq<MonthlyRow>)
    ensures Keys(r) == CleanKeys(rows)
  {
    if rows == [] then []
    else
      CleanKeysSnoc(rows);
      Insert(AggregateMonthlySales(rows[..|rows| - 1]), rows[|rows| - 1])
  }

  lemma {:induction false} InsertSorted(g: seq<MonthlyRow>, c: CleanRow)
    requires SortedByKey(g)
    ensures SortedByKey(Insert(g, c))
  {
    var k := CleanKey(c);
    if g == [] {
    } else if KeyOf(g[0]) == k {
    } else if KeyLess(k, KeyOf(g[0])) {
      var r := [Single(c)] + g;
      forall i, j | 0 <= i < j < |r| ensures KeyLess(KeyOf(r[i]), KeyOf(r[j])) {
        if i == 0 && j > 1 {
          KeyLessTransitive(k, KeyOf(g[0]), KeyOf(g[j - 1]));
        }
      }
    } else {
      KeyLessTotal(k, KeyOf(g[0]));
      InsertSorted(g[1..], c);
      InsertSortedBehind(g, c);
    }
  }

  /** Inserting behind the first group keeps that group first. */
  lemma InsertSortedBehind(g: seq<MonthlyRow>, c: CleanRow)
    requires SortedByKey(g) && g != [] && KeyLess(KeyOf(g[0]), CleanKey(c))
    requires SortedByKey(Insert(g[1..], c))
    ensures SortedByKey([g[0]] + Insert(g[1..], c))
  {
    var k := CleanKey(c);
    var rest := Insert(g[1..], c);
    var r := [g[0]] + rest;
    forall j | 0 <= j < |rest| ensures KeyLess(KeyOf(g[0]), KeyOf(rest[j])) {
      assert KeyOf(rest[j]) in Keys(rest);
      if KeyOf(rest[j]) != k {
        assert KeyOf(rest[j]) in Keys(g[1..]);
        var m :| m in g[1..] && KeyOf(m) == KeyOf(rest[j]);
        var idx :| 0 <= idx < |g[1..]| && g[1..][idx] == m;
        assert g[idx + 1] == m;
      }
    }
    forall i, j | 0 <= i < j < |r| ensures KeyLess(KeyOf(r[i]), KeyOf(r[j])) {
      if i > 0 {
        assert r[i] == rest[i - 1] && r[j] == rest[j - 1];
      }
    }
  }

  /** Sum of the quantities of the groups with key k (a single group in a sorted table). */
  function SumFor(g: seq<MonthlyRow>, k: Key): real
  {
    if g == [] then 0.0 else (if KeyOf(g[0]) == k then g[0].qty else 0.0) + SumFor(g[1..], k)
  }

  /** Sum of the quantities of the transactions with key k. */
  function GroupSum(rows: seq<CleanRow>, k: Key): real
  {
    if rows == [] then 0.0
    else GroupSum(rows[..|rows| - 1], k) + (if CleanKey(rows[|rows| - 1]) == k then rows[|rows| - 1].qty else 0.0)
  }

  function MonthlyTotal(g: seq<MonthlyRow>): real
  {
    if g == [] then 0.0 else g[0].qty + MonthlyTotal(g[1..])
  }

  function CleanTotal(rows: seq<CleanRow>): real
  {
    if rows == [] then 0.0 else CleanTotal(rows[..|rows| - 1]) + rows[|rows| - 1].qty
  }

  lemma {:induction false} InsertSumFor(g: seq<MonthlyRow>, c: CleanRow, k: Key)
    ensures SumFor(Insert(g, c), k) == SumFor(g, k) + (if k == CleanKey(c) then c.qty else 0.0)
  {
    if g == [] {
    } else if KeyOf(g[0]) == CleanKey(c) {
      var merged := g[0].(qty := g[0].qty + c.qty);
      assert ([merged] + g[1..])[1..] == g[1..];
    } else if KeyLess(CleanKey(c), KeyOf(g[0])) {
      assert ([Single(c)] + g)[1..] == g;
    } else {
      InsertSumFor(g[1..], c, k);
      assert ([g[0]] + Insert(g[1..], c))[1..] == Insert(g[1..], c);
    }
  }

  lemma {:induction false} InsertTotal(g: seq<MonthlyRow>, c: CleanRow)
    ensures MonthlyTotal(Insert(g, c)) == MonthlyTotal(g) + c.qty
  {
    if g == [] {
    } else if KeyOf(g[0]) == CleanKey(c) {
      var merged := g[0].(qty := g[0].qty + c.qty);
      assert ([merged] + g[1..])[1..] == g[1..];
    } else if KeyLess(CleanKey(c), KeyOf(g[0])) {
      assert ([Single(c)] + g)[1..] == g;
    } else {
      InsertTotal(g[1..], c);
      assert ([g[0]] + Insert(g[1..], c))[1..] == Insert(g[1..], c);
    }
  }

  lemma {:induction false} SumForAbsent(g: seq<MonthlyRow>, k: Key)
    requires forall i :: 0 <= i < |g| ==> KeyOf(g[i]) != k
    ensures SumFor(g, k) == 0.0
  {
    if g != [] {
      SumForAbsent(g[1..], k);
    }
  }

  lemma {:induction false} SumForUnique(g: seq<MonthlyRow>, i: nat)
    requires SortedByKey(g) && i < |g|
    ensures SumFor(g, KeyOf(g[i])) == g[i].qty
  {
    var k := KeyOf(g[i]);
    if i == 0 {
      forall j | 0 <= j < |g[1..]| ensures KeyOf(g[1..][j]) != k {
        assert KeyLess(k, KeyOf(g[j + 1]));
        KeyLessIrreflexive(k);
      }
      SumForAbsent(g[1..], k);
    } else {
      assert KeyLess(KeyOf(g[0]), k);
      KeyLessIrreflexive(k);
      assert g[1..][i - 1] == g[i];
      SumForUnique(g[1..], i - 1);
    }
  }

  /** The aggregated table is sorted by (product, year, month, category) with one
      row per key, its keys are exactly the input's keys, each row holds the sum of
      its group, and the total quantity is preserved. */
  lemma {:induction false} AggregateCorrect(rows: seq<CleanRow>)
    ensures SortedByKey(AggregateMonthlySales(rows))
    ensures Keys(AggregateMonthlySales(rows)) == CleanKeys(rows)
    ensures forall k :: SumFor(AggregateMonthlySales(rows), k) == GroupSum(rows, k)
    ensures MonthlyTotal(AggregateMonthlySales(rows)) == CleanTotal(rows)
  {
    if rows != [] {
      var n := |rows| - 1;
      var prev := AggregateMonthlySales(rows[..n]);
      AggregateCorrect(rows[..n]);
      InsertSorted(prev, rows[n]);
      InsertTotal(prev, rows[n]);
      forall k ensures SumFor(AggregateMonthlySales(rows), k) == GroupSum(rows, k) {
        InsertSumFor(prev, rows[n], k);
      }
      CleanKeysSnoc(rows);
    }
  }

  lemma CleanKeysSnoc(rows: seq<CleanRow>)
    requires rows != []
    ensures CleanKeys(rows) == CleanKeys(rows[..|rows| - 1]) + {CleanKey(rows[|rows| - 1])}
  {
    assert rows == rows[..|rows| - 1] + [rows[|rows| - 1]];
  }

  /** Each aggregated row carries the sum of the quantities of its group. */
  lemma AggregateRowIsGroupSum(rows: seq<CleanRow>, i: nat)
    requires i < |AggregateMonthlySales(rows)|
    ensures AggregateMonthlySales(rows)[i].qty == GroupSum(rows, KeyOf(AggregateMonthlySales(rows)[i]))
  {
    AggregateCorrect(rows);
    SumForUnique(AggregateMonthlySales(rows), i);
  }

  // ---------------------------------------------------------------------------
  // create_time_features

  /** Quantity of the last row of product pid among the first i rows, if there is one. */
  function LastQtyBefore(rows: seq<MonthlyRow>, i: nat, pid: string): Option<real>
    requires i <= |rows|
  {
    if i == 0 then None
    else if rows[i - 1].productId == pid then Some(rows[i - 1].qty)
    else LastQtyBefore(rows, i - 1, pid)
  }

  /** There is a quantity for pid exactly when one of the first i rows belongs to pid. */
  lemma {:induction false} LastQtyBeforeNoneIff(rows: seq<MonthlyRow>, i: nat, pid: string)
    requires i <= |rows|
    ensures LastQtyBefore(rows, i, pid).None? <==> forall j :: 0 <= j < i ==> rows[j].productId != pid
  {
    if i > 0 && rows[i - 1].productId != pid {
      LastQtyBeforeNoneIff(rows, i - 1, pid);
    }
  }

  /** `lag_1`: the group-wise `shift(1)`, the quantity of the previous row of the same
      product (None stands for NaN). */
  function Lag1(rows: seq<MonthlyRow>, i: nat): Option<real>
    requires i < |rows|
  {
    LastQtyBefore(rows, i, rows[i].productId)
  }

  /** `lag_1` is missing exactly on the first row of each product. */
  lemma Lag1NoneIff(rows: seq<MonthlyRow>, i: nat)
    requires i < |rows|
    ensures Lag1(rows, i).None? <==> forall j :: 0 <= j < i ==> rows[j].productId != rows[i].productId
  {
    LastQtyBeforeNoneIff(rows, i, rows[i].productId);
  }

  /** `lag_3_avg`: `rolling(3).mean()` over the shifted column in table order, which is
      NaN unless the window holds three numbers. */
  function Lag3Avg(rows: seq<MonthlyRow>, i: nat): Option<real>
    requires i < |rows|
  {
    if i < 2 then None
    else
      match (Lag1(rows, i - 2), Lag1(rows, i - 1), Lag1(rows, i))
      case (Some(a), Some(b), Some(c)) => Some((a + b + c) / 3.0)
      case _ => None
  }

  /** The last row of pid among the first i carries the quantity `LastQtyBefore` finds. */
  lemma {:induction false} LastQtyBeforeIsLast(rows: seq<MonthlyRow>, i: nat, pid: string)
    requires i <= |rows| && LastQtyBefore(rows, i, pid).Some?
    ensures exists j :: 0 <= j < i && rows[j].productId == pid && LastQtyBefore(rows, i, pid).value == rows[j].qty &&
                        forall k :: j < k < i ==> rows[k].productId != pid
  {
    if rows[i - 1].productId != pid {
      LastQtyBeforeIsLast(rows, i - 1, pid);
    } else {
      assert LastQtyBefore(rows, i, pid).value == rows[i - 1].qty;
    }
  }

  /** `lag_1` is the quantity of the product's latest earlier row in the table, whatever
      its month or category. */
  lemma Lag1IsLastEarlier(rows: seq<MonthlyRow>, i: nat)
    requires i < |rows| && Lag1(rows, i).Some?
    ensures exists j :: 0 <= j < i && rows[j].productId == rows[i].productId && Lag1(rows, i).value == rows[j].qty &&
                        forall k :: j < k < i ==> rows[k].productId != rows[i].productId
  {
    LastQtyBeforeIsLast(rows, i, rows[i].productId);
  }

  /** `lag_1` counts earlier rows of the product, not earlier months: when the product
      sold in two categories in one month, the second of those rows takes the first one's
      quantity of the same month, and four rows over three months already survive. */
  lemma LagCountsRowsNotMonths(g: seq<MonthlyRow>)
    requires |g| == 4 && forall i :: 0 <= i < 4 ==> g[i].productId == g[0].productId
    requires g[0].year == g[1].year && g[0].month == g[1].month && g[0].category != g[1].category
    ensures Lag1(g, 1) == Some(g[0].qty)
    ensures Survives(g, 3)
  {
  }

  /** `lag_3_avg` is a window over table rows, not over one product: it exists exactly
      when the shifted values of the row and of the two rows above it all exist, and it
      is their mean. */
  lemma Lag3AvgWindow(rows: seq<MonthlyRow>, i: nat)
    requires i < |rows|
    ensures Lag3Avg(rows, i).Some? <==>
              2 <= i && Lag1(rows, i - 2).Some? && Lag1(rows, i - 1).Some? && Lag1(rows, i).Some?
    ensures Lag3Avg(rows, i).Some? ==>
              3.0 * Lag3Avg(rows, i).value == Lag1(rows, i - 2).value + Lag1(rows, i - 1).value + Lag1(rows, i).value
  {
  }

  /** Whether row i keeps both features and so survives `dropna`. */
  predicate Survives(rows: seq<MonthlyRow>, i: nat)
    requires i < |rows|
  {
    Lag1(rows, i).Some? && Lag3Avg(rows, i).Some?
  }

  function Featured(rows: seq<MonthlyRow>, i: nat): FeatureRow
    requires i < |rows| && Survives(rows, i)
  {
    var m := rows[i];
    FeatureRow(m.productId, m.category, m.year, m.month, m.qty, Lag1(rows, i).value, Lag3Avg(rows, i).value)
  }

  /** Whether index i is a row of the table that survives `dropna`. */
  function SurvivesAt(rows: seq<MonthlyRow>): nat -> bool
  {
    (i: nat) => i < |rows| && Survives(rows, i)
  }

  /** `dropna` after the two lag columns: the rows at the surviving positions, in
      ascending position order, with their two lag values. */
  function CreateTimeFeatures(rows: seq<MonthlyRow>): (r: seq<FeatureRow>)
    ensures |r| <= |rows|
    ensures forall i :: 0 <= i < |rows| && Survives(rows, i) ==> Featured(rows, i) in r
    ensures forall f :: f in r ==> exists i :: 0 <= i < |rows| && Survives(rows, i) && f == Featured(rows, i)
    ensures var ix := Positions(|rows|, SurvivesAt(rows));
            |r| == |ix| && forall j :: 0 <= j < |ix| ==> r[j] == Featured(rows, ix[j])
  {
    var ix := Positions(|rows|, SurvivesAt(rows));
    var r := seq(|ix|, j requires 0 <= j < |ix| => Featured(rows, ix[j]));
    assert forall i :: 0 <= i < |rows| && Survives(rows, i) ==> SurvivesAt(rows)(i);
    assert forall j :: 0 <= j < |ix| ==> r[j] == Featured(rows, ix[j]);
    r
  }

  /** Rows of one product are contiguous, as they are in a table sorted by product. */
  ghost predicate GroupedByProduct(rows: seq<MonthlyRow>)
  {
    forall i, j, k :: 0 <= i < j < k < |rows| && rows[i].productId == rows[k].productId ==>
      rows[j].productId == rows[i].productId
  }

  /** In a grouped table the group-wise shift is the plain previous row of the table,
      when that row belongs to the same product. */
  lemma Lag1OfGrouped(rows: seq<MonthlyRow>, i: nat)
    requires GroupedByProduct(rows) && i < |rows|
    ensures Lag1(rows, i) == if i > 0 && rows[i - 1].productId == rows[i].productId
                             then Some(rows[i - 1].qty) else None
  {
    if i > 0 && rows[i - 1].productId != rows[i].productId {
      Lag1NoneIff(rows, i);
    }
  }

  /** The un-grouped `rolling(3)` still works per product: in a grouped table a row
      survives `dropna` exactly when the three rows before it belong to its own
      product, and then `lag_3_avg` is the mean of those three quantities and `lag_1`
      is the last of them. NaN at the first row of each product stops the window
      from reaching into the previous product. */
  lemma SurvivesOfGrouped(rows: seq<MonthlyRow>, i: nat)
    requires GroupedByProduct(rows) && i < |rows|
    ensures Survives(rows, i) <==>
              i >= 3 && rows[i - 3].productId == rows[i].productId &&
              rows[i - 2].productId == rows[i].productId && rows[i - 1].productId == rows[i].productId
    ensures Survives(rows, i) ==>
              Lag1(rows, i) == Some(rows[i - 1].qty) &&
              Lag3Avg(rows, i) == Some((rows[i - 3].qty + rows[i - 2].qty + rows[i - 1].qty) / 3.0)
  {
    Lag1OfGrouped(rows, i);
    if i >= 2 {
      Lag1OfGrouped(rows, i - 1);
      Lag1OfGrouped(rows, i - 2);
    }
  }

  /** Number of rows of product pid in rows. */
  function CountOf(rows: seq<MonthlyRow>, pid: string): nat
  {
    if rows == [] then 0
    else CountOf(rows[..|rows| - 1], pid) + (if rows[|rows| - 1].productId == pid then 1 else 0)
  }

  lemma {:induction false} CountOfEarliest(rows: seq<MonthlyRow>, pid: string, c: nat)
    requires 1 <= c <= CountOf(rows, pid)
    ensures exists j :: 0 <= j <= |rows| - c && rows[j].productId == pid
  {
    var n := |rows| - 1;
    var pre := rows[..n];
    if rows[n].productId != pid || c >= 2 {
      var c' := if rows[n].productId == pid then c - 1 else c;
      CountOfEarliest(pre, pid, c');
      var j :| 0 <= j <= |pre| - c' && pre[j].productId == pid;
      assert rows[j] == pre[j];
    } else {
      assert rows[n].productId == pid;
    }
  }

  /** Survival in count form: a row of a grouped table survives exactly when its
      product has at least three earlier rows. */
  lemma SurvivesIffThreeEarlier(rows: seq<MonthlyRow>, i: nat)
    requires GroupedByProduct(rows) && i < |rows|
    ensures Survives(rows, i) <==> CountOf(rows[..i], rows[i].productId) >= 3
  {
    SurvivesOfGrouped(rows, i);
    if Survives(rows, i) {
      ThreeBeforeCount(rows, i);
    }
    if CountOf(rows[..i], rows[i].productId) >= 3 {
      CountGivesThreeBefore(rows, i);
    }
  }

  lemma ThreeBeforeCount(rows: seq<MonthlyRow>, i: nat)
    requires 3 <= i < |rows|
    requires rows[i - 3].productId == rows[i - 2].productId == rows[i - 1].productId == rows[i].productId
    ensures CountOf(rows[..i], rows[i].productId) >= 3
  {
    var pid := rows[i].productId;
    assert rows[..i][..i - 1] == rows[..i - 1];
    assert rows[..i - 1][..i - 2] == rows[..i - 2];
    assert rows[..i - 2][..i - 3] == rows[..i - 3];
    assert CountOf(rows[..i], pid) == CountOf(rows[..i - 1], pid) + 1;
    assert CountOf(rows[..i - 1], pid) == CountOf(rows[..i - 2], pid) + 1;
    assert CountOf(rows[..i - 2], pid) == CountOf(rows[..i - 3], pid) + 1;
  }

  lemma CountGivesThreeBefore(rows: seq<MonthlyRow>, i: nat)
    requires GroupedByProduct(rows) && i < |rows|
    requires CountOf(rows[..i], rows[i].productId) >= 3
    ensures i >= 3
    ensures rows[i - 3].productId == rows[i - 2].productId == rows[i - 1].productId == rows[i].productId
  {
    var pid := rows[i].productId;
    CountOfEarliest(rows[..i], pid, 3);
    var j :| 0 <= j <= i - 3 && rows[..i][j].productId == pid;
    assert rows[j].productId == pid;
  }

  /** The table `aggregate_monthly_sales` produces is grouped by product. */
  lemma SortedIsGrouped(g: seq<MonthlyRow>)
    requires SortedByKey(g)
    ensures GroupedByProduct(g)
  {
    forall i, j, k | 0 <= i < j < k < |g| && g[i].productId == g[k].productId
      ensures g[j].productId == g[i].productId
    {
      var a, b, c := KeyOf(g[i]), KeyOf(g[j]), KeyOf(g[k]);
      assert KeyLess(a, b) && KeyLess(b, c);
      if b.productId != a.productId {
        assert StrLess(a.productId, b.productId) && StrLess(b.productId, c.productId);
        StrLessTransitive(b.productId, c.productId, b.productId);
        StrLessIrreflexive(b.productId);
      }
    }
  }

  // ---------------------------------------------------------------------------
  // map_product_ids

  /** The `product_id` column of the feature table. The uploaded table in `Backend`
      and the sample records in `Client` have their own row types and their own
      projection of this column. */
  function ProductIds(rows: seq<FeatureRow>): (ids: seq<string>)
    ensures |ids| == |rows| && forall i :: 0 <= i < |rows| ==> ids[i] == rows[i].productId
  {
    seq(|rows|, i requires 0 <= i < |rows| => rows[i].productId)
  }

  /** The two dictionaries: original id to dense number, and back. */
  datatype IdMaps = IdMaps(forward: map<string, nat>, reverse: map<nat, string>)

  /** `{pid: idx for idx, pid in enumerate(ids)}` and its inversion, over the
      distinct ids in order of first appearance. */
  function BuildIdMaps(ids: seq<string>): (m: IdMaps)
    ensures forall p :: p in m.forward <==> p in ids
    ensures forall p :: p in m.forward ==> m.forward[p] < |ids| && ids[m.forward[p]] == p
    ensures forall k: nat :: k in m.reverse <==> k < |ids|
    ensures forall k :: 0 <= k < |ids| ==> m.reverse[k] == ids[k]
    ensures NoDup(ids) ==> forall k :: 0 <= k < |ids| ==> m.forward[ids[k]] == k
  {
    var forward := map p | p in ids :: FirstIndex(ids, p);
    IdMaps(forward, map k | 0 <= k < |ids| :: ids[k])
  }

  /** The k-th distinct id goes to k, the numbers are exactly 0..n-1, and the reverse
      map undoes the forward map in both directions. */
  lemma IdMapsInverse(rows: seq<FeatureRow>)
    ensures var ids := Distinct(ProductIds(rows));
            var m := BuildIdMaps(ids);
            && m.forward.Keys == (set i | 0 <= i < |rows| :: rows[i].productId)
            && (forall k: nat :: k in m.reverse <==> k < |ids|)
            && (forall k :: 0 <= k < |ids| ==> ids[k] in m.forward && m.forward[ids[k]] == k)
            && (forall p :: p in m.forward ==> m.forward[p] in m.reverse && m.reverse[m.forward[p]] == p)
            && (forall k :: k in m.reverse ==> m.reverse[k] in m.forward && m.forward[m.reverse[k]] == k)
  {
    var ids := Distinct(ProductIds(rows));
    assert NoDup(ids);
    IdKeysAreRowIds(rows);
  }

  lemma IdKeysAreRowIds(rows: seq<FeatureRow>)
    ensures BuildIdMaps(Distinct(ProductIds(rows))).forward.Keys == (set i | 0 <= i < |rows| :: rows[i].productId)
  {
    var m := BuildIdMaps(Distinct(ProductIds(rows)));
    forall p | p in m.forward.Keys ensures p in (set i | 0 <= i < |rows| :: rows[i].productId) {
      assert p in ProductIds(rows);
      var i :| 0 <= i < |rows| && ProductIds(rows)[i] == p;
    }
    forall p | p in (set i | 0 <= i < |rows| :: rows[i].productId) ensures p in m.forward.Keys {
      var i :| 0 <= i < |rows| && rows[i].productId == p;
      assert ProductIds(rows)[i] == p;
    }
  }

  /** Adds `product_id_mapped` to every row. */
  function MapProductIds(rows: seq<FeatureRow>): (r: (seq<MappedRow>, IdMaps))
    ensures |r.0| == |rows|
    ensures forall i :: 0 <= i < |rows| ==>
              r.0[i].f == rows[i] && rows[i].productId in r.1.forward && r.0[i].mapped == r.1.forward[rows[i].productId]
    ensures forall i :: 0 <= i < |rows| ==> r.0[i].mapped in r.1.reverse && r.1.reverse[r.0[i].mapped] == rows[i].productId
  {
    var ids := Distinct(ProductIds(rows));
    var maps := BuildIdMaps(ids);
    assert forall i :: 0 <= i < |rows| ==> rows[i].productId in ProductIds(rows);
    (seq(|rows|, i requires 0 <= i < |rows| => MappedRow(rows[i], maps.forward[rows[i].productId])), maps)
  }

  // ---------------------------------------------------------------------------
  // apply_month_weight

  const SameMonthWeight: real := 0.8
  const OtherMonthWeight: real := 0.2

  function ApplyMonthWeight(rows: seq<MappedRow>, targetMonth: int): (r: seq<WeightedRow>)
    ensures |r| == |rows|
    ensures forall i :: 0 <= i < |rows| ==> r[i].f == rows[i].f && r[i].mapped == rows[i].mapped
    ensures forall i :: 0 <= i < |rows| ==> (r[i].weight == SameMonthWeight <==> rows[i].f.month == targetMonth)
    ensures forall i :: 0 <= i < |rows| ==> (r[i].weight == OtherMonthWeight <==> rows[i].f.month != targetMonth)
  {
    seq(|rows|, i requires 0 <= i < |rows| =>
      WeightedRow(rows[i].f, rows[i].mapped,
                  if rows[i].f.month == targetMonth then SameMonthWeight else OtherMonthWeight))
  }

  // ---------------------------------------------------------------------------
  // prepare_training_data

  function FeaturesOf(w: WeightedRow): Features
  {
    Features(w.mapped, w.f.month, w.f.year, w.f.lag1, w.f.lag3Avg, w.weight)
  }

  /** X holds the six feature columns and y the monthly quantity, row by row. */
  function PrepareTrainingData(rows: seq<WeightedRow>): (r: seq<TrainingRow>)
    ensures |r| == |rows|
    ensures forall i :: 0 <= i < |rows| ==>
              && r[i].x.mapped == rows[i].mapped && r[i].x.month == rows[i].f.month && r[i].x.year == rows[i].f.year
              && r[i].x.lag1 == rows[i].f.lag1 && r[i].x.lag3Avg == rows[i].f.lag3Avg && r[i].x.weight == rows[i].weight
              && r[i].y == rows[i].f.qty
  {
    seq(|rows|, i requires 0 <= i < |rows| => TrainingRow(FeaturesOf(rows[i]), rows[i].f.qty))
  }

  /** What the model is trained on: one row per feature row, carrying its month, year,
      lags and quantity, the dense number the reverse map sends back to its product,
      and weight 0.8 exactly in the target month. */
  lemma TrainingRowsOfFeatures(features: seq<FeatureRow>, targetMonth: int, i: nat)
    requires i < |features|
    ensures var maps := MapProductIds(features).1;
            var t := PrepareTrainingData(ApplyMonthWeight(MapProductIds(features).0, targetMonth));
            && |t| == |features|
            && t[i].y == features[i].qty
            && t[i].x.month == features[i].month && t[i].x.year == features[i].year
            && t[i].x.lag1 == features[i].lag1 && t[i].x.lag3Avg == features[i].lag3Avg
            && t[i].x.mapped in maps.reverse && maps.reverse[t[i].x.mapped] == features[i].productId
            && (t[i].x.weight == SameMonthWeight <==> features[i].month == targetMonth)
            && (t[i].x.weight == OtherMonthWeight <==> features[i].month != targetMonth)
  {
  }

  // ---------------------------------------------------------------------------
  // predict_next_month

  /** (year, month) of a is not after that of b. */
  predicate NotLater(a: WeightedRow, b: WeightedRow)
  {
    a.f.year < b.f.year || (a.f.year == b.f.year && a.f.month <= b.f.month)
  }

  /** The row `sort_values([...]).groupby(...).tail(1)` keeps for product number k: the
      latest by (year, month); among rows of equal date, the later one in the table. */
  function LatestOf(rows: seq<WeightedRow>, k: nat): (r: Option<WeightedRow>)
    ensures r.None? <==> forall i :: 0 <= i < |rows| ==> rows[i].mapped != k
    ensures r.Some? ==> r.value in rows && r.value.mapped == k
    ensures r.Some? ==> forall i :: 0 <= i < |rows| && rows[i].mapped == k ==> NotLater(rows[i], r.value)
  {
    if rows == [] then None
    else
      var n := |rows| - 1;
      var rest := LatestOf(rows[..n], k);
      assert forall i :: 0 <= i < n ==> rows[..n][i] == rows[i];
      var x := rows[n];
      if x.mapped != k then rest
      else if rest.None? || NotLater(rest.value, x) then Some(x)
      else rest
  }

  /** An upper bound on the product numbers in the table. */
  function MappedBound(rows: seq<WeightedRow>): (b: nat)
    ensures forall i :: 0 <= i < |rows| ==> rows[i].mapped < b
  {
    if rows == [] then 0
    else
      var b' := MappedBound(rows[..|rows| - 1]);
      assert forall i :: 0 <= i < |rows| - 1 ==> rows[..|rows| - 1][i] == rows[i];
      if rows[|rows| - 1].mapped + 1 > b' then rows[|rows| - 1].mapped + 1 else b'
  }

  /** The latest row of every product number in lo..hi-1 that occurs, in ascending order. */
  function LatestFrom(rows: seq<WeightedRow>, lo: nat, hi: nat): (r: seq<WeightedRow>)
    ensures forall j :: 0 <= j < |r| ==> lo <= r[j].mapped < hi && LatestOf(rows, r[j].mapped) == Some(r[j])
    ensures forall i, j :: 0 <= i < j < |r| ==> r[i].mapped < r[j].mapped
    decreases hi - lo
  {
    if lo >= hi then []
    else
      var here := LatestOf(rows, lo);
      (if here.Some? then [here.value] else []) + LatestFrom(rows, lo + 1, hi)
  }

  /** One row per product: its latest, in order of product number. */
  function LatestPerProduct(rows: seq<WeightedRow>): (r: seq<WeightedRow>)
    ensures forall j :: 0 <= j < |r| ==> LatestOf(rows, r[j].mapped) == Some(r[j])
    ensures forall i, j :: 0 <= i < j < |r| ==> r[i].mapped < r[j].mapped
    ensures forall i :: 0 <= i < |rows| ==> LatestOf(rows, rows[i].mapped).Some? &&
                                             LatestOf(rows, rows[i].mapped).value in r
  {
    LatestFromCompleteAll(rows);
    LatestFrom(rows, 0, MappedBound(rows))
  }

  lemma LatestFromCompleteAll(rows: seq<WeightedRow>)
    ensures forall i :: 0 <= i < |rows| ==> LatestOf(rows, rows[i].mapped).Some? &&
                                             LatestOf(rows, rows[i].mapped).value in LatestFrom(rows, 0, MappedBound(rows))
  {
    forall i | 0 <= i < |rows|
      ensures LatestOf(rows, rows[i].mapped).Some? &&
              LatestOf(rows, rows[i].mapped).value in LatestFrom(rows, 0, MappedBound(rows))
    {
      LatestFromComplete(rows, 0, MappedBound(rows), rows[i].mapped);
    }
  }

  /** Every product number that occurs has its latest row in the result. */
  lemma {:induction false} LatestFromComplete(rows: seq<WeightedRow>, lo: nat, hi: nat, k: nat)
    requires lo <= k < hi && LatestOf(rows, k).Some?
    ensures LatestOf(rows, k).value in LatestFrom(rows, lo, hi)
    decreases hi - lo
  {
    if k > lo {
      LatestFromComplete(rows, lo + 1, hi, k);
    }
  }

  /** The forecast rows: the latest row of each product with month and year set to the
      target, `previous_month_sales` taken from `lag_1`, the prediction of `predict` on
      the target-dated features, and the original id restored through `reverse`. */
  function PredictNextMonth(rows: seq<WeightedRow>, targetYear: int, targetMonth: int,
                            reverse: map<nat, string>, predict: Features -> real): (r: seq<PredRow>)
    requires forall i :: 0 <= i < |rows| ==> rows[i].mapped in reverse
    ensures |r| == |LatestPerProduct(rows)|
    ensures forall j :: 0 <= j < |r| ==>
              var w := LatestPerProduct(rows)[j];
              && r[j].mapped == w.mapped && r[j].productId == reverse[w.mapped]
              && r[j].category == w.f.category && r[j].previous == w.f.lag1
              && r[j].year == targetYear && r[j].month == targetMonth
              && r[j].predicted == predict(Features(w.mapped, targetMonth, targetYear, w.f.lag1, w.f.lag3Avg, w.weight))
  {
    var latest := LatestPerProduct(rows);
    seq(|latest|, j requires 0 <= j < |latest| =>
      var w := latest[j];
      var x := Features(w.mapped, targetMonth, targetYear, w.f.lag1, w.f.lag3Avg, w.weight);
      PredRow(reverse[w.mapped], w.f.category, w.mapped, targetYear, targetMonth, w.f.lag1, predict(x)))
  }

  // ---------------------------------------------------------------------------
  // generate_stock_report

  const ThresholdMultiplier: real := 1.2

  function PredictedSales(preds: seq<PredRow>): (xs: seq<real>)
    ensures |xs| == |preds| && forall i :: 0 <= i < |preds| ==> xs[i] == preds[i].predicted
  {
    seq(|preds|, i requires 0 <= i < |preds| => preds[i].predicted)
  }

  /** `predicted >= mean * 1.2`; with no rows the mean is NaN and every comparison fails. */
  function Classify(predicted: real, mean: Option<real>): Status
  {
    if mean.Some? && predicted >= mean.value * ThresholdMultiplier then HighStockRequired else NormalStock
  }

  /** Percent change over the previous month, NaN (None) unless previous > 0. */
  function ChangePct(previous: real, predicted: real): (r: Option<real>)
    ensures r.Some? <==> previous > 0.0
    ensures r.Some? ==> (r.value > 0.0 <==> predicted > previous) && (r.value < 0.0 <==> predicted < previous)
  {
    if previous > 0.0 then Some((predicted - previous) / previous * 100.0) else None
  }

  function RoundOpt(x: Option<real>): Option<real>
  {
    if x.Some? then Some(Round2(x.value)) else None
  }

  function MeanPredicted(preds: seq<PredRow>): Option<real>
  {
    if preds == [] then None else Some(Mean(PredictedSales(preds)))
  }

  function GenerateStockReport(preds: seq<PredRow>): (r: seq<ReportRow>)
    ensures |r| == |preds|
    ensures forall i :: 0 <= i < |preds| ==>
              && r[i].productId == preds[i].productId && r[i].category == preds[i].category
              && r[i].previous == preds[i].previous
              && r[i].predicted == Round2(preds[i].predicted)
              && r[i].changePct == RoundOpt(ChangePct(preds[i].previous, preds[i].predicted))
              && r[i].status == Classify(preds[i].predicted, MeanPredicted(preds))
  {
    var mean := MeanPredicted(preds);
    seq(|preds|, i requires 0 <= i < |preds| =>
      var p := preds[i];
      ReportRow(p.productId, p.category, p.previous, Round2(p.predicted),
                RoundOpt(ChangePct(p.previous, p.predicted)), Classify(p.predicted, mean)))
  }

  /** With a positive mean forecast, not every product is flagged: some product is
      below 1.2 times the mean and gets NORMAL STOCK. */
  lemma SomeProductNormal(preds: seq<PredRow>)
    requires preds != [] && Mean(PredictedSales(preds)) > 0.0
    ensures exists i :: 0 <= i < |preds| && GenerateStockReport(preds)[i].status == NormalStock
  {
    var xs := PredictedSales(preds);
    NotAllAtLeastScaledMean(xs);
    var i :| 0 <= i < |xs| && xs[i] < 1.2 * Mean(xs);
    assert GenerateStockReport(preds)[i].status == NormalStock;
  }

  /** The classification is monotone: a product forecast at least as high as a
      flagged one is flagged too. */
  lemma StatusMonotone(preds: seq<PredRow>, i: nat, j: nat)
    requires i < |preds| && j < |preds| && preds[i].predicted <= preds[j].predicted
    requires GenerateStockReport(preds)[i].status == HighStockRequired
    ensures GenerateStockReport(preds)[j].status == HighStockRequired
  {
  }

  /** When every forecast is zero the threshold is zero too, so every product is
      flagged HIGH STOCK REQUIRED. */
  lemma ZeroForecastsAllHigh(preds: seq<PredRow>)
    requires preds != [] && forall i :: 0 <= i < |preds| ==> preds[i].predicted == 0.0
    ensures forall i :: 0 <= i < |preds| ==> GenerateStockReport(preds)[i].status == HighStockRequired
  {
    var xs := PredictedSales(preds);
    MeanBetween(xs, 0.0, 0.0);
  }

  /** The status of a product depends on the other products: 10 and 30 give a
      threshold of 24, so the second is flagged, though alone it would not be. */
  lemma StatusDependsOnOthers()
    ensures var a := PredRow("A", "c", 0, 2026, 3, 10.0, 10.0);
            var b := PredRow("B", "c", 1, 2026, 3, 10.0, 30.0);
            GenerateStockReport([a, b])[1].status == HighStockRequired &&
            GenerateStockReport([b])[0].status == NormalStock
  {
    var a := PredRow("A", "c", 0, 2026, 3, 10.0, 10.0);
    var b := PredRow("B", "c", 1, 2026, 3, 10.0, 30.0);
    assert PredictedSales([a, b]) == [10.0, 30.0];
    assert Sum([10.0, 30.0]) == Sum([10.0]) + 30.0;
    assert PredictedSales([b]) == [30.0];
    assert Sum([30.0]) == Sum([]) + 30.0;
  }

  // ---------------------------------------------------------------------------
  // predict_sales_pipeline

  /** The stages in order: clean, aggregate, lag features, id map, month weight,
      training, forecast of the latest row per product, report. */
  function PredictSalesPipeline(t: Table, targetYear: int, targetMonth: int,
                                train: seq<TrainingRow> -> Trained): (r: Result<PipelineOutput, PipelineError>)
    ensures ExtractAndCleanData(t).Err? ==> r == Err(ExtractAndCleanData(t).error)
    ensures r.Err? && r.error.TrainingError? ==> ExtractAndCleanData(t).Ok?
    ensures ExtractAndCleanData(t).Ok? ==>
              var features := CreateTimeFeatures(AggregateMonthlySales(ExtractAndCleanData(t).value));
              var maps := MapProductIds(features).1;
              var weighted := ApplyMonthWeight(MapProductIds(features).0, targetMonth);
              match train(PrepareTrainingData(weighted))
              case TrainingFailed(message) => r == Err(TrainingError(message))
              case Trained(predict, metrics) =>
                r == Ok(PipelineOutput(GenerateStockReport(PredictNextMonth(weighted, targetYear, targetMonth, maps.reverse, predict)),
                                       metrics))
  {
    match ExtractAndCleanData(t)
    case Err(e) => Err(e)
    case Ok(cleaned) =>
      var features := CreateTimeFeatures(AggregateMonthlySales(cleaned));
      var (mapped, maps) := MapProductIds(features);
      var weighted := ApplyMonthWeight(mapped, targetMonth);
      match train(PrepareTrainingData(weighted))
      case TrainingFailed(message) => Err(TrainingError(message))
      case Trained(predict, metrics) =>
        var preds := PredictNextMonth(weighted, targetYear, targetMonth, maps.reverse, predict);
        Ok(PipelineOutput(GenerateStockReport(preds), metrics))
  }

  /** In a table sorted like the aggregated one, a row gets lag features exactly when
      its product has three earlier rows, and `lag_3_avg` is then the mean of those
      three rows' quantities. */
  lemma SortedFeaturesPerProduct(g: seq<MonthlyRow>, i: nat)
    requires SortedByKey(g) && i < |g|
    ensures Survives(g, i) <==> CountOf(g[..i], g[i].productId) >= 3
    ensures Survives(g, i) ==> Lag3Avg(g, i) == Some((g[i - 3].qty + g[i - 2].qty + g[i - 1].qty) / 3.0)
  {
    SortedIsGrouped(g);
    SurvivesIffThreeEarlier(g, i);
    SurvivesOfGrouped(g, i);
  }

  /** The table the pipeline builds is sorted by key, so `SortedFeaturesPerProduct`
      describes its lag features. */
  lemma AggregateSorted(cleaned: seq<CleanRow>)
    ensures SortedByKey(AggregateMonthlySales(cleaned))
  {
    AggregateCorrect(cleaned);
  }

  lemma {:induction false} LatestFromExact(rows: seq<WeightedRow>, lo: nat, hi: nat, n: nat)
    requires forall k: nat :: LatestOf(rows, k).Some? <==> k < n
    requires lo <= n <= hi
    ensures |LatestFrom(rows, lo, hi)| == n - lo
    ensures forall j :: 0 <= j < n - lo ==> LatestFrom(rows, lo, hi)[j].mapped == lo + j
    decreases hi - lo
  {
    var r := LatestFrom(rows, lo, hi);
    assert |r| > 0 ==> lo <= r[0].mapped < n;
    if lo < n {
      LatestFromExact(rows, lo + 1, hi, n);
      assert LatestFrom(rows, lo, hi) == [LatestOf(rows, lo).value] + LatestFrom(rows, lo + 1, hi);
    }
  }

  /** The product numbers in the weighted table are exactly 0..n-1 for n products. */
  lemma MappedNumbersExact(features: seq<FeatureRow>, targetMonth: int)
    ensures var ids := Distinct(ProductIds(features));
            var weighted := ApplyMonthWeight(MapProductIds(features).0, targetMonth);
            forall k: nat :: LatestOf(weighted, k).Some? <==> k < |ids|
  {
    var ids := Distinct(ProductIds(features));
    var weighted := ApplyMonthWeight(MapProductIds(features).0, targetMonth);
    forall k: nat ensures LatestOf(weighted, k).Some? <==> k < |ids| {
      if k < |ids| {
        MappedNumberOccurs(features, targetMonth, k);
      }
      if LatestOf(weighted, k).Some? {
        MappedNumberBelow(features, targetMonth, k);
      }
    }
  }

  lemma MappedNumberOccurs(features: seq<FeatureRow>, targetMonth: int, k: nat)
    requires k < |Distinct(ProductIds(features))|
    ensures LatestOf(ApplyMonthWeight(MapProductIds(features).0, targetMonth), k).Some?
  {
    var ids := Distinct(ProductIds(features));
    var weighted := ApplyMonthWeight(MapProductIds(features).0, targetMonth);
    IdMapsInverse(features);
    assert ids[k] in ProductIds(features);
    var i :| 0 <= i < |features| && ProductIds(features)[i] == ids[k];
    assert weighted[i].mapped == k;
  }

  lemma MappedNumberBelow(features: seq<FeatureRow>, targetMonth: int, k: nat)
    requires LatestOf(ApplyMonthWeight(MapProductIds(features).0, targetMonth), k).Some?
    ensures k < |Distinct(ProductIds(features))|
  {
    var ids := Distinct(ProductIds(features));
    var maps := MapProductIds(features).1;
    var weighted := ApplyMonthWeight(MapProductIds(features).0, targetMonth);
    IdMapsInverse(features);
    var i :| 0 <= i < |weighted| && weighted[i].mapped == k;
    var p := features[i].productId;
    assert p in ProductIds(features);
    var q := FirstIndex(ids, p);
    assert maps.forward[ids[q]] == q;
  }

  /** When the product numbers are exactly 0..n-1 and `reverse` sends k to ids[k],
      the forecast has one row per number k, in order, under the id ids[k]. */
  lemma {:induction false} ForecastOnePerNumber(weighted: seq<WeightedRow>, reverse: map<nat, string>, ids: seq<string>,
                                                targetYear: int, targetMonth: int, predict: Features -> real)
    requires forall k: nat :: LatestOf(weighted, k).Some? <==> k < |ids|
    requires forall k: nat :: k < |ids| ==> k in reverse && reverse[k] == ids[k]
    requires forall i :: 0 <= i < |weighted| ==> weighted[i].mapped in reverse
    ensures var preds := PredictNextMonth(weighted, targetYear, targetMonth, reverse, predict);
            |preds| == |ids| && forall k :: 0 <= k < |ids| ==> preds[k].productId == ids[k]
  {
    var n := |ids|;
    if n > 0 {
      assert LatestOf(weighted, n - 1).Some?;
      var i :| 0 <= i < |weighted| && weighted[i].mapped == n - 1;
    }
    LatestFromExact(weighted, 0, MappedBound(weighted), n);
  }

  /** The forecast has one row per product of the feature table, in the order of first
      appearance, and each row carries the product's original id. */
  lemma ForecastOnePerProduct(features: seq<FeatureRow>, targetYear: int, targetMonth: int, predict: Features -> real)
    ensures var ids := Distinct(ProductIds(features));
            var maps := MapProductIds(features).1;
            var weighted := ApplyMonthWeight(MapProductIds(features).0, targetMonth);
            && (forall i :: 0 <= i < |weighted| ==> weighted[i].mapped in maps.reverse)
            && var preds := PredictNextMonth(weighted, targetYear, targetMonth, maps.reverse, predict);
               |preds| == |ids| && forall k :: 0 <= k < |ids| ==> preds[k].productId == ids[k]
  {
    var ids := Distinct(ProductIds(features));
    var maps := MapProductIds(features).1;
    var weighted := ApplyMonthWeight(MapProductIds(features).0, targetMonth);
    IdMapsInverse(features);
    MappedNumbersExact(features, targetMonth);
    forall i | 0 <= i < |weighted| ensures weighted[i].mapped in maps.reverse {
      assert features[i].productId in maps.forward;
    }
    ForecastOnePerNumber(weighted, maps.reverse, ids, targetYear, targetMonth, predict);
  }

  /** The report of the whole pipeline has one row per product that kept features, in
      order of first appearance, under the product's original id. */
  lemma PipelineOnePerProduct(t: Table, targetYear: int, targetMonth: int, train: seq<TrainingRow> -> Trained)
    requires PredictSalesPipeline(t, targetYear, targetMonth, train).Ok?
    ensures var features := CreateTimeFeatures(AggregateMonthlySales(ExtractAndCleanData(t).value));
            var ids := Distinct(ProductIds(features));
            var report := PredictSalesPipeline(t, targetYear, targetMonth, train).value.report;
            |report| == |ids| && forall k :: 0 <= k < |ids| ==> report[k].productId == ids[k]
  {
    var features := CreateTimeFeatures(AggregateMonthlySales(ExtractAndCleanData(t).value));
    var (mapped, maps) := MapProductIds(features);
    var weighted := ApplyMonthWeight(mapped, targetMonth);
    match train(PrepareTrainingData(weighted))
    case Trained(predict, metrics) =>
      ForecastOnePerProduct(features, targetYear, targetMonth, predict);
  }
}
