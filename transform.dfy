/**
 * The transform stage: one cleaning pass over a batch of records (duplicate
 * removal, null fill, critical-column drop, date, currency and ticker
 * normalisation) followed by a row-level validation pass that only reports.
 *
 * The working table is a sequence of `Labeled` rows: each row keeps the index
 * label it had in the request, because duplicate removal keeps labels and the
 * error messages quote them.
 */
module TransformService {
  import opened Wrappers

  // ------------------------------------------------------------- data model

  /** One record of a request. Prices and other float quantities are integers here. */
  datatype Row = Row(
    date: Option<string>,
    open: Option<int>,
    high: Option<int>,
    low: Option<int>,
    close: Option<int>,
    volume: Option<int>,
    dividend: Option<int>,
    industry: Option<string>,
    sector: Option<string>,
    fullTimeEmployees: Option<int>,
    marketCap: Option<int>,
    previousClose: Option<int>,
    averageVolume: Option<int>,
    currency: Option<string>,
    dividendRate: Option<int>,
    dividendYield: Option<int>,
    trailingPE: Option<int>,
    forwardPE: Option<int>,
    ticker: Option<string>)

  datatype TransformRequest = TransformRequest(batchId: Option<string>, data: seq<Row>)

  datatype TransformResponse = TransformResponse(batchId: Option<string>, data: seq<Row>, errors: seq<string>)

  /** A row of the working table with its index label (its position in the request). */
  datatype Labeled = Labeled(idx: nat, row: Row)

  /** The columns pandas types as numbers. */
  datatype NumericColumn =
    | Open | High | Low | Close | Volume | Dividend | FullTimeEmployees | MarketCap
    | PreviousClose | AverageVolume | DividendRate | DividendYield | TrailingPE | ForwardPE

  /** The columns pandas types as objects (text). */
  datatype StringColumn = Date | Industry | Sector | Currency | Ticker

  function NumValue(r: Row, c: NumericColumn): Option<int> {
    match c
    case Open => r.open
    case High => r.high
    case Low => r.low
    case Close => r.close
    case Volume => r.volume
    case Dividend => r.dividend
    case FullTimeEmployees => r.fullTimeEmployees
    case MarketCap => r.marketCap
    case PreviousClose => r.previousClose
    case AverageVolume => r.averageVolume
    case DividendRate => r.dividendRate
    case DividendYield => r.dividendYield
    case TrailingPE => r.trailingPE
    case ForwardPE => r.forwardPE
  }

  function StrValue(r: Row, c: StringColumn): Option<string> {
    match c
    case Date => r.date
    case Industry => r.industry
    case Sector => r.sector
    case Currency => r.currency
    case Ticker => r.ticker
  }

  predicate NumericFilled(r: Row) {
    forall c :: NumValue(r, c).Some?
  }

  predicate StringsFilled(r: Row) {
    forall c :: StrValue(r, c).Some?
  }

  /** Column `c` holds at least one value, so pandas keeps it numeric. */
  predicate ColumnHasValue(rows: seq<Row>, c: NumericColumn) {
    exists i :: 0 <= i < |rows| && NumValue(rows[i], c).Some?
  }

  /**
   * Every numeric column of a non-empty batch keeps its numeric dtype.
   * A numeric column that is null in every row would be typed as text by
   * pandas; that case is outside this model.
   */
  predicate DeclaredTypesKept(rows: seq<Row>) {
    rows == [] || forall c :: ColumnHasValue(rows, c)
  }

  function RowsOf(df: seq<Labeled>): (rows: seq<Row>)
    ensures |rows| == |df|
    ensures forall j :: 0 <= j < |df| ==> rows[j] == df[j].row
  {
    seq(|df|, j requires 0 <= j < |df| => df[j].row)
  }

  /** Applies `f` to every row of the table, keeping the labels. */
  function MapRows(df: seq<Labeled>, f: Row -> Row): (out: seq<Labeled>)
    ensures |out| == |df|
    ensures forall j :: 0 <= j < |df| ==> out[j] == Labeled(df[j].idx, f(df[j].row))
  {
    seq(|df|, j requires 0 <= j < |df| => Labeled(df[j].idx, f(df[j].row)))
  }

  // ------------------------------------------------------ duplicate removal

  function DistinctRows(rows: seq<Row>): set<Row> {
    set r | r in rows
  }

  /** Position `i` holds the first occurrence of its row value. */
  predicate FirstOccurrence(rows: seq<Row>, i: int) {
    0 <= i < |rows| && rows[i] !in rows[..i]
  }

  /** Keeps the first occurrence of every row value, labelled with its position. */
  function DropDuplicates(rows: seq<Row>): seq<Labeled>
  {
    if rows == [] then []
    else
      var n := |rows| - 1;
      if rows[n] in rows[..n] then DropDuplicates(rows[..n])
      else DropDuplicates(rows[..n]) + [Labeled(n, rows[n])]
  }

  /** Each survivor of duplicate removal is a first occurrence, labelled with its position. */
  lemma {:induction false} DropDuplicatesLabels(rows: seq<Row>)
    ensures forall j :: 0 <= j < |DropDuplicates(rows)| ==>
      var l := DropDuplicates(rows)[j];
      FirstOccurrence(rows, l.idx) && l.row == rows[l.idx]
  {
    if rows != [] {
      var n := |rows| - 1;
      var p := rows[..n];
      DropDuplicatesLabels(p);
      var dp := DropDuplicates(p);
      forall j | 0 <= j < |dp| ensures p[..dp[j].idx] == rows[..dp[j].idx] {
      }
    }
  }

  /** The survivors keep the input order. */
  lemma {:induction false} DropDuplicatesOrdered(rows: seq<Row>)
    ensures forall j, k :: 0 <= j < k < |DropDuplicates(rows)| ==>
      DropDuplicates(rows)[j].idx < DropDuplicates(rows)[k].idx
  {
    if rows != [] {
      var n := |rows| - 1;
      var p := rows[..n];
      DropDuplicatesOrdered(p);
      DropDuplicatesLabels(p);
    }
  }

  /** A first occurrence survives duplicate removal: `j` is where it ends up. */
  lemma {:induction false} DropDuplicatesFind(rows: seq<Row>, i: nat) returns (j: nat)
    requires FirstOccurrence(rows, i)
    ensures j < |DropDuplicates(rows)| && DropDuplicates(rows)[j] == Labeled(i, rows[i])
  {
    var n := |rows| - 1;
    var p := rows[..n];
    var df := DropDuplicates(rows);
    var dp := DropDuplicates(p);
    assert df == dp || df == dp + [Labeled(n, rows[n])];
    if i < n {
      assert p[i] == rows[i] && p[..i] == rows[..i];
      j := DropDuplicatesFind(p, i);
      assert df[j] == dp[j];
    } else {
      assert rows[n] !in p;
      assert df == dp + [Labeled(n, rows[n])];
      j := |dp|;
    }
  }

  /** Every first occurrence survives duplicate removal. */
  lemma DropDuplicatesComplete(rows: seq<Row>)
    ensures forall i :: FirstOccurrence(rows, i) ==> Labeled(i, rows[i]) in DropDuplicates(rows)
  {
    forall i | FirstOccurrence(rows, i) ensures Labeled(i, rows[i]) in DropDuplicates(rows) {
      var j := DropDuplicatesFind(rows, i);
    }
  }

  /**
   * The survivors of duplicate removal are exactly the first occurrences,
   * each carrying its original position as label, in input order.
   */
  lemma DropDuplicatesKeepsFirst(rows: seq<Row>)
    ensures forall j :: 0 <= j < |DropDuplicates(rows)| ==>
      var l := DropDuplicates(rows)[j];
      FirstOccurrence(rows, l.idx) && l.row == rows[l.idx]
    ensures forall j, k :: 0 <= j < k < |DropDuplicates(rows)| ==>
      DropDuplicates(rows)[j].idx < DropDuplicates(rows)[k].idx
    ensures forall i: int :: FirstOccurrence(rows, i) ==>
      exists j :: 0 <= j < |DropDuplicates(rows)| && DropDuplicates(rows)[j].idx == i
  {
    DropDuplicatesLabels(rows);
    DropDuplicatesOrdered(rows);
    DropDuplicatesComplete(rows);
  }

  /** No two rows left by duplicate removal are equal. */
  lemma DropDuplicatesDistinct(rows: seq<Row>)
    ensures forall j, k :: 0 <= j < k < |DropDuplicates(rows)| ==>
      DropDuplicates(rows)[j].row != DropDuplicates(rows)[k].row
  {
    DropDuplicatesKeepsFirst(rows);
    var df := DropDuplicates(rows);
    forall j, k | 0 <= j < k < |df| ensures df[j].row != df[k].row {
      assert rows[..df[k].idx][df[j].idx] == df[j].row;
    }
  }

  /** Duplicate removal leaves one row per distinct row value of the input. */
  lemma {:induction false} DropDuplicatesCount(rows: seq<Row>)
    ensures |DropDuplicates(rows)| == |DistinctRows(rows)|
  {
    if rows != [] {
      var n := |rows| - 1;
      var p := rows[..n];
      DropDuplicatesCount(p);
      assert rows == p + [rows[n]];
      assert DistinctRows(rows) == DistinctRows(p) + {rows[n]};
      assert rows[n] in p <==> rows[n] in DistinctRows(p);
    }
  }

  // --------------------------------------------------------------- null fill

  /** Fills a null number with 0 and a null string with "". */
  function FillNulls(r: Row): (f: Row)
    ensures forall c :: NumValue(f, c) == Some(NumValue(r, c).GetOr(0))
    ensures forall c :: StrValue(f, c) == Some(StrValue(r, c).GetOr(""))
  {
    Row(
      Some(r.date.GetOr("")),
      Some(r.open.GetOr(0)),
      Some(r.high.GetOr(0)),
      Some(r.low.GetOr(0)),
      Some(r.close.GetOr(0)),
      Some(r.volume.GetOr(0)),
      Some(r.dividend.GetOr(0)),
      Some(r.industry.GetOr("")),
      Some(r.sector.GetOr("")),
      Some(r.fullTimeEmployees.GetOr(0)),
      Some(r.marketCap.GetOr(0)),
      Some(r.previousClose.GetOr(0)),
      Some(r.averageVolume.GetOr(0)),
      Some(r.currency.GetOr("")),
      Some(r.dividendRate.GetOr(0)),
      Some(r.dividendYield.GetOr(0)),
      Some(r.trailingPE.GetOr(0)),
      Some(r.forwardPE.GetOr(0)),
      Some(r.ticker.GetOr("")))
  }

  // ------------------------------------------------------ critical-column drop

  /** A null (not an empty string) in Date, Close or Ticker. */
  predicate CriticalMissing(r: Row) {
    r.date.None? || r.close.None? || r.ticker.None?
  }

  /** Drops the rows with a null critical column, keeping order and labels. */
  function DropCriticalNulls(df: seq<Labeled>): (out: seq<Labeled>)
    ensures |out| <= |df|
    ensures forall j :: 0 <= j < |out| ==> out[j] in df && !CriticalMissing(out[j].row)
    ensures forall l :: l in df && !CriticalMissing(l.row) ==> l in out
  {
    if df == [] then []
    else
      var n := |df| - 1;
      if CriticalMissing(df[n].row) then DropCriticalNulls(df[..n])
      else DropCriticalNulls(df[..n]) + [df[n]]
  }

  /** Once every column is filled, the critical-column drop removes nothing. */
  lemma {:induction false} DropCriticalNullsAfterFill(df: seq<Labeled>)
    requires forall j :: 0 <= j < |df| ==> NumericFilled(df[j].row) && StringsFilled(df[j].row)
    ensures DropCriticalNulls(df) == df
  {
    if df != [] {
      var n := |df| - 1;
      DropCriticalNullsAfterFill(df[..n]);
      assert NumValue(df[n].row, Close).Some?;
      assert StrValue(df[n].row, Date).Some? && StrValue(df[n].row, Ticker).Some?;
      assert df[..n] + [df[n]] == df;
    }
  }

  // ---------------------------------------------------------- normalisation

  /**
   * Date parsing with coercion: null and "" become NaT, any other text is
   * handed to `parse`, which yields the UTC text form or None for NaT.
   * NaT formats to a null.
   */
  function NormalizeDate(d: Option<string>, parse: string -> Option<string>): (n: Option<string>)
    ensures n.Some? <==> d.Some? && d.value != "" && parse(d.value).Some?
    ensures n.Some? ==> n == parse(d.value)
  {
    match d
    case None => None
    case Some(s) => if s == "" then None else parse(s)
  }

  function NormalizeDateColumn(r: Row, parse: string -> Option<string>): Row {
    r.(date := NormalizeDate(r.date, parse))
  }

  /** The date step as a single row function, so the pipeline and its spec share it. */
  function DateStep(parse: string -> Option<string>): Row -> Row {
    r => NormalizeDateColumn(r, parse)
  }

  /** Removes every literal '$', keeping the other characters in order. */
  function StripDollar(s: string): (t: string)
    ensures '$' !in t
    ensures forall c :: c != '$' ==> multiset(t)[c] == multiset(s)[c]
  {
    if s == [] then []
    else
      assert s == [s[0]] + s[1..];
      (if s[0] == '$' then [] else [s[0]]) + StripDollar(s[1..])
  }

  /** Text without '$' is left as it is. */
  lemma {:induction false} StripDollarNoDollar(s: string)
    requires '$' !in s
    ensures StripDollar(s) == s
  {
    if s != [] {
      StripDollarNoDollar(s[1..]);
    }
  }

  /** Stripping twice is stripping once. */
  lemma StripDollarIdempotent(s: string)
    ensures StripDollar(StripDollar(s)) == StripDollar(s)
  {
    StripDollarNoDollar(StripDollar(s));
  }

  /** Stripping works piecewise, so the order of the kept characters is the input's. */
  lemma {:induction false} StripDollarAppend(a: string, b: string)
    ensures StripDollar(a + b) == StripDollar(a) + StripDollar(b)
  {
    if a == [] {
      assert a + b == b;
    } else {
      assert (a + b)[0] == a[0];
      assert (a + b)[1..] == a[1..] + b;
      StripDollarAppend(a[1..], b);
    }
  }

  function StripCurrencyColumn(r: Row): Row {
    r.(currency := if r.currency.Some? then Some(StripDollar(r.currency.value)) else None)
  }

  /** Upper-casing of one character (ASCII letters). */
  function UpperChar(c: char): char {
    if 'a' <= c <= 'z' then (c as int - 32) as char else c
  }

  /** Every lower-case letter becomes its own upper-case letter; nothing else changes. */
  function Upper(s: string): (t: string)
    ensures |t| == |s|
    ensures forall i :: 0 <= i < |t| ==> !('a' <= t[i] <= 'z')
    ensures forall i :: 0 <= i < |t| ==> ('a' <= s[i] <= 'z' <==> t[i] != s[i])
    ensures forall i :: 0 <= i < |s| && 'a' <= s[i] <= 'z' ==>
      'A' <= t[i] <= 'Z' && t[i] as int - 'A' as int == s[i] as int - 'a' as int
  {
    seq(|s|, i requires 0 <= i < |s| => UpperChar(s[i]))
  }

  /** Upper-casing an upper-cased text changes nothing. */
  lemma UpperIdempotent(s: string)
    ensures Upper(Upper(s)) == Upper(s)
  {
    var u := Upper(s);
    assert forall i :: 0 <= i < |u| ==> UpperChar(u[i]) == u[i];
  }

  function UpperTickerColumn(r: Row): Row {
    r.(ticker := if r.ticker.Some? then Some(Upper(r.ticker.value)) else None)
  }

  // --------------------------------------------------------- cleaning pass

  /** The cleaning pass, step by step, as it runs over the table. */
  function Clean(rows: seq<Row>, parse: string -> Option<string>): seq<Labeled> {
    var deduped := DropDuplicates(rows);
    var filled := MapRows(deduped, FillNulls);
    var kept := DropCriticalNulls(filled);
    var dated := MapRows(kept, DateStep(parse));
    var priced := MapRows(dated, StripCurrencyColumn);
    MapRows(priced, UpperTickerColumn)
  }

  /**
   * What cleaning does to one surviving row: every number filled (0 for
   * null), every text filled ("" for null) except Date, which is the parsed
   * UTC text or null, currency without '$', Ticker upper-cased.
   */
  function CleanRow(r: Row, parse: string -> Option<string>): (c: Row)
    ensures NumericFilled(c)
    ensures forall col :: NumValue(c, col) == Some(NumValue(r, col).GetOr(0))
    ensures c.industry == Some(r.industry.GetOr("")) && c.sector == Some(r.sector.GetOr(""))
    ensures c.currency == Some(StripDollar(r.currency.GetOr("")))
    ensures '$' !in c.currency.value
    ensures c.ticker == Some(Upper(r.ticker.GetOr("")))
    ensures c.date.Some? <==> r.date.Some? && r.date.value != "" && parse(r.date.value).Some?
    ensures c.date.Some? ==> c.date == parse(r.date.value)
  {
    UpperTickerColumn(StripCurrencyColumn(NormalizeDateColumn(FillNulls(r), parse)))
  }

  /**
   * The cleaned table has one row per first occurrence, in input order,
   * labelled with its input position: the critical-column drop removes
   * nothing because the fill came first.
   */
  lemma CleanAt(rows: seq<Row>, parse: string -> Option<string>)
    ensures |Clean(rows, parse)| == |DropDuplicates(rows)| == |DistinctRows(rows)|
    ensures forall j :: 0 <= j < |Clean(rows, parse)| ==>
      var i := DropDuplicates(rows)[j].idx;
      i < |rows| && Clean(rows, parse)[j] == Labeled(i, CleanRow(rows[i], parse))
  {
    DropDuplicatesKeepsFirst(rows);
    DropDuplicatesCount(rows);
    var filled := MapRows(DropDuplicates(rows), FillNulls);
    forall j | 0 <= j < |filled| ensures NumericFilled(filled[j].row) && StringsFilled(filled[j].row) {
    }
    DropCriticalNullsAfterFill(filled);
  }

  // --------------------------------------------------------------- validation

  datatype Check = CloseCheck | VolumeCheck | DateCheck | TickerCheck

  /** The order in which the checks run on a row. */
  function Rank(k: Check): nat {
    match k
    case CloseCheck => 0
    case VolumeCheck => 1
    case DateCheck => 2
    case TickerCheck => 3
  }

  function Message(k: Check): string {
    match k
    case CloseCheck => "Close price must be numeric and not null"
    case VolumeCheck => "Volume must be >= 0 and not null"
    case DateCheck => "Date must be present and a string"
    case TickerCheck => "Ticker must be present and a string"
  }

  /** When check `k` reports a problem in row `r`. */
  predicate Fails(k: Check, r: Row) {
    match k
    case CloseCheck => r.close.None?
    case VolumeCheck => r.volume.None? || r.volume.value < 0
    case DateCheck => r.date.None? || r.date.value == ""
    case TickerCheck => r.ticker.None? || r.ticker.value == ""
  }

  /** The checks that fail on `r`, in the order they run. */
  function FailingChecks(r: Row): (ks: seq<Check>)
    ensures forall k :: k in ks <==> Fails(k, r)
    ensures forall i, j :: 0 <= i < j < |ks| ==> Rank(ks[i]) < Rank(ks[j])
  {
    (if Fails(CloseCheck, r) then [CloseCheck] else [])
    + (if Fails(VolumeCheck, r) then [VolumeCheck] else [])
    + (if Fails(DateCheck, r) then [DateCheck] else [])
    + (if Fails(TickerCheck, r) then [TickerCheck] else [])
  }

  function Digit(d: nat): char
    requires d < 10
  {
    (48 + d) as char
  }

  /** Decimal text of a natural number, as Python formats an int. */
  function NatToString(n: nat): (s: string)
    ensures |s| >= 1
    ensures forall i :: 0 <= i < |s| ==> '0' <= s[i] <= '9'
    decreases n
  {
    if n < 10 then [Digit(n)] else NatToString(n / 10) + [Digit(n % 10)]
  }

  /** The number a decimal text denotes. */
  function DecimalValue(s: string): nat
    requires forall i :: 0 <= i < |s| ==> '0' <= s[i] <= '9'
  {
    if s == [] then 0
    else DecimalValue(s[..|s| - 1]) * 10 + (s[|s| - 1] as int - '0' as int)
  }

  /** The row number in an error message reads back as the row's label. */
  lemma {:induction false} NatToStringRoundTrip(n: nat)
    ensures DecimalValue(NatToString(n)) == n
  {
    if n >= 10 {
      NatToStringRoundTrip(n / 10);
      var s := NatToString(n);
      assert s[..|s| - 1] == NatToString(n / 10);
    }
  }

  function RowTag(idx: nat): string {
    "Row " + NatToString(idx) + ": "
  }

  function ErrorText(idx: nat, k: Check): string {
    RowTag(idx) + Message(k)
  }

  /** Different checks give different messages for the same row. */
  lemma ErrorTextInjective(idx: nat, k1: Check, k2: Check)
    requires ErrorText(idx, k1) == ErrorText(idx, k2)
    ensures k1 == k2
  {
    var tag := RowTag(idx);
    assert ErrorText(idx, k1)[|tag|..] == Message(k1);
    assert ErrorText(idx, k2)[|tag|..] == Message(k2);
    assert Message(k1)[0] == Message(k2)[0];
    assert |Message(k1)| == |Message(k2)|;
  }

  /** The messages for one row: one per failing check, in check order. */
  function RowErrors(idx: nat, r: Row): (errors: seq<string>)
    ensures |errors| == |FailingChecks(r)|
    ensures forall i :: 0 <= i < |errors| ==> errors[i] == ErrorText(idx, FailingChecks(r)[i])
  {
    var ks := FailingChecks(r);
    seq(|ks|, i requires 0 <= i < |ks| => ErrorText(idx, ks[i]))
  }

  /**
   * A row yields at most four messages, each tagged with the row's label,
   * and the message of check `k` is among them exactly when `k` fails.
   */
  lemma RowErrorsSpec(idx: nat, r: Row)
    ensures |RowErrors(idx, r)| <= 4
    ensures forall k :: ErrorText(idx, k) in RowErrors(idx, r) <==> Fails(k, r)
  {
    var ks := FailingChecks(r);
    var errors := RowErrors(idx, r);
    forall k | ErrorText(idx, k) in errors ensures Fails(k, r) {
      var i :| 0 <= i < |ks| && errors[i] == ErrorText(idx, k);
      ErrorTextInjective(idx, k, ks[i]);
    }
    forall k | Fails(k, r) ensures ErrorText(idx, k) in errors {
      var i :| 0 <= i < |ks| && ks[i] == k;
      assert errors[i] == ErrorText(idx, k);
    }
  }

  /** `f` of every element, the results appended in order. */
  function FlatMap<T>(f: T -> seq<string>, xs: seq<T>): seq<string> {
    if xs == [] then []
    else
      var n := |xs| - 1;
      FlatMap(f, xs[..n]) + f(xs[n])
  }

  /** Mapping over two pieces one after the other is mapping over the whole. */
  lemma {:induction false} FlatMapAppend<T>(f: T -> seq<string>, a: seq<T>, b: seq<T>)
    ensures FlatMap(f, a + b) == FlatMap(f, a) + FlatMap(f, b)
  {
    if b == [] {
      assert a + b == a;
    } else {
      var n := |b| - 1;
      assert (a + b)[..|a + b| - 1] == a + b[..n];
      assert (a + b)[|a + b| - 1] == b[n];
      FlatMapAppend(f, a, b[..n]);
    }
  }

  function LabeledErrors(l: Labeled): seq<string> {
    RowErrors(l.idx, l.row)
  }

  /** The validation pass: the messages of every row, appended in row order. */
  function ValidateAll(df: seq<Labeled>): seq<string> {
    FlatMap(LabeledErrors, df)
  }

  lemma ValidateAllLast(df: seq<Labeled>)
    requires df != []
    ensures ValidateAll(df) == ValidateAll(df[..|df| - 1]) + RowErrors(df[|df| - 1].idx, df[|df| - 1].row)
  {
  }

  lemma ValidateTwoRows(x: Labeled, y: Labeled)
    ensures ValidateAll([x, y]) == RowErrors(x.idx, x.row) + RowErrors(y.idx, y.row)
  {
    var ex, ey := RowErrors(x.idx, x.row), RowErrors(y.idx, y.row);
    assert [x, y][..1] == [x];
    assert [x][..0] == [];
    assert ValidateAll([x]) == ex by {
      ValidateAllLast([x]);
      assert [] + ex == ex;
    }
    ValidateAllLast([x, y]);
  }

  /** Validating a table is validating its two halves one after the other. */
  lemma ValidateAllAppend(a: seq<Labeled>, b: seq<Labeled>)
    ensures ValidateAll(a + b) == ValidateAll(a) + ValidateAll(b)
  {
    FlatMapAppend(LabeledErrors, a, b);
  }

  /** Each row contributes at most four messages. */
  lemma {:induction false} ValidateAllBound(df: seq<Labeled>)
    ensures |ValidateAll(df)| <= 4 * |df|
  {
    if df != [] {
      ValidateAllBound(df[..|df| - 1]);
      ValidateAllLast(df);
    }
  }

  /** The messages of row `j` stand between those of the rows before and after it. */
  lemma ValidateAllAt(df: seq<Labeled>, j: nat)
    requires j < |df|
    ensures ValidateAll(df) == ValidateAll(df[..j]) + RowErrors(df[j].idx, df[j].row) + ValidateAll(df[j + 1..])
  {
    var front := df[..j + 1];
    assert df == front + df[j + 1..];
    ValidateAllAppend(front, df[j + 1..]);
    assert front[..j] == df[..j];
    ValidateAllLast(front);
  }

  // ------------------------------------------------- consequences of the pass

  /** Every first occurrence of a row value is in the cleaned table, under its input position. */
  lemma FirstOccurrenceCleaned(rows: seq<Row>, parse: string -> Option<string>, i: nat)
    requires FirstOccurrence(rows, i)
    ensures Labeled(i, CleanRow(rows[i], parse)) in Clean(rows, parse)
  {
    var j := DropDuplicatesFind(rows, i);
    CleanAt(rows, parse);
    assert Clean(rows, parse)[j] == Labeled(i, CleanRow(rows[i], parse));
  }

  /** A message about row `j` of a table appears in the validation of the table. */
  lemma MessageOfRowReported(df: seq<Labeled>, j: nat, k: Check)
    requires j < |df| && Fails(k, df[j].row)
    ensures ErrorText(df[j].idx, k) in ValidateAll(df)
  {
    RowErrorsSpec(df[j].idx, df[j].row);
    ValidateAllAt(df, j);
  }

  /**
   * A row without a Ticker is not dropped: the fill turns the null into "",
   * which the critical-column drop does not see as missing. It stays with
   * an empty Ticker and is reported instead.
   */
  lemma MissingTickerKeptAndReported(rows: seq<Row>, parse: string -> Option<string>, i: nat)
    requires FirstOccurrence(rows, i) && rows[i].ticker.None?
    ensures exists j :: (0 <= j < |Clean(rows, parse)| &&
      Clean(rows, parse)[j].idx == i && Clean(rows, parse)[j].row.ticker == Some(""))
    ensures ErrorText(i, TickerCheck) in ValidateAll(Clean(rows, parse))
  {
    FirstOccurrenceCleaned(rows, parse, i);
    var df := Clean(rows, parse);
    var j :| 0 <= j < |df| && df[j] == Labeled(i, CleanRow(rows[i], parse));
    MessageOfRowReported(df, j, TickerCheck);
  }

  /**
   * A row whose Date is missing, empty or unparseable is not dropped either:
   * it stays with a null Date and is reported.
   */
  lemma BadDateKeptAndReported(rows: seq<Row>, parse: string -> Option<string>, i: nat)
    requires FirstOccurrence(rows, i)
    requires rows[i].date.None? || rows[i].date.value == "" || parse(rows[i].date.value).None?
    ensures exists j :: (0 <= j < |Clean(rows, parse)| &&
      Clean(rows, parse)[j].idx == i && Clean(rows, parse)[j].row.date.None?)
    ensures ErrorText(i, DateCheck) in ValidateAll(Clean(rows, parse))
  {
    FirstOccurrenceCleaned(rows, parse, i);
    var df := Clean(rows, parse);
    var j :| 0 <= j < |df| && df[j] == Labeled(i, CleanRow(rows[i], parse));
    MessageOfRowReported(df, j, DateCheck);
  }

  /**
   * When Close holds a value in some row, pandas keeps the column numeric and
   * the fill makes it 0 where it was null, so the Close check never reports.
   */
  lemma NoCloseMessages(rows: seq<Row>, parse: string -> Option<string>)
    requires DeclaredTypesKept(rows)
    ensures forall j :: 0 <= j < |Clean(rows, parse)| ==>
      var l := Clean(rows, parse)[j];
      ErrorText(l.idx, CloseCheck) !in RowErrors(l.idx, l.row)
  {
    CleanAt(rows, parse);
    var df := Clean(rows, parse);
    forall j | 0 <= j < |df| ensures ErrorText(df[j].idx, CloseCheck) !in RowErrors(df[j].idx, df[j].row) {
      assert NumValue(df[j].row, Close).Some?;
      RowErrorsSpec(df[j].idx, df[j].row);
    }
  }

  /**
   * A row with a negative Volume, a date that parses and a ticker yields
   * exactly one message, about the volume, tagged with the label it is
   * given. This describes the source for rows of batches that keep their
   * numeric dtypes (`DeclaredTypesKept`).
   */
  lemma NegativeVolumeReported(idx: nat, r: Row, parse: string -> Option<string>)
    requires r.volume.Some? && r.volume.value < 0
    requires r.date.Some? && r.date.value != "" && parse(r.date.value).Some? && parse(r.date.value).value != ""
    requires r.ticker.Some? && r.ticker.value != ""
    ensures RowErrors(idx, CleanRow(r, parse)) == [RowTag(idx) + "Volume must be >= 0 and not null"]
  {
    var c := CleanRow(r, parse);
    assert NumValue(c, Close).Some? && NumValue(c, Volume) == r.volume;
    assert FailingChecks(c) == [VolumeCheck];
  }

  /** A record with a value in every numeric column and no industry, sector or currency. */
  const SampleRow := Row(Some("2024-01-02"), Some(100), Some(110), Some(90), Some(105), Some(1000), Some(0),
                         None, None, Some(10), Some(5000), Some(100), Some(900), None, Some(1), Some(2),
                         Some(20), Some(18), Some("aapl"))

  /** A batch whose every row has every number keeps every numeric column numeric. */
  lemma NumbersPresentTypesKept(rows: seq<Row>)
    requires forall i :: 0 <= i < |rows| ==> NumericFilled(rows[i])
    ensures DeclaredTypesKept(rows)
  {
    if rows != [] {
      forall c ensures ColumnHasValue(rows, c) {
        assert NumValue(rows[0], c).Some?;
      }
    }
  }

  /**
   * A one-record batch keeps its record, cleaned, under label 0. A record
   * with every number present is exactly a one-record batch that keeps its
   * numeric dtypes.
   */
  lemma CleanSingle(r: Row, parse: string -> Option<string>)
    requires NumericFilled(r)
    ensures Clean([r], parse) == [Labeled(0, CleanRow(r, parse))]
  {
    assert DropDuplicates([r]) == [Labeled(0, r)] by {
      assert [r][..0] == [];
    }
    CleanAt([r], parse);
  }

  /** The cleaned sample record with a negative Volume, field by field. */
  lemma NegativeVolumeRow(parse: string -> Option<string>)
    requires parse("2024-01-02") == Some("2024-01-02T00:00:00Z")
    ensures CleanRow(SampleRow.(volume := Some(-5)), parse)
      == Row(Some("2024-01-02T00:00:00Z"), Some(100), Some(110), Some(90), Some(105), Some(-5), Some(0),
             Some(""), Some(""), Some(10), Some(5000), Some(100), Some(900), Some(""), Some(1), Some(2),
             Some(20), Some(18), Some("AAPL"))
    ensures RowErrors(0, CleanRow(SampleRow.(volume := Some(-5)), parse)) == ["Row 0: " + "Volume must be >= 0 and not null"]
  {
    assert Upper("aapl") == "AAPL";
    NegativeVolumeReported(0, SampleRow.(volume := Some(-5)), parse);
    assert NatToString(0) == "0";
    assert RowTag(0) == "Row 0: ";
  }

  /**
   * One record with a negative volume and a value in every numeric column:
   * it is kept, filled and normalised, and the only message is about its
   * volume.
   */
  lemma NegativeVolumeBatch(parse: string -> Option<string>)
    requires parse("2024-01-02") == Some("2024-01-02T00:00:00Z")
    ensures DeclaredTypesKept([SampleRow.(volume := Some(-5))])
    ensures
      var out := Clean([SampleRow.(volume := Some(-5))], parse);
      && RowsOf(out) == [Row(Some("2024-01-02T00:00:00Z"), Some(100), Some(110), Some(90), Some(105), Some(-5), Some(0),
                             Some(""), Some(""), Some(10), Some(5000), Some(100), Some(900), Some(""), Some(1), Some(2),
                             Some(20), Some(18), Some("AAPL"))]
      && ValidateAll(out) == ["Row 0: " + "Volume must be >= 0 and not null"]
  {
    var input := SampleRow.(volume := Some(-5));
    NumbersPresentTypesKept([input]);
    CleanSingle(input, parse);
    NegativeVolumeRow(parse);
    var out := Clean([input], parse);
    ValidateAllLast(out);
    assert out[..0] == [];
  }

  /** Of three rows whose first two are equal, duplicate removal keeps the labels 0 and 2. */
  lemma DropDuplicatesPair(a: Row, b: Row)
    requires a != b
    ensures DropDuplicates([a, a, b]) == [Labeled(0, a), Labeled(2, b)]
  {
    var rows := [a, a, b];
    assert DropDuplicates([a]) == [Labeled(0, a)] by {
      assert [a][..0] == [];
    }
    assert DropDuplicates([a, a]) == [Labeled(0, a)] by {
      assert [a, a][..1] == [a];
    }
    assert rows[..2] == [a, a];
  }

  /**
   * Duplicate removal keeps index labels: of three rows whose first two are
   * equal, the survivors are labelled 0 and 2.
   */
  lemma DuplicateRemovalKeepsLabels(a: Row, b: Row, parse: string -> Option<string>)
    requires DeclaredTypesKept([a, a, b])
    requires a != b
    ensures Clean([a, a, b], parse) == [Labeled(0, CleanRow(a, parse)), Labeled(2, CleanRow(b, parse))]
  {
    DropDuplicatesPair(a, b);
    CleanAt([a, a, b], parse);
  }

  /** The cleaned sample row gives no message; with a negative Volume, only the Volume message. */
  lemma SampleRowErrors(parse: string -> Option<string>)
    requires parse("2024-01-02") == Some("2024-01-02T00:00:00Z")
    ensures RowErrors(0, CleanRow(SampleRow.(ticker := Some("MSFT")), parse)) == []
    ensures RowErrors(2, CleanRow(SampleRow.(ticker := Some("MSFT"), volume := Some(-5)), parse))
      == ["Row 2: " + "Volume must be >= 0 and not null"]
  {
    var good := SampleRow.(ticker := Some("MSFT"));
    var c := CleanRow(good, parse);
    assert Upper("MSFT") == "MSFT";
    assert NumValue(c, Close) == Some(105) && NumValue(c, Volume) == Some(1000);
    assert FailingChecks(c) == [];
    NegativeVolumeReported(2, good.(volume := Some(-5)), parse);
    assert NatToString(2) == "2";
    assert RowTag(2) == "Row 2: ";
  }

  /**
   * Messages quote the label a row had in the request, not its position
   * among the rows that survive duplicate removal.
   */
  lemma MessagesUseInputPositions(parse: string -> Option<string>)
    requires parse("2024-01-02") == Some("2024-01-02T00:00:00Z")
    ensures
      var good := SampleRow.(ticker := Some("MSFT"));
      DeclaredTypesKept([good, good, good.(volume := Some(-5))])
    ensures
      var good := SampleRow.(ticker := Some("MSFT"));
      var bad := good.(volume := Some(-5));
      ValidateAll(Clean([good, good, bad], parse)) == ["Row 2: " + "Volume must be >= 0 and not null"]
  {
    var good := SampleRow.(ticker := Some("MSFT"));
    var bad := good.(volume := Some(-5));
    NumbersPresentTypesKept([good, good, bad]);
    DuplicateRemovalKeepsLabels(good, bad, parse);
    SampleRowErrors(parse);
    var out := Clean([good, good, bad], parse);
    ValidateTwoRows(out[0], out[1]);
    assert out == [out[0], out[1]];
  }

  // ------------------------------------------------------ imperative pipeline

  method DropDuplicatesStep(rows: seq<Row>) returns (df: seq<Labeled>)
    ensures df == DropDuplicates(rows)
  {
    var seen: set<Row> := {};
    df := [];
    for i := 0 to |rows|
      invariant seen == DistinctRows(rows[..i])
      invariant df == DropDuplicates(rows[..i])
    {
      assert rows[..i + 1][..i] == rows[..i];
      assert DistinctRows(rows[..i + 1]) == seen + {rows[i]};
      if rows[i] !in seen {
        df := df + [Labeled(i, rows[i])];
        seen := seen + {rows[i]};
      }
    }
    assert rows[..|rows|] == rows;
  }

  method ApplyToRows(df: seq<Labeled>, f: Row -> Row) returns (out: seq<Labeled>)
    ensures out == MapRows(df, f)
  {
    out := [];
    for i := 0 to |df|
      invariant |out| == i
      invariant forall j :: 0 <= j < i ==> out[j] == Labeled(df[j].idx, f(df[j].row))
    {
      out := out + [Labeled(df[i].idx, f(df[i].row))];
    }
  }

  method DropCriticalStep(df: seq<Labeled>) returns (out: seq<Labeled>)
    ensures out == DropCriticalNulls(df)
  {
    out := [];
    for i := 0 to |df|
      invariant out == DropCriticalNulls(df[..i])
    {
      assert df[..i + 1][..i] == df[..i];
      if !CriticalMissing(df[i].row) {
        out := out + [df[i]];
      }
    }
    assert df[..|df|] == df;
  }

  method Validate(df: seq<Labeled>) returns (errors: seq<string>)
    ensures errors == ValidateAll(df)
  {
    errors := [];
    for i := 0 to |df|
      invariant errors == ValidateAll(df[..i])
    {
      assert df[..i + 1][..i] == df[..i];
      var rowErrors := RowErrors(df[i].idx, df[i].row);
      errors := errors + rowErrors;
    }
    assert df[..|df|] == df;
  }

  /**
   * The whole transform: clean, then validate, and hand the batch id back
   * as received. `parse` stands for the date parser and UTC formatter.
   */
  method TransformData(request: TransformRequest, parse: string -> Option<string>)
    returns (response: TransformResponse)
    requires DeclaredTypesKept(request.data)
    ensures response.batchId == request.batchId
    ensures response.data == RowsOf(Clean(request.data, parse))
    ensures response.errors == ValidateAll(Clean(request.data, parse))
    ensures |response.data| == |DistinctRows(request.data)|
  {
    var df := DropDuplicatesStep(request.data);
    df := ApplyToRows(df, FillNulls);
    df := DropCriticalStep(df);
    df := ApplyToRows(df, DateStep(parse));
    df := ApplyToRows(df, StripCurrencyColumn);
    df := ApplyToRows(df, UpperTickerColumn);
    var errors := Validate(df);
    CleanAt(request.data, parse);
    response := TransformResponse(request.batchId, RowsOf(df), errors);
  }
}
