/**
 * What both extract services share: parsing the comma-separated ticker list,
 * selecting the company-information fields, and flattening the rows of a
 * price history into flat records.
 */
module RecordAssembly {
  import opened Wrappers

  // ------------------------------------------------------------ ticker list

  /** The characters Python's `str.strip()` removes. */
  predicate IsSpace(c: char) {
    || 9 <= c as int <= 13 || 28 <= c as int <= 32
    || c as int == 0x85 || c as int == 0xA0 || c as int == 0x1680
    || 0x2000 <= c as int <= 0x200A
    || c as int == 0x2028 || c as int == 0x2029 || c as int == 0x202F
    || c as int == 0x205F || c as int == 0x3000
  }

  /** Drops the leading whitespace. */
  function TrimLeft(s: string): (t: string)
    ensures |t| <= |s| && t == s[|s| - |t|..]
    ensures forall i :: 0 <= i < |s| - |t| ==> IsSpace(s[i])
    ensures t == [] || !IsSpace(t[0])
  {
    if s != [] && IsSpace(s[0]) then TrimLeft(s[1..]) else s
  }

  /** Drops the trailing whitespace. */
  function TrimRight(s: string): (t: string)
    ensures |t| <= |s| && t == s[..|t|]
    ensures forall i :: |t| <= i < |s| ==> IsSpace(s[i])
    ensures t == [] || !IsSpace(t[|t| - 1])
  {
    if s != [] && IsSpace(s[|s| - 1]) then TrimRight(s[..|s| - 1]) else s
  }

  /** Only whitespace stands before position `i` and from position `j` on. */
  predicate SpaceOutside(s: string, i: int, j: int) {
    && 0 <= i <= j <= |s|
    && (forall k :: 0 <= k < i ==> IsSpace(s[k]))
    && (forall k :: j <= k < |s| ==> IsSpace(s[k]))
  }

  /** Python's `str.strip()`: the text between the leading and the trailing whitespace. */
  function Strip(s: string): (t: string)
    ensures |t| <= |s|
    ensures t == [] || Trimmed(t)
  {
    TrimRight(TrimLeft(s))
  }

  /** The strip is the slice that remains once only whitespace is cut from either end. */
  lemma StripSlice(s: string)
    ensures exists i, j :: SpaceOutside(s, i, j) && Strip(s) == s[i..j]
  {
    var i, j := StripBounds(s);
  }

  /** Where the strip of `s` starts and ends. */
  lemma StripBounds(s: string) returns (i: int, j: int)
    ensures SpaceOutside(s, i, j) && Strip(s) == s[i..j]
  {
    var l := TrimLeft(s);
    var t := TrimRight(l);
    i := |s| - |l|;
    j := i + |t|;
    PrefixOfSuffix(s, i, |t|, IsSpace);
  }

  /**
   * Of the suffix of `s` from `i`, the first `n` elements are `s[i..i + n]`,
   * and what `P` says of the rest of that suffix it says of `s` from `i + n`.
   */
  lemma PrefixOfSuffix<T>(s: seq<T>, i: int, n: int, P: T -> bool)
    requires 0 <= i && 0 <= n && i + n <= |s|
    ensures s[i..][..n] == s[i..i + n]
    ensures (forall k :: n <= k < |s| - i ==> P(s[i..][k])) ==> forall k :: i + n <= k < |s| ==> P(s[k])
  {
    if forall k :: n <= k < |s| - i ==> P(s[i..][k]) {
      forall k | i + n <= k < |s| ensures P(s[k]) {
        assert s[k] == s[i..][k - i];
      }
    }
  }

  /** The strip is empty exactly when the text is all whitespace. */
  lemma StripEmpty(s: string)
    ensures Strip(s) == [] <==> forall i :: 0 <= i < |s| ==> IsSpace(s[i])
  {
    var i, j := StripBounds(s);
    if Strip(s) == [] {
      forall k | 0 <= k < |s| ensures IsSpace(s[k]) {
        assert k < i || j <= k;
      }
    } else {
      assert Strip(s)[0] == s[i];
    }
  }

  /** Stripping adds no character. */
  lemma StripChars(s: string)
    ensures forall c :: c in Strip(s) ==> c in s
  {
    var i, j := StripBounds(s);
    assert forall k :: 0 <= k < j - i ==> Strip(s)[k] == s[i + k];
  }

  /** Non-empty text with no whitespace at either end. */
  predicate Trimmed(t: string) {
    t != [] && !IsSpace(t[0]) && !IsSpace(t[|t| - 1])
  }

  /** Text with no whitespace at either end is its own strip. */
  lemma StripStripped(s: string)
    requires Trimmed(s)
    ensures Strip(s) == s
  {
    assert TrimLeft(s) == s;
    assert TrimRight(s) == s;
  }

  /** Python's `str.split(sep)`: the pieces between separators, at least one. */
  function Split(s: string, sep: char): (parts: seq<string>)
    ensures |parts| >= 1
    ensures forall i :: 0 <= i < |parts| ==> sep !in parts[i]
  {
    if s == [] then [[]]
    else
      var rest := Split(s[1..], sep);
      if s[0] == sep then [[]] + rest
      else [[s[0]] + rest[0]] + rest[1..]
  }

  /** The pieces glued back together with the separator between them. */
  function Join(parts: seq<string>, sep: char): string {
    if parts == [] then []
    else if |parts| == 1 then parts[0]
    else parts[0] + [sep] + Join(parts[1..], sep)
  }

  /** Splitting at a separator splits the text into the pieces of either side. */
  lemma {:induction false} SplitAppend(a: string, b: string, sep: char)
    ensures Split(a + [sep] + b, sep) == Split(a, sep) + Split(b, sep)
  {
    var s := a + [sep] + b;
    if a == [] {
      assert s == [sep] + b;
      assert s[1..] == b;
    } else {
      assert s[0] == a[0];
      assert s[1..] == a[1..] + [sep] + b;
      SplitAppend(a[1..], b, sep);
    }
  }

  /** Joining the pieces of a split gives the text back. */
  lemma {:induction false} JoinSplit(s: string, sep: char)
    ensures Join(Split(s, sep), sep) == s
  {
    if s != [] {
      JoinSplit(s[1..], sep);
      var rest := Split(s[1..], sep);
      if s[0] == sep {
        assert ([[]] + rest)[1..] == rest;
      } else {
        var parts := [[s[0]] + rest[0]] + rest[1..];
        if |rest| == 1 {
          assert Join(rest, sep) == rest[0];
        } else {
          assert Join(rest, sep) == rest[0] + [sep] + Join(rest[1..], sep);
          assert parts[1..] == rest[1..];
        }
        assert s == [s[0]] + s[1..];
      }
    }
  }

  /** Splitting a join of separator-free pieces gives the pieces back. */
  lemma {:induction false} SplitJoin(parts: seq<string>, sep: char)
    requires |parts| >= 1
    requires forall i :: 0 <= i < |parts| ==> sep !in parts[i]
    ensures Split(Join(parts, sep), sep) == parts
  {
    if |parts| == 1 {
      SplitWithoutSeparator(parts[0], sep);
    } else {
      SplitJoin(parts[1..], sep);
      SplitAppend(parts[0], Join(parts[1..], sep), sep);
      SplitWithoutSeparator(parts[0], sep);
      assert parts == [parts[0]] + parts[1..];
    }
  }

  /** Text without the separator is a single piece. */
  lemma {:induction false} SplitWithoutSeparator(s: string, sep: char)
    requires sep !in s
    ensures Split(s, sep) == [s]
  {
    if s != [] {
      SplitWithoutSeparator(s[1..], sep);
      assert s == [s[0]] + s[1..];
    }
  }

  /** `[f(x) for x in xs]`. */
  function MapSeq<A, B>(f: A -> B, xs: seq<A>): (ys: seq<B>)
    ensures |ys| == |xs|
    ensures forall i :: 0 <= i < |xs| ==> ys[i] == f(xs[i])
  {
    seq(|xs|, i requires 0 <= i < |xs| => f(xs[i]))
  }

  lemma MapSeqAppend<A, B>(f: A -> B, a: seq<A>, b: seq<A>)
    ensures MapSeq(f, a + b) == MapSeq(f, a) + MapSeq(f, b)
  {
    var l, r := MapSeq(f, a + b), MapSeq(f, a) + MapSeq(f, b);
    forall i | 0 <= i < |l| ensures l[i] == r[i] {
      if i < |a| {
        assert (a + b)[i] == a[i];
      } else {
        assert (a + b)[i] == b[i - |a|];
      }
    }
  }

  /** The texts that are not empty, in order. */
  function NonBlank(xs: seq<string>): (ys: seq<string>)
    ensures |ys| <= |xs|
    ensures forall j :: 0 <= j < |ys| ==> ys[j] != []
  {
    if xs == [] then []
    else if xs[0] == [] then NonBlank(xs[1..])
    else [xs[0]] + NonBlank(xs[1..])
  }

  /** Filtering keeps exactly the non-empty texts: each kept text is an input, each non-empty input is kept. */
  lemma {:induction false} NonBlankMembers(xs: seq<string>)
    ensures forall j :: 0 <= j < |NonBlank(xs)| ==> NonBlank(xs)[j] in xs
    ensures forall i :: 0 <= i < |xs| && xs[i] != [] ==> xs[i] in NonBlank(xs)
  {
    if xs != [] {
      NonBlankMembers(xs[1..]);
      var ys := NonBlank(xs);
      var rest := NonBlank(xs[1..]);
      assert forall x :: x in xs[1..] ==> x in xs;
      if xs[0] != [] {
        assert ys == [xs[0]] + rest;
        assert forall j :: 1 <= j < |ys| ==> ys[j] == rest[j - 1];
      }
      forall i | 0 <= i < |xs| && xs[i] != [] ensures xs[i] in ys {
        if i > 0 {
          assert xs[1..][i - 1] == xs[i];
        }
      }
    }
  }

  /** Filtering works piecewise, keeping the order. */
  lemma {:induction false} NonBlankAppend(a: seq<string>, b: seq<string>)
    ensures NonBlank(a + b) == NonBlank(a) + NonBlank(b)
  {
    if a == [] {
      assert a + b == b;
    } else {
      assert (a + b)[0] == a[0];
      assert (a + b)[1..] == a[1..] + b;
      NonBlankAppend(a[1..], b);
    }
  }

  /** The list `[t.strip() for t in s.split(",") if t.strip()]`. */
  function ParseTickers(s: string): seq<string> {
    NonBlank(MapSeq(Strip, Split(s, ',')))
  }

  /** A ticker as the parser yields it: non-empty, no whitespace at either end, no comma. */
  predicate CleanTicker(t: string) {
    Trimmed(t) && ',' !in t
  }

  /**
   * Every parsed ticker is non-empty, has no whitespace at either end and
   * holds no comma.
   */
  lemma ParseTickersClean(s: string)
    ensures forall j :: 0 <= j < |ParseTickers(s)| ==> CleanTicker(ParseTickers(s)[j])
  {
    var parts := Split(s, ',');
    var stripped := MapSeq(Strip, parts);
    forall i | 0 <= i < |stripped| && stripped[i] != [] ensures CleanTicker(stripped[i]) {
      StripPieceClean(parts[i]);
    }
    NonBlankKeeps(stripped, CleanTicker);
  }

  /** A property every non-empty input has, every kept text has. */
  lemma {:induction false} NonBlankKeeps(xs: seq<string>, P: string -> bool)
    requires forall i :: 0 <= i < |xs| && xs[i] != [] ==> P(xs[i])
    ensures forall j :: 0 <= j < |NonBlank(xs)| ==> P(NonBlank(xs)[j])
  {
    if xs != [] {
      NonBlankKeeps(xs[1..], P);
      if xs[0] != [] {
        var ys := NonBlank(xs);
        assert ys == [xs[0]] + NonBlank(xs[1..]);
        assert forall j :: 1 <= j < |ys| ==> ys[j] == NonBlank(xs[1..])[j - 1];
      }
    }
  }

  /** A comma-free piece whose strip is not empty strips to a trimmed comma-free ticker. */
  lemma StripPieceClean(p: string)
    requires ',' !in p && Strip(p) != []
    ensures CleanTicker(Strip(p))
  {
    StripChars(p);
  }

  /** The tickers are exactly the non-blank stripped comma-separated pieces. */
  lemma ParseTickersPieces(s: string)
    ensures forall p :: p in Split(s, ',') && Strip(p) != [] ==> Strip(p) in ParseTickers(s)
    ensures forall t :: t in ParseTickers(s) ==> exists p :: p in Split(s, ',') && t == Strip(p)
  {
    var parts := Split(s, ',');
    var stripped := MapSeq(Strip, parts);
    NonBlankMembers(stripped);
    forall p | p in parts && Strip(p) != [] ensures Strip(p) in ParseTickers(s) {
      var i :| 0 <= i < |parts| && parts[i] == p;
      assert stripped[i] == Strip(p);
    }
    forall t | t in ParseTickers(s) ensures exists p :: p in parts && t == Strip(p) {
      var i :| 0 <= i < |stripped| && stripped[i] == t;
      assert parts[i] in parts;
    }
  }

  /** The tickers of two comma-joined lists are those of the first, then those of the second. */
  lemma ParseTickersAppend(a: string, b: string)
    ensures ParseTickers(a + "," + b) == ParseTickers(a) + ParseTickers(b)
  {
    var pa, pb := Split(a, ','), Split(b, ',');
    assert a + "," + b == a + [','] + b;
    SplitAppend(a, b, ',');
    MapSeqAppend(Strip, pa, pb);
    NonBlankAppend(MapSeq(Strip, pa), MapSeq(Strip, pb));
  }

  /** A list of clean tickers joined with commas parses back to itself. */
  lemma ParseTickersJoin(ts: seq<string>)
    requires forall j :: 0 <= j < |ts| ==> Trimmed(ts[j]) && ',' !in ts[j]
    ensures ParseTickers(Join(ts, ',')) == ts
  {
    if ts == [] {
      assert Split([], ',') == [[]];
      assert MapSeq(Strip, [[]]) == [[]];
    } else {
      SplitJoin(ts, ',');
      StripAllTrimmed(ts);
      NonBlankAll(ts);
    }
  }

  /** Stripping text without whitespace at either end changes nothing. */
  lemma StripAllTrimmed(ts: seq<string>)
    requires forall j :: 0 <= j < |ts| ==> Trimmed(ts[j])
    ensures MapSeq(Strip, ts) == ts
  {
    forall j | 0 <= j < |ts| ensures Strip(ts[j]) == ts[j] {
      StripStripped(ts[j]);
    }
  }

  lemma {:induction false} NonBlankAll(ts: seq<string>)
    requires forall j :: 0 <= j < |ts| ==> ts[j] != []
    ensures NonBlank(ts) == ts
  {
    if ts != [] {
      NonBlankAll(ts[1..]);
      assert ts == [ts[0]] + ts[1..];
    }
  }

  // ------------------------------------------------------------------ records

  /** A value of a flat record: a number, a text, or null. */
  datatype Value = Null | Num(n: int) | Str(s: string)

  /** The company-information fields the services select, in `SELECTED_INFO_FIELDS` order. */
  datatype InfoField =
    | Industry | Sector | FullTimeEmployees | MarketCap | PreviousClose
    | AverageVolume | Currency | DividendRate | DividendYield | TrailingPE | ForwardPE

  /** The price keys of a record. */
  datatype PriceKey = Date | Open | High | Low | Close | Volume | Dividend

  /** The keys a flat record can carry: the seven price keys, the selected fields and Ticker. */
  datatype Key = Price(p: PriceKey) | Field(f: InfoField) | Ticker

  /** The name a field has in the provider's information dictionary and in the records. */
  function FieldName(f: InfoField): string {
    match f
    case Industry => "industry"
    case Sector => "sector"
    case FullTimeEmployees => "fullTimeEmployees"
    case MarketCap => "marketCap"
    case PreviousClose => "previousClose"
    case AverageVolume => "averageVolume"
    case Currency => "currency"
    case DividendRate => "dividendRate"
    case DividendYield => "dividendYield"
    case TrailingPE => "trailingPE"
    case ForwardPE => "forwardPE"
  }

  /** The name of a key in a record, as the services spell it. */
  function KeyName(k: Key): string {
    match k
    case Price(Date) => "Date"
    case Price(Open) => "Open"
    case Price(High) => "High"
    case Price(Low) => "Low"
    case Price(Close) => "Close"
    case Price(Volume) => "Volume"
    case Price(Dividend) => "Dividend"
    case Field(f) => FieldName(f)
    case Ticker => "Ticker"
  }

  /** Distinct keys have distinct names, so merging the selected fields into a price record overwrites nothing. */
  lemma KeyNameInjective(k1: Key, k2: Key)
    requires k1 != k2
    ensures KeyName(k1) != KeyName(k2)
  {
    assert KeyName(k1)[0] != KeyName(k2)[0] || |KeyName(k1)| != |KeyName(k2)| || KeyName(k1)[1..] != KeyName(k2)[1..];
  }

  type Record = map<Key, Value>

  /** Company information as the data provider gives it, under the provider's own names. */
  type Info = map<string, Value>

  /**
   * One row of a price history. `date` is the row's date already rendered
   * as text; a price column the history lacks reads as None, and so does a
   * missing Dividends column.
   */
  datatype HistoryRow = HistoryRow(
    date: string,
    open: Option<int>,
    high: Option<int>,
    low: Option<int>,
    close: Option<int>,
    volume: Option<int>,
    dividends: Option<int>)

  const SelectedInfoFields: seq<InfoField> := [
    Industry, Sector, FullTimeEmployees, MarketCap, PreviousClose,
    AverageVolume, Currency, DividendRate, DividendYield, TrailingPE, ForwardPE
  ]

  /** `info.get(k)`: the value under `k`, or null. */
  function Get(info: Info, k: string): Value {
    if k in info then info[k] else Null
  }

  function OptValue(v: Option<int>): Value {
    match v
    case Some(x) => Num(x)
    case None => Null
  }

  /** Every field of the enumeration is one the services select. */
  lemma FieldSelected(g: InfoField)
    ensures g in SelectedInfoFields
  {
    match g
    case Industry => assert SelectedInfoFields[0] == g;
    case Sector => assert SelectedInfoFields[1] == g;
    case FullTimeEmployees => assert SelectedInfoFields[2] == g;
    case MarketCap => assert SelectedInfoFields[3] == g;
    case PreviousClose => assert SelectedInfoFields[4] == g;
    case AverageVolume => assert SelectedInfoFields[5] == g;
    case Currency => assert SelectedInfoFields[6] == g;
    case DividendRate => assert SelectedInfoFields[7] == g;
    case DividendYield => assert SelectedInfoFields[8] == g;
    case TrailingPE => assert SelectedInfoFields[9] == g;
    case ForwardPE => assert SelectedInfoFields[10] == g;
  }

  /**
   * `{k: info.get(k) for k in SELECTED_INFO_FIELDS}` with Ticker added:
   * every selected field, null where the provider has none, and the ticker.
   */
  function FilterInfo(info: Info, ticker: string): (f: Record)
    ensures forall g :: Field(g) in f && f[Field(g)] == Get(info, FieldName(g))
    ensures Ticker in f && f[Ticker] == Str(ticker)
  {
    var selected := map g | g in SelectedInfoFields :: Field(g) := Get(info, FieldName(g));
    assert forall g :: Field(g) in selected by {
      forall g ensures Field(g) in selected {
        FieldSelected(g);
      }
    }
    selected[Ticker := Str(ticker)]
  }

  /** The filtered information holds no price key. */
  lemma FilterInfoKeys(info: Info, ticker: string)
    ensures forall k :: k in FilterInfo(info, ticker) ==> !k.Price?
  {
  }

  /**
   * The record of one history row: each price key with the row's value,
   * Dividend 0 where the history has no Dividends column.
   */
  function HistoryRecord(row: HistoryRow): (rec: Record)
    ensures Price(Date) in rec && rec[Price(Date)] == Str(row.date)
    ensures Price(Open) in rec && rec[Price(Open)] == OptValue(row.open)
    ensures Price(High) in rec && rec[Price(High)] == OptValue(row.high)
    ensures Price(Low) in rec && rec[Price(Low)] == OptValue(row.low)
    ensures Price(Close) in rec && rec[Price(Close)] == OptValue(row.close)
    ensures Price(Volume) in rec && rec[Price(Volume)] == OptValue(row.volume)
    ensures Price(Dividend) in rec
    ensures row.dividends.None? ==> rec[Price(Dividend)] == Num(0)
    ensures row.dividends.Some? ==> rec[Price(Dividend)] == Num(row.dividends.value)
  {
    map[
      Price(Date) := Str(row.date),
      Price(Open) := OptValue(row.open),
      Price(High) := OptValue(row.high),
      Price(Low) := OptValue(row.low),
      Price(Close) := OptValue(row.close),
      Price(Volume) := OptValue(row.volume),
      Price(Dividend) := Num(row.dividends.GetOr(0))]
  }

  /** A history record holds price keys only. */
  lemma HistoryRecordPriceOnly(row: HistoryRow)
    ensures forall k :: k in HistoryRecord(row) ==> k.Price?
  {
  }

  /** A history record holds every price key. */
  lemma HistoryRecordHasPrices(row: HistoryRow)
    ensures forall p :: Price(p) in HistoryRecord(row)
  {
    forall p ensures Price(p) in HistoryRecord(row) {
      match p
      case Date =>
      case Open =>
      case High =>
      case Low =>
      case Close =>
      case Volume =>
      case Dividend =>
    }
  }

  /** `record.update(filtered_info)`: a history row merged with the filtered company information. */
  function ExtractRecord(row: HistoryRow, info: Info, ticker: string): Record {
    HistoryRecord(row) + FilterInfo(info, ticker)
  }

  /**
   * In a merged record the price keys keep their row values, every selected
   * field is `info.get(name)` and Ticker is the ticker: the two parts share
   * no key, so the merge overwrites nothing.
   */
  lemma ExtractRecordSpec(row: HistoryRow, info: Info, ticker: string)
    ensures var rec := ExtractRecord(row, info, ticker);
      && (forall k :: k in HistoryRecord(row) ==> k in rec && rec[k] == HistoryRecord(row)[k])
      && (forall g :: Field(g) in rec && rec[Field(g)] == Get(info, FieldName(g)))
      && Ticker in rec && rec[Ticker] == Str(ticker)
  {
    HistoryRecordPriceOnly(row);
    FilterInfoKeys(info, ticker);
  }

  /** A merged record carries every key there is. */
  lemma ExtractRecordKeys(row: HistoryRow, info: Info, ticker: string)
    ensures forall k :: k in ExtractRecord(row, info, ticker)
  {
    var rec := ExtractRecord(row, info, ticker);
    ExtractRecordSpec(row, info, ticker);
    forall k ensures k in rec {
      match k
      case Price(p) => HistoryRecordHasPrices(row);
      case Field(g) =>
      case Ticker =>
    }
  }

  function ExtractedRecords(hist: seq<HistoryRow>, info: Info, ticker: string): (records: seq<Record>)
    ensures |records| == |hist|
    ensures forall i :: 0 <= i < |hist| ==> records[i] == ExtractRecord(hist[i], info, ticker)
  {
    seq(|hist|, i requires 0 <= i < |hist| => ExtractRecord(hist[i], info, ticker))
  }

  /** Merging the information filtered once, before the loop, into a row gives that row's record. */
  lemma MergeIsExtract(row: HistoryRow, info: Info, ticker: string, filtered: Record)
    requires filtered == FilterInfo(info, ticker)
    ensures HistoryRecord(row) + filtered == ExtractRecord(row, info, ticker)
  {
  }

  /** The records of a ticker: one per history row, in row order. */
  method AssembleRecords(hist: seq<HistoryRow>, info: Info, ticker: string) returns (records: seq<Record>)
    ensures |records| == |hist|
    ensures forall i :: 0 <= i < |hist| ==> records[i] == ExtractRecord(hist[i], info, ticker)
  {
    var filtered := FilterInfo(info, ticker);
    records := [];
    for i := 0 to |hist|
      invariant |records| == i
      invariant forall j :: 0 <= j < i ==> records[j] == ExtractRecord(hist[j], info, ticker)
    {
      var record := HistoryRecord(hist[i]);
      record := record + filtered;
      MergeIsExtract(hist[i], info, ticker, filtered);
      records := records + [record];
    }
  }

  /** The price-only records of a history: one per row, in row order. */
  method CollectHistory(hist: seq<HistoryRow>) returns (records: seq<Record>)
    ensures |records| == |hist|
    ensures forall i :: 0 <= i < |hist| ==> records[i] == HistoryRecord(hist[i])
  {
    records := [];
    for i := 0 to |hist|
      invariant |records| == i
      invariant forall j :: 0 <= j < i ==> records[j] == HistoryRecord(hist[j])
    {
      records := records + [HistoryRecord(hist[i])];
    }
  }

  // ----------------------------------------------------- per-ticker results

  /**
   * The dictionary built by `all_data[keys[i]] = values[i]` for i in order:
   * a key listed twice ends up with the value of its last occurrence.
   */
  function Collect<V>(keys: seq<string>, values: seq<V>): (m: map<string, V>)
    requires |keys| == |values|
    decreases |keys|
  {
    if keys == [] then map[]
    else
      var n := |keys| - 1;
      Collect(keys[..n], values[..n])[keys[n] := values[n]]
  }

  /** Filling one more key updates the dictionary filled so far. */
  lemma CollectPrefix<V>(keys: seq<string>, values: seq<V>, i: nat)
    requires |keys| == |values| && i < |keys|
    ensures Collect(keys[..i + 1], values[..i + 1]) == Collect(keys[..i], values[..i])[keys[i] := values[i]]
  {
    assert keys[..i + 1][..i] == keys[..i];
    assert values[..i + 1][..i] == values[..i];
  }

  /** The dictionary has exactly one entry per distinct key. */
  lemma {:induction false} CollectKeys<V>(keys: seq<string>, values: seq<V>)
    requires |keys| == |values|
    ensures Collect(keys, values).Keys == set k | k in keys
  {
    if keys != [] {
      var n := |keys| - 1;
      CollectKeys(keys[..n], values[..n]);
      assert keys == keys[..n] + [keys[n]];
      assert (set k | k in keys) == (set k | k in keys[..n]) + {keys[n]};
    }
  }

  /** A key's entry holds the value given at its last occurrence. */
  lemma {:induction false} CollectAt<V>(keys: seq<string>, values: seq<V>, i: nat)
    requires |keys| == |values| && i < |keys|
    requires forall j :: i < j < |keys| ==> keys[j] != keys[i]
    ensures keys[i] in Collect(keys, values) && Collect(keys, values)[keys[i]] == values[i]
  {
    var n := |keys| - 1;
    if i < n {
      CollectAt(keys[..n], values[..n], i);
    }
  }
}
