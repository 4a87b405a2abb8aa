/**
 * The extract service with error handling (extract_service/extract_service.py):
 * single-ticker extraction, company information alone, price history alone,
 * and the multi-ticker endpoint with its batch identifier.
 *
 * The data provider is not modelled: what one fetch returned is a parameter,
 * either the history and the information or the failure's message (after the
 * provider's retries are exhausted).
 */
module ExtractService {
  import opened Wrappers
  import opened RecordAssembly

  /** What one `get_ticker_history` call gave: the history and the information, or a failure. */
  datatype Fetched = Fetched(hist: seq<HistoryRow>, info: Info) | FetchFailed(message: string)

  /** What one `get_ticker_info` call gave. */
  datatype InfoFetched = InfoFetched(info: Info) | InfoFetchFailed(message: string)

  /** The body `{"data": records}` or `{"error": message}`. */
  datatype Response = Data(records: seq<Record>) | Error(message: string)

  /** The body of the information endpoint: the fields themselves, or `{"error": message}`. */
  datatype InfoResponse = Fields(fields: Record) | InfoError(message: string)

  /** One value of the multi-ticker `data` dictionary: the record list itself, or `{"error": message}`. */
  datatype Entry = Records(records: seq<Record>) | Failed(message: string)

  /** The multi-ticker body `{"batch_id": ..., "data": ...}`. */
  datatype ManyResponse = ManyResponse(batchId: string, data: map<string, Entry>)

  function NoDataMessage(ticker: string): string {
    "No data found for ticker '" + ticker + "'. It may be invalid or delisted."
  }

  /**
   * `extract_ticker`: a failed fetch and an empty history are errors that
   * name the ticker; otherwise one record per history row, in row order.
   */
  method ExtractTicker(ticker: string, fetched: Fetched) returns (r: Response)
    ensures fetched.FetchFailed? ==>
      r == Error("Failed to fetch data for " + ticker + ": " + fetched.message)
    ensures fetched.Fetched? && fetched.hist == [] ==> r == Error(NoDataMessage(ticker))
    ensures fetched.Fetched? && fetched.hist != [] ==>
      && r.Data?
      && |r.records| == |fetched.hist|
      && forall i :: 0 <= i < |fetched.hist| ==>
           r.records[i] == ExtractRecord(fetched.hist[i], fetched.info, ticker)
  {
    match fetched
    case FetchFailed(msg) =>
      return Error("Failed to fetch data for " + ticker + ": " + msg);
    case Fetched(hist, info) =>
      if hist == [] {
        return Error(NoDataMessage(ticker));
      }
      var records := AssembleRecords(hist, info, ticker);
      return Data(records);
  }

  /**
   * `get_info`: the selected fields (null where the provider has none) and
   * the ticker, or an error naming the ticker.
   */
  function GetInfo(ticker: string, fetched: InfoFetched): (r: InfoResponse)
    ensures fetched.InfoFetchFailed? ==>
      r == InfoError("Failed to fetch info for " + ticker + ": " + fetched.message)
    ensures fetched.InfoFetched? ==>
      && r.Fields?
      && (forall k :: k in r.fields ==> !k.Price?)
      && Ticker in r.fields && r.fields[Ticker] == Str(ticker)
      && forall g :: Field(g) in r.fields && r.fields[Field(g)] == Get(fetched.info, FieldName(g))
  {
    match fetched
    case InfoFetchFailed(msg) => InfoError("Failed to fetch info for " + ticker + ": " + msg)
    case InfoFetched(info) =>
      FilterInfoKeys(info, ticker);
      Fields(FilterInfo(info, ticker))
  }

  /**
   * `get_history`: the price records alone, with exactly the seven price
   * keys; an empty history is an empty list, not an error.
   */
  method GetHistory(ticker: string, fetched: Fetched) returns (r: Response)
    ensures fetched.FetchFailed? ==>
      r == Error("Failed to fetch history for " + ticker + ": " + fetched.message)
    ensures fetched.Fetched? ==>
      && r.Data?
      && |r.records| == |fetched.hist|
      && forall i :: 0 <= i < |fetched.hist| ==>
           (forall k :: k in r.records[i] ==> k.Price?) && r.records[i] == HistoryRecord(fetched.hist[i])
  {
    match fetched
    case FetchFailed(msg) =>
      return Error("Failed to fetch history for " + ticker + ": " + msg);
    case Fetched(hist, _) =>
      var records := CollectHistory(hist);
      forall i | 0 <= i < |hist| ensures forall k: Key :: k in records[i] ==> k.Price? {
        HistoryRecordPriceOnly(hist[i]);
      }
      return Data(records);
  }

  /** `if not batch_id: batch_id = str(uuid.uuid4())`, the fresh identifier given as `freshId`. */
  function ResolveBatchId(batchId: Option<string>, freshId: string): (id: string)
    requires freshId != []
    ensures id != []
    ensures batchId.Some? && batchId.value != [] ==> id == batchId.value
    ensures batchId.None? || batchId.value == [] ==> id == freshId
  {
    if batchId.None? || batchId.value == [] then freshId else batchId.value
  }

  /** The `data` entry of one ticker of the multi-ticker endpoint. */
  function EntryOf(ticker: string, fetched: Fetched): Entry {
    match fetched
    case FetchFailed(msg) => Failed("Failed to fetch data: " + msg)
    case Fetched(hist, info) =>
      if hist == [] then Failed(NoDataMessage(ticker))
      else Records(ExtractedRecords(hist, info, ticker))
  }

  /**
   * An entry holds records exactly when its fetch succeeded with a
   * non-empty history; then one record per row, each carrying the ticker
   * and the selected information.
   */
  lemma EntryOfCases(ticker: string, fetched: Fetched)
    ensures EntryOf(ticker, fetched).Records? <==> fetched.Fetched? && fetched.hist != []
    ensures fetched.FetchFailed? ==> EntryOf(ticker, fetched) == Failed("Failed to fetch data: " + fetched.message)
    ensures fetched.Fetched? && fetched.hist == [] ==> EntryOf(ticker, fetched) == Failed(NoDataMessage(ticker))
    ensures EntryOf(ticker, fetched).Records? ==>
      && |EntryOf(ticker, fetched).records| == |fetched.hist|
      && forall i :: 0 <= i < |fetched.hist| ==>
           var rec := EntryOf(ticker, fetched).records[i];
           rec[Ticker] == Str(ticker) && rec == ExtractRecord(fetched.hist[i], fetched.info, ticker)
  {
  }

  function Entries(tickers: seq<string>, fetched: seq<Fetched>): (es: seq<Entry>)
    requires |tickers| == |fetched|
    ensures |es| == |tickers|
  {
    seq(|tickers|, i requires 0 <= i < |tickers| => EntryOf(tickers[i], fetched[i]))
  }

  /** The `data` dictionary of the multi-ticker endpoint, `fetched[i]` being the fetch of `tickers[i]`. */
  function ManyData(tickers: seq<string>, fetched: seq<Fetched>): map<string, Entry>
    requires |tickers| == |fetched|
  {
    Collect(tickers, Entries(tickers, fetched))
  }

  /**
   * One entry per distinct ticker, and a failure for one ticker affects no
   * other: each ticker's entry is made from its own (last) fetch alone.
   */
  lemma ManyDataSpec(tickers: seq<string>, fetched: seq<Fetched>)
    requires |tickers| == |fetched|
    ensures ManyData(tickers, fetched).Keys == set t | t in tickers
    ensures forall i :: 0 <= i < |tickers| && (forall j :: i < j < |tickers| ==> tickers[j] != tickers[i]) ==>
      ManyData(tickers, fetched)[tickers[i]] == EntryOf(tickers[i], fetched[i])
  {
    CollectKeys(tickers, Entries(tickers, fetched));
    forall i | 0 <= i < |tickers| && (forall j :: i < j < |tickers| ==> tickers[j] != tickers[i])
      ensures ManyData(tickers, fetched)[tickers[i]] == EntryOf(tickers[i], fetched[i])
    {
      CollectAt(tickers, Entries(tickers, fetched), i);
    }
  }

  /** The body of the multi-ticker loop for one ticker: its `data` entry. */
  method ExtractEntry(ticker: string, fetched: Fetched) returns (entry: Entry)
    ensures entry == EntryOf(ticker, fetched)
  {
    match fetched
    case FetchFailed(msg) =>
      entry := Failed("Failed to fetch data: " + msg);
    case Fetched(hist, info) =>
      if hist == [] {
        entry := Failed(NoDataMessage(ticker));
      } else {
        var records := AssembleRecords(hist, info, ticker);
        assert records == ExtractedRecords(hist, info, ticker);
        entry := Records(records);
      }
  }

  /**
   * `extract_many`: resolves the batch identifier, parses the ticker list
   * and fills the dictionary ticker by ticker, going on past failures.
   */
  method ExtractMany(ticker: string, batchId: Option<string>, freshId: string, fetched: seq<Fetched>)
    returns (r: ManyResponse)
    requires freshId != []
    requires |fetched| == |ParseTickers(ticker)|
    ensures r.batchId == ResolveBatchId(batchId, freshId)
    ensures r.data == ManyData(ParseTickers(ticker), fetched)
  {
    var id := batchId.GetOr([]);
    if id == [] {
      id := freshId;
    }
    var tickers := ParseTickers(ticker);
    ghost var entries := Entries(tickers, fetched);
    var allData: map<string, Entry> := map[];
    for i := 0 to |tickers|
      invariant allData == Collect(tickers[..i], entries[..i])
    {
      var tkr := tickers[i];
      var entry := ExtractEntry(tkr, fetched[i]);
      CollectPrefix(tickers, entries, i);
      allData := allData[tkr := entry];
    }
    assert tickers[..|tickers|] == tickers;
    assert entries[..|tickers|] == entries;
    return ManyResponse(id, allData);
  }
}
