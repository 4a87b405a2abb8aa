/**
 * The earlier extract service (extract_service.py at the repository root):
 * the same record assembly with no error handling and no batch identifier.
 * Every fetch is taken to succeed, so what the provider returned for a
 * ticker is a parameter.
 */
module LegacyExtract {
  import opened RecordAssembly

  /** What `yf.Ticker(t)` gave: the information and the history. */
  datatype Download = Download(info: Info, hist: seq<HistoryRow>)

  /** The body `{"data": records}`. */
  datatype Payload = Payload(data: seq<Record>)

  /** The multi-ticker body `{"data": {...}}`: there is no `batch_id` key. */
  datatype ManyPayload = ManyPayload(data: map<string, seq<Record>>)

  /**
   * `extract_ticker`: one record per history row, in row order (see
   * `ExtractedRecords`), each with the seven price keys, every selected
   * information field and the ticker; an empty history gives an empty list.
   */
  method ExtractTicker(ticker: string, download: Download) returns (r: Payload)
    ensures r.data == ExtractedRecords(download.hist, download.info, ticker)
    ensures forall i, k :: 0 <= i < |r.data| ==> k in r.data[i]
  {
    var records := AssembleRecords(download.hist, download.info, ticker);
    assert records == ExtractedRecords(download.hist, download.info, ticker);
    forall i | 0 <= i < |records| ensures forall k :: k in records[i] {
      ExtractRecordKeys(download.hist[i], download.info, ticker);
    }
    return Payload(records);
  }

  /**
   * `get_info`: the selected fields (null where the provider has none) and
   * the ticker, and no price key.
   */
  function GetInfo(ticker: string, info: Info): (r: Record)
    ensures forall k :: k in r ==> !k.Price?
    ensures Ticker in r && r[Ticker] == Str(ticker)
    ensures forall g :: Field(g) in r && r[Field(g)] == Get(info, FieldName(g))
  {
    FilterInfoKeys(info, ticker);
    FilterInfo(info, ticker)
  }

  /**
   * `get_history`: one record per history row, in row order, with exactly
   * the seven price keys and Dividend 0 where there is no Dividends column.
   */
  method GetHistory(download: Download) returns (r: Payload)
    ensures |r.data| == |download.hist|
    ensures forall i :: 0 <= i < |download.hist| ==>
      && (forall k :: k in r.data[i] ==> k.Price?)
      && (forall p :: Price(p) in r.data[i])
      && r.data[i] == HistoryRecord(download.hist[i])
  {
    var records := CollectHistory(download.hist);
    forall i | 0 <= i < |download.hist|
      ensures (forall k: Key :: k in records[i] ==> k.Price?) && (forall p :: Price(p) in records[i])
    {
      HistoryRecordPriceOnly(download.hist[i]);
      HistoryRecordHasPrices(download.hist[i]);
    }
    return Payload(records);
  }

  function AllRecords(tickers: seq<string>, downloads: seq<Download>): (rs: seq<seq<Record>>)
    requires |tickers| == |downloads|
    ensures |rs| == |tickers|
  {
    seq(|tickers|, i requires 0 <= i < |tickers| =>
      ExtractedRecords(downloads[i].hist, downloads[i].info, tickers[i]))
  }

  /** The `data` dictionary, `downloads[i]` being what was fetched for `tickers[i]`. */
  function ManyData(tickers: seq<string>, downloads: seq<Download>): map<string, seq<Record>>
    requires |tickers| == |downloads|
  {
    Collect(tickers, AllRecords(tickers, downloads))
  }

  /**
   * One entry per distinct ticker; each holds one record per row of that
   * ticker's (last) download, in row order, carrying that ticker.
   */
  lemma ManyDataSpec(tickers: seq<string>, downloads: seq<Download>)
    requires |tickers| == |downloads|
    ensures ManyData(tickers, downloads).Keys == set t | t in tickers
    ensures forall i :: 0 <= i < |tickers| && (forall j :: i < j < |tickers| ==> tickers[j] != tickers[i]) ==>
      var recs := ManyData(tickers, downloads)[tickers[i]];
      && |recs| == |downloads[i].hist|
      && forall k :: 0 <= k < |recs| ==>
           recs[k] == ExtractRecord(downloads[i].hist[k], downloads[i].info, tickers[i]) && recs[k][Ticker] == Str(tickers[i])
  {
    CollectKeys(tickers, AllRecords(tickers, downloads));
    forall i | 0 <= i < |tickers| && (forall j :: i < j < |tickers| ==> tickers[j] != tickers[i])
      ensures ManyData(tickers, downloads)[tickers[i]] == AllRecords(tickers, downloads)[i]
    {
      CollectAt(tickers, AllRecords(tickers, downloads), i);
    }
  }

  /**
   * `extract_many`: parses the ticker list and fills the dictionary ticker
   * by ticker, a later duplicate overwriting an earlier one.
   */
  method ExtractMany(ticker: string, downloads: seq<Download>) returns (r: ManyPayload)
    requires |downloads| == |ParseTickers(ticker)|
    ensures r.data == ManyData(ParseTickers(ticker), downloads)
  {
    var tickers := ParseTickers(ticker);
    ghost var all := AllRecords(tickers, downloads);
    var allData: map<string, seq<Record>> := map[];
    for i := 0 to |tickers|
      invariant allData == Collect(tickers[..i], all[..i])
    {
      var tkr := tickers[i];
      var records := ExtractTicker(tkr, downloads[i]);
      CollectPrefix(tickers, all, i);
      allData := allData[tkr := records.data];
    }
    assert tickers[..|tickers|] == tickers;
    assert all[..|tickers|] == all;
    return ManyPayload(allData);
  }
}
