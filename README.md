# Extract-yfinance: the transform engine and the extract services, in Dafny

This project models the two parts of the Extract-yfinance services that have
real logic of their own, and proves properties of the model.

- **The batch transform** (`transform_data` in `transform_service.py`,
  module `TransformService`, file `transform.dfy`). It makes one cleaning pass
  over a batch of stock records:
  - exact-duplicate removal, keeping the first occurrence;
  - null fill: numbers get 0, text gets "";
  - the critical-column drop;
  - date normalisation to UTC text;
  - `$` removal in `currency`;
  - upper-casing of `Ticker`.

  A validation loop then reports, row by row, the checks that fail. The
  working table is a sequence of rows labelled with their request positions,
  as the pandas index labels are. Each step is a method with a loop, proved
  equal to a specification function. The properties are lemmas about those
  functions.
- **Record assembly** (module `RecordAssembly`, file `record_assembly.dfy`),
  which both extract services share:
  - parsing the comma-separated ticker list;
  - selecting the company-information fields;
  - flattening price-history rows into records;
  - filling the per-ticker dictionary of the multi-ticker endpoint.
- **The extract service with error handling**
  (`extract_service/extract_service.py`, module `ExtractService`). It covers
  the single-ticker, information and history endpoints, the batch identifier,
  and the multi-ticker loop, which goes on past failures.
- **The earlier extract service** (`extract_service.py` at the repository
  root, module `LegacyExtract`): the same assembly with no error handling and
  no batch identifier.

A record is a map from an enumeration of keys (`Key`) to a `Value` (null, a
number or a text). `KeyName` gives the dictionary name of each key, and
`KeyNameInjective` shows that distinct keys have distinct names. The data
provider is not modelled: what a fetch returned for a ticker is a parameter.
For the multi-ticker endpoints, these answers are a sequence parallel to the
parsed ticker list.

Some behaviours of the transform follow from the order of its steps rather
than from what a step's comment suggests:
- A row whose `Ticker` is missing is **kept** and reported. The comment at
  `transform_service.py:62` says the critical-column drop removes rows where
  Date, Close or Ticker is missing, but the fill at lines 59-61 runs first and
  turns the null into "", which `dropna` does not count as missing.
- A row whose `Date` is missing, empty or unparseable is also kept, with a
  null `Date`, and reported.
- `Row i:` in a message is the row's **position in the request**.
  Duplicate removal keeps the index labels, so this is not the row's position
  among the survivors.
- The transform returns `batch_id` exactly as received, including null. It
  generates none; only the multi-ticker extract endpoint does.
- When Close holds a value in at least one row, the Close check cannot fire,
  because the fill makes every null Close 0 before validation. When Close is
  null in every row, pandas types the column as text, the fill makes it "",
  and every row gets the Close message; that case is outside the model.

## Model

| member | source | states |
|---|---|---|
| TransformService.DropDuplicates | transform_service.py:53 | the first occurrence of each row value, labelled with its request position, in request order |
| TransformService.DropDuplicatesLabels | transform_service.py:53 | every row left by duplicate removal is the first occurrence of its value and carries its request position as label |
| TransformService.DropDuplicatesOrdered | transform_service.py:53 | the survivors keep the request order (their labels strictly increase) |
| TransformService.DropDuplicatesComplete | transform_service.py:53 | every first occurrence survives, under its request position |
| TransformService.DropDuplicatesKeepsFirst | transform_service.py:53 | the survivors are exactly the first occurrences, labelled and in request order |
| TransformService.DropDuplicatesDistinct | transform_service.py:53 | no two surviving rows are equal |
| TransformService.DropDuplicatesCount | transform_service.py:53 | one row survives per distinct row value of the request |
| TransformService.DuplicateRemovalKeepsLabels | transform_service.py:53-79 | cleaning `[a, a, b]` with `a != b` gives `a` and `b` cleaned, under labels 0 and 2 |
| TransformService.DropDuplicatesStep | transform_service.py:53 | the loop with a `seen` set computes the duplicate removal |
| TransformService.FillNulls | transform_service.py:56-61 | every numeric field becomes its value or 0; every text field becomes its value or "" |
| TransformService.DropCriticalNulls | transform_service.py:63-64 | the survivors are exactly the input rows with no null Date, Close or Ticker, never more rows than the input |
| TransformService.DropCriticalNullsAfterFill | transform_service.py:59-64 | once every column is filled, the critical-column drop removes nothing |
| TransformService.DropCriticalStep | transform_service.py:63-64 | the filtering loop computes the critical-column drop |
| TransformService.NormalizeDate | transform_service.py:66-73 | a date is present afterwards exactly when the input was non-empty text that parses, and then it is the parsed UTC text |
| TransformService.StripDollar | transform_service.py:75-76 | the result holds no `$`, and every other character occurs as often as in the input |
| TransformService.StripDollarNoDollar | transform_service.py:75-76 | text without `$` is unchanged |
| TransformService.StripDollarIdempotent | transform_service.py:75-76 | removing `$` twice is removing it once |
| TransformService.StripDollarAppend | transform_service.py:75-76 | removal works piecewise, so the kept characters stay in input order |
| TransformService.Upper | transform_service.py:78-79 | same length, no lower-case letter left, exactly the lower-case letters change, and each becomes its own upper-case letter |
| TransformService.UpperIdempotent | transform_service.py:78-79 | upper-casing twice is upper-casing once |
| TransformService.ApplyToRows | transform_service.py:66-79 | each column rewrite visits every row once and keeps labels and order |
| TransformService.Clean | transform_service.py:53-79 | the cleaning pass: duplicate removal, then the fill, the critical-column drop, the Date, currency and Ticker rewrites, each over the labelled table |
| TransformService.CleanRow | transform_service.py:56-79 | a surviving row has every number filled; its currency has no `$`; its Ticker is the upper-cased filled Ticker; its Date is the parsed text or null |
| TransformService.CleanAt | transform_service.py:53-79 | the cleaned table has one row per distinct request row: the first occurrence, cleaned, under its request position |
| TransformService.FirstOccurrenceCleaned | transform_service.py:53-79 | every first occurrence of a request row is in the cleaned table, cleaned and labelled |
| TransformService.FailingChecks | transform_service.py:84-93 | a check is listed exactly when it fails on the row, in the order Close, Volume, Date, Ticker |
| TransformService.NatToString | transform_service.py:87 | the row number is written as one or more decimal digits |
| TransformService.NatToStringRoundTrip | transform_service.py:87 | the decimal text of a row number reads back as that number |
| TransformService.ErrorTextInjective | transform_service.py:86-93 | two checks give different messages for the same row |
| TransformService.RowErrors | transform_service.py:85-93 | one message per failing check of the row, in check order, each tagged with the row's label |
| TransformService.RowErrorsSpec | transform_service.py:84-95 | a row gives at most four messages, and the message of a check is there exactly when that check fails |
| TransformService.ValidateAll | transform_service.py:82-95 | the messages of every row of the table, appended in row order |
| TransformService.FlatMapAppend | transform_service.py:94-95 | appending per-row message lists over two tables is appending the results |
| TransformService.ValidateTwoRows | transform_service.py:84-95 | a two-row table's messages are the first row's, then the second's |
| TransformService.ValidateAllAppend | transform_service.py:84-95 | validating a table is validating its two halves one after the other |
| TransformService.ValidateAllBound | transform_service.py:84-95 | a table of n rows gives at most 4n messages |
| TransformService.ValidateAllAt | transform_service.py:84-95 | the messages of row j stand between those of the rows before and after it |
| TransformService.MessageOfRowReported | transform_service.py:84-95 | every failing check of every row appears in the validation output |
| TransformService.Validate | transform_service.py:82-95 | the validation loop computes the row-ordered message list |
| TransformService.MissingTickerKeptAndReported | transform_service.py:59-93 | a row without Ticker stays in the output with Ticker "" and is reported |
| TransformService.BadDateKeptAndReported | transform_service.py:59-91 | a row whose Date is missing, empty or unparseable stays with a null Date and is reported |
| TransformService.NoCloseMessages | transform_service.py:56-87 | when every numeric column holds a value somewhere, no row gets the Close message after the fill |
| TransformService.NegativeVolumeReported | transform_service.py:84-89 | a row with a negative Volume, a parseable Date and a Ticker gets exactly the Volume message |
| TransformService.CleanSingle | transform_service.py:53-79 | a one-record batch whose record has every number keeps its record, cleaned, under label 0 |
| TransformService.NegativeVolumeBatch | transform_service.py:49-101 | a one-record batch with a value in every numeric column and Volume -5 stays in the modelled domain, is kept, filled and normalised, and gives only "Row 0: Volume must be >= 0 and not null" |
| TransformService.DropDuplicatesPair | transform_service.py:53 | of `[a, a, b]` with `a != b`, duplicate removal keeps `a` under label 0 and `b` under label 2 |
| TransformService.MessagesUseInputPositions | transform_service.py:53-93 | after a duplicate is removed, a message names the row's request position (2), not its rank among the survivors (1) |
| TransformService.TransformData | transform_service.py:46-101 | the response carries the request's batch id unchanged, the cleaned rows (one per distinct request row) and their validation messages |
| RecordAssembly.Strip | extract_service/extract_service.py:106 | the strip is no longer than the text and is empty or has no whitespace at either end |
| RecordAssembly.StripSlice | extract_service/extract_service.py:106 | the strip is the slice left once only whitespace is cut from either end |
| RecordAssembly.StripEmpty | extract_service/extract_service.py:106 | the strip is empty exactly when the text is all whitespace |
| RecordAssembly.StripChars | extract_service/extract_service.py:106 | stripping adds no character |
| RecordAssembly.StripStripped | extract_service/extract_service.py:106 | text without whitespace at either end is its own strip |
| RecordAssembly.Split | extract_service/extract_service.py:106 | a split gives at least one piece and no piece holds the separator |
| RecordAssembly.SplitAppend | extract_service/extract_service.py:106 | splitting `a + sep + b` gives the pieces of `a`, then those of `b` |
| RecordAssembly.JoinSplit | extract_service/extract_service.py:106 | joining the pieces of a split gives the text back |
| RecordAssembly.SplitJoin | extract_service/extract_service.py:106 | splitting a join of separator-free pieces gives the pieces back |
| RecordAssembly.SplitWithoutSeparator | extract_service/extract_service.py:106 | text without the separator is one piece |
| RecordAssembly.NonBlank | extract_service/extract_service.py:106 | the `if t.strip()` filter keeps no empty text and adds none |
| RecordAssembly.NonBlankMembers | extract_service/extract_service.py:106 | each kept text is an input, and each non-empty input is kept |
| RecordAssembly.NonBlankAppend | extract_service/extract_service.py:106 | the filter works piecewise, keeping the order |
| RecordAssembly.NonBlankKeeps | extract_service/extract_service.py:106 | what holds of every non-empty input holds of every kept text |
| RecordAssembly.ParseTickers | extract_service/extract_service.py:106 | `[t.strip() for t in s.split(",") if t.strip()]`: the non-empty strips of the comma pieces, in order |
| RecordAssembly.ParseTickersClean | extract_service/extract_service.py:106 | every parsed ticker is non-empty, has no whitespace at either end and holds no comma |
| RecordAssembly.ParseTickersPieces | extract_service/extract_service.py:106 | the parsed tickers are exactly the non-empty strips of the comma-separated pieces |
| RecordAssembly.ParseTickersAppend | extract_service/extract_service.py:106 | the tickers of `a,b` are those of `a`, then those of `b`: the comma order is kept |
| RecordAssembly.ParseTickersJoin | extract_service.py:76 | clean tickers joined with commas parse back to themselves |
| RecordAssembly.KeyNameInjective | extract_service/extract_service.py:45-58 | distinct keys have distinct names, so `record.update` overwrites no price key |
| RecordAssembly.FieldSelected | extract_service/extract_service.py:29-32 | every modelled information field is in the selected list |
| RecordAssembly.FilterInfo | extract_service/extract_service.py:45-46 | every selected field is `info.get(name)` (null when absent), and Ticker is the ticker |
| RecordAssembly.FilterInfoKeys | extract_service/extract_service.py:45-46 | the filtered information holds no price key |
| RecordAssembly.HistoryRecord | extract_service/extract_service.py:49-57 | the seven price keys hold the row's values, and Dividend is 0 when the history has no Dividends |
| RecordAssembly.HistoryRecordPriceOnly | extract_service/extract_service.py:85-93 | a history record holds price keys only |
| RecordAssembly.HistoryRecordHasPrices | extract_service/extract_service.py:85-93 | a history record holds all seven price keys |
| RecordAssembly.ExtractRecord | extract_service/extract_service.py:49-58 | one history row's price record, updated with the filtered information and the ticker |
| RecordAssembly.ExtractRecordSpec | extract_service/extract_service.py:45-58 | in a merged record the price keys keep the row's values, each selected field is `info.get(name)` and Ticker is the ticker |
| RecordAssembly.ExtractRecordKeys | extract_service/extract_service.py:45-58 | a merged record carries every key |
| RecordAssembly.ExtractedRecords | extract_service/extract_service.py:47-59 | one merged record per history row, in row order |
| RecordAssembly.AssembleRecords | extract_service/extract_service.py:47-59 | the record loop appends one merged record per history row, in row order |
| RecordAssembly.CollectHistory | extract_service/extract_service.py:83-94 | the history loop appends one price record per row, in row order |
| RecordAssembly.Collect | extract_service/extract_service.py:107-132 | the dictionary left by `all_data[tkr] = value` over the tickers in order, a later key overwriting an earlier one |
| RecordAssembly.CollectKeys | extract_service/extract_service.py:107-132 | the dictionary has exactly one entry per distinct ticker |
| RecordAssembly.CollectAt | extract_service/extract_service.py:107-132 | a ticker's entry is the value from its last occurrence |
| ExtractService.ExtractTicker | extract_service/extract_service.py:34-60 | a failed fetch and an empty history give the error text that names the ticker; otherwise one merged record per row, in row order |
| ExtractService.GetInfo | extract_service/extract_service.py:63-71 | a failed fetch gives the error text; otherwise the selected fields and the ticker, with no price key |
| ExtractService.GetHistory | extract_service/extract_service.py:74-95 | a failed fetch gives the error text; otherwise one price-only record per row; an empty history gives an empty list |
| ExtractService.ResolveBatchId | extract_service/extract_service.py:104-105 | a non-empty supplied id is kept; a missing or empty one becomes the fresh id; the result is never empty |
| ExtractService.EntryOf | extract_service/extract_service.py:109-132 | one ticker's `data` entry: the fetch error text, the no-data text, or the merged records |
| ExtractService.EntryOfCases | extract_service/extract_service.py:109-132 | an entry holds records exactly when the fetch succeeded with rows; each failure has its own error text; each record carries the ticker |
| ExtractService.ExtractEntry | extract_service/extract_service.py:109-132 | one pass of the loop body computes the ticker's entry |
| ExtractService.ManyData | extract_service/extract_service.py:106-132 | the `data` dictionary: each parsed ticker mapped to the entry of its fetch, a later duplicate overwriting an earlier one |
| ExtractService.ManyDataSpec | extract_service/extract_service.py:107-132 | one entry per distinct parsed ticker, each made from that ticker's own (last) fetch alone, so a failure affects no other ticker |
| ExtractService.ExtractMany | extract_service/extract_service.py:98-133 | the response carries the resolved batch id and the dictionary the loop fills ticker by ticker |
| LegacyExtract.ExtractTicker | extract_service.py:12-36 | one merged record per history row, in row order, each carrying every key |
| LegacyExtract.GetInfo | extract_service.py:39-45 | the selected fields and the ticker, with no price key |
| LegacyExtract.GetHistory | extract_service.py:48-68 | one record per row holding exactly the seven price keys, in row order |
| LegacyExtract.ManyData | extract_service.py:76-98 | the `data` dictionary: each parsed ticker mapped to the merged records of its download, a later duplicate overwriting an earlier one |
| LegacyExtract.ManyDataSpec | extract_service.py:77-99 | one entry per distinct parsed ticker, holding one record per row of its download, each carrying the ticker |
| LegacyExtract.ExtractMany | extract_service.py:71-99 | the response is the dictionary the loop fills ticker by ticker, with no batch id |

## Left out

- The data provider (`yf.Ticker`, `.info`, `.history`) and the network: what a fetch returned is a parameter. For the multi-ticker endpoints, it is a sequence parallel to the parsed ticker list.
- The retry decorators of `get_ticker_info` and `get_ticker_history`: a failed fetch stands for a failure after the retries are exhausted. Their timing and exception policy are not modelled.
- HTTP routing, request parsing into the request models, and the `period` query parameter, which is only passed on to the provider.
- The load service and the demo script, which do file and console I/O.
- NormalizeDate: date parsing, time-zone localisation or conversion, and formatting are one parameter, `parse`, which gives the UTC text or nothing. Calendars and time zones are not modelled.
- NormalizeDate: a value is parsed on its own. The model does not capture pandas inferring one date format for the whole column.
- TransformData: answers every batch in `DeclaredTypesKept`, but the source raises on some of them. When the parseable Date texts of a batch carry different UTC offsets (`2024-03-29T10:00:00+01:00` and `2024-04-02T10:00:00+02:00`, across a daylight-saving change), pandas gives the Date column the object dtype at `transform_service.py:68`, and the `.dt` accessor at line 69 raises, so `transform_data` returns no response. The model returns one for such a batch. This exception is not modelled, because the parser is an abstract parameter that exposes no offsets.
- TransformData: requires that every numeric column holds a value in some row (`DeclaredTypesKept`). pandas would type an all-null column as text and fill it with "". An all-null Close column then gives every row the Close message, and an all-null Volume column makes the `< 0` comparison fail. That dtype inference is not modelled. So every statement about `Clean` or `CleanRow` describes the source only for batches in `DeclaredTypesKept`: `CleanAt`, `CleanSingle`, `FirstOccurrenceCleaned`, `NegativeVolumeReported`, `MissingTickerKeptAndReported`, `BadDateKeptAndReported` and the sample batches. `NoCloseMessages`, `DuplicateRemovalKeepsLabels` and the sample batches state the premise, and `CleanSingle` states its one-record form, `NumericFilled`.
- NoCloseMessages: says nothing about a batch whose Close is null in every row. The source gives every row of such a batch the Close message.
- Floating-point prices and quantities are integers. They are only null-checked, compared with 0 and copied, so no arithmetic is lost.
- HistoryRecord: the Date of a history row is given as already-rendered text, so `strftime` versus `str` is not modelled.
- HistoryRecord: a missing Dividends column gives 0, as `row.get("Dividends", 0.0)` does. A NaN inside a present Dividends column is not modelled.
- Upper: upper-cases ASCII letters only. Unicode case mapping is not modelled.
- Strip: uses Python's whitespace set for `str.strip()`, but not Unicode normalisation.
- ResolveBatchId: `uuid.uuid4()` is a non-empty parameter `freshId`. Uniqueness across calls is not modelled.
- The column-presence guards (`'Date' in df.columns` and the like) are not modelled: every request row has all nineteen fields, so those guards always hold.
