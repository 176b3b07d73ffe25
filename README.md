# goalphavantage, modelled in Dafny

goalphavantage is a Go client for the Alpha Vantage market-data API. This
project models and proves the client's decision logic, leaving out the wire.
The modelled parts are:

- the case-insensitive option validators (`Function`, `DataType`, `Interval`,
  `OutputSize`, `BoolString`, `Topic`, `Sort`, `State`) and the three
  composite `Valid` predicates, including the `YYYY-MM-DD` calendar check of
  `ListingStatusOptions`;
- `buildQuery` and `url.Values.Encode`. An options struct is an explicit
  field descriptor. The encoded query is an ordered list of (key, value)
  pairs: keys sorted, each key's values in insertion order;
- `readCSV`, over the stream that `csv.Reader.Read` produces. Rows with the
  wrong field count are skipped, any other read error aborts, each kept row
  becomes a header→value map, and the listing projection appends to the
  caller's slice;
- the response decisions: `checkStatusErrorResponse`,
  `checkAPIResponseForErrorMessage`, and the routing in `doJSONRequest` and
  `doCSVRequest`;
- the `APIError` kind and `IsAPIError` across a `%w` wrap chain;
- the endpoints `GetTimeSeriesStockData`, `GetNewsSentiment`,
  `GetTopGainersLosers` and `GetListingStatus`. Each takes the server's reply
  as a parameter and returns the request it would send and the error it
  would report.

Modules (one file each):

| file | module |
|---|---|
| `wrappers.dfy` | `Wrappers`: Option and Result |
| `text.dfy` | `Text`: ASCII case folding, byte-wise order, decimal digits |
| `api_error.dfy` | `ApiError` (`apiError.go`) |
| `query.dfy` | `Query` (`buildQuery`) |
| `csv.dfy` | `Csv` (`readCSV`) |
| `client.dfy` | `Client` (the rest of `client.go`) |
| `core_stock.dfy` | `CoreStock` (`coreStock.go`) |
| `alpha_intelligence.dfy` | `AlphaIntelligence` (`alphaIntelligence.go`) |
| `fundamental_data.dfy` | `FundamentalData` (`fundamentalData.go`) |

The request/response boundary works like this:

- A response is a `Client.Reply`: either a transport error or a status code,
  a content type and a `Body`.
- A `Body` holds what each library decoder makes of the bytes: the status
  error payload, the API error payload, the decoding into the caller's value,
  and the lexed CSV records.
- A request is a `Client.Request`: the URL prefix and the encoded query.
- Percent-escaping is a parameter of `Query.Render`.

## Model

| member | source | states |
|---|---|---|
| `Text.LowerSwitch` | coreStock.go:26-33 | a switch on the lower-cased string over lower-case labels matches exactly when the input equals a label ignoring case |
| `Text.UpperSwitch` | coreStock.go:17-24 | a switch on the upper-cased string over upper-case labels matches exactly when the input equals a label ignoring case |
| `Text.NatToStringRoundTrip` | client.go:184 | the decimal text `fmt.Sprint` gives a non-negative int reads back as that int |
| `Text.IntToStringInjective` | client.go:184 | different ints render as different decimal texts |
| `ApiError.Message` | apiError.go:9-11 | an `APIError`'s text is its message unchanged; a wrapped error's text contains its cause's text |
| `ApiError.WrapIfError` | coreStock.go:152-158 | a `%w` wrap happens exactly when there is an error; it adds one layer to the chain and keeps the APIError found in it |
| `ApiError.Chain` | apiError.go:13-16 | the chain `errors.As` walks starts with the error itself |
| `ApiError.AsAPIError` | apiError.go:13-16 | `errors.As` finds an APIError exactly when `IsAPIError` holds |
| `ApiError.IsAPIError` | apiError.go:13-16 | `IsAPIError` holds iff some member of the unwrap chain is an `APIError` |
| `ApiError.ChainOfWrapped` | apiError.go:13-16 | a wrapped error's chain holds an `APIError` iff its cause's chain does |
| `ApiError.AsAPIErrorFindsChainMember` | apiError.go:13-16 | the APIError found is a member of the chain |
| `ApiError.WrapsPreserveKind` | apiError.go:13-16 | any number of wraps keeps both `IsAPIError` and the APIError found |
| `ApiError.UnknownStatusErrorIsNotAPIError` | client.go:236 | the "unknown error" for an undecodable error body is not an APIError |
| `ApiError.SentinelIsNotAPIError` | coreStock.go:137-139 | the invalid-input sentinel stays a non-APIError through any wraps |
| `Query.Render` | client.go:188 | the rendered query is empty exactly when there are no pairs |
| `Query.AddEach` | client.go:179-182 | the loop over a slice field appends exactly the tagged elements, in order, after what was added before |
| `Query.BuildQuery` | client.go:151-189 | the reflection loop computes the encoded query of the options |
| `Query.EncodeSorted` | client.go:188 | the encoded query's keys are in sorted order |
| `Query.EncodeKeepsValues` | client.go:188 | encoding keeps each key's values and their insertion order |
| `Query.EncodeIsPermutation` | client.go:188 | encoding neither adds nor drops a pair |
| `Query.EntriesEmptyIff` | client.go:163-169 | no pair is added iff every field is zero or unexported |
| `Query.EncodedQueryEmptyIff` | client.go:154-169 | the query is empty iff the input is not a struct or all its fields are zero or unexported |
| `Query.ValuesForTagged` | client.go:179-182 | a slice field's pairs carry its elements under its key and nothing under other keys |
| `Query.ValuesForInEntries` | client.go:163-186 | when only one field has a key, that key's pairs are exactly that field's emitted values |
| `Query.NoValuesForAbsentKey` | client.go:163-186 | a key no field has gets no values |
| `Query.ValuesForUniqueKey` | client.go:163-188 | in the encoded query, a key held by one field has exactly that field's emitted values |
| `Query.ValuesForDistinctKeys` | client.go:163-188 | with pairwise different keys, each field's values come back unchanged from the encoded query |
| `Query.CommaIndexIsFirst` | client.go:176 | the split point is the first comma at or after the start, or the end of the tag |
| `Query.FirstSegmentShape` | client.go:176 | the key is a comma-free prefix of the tag, ending at the end or at a comma |
| `Query.FirstSegmentAtComma` | client.go:176 | the key is the text up to the first comma |
| `Query.FirstSegmentWithoutComma` | client.go:176 | a tag without a comma is the key itself |
| `Query.KeyShape` | client.go:171-176 | the key is a comma-free prefix of the tag, or of the field name when the tag is empty, ending at the first comma or the end |
| `Query.KeyOfTag` | client.go:171-176 | a tag of a name then `,options` gives that name as the key |
| `Csv.ReadRow` | client.go:111-118 | a row reaches the map only with the header's field count |
| `Csv.ListingOf` | client.go:131-140 | a listing's name is empty only when both name and symbol are empty |
| `Csv.ListingSlice.constructor` | fundamentalData.go:70 | the caller's slice starts empty |
| `Csv.BuildRow` | client.go:120-123 | the loop filling a row's map computes the header→value map |
| `Csv.ReadRows` | client.go:110-126 | the read loop computes the specified row result |
| `Csv.AppendListings` | client.go:130-143 | the listings are appended after the slice's existing contents, one per record |
| `Csv.ReadCSV` | client.go:103-149 | errors as specified; a listing slice gains exactly the listings of the records when there is no error, and nothing otherwise |
| `Csv.Records` | client.go:104-126 | records come back iff the body has a header and no row fails to parse; an empty body gives `EOF`; an error is some unparsable row's |
| `Csv.RecordsFirstError` | client.go:104-126 | the first unparsable row of the body, header included, gives the error |
| `Csv.Rows` | client.go:110-126 | the data rows read without error iff none fails to parse, giving at most one record per row; otherwise the error is some row's parse error |
| `Csv.ReadCSVError` | client.go:103-149 | no error iff the body reads cleanly and the target is a pointer to a slice of the case type; a reading error is returned as is, a wrong target gives the unsupported-type error |
| `Csv.RowsAppend` | client.go:110-126 | reading two streams in turn equals reading their concatenation, the first error winning |
| `Csv.RowsErrorPersists` | client.go:116-117 | once a read error occurs, later input does not matter |
| `Csv.MismatchedRowIsSkipped` | client.go:112-113 | a row with the wrong field count changes nothing |
| `Csv.ParseErrorAborts` | client.go:116-117 | a parse error after clean input aborts with that error |
| `Csv.Kept` | client.go:112-113 | every kept row has the header's field count |
| `Csv.RowsAreKeptRows` | client.go:110-126 | without parse errors, the records are exactly the maps of the well-sized rows, in order |
| `Csv.FirstParseErrorWins` | client.go:116-117 | the first parse error is the result |
| `Csv.RowMapKeys` | client.go:120-123 | a row map's keys are exactly the header names |
| `Csv.RowMapLastColumn` | client.go:120-123 | a header name maps to the value of its last column: the later duplicate wins |
| `Csv.ListingOfFields` | client.go:131-140 | symbol, exchange and assetType are copied verbatim; the name is copied, or is the symbol when empty |
| `Csv.ListingWithSymbolHasName` | client.go:138-140 | a listing with a symbol always has a name |
| `Csv.AsWrittenSwitchRejectsListings` | client.go:128-129 | with the switch as written, a clean CSV read into `*[]Listing` fails as an unsupported type |
| `Csv.ListingSwitchAcceptsListings` | client.go:128-145 | with the switch on `*[]Listing`, a clean CSV read into it succeeds |
| `Client.CheckStatusErrorResponse` | client.go:230-240 | passes exactly the statuses 200..399; otherwise an APIError carrying the detail iff the error body decodes |
| `Client.StatusErrorCarriesCode` | client.go:230-240 | both kinds of status error name the status code in their message |
| `Client.DoJSONRequest` | client.go:44-70 | a transport failure is returned as is; the error is an APIError iff a failed status has a decodable error body, or a passing status has a readable body with an error message or information note |
| `Client.URL` | alphaIntelligence.go:109 | the text of a `Request`, which the endpoints return: it starts with the endpoint prefix and is the bare prefix iff the query is empty |
| `Client.CheckAPIResponseForErrorMessage` | client.go:191-205 | parse failure gives the parse error; `Error_Message` wins over `Information`; nil iff both are empty; an APIError iff either is set |
| `Client.DoCSVRequest` | client.go:72-101 | the routing's error result; the listing slice gains records only when the CSV reader runs and succeeds |
| `Client.RedirectStatusPasses` | client.go:231 | a 3xx status passes the status check |
| `Client.EmbeddedErrorShortCircuits` | client.go:62-64 | an embedded error message is reported before decoding, as an APIError |
| `Client.RateLimitIsAPIError` | client.go:200-201 | an `Information` note alone gives an APIError carrying it |
| `Client.JSONSuccessIff` | client.go:44-70 | doJSONRequest succeeds iff the reply arrived, its status passes, the body read and decoded, and it carries no error message |
| `Client.JSONOnCSVRouteOnlyChecksErrors` | client.go:90-93 | on the CSV route a JSON content type gives only the embedded-error check and never reaches the CSV reader |
| `Client.TransportErrorsAreNotAPIErrors` | client.go:48-50 | transport errors and undecodable error statuses are errors but not APIErrors, on both routes |
| `CoreStock.FunctionNamesAreFolded` | coreStock.go:19 | the function labels are upper case |
| `CoreStock.LabelsAreFolded` | coreStock.go:26-60 | the datatype, interval, outputsize and boolean labels are lower case |
| `CoreStock.FunctionValid` | coreStock.go:17-24 | accepts exactly the eight function names, ignoring case |
| `CoreStock.DataTypeValid` | coreStock.go:26-33 | accepts exactly "", json and csv, ignoring case |
| `CoreStock.IntervalValid` | coreStock.go:35-42 | accepts exactly the five intervals, ignoring case |
| `CoreStock.OutputSizeValid` | coreStock.go:44-51 | accepts exactly "", compact and full, ignoring case |
| `CoreStock.BoolStringValid` | coreStock.go:53-60 | accepts exactly "", true and false, ignoring case |
| `CoreStock.Valid` | coreStock.go:62-75 | valid iff function valid, symbol set, interval valid when the function is intraday, and datatype, adjusted, extended hours and outputsize valid |
| `CoreStock.GetTimeSeriesStockData` | coreStock.go:136-162 | invalid options give the sentinel and no request; otherwise the URL is the base URL then the encoded options, and the error is the wrapped JSON or CSV route error |
| `CoreStock.EmptyIsNotAFunctionOrInterval` | coreStock.go:17-60 | "" is rejected as a function or interval and accepted for the others |
| `CoreStock.FunctionCaseInsensitive` | coreStock.go:18-19 | mixed-case names are accepted and an unlisted name is rejected |
| `CoreStock.IntradayNeedsInterval` | coreStock.go:67-69 | intraday without an interval is invalid; with 5min it is valid |
| `CoreStock.IntervalOnlyMattersForIntraday` | coreStock.go:67-69 | for a non-intraday function the interval never changes validity |
| `CoreStock.MonthNeverMatters` | coreStock.go:62-75 | the month never changes validity |
| `CoreStock.ParameterName` | coreStock.go:77-86 | each field's query key is its tag before the comma |
| `CoreStock.ParameterNamesAreKeys` | coreStock.go:77-86 | the query keys of the options are function, symbol, interval, datatype, adjusted, extended_hours, month, outputsize |
| `CoreStock.ParameterNamesDistinct` | coreStock.go:77-86 | the query keys are pairwise different |
| `CoreStock.UniqueParameter` | coreStock.go:77-86 | each option comes back under its own key in the query, or is absent when zero |
| `CoreStock.FunctionComesFromOptions` | coreStock.go:141 | the query's function and symbol are exactly the options' |
| `CoreStock.FunctionParameter` | coreStock.go:78 | the function appears in the query only when set, as the options' own value |
| `CoreStock.SymbolParameter` | coreStock.go:79 | the symbol appears in the query only when set, as the options' own value |
| `CoreStock.MonthOnlyWhenSet` | coreStock.go:84 | month appears in the query only when set |
| `CoreStock.CsvTimeSeriesIsUnsupported` | coreStock.go:151-154 | with datatype csv, a clean CSV reply still ends in the wrapped unsupported-type error |
| `AlphaIntelligence.TopicNamesAreFolded` | alphaIntelligence.go:15 | the topic labels are lower case |
| `AlphaIntelligence.SortOrdersAreFolded` | alphaIntelligence.go:24 | the sort labels are lower case |
| `AlphaIntelligence.TopicValid` | alphaIntelligence.go:13-20 | accepts exactly "" and the fifteen topics, ignoring case |
| `AlphaIntelligence.SortValid` | alphaIntelligence.go:22-29 | accepts exactly "", latest, earliest and relevance, ignoring case |
| `AlphaIntelligence.CheckOptions` | alphaIntelligence.go:31-43 | the early-return loop decides: sort valid and every topic valid |
| `AlphaIntelligence.GetNewsSentiment` | alphaIntelligence.go:103-124 | invalid options give the sentinel and no request; otherwise the URL is base, `function=NEWS_SENTIMENT&`, then the encoded options, with the JSON route's error wrapped |
| `AlphaIntelligence.GetTopGainersLosers` | alphaIntelligence.go:126-137 | the URL is base then `function=TOP_GAINERS_LOSERS` with no options; the JSON route's error is wrapped |
| `AlphaIntelligence.TopicCaseInsensitive` | alphaIntelligence.go:14-15 | mixed-case topics are accepted and an unlisted one is rejected |
| `AlphaIntelligence.ZeroOptionsAreValid` | alphaIntelligence.go:31-43 | the zero options, with no topics, are valid |
| `AlphaIntelligence.OnlySortAndTopicsMatter` | alphaIntelligence.go:31-52 | tickers, time range and limit never change validity |
| `AlphaIntelligence.TopicsCompose` | alphaIntelligence.go:36-40 | splitting the topic list splits validity into a conjunction |
| `AlphaIntelligence.OneBadTopicRejects` | alphaIntelligence.go:36-40 | one invalid topic anywhere makes the options invalid |
| `AlphaIntelligence.ParameterName` | alphaIntelligence.go:45-52 | each field's query key is its tag before `,omitempty` |
| `AlphaIntelligence.ParameterNamesAreKeys` | alphaIntelligence.go:45-52 | the query keys are tickers, topics, time_from, time_to, sort, limit |
| `AlphaIntelligence.ParameterNamesDistinct` | alphaIntelligence.go:45-52 | the query keys are pairwise different |
| `AlphaIntelligence.UniqueParameter` | alphaIntelligence.go:45-52 | each option comes back under its own key in the query, or is absent when zero |
| `AlphaIntelligence.ListsRoundTrip` | alphaIntelligence.go:46-47 | tickers and topics come back in the query as the same lists, order kept |
| `AlphaIntelligence.LimitParameter` | alphaIntelligence.go:51 | the limit appears as its decimal text only when non-zero |
| `AlphaIntelligence.LimitIsRecoverable` | alphaIntelligence.go:51 | options with different limits give different queries |
| `AlphaIntelligence.NoFunctionParameter` | alphaIntelligence.go:109 | the options add no `function` key; it comes only from the fixed URL prefix |
| `FundamentalData.StateNamesAreFolded` | fundamentalData.go:16 | the state labels are lower case |
| `FundamentalData.StateValid` | fundamentalData.go:14-21 | accepts exactly "", active and delisted, ignoring case |
| `FundamentalData.FormatDate` | fundamentalData.go:30-33 | a formatted date has the `YYYY-MM-DD` shape |
| `FundamentalData.ShapedDateIsFormatted` | fundamentalData.go:29-33 | every text of the date pattern's shape is the layout rendering of its own year, month and day |
| `FundamentalData.ParseDate` | fundamentalData.go:35-38 | parsing succeeds iff the digits form a calendar date, then gives those components, which format back to the same text |
| `FundamentalData.Valid` | fundamentalData.go:23-47 | valid iff the state is valid and the date is empty or is `YYYY-MM-DD`, a calendar date, and not before 2010-01-01 |
| `FundamentalData.GetListingStatus` | fundamentalData.go:61-75 | non-nil invalid options give the sentinel and no request; otherwise the URL is base, `function=LISTING_STATUS&`, then the encoded options, and the result is the listings read |
| `FundamentalData.ListingStatusResult` | fundamentalData.go:71-74 | an error exactly when the CSV route fails, with its APIError kind kept; no listings when the CSV reader is not reached; after a clean read, exactly the listings projected from the records |
| `FundamentalData.TextOrderIsDateOrder` | fundamentalData.go:40-43 | for well-shaped dates, text order is calendar order |
| `FundamentalData.MinimumDateRoundTrip` | fundamentalData.go:40 | "2010-01-01" reads back as the minimum date |
| `FundamentalData.ParseFormat` | fundamentalData.go:35-38 | every calendar date formats and parses back to itself |
| `FundamentalData.ComponentsOfFormat` | fundamentalData.go:30-38 | the digit fields of a formatted date are its components |
| `FundamentalData.ParseDateInjective` | fundamentalData.go:35-38 | two texts that parse to the same date are the same text |
| `FundamentalData.LeapDay` | fundamentalData.go:35-38 | February 29 parses exactly in leap years |
| `FundamentalData.ZeroOptionsAreValid` | fundamentalData.go:28 | empty date and state are valid |
| `FundamentalData.MinimumYear` | fundamentalData.go:40-43 | a calendar date is accepted iff its year is 2010 or later |
| `FundamentalData.OutOfRangeMonthRejected` | fundamentalData.go:35-38 | a month above 12 is rejected |
| `FundamentalData.MisshapenDateRejected` | fundamentalData.go:30-33 | a non-empty date not of the `YYYY-MM-DD` shape is rejected |
| `FundamentalData.NilOptionsSendNothing` | fundamentalData.go:65 | nil options add nothing to the query |
| `FundamentalData.OptionsRoundTrip` | fundamentalData.go:49-52 | date and state come back under their keys when set |
| `FundamentalData.SampleInvalidDateRejected` | test/fundamentalData_test.go:56-61 | "1234-56-78" is rejected |
| `FundamentalData.SampleValidDateAccepted` | test/fundamentalData_test.go:63-70 | "2010-01-02" is accepted |

## Left out

- HTTP transport: `http.NewRequest`, `HTTPClient.Do`, the context, `setUpHeaders` and `getContent` are I/O. A reply is a parameter. A failed send or body read is an error string in it. Errors from `http.NewRequest` are not modelled.
- `NewClient` (client.go:35-42) is not modelled: it only fills in the fixed base URL, the key and an HTTP client, and the endpoints take the client's base URL as a parameter.
- `addAPIKey` is not modelled. It adds `apikey` and re-encodes the query, so the key lands in sorted position among the other keys, not at the end.
- JSON decoding: the response structs (`CoreStockResponse`, `NewsSentimentResponse`, `RankingResponse`, with float fields) are not modelled. The body carries each decoder's outcome as an abstract view. The endpoints return the error, not the decoded response.
- CSV lexing (quoting and line rules of `encoding/csv`) is not modelled. The input is the sequence of what successive `Read` calls return. An empty stream stands for the header read failing with `EOF`.
- Reflection: an options struct is an explicit field descriptor. Only string, int and string-slice fields occur, and `fmt.Sprint` is modelled for those alone.
- Percent-escaping in `url.Values.Encode` is abstract: `Query.Render` takes the escape function.
- Case folding is ASCII-only. `strings.ToLower`/`ToUpper` also fold other Unicode letters.
- `regexp` and `time.Parse` are not modelled as libraries. Their effect is written out: the ASCII digit shape, month 1..12, the day within the month (leap years included), then comparison with 2010-01-01.
- `InValidInputError` is defined outside the modelled files. It is the `InvalidInput` error, and its text is a parameter of `ApiError.Message`.
- `ActiveListing` is defined outside the modelled files. `Csv.ReadCSVError` takes the switch's case type as a parameter; `Csv.ReadCSV`, `Client.CSVRequestError`, `Client.DoCSVRequest`, `FundamentalData.GetListingStatus` and `FundamentalData.ListingStatusResult` fix it to `Listing`, modelling the evidently intended `*[]Listing` case (see Findings).
- A nil options pointer to `GetTimeSeriesStockData` or `GetNewsSentiment` would panic in Go. These endpoints take option values, so that case is not modelled. `GetListingStatus` takes an `Option`, and its nil case is modelled.
- Client.CheckStatusErrorResponse: states that the APIError message contains the decoded detail and (in `Client.StatusErrorCarriesCode`) the status code, not the full formatted text.
- The tests call the live API. They serve only as the source of `FundamentalData.SampleInvalidDateRejected` and `FundamentalData.SampleValidDateAccepted`.

## Findings

| source | as written | input that shows it | evidently intended | confidence | as-written member | corrected member |
|---|---|---|---|---|---|---|
| client.go:129 | `readCSV`'s type switch has a case only for `*[]ActiveListing`, but `GetListingStatus` passes `*[]Listing` (fundamentalData.go:70-71) | a status-200 CSV reply with a header and data rows, read for `GetListingStatus`: the result is `unsupported type *[]goalphavantage.Listing for v` | the case is for `*[]Listing`, so the listings are appended to the caller's slice | low, not executed: `ActiveListing` is not part of this model, and if it is an alias of `Listing` the switch matches | `Csv.AsWrittenSwitchRejectsListings` | `Csv.ListingSwitchAcceptsListings` (`Csv.ReadCSV` uses the `Listing` case) |
