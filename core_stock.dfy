/**
 * coreStock.go: the time-series option validators, the options struct as a
 * query descriptor, and GetTimeSeriesStockData up to its final error.
 */
module CoreStock {
  import opened Wrappers
  import opened ApiError
  import opened Text
  import Query
  import Csv
  import opened Client

  const FunctionNames: set<string> := {
    "TIME_SERIES_INTRADAY", "TIME_SERIES_DAILY", "TIME_SERIES_DAILY_ADJUSTED", "TIME_SERIES_WEEKLY",
    "TIME_SERIES_WEEKLY_ADJUSTED", "TIME_SERIES_MONTHLY", "TIME_SERIES_MONTHLY_ADJUSTED", "GLOBAL_QUOTE"
  }
  const DataTypes: set<string> := {"", "json", "csv"}
  const Intervals: set<string> := {"1min", "5min", "15min", "30min", "60min"}
  const OutputSizes: set<string> := {"", "compact", "full"}
  const BoolStrings: set<string> := {"", "true", "false"}

  const Intraday := "TIME_SERIES_INTRADAY"

  /** The labels are written in the case their validator folds to. */
  lemma FunctionNamesAreFolded()
    ensures forall n :: n in FunctionNames ==> IsUpperCase(n)
  {
    assert IsUpperCase("TIME_SERIES_INTRADAY");
    assert IsUpperCase("TIME_SERIES_DAILY");
    assert IsUpperCase("TIME_SERIES_DAILY_ADJUSTED");
    assert IsUpperCase("TIME_SERIES_WEEKLY");
    assert IsUpperCase("TIME_SERIES_WEEKLY_ADJUSTED");
    assert IsUpperCase("TIME_SERIES_MONTHLY");
    assert IsUpperCase("TIME_SERIES_MONTHLY_ADJUSTED");
    assert IsUpperCase("GLOBAL_QUOTE");
  }

  lemma LabelsAreFolded()
    ensures forall n :: n in DataTypes ==> IsLowerCase(n)
    ensures forall n :: n in Intervals ==> IsLowerCase(n)
    ensures forall n :: n in OutputSizes ==> IsLowerCase(n)
    ensures forall n :: n in BoolStrings ==> IsLowerCase(n)
  {
  }

  /** Function.Valid: one of the eight function names, in any ASCII case. */
  function FunctionValid(f: string): (r: bool)
    ensures r <==> exists n :: n in FunctionNames && EqualIgnoringCase(f, n)
  {
    FunctionNamesAreFolded();
    UpperSwitch(f, FunctionNames);
    ToUpper(f) in FunctionNames
  }

  /** DataType.Valid: unset, json or csv, in any ASCII case. */
  function DataTypeValid(d: string): (r: bool)
    ensures r <==> exists n :: n in DataTypes && EqualIgnoringCase(d, n)
  {
    LabelsAreFolded();
    LowerSwitch(d, DataTypes);
    ToLower(d) in DataTypes
  }

  /** Interval.Valid: one of the five minute intervals, in any ASCII case; unset is not valid. */
  function IntervalValid(i: string): (r: bool)
    ensures r <==> exists n :: n in Intervals && EqualIgnoringCase(i, n)
  {
    LabelsAreFolded();
    LowerSwitch(i, Intervals);
    ToLower(i) in Intervals
  }

  /** OutputSize.Valid: unset, compact or full, in any ASCII case. */
  function OutputSizeValid(o: string): (r: bool)
    ensures r <==> exists n :: n in OutputSizes && EqualIgnoringCase(o, n)
  {
    LabelsAreFolded();
    LowerSwitch(o, OutputSizes);
    ToLower(o) in OutputSizes
  }

  /** BoolString.Valid: unset, true or false, in any ASCII case. */
  function BoolStringValid(b: string): (r: bool)
    ensures r <==> exists n :: n in BoolStrings && EqualIgnoringCase(b, n)
  {
    LabelsAreFolded();
    LowerSwitch(b, BoolStrings);
    ToLower(b) in BoolStrings
  }

  datatype CoreStockSharedInputOptions = CoreStockSharedInputOptions(
    func: string,
    symbol: string,
    interval: string,
    dataType: string,
    adjusted: string,
    extendedHours: string,
    month: string,
    outputSize: string)

  /**
   * CoreStockSharedInputOptions.Valid. The interval is checked only for the
   * intraday function, and the month is never checked.
   */
  function Valid(o: CoreStockSharedInputOptions): (r: bool)
    ensures r <==>
      && FunctionValid(o.func)
      && o.symbol != ""
      && (EqualIgnoringCase(o.func, Intraday) ==> IntervalValid(o.interval))
      && DataTypeValid(o.dataType)
      && BoolStringValid(o.adjusted)
      && BoolStringValid(o.extendedHours)
      && OutputSizeValid(o.outputSize)
  {
    UpperMatchesIgnoringCase(o.func, Intraday);
    if !FunctionValid(o.func) || o.symbol == "" then false
    else if ToUpper(o.func) == Intraday && !IntervalValid(o.interval) then false
    else if !DataTypeValid(o.dataType) || !BoolStringValid(o.adjusted)
         || !BoolStringValid(o.extendedHours) || !OutputSizeValid(o.outputSize) then false
    else true
  }

  /** The options part of the optional tags, written with a space after the comma. */
  const OmitEmpty := ", omitempty"

  /** The struct as reflection sees it: field names, url tags and values, in declaration order. */
  function Fields(o: CoreStockSharedInputOptions): seq<Query.Field>
  {
    [ Query.Field("Function", "function", true, Query.Str(o.func)),
      Query.Field("Symbol", "symbol", true, Query.Str(o.symbol)),
      Query.Field("Interval", "interval", true, Query.Str(o.interval)),
      Query.Field("Datatype", "datatype" + OmitEmpty, true, Query.Str(o.dataType)),
      Query.Field("Adjusted", "adjusted" + OmitEmpty, true, Query.Str(o.adjusted)),
      Query.Field("ExtendedHours", "extended_hours" + OmitEmpty, true, Query.Str(o.extendedHours)),
      Query.Field("Month", "month" + OmitEmpty, true, Query.Str(o.month)),
      Query.Field("OutputSize", "outputsize" + OmitEmpty, true, Query.Str(o.outputSize)) ]
  }

  const CoreStockResponseType := Csv.OtherType("*goalphavantage.CoreStockResponse")

  const TimeSeriesFailure := "failed to get time sereis stock data: "

  /** The error GetTimeSeriesStockData returns once its request is sent. */
  function TimeSeriesError(o: CoreStockSharedInputOptions, reply: Reply): Option<Error>
  {
    var inner := if ToLower(o.dataType) == "csv" then CSVRequestError(reply, CoreStockResponseType)
                 else DoJSONRequest(reply);
    WrapIfError(TimeSeriesFailure, inner)
  }

  /**
   * GetTimeSeriesStockData: invalid options give the sentinel and no request;
   * otherwise the URL is the base URL followed by the encoded options. The
   * decoded response itself is not modelled, only the error.
   */
  method GetTimeSeriesStockData(c: Client, options: CoreStockSharedInputOptions, reply: Reply)
    returns (request: Option<Request>, err: Option<Error>)
    ensures !Valid(options) ==> request == None && err == Some(InvalidInput)
    ensures Valid(options) ==> request == Some(Request(c.baseURL, Query.EncodedQuery(Query.Struct(Fields(options)))))
    ensures Valid(options) ==> err == TimeSeriesError(options, reply)
  {
    if !Valid(options) {
      return None, Some(InvalidInput);
    }
    var query := Query.BuildQuery(Query.Struct(Fields(options)));
    request := Some(Request(c.baseURL, query));
    var inner: Option<Error>;
    if ToLower(options.dataType) == "csv" {
      inner := DoCSVRequest(reply, Csv.OtherTarget("*goalphavantage.CoreStockResponse"));
    } else {
      inner := DoJSONRequest(reply);
    }
    err := WrapIfError(TimeSeriesFailure, inner);
  }

  // ---------------------------------------------------------------------------
  // Properties

  /** The function name is required: the empty string is not one, nor is an unset interval. */
  lemma EmptyIsNotAFunctionOrInterval()
    ensures !FunctionValid("") && !IntervalValid("")
    ensures DataTypeValid("") && OutputSizeValid("") && BoolStringValid("")
  {
  }

  lemma FunctionCaseInsensitive()
    ensures FunctionValid("time_series_intraday") && FunctionValid("Global_Quote")
    ensures !FunctionValid("TIME_SERIES_HOURLY")
  {
    assert EqualIgnoringCase("time_series_intraday", "TIME_SERIES_INTRADAY");
    assert EqualIgnoringCase("Global_Quote", "GLOBAL_QUOTE");
    // the only name of the same length is TIME_SERIES_WEEKLY, which differs at index 12
    assert !SameIgnoringCase("TIME_SERIES_HOURLY"[12], "TIME_SERIES_WEEKLY"[12]);
  }

  /** Options for intraday data need a valid interval: none fails, "5min" passes. */
  lemma IntradayNeedsInterval(symbol: string)
    requires symbol != ""
    ensures !Valid(CoreStockSharedInputOptions(Intraday, symbol, "", "", "", "", "", ""))
    ensures Valid(CoreStockSharedInputOptions(Intraday, symbol, "5min", "", "", "", "", ""))
  {
    assert EqualIgnoringCase(Intraday, Intraday);
    assert EqualIgnoringCase("", "");
    assert EqualIgnoringCase("5min", "5min");
  }

  /** For every function other than intraday, the interval does not matter. */
  lemma IntervalOnlyMattersForIntraday(o: CoreStockSharedInputOptions, interval: string)
    requires !EqualIgnoringCase(o.func, Intraday)
    ensures Valid(o.(interval := interval)) == Valid(o)
  {
  }

  /** The month is never validated. */
  lemma MonthNeverMatters(o: CoreStockSharedInputOptions, month: string)
    ensures Valid(o.(month := month)) == Valid(o)
  {
  }

  /** The query parameter names, in field order. */
  const ParameterNames: seq<string> :=
    ["function", "symbol", "interval", "datatype", "adjusted", "extended_hours", "month", "outputsize"]

  /** Each field is sent under the text of its tag before the first comma. */
  lemma ParameterName(o: CoreStockSharedInputOptions, i: int)
    requires 0 <= i < |Fields(o)|
    ensures Query.Key(Fields(o)[i]) == ParameterNames[i]
  {
    var f := Fields(o);
    if i == 0 { Query.KeyOfTag(f[0], "function", ""); }
    else if i == 1 { Query.KeyOfTag(f[1], "symbol", ""); }
    else if i == 2 { Query.KeyOfTag(f[2], "interval", ""); }
    else if i == 3 { Query.KeyOfTag(f[3], "datatype", OmitEmpty); }
    else if i == 4 { Query.KeyOfTag(f[4], "adjusted", OmitEmpty); }
    else if i == 5 { Query.KeyOfTag(f[5], "extended_hours", OmitEmpty); }
    else if i == 6 { Query.KeyOfTag(f[6], "month", OmitEmpty); }
    else { Query.KeyOfTag(f[7], "outputsize", OmitEmpty); }
  }

  lemma ParameterNamesAreKeys(o: CoreStockSharedInputOptions)
    ensures Query.Keys(Fields(o)) == ParameterNames
  {
    forall i | 0 <= i < |Fields(o)| ensures Query.Keys(Fields(o))[i] == ParameterNames[i] {
      ParameterName(o, i);
    }
  }

  lemma ParameterNamesDistinct()
    ensures Query.Distinct(ParameterNames)
  {
  }

  /** The only field sent under the j-th parameter name is the j-th field. */
  lemma UniqueParameter(o: CoreStockSharedInputOptions, j: int)
    requires 0 <= j < |Fields(o)|
    ensures Query.ValuesFor(ParameterNames[j], Query.EncodedQuery(Query.Struct(Fields(o)))) == Query.Emitted(Fields(o)[j])
  {
    ParameterNamesAreKeys(o);
    ParameterNamesDistinct();
    Query.ValuesForDistinctKeys(Fields(o), j);
  }

  /**
   * The request's function parameter is the options' own Function field,
   * exactly once, and the symbol is sent too.
   */
  lemma FunctionComesFromOptions(o: CoreStockSharedInputOptions)
    requires o.func != "" && o.symbol != ""
    ensures Query.ValuesFor("function", Query.EncodedQuery(Query.Struct(Fields(o)))) == [o.func]
    ensures Query.ValuesFor("symbol", Query.EncodedQuery(Query.Struct(Fields(o)))) == [o.symbol]
  {
    FunctionParameter(o);
    SymbolParameter(o);
  }

  lemma FunctionParameter(o: CoreStockSharedInputOptions)
    ensures Query.ValuesFor("function", Query.EncodedQuery(Query.Struct(Fields(o)))) ==
      if o.func == "" then [] else [o.func]
  {
    UniqueParameter(o, 0);
  }

  lemma SymbolParameter(o: CoreStockSharedInputOptions)
    ensures Query.ValuesFor("symbol", Query.EncodedQuery(Query.Struct(Fields(o)))) ==
      if o.symbol == "" then [] else [o.symbol]
  {
    UniqueParameter(o, 1);
  }

  /** An unset month is left out of the query; a set one is sent under "month". */
  lemma MonthOnlyWhenSet(o: CoreStockSharedInputOptions)
    ensures Query.ValuesFor("month", Query.EncodedQuery(Query.Struct(Fields(o)))) ==
      if o.month == "" then [] else [o.month]
  {
    UniqueParameter(o, 6);
  }

  /**
   * With datatype csv, a CSV reply that reads cleanly still fails: the CSV
   * reader has no case for *CoreStockResponse.
   */
  lemma CsvTimeSeriesIsUnsupported(o: CoreStockSharedInputOptions, code: int, contentType: string, body: Body)
    requires ToLower(o.dataType) == "csv"
    requires 200 <= code < 400 && body.readError.None? && !Contains(contentType, "application/json")
    requires Csv.Records(body.asCsv).Ok?
    ensures TimeSeriesError(o, Reply(code, contentType, body)) ==
      Some(Wrap(TimeSeriesFailure, Csv.UnsupportedType(CoreStockResponseType), ""))
  {
  }
}
