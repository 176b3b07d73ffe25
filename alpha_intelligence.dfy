/**
 * alphaIntelligence.go: the news-sentiment option validators, the options
 * struct as a query descriptor, GetNewsSentiment and GetTopGainersLosers.
 */
module AlphaIntelligence {
  import opened Wrappers
  import opened ApiError
  import opened Text
  import Query
  import opened Client

  const TopicNames: set<string> := {
    "", "blockchain", "earnings", "ipo", "mergers_and_acquisitions", "financial_markets",
    "economy_fiscal", "economy_monetary", "economy_macro", "energy_transportation", "finance",
    "life_sciences", "manufacturing", "real_estate", "retail_wholesale", "technology"
  }
  const SortOrders: set<string> := {"", "latest", "earliest", "relevance"}

  /** The labels are written in lower case, the case both validators fold to. */
  lemma TopicNamesAreFolded()
    ensures forall n :: n in TopicNames ==> IsLowerCase(n)
  {
  }

  lemma SortOrdersAreFolded()
    ensures forall n :: n in SortOrders ==> IsLowerCase(n)
  {
  }

  /** Topic.Valid: unset or one of the fifteen topics, in any ASCII case. */
  function TopicValid(t: string): (r: bool)
    ensures r <==> exists n :: n in TopicNames && EqualIgnoringCase(t, n)
  {
    TopicNamesAreFolded();
    LowerSwitch(t, TopicNames);
    ToLower(t) in TopicNames
  }

  /** Sort.Valid: unset, latest, earliest or relevance, in any ASCII case. */
  function SortValid(s: string): (r: bool)
    ensures r <==> exists n :: n in SortOrders && EqualIgnoringCase(s, n)
  {
    SortOrdersAreFolded();
    LowerSwitch(s, SortOrders);
    ToLower(s) in SortOrders
  }

  datatype NewsSentimentOptions = NewsSentimentOptions(
    tickers: seq<string>,
    topics: seq<string>,
    timeFrom: string,
    timeTo: string,
    sort: string,
    limit: int)

  /** What NewsSentimentOptions.Valid accepts: a valid sort order and only valid topics. */
  predicate Valid(n: NewsSentimentOptions)
  {
    SortValid(n.sort) && forall i :: 0 <= i < |n.topics| ==> TopicValid(n.topics[i])
  }

  /** NewsSentimentOptions.Valid: the sort order first, then the topics in order until one fails. */
  method CheckOptions(n: NewsSentimentOptions) returns (ok: bool)
    ensures ok == Valid(n)
  {
    if !SortValid(n.sort) {
      return false;
    }
    var i := 0;
    while i < |n.topics|
      invariant 0 <= i <= |n.topics|
      invariant forall k :: 0 <= k < i ==> TopicValid(n.topics[k])
    {
      if !TopicValid(n.topics[i]) {
        return false;
      }
      i := i + 1;
    }
    return true;
  }

  /** The options part of every tag of the struct. */
  const OmitEmpty := ",omitempty"

  /** The struct as reflection sees it: field names, url tags and values, in declaration order. */
  function Fields(n: NewsSentimentOptions): seq<Query.Field>
  {
    [ Query.Field("Tickers", "tickers" + OmitEmpty, true, Query.Strs(n.tickers)),
      Query.Field("Topics", "topics" + OmitEmpty, true, Query.Strs(n.topics)),
      Query.Field("TimeFrom", "time_from" + OmitEmpty, true, Query.Str(n.timeFrom)),
      Query.Field("TimeTo", "time_to" + OmitEmpty, true, Query.Str(n.timeTo)),
      Query.Field("Sort", "sort" + OmitEmpty, true, Query.Str(n.sort)),
      Query.Field("Limit", "limit" + OmitEmpty, true, Query.Int(n.limit)) ]
  }

  /** The query parameter names, in field order. */
  const ParameterNames: seq<string> := ["tickers", "topics", "time_from", "time_to", "sort", "limit"]

  const NewsSentimentPath := "function=NEWS_SENTIMENT&"
  const TopGainersLosersPath := "function=TOP_GAINERS_LOSERS"
  const NewsSentimentFailure := "failed to get news sentiment: "
  const TopGainersLosersFailure := "failed to get top gainers/losers: "

  /**
   * GetNewsSentiment: invalid options give the sentinel and no request;
   * otherwise the URL is the base URL, the fixed function parameter and the
   * encoded options. The decoded response itself is not modelled, only the error.
   */
  method GetNewsSentiment(c: Client, options: NewsSentimentOptions, reply: Reply)
    returns (request: Option<Request>, err: Option<Error>)
    ensures !Valid(options) ==> request == None && err == Some(InvalidInput)
    ensures Valid(options) ==>
      request == Some(Request(c.baseURL + NewsSentimentPath, Query.EncodedQuery(Query.Struct(Fields(options)))))
    ensures Valid(options) ==> err == WrapIfError(NewsSentimentFailure, DoJSONRequest(reply))
  {
    var ok := CheckOptions(options);
    if !ok {
      return None, Some(InvalidInput);
    }
    var query := Query.BuildQuery(Query.Struct(Fields(options)));
    request := Some(Request(c.baseURL + NewsSentimentPath, query));
    var inner := DoJSONRequest(reply);
    err := WrapIfError(NewsSentimentFailure, inner);
  }

  /** GetTopGainersLosers: a fixed URL without options. */
  method GetTopGainersLosers(c: Client, reply: Reply) returns (request: Request, err: Option<Error>)
    ensures request == Request(c.baseURL + TopGainersLosersPath, [])
    ensures err == WrapIfError(TopGainersLosersFailure, DoJSONRequest(reply))
  {
    request := Request(c.baseURL + TopGainersLosersPath, []);
    var inner := DoJSONRequest(reply);
    err := WrapIfError(TopGainersLosersFailure, inner);
  }

  // ---------------------------------------------------------------------------
  // Properties

  lemma TopicCaseInsensitive()
    ensures TopicValid("Technology") && TopicValid("IPO") && TopicValid("")
    ensures !TopicValid("crypto")
  {
    assert EqualIgnoringCase("Technology", "technology");
    assert EqualIgnoringCase("IPO", "ipo");
    assert EqualIgnoringCase("", "");
  }

  /** The zero value of the options is valid. */
  lemma ZeroOptionsAreValid()
    ensures Valid(NewsSentimentOptions([], [], "", "", "", 0))
  {
    assert EqualIgnoringCase("", "");
  }

  /** Validity looks only at the sort order and the topics. */
  lemma OnlySortAndTopicsMatter(n: NewsSentimentOptions, tickers: seq<string>, timeFrom: string, timeTo: string, limit: int)
    ensures Valid(n.(tickers := tickers, timeFrom := timeFrom, timeTo := timeTo, limit := limit)) == Valid(n)
  {
  }

  /** Topics are checked one by one: a list is valid exactly when both of its parts are. */
  lemma {:induction false} TopicsCompose(n: NewsSentimentOptions, a: seq<string>, b: seq<string>)
    requires n.topics == a + b
    ensures Valid(n) <==> Valid(n.(topics := a)) && Valid(n.(topics := b))
  {
    if Valid(n.(topics := a)) && Valid(n.(topics := b)) {
      forall i | 0 <= i < |n.topics| ensures TopicValid(n.topics[i]) {
        if i < |a| { assert n.topics[i] == a[i]; } else { assert n.topics[i] == b[i - |a|]; }
      }
    }
    if Valid(n) {
      forall i | 0 <= i < |a| ensures TopicValid(a[i]) { assert a[i] == n.topics[i]; }
      forall i | 0 <= i < |b| ensures TopicValid(b[i]) { assert b[i] == n.topics[|a| + i]; }
    }
  }

  /** A single invalid topic anywhere makes the options invalid. */
  lemma OneBadTopicRejects(n: NewsSentimentOptions, i: int)
    requires 0 <= i < |n.topics| && !TopicValid(n.topics[i])
    ensures !Valid(n)
  {
  }

  /** Each field is sent under the text of its tag before the first comma. */
  lemma ParameterName(n: NewsSentimentOptions, i: int)
    requires 0 <= i < |Fields(n)|
    ensures Query.Key(Fields(n)[i]) == ParameterNames[i]
  {
    var f := Fields(n);
    if i == 0 { Query.KeyOfTag(f[0], "tickers", OmitEmpty); }
    else if i == 1 { Query.KeyOfTag(f[1], "topics", OmitEmpty); }
    else if i == 2 { Query.KeyOfTag(f[2], "time_from", OmitEmpty); }
    else if i == 3 { Query.KeyOfTag(f[3], "time_to", OmitEmpty); }
    else if i == 4 { Query.KeyOfTag(f[4], "sort", OmitEmpty); }
    else { Query.KeyOfTag(f[5], "limit", OmitEmpty); }
  }

  lemma ParameterNamesAreKeys(n: NewsSentimentOptions)
    ensures Query.Keys(Fields(n)) == ParameterNames
  {
    forall i | 0 <= i < |Fields(n)| ensures Query.Keys(Fields(n))[i] == ParameterNames[i] {
      ParameterName(n, i);
    }
  }

  lemma ParameterNamesDistinct()
    ensures Query.Distinct(ParameterNames)
  {
  }

  /** The only field sent under the j-th parameter name is the j-th field. */
  lemma UniqueParameter(n: NewsSentimentOptions, j: int)
    requires 0 <= j < |Fields(n)|
    ensures Query.ValuesFor(ParameterNames[j], Query.EncodedQuery(Query.Struct(Fields(n)))) == Query.Emitted(Fields(n)[j])
  {
    ParameterNamesAreKeys(n);
    ParameterNamesDistinct();
    Query.ValuesForDistinctKeys(Fields(n), j);
  }

  /**
   * The request carries the tickers and the topics as repeated parameters,
   * each list exactly as given and in its own order; an empty list sends nothing.
   */
  lemma ListsRoundTrip(n: NewsSentimentOptions)
    ensures Query.ValuesFor("tickers", Query.EncodedQuery(Query.Struct(Fields(n)))) == n.tickers
    ensures Query.ValuesFor("topics", Query.EncodedQuery(Query.Struct(Fields(n)))) == n.topics
  {
    UniqueParameter(n, 0);
    UniqueParameter(n, 1);
  }

  /** A limit of 0 is not sent; any other limit is sent once, in decimal. */
  lemma LimitParameter(n: NewsSentimentOptions)
    ensures Query.ValuesFor("limit", Query.EncodedQuery(Query.Struct(Fields(n)))) ==
      if n.limit == 0 then [] else [IntToString(n.limit)]
  {
    UniqueParameter(n, 5);
  }

  /** Different limits give different queries. */
  lemma LimitIsRecoverable(n: NewsSentimentOptions, m: NewsSentimentOptions)
    requires n.limit != m.limit
    ensures Query.EncodedQuery(Query.Struct(Fields(n))) != Query.EncodedQuery(Query.Struct(Fields(m)))
  {
    LimitParameter(n);
    LimitParameter(m);
    var qn, qm := Query.EncodedQuery(Query.Struct(Fields(n))), Query.EncodedQuery(Query.Struct(Fields(m)));
    if qn == qm && n.limit != 0 && m.limit != 0 {
      assert [IntToString(n.limit)] == [IntToString(m.limit)];
      IntToStringInjective(n.limit, m.limit);
    }
  }

  /** The function is fixed by the path: the options never add a function parameter. */
  lemma NoFunctionParameter(n: NewsSentimentOptions)
    ensures Query.ValuesFor("function", Query.EncodedQuery(Query.Struct(Fields(n)))) == []
  {
    ParameterNamesAreKeys(n);
    assert "function" !in ParameterNames;
    forall i | 0 <= i < |Fields(n)| ensures Query.Key(Fields(n)[i]) != "function" {
      assert Query.Keys(Fields(n))[i] == ParameterNames[i];
    }
    Query.NoValuesForAbsentKey("function", Fields(n));
    Query.EncodeKeepsValues("function", Query.Entries(Fields(n)));
  }
}
