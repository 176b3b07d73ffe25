/**
 * The request plumbing of client.go that decides, for one reply, which error
 * (if any) the caller gets: the status check, the embedded API-error check,
 * and the routing of doJSONRequest and doCSVRequest.
 *
 * A reply body is abstract: it is given by what each decoder the client applies
 * makes of it. No JSON or HTTP is implemented here.
 */
module Client {
  import opened Wrappers
  import opened ApiError
  import Text
  import Query
  import Csv

  /**
   * The client's configuration, which the endpoints take as a parameter; the
   * HTTP client and its one-minute timeout are not modelled.
   */
  datatype Client = Client(baseURL: string, apiKey: string)

  /** A request: the URL up to and including the fixed part, then the encoded query pairs. */
  datatype Request = Request(prefix: string, query: seq<(string, string)>)

  datatype JsonView<T> = Unparsable(error: string) | Parsed(value: T)

  /** statusErrorResponse: the {code, detail} wrapper of a failed status. */
  datatype StatusPayload = StatusPayload(code: int, detail: string)

  /** apiErrorResponse: absent fields read as "". */
  datatype ErrorPayload = ErrorPayload(information: string, errorMessage: string)

  datatype Body = Body(
    readError: Option<string>,               // io.ReadAll stopping with an error
    asStatusError: JsonView<StatusPayload>,  // json.NewDecoder(res.Body).Decode(&errRes)
    asErrorPayload: JsonView<ErrorPayload>,  // json.Unmarshal(content, &apiErrRes)
    asTarget: Option<string>,                // the error, if any, of json.Unmarshal(content, &v)
    asCsv: seq<Csv.Lexed>)                   // what csv.Reader.Read lexes from content

  /** What HTTPClient.Do yields: a transport error, or a status code, a Content-Type header and a body. */
  datatype Reply = NoReply(error: string) | Reply(statusCode: int, contentType: string, body: Body)

  const StatusOK := 200
  const StatusBadRequest := 400

  const ErrorPrefix := "alphvantage call error message: "

  /** checkStatusErrorResponse: anything in 200..399 passes, 3xx included. */
  function CheckStatusErrorResponse(statusCode: int, body: Body): (r: Option<Error>)
    ensures r.None? <==> 200 <= statusCode <= 399
    ensures r.Some? ==> (IsAPIError(r.value) <==> body.asStatusError.Parsed?)
    ensures r.Some? && body.asStatusError.Parsed? ==>
      r.value.APIError? && Text.Contains(r.value.message, body.asStatusError.value.detail)
  {
    if statusCode < StatusOK || statusCode >= StatusBadRequest then
      match body.asStatusError
      case Parsed(payload) =>
        var tail := "), status code: " + Text.IntToString(statusCode);
        var message := ErrorPrefix + "(" + payload.detail + tail;
        Text.ContainsMiddle(ErrorPrefix + "(", payload.detail, tail);
        Some(APIError(message))
      case Unparsable(e) =>
        Some(Wrap("unknown error: ", Failure(e), ", status code: " + Text.IntToString(statusCode)))
    else
      None
  }

  /** checkAPIResponseForErrorMessage: Error_Message first, then Information. */
  function CheckAPIResponseForErrorMessage(view: JsonView<ErrorPayload>): (r: Option<Error>)
    ensures view.Unparsable? ==> r == Some(Failure(view.error))
    ensures view.Parsed? && view.value.errorMessage != "" ==> r == Some(APIError(ErrorPrefix + view.value.errorMessage))
    ensures view.Parsed? && view.value.errorMessage == "" && view.value.information != "" ==>
      r == Some(APIError(ErrorPrefix + view.value.information))
    ensures (r.Some? && IsAPIError(r.value)) <==>
      view.Parsed? && (view.value.errorMessage != "" || view.value.information != "")
    ensures r.None? <==> view == Parsed(ErrorPayload("", ""))
  {
    match view
    case Unparsable(e) => Some(Failure(e))
    case Parsed(payload) =>
      if payload.errorMessage != "" then Some(APIError(ErrorPrefix + payload.errorMessage))
      else if payload.information != "" then Some(APIError(ErrorPrefix + payload.information))
      else None
  }

  /**
   * doJSONRequest: transport, status, body read, embedded error, then decoding
   * into v. Its error is an APIError exactly when the server said so: a failed
   * status with a decodable error body, or a passing status whose body carries
   * an error message or an information note.
   */
  function DoJSONRequest(reply: Reply): (r: Option<Error>)
    ensures reply.NoReply? ==> r == Some(Failure(reply.error))
    ensures (r.Some? && IsAPIError(r.value)) <==>
      reply.Reply? &&
      ((!(200 <= reply.statusCode <= 399) && reply.body.asStatusError.Parsed?) ||
       (200 <= reply.statusCode <= 399 && reply.body.readError.None? && reply.body.asErrorPayload.Parsed? &&
        (reply.body.asErrorPayload.value.errorMessage != "" || reply.body.asErrorPayload.value.information != "")))
  {
    match reply
    case NoReply(e) => Some(Failure(e))
    case Reply(code, _, body) =>
      var status := CheckStatusErrorResponse(code, body);
      if status.Some? then status
      else if body.readError.Some? then Some(Failure(body.readError.value))
      else
        var embedded := CheckAPIResponseForErrorMessage(body.asErrorPayload);
        if embedded.Some? then embedded
        else if body.asTarget.Some? then Some(Failure(body.asTarget.value))
        else None
  }

  /**
   * The text of a Request, as the endpoints' fmt.Sprintf builds it: the fixed
   * prefix, then the escaped, &-joined query.
   */
  function URL(request: Request, escape: string -> string): (u: string)
    ensures |u| >= |request.prefix| && u[..|request.prefix|] == request.prefix
    ensures u == request.prefix <==> request.query == []
  {
    request.prefix + Query.Render(request.query, escape)
  }

  /** Whether doCSVRequest hands the body to the CSV reader: it got that far and the type is not JSON. */
  predicate ReachesCSVReader(reply: Reply)
  {
    reply.Reply?
    && CheckStatusErrorResponse(reply.statusCode, reply.body).None?
    && reply.body.readError.None?
    && !Text.Contains(reply.contentType, "application/json")
  }

  /** doCSVRequest's error result; a JSON content type leads only to the embedded-error check. */
  function CSVRequestError(reply: Reply, target: Csv.TargetType): Option<Error>
  {
    match reply
    case NoReply(e) => Some(Failure(e))
    case Reply(code, contentType, body) =>
      var status := CheckStatusErrorResponse(code, body);
      if status.Some? then status
      else if body.readError.Some? then Some(Failure(body.readError.value))
      else if Text.Contains(contentType, "application/json") then CheckAPIResponseForErrorMessage(body.asErrorPayload)
      else Csv.ReadCSVError(body.asCsv, target, Csv.ListingType)
  }

  method DoCSVRequest(reply: Reply, target: Csv.Target) returns (err: Option<Error>)
    modifies Csv.TargetFrame(target)
    ensures err == CSVRequestError(reply, Csv.TypeOf(target))
    ensures target.SliceOf? ==>
      target.slice.items == old(target.slice.items) +
        (if err.None? && ReachesCSVReader(reply) then Csv.ListingsOf(Csv.Records(reply.body.asCsv).value) else [])
  {
    match reply {
      case NoReply(e) =>
        return Some(Failure(e));
      case Reply(code, contentType, body) =>
        err := CheckStatusErrorResponse(code, body);
        if err.Some? {
          return;
        }
        if body.readError.Some? {
          return Some(Failure(body.readError.value));
        }
        if Text.Contains(contentType, "application/json") {
          return CheckAPIResponseForErrorMessage(body.asErrorPayload);
        }
        err := Csv.ReadCSV(body.asCsv, target);
    }
  }

  // ---------------------------------------------------------------------------
  // Properties of the decision logic

  /**
   * Both kinds of status failure name the status code: the APIError in its
   * message, the unknown error in its wrapping text.
   */
  lemma StatusErrorCarriesCode(code: int, body: Body, sentinelText: string)
    ensures CheckStatusErrorResponse(code, body).Some? ==>
      Text.Contains(Message(CheckStatusErrorResponse(code, body).value, sentinelText), Text.IntToString(code))
  {
    var r := CheckStatusErrorResponse(code, body);
    if r.Some? {
      var n := Text.IntToString(code);
      match body.asStatusError
      case Parsed(payload) =>
        var head := ErrorPrefix + "(" + payload.detail + "), status code: ";
        assert Message(r.value, sentinelText) == head + n + "";
        Text.ContainsMiddle(head, n, "");
      case Unparsable(e) =>
        var head := "unknown error: " + e + ", status code: ";
        assert Message(r.value, sentinelText) == head + n + "";
        Text.ContainsMiddle(head, n, "");
    }
  }

  /** A 3xx status is treated as success, like 2xx. */
  lemma RedirectStatusPasses(code: int, body: Body)
    requires 300 <= code < 400
    ensures CheckStatusErrorResponse(code, body) == None
  {
  }

  /**
   * An error body short-circuits doJSONRequest: whatever the body would decode
   * to as the target, the caller gets the API error and no success.
   */
  lemma EmbeddedErrorShortCircuits(reply: Reply)
    requires reply.Reply? && 200 <= reply.statusCode < 400 && reply.body.readError.None?
    requires reply.body.asErrorPayload.Parsed?
    requires reply.body.asErrorPayload.value.errorMessage != "" || reply.body.asErrorPayload.value.information != ""
    ensures DoJSONRequest(reply).Some? && IsAPIError(DoJSONRequest(reply).value)
    ensures DoJSONRequest(reply) == CheckAPIResponseForErrorMessage(reply.body.asErrorPayload)
  {
  }

  /** A 200 reply {"Information": "rate limit"} yields an API error whose message carries "rate limit". */
  lemma RateLimitIsAPIError(contentType: string, body: Body)
    requires body.readError.None? && body.asErrorPayload == Parsed(ErrorPayload("rate limit", ""))
    ensures DoJSONRequest(Reply(200, contentType, body)) == Some(APIError(ErrorPrefix + "rate limit"))
    ensures Text.Contains(DoJSONRequest(Reply(200, contentType, body)).value.message, "rate limit")
  {
    Text.ContainsMiddle(ErrorPrefix, "rate limit", "");
    assert ErrorPrefix + "rate limit" + "" == ErrorPrefix + "rate limit";
  }

  /** doJSONRequest succeeds exactly on a readable 2xx/3xx body with no error fields that decodes into v. */
  lemma JSONSuccessIff(reply: Reply)
    ensures DoJSONRequest(reply).None? <==>
      reply.Reply? && 200 <= reply.statusCode < 400 && reply.body.readError.None?
      && reply.body.asErrorPayload == Parsed(ErrorPayload("", "")) && reply.body.asTarget.None?
  {
  }

  /** A JSON reply on the CSV route is only checked for an embedded error; the CSV reader never runs. */
  lemma JSONOnCSVRouteOnlyChecksErrors(code: int, contentType: string, body: Body, target: Csv.TargetType)
    requires 200 <= code < 400 && body.readError.None?
    requires Text.Contains(contentType, "application/json")
    ensures CSVRequestError(Reply(code, contentType, body), target) == CheckAPIResponseForErrorMessage(body.asErrorPayload)
    ensures !ReachesCSVReader(Reply(code, contentType, body))
  {
  }

  /** Transport errors, decode errors and the unknown-status error are never API errors. */
  lemma TransportErrorsAreNotAPIErrors(reply: Reply)
    requires reply.NoReply? || (reply.Reply? && !(200 <= reply.statusCode < 400) && reply.body.asStatusError.Unparsable?)
    ensures DoJSONRequest(reply).Some? && !IsAPIError(DoJSONRequest(reply).value)
    ensures forall t :: CSVRequestError(reply, t).Some? && !IsAPIError(CSVRequestError(reply, t).value)
  {
  }
}
