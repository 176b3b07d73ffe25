/**
 * The error values the client returns, and errors.As for the *APIError type.
 * A Go error is modelled by its dynamic kind: an *APIError, the
 * InValidInputError sentinel, an error that wraps nothing (transport, JSON,
 * CSV and io errors, fmt.Errorf without %w), or an fmt.Errorf result whose
 * format has one %w verb, which keeps the wrapped error reachable by
 * errors.Unwrap.
 */
module ApiError {
  import opened Wrappers
  import Text

  datatype Error =
    | APIError(message: string)
    | InvalidInput
    | Failure(text: string)
    | Wrapped(prefix: string, cause: Error, suffix: string)

  /** fmt.Errorf(prefix + "%w" + suffix-with-arguments, cause) */
  function Wrap(prefix: string, cause: Error, suffix: string): Error
  {
    Wrapped(prefix, cause, suffix)
  }

  /**
   * An endpoint's `if err != nil { return nil, fmt.Errorf("<context>%w", err) }`:
   * an error, when there is one, comes back wrapped and of the same kind.
   */
  function WrapIfError(context: string, inner: Option<Error>): (r: Option<Error>)
    ensures r.Some? <==> inner.Some?
    ensures inner.Some? ==> Chain(r.value) == [r.value] + Chain(inner.value)
    ensures inner.Some? ==> AsAPIError(r.value) == AsAPIError(inner.value)
  {
    if inner.Some? then Some(Wrap(context, inner.value, "")) else None
  }

  /**
   * Error() of each kind. For *APIError it is the Message field itself; a %w
   * verb prints the wrapped error's text in place. The sentinel's text is
   * defined outside the files modelled here, so it is a parameter.
   */
  function Message(e: Error, sentinelText: string): (r: string)
    ensures e.APIError? ==> r == e.message
    ensures e.Wrapped? ==> Text.Contains(r, Message(e.cause, sentinelText))
  {
    match e
    case APIError(m) => m
    case InvalidInput => sentinelText
    case Failure(t) => t
    case Wrapped(p, c, s) =>
      Text.ContainsMiddle(p, Message(c, sentinelText), s);
      p + Message(c, sentinelText) + s
  }

  /** The chain errors.As walks: the error itself, then what errors.Unwrap gives, and so on. */
  function Chain(e: Error): (c: seq<Error>)
    ensures |c| >= 1 && c[0] == e
  {
    match e
    case Wrapped(_, cause, _) => [e] + Chain(cause)
    case _ => [e]
  }

  /**
   * IsAPIError: errors.As(err, &apiError) with apiError of type *APIError. It
   * holds exactly when some error on the unwrap chain is an *APIError.
   */
  predicate IsAPIError(e: Error)
    ensures IsAPIError(e) <==> exists i :: 0 <= i < |Chain(e)| && Chain(e)[i].APIError?
  {
    match e
    case APIError(_) =>
      assert Chain(e)[0].APIError?;
      true
    case Wrapped(_, cause, _) =>
      ChainOfWrapped(e);
      IsAPIError(cause)
    case _ =>
      assert Chain(e) == [e];
      false
  }

  /** errors.As itself: the message of the first *APIError on the chain, if any. */
  function AsAPIError(e: Error): (r: Option<string>)
    ensures r.Some? <==> IsAPIError(e)
  {
    match e
    case APIError(m) => Some(m)
    case Wrapped(_, cause, _) => AsAPIError(cause)
    case _ => None
  }

  /** A wrapper is not itself an *APIError, so its chain has one exactly when its cause's chain does. */
  lemma ChainOfWrapped(e: Error)
    requires e.Wrapped?
    ensures (exists i :: 0 <= i < |Chain(e)| && Chain(e)[i].APIError?) <==>
      (exists i :: 0 <= i < |Chain(e.cause)| && Chain(e.cause)[i].APIError?)
  {
    assert Chain(e) == [e] + Chain(e.cause);
    if exists i :: 0 <= i < |Chain(e.cause)| && Chain(e.cause)[i].APIError? {
      var i :| 0 <= i < |Chain(e.cause)| && Chain(e.cause)[i].APIError?;
      assert Chain(e)[i + 1] == Chain(e.cause)[i];
    }
    forall i | 0 <= i < |Chain(e)| && Chain(e)[i].APIError?
      ensures exists j :: 0 <= j < |Chain(e.cause)| && Chain(e.cause)[j].APIError?
    {
      assert i > 0;
      var k := i - 1;
      assert 0 <= k < |Chain(e.cause)| && Chain(e.cause)[k] == Chain(e)[i];
    }
  }

  /** What errors.As stores is the message of an *APIError on the chain. */
  lemma {:induction false} AsAPIErrorFindsChainMember(e: Error)
    requires AsAPIError(e).Some?
    ensures exists i :: 0 <= i < |Chain(e)| && Chain(e)[i] == APIError(AsAPIError(e).value)
  {
    match e
    case APIError(m) =>
      assert Chain(e)[0] == APIError(m);
    case Wrapped(_, cause, _) =>
      AsAPIErrorFindsChainMember(cause);
      var i :| 0 <= i < |Chain(cause)| && Chain(cause)[i] == APIError(AsAPIError(cause).value);
      assert Chain(e)[i + 1] == Chain(cause)[i];
  }

  /** Wrapping with one layer of %w per element, innermost layer first. */
  function WrapAll(layers: seq<(string, string)>, e: Error): Error
  {
    if layers == [] then e
    else Wrap(layers[|layers| - 1].0, WrapAll(layers[..|layers| - 1], e), layers[|layers| - 1].1)
  }

  /** Any number of %w wraps keeps the kind, in both directions, and what errors.As finds. */
  lemma {:induction false} WrapsPreserveKind(layers: seq<(string, string)>, e: Error)
    ensures IsAPIError(WrapAll(layers, e)) == IsAPIError(e)
    ensures AsAPIError(WrapAll(layers, e)) == AsAPIError(e)
  {
    if layers != [] {
      WrapsPreserveKind(layers[..|layers| - 1], e);
    }
  }

  /** An error whose chain holds no *APIError, such as the unknown-status error, is not one. */
  lemma UnknownStatusErrorIsNotAPIError(decodeError: string, code: int)
    ensures !IsAPIError(Wrap("unknown error: ", Failure(decodeError), ", status code: " + Text.IntToString(code)))
  {
  }

  /** The validation sentinel is itself not an *APIError, and neither is anything wrapping it. */
  lemma SentinelIsNotAPIError(layers: seq<(string, string)>)
    ensures !IsAPIError(WrapAll(layers, InvalidInput))
  {
    WrapsPreserveKind(layers, InvalidInput);
  }
}
