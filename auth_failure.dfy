/** What the `authorize` command reports when the token endpoint refuses the
    password grant: the error text is looked up in the response, and the
    sentinel "invalid_client" is reported as bad client credentials. */
module AuthFailure {
  import opened Wrappers
  import opened Php

  const InvalidClient: string := "invalid_client"

  /** The two places an error text can sit in a response array:
      `errorMessage` and `error.message` (each null when not set). */
  datatype ErrorFields = ErrorFields(errorMessage: Option<string>, errorDotMessage: Option<string>)

  /** A refused token request: the raw body, the two error fields of the
      transport's own last-response array, and the two error fields of the
      body decoded as JSON when decoding gives a value PHP does not treat as
      false (None for a body that is not JSON, or is an empty object, null,
      false, 0 or ""). */
  datatype FailedResponse = FailedResponse(raw: string, transport: ErrorFields, decoded: Option<ErrorFields>)

  /** The response the error text is taken from and that a generic error
      shows: the decoded body, or else the transport's last-response array;
      either way the raw body it came from is kept. */
  datatype Examined = DecodedBody(raw: string, fields: ErrorFields) | LastResponse(raw: string, fields: ErrorFields)

  datatype Rejection = InvalidClientCredentials | RemoteAuthFailure(shown: Examined)

  /** Cli.php:161-163: the decoded body replaces the response when it is not
      loosely equal to false. */
  function Examine(r: FailedResponse): (e: Examined)
    ensures e.DecodedBody? <==> r.decoded.Some?
    ensures e.fields == if r.decoded.Some? then r.decoded.value else r.transport
    ensures e.raw == r.raw
  {
    match r.decoded
    case Some(f) => DecodedBody(r.raw, f)
    case None => LastResponse(r.raw, r.transport)
  }

  /** Cli.php:165-170: a non-empty `errorMessage` is taken first, then a set
      `error.message` overwrites it. */
  function ExtractedError(f: ErrorFields): (e: Option<string>)
    ensures f.errorDotMessage.Some? ==> e == f.errorDotMessage
    ensures f.errorDotMessage.None? && TruthyOpt(f.errorMessage) ==> e == f.errorMessage
    ensures f.errorDotMessage.None? && !TruthyOpt(f.errorMessage) ==> e.None?
  {
    var error := if f.errorMessage.Some? && Truthy(f.errorMessage.value) then f.errorMessage else None;
    if f.errorDotMessage.Some? then f.errorDotMessage else error
  }

  /** Cli.php:172-175: a truthy error equal to "invalid_client" means the
      client credentials were refused; anything else is a generic failure
      that shows the examined response. */
  function Classify(r: FailedResponse): (j: Rejection)
    ensures j == InvalidClientCredentials <==> ExtractedError(Examine(r).fields) == Some(InvalidClient)
    ensures j.RemoteAuthFailure? ==> j.shown == Examine(r)
  {
    var error := ExtractedError(Examine(r).fields);
    if error.Some? && Truthy(error.value) && error.value == InvalidClient then InvalidClientCredentials
    else RemoteAuthFailure(Examine(r))
  }

  /** `error.message` wins over `errorMessage` when both are set, even when
      it is empty. */
  lemma NestedMessageWins(raw: string, transport: ErrorFields, outer: string, nested: string)
    ensures ExtractedError(Examine(FailedResponse(raw, transport, Some(ErrorFields(Some(outer), Some(nested))))).fields) == Some(nested)
  {
  }

  /** The body {"error":{"message":"invalid_client"}} is reported as invalid
      client credentials; {"errorMessage":"rate limited"} as a generic
      failure whose shown response carries the message. */
  lemma ExampleBodies(transport: ErrorFields)
    ensures Classify(FailedResponse("{\"error\":{\"message\":\"invalid_client\"}}", transport,
                                    Some(ErrorFields(None, Some(InvalidClient))))) == InvalidClientCredentials
    ensures var j := Classify(FailedResponse("{\"errorMessage\":\"rate limited\"}", transport,
                                             Some(ErrorFields(Some("rate limited"), None))));
            j.RemoteAuthFailure? && ExtractedError(j.shown.fields) == Some("rate limited")
  {
  }

  /** An `errorMessage` of "invalid_client" also counts, unless a set
      `error.message` says something else. */
  lemma OuterInvalidClient(raw: string, transport: ErrorFields, nested: Option<string>)
    ensures Classify(FailedResponse(raw, transport, Some(ErrorFields(Some(InvalidClient), nested)))) == InvalidClientCredentials
        <==> (nested.None? || nested == Some(InvalidClient))
  {
  }
}
