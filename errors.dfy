/** The assignment-1 `RequestError` (pkg/api/error.go) and Go's `error`
    interface as the HTTP clients use it: either a plain formatted message
    (`fmt.Errorf`) or a `RequestError` value that callers can recognise by
    type assertion. The clients of Go-Get-Flag and Go-Error-Handling use a
    `RequestError` with the same three fields (its declaring file is not part
    of this model), so they share this type. */
module Errors {
  import opened Wrappers
  import opened Text

  /** A failed request, with the status code, the raw body and a description. */
  datatype RequestError = RequestError(httpCode: int, body: string, err: string)

  /** `RequestError.Error()`: "HTTP <code>: <err> - <body>". */
  function ErrorText(e: RequestError): (r: string)
    ensures |r| >= 5 && r[..5] == "HTTP "
    ensures |r| >= |e.body| && r[|r| - |e.body|..] == e.body
  {
    "HTTP " + Decimal(e.httpCode) + ": " + e.err + " - " + e.body
  }

  /** Reads the status code back from an error text: the decimal between
      the "HTTP " prefix and the first ':'. */
  function CodeOf(text: string): Option<int>
  {
    if |text| >= 5 && text[..5] == "HTTP " then Some(ParseDecimal(Before(text[5..], ':'))) else None
  }

  /** The code printed by `ErrorText` can be read back, whatever the
      description and the body hold. */
  lemma ErrorTextCode(e: RequestError)
    ensures CodeOf(ErrorText(e)) == Some(e.httpCode)
  {
    var d := Decimal(e.httpCode);
    var rest := ": " + e.err + " - " + e.body;
    DecimalRoundTrip(e.httpCode);
    assert forall i :: 0 <= i < |d| ==> d[i] != ':';
    assert ErrorText(e)[5..] == d + rest;
    BeforeMarker(d, rest, ':');
  }

  /** An error value as `GetAssignmentData` and `doRequest` return it. */
  datatype GoError = Plain(message: string) | Request(request: RequestError)
}
