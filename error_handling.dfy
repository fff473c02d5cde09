/** The word-service client of Go-Error-Handling/api_client_parse_json_decouple.go:
    the same `doRequest` as Go-Get-Flag except that every decode failure is
    a `RequestError` carrying the status and the raw body, and the program
    takes the URL from its command-line arguments. */
module ErrorHandling {
  import opened Wrappers
  import opened Text
  import opened Http
  import opened Errors
  import opened WordsClient
  import GetFlag

  /** `doRequest`, this program's copy. */
  function DoRequest(requestURL: string, uriError: string -> Option<string>,
                     get: string -> Exchange, json: Json): (r: Outcome)
    ensures r.Exited? <==> uriError(requestURL).Some?
    ensures r.Exited? ==> r.exitCode == 1
    // never both a response and an error
    ensures r.Returned? ==> r.response.None? || r.err.None?
    // a non-200 reply gives a plain error and no response
    ensures uriError(requestURL).None? && get(requestURL).Received? && get(requestURL).reply.statusCode != 200 ==>
              r.Returned? && r.response.None? && r.err.Some? && r.err.value.Plain?
    // a 200 reply that is not JSON
    ensures uriError(requestURL).None? && get(requestURL).Received? && get(requestURL).reply.statusCode == 200
            && !json.valid(get(requestURL).reply.body) ==>
              r == Returned(None, Some(Request(RequestError(200, get(requestURL).reply.body, "no valid json returned"))))
    // every decode failure is a RequestError with the status and the raw body
    ensures uriError(requestURL).None? && DecodeFails(get(requestURL), json) ==>
              r.Returned? && r.response.None? && r.err.Some? && r.err.value.Request?
              && r.err.value.request.httpCode == 200
              && r.err.value.request.body == get(requestURL).reply.body
    // every RequestError comes from a 200 reply and carries its body
    ensures r.Returned? && r.err.Some? && r.err.value.Request? ==>
              uriError(requestURL).None? && get(requestURL).Received? && get(requestURL).reply.statusCode == 200
              && r.err.value.request.httpCode == 200 && r.err.value.request.body == get(requestURL).reply.body
    // RequestErrors are exactly the invalid-JSON and decode failures
    ensures r.Returned? && r.err.Some? && r.err.value.Request? <==>
              uriError(requestURL).None? && get(requestURL).Received? && get(requestURL).reply.statusCode == 200
              && (!json.valid(get(requestURL).reply.body) || DecodeFails(get(requestURL), json))
    // page dispatch
    ensures r.Returned? && r.response.Some? && r.response.value.WordsResponse? ==>
              Decodable(get(requestURL), json) && json.page(get(requestURL).reply.body).Success?
              && json.page(get(requestURL).reply.body).value.name == "words"
              && json.words(get(requestURL).reply.body) == Success(r.response.value.w)
    ensures r.Returned? && r.response.Some? && r.response.value.OccurrenceResponse? ==>
              Decodable(get(requestURL), json) && json.page(get(requestURL).reply.body).Success?
              && json.page(get(requestURL).reply.body).value.name == "occurrence"
              && json.occurrence(get(requestURL).reply.body) == Success(r.response.value.o)
    // a decoded "words" or "occurrence" page gives its decoded value
    ensures uriError(requestURL).None? && Decodable(get(requestURL), json)
            && json.page(get(requestURL).reply.body) == Success(Page("words"))
            && json.words(get(requestURL).reply.body).Success? ==>
              r == Returned(Some(WordsResponse(json.words(get(requestURL).reply.body).value)), None)
    ensures uriError(requestURL).None? && Decodable(get(requestURL), json)
            && json.page(get(requestURL).reply.body) == Success(Page("occurrence"))
            && json.occurrence(get(requestURL).reply.body).Success? ==>
              r == Returned(Some(OccurrenceResponse(json.occurrence(get(requestURL).reply.body).value)), None)
    // any other page name: neither response nor error
    ensures r == Returned(None, None) <==>
              uriError(requestURL).None? && Decodable(get(requestURL), json)
              && json.page(get(requestURL).reply.body).Success?
              && json.page(get(requestURL).reply.body).value.name !in {"words", "occurrence"}
  {
    match uriError(requestURL)
    case Some(reason) => Exited("URL is in invalid format: " + reason + "\n", 1)
    case None =>
      match get(requestURL)
      case SendFailed(reason) => Returned(None, Some(Plain("get error: " + reason)))
      case ReadFailed(reason) => Returned(None, Some(Plain("ReadAll error: " + reason)))
      case Received(reply) =>
        if reply.statusCode != 200 then
          Returned(None, Some(Plain("invalid output (http code: " + Decimal(reply.statusCode) + "): " + reply.body)))
        else if !json.valid(reply.body) then
          Returned(None, Some(Request(RequestError(reply.statusCode, reply.body, "no valid json returned"))))
        else
          match json.page(reply.body)
          case Failure(e) =>
            Returned(None, Some(Request(RequestError(reply.statusCode, reply.body, "page unmarshal error: " + e))))
          case Success(page) =>
            if page.name == "words" then
              match json.words(reply.body)
              case Failure(e) =>
                Returned(None, Some(Request(RequestError(reply.statusCode, reply.body, "words unmarshal error: " + e))))
              case Success(w) => Returned(Some(WordsResponse(w)), None)
            else if page.name == "occurrence" then
              match json.occurrence(reply.body)
              case Failure(e) =>
                Returned(None, Some(Request(RequestError(reply.statusCode, reply.body,
                                                         "occurrence unmarshal error for occurrence: " + e))))
              case Success(o) => Returned(Some(OccurrenceResponse(o)), None)
            else
              Returned(None, None)
  }

  /** The two copies of `doRequest` agree on every input except those where
      a decode fails; there the Go-Get-Flag copy returns a plain error and
      this one a `RequestError` with status 200 and the raw body. */
  lemma VariantsDifferOnlyOnDecodeFailure(requestURL: string, uriError: string -> Option<string>,
                                          get: string -> Exchange, json: Json)
    ensures var a := GetFlag.DoRequest(requestURL, uriError, get, json);
            var b := DoRequest(requestURL, uriError, get, json);
            (a != b <==> uriError(requestURL).None? && DecodeFails(get(requestURL), json))
            && (a != b ==>
                  && a.Returned? && b.Returned? && a.response.None? && b.response.None?
                  && a.err.Some? && a.err.value.Plain?
                  && b.err.Some? && b.err.value.Request?
                  && b.err.value.request.httpCode == 200
                  && b.err.value.request.body == get(requestURL).reply.body)
  {
  }

  /** `getHTTPJsonMap`: the URL is the first command-line argument (`args`
      holds the program name first); without it the program prints its usage
      and exits with status 1. The rest is reported as in Go-Get-Flag. */
  method GetHttpJsonMap(args: seq<string>, uriError: string -> Option<string>,
                        get: string -> Exchange, json: Json) returns (output: string, exitCode: int)
    ensures |args| >= 2 ==> ReportOf(DoRequest(args[1], uriError, get, json), output, exitCode)
    ensures |args| < 2 ==> output == "Usage: ./api-client-parse-json <url>\n" && exitCode == 1
    ensures |args| >= 2 && uriError(args[1]).Some? ==>
              output == "URL is in invalid format: " + uriError(args[1]).value + "\n" && exitCode == 1
    ensures |args| >= 2 && uriError(args[1]).None? && DecodeFails(get(args[1]), json) ==>
              exitCode == 1 && |output| >= 7 && output[..7] == "Error: "
    // a non-200 reply is a plain error: not printed
    ensures |args| >= 2 && uriError(args[1]).None? && get(args[1]).Received? && get(args[1]).reply.statusCode != 200 ==>
              output == "No response received.\n" && exitCode == 1
    // a 200 reply that is not JSON prints its RequestError
    ensures |args| >= 2 && uriError(args[1]).None? && get(args[1]).Received? && get(args[1]).reply.statusCode == 200
            && !json.valid(get(args[1]).reply.body) ==>
              output == RequestErrorReport(RequestError(200, get(args[1]).reply.body, "no valid json returned"))
              && exitCode == 1
    // a decoded "words" page is printed behind "Response: "
    ensures |args| >= 2 && uriError(args[1]).None? && Decodable(get(args[1]), json)
            && json.page(get(args[1]).reply.body) == Success(Page("words"))
            && json.words(get(args[1]).reply.body).Success? ==>
              output == "Response: " + WordsText(json.words(get(args[1]).reply.body).value) + "\n"
              && exitCode == 0
    ensures |args| >= 2 && DoRequest(args[1], uriError, get, json) == Returned(None, None) ==>
              output == "No response received.\n" && exitCode == 1
  {
    if |args| < 2 {
      return "Usage: ./api-client-parse-json <url>\n", 1;
    }
    var outcome := DoRequest(args[1], uriError, get, json);
    output, exitCode := Report(outcome);
  }
}
