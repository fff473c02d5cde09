/** The word-service client of Go-Get-Flag/main.go: `doRequest` and the part
    of `main` that reports its result. In this program only an invalid JSON
    body becomes a `RequestError`; decode failures are plain errors. */
module GetFlag {
  import opened Wrappers
  import opened Text
  import opened Http
  import opened Errors
  import opened WordsClient

  /** `doRequest`: validate the URL (exit on failure), GET it, then check in
      order the transport, the body read, the status, JSON validity and the
      `page` decode, and decode the body according to the page name. */
  function DoRequest(requestURL: string, uriError: string -> Option<string>,
                     get: string -> Exchange, json: Json): (r: Outcome)
    ensures r.Exited? <==> uriError(requestURL).Some?
    ensures r.Exited? ==> r.exitCode == 1
    // never both a response and an error
    ensures r.Returned? ==> r.response.None? || r.err.None?
    // a non-200 reply gives a plain error and no response
    ensures uriError(requestURL).None? && get(requestURL).Received? && get(requestURL).reply.statusCode != 200 ==>
              r.Returned? && r.response.None? && r.err.Some? && r.err.value.Plain?
    // the only RequestError is the one for a 200 reply that is not JSON
    ensures r.Returned? && r.err.Some? && r.err.value.Request? <==>
              uriError(requestURL).None? && get(requestURL).Received? && get(requestURL).reply.statusCode == 200
              && !json.valid(get(requestURL).reply.body)
    ensures r.Returned? && r.err.Some? && r.err.value.Request? ==>
              r.err.value.request == RequestError(200, get(requestURL).reply.body, "no valid json returned")
    // decode failures are plain errors
    ensures uriError(requestURL).None? && DecodeFails(get(requestURL), json) ==>
              r.Returned? && r.response.None? && r.err.Some? && r.err.value.Plain?
    // page dispatch
    ensures r.Returned? && r.response.Some? && r.response.value.WordsResponse? ==>
              Decodable(get(requestURL), json) && json.page(get(requestURL).reply.body).Success?
              && json.page(get(requestURL).reply.body).value.name == "words"
              && json.words(get(requestURL).reply.body) == Success(r.response.value.w)
    ensures r.Returned? && r.response.Some? && r.response.value.OccurrenceResponse? ==>
              Decodable(get(requestURL), json) && json.page(get(requestURL).reply.body).Success?
              && json.page(get(requestURL).reply.body).value.name == "occurrence"
              && json.occurrence(get(requestURL).reply.body) == Success(r.response.value.o)
    // a decoded "words" or "occurrence" page gives its decoded value
    ensures uriError(requestURL).None? && Decodable(get(requestURL), json)
            && json.page(get(requestURL).reply.body) == Success(Page("words"))
            && json.words(get(requestURL).reply.body).Success? ==>
              r == Returned(Some(WordsResponse(json.words(get(requestURL).reply.body).value)), None)
    ensures uriError(requestURL).None? && Decodable(get(requestURL), json)
            && json.page(get(requestURL).reply.body) == Success(Page("occurrence"))
            && json.occurrence(get(requestURL).reply.body).Success? ==>
              r == Returned(Some(OccurrenceResponse(json.occurrence(get(requestURL).reply.body).value)), None)
    // any other page name: neither response nor error
    ensures r == Returned(None, None) <==>
              uriError(requestURL).None? && Decodable(get(requestURL), json)
              && json.page(get(requestURL).reply.body).Success?
              && json.page(get(requestURL).reply.body).value.name !in {"words", "occurrence"}
  {
    match uriError(requestURL)
    case Some(reason) => Exited("URL is in invalid format: " + reason + "\n", 1)
    case None =>
      match get(requestURL)
      case SendFailed(reason) => Returned(None, Some(Plain("get error: " + reason)))
      case ReadFailed(reason) => Returned(None, Some(Plain("ReadAll error: " + reason)))
      case Received(reply) =>
        if reply.statusCode != 200 then
          Returned(None, Some(Plain("invalid output (http code: " + Decimal(reply.statusCode) + "): " + reply.body)))
        else if !json.valid(reply.body) then
          Returned(None, Some(Request(RequestError(reply.statusCode, reply.body, "no valid json returned"))))
        else
          match json.page(reply.body)
          case Failure(e) => Returned(None, Some(Plain("unmarshal error: " + e)))
          case Success(page) =>
            if page.name == "words" then
              match json.words(reply.body)
              case Failure(e) => Returned(None, Some(Plain("unmarshal error for words: " + e)))
              case Success(w) => Returned(Some(WordsResponse(w)), None)
            else if page.name == "occurrence" then
              match json.occurrence(reply.body)
              case Failure(e) => Returned(None, Some(Plain("unmarshal error for occurrence: " + e)))
              case Success(o) => Returned(Some(OccurrenceResponse(o)), None)
            else
              Returned(None, None)
  }

  /** `main` from the `doRequest` call on (flag parsing and the first URL
      check are not modelled): a page that is neither "words" nor
      "occurrence", and equally any plain error such as a non-200 status,
      ends with "No response received." and exit status 1. */
  method Run(requestURL: string, uriError: string -> Option<string>,
             get: string -> Exchange, json: Json) returns (output: string, exitCode: int)
    ensures ReportOf(DoRequest(requestURL, uriError, get, json), output, exitCode)
    ensures DoRequest(requestURL, uriError, get, json) == Returned(None, None) ==>
              output == "No response received.\n" && exitCode == 1
    ensures uriError(requestURL).None? && get(requestURL).Received? && get(requestURL).reply.statusCode != 200 ==>
              output == "No response received.\n" && exitCode == 1
    ensures uriError(requestURL).None? && get(requestURL).Received? && get(requestURL).reply.statusCode == 200
            && !json.valid(get(requestURL).reply.body) ==>
              output == RequestErrorReport(RequestError(200, get(requestURL).reply.body, "no valid json returned"))
              && exitCode == 1
    ensures var r := DoRequest(requestURL, uriError, get, json);
            r.Returned? && r.response.Some? ==> exitCode == 0
    // decode failures are plain errors, so they are not printed either
    ensures uriError(requestURL).None? && DecodeFails(get(requestURL), json) ==>
              output == "No response received.\n" && exitCode == 1
    // a decoded "words" page is printed behind "Response: "
    ensures uriError(requestURL).None? && Decodable(get(requestURL), json)
            && json.page(get(requestURL).reply.body) == Success(Page("words"))
            && json.words(get(requestURL).reply.body).Success? ==>
              output == "Response: " + WordsText(json.words(get(requestURL).reply.body).value) + "\n"
              && exitCode == 0
  {
    var outcome := DoRequest(requestURL, uriError, get, json);
    output, exitCode := Report(outcome);
  }
}
