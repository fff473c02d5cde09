/** The login client of http-login: `doLoginRequest` posts the password as
    JSON and extracts the token from the reply (login.go), with the
    `RequestError` of error.go, whose status is the status line text and whose
    message is its `Err` field alone. */
module Login {
  import opened Wrappers
  import opened Http

  datatype LoginRequest = LoginRequest(password: string)
  datatype LoginResponse = LoginResponse(token: string)

  /** http-login's own `RequestError`. */
  datatype RequestError = RequestError(body: string, httpCode: string, err: string)

  /** `RequestError.Error()`. */
  function ErrorText(e: RequestError): string
  {
    e.err
  }

  /** The message is the `Err` field verbatim: neither the body nor the
      status line ever shows in it. */
  lemma ErrorTextIsErr(e: RequestError, body: string, httpCode: string)
    ensures ErrorText(e) == e.err
    ensures ErrorText(RequestError(body, httpCode, e.err)) == ErrorText(e)
  {
  }

  datatype LoginError = Plain(message: string) | Request(request: RequestError)

  /** `json.Marshal` of the request, `json.Valid` and `json.Unmarshal` into
      `LoginResponse`. */
  datatype Json = Json(
    marshal: LoginRequest -> Result<string, string>,
    valid: string -> bool,
    unmarshal: string -> Result<LoginResponse, string>)

  /** What `client.Post` is: the exchange for a URL, a content type and a body. */
  type Poster = (string, string, string) -> Exchange

  /** The (token, error) pair. */
  datatype LoginResult = LoginResult(token: string, err: Option<LoginError>)

  /** `doLoginRequest`: marshal, POST as "application/json", read, then check
      the status, JSON validity, the decode and that a token came back. */
  function DoLoginRequest(post: Poster, json: Json, requestURL: string, password: string): (r: LoginResult)
    // success exactly when there is no error, and then the token is not empty
    ensures r.err.None? <==> r.token != ""
    // every error path returns the empty token
    ensures r.err.Some? ==> r.token == ""
    // a non-200 reply gives a plain error
    ensures json.marshal(LoginRequest(password)).Success? ==>
              var x := post(requestURL, "application/json", json.marshal(LoginRequest(password)).value);
              x.Received? && x.reply.statusCode != 200 ==> r.err.Some? && r.err.value.Plain?
    // a 200 reply that is not JSON
    ensures json.marshal(LoginRequest(password)).Success? ==>
              var x := post(requestURL, "application/json", json.marshal(LoginRequest(password)).value);
              x.Received? && x.reply.statusCode == 200 && !json.valid(x.reply.body) ==>
                r == LoginResult("", Some(Request(RequestError(x.reply.body, x.reply.status, "no valid json returned"))))
    // a 200 JSON reply that decodes to an empty token
    ensures json.marshal(LoginRequest(password)).Success? ==>
              var x := post(requestURL, "application/json", json.marshal(LoginRequest(password)).value);
              x.Received? && x.reply.statusCode == 200 && json.valid(x.reply.body)
              && json.unmarshal(x.reply.body) == Success(LoginResponse("")) ==>
                r == LoginResult("", Some(Request(RequestError(x.reply.body, x.reply.status, "no token found"))))
    // a 200 JSON reply with a non-empty token succeeds with that token
    ensures json.marshal(LoginRequest(password)).Success? ==>
              var x := post(requestURL, "application/json", json.marshal(LoginRequest(password)).value);
              x.Received? && x.reply.statusCode == 200 && json.valid(x.reply.body)
              && json.unmarshal(x.reply.body).Success? && json.unmarshal(x.reply.body).value.token != "" ==>
                r == LoginResult(json.unmarshal(x.reply.body).value.token, None)
    // a 200 JSON reply that does not decode
    ensures json.marshal(LoginRequest(password)).Success? ==>
              var x := post(requestURL, "application/json", json.marshal(LoginRequest(password)).value);
              x.Received? && x.reply.statusCode == 200 && json.valid(x.reply.body)
              && json.unmarshal(x.reply.body).Failure? ==>
                r == LoginResult("", Some(Request(RequestError(x.reply.body, x.reply.status,
                                                               "Page unmarshal error: " + json.unmarshal(x.reply.body).error))))
    // every RequestError and every success come from a 200 reply to the marshalled password
    ensures (r.err.None? || r.err.value.Request?) ==>
              && json.marshal(LoginRequest(password)).Success?
              && var x := post(requestURL, "application/json", json.marshal(LoginRequest(password)).value);
              && x.Received? && x.reply.statusCode == 200
              && (r.err.Some? ==> r.err.value.request.body == x.reply.body
                                  && r.err.value.request.httpCode == x.reply.status)
              && (r.err.None? ==> json.valid(x.reply.body)
                                  && json.unmarshal(x.reply.body) == Success(LoginResponse(r.token)))
  {
    match json.marshal(LoginRequest(password))
    case Failure(e) => LoginResult("", Some(Plain("marshal error: " + e)))
    case Success(body) =>
      match post(requestURL, "application/json", body)
      case SendFailed(reason) => LoginResult("", Some(Plain("http Post error: " + reason)))
      case ReadFailed(reason) => LoginResult("", Some(Plain("read response body error: " + reason)))
      case Received(reply) =>
        if reply.statusCode != 200 then
          LoginResult("", Some(Plain("invalid output (http code " + reply.status + "), response body: " + reply.body)))
        else if !json.valid(reply.body) then
          LoginResult("", Some(Request(RequestError(reply.body, reply.status, "no valid json returned"))))
        else
          match json.unmarshal(reply.body)
          case Failure(e) =>
            LoginResult("", Some(Request(RequestError(reply.body, reply.status, "Page unmarshal error: " + e))))
          case Success(loginResponse) =>
            if loginResponse.token == "" then
              LoginResult("", Some(Request(RequestError(reply.body, reply.status, "no token found"))))
            else
              LoginResult(loginResponse.token, None)
  }
}
