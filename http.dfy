/** What the HTTP clients see of a request, with the transport abstracted:
    the call fails, reading the body fails, or a reply arrives. The client
    itself (`ClientIface.Get`, `http.Get`, `Client.Post`) is a function
    parameter that maps the request to one of these. */
module Http {

  /** A received response: numeric status, status line text such as
      "200 OK", and the body read in full. */
  datatype Reply = Reply(statusCode: int, status: string, body: string)

  datatype Exchange =
    | SendFailed(reason: string)   // the Get/Post call returned an error
    | ReadFailed(reason: string)   // io.ReadAll on the body returned an error
    | Received(reply: Reply)
}
