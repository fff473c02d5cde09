# Golang-for-DevOps-Notes, small sequential pieces, in Dafny

This project models the parts of the Go study archive that are plain
sequential logic, and proves what they promise:

- the naive substring search the assignment-1 tests use (`findSubstring`,
  `containsString`): leftmost match or -1;
- the response-checking chains of three HTTP clients, with the transport and
  the JSON library taken as parameters: `GetAssignmentData` (assignment 1),
  the two copies of `doRequest` (Go-Get-Flag and Go-Error-Handling, which
  differ in which failures become a `RequestError`) and `doLoginRequest`
  (http-login);
- the text renderers: the assignment's `GetResponse` with its `Special` list,
  `Words.GetResponse`, `Occurrence.GetResponse` (map order unspecified), and
  `RequestError.Error()` in both of its forms;
- how the word clients' `main` reports a result;
- the OIDC demo's user store (`Auth`, `GetAllUsers`);
- the go-pointers demo, where a map passed to a function is changed in place.

Modules follow the source: `Substring` (assignment_test.go), `Errors`
(pkg/api/error.go), `Assignment` (pkg/api/assignment.go with the shapes of
init.go), `WordsClient` (the response types and reporting code that
Go-Get-Flag/main.go and Go-Error-Handling/api_client_parse_json_decouple.go
declare identically, lines 14-41 and 13-40, with the reporting at 67-80 and
50-63), `GetFlag` and `ErrorHandling` (the two `doRequest` copies), `Login`
(http-login), `Users` (oidc-demo/pkg/users/auth.go) and `Pointers`
(go-pointers). `Text` holds `strings.Join`, `%d` and their inverses, `Http`
the shape of an HTTP exchange, `Wrappers` Option and Result.

Modelling choices:

- An HTTP call is a function parameter from the request (URL, or URL,
  content type and body for a POST) to an `Exchange`: the call failed, reading
  the body failed, or a `Reply` with status code, status line and body came
  back.
- `json.Valid`, `json.Unmarshal` and `json.Marshal` are function-valued
  fields of a `Json` parameter; a decode either succeeds with a value or fails
  with a message.
- `url.ParseRequestURI` is a parameter that returns the parse error, if any.
  Failing it makes `doRequest` print and `os.Exit(1)`, modelled as the outcome
  `Exited(output, 1)`.
- A Go `error` is `Plain(message)` (what `fmt.Errorf` makes) or
  `Request(RequestError)`, so "is a RequestError" is the `Request?` test. The
  error texts are spelled out, with the foreign error's text as the message
  parameter.
- Strings are sequences of characters, while Go indexes strings by byte.
  The index `FindSubstring` returns is therefore a character offset. It equals
  Go's byte offset only when every character before the match is one byte
  long. For "é!" and "!", Go returns 2 and the model returns 1. The yes/no
  answer of `containsString` and the rendered texts are unaffected.
- `%d` is `Text.Decimal`, on unbounded integers. Go's 64-bit `int` never
  wraps in these paths: status codes, counts.
- `%v` of a string slice is "[" + the words separated by blanks + "]".
  `Percentages` and `ExtraSpecial` are kept as the text `%v` prints for them.
- Go's map iteration order is unspecified. `Occurrence.GetResponse` loops
  over a shrinking key set and picks any remaining key each round. It returns
  the order it took as a ghost value, proved to list every key exactly once.
- `findSubstring` and both `GetResponse` builders are methods with loops,
  proved against specification functions (`Leftmost`, `SpecialText`,
  `ResponseText`, `Entries`). The check chains and `Auth` are pure functions.
  The Go map of go-pointers is an object, `StringMap`, since the callee's
  writes must show in the caller.
- `Auth` takes an `mfa` argument that it ignores (`AuthIgnoresMfa`).

## Model

| member | source | states |
|---|---|---|
| Substring.FindSubstring | assignments/assignment-1-json-parsing/pkg/api/assignment_test.go:172-179 | The index returned is the leftmost occurrence of substr in str, or -1 exactly when there is none. If it is not -1 it lies in 0..len(str)-len(substr) and the slice there equals substr, with no earlier match. An empty substr gives 0, and a substr longer than str gives -1. |
| Substring.LeftmostIsFirst | assignments/assignment-1-json-parsing/pkg/api/assignment_test.go:173-178 | The search's specification function is -1 exactly when substr occurs nowhere. Otherwise it is an in-range occurrence, and no smaller index matches. |
| Substring.LeftmostFromIsFirst | assignments/assignment-1-json-parsing/pkg/api/assignment_test.go:173-178 | Searching from a given start finds the first occurrence at or after it, or -1 when there is none from there on. |
| Substring.ContainsString | assignments/assignment-1-json-parsing/pkg/api/assignment_test.go:167-169 | True exactly when substr is a contiguous slice of str. |
| Text.DecimalRoundTrip | assignments/assignment-1-json-parsing/pkg/api/error.go:14 | Parsing the `%d` rendering of a code gives the code back. The rendering is non-empty and starts with '-' exactly for a negative code. It holds only digits after that sign. |
| Errors.ErrorText | assignments/assignment-1-json-parsing/pkg/api/error.go:13-15 | `Error()` always starts with "HTTP " and always ends with the body. |
| Errors.ErrorTextCode | assignments/assignment-1-json-parsing/pkg/api/error.go:14 | The status code can be read back from `Error()`'s text, between "HTTP " and the first ':', whatever Err and Body contain. |
| Assignment.SpecialText | assignments/assignment-1-json-parsing/pkg/api/assignment.go:25-36 | The Special rendering is bracketed, and an empty list gives "[]". |
| Assignment.SpecialShowsEveryItem | assignments/assignment-1-json-parsing/pkg/api/assignment.go:26-35 | Each item shows inside the brackets, in list order: a nil item as `null`, a present one as the string in double quotes. |
| Assignment.BuildSpecial | assignments/assignment-1-json-parsing/pkg/api/assignment.go:25-36 | The range loop, with ", " before every item but the first, builds exactly "[" + the item renderings joined by ", " + "]". |
| Assignment.GetResponse | assignments/assignment-1-json-parsing/pkg/api/assignment.go:19-41 | The text appended step by step equals the five lines Page, Words, Percentages, Special, ExtraSpecial joined by newlines. |
| Assignment.ResponseLinesInOrder | assignments/assignment-1-json-parsing/pkg/api/assignment.go:20-39 | Each of the five lines occurs in the response. They sit at strictly increasing positions in that order, and the Page line starts at position 0. |
| Assignment.ResponseHasTestedLabels | assignments/assignment-1-json-parsing/pkg/api/assignment_test.go:105-117 | `containsString` holds of the response for "Page: <page>", "Words:", "Percentages:", "Special:" and "ExtraSpecial:", which is what the test asserts. |
| Assignment.GetAssignmentData | assignments/assignment-1-json-parsing/pkg/api/assignment.go:44-81 | Exactly one of response and error is set. A non-200 status gives a plain error and no response. A 200 body that is not JSON gives RequestError{200, raw body, "Response is not valid JSON"}, and a JSON body that does not decode gives RequestError{200, raw body, "JSON unmarshal error: " + the decoder's message}. Every RequestError carries 200 and the raw body of the reply to BaseURL + endpoint. The call succeeds exactly when that reply is 200, valid and decodes, and the decoded data is returned unchanged. |
| Assignment.OnlyBasePlusEndpointRequested | assignments/assignment-1-json-parsing/pkg/api/assignment.go:45-47 | Only BaseURL + endpoint is requested: two clients that answer that URL alike give the same result. |
| WordsClient.WordsText | Go-Get-Flag/main.go:27-29 | `Words.GetResponse` starts with "Words: ". An empty list gives exactly "Words: ", and one word gives "Words: " + that word. |
| WordsClient.WordsTextShowsEveryWord | Go-Get-Flag/main.go:28 | Every word appears in the response, at its own offset behind the label. |
| WordsClient.WordsTextRoundTrip | Go-Get-Flag/main.go:28 | Splitting the text behind "Words: " on ", " gives back the word list, for a non-empty list without commas. |
| WordsClient.OccurrenceText | Go-Get-Flag/main.go:35-41 | The map is ranged in some order that lists every key exactly once. The result is "Words: " + the "word: count" entries in that order, joined by ", ". It starts with "Words: ", is exactly that for an empty map, and contains every key's "word: count" entry. |
| WordsClient.EntryShown | Go-Get-Flag/main.go:35-41 | Whatever order the keys are ranged in, each key's "word: count" entry stands in the rendered text. |
| WordsClient.OneEntryPerKey | Go-Get-Flag/main.go:36-39 | For any such order there are as many entries as keys. Each key has its entry "word: count" at exactly one position. |
| WordsClient.Report | Go-Get-Flag/main.go:67-80 | The printed text and exit status are those `ReportOf` gives for the outcome of `doRequest`. A RequestError prints "Error: <Err> (HTTP Code: <code>, Body: <body>)" and exits 1. Otherwise a nil response prints "No response received." and exits 1, so a plain error is not printed. A response prints "Response: " + its GetResponse text and ends with status 0. |
| WordsClient.ReportExitStatus | Go-Get-Flag/main.go:67-80 | `main` ends with status 0 exactly when a response came back without a RequestError. A plain error with no response only prints "No response received.". |
| GetFlag.DoRequest | Go-Get-Flag/main.go:83-148 | An invalid URL exits with 1. Response and error are never both set. A non-200 status gives a plain error. The only RequestError is {200, raw body, "no valid json returned"}, for a body that is not JSON. Decode failures are plain errors. A decoded page "words" whose words decode yields exactly (those Words, nil), and likewise for "occurrence". Conversely every response comes from such a page and decode. (nil, nil) comes exactly from a decoded page with any other name. |
| GetFlag.Run | Go-Get-Flag/main.go:67-80 | The output and exit status are what `main` reports for `doRequest`'s outcome, for every outcome. An unknown page, a non-200 status or a decode failure ends with "No response received." and exit status 1. An invalid-JSON body prints the RequestError. A decoded words page prints "Response: " + its GetResponse text and ends with status 0. |
| ErrorHandling.DoRequest | Go-Error-Handling/api_client_parse_json_decouple.go:66-143 | An invalid URL exits with 1. Response and error are never both set. A non-200 status gives a plain error. An invalid-JSON body gives RequestError{200, body, "no valid json returned"}. Every page, words or occurrence decode failure is a RequestError carrying 200 and the raw body. RequestErrors come exactly from those cases. A decoded page "words" whose words decode yields exactly (those Words, nil), and likewise for "occurrence"; conversely every response comes from such a page and decode. Any other page name gives (nil, nil). |
| ErrorHandling.VariantsDifferOnlyOnDecodeFailure | Go-Error-Handling/api_client_parse_json_decouple.go:99-142 | The two `doRequest` copies return the same thing except exactly when a decode fails. There Go-Get-Flag returns a plain error and this copy returns a RequestError with 200 and the raw body. |
| ErrorHandling.GetHttpJsonMap | Go-Error-Handling/api_client_parse_json_decouple.go:42-64 | Without a URL argument it prints the usage line and exits 1. Otherwise, for every outcome, the output and exit status are what `main` reports for `doRequest`'s outcome. A non-200 status and an unknown page report "No response received.". An invalid-JSON body prints its RequestError, and a decode failure is reported as "Error: ...". A decoded words page prints "Response: " + its GetResponse text with status 0. |
| Login.ErrorTextIsErr | http-login/error.go:9-11 | `Error()` is Err verbatim. Body and status never change it. |
| Login.DoLoginRequest | http-login/login.go:19-75 | There is no error exactly when the returned token is non-empty, and every error path returns "". A non-200 status gives a plain error. A body that is not JSON gives RequestError{body, status line, "no valid json returned"}. A body that does not decode gives RequestError{body, status line, "Page unmarshal error: " + the decoder's message}. An empty decoded token gives "no token found", and a non-empty one is returned with no error. Every RequestError and every success come from a 200 reply to the POST of the marshalled password. A success returns the decoded token. |
| Users.GetAllUsers | oidc-demo/pkg/users/auth.go:22-33 | Exactly one user, with Sub "9-9-9-9" and PreferredUsername "raymond". |
| Users.Auth | oidc-demo/pkg/users/auth.go:15-20 | Success exactly for "raymond"/"password", and ok holds exactly when there is no error. On success the result is `GetAllUsers()[0]`. On failure it is the zero User and "invalid login or password". |
| Users.AuthIgnoresMfa | oidc-demo/pkg/users/auth.go:15-20 | The mfa argument never affects the result. |
| Pointers.StringMap.constructor | go-pointers/go-pointers.go:6 | A new map is empty. |
| Pointers.StringMap.Put | go-pointers/go-pointers.go:7 | Assigning a key changes that key's value and nothing else. |
| Pointers.TestPointer | go-pointers/go-pointers.go:12-15 | The caller's map afterwards maps "test2" and "test3" to "new value". Its keys are the old ones plus these two, and every other key keeps its value. |
| Pointers.RunDemo | go-pointers/go-pointers.go:5-10 | `main`'s map ends as {test: value, test2: new value, test3: new value}, with exactly three keys. |

## Left out

- HTTP transport (`http.Get`, `Client.Post`, `io.ReadAll`, `Body.Close`, the
  test `MockClient`): I/O. It is a function parameter returning an `Exchange`.
- `json.Valid`, `json.Unmarshal`, `json.Marshal`: library calls, supplied as
  parameters; what they accept is not modelled.
- The `%v` rendering of `Percentages` (a map to float64) and `ExtraSpecial`
  (mixed values): floats and reflection. Both are carried as already-rendered
  text.
- The printing in go-pointers' `main` (`fmt.Printf` of the map): console
  output. `RunDemo` returns the map instead.
- Go-Get-Flag's flag parsing and first URL check (main.go:44-65), and the
  other console entry points (Go-HelloWorld, Go-Api-Client,
  assignments/assignment-1-json-parsing/cmd/assignment1/main.go): command-line
  handling and printing. `GetFlag.Run` starts at the `doRequest` call.
- assignments/assignment-1-json-parsing/pkg/api/init.go's `New` (wraps
  `http.Client`): no logic. Its `Options` and `api` shapes are reused.
- The rate limiter of assignment 2: tickers, channels, goroutines and
  signals, i.e. concurrency and timing.
- The OIDC authorization, login, token and JWKS handlers, JWT signing and
  verification: their files are not part of this model, and the signing is
  cryptographic. Only the user store is modelled.
- The file that declares the `RequestError` used by Go-Get-Flag and
  Go-Error-Handling is not part of this model. Its fields are taken from its
  uses, and `Errors.RequestError` stands in.
- The text of a foreign error (`err` in `fmt.Errorf("...: %s", err)`) is an
  input string. Which texts Go's libraries produce is not modelled.
