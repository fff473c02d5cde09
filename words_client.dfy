/** The response types of the word-service clients and how their `main`
    reports a result. Go-Get-Flag/main.go and
    Go-Error-Handling/api_client_parse_json_decouple.go declare these types,
    their `GetResponse` methods and the reporting code identically; both
    programs use this one module. */
module WordsClient {
  import opened Wrappers
  import opened Substring
  import opened Text
  import opened Http
  import opened Errors

  /** The `page` field every reply carries, used to pick the reply's shape. */
  datatype Page = Page(name: string)

  /** The reply of the "words" page. */
  datatype Words = Words(input: string, words: seq<string>)

  /** The reply of the "occurrence" page: a count per word. */
  datatype Occurrence = Occurrence(words: map<string, int>)

  /** A value of the `Response` interface. */
  datatype Response = WordsResponse(w: Words) | OccurrenceResponse(o: Occurrence)

  /** `json.Valid` and the three `json.Unmarshal` targets of `doRequest`. */
  datatype Json = Json(
    valid: string -> bool,
    page: string -> Result<Page, string>,
    words: string -> Result<Words, string>,
    occurrence: string -> Result<Occurrence, string>)

  /** The exchange got past the status and JSON-validity checks, so `doRequest`
      goes on to decode the body. */
  predicate Decodable(x: Exchange, json: Json)
  {
    x.Received? && x.reply.statusCode == 200 && json.valid(x.reply.body)
  }

  /** One of the decodes `doRequest` attempts on a decodable body fails. */
  predicate DecodeFails(x: Exchange, json: Json)
  {
    && Decodable(x, json)
    && match json.page(x.reply.body)
       case Failure(_) => true
       case Success(page) =>
         || (page.name == "words" && json.words(x.reply.body).Failure?)
         || (page.name == "occurrence" && json.occurrence(x.reply.body).Failure?)
  }

  /** `Words.GetResponse`: "Words: " and the words joined by ", ". */
  function WordsText(w: Words): (r: string)
    ensures |r| >= 7 && r[..7] == "Words: "
    ensures |w.words| == 0 ==> r == "Words: "
    ensures |w.words| == 1 ==> r == "Words: " + w.words[0]
  {
    "Words: " + Join(w.words, ", ")
  }

  /** Every word appears in the text, at its own offset past the label. */
  lemma WordsTextShowsEveryWord(w: Words, k: nat)
    requires k < |w.words|
    ensures OccursAt(WordsText(w), w.words[k], 7 + PartOffset(w.words, ", ", k))
  {
    JoinPartAt(w.words, ", ", k);
    ShiftOccurs("Words: ", Join(w.words, ", "), w.words[k], PartOffset(w.words, ", ", k));
  }

  /** The words can be read back from the text when there is at least one
      and none contains a comma. */
  lemma WordsTextRoundTrip(w: Words)
    requires |w.words| > 0
    requires forall k :: 0 <= k < |w.words| ==> ',' !in w.words[k]
    ensures Split(WordsText(w)[7..], ", ") == w.words
  {
    assert WordsText(w)[7..] == Join(w.words, ", ");
    SplitJoin(w.words, ", ");
  }

  /** One "word: count" entry, as `fmt.Sprintf("%s: %d", ...)` writes it. */
  function EntryText(word: string, count: int): string
  {
    word + ": " + Decimal(count)
  }

  /** The entries for the keys of `m`, in the order given. */
  function Entries(order: seq<string>, m: map<string, int>): (r: seq<string>)
    requires forall i :: 0 <= i < |order| ==> order[i] in m
    ensures |r| == |order|
    ensures forall i :: 0 <= i < |order| ==> r[i] == EntryText(order[i], m[order[i]])
  {
    seq(|order|, i requires 0 <= i < |order| => EntryText(order[i], m[order[i]]))
  }

  /** `order` lists every key of `keys` exactly once. */
  ghost predicate IsOrdering(order: seq<string>, keys: set<string>)
  {
    && |order| == |keys|
    && (forall i :: 0 <= i < |order| ==> order[i] in keys)
    && (forall k :: k in keys ==> k in order)
    && (forall i, j :: 0 <= i < j < |order| ==> order[i] != order[j])
  }

  /** Whatever order the keys come in, there is exactly one entry per key:
      as many entries as keys, and each key's entry at the key's position. */
  lemma OneEntryPerKey(order: seq<string>, m: map<string, int>, key: string)
    requires IsOrdering(order, m.Keys)
    requires key in m
    ensures |Entries(order, m)| == |m|
    ensures exists i :: && 0 <= i < |order| && order[i] == key
                        && Entries(order, m)[i] == EntryText(key, m[key])
                        && (forall j :: 0 <= j < |order| && order[j] == key ==> j == i)
  {
    assert key in order;
    var i :| 0 <= i < |order| && order[i] == key;
    assert Entries(order, m)[i] == EntryText(key, m[key]);
  }

  /** Each key's "word: count" entry stands in the rendered text. */
  lemma EntryShown(order: seq<string>, m: map<string, int>, key: string)
    requires IsOrdering(order, m.Keys)
    requires key in m
    ensures Contains("Words: " + Join(Entries(order, m), ", "), EntryText(key, m[key]))
  {
    assert key in order;
    var i :| 0 <= i < |order| && order[i] == key;
    var entries := Entries(order, m);
    JoinPartAt(entries, ", ", i);
    ShiftOccurs("Words: ", Join(entries, ", "), entries[i], PartOffset(entries, ", ", i));
  }

  /** `Occurrence.GetResponse`: ranges over the map, in an order Go leaves
      unspecified, appending one entry per word, then joins them. The order
      the loop took is returned as a ghost value. */
  method OccurrenceText(o: Occurrence) returns (r: string, ghost order: seq<string>)
    ensures IsOrdering(order, o.words.Keys)
    ensures r == "Words: " + Join(Entries(order, o.words), ", ")
    ensures |r| >= 7 && r[..7] == "Words: "
    ensures |o.words| == 0 ==> r == "Words: "
    ensures forall word :: word in o.words ==> Contains(r, EntryText(word, o.words[word]))
  {
    var words: seq<string> := [];
    order := [];
    var rest := o.words.Keys;
    while rest != {}
      invariant rest <= o.words.Keys
      invariant |order| + |rest| == |o.words.Keys|
      invariant forall i :: 0 <= i < |order| ==> order[i] in o.words && order[i] !in rest
      invariant forall k :: k in o.words.Keys ==> k in rest || k in order
      invariant forall i, j :: 0 <= i < j < |order| ==> order[i] != order[j]
      invariant words == Entries(order, o.words)
      decreases rest
    {
      var word :| word in rest;
      words := words + [EntryText(word, o.words[word])];
      order := order + [word];
      rest := rest - {word};
    }
    r := "Words: " + Join(words, ", ");
    forall word | word in o.words
      ensures Contains(r, EntryText(word, o.words[word]))
    {
      EntryShown(order, o.words, word);
    }
  }

  /** What `doRequest` hands back to `main`: the process exited inside it
      (URL rejected), or it returned a (Response, error) pair. */
  datatype Outcome =
    | Exited(output: string, exitCode: int)
    | Returned(response: Option<Response>, err: Option<GoError>)

  /** The text `main` prints for a RequestError. */
  function RequestErrorReport(e: RequestError): string
  {
    "Error: " + e.err + " (HTTP Code: " + Decimal(e.httpCode) + ", Body: " + e.body + ")\n"
  }

  /** What `main` does with the result of `doRequest`: a RequestError is
      printed with its fields and ends the process with status 1; otherwise a
      missing response prints "No response received." and ends with 1 (a
      plain error is not printed at all); a response is printed and the
      program ends normally. */
  ghost predicate ReportOf(outcome: Outcome, output: string, exitCode: int)
  {
    match outcome
    case Exited(text, code) => output == text && exitCode == code
    case Returned(response, err) =>
      if err.Some? && err.value.Request? then
        output == RequestErrorReport(err.value.request) && exitCode == 1
      else if response.None? then
        output == "No response received.\n" && exitCode == 1
      else
        exitCode == 0 &&
        match response.value
        case WordsResponse(w) => output == "Response: " + WordsText(w) + "\n"
        case OccurrenceResponse(o) => ShowsOccurrence(o, output)
  }

  /** `output` is the printed `Occurrence` response, its entries in some
      order of the map's keys. */
  ghost predicate ShowsOccurrence(o: Occurrence, output: string)
  {
    exists order :: IsOrdering(order, o.words.Keys) &&
      output == "Response: Words: " + Join(Entries(order, o.words), ", ") + "\n"
  }

  /** The exit status tells the outcomes apart: status 0 exactly when a
      response came back without a RequestError, and a plain error is never
      shown. */
  lemma ReportExitStatus(outcome: Outcome, output: string, exitCode: int)
    requires outcome.Returned? && ReportOf(outcome, output, exitCode)
    ensures exitCode == 0 <==> outcome.response.Some? && !(outcome.err.Some? && outcome.err.value.Request?)
    ensures outcome.err.Some? && outcome.err.value.Plain? && outcome.response.None? ==>
              output == "No response received.\n"
  {
  }

  /** The line `main` prints for an `Occurrence` response. */
  method PrintOccurrence(o: Occurrence) returns (output: string)
    ensures ShowsOccurrence(o, output)
  {
    var text, order := OccurrenceText(o);
    output := "Response: " + text + "\n";
    assert output == "Response: Words: " + Join(Entries(order, o.words), ", ") + "\n";
  }

  /** The reporting code of `main`. */
  method Report(outcome: Outcome) returns (output: string, exitCode: int)
    ensures ReportOf(outcome, output, exitCode)
  {
    match outcome
    case Exited(text, code) =>
      output, exitCode := text, code;
    case Returned(response, err) =>
      if err.Some? && err.value.Request? {
        output, exitCode := RequestErrorReport(err.value.request), 1;
      } else if response.None? {
        output, exitCode := "No response received.\n", 1;
      } else {
        match response.value {
          case WordsResponse(w) =>
            output := "Response: " + WordsText(w) + "\n";
          case OccurrenceResponse(o) =>
            output := PrintOccurrence(o);
        }
        exitCode := 0;
      }
  }
}
