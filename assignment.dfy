/** The assignment-1 API client (pkg/api/assignment.go with the shapes of
    pkg/api/init.go): fetching `/assignment1` and checking the reply in a
    fixed order, and rendering the decoded `AssignmentData` as text. */
module Assignment {
  import opened Wrappers
  import opened Substring
  import opened Text
  import opened Http
  import opened Errors

  /** The decoded JSON document. `Percentages` (a map to floats) and
      `ExtraSpecial` (a list of mixed values) are kept as the text Go's `%v`
      prints for them; `Special` is a list of nullable strings. */
  datatype AssignmentData = AssignmentData(
    page: string,
    words: seq<string>,
    percentagesText: string,
    special: seq<Option<string>>,
    extraSpecialText: string)

  /** One `Special` item: `null` for a nil pointer, the string in double quotes otherwise. */
  function ItemText(item: Option<string>): string
  {
    match item
    case None => "null"
    case Some(s) => "\"" + s + "\""
  }

  function ItemTexts(items: seq<Option<string>>): (r: seq<string>)
    ensures |r| == |items|
    ensures forall k :: 0 <= k < |items| ==> r[k] == ItemText(items[k])
  {
    seq(|items|, k requires 0 <= k < |items| => ItemText(items[k]))
  }

  /** The bracketed, comma-separated rendering of `Special`. */
  function SpecialText(items: seq<Option<string>>): (r: string)
    ensures |r| >= 2 && r[0] == '[' && r[|r| - 1] == ']'
    ensures |items| == 0 ==> r == "[]"
  {
    "[" + Join(ItemTexts(items), ", ") + "]"
  }

  /** Every item's rendering appears inside the `Special` text, in list order. */
  lemma SpecialShowsEveryItem(items: seq<Option<string>>, k: nat)
    requires k < |items|
    ensures OccursAt(SpecialText(items), ItemText(items[k]), 1 + PartOffset(ItemTexts(items), ", ", k))
    ensures k + 1 < |items| ==>
              PartOffset(ItemTexts(items), ", ", k) < PartOffset(ItemTexts(items), ", ", k + 1)
  {
    var parts := ItemTexts(items);
    JoinPartAt(parts, ", ", k);
    ShiftOccurs("[", Join(parts, ", ") + "]", parts[k], PartOffset(parts, ", ", k));
    assert OccursAt(Join(parts, ", ") + "]", parts[k], PartOffset(parts, ", ", k)) by {
      var i := PartOffset(parts, ", ", k);
      assert (Join(parts, ", ") + "]")[i..i + |parts[k]|] == Join(parts, ", ")[i..i + |parts[k]|];
    }
    assert "[" + (Join(parts, ", ") + "]") == SpecialText(items);
    if k + 1 < |items| {
      PartOffsetsIncrease(parts, ", ", k);
    }
  }

  /** Go's `%v` of a string slice: the elements separated by blanks, in brackets. */
  function ListText(words: seq<string>): string
  {
    "[" + Join(words, " ") + "]"
  }

  /** The five lines `GetResponse` prints, in order. */
  function ResponseLines(a: AssignmentData): (lines: seq<string>)
    ensures |lines| == 5
  {
    [ "Page: " + a.page,
      "Words: " + ListText(a.words),
      "Percentages: " + a.percentagesText,
      "Special: " + SpecialText(a.special),
      "ExtraSpecial: " + a.extraSpecialText ]
  }

  /** The text `GetResponse` returns: the lines separated by newlines, with
      no newline after the last one. */
  function ResponseText(a: AssignmentData): string
  {
    Join(ResponseLines(a), "\n")
  }

  lemma JoinFive(l0: string, l1: string, l2: string, l3: string, l4: string, sep: string)
    ensures Join([l0, l1, l2, l3, l4], sep) == l0 + sep + l1 + sep + l2 + sep + l3 + sep + l4
  {
    var lines := [l0, l1, l2, l3, l4];
    assert lines[3..][1..] == [l4];
    assert lines[2..][1..] == lines[3..];
    assert lines[1..][1..] == lines[2..];
    JoinSnoc([l0, l1, l2, l3], l4, sep);
    assert [l0, l1, l2, l3] + [l4] == lines;
    JoinSnoc([l0, l1, l2], l3, sep);
    assert [l0, l1, l2] + [l3] == [l0, l1, l2, l3];
    JoinSnoc([l0, l1], l2, sep);
    assert [l0, l1] + [l2] == [l0, l1, l2];
    JoinSnoc([l0], l1, sep);
    assert [l0] + [l1] == [l0, l1];
  }

  /** One round of the `Special` loop: a separator unless it is the first
      item, then the item. */
  lemma SpecialStep(items: seq<Option<string>>, i: nat, sofar: string)
    requires i < |items| && sofar == "[" + Join(ItemTexts(items[..i]), ", ")
    ensures (if i > 0 then sofar + ", " else sofar) + ItemText(items[i])
            == "[" + Join(ItemTexts(items[..i + 1]), ", ")
  {
    var done := ItemTexts(items[..i]);
    assert ItemTexts(items[..i + 1]) == done + [ItemText(items[i])];
    if i > 0 {
      JoinSnoc(done, ItemText(items[i]), ", ");
    } else {
      assert done + [ItemText(items[i])] == [ItemText(items[i])];
    }
  }

  /** The rendering of `Special` built item by item, as the loop in
      `GetResponse` does. */
  method BuildSpecial(items: seq<Option<string>>) returns (specialStr: string)
    ensures specialStr == SpecialText(items)
  {
    specialStr := "[";
    for i := 0 to |items|
      invariant specialStr == "[" + Join(ItemTexts(items[..i]), ", ")
    {
      SpecialStep(items, i, specialStr);
      if i > 0 {
        specialStr := specialStr + ", ";
      }
      match items[i] {
        case None => specialStr := specialStr + "null";
        case Some(s) => specialStr := specialStr + ("\"" + s + "\"");
      }
    }
    assert items[..|items|] == items;
    specialStr := specialStr + "]";
  }

  /** `AssignmentData.GetResponse`: appends the lines one by one, each with
      its newline but the last. */
  method GetResponse(a: AssignmentData) returns (result: string)
    ensures result == ResponseText(a)
  {
    ghost var lines := ResponseLines(a);
    result := "Page: " + a.page + "\n";
    assert result + ("Words: " + ListText(a.words) + "\n") == result + ("Words: " + ListText(a.words)) + "\n";
    result := result + ("Words: " + ListText(a.words) + "\n");
    assert result + ("Percentages: " + a.percentagesText + "\n") == result + ("Percentages: " + a.percentagesText) + "\n";
    result := result + ("Percentages: " + a.percentagesText + "\n");

    var specialStr := BuildSpecial(a.special);
    assert result + ("Special: " + specialStr + "\n") == result + ("Special: " + specialStr) + "\n";
    result := result + ("Special: " + specialStr + "\n");

    result := result + ("ExtraSpecial: " + a.extraSpecialText);
    JoinFive(lines[0], lines[1], lines[2], lines[3], lines[4], "\n");
    assert lines == [lines[0], lines[1], lines[2], lines[3], lines[4]];
  }

  /** The lines stand in the response one after the other: Page, Words,
      Percentages, Special, ExtraSpecial, the first at the very start. */
  lemma ResponseLinesInOrder(a: AssignmentData)
    ensures forall k :: 0 <= k < 5 ==>
              OccursAt(ResponseText(a), ResponseLines(a)[k], PartOffset(ResponseLines(a), "\n", k))
    ensures forall k :: 0 <= k < 4 ==>
              PartOffset(ResponseLines(a), "\n", k) < PartOffset(ResponseLines(a), "\n", k + 1)
    ensures PartOffset(ResponseLines(a), "\n", 0) == 0
  {
    var lines := ResponseLines(a);
    forall k | 0 <= k < 5
      ensures OccursAt(ResponseText(a), lines[k], PartOffset(lines, "\n", k))
    {
      JoinPartAt(lines, "\n", k);
    }
    forall k | 0 <= k < 4
      ensures PartOffset(lines, "\n", k) < PartOffset(lines, "\n", k + 1)
    {
      PartOffsetsIncrease(lines, "\n", k);
    }
  }

  lemma LineTagShown(a: AssignmentData, k: nat, tag: string, rest: string)
    requires k < 5 && ResponseLines(a)[k] == tag + rest
    ensures Contains(ResponseText(a), tag)
  {
    JoinPartAt(ResponseLines(a), "\n", k);
    PrefixOccurs(ResponseText(a), tag, rest, PartOffset(ResponseLines(a), "\n", k));
  }

  /** What the assignment test looks for in the response: the page line and
      the four other labels. */
  lemma ResponseHasTestedLabels(a: AssignmentData)
    ensures ContainsString(ResponseText(a), "Page: " + a.page)
    ensures ContainsString(ResponseText(a), "Words:")
    ensures ContainsString(ResponseText(a), "Percentages:")
    ensures ContainsString(ResponseText(a), "Special:")
    ensures ContainsString(ResponseText(a), "ExtraSpecial:")
  {
    var lines := ResponseLines(a);
    assert lines[0] == "Page: " + a.page + "";
    LineTagShown(a, 0, "Page: " + a.page, "");
    assert "Words:" + " " + ListText(a.words) == "Words:" + (" " + ListText(a.words));
    LineTagShown(a, 1, "Words:", " " + ListText(a.words));
    assert "Percentages:" + " " + a.percentagesText == "Percentages:" + (" " + a.percentagesText);
    LineTagShown(a, 2, "Percentages:", " " + a.percentagesText);
    assert "Special:" + " " + SpecialText(a.special) == "Special:" + (" " + SpecialText(a.special));
    LineTagShown(a, 3, "Special:", " " + SpecialText(a.special));
    assert "ExtraSpecial:" + " " + a.extraSpecialText == "ExtraSpecial:" + (" " + a.extraSpecialText);
    LineTagShown(a, 4, "ExtraSpecial:", " " + a.extraSpecialText);
  }

  /** `Options` and the `api` value of init.go: the base URL and the HTTP
      client, here the function from a URL to what its GET produces. */
  datatype Options = Options(baseURL: string)
  datatype Api = Api(options: Options, client: string -> Exchange)

  /** `json.Valid` and `json.Unmarshal` into `AssignmentData`. */
  datatype Json = Json(valid: string -> bool, unmarshal: string -> Result<AssignmentData, string>)

  /** The (Response, error) pair `GetAssignmentData` returns. */
  datatype Fetched = Fetched(response: Option<AssignmentData>, err: Option<GoError>)

  /** `GetAssignmentData`: GET base URL + endpoint, then check in order the
      transport, the body read, the status, JSON validity and decoding. */
  function GetAssignmentData(api: Api, json: Json, endpoint: string): (r: Fetched)
    // exactly one of response and error is set
    ensures r.response.Some? != r.err.Some?
    // a non-200 reply gives a plain error and no response
    ensures var x := api.client(api.options.baseURL + endpoint);
            x.Received? && x.reply.statusCode != 200 ==> r.response.None? && r.err.Some? && r.err.value.Plain?
    // a 200 reply whose body is not JSON gives this RequestError
    ensures var x := api.client(api.options.baseURL + endpoint);
            x.Received? && x.reply.statusCode == 200 && !json.valid(x.reply.body) ==>
              r.err == Some(Request(RequestError(200, x.reply.body, "Response is not valid JSON")))
    // a 200 JSON reply that does not decode gives this RequestError
    ensures var x := api.client(api.options.baseURL + endpoint);
            x.Received? && x.reply.statusCode == 200 && json.valid(x.reply.body)
            && json.unmarshal(x.reply.body).Failure? ==>
              r.err == Some(Request(RequestError(200, x.reply.body,
                                                 "JSON unmarshal error: " + json.unmarshal(x.reply.body).error)))
    // every RequestError comes from a 200 reply to base URL + endpoint and carries its raw body
    ensures r.err.Some? && r.err.value.Request? ==>
              var x := api.client(api.options.baseURL + endpoint);
              x.Received? && x.reply.statusCode == 200 && r.err.value.request.httpCode == 200
              && r.err.value.request.body == x.reply.body
    // success exactly when the 200 reply is JSON and decodes, and the decoded value is returned as is
    ensures var x := api.client(api.options.baseURL + endpoint);
            r.response.Some? <==>
              x.Received? && x.reply.statusCode == 200 && json.valid(x.reply.body)
              && json.unmarshal(x.reply.body).Success?
    ensures r.response.Some? ==>
              json.unmarshal(api.client(api.options.baseURL + endpoint).reply.body) == Success(r.response.value)
  {
    var requestURL := api.options.baseURL + endpoint;
    match api.client(requestURL)
    case SendFailed(reason) => Fetched(None, Some(Plain("HTTP Get error: " + reason)))
    case ReadFailed(reason) => Fetched(None, Some(Plain("ReadAll error: " + reason)))
    case Received(reply) =>
      if reply.statusCode != 200 then
        Fetched(None, Some(Plain("invalid output (HTTP Code " + Decimal(reply.statusCode) + "): " + reply.body)))
      else if !json.valid(reply.body) then
        Fetched(None, Some(Request(RequestError(reply.statusCode, reply.body, "Response is not valid JSON"))))
      else
        match json.unmarshal(reply.body)
        case Failure(e) =>
          Fetched(None, Some(Request(RequestError(reply.statusCode, reply.body, "JSON unmarshal error: " + e))))
        case Success(data) => Fetched(Some(data), None)
  }

  /** The only URL requested is base URL + endpoint: two clients that answer
      that URL alike give the same result, whatever they do elsewhere. */
  lemma OnlyBasePlusEndpointRequested(c1: string -> Exchange, c2: string -> Exchange,
                                      options: Options, json: Json, endpoint: string)
    requires c1(options.baseURL + endpoint) == c2(options.baseURL + endpoint)
    ensures GetAssignmentData(Api(options, c1), json, endpoint) == GetAssignmentData(Api(options, c2), json, endpoint)
  {
  }
}
