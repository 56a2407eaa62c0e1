/**
 * The text handling of the OpenAI provider: how the message content of a
 * chat completion becomes text, how a Markdown code fence around that text
 * is removed, and how each failure on the way from request to validated
 * plan is classified. The SDK call, the JSON parser and the schema
 * validator are parameters: a request outcome, a parse function and a
 * validate function.
 */
module OpenAiProvider {

  import opened Wrappers
  import opened Text
  import opened Seqs

  // ---------------------------------------------------------------------
  // Response text
  // ---------------------------------------------------------------------

  /**
   * What `response.choices[0].message.content` holds. `Unreadable` is a
   * response on which that lookup raises; a list holds one item per part,
   * with the part's `text` when that is a string (whether the part is a
   * dict or an object) and `None` otherwise.
   */
  datatype MessageContent =
    | Unreadable
    | NullContent
    | TextContent(text: string)
    | PartsContent(parts: seq<Option<string>>)
    | OtherContent

  /** A part whose `text` is a string. */
  predicate IsTextPart(part: Option<string>) {
    part.Some?
  }

  /** The text of a part, empty when it has none. */
  function PartText(part: Option<string>): string {
    part.GetOr([])
  }

  /** The string texts of the parts, in order. */
  function StringParts(parts: seq<Option<string>>): (r: seq<string>)
    ensures |r| <= |parts|
    ensures r == Map(PartText, Filter(parts, IsTextPart))
    ensures forall x :: x in r <==> Some(x) in parts
  {
    if parts == [] then []
    else
      var rest := StringParts(parts[1..]);
      assert forall x :: Some(x) in parts <==> parts[0] == Some(x) || Some(x) in parts[1..];
      var kept := Filter(parts[1..], IsTextPart);
      match parts[0]
      case Some(t) =>
        assert Map(PartText, [parts[0]] + kept) == [t] + Map(PartText, kept);
        [t] + rest
      case None => rest
  }

  /**
   * `_extract_response_text`: string content unchanged; a list's string
   * parts joined by newlines and stripped; nothing for anything else.
   */
  function ExtractResponseText(c: MessageContent): (r: string)
    ensures c.TextContent? ==> r == c.text
    ensures c.PartsContent? ==> NoEdgeSpace(r)
    ensures !c.TextContent? && !c.PartsContent? ==> r == []
    ensures c.PartsContent? && StringParts(c.parts) == [] ==> r == []
  {
    match c
    case TextContent(t) => t
    case PartsContent(parts) => Strip(Join(StringParts(parts), "\n"))
    case _ => []
  }

  /** A single text part comes back as its text, once stripped. */
  lemma SinglePartText(parts: seq<Option<string>>, t: string)
    requires StringParts(parts) == [t]
    ensures ExtractResponseText(PartsContent(parts)) == Strip(t)
  {
  }

  /**
   * Text parts are joined in order by a newline, and a part without text is
   * skipped: `[a, None, b]` reads as `a`, a newline and `b`, stripped.
   */
  lemma TwoPartsJoined(a: string, b: string)
    ensures ExtractResponseText(PartsContent([Some(a), None, Some(b)])) == Strip(a + "\n" + b)
  {
    var parts := [Some(a), None, Some(b)];
    assert parts[1..][1..][1..] == [];
    assert StringParts(parts) == [a, b];
    assert Join([a, b], "\n") == a + "\n" + b;
  }

  // ---------------------------------------------------------------------
  // Code fences
  // ---------------------------------------------------------------------

  /**
   * Python's `s[a:-b]` for `a, b > 0`: the start and the end are clamped to
   * the string, and a slice whose start is not before its end is empty.
   */
  function SliceInner(s: string, a: nat, b: nat): (r: string)
    requires a > 0 && b > 0
    ensures |r| <= |s|
    ensures a + b <= |s| ==> r == s[a..|s| - b]
    ensures a + b >= |s| ==> r == []
  {
    var lo := if a < |s| then a else |s|;
    var hi := if |s| - b > 0 then |s| - b else 0;
    if lo < hi then s[lo..hi] else []
  }

  const Fence: string := "```"
  const JsonFence: string := "```json"

  /**
   * `_strip_json_code_fences`: the stripped text, with a surrounding
   * "```json … ```" or "``` … ```" fence removed and the inside stripped
   * again.
   */
  function StripJsonCodeFences(raw: string): (r: string)
    ensures NoEdgeSpace(r)
    ensures |r| <= |raw|
    ensures !(StartsWith(Strip(raw), Fence) && EndsWith(Strip(raw), Fence)) ==> r == Strip(raw)
  {
    var text := Strip(raw);
    if StartsWith(text, JsonFence) && EndsWith(text, Fence) then Strip(SliceInner(text, 7, 3))
    else if StartsWith(text, Fence) && EndsWith(text, Fence) then Strip(SliceInner(text, 3, 3))
    else text
  }

  /**
   * A body on lines of its own between an opening fence and a closing one:
   * the text is already stripped, starts and ends with a fence, and the
   * slice between the fences is the body with its two newlines.
   */
  lemma FencedParts(open: string, body: string)
    requires |open| >= 3 && open[..3] == Fence
    ensures var t := open + "\n" + body + "\n" + Fence;
      && Strip(t) == t
      && StartsWith(t, open) && StartsWith(t, Fence) && EndsWith(t, Fence)
      && t[|open|] == '\n'
      && SliceInner(t, |open|, 3) == "\n" + body + "\n"
  {
    var mid := "\n" + body + "\n";
    var t := open + "\n" + body + "\n" + Fence;
    assert t == open + mid + Fence;
    assert t[..|open|] == open;
    assert t[..3] == Fence;
    assert t[|t| - 3..] == Fence;
    assert t[|open|..|t| - 3] == mid;
    assert t[0] == '`' && t[|t| - 1] == '`';
    StripNoEdge(t);
  }

  /** A body wrapped in a "```json" fence on lines of its own comes back unchanged. */
  lemma JsonFenceRoundTrip(body: string)
    requires NoEdgeSpace(body)
    ensures StripJsonCodeFences(JsonFence + "\n" + body + "\n" + Fence) == body
  {
    var t := JsonFence + "\n" + body + "\n" + Fence;
    FencedParts(JsonFence, body);
    assert StripJsonCodeFences(t) == Strip(SliceInner(t, 7, 3));
    StripPadded("\n", body, "\n");
  }

  /** A body wrapped in a bare fence on lines of its own comes back unchanged. */
  lemma PlainFenceRoundTrip(body: string)
    requires NoEdgeSpace(body)
    ensures StripJsonCodeFences(Fence + "\n" + body + "\n" + Fence) == body
  {
    var t := Fence + "\n" + body + "\n" + Fence;
    FencedParts(Fence, body);
    assert t[3] != JsonFence[3];
    StripPadded("\n", body, "\n");
  }

  /**
   * A fenced text too short to hold anything between its fences, such as
   * "```" or "````", leaves nothing: the Python slice comes out empty.
   */
  lemma ShortFencedTextEmpty(t: string)
    requires NoEdgeSpace(t) && StartsWith(t, Fence) && EndsWith(t, Fence) && |t| <= 6
    ensures StripJsonCodeFences(t) == []
  {
    StripNoEdge(t);
    assert !StartsWith(t, JsonFence);
    assert SliceInner(t, 3, 3) == [];
    assert |Strip([])| == 0;
  }

  // ---------------------------------------------------------------------
  // generate_structured
  // ---------------------------------------------------------------------

  /** What the chat-completions call did: raised (with the exception's text) or answered. */
  datatype RequestOutcome = RequestFailed(reason: string) | Responded(content: MessageContent)

  /** The two provider errors: the request could not be made, or its answer is unusable. */
  datatype ProviderError = RequestError(message: string) | ResponseError(message: string)

  const EmptyResponseMessage: string := "OpenAI returned an empty response payload."

  function RequestFailureMessage(reason: string): string { "OpenAI request failed: " + reason }

  function InvalidJsonMessage(reason: string): string { "OpenAI returned invalid JSON: " + reason }

  function SchemaFailureMessage(schemaName: string, reason: string): string {
    "OpenAI response failed schema validation for " + schemaName + ": " + reason
  }

  /**
   * `OpenAiProvider.generate_structured` after the client is built.
   * `parse` stands for `json.loads` and `validate` for the schema's
   * `model_validate`, each with the exception text as its failure.
   */
  function GenerateStructured<J, P>(request: RequestOutcome,
                                    parse: string -> Result<J, string>,
                                    validate: J -> Result<P, string>,
                                    schemaName: string): (r: Result<P, ProviderError>)
    ensures request.RequestFailed? ==> r == Failure(RequestError(RequestFailureMessage(request.reason)))
    ensures r.Failure? && r.error.RequestError? ==> request.RequestFailed?
    ensures request.Responded? && ExtractResponseText(request.content) == [] ==>
      r == Failure(ResponseError(EmptyResponseMessage))
    ensures request.Responded? && ExtractResponseText(request.content) != [] ==>
      var parsed := parse(StripJsonCodeFences(ExtractResponseText(request.content)));
      && (parsed.Failure? ==> r == Failure(ResponseError(InvalidJsonMessage(parsed.error))))
      && (parsed.Success? && validate(parsed.value).Failure? ==>
            r == Failure(ResponseError(SchemaFailureMessage(schemaName, validate(parsed.value).error))))
      && (parsed.Success? && validate(parsed.value).Success? ==> r == Success(validate(parsed.value).value))
    ensures r.Success? ==> exists text :: parse(text).Success? && validate(parse(text).value) == Success(r.value)
  {
    match request
    case RequestFailed(reason) => Failure(RequestError(RequestFailureMessage(reason)))
    case Responded(content) =>
      var rawContent := ExtractResponseText(content);
      if rawContent == [] then Failure(ResponseError(EmptyResponseMessage))
      else
        var normalized := StripJsonCodeFences(rawContent);
        match parse(normalized)
        case Failure(e) => Failure(ResponseError(InvalidJsonMessage(e)))
        case Success(payload) =>
          match validate(payload)
          case Failure(e) => Failure(ResponseError(SchemaFailureMessage(schemaName, e)))
          case Success(plan) => Success(plan)
  }

  /** An empty answer is rejected before the parser or the validator is consulted. */
  lemma EmptyResponseSkipsParsing<J, P>(content: MessageContent,
                                        parse1: string -> Result<J, string>, validate1: J -> Result<P, string>,
                                        parse2: string -> Result<J, string>, validate2: J -> Result<P, string>,
                                        schemaName: string)
    requires ExtractResponseText(content) == []
    ensures GenerateStructured(Responded(content), parse1, validate1, schemaName)
         == GenerateStructured(Responded(content), parse2, validate2, schemaName)
  {
  }

  /** A fenced JSON answer reaches the parser as the text inside the fence. */
  lemma FencedAnswerParsedInside<J, P>(body: string, parse: string -> Result<J, string>,
                                       validate: J -> Result<P, string>, schemaName: string)
    requires NoEdgeSpace(body)
    requires parse(body).Failure?
    ensures GenerateStructured(Responded(TextContent(JsonFence + "\n" + body + "\n" + Fence)), parse, validate, schemaName)
         == Failure(ResponseError(InvalidJsonMessage(parse(body).error)))
  {
    JsonFenceRoundTrip(body);
  }
}
