/** The lease-summary step of the server (`summarizeLease`): the model's reply is searched
    with the greedy regular expression `/\{[\s\S]*\}/`, which takes everything from the
    first `{` to the last `}`, and every failure is turned into an error record instead of
    an exception. The completion call and `JSON.parse` are not modelled: the call's outcome
    and the parser are inputs. */
module OpenAiService {
  import opened Outcomes
  import opened JsText

  /** What the chat-completion call produced: the first choice's message content
      (`null` is possible), or the value it threw. */
  datatype Completion = Completed(content: Option<string>) | CallFailed(err: Thrown)

  /** What `summarizeLease` resolves to: the parsed JSON value, or one of its two
      kinds of error record, `{ error: true, message, raw }` and `{ error: true, message, details }`. */
  datatype SummaryResult<J> =
    | Parsed(value: J)
    | RawError(message: string, raw: Option<string>)
    | DetailsError(message: string, details: string)
  {
    predicate IsError() { !Parsed? }
  }

  const NoJsonMessage := "No JSON found in model response."
  const ParseFailedMessage := "Failed to parse AI response as JSON."
  const ApiFailedMessage := "OpenAI API call failed."

  /** `s[i..j + 1]` runs from the first `{` of `s` to its last `}`. */
  predicate GreedySpan(s: string, i: int, j: int) {
    && 0 <= i < j < |s|
    && s[i] == '{' && s[j] == '}'
    && (forall k | 0 <= k < i :: s[k] != '{')
    && (forall k | j < k < |s| :: s[k] != '}')
  }

  /** There is a `{` with a `}` somewhere after it. */
  predicate HasBracePair(s: string) {
    exists i, j | 0 <= i < j < |s| :: s[i] == '{' && s[j] == '}'
  }

  /** Index of the first `c`, or `|s|` when there is none. */
  function FirstIndex(s: string, c: char): (i: nat)
    ensures i <= |s| && forall k | 0 <= k < i :: s[k] != c
    ensures i < |s| ==> s[i] == c
  {
    if s == [] || s[0] == c then 0 else FirstIndex(s[1..], c) + 1
  }

  /** Index of the last `c`, or -1 when there is none. */
  function LastIndex(s: string, c: char): (i: int)
    ensures -1 <= i < |s| && forall k | i < k < |s| :: s[k] != c
    ensures i >= 0 ==> s[i] == c
  {
    if s == [] then -1
    else if s[|s| - 1] == c then |s| - 1
    else LastIndex(s[..|s| - 1], c)
  }

  /** `content?.match(/\{[\s\S]*\}/)?.[0]`: the leftmost match starts at the first `{`,
      and the greedy `[\s\S]*` runs to the last `}` of the text. A match exists exactly
      when some `}` follows some `{`; a `null` content gives no match. */
  function JsonMatch(content: Option<string>): (m: Option<string>)
    ensures m.Some? <==> content.Some? && HasBracePair(content.value)
    ensures m.Some? ==>
      exists i, j :: GreedySpan(content.value, i, j) && m.value == content.value[i..j + 1]
  {
    match content
    case None => None
    case Some(s) =>
      var i := FirstIndex(s, '{');
      var j := LastIndex(s, '}');
      if i < j then
        assert GreedySpan(s, i, j);
        Some(s[i..j + 1])
      else
        None
  }

  /** `summarizeLease` after the completion call: extract the span, parse it, and turn
      each failure into its error record. It never throws. */
  function SummarizeLease<J>(completion: Completion, parse: string -> Option<J>): (r: SummaryResult<J>)
    ensures r.Parsed? ==> completion.Completed? && JsonMatch(completion.content).Some?
                          && parse(JsonMatch(completion.content).value) == Some(r.value)
    ensures r.DetailsError? <==> completion.CallFailed?
    ensures (completion.Completed? && JsonMatch(completion.content).Some?
             && parse(JsonMatch(completion.content).value).None?)
            ==> r == RawError(ParseFailedMessage, completion.content)
  {
    match completion
    case CallFailed(err) => DetailsError(ApiFailedMessage, Details(err))
    case Completed(content) =>
      match JsonMatch(content)
      case None => RawError(NoJsonMessage, content)
      case Some(candidate) =>
        match parse(candidate)
        case Some(value) => Parsed(value)
        case None => RawError(ParseFailedMessage, content)
  }

  /** The extracted span is a fixed point: matching the regular expression against
      its own result gives the same string back. */
  lemma JsonMatchIdempotent(content: Option<string>)
    requires JsonMatch(content).Some?
    ensures JsonMatch(JsonMatch(content)) == JsonMatch(content)
  {
    var m := JsonMatch(content).value;
    var s := content.value;
    var i, j :| GreedySpan(s, i, j) && m == s[i..j + 1];
    assert m[0] == '{' && m[|m| - 1] == '}';
    assert FirstIndex(m, '{') == 0;
    assert LastIndex(m, '}') == |m| - 1;
    assert m[0..|m|] == m;
  }

  /** Prose before the object and a code fence or commentary after it are cut away:
      when the text before the object has no `{` and the text after it has no `}`,
      exactly the object is handed to the parser. */
  lemma {:induction false} SurroundingProseDropped(before: string, obj: string, after: string)
    requires |obj| >= 2 && obj[0] == '{' && obj[|obj| - 1] == '}'
    requires Excludes(before, '{') && Excludes(after, '}')
    ensures JsonMatch(Some(before + obj + after)) == Some(obj)
  {
    var s := before + obj + after;
    var i := FirstIndex(s, '{');
    assert s[|before|] == '{';
    assert i == |before|;
    var j := LastIndex(s, '}');
    var e := |before| + |obj| - 1;
    assert s[e] == '}';
    assert j == e;
    assert s[i..j + 1] == obj;
  }

  /** A reply without any `{`...`}` pair, or no content at all, yields the
      "no JSON" record carrying the raw content; the parser is never consulted. */
  lemma NoBracesNoJson<J>(content: Option<string>, parse: string -> Option<J>)
    requires content.None? || !HasBracePair(content.value)
    ensures SummarizeLease(Completed(content), parse) == RawError(NoJsonMessage, content)
  {
  }

  /** On success the parsed value is returned unchanged (no key is renamed or moved);
      when the parser rejects the span the record is the parse-failure one with the raw
      content; a failed call gives the API record with its details. Exactly one of these
      or the "no JSON" record is produced, and every one but `Parsed` is an error. */
  lemma SummaryOutcomes<J>(completion: Completion, parse: string -> Option<J>)
    ensures var r := SummarizeLease(completion, parse);
      && (r.Parsed? <==> completion.Completed? && JsonMatch(completion.content).Some?
                         && parse(JsonMatch(completion.content).value).Some?)
      && (r.Parsed? ==> r.value == parse(JsonMatch(completion.content).value).value)
      && (r.RawError? ==> completion.Completed? && r.raw == completion.content
                          && (r.message == NoJsonMessage || r.message == ParseFailedMessage))
      && (r.RawError? ==> (r.message == ParseFailedMessage <==> JsonMatch(completion.content).Some?))
      && (r.DetailsError? <==> completion.CallFailed?)
      && (r.DetailsError? ==> r.message == ApiFailedMessage && r.details == Details(completion.err))
  {
  }
}
