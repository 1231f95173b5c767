/** The browser-side extraction of work experience from a LinkedIn PDF
    (src/linkedin-extractor.js): the text comes from the OCR endpoint, the model's
    reply is stripped of Markdown code fences and parsed, and only a JSON array is
    accepted as the list of jobs. The OCR endpoint, the model service and
    `JSON.parse` are inputs. */
module LinkedinExtractor {
  import opened Wrappers
  import opened Text
  import opened Json

  const JsonFence := "```json"
  const Fence := "```"

  /** The string handed to `JSON.parse` for content that is already trimmed: a
      "```json" fence pair or a bare "```" pair is removed, and what is inside is
      trimmed again. */
  function StripFences(s: string): string {
    if StartsWith(s, JsonFence) && EndsWith(s, Fence) then Trim(JsSubstring(s, 7, |s| - 3))
    else if StartsWith(s, Fence) && EndsWith(s, Fence) then Trim(JsSubstring(s, 3, |s| - 3))
    else s
  }

  /** `content.trim()`, then the fences. */
  function ToParse(content: string): string {
    StripFences(Trim(content))
  }

  /** Under a "```json" fence pair the two fences cannot overlap, so the text
      parsed is exactly what lies between them, trimmed. */
  lemma JsonFenceInside(s: string)
    requires StartsWith(s, JsonFence) && EndsWith(s, Fence)
    ensures |s| >= 10
    ensures StripFences(s) == Trim(s[7..|s| - 3])
  {
    var k := |s| - 3;
    assert s[k] == s[k..][0] == '`';
    assert s[..7] == JsonFence;
    assert forall j :: 0 <= j < 7 ==> s[j] == JsonFence[j];
    assert forall j :: 3 <= j < 7 ==> JsonFence[j] != '`';
  }

  /** The bare-fence case for 6 characters or more: the text between the fences. */
  lemma BareFenceInside(s: string)
    requires !(StartsWith(s, JsonFence) && EndsWith(s, Fence))
    requires StartsWith(s, Fence) && EndsWith(s, Fence) && |s| >= 6
    ensures StripFences(s) == Trim(s[3..|s| - 3])
  {
  }

  /** For 3 to 5 characters `substring(3, length - 3)` swaps its bounds, so the
      text parsed is `s[length - 3..3]`; "```" itself comes back unchanged. */
  lemma ShortFenceSwaps(s: string)
    requires StartsWith(s, Fence) && EndsWith(s, Fence) && 3 <= |s| < 6
    ensures StripFences(s) == Trim(s[|s| - 3..3])
  {
    assert !StartsWith(s, JsonFence);
  }

  lemma TripleBacktickStays()
    ensures ToParse("```") == "```"
  {
    var s := "```";
    TrimKeepsTrimmed(s);
    ShortFenceSwaps(s);
    assert s[0..3] == s;
  }

  /** Unfenced content is parsed after trimming alone. */
  lemma UnfencedOnlyTrimmed(content: string)
    requires !(StartsWith(Trim(content), Fence) && EndsWith(Trim(content), Fence))
    ensures ToParse(content) == Trim(content)
  {
    var s := Trim(content);
    assert !(StartsWith(s, JsonFence) && EndsWith(s, Fence)) by {
      if StartsWith(s, JsonFence) {
        assert s[..3] == s[..7][..3];
      }
    }
  }

  /** A string that starts and ends with a backtick is left alone by `trim`. */
  lemma BacktickedTrimmed(s: string)
    requires |s| >= 1 && s[0] == '`' && s[|s| - 1] == '`'
    ensures Trim(s) == s
  {
    TrimKeepsTrimmed(s);
  }

  /** Content in a "```json" fence pair is parsed as what lies between the fences,
      trimmed. */
  lemma JsonFenced(inner: string)
    ensures ToParse(JsonFence + inner + Fence) == Trim(inner)
  {
    var s := JsonFence + inner + Fence;
    BacktickedTrimmed(s);
    assert s[..7] == JsonFence;
    assert s[|s| - 3..] == Fence;
    JsonFenceInside(s);
    assert s[7..|s| - 3] == inner;
  }

  /** Round trip: JSON text wrapped in a "```json" block, as models like to answer,
      is recovered exactly. */
  lemma JsonBlockRoundTrip(t: string)
    requires IsTrimmed(t)
    ensures ToParse(JsonFence + "\n" + t + "\n" + Fence) == t
  {
    var inner := "\n" + t + "\n";
    assert JsonFence + "\n" + t + "\n" + Fence == JsonFence + inner + Fence;
    JsonFenced(inner);
    TrimSurrounded("\n", t, "\n");
  }

  /** Content in a bare fence pair whose inside starts on a new line is parsed as
      that inside, trimmed. */
  lemma BareFenced(inner: string)
    requires inner != [] && inner[0] == '\n'
    ensures ToParse(Fence + inner + Fence) == Trim(inner)
  {
    var s := Fence + inner + Fence;
    BacktickedTrimmed(s);
    assert s[..3] == Fence;
    assert s[|s| - 3..] == Fence;
    assert s[3] == '\n';
    assert s[..7][3] == s[3];
    BareFenceInside(s);
    assert s[3..|s| - 3] == inner;
  }

  /** Round trip for a bare "```" block. */
  lemma BareBlockRoundTrip(t: string)
    requires IsTrimmed(t)
    ensures ToParse(Fence + "\n" + t + "\n" + Fence) == t
  {
    var inner := "\n" + t + "\n";
    assert Fence + "\n" + t + "\n" + Fence == Fence + inner + Fence;
    BareFenced(inner);
    TrimSurrounded("\n", t, "\n");
  }

  /** `workExperience` for string content: the parsed array, else nothing. */
  function Classify(parsed: Result<Value, string>): (r: seq<Value>)
    ensures parsed.Success? && parsed.value.Array? ==> r == parsed.value.elems
    ensures !(parsed.Success? && parsed.value.Array?) ==> r == []
  {
    match parsed
    case Success(Array(elems)) => elems
    case _ => []
  }

  /** What the chat-completion request returned: a response that is not ok, with
      its status, status text and body, or an ok response with the first choice's
      message content, if any. */
  datatype ChatReply =
    | NotOk(status: nat, statusText: string, body: string)
    | Ok(content: Option<Value>)

  /** `{ extractedText, workExperience }`. */
  datatype Extraction = Extraction(extractedText: string, workExperience: seq<Value>)

  function StatusFailure(status: nat, statusText: string): string {
    "OpenAI API request failed with status " + NatToString(status) + ": " + statusText
  }

  /** `extractWorkExperienceFromPdfData`. `ocr` is what the OCR helper returned: the
      text, or the message of the error it threw. A failure result is a thrown
      error with that message. */
  function ExtractWorkExperience(apiKeySet: bool, ocr: Result<string, string>, reply: ChatReply,
                                 parse: JsonParse): (r: Result<Extraction, string>)
    ensures !apiKeySet ==> r.Success? && r.value.workExperience == []
    ensures !apiKeySet && ocr.Success? ==> r.value.extractedText == ocr.value
    ensures !apiKeySet && ocr.Failure? ==>
      r.value.extractedText == "Error during PDF text extraction: " + ocr.error
    ensures apiKeySet && ocr.Failure? ==> r == Failure(ocr.error)
    ensures apiKeySet && ocr.Success? && reply.NotOk? ==>
      r == Failure(StatusFailure(reply.status, reply.statusText))
    ensures apiKeySet && ocr.Success? && reply.Ok? ==> r.Success? && r.value.extractedText == ocr.value
  {
    if !apiKeySet then
      match ocr
      case Success(text) => Success(Extraction(text, []))
      case Failure(message) => Success(Extraction("Error during PDF text extraction: " + message, []))
    else
      match ocr
      case Failure(message) => Failure(message)
      case Success(extractedText) =>
        match reply
        case NotOk(status, statusText, _) => Failure(StatusFailure(status, statusText))
        case Ok(content) =>
          if content.Some? && content.value.Str? then
            Success(Extraction(extractedText, Classify(parse(ToParse(content.value.s)))))
          else Success(Extraction(extractedText, []))
  }

  /** The jobs come from the array the fenced content parses to, and anything but an
      array (another JSON value, a parse failure, non-string content) gives none. */
  lemma WorkExperienceIsParsedArray(ocrText: string, content: Option<Value>, parse: JsonParse)
    ensures var r := ExtractWorkExperience(true, Success(ocrText), Ok(content), parse);
      && r.Success?
      && (content.Some? && content.value.Str? && parse(ToParse(content.value.s)).Success?
          && parse(ToParse(content.value.s)).value.Array? ==>
            r.value.workExperience == parse(ToParse(content.value.s)).value.elems)
      && ((!(content.Some? && content.value.Str? && parse(ToParse(content.value.s)).Success?
            && parse(ToParse(content.value.s)).value.Array?)) ==> r.value.workExperience == [])
  {
  }

  /** A failed request throws the same generic error whatever its body holds: the
      more specific error built from a JSON body is swallowed. */
  lemma ErrorBodyIgnored(ocrText: string, status: nat, statusText: string, b1: string, b2: string,
                         p1: JsonParse, p2: JsonParse)
    ensures ExtractWorkExperience(true, Success(ocrText), NotOk(status, statusText, b1), p1)
         == ExtractWorkExperience(true, Success(ocrText), NotOk(status, statusText, b2), p2)
  {
  }
}
