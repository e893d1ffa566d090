/** The decision rules of the Flask server (cv_parser_app.py): the API-key
    dialog, the OpenAI set-up, the position-type lookup and the response that
    `upload_cv` picks. Console I/O, the OpenAI client, the document extractor
    and temporary files are parameters. */
module CvServer {
  import opened Wrappers
  import opened Text
  import opened Protocol

  // ---- str.strip() --------------------------------------------------------

  /** The characters for which Python's `str.isspace` holds. */
  predicate IsSpace(c: char)
  {
    || '\t' <= c <= '\r'
    || '\U{1c}' <= c <= '\U{1f}'
    || c == ' ' || c == '\U{85}' || c == '\U{a0}' || c == '\U{1680}'
    || '\U{2000}' <= c <= '\U{200a}'
    || c == '\U{2028}' || c == '\U{2029}' || c == '\U{202f}' || c == '\U{205f}' || c == '\U{3000}'
  }

  /** The first index at or after `i` that does not hold whitespace. */
  function SkipSpaces(s: string, i: nat): (k: nat)
    requires i <= |s|
    ensures i <= k <= |s|
    ensures forall j :: i <= j < k ==> IsSpace(s[j])
    ensures k < |s| ==> !IsSpace(s[k])
    decreases |s| - i
  {
    if i == |s| || !IsSpace(s[i]) then i else SkipSpaces(s, i + 1)
  }

  /** The end of `s[lo..j]` once trailing whitespace is dropped. */
  function TrimSpaces(s: string, lo: nat, j: nat): (k: nat)
    requires lo <= j <= |s|
    ensures lo <= k <= j
    ensures forall m :: k <= m < j ==> IsSpace(s[m])
    ensures k > lo ==> !IsSpace(s[k - 1])
    decreases j
  {
    if j == lo || !IsSpace(s[j - 1]) then j else TrimSpaces(s, lo, j - 1)
  }

  /** `s.strip()`. */
  function Strip(s: string): (r: string)
    ensures r == [] || (!IsSpace(r[0]) && !IsSpace(r[|r| - 1]))
    ensures exists i, j ::
              && 0 <= i <= j <= |s| && r == s[i..j]
              && (forall m :: 0 <= m < i ==> IsSpace(s[m]))
              && (forall m :: j <= m < |s| ==> IsSpace(s[m]))
  {
    var i := SkipSpaces(s, 0);
    var j := TrimSpaces(s, i, |s|);
    s[i..j]
  }

  // ---- get_api_key_from_user ----------------------------------------------

  /** The three format checks, in the order the loop applies them. */
  datatype KeyProblem = EmptyKey | MissingPrefix | TooShort

  function KeyProblemOf(key: string): Option<KeyProblem>
  {
    if key == "" then Some(EmptyKey)
    else if !("sk-" <= key) then Some(MissingPrefix)
    else if |key| < 20 then Some(TooShort)
    else None
  }

  /** A key passes the format checks exactly when it starts with `sk-` and has
      at least 20 characters; an empty key is reported as empty, and a key
      without the prefix as such whatever its length. */
  lemma KeyFormat(key: string)
    ensures KeyProblemOf(key).None? <==> "sk-" <= key && |key| >= 20
    ensures key == "" ==> KeyProblemOf(key) == Some(EmptyKey)
    ensures key != "" && !("sk-" <= key) ==> KeyProblemOf(key) == Some(MissingPrefix)
    ensures "sk-" <= key && |key| < 20 ==> KeyProblemOf(key) == Some(TooShort)
  {
  }

  const RetryAnswers: seq<string> := ["d", "da", "y", "yes"]

  /** The answer to "try again?" that keeps the dialog going. */
  predicate WantsRetry(answer: string)
  {
    Lower(Strip(answer)) in RetryAnswers
  }

  /** `strip()` removes exactly the whitespace around a text that neither
      starts nor ends with whitespace. */
  lemma StripPadded(pre: string, t: string, post: string)
    requires forall m :: 0 <= m < |pre| ==> IsSpace(pre[m])
    requires forall m :: 0 <= m < |post| ==> IsSpace(post[m])
    requires t != [] && !IsSpace(t[0]) && !IsSpace(t[|t| - 1])
    ensures Strip(pre + t + post) == t
  {
    var s := pre + t + post;
    var i := SkipSpaces(s, 0);
    assert s[|pre|] == t[0];
    assert i == |pre|;
    var j := TrimSpaces(s, i, |s|);
    assert s[|pre| + |t| - 1] == t[|t| - 1];
    assert j == |pre| + |t|;
    assert s[i..j] == t;
  }

  /** The retry answer is compared after `strip()` and `lower()`. */
  lemma RetryAnswer(pre: string, t: string, post: string)
    requires forall m :: 0 <= m < |pre| ==> IsSpace(pre[m])
    requires forall m :: 0 <= m < |post| ==> IsSpace(post[m])
    requires t != [] && !IsSpace(t[0]) && !IsSpace(t[|t| - 1])
    ensures WantsRetry(pre + t + post) <==> Lower(t) in RetryAnswers
  {
    StripPadded(pre, t, post);
  }

  /** Retrying is case- and whitespace-insensitive. */
  lemma PaddedDaRetries()
    ensures WantsRetry(" Da ")
  {
    RetryAnswer(" ", "Da", " ");
    assert " " + "Da" + " " == " Da ";
    assert Lower("Da") == RetryAnswers[1];
  }

  lemma UpperYesRetries()
    ensures WantsRetry("YES\n")
  {
    RetryAnswer("", "YES", "\n");
    assert "" + "YES" + "\n" == "YES\n";
    assert Lower("YES") == RetryAnswers[3];
  }

  /** Any other answer ends the dialog: a refusal, or the empty line. */
  lemma RefusalEndsDialog()
    ensures !WantsRetry("n")
  {
    RetryAnswer("", "n", "");
    assert "" + "n" + "" == "n";
    assert Lower("n") == "n";
  }

  lemma EmptyAnswerEndsDialog()
    ensures !WantsRetry("")
  {
    assert Strip("") == "";
  }

  /** How the key dialog ends: with a key that works, with the user declining
      to retry (`return None`), or with `input()` raising at end of input. */
  datatype DialogEnd = ProvidedKey(key: string) | GaveUp | InputClosed

  /** The dialog driven by the lines the user types, and by `keyWorks`, which
      says whether a key passes the live test call. */
  function KeyDialog(inputs: seq<string>, keyWorks: string -> bool): DialogEnd
    decreases |inputs|
  {
    if inputs == [] then InputClosed
    else
      var key := Strip(inputs[0]);
      if KeyProblemOf(key).Some? then KeyDialog(inputs[1..], keyWorks)
      else if keyWorks(key) then ProvidedKey(key)
      else if |inputs| == 1 then InputClosed
      else if !WantsRetry(inputs[1]) then GaveUp
      else KeyDialog(inputs[2..], keyWorks)
  }

  /** One round of the dialog: a line that fails the format checks is
      skipped; a well-formed key is returned once it works; otherwise the next
      line is the retry answer, which either continues with the line after it
      or ends the dialog. */
  lemma DialogRound(line: string, rest: seq<string>, keyWorks: string -> bool)
    ensures var key := Strip(line);
      && (KeyProblemOf(key).Some? ==> KeyDialog([line] + rest, keyWorks) == KeyDialog(rest, keyWorks))
      && (KeyProblemOf(key).None? && keyWorks(key) ==> KeyDialog([line] + rest, keyWorks) == ProvidedKey(key))
      && (KeyProblemOf(key).None? && !keyWorks(key) && rest == [] ==> KeyDialog([line] + rest, keyWorks) == InputClosed)
      && (KeyProblemOf(key).None? && !keyWorks(key) && rest != [] ==>
            KeyDialog([line] + rest, keyWorks) == if WantsRetry(rest[0]) then KeyDialog(rest[1..], keyWorks) else GaveUp)
  {
    var inputs := [line] + rest;
    assert inputs[0] == line;
    assert inputs[1..] == rest;
    if rest != [] {
      assert inputs[1] == rest[0];
      assert inputs[2..] == rest[1..];
    }
  }

  /** A key the dialog returns was typed by the user (up to surrounding
      whitespace), passes the format checks, and passed the live test. */
  lemma {:induction false} DialogKeyIsChecked(inputs: seq<string>, keyWorks: string -> bool)
    requires KeyDialog(inputs, keyWorks).ProvidedKey?
    ensures var k := KeyDialog(inputs, keyWorks).key;
      KeyProblemOf(k).None? && keyWorks(k) && exists i :: 0 <= i < |inputs| && k == Strip(inputs[i])
    decreases |inputs|
  {
    var key := Strip(inputs[0]);
    if KeyProblemOf(key).Some? {
      DialogKeyIsChecked(inputs[1..], keyWorks);
      var i :| 0 <= i < |inputs[1..]| && KeyDialog(inputs, keyWorks).key == Strip(inputs[1..][i]);
      assert inputs[1..][i] == inputs[i + 1];
    } else if !keyWorks(key) {
      DialogKeyIsChecked(inputs[2..], keyWorks);
      var i :| 0 <= i < |inputs[2..]| && KeyDialog(inputs, keyWorks).key == Strip(inputs[2..][i]);
      assert inputs[2..][i] == inputs[i + 2];
    } else {
      assert KeyDialog(inputs, keyWorks).key == Strip(inputs[0]);
    }
  }

  /** Line `i` is a well-formed key that failed the live test, and line
      `i + 1` is an answer outside the retry set. */
  predicate FailedThenRefused(inputs: seq<string>, keyWorks: string -> bool, i: int)
  {
    && 0 <= i < |inputs| - 1
    && KeyProblemOf(Strip(inputs[i])).None?
    && !keyWorks(Strip(inputs[i]))
    && !WantsRetry(inputs[i + 1])
  }

  /** The dialog gives up only when a well-formed key has failed the live
      test and the line typed right after it is outside the retry set. */
  lemma {:induction false} DialogGivesUpOnAnswer(inputs: seq<string>, keyWorks: string -> bool)
    requires KeyDialog(inputs, keyWorks) == GaveUp
    ensures exists i :: FailedThenRefused(inputs, keyWorks, i)
    decreases |inputs|
  {
    var key := Strip(inputs[0]);
    if KeyProblemOf(key).Some? {
      var tail := inputs[1..];
      DialogGivesUpOnAnswer(tail, keyWorks);
      var i :| FailedThenRefused(tail, keyWorks, i);
      assert tail[i] == inputs[i + 1] && tail[i + 1] == inputs[i + 2];
      assert FailedThenRefused(inputs, keyWorks, i + 1);
    } else if WantsRetry(inputs[1]) {
      var tail := inputs[2..];
      DialogGivesUpOnAnswer(tail, keyWorks);
      var i :| FailedThenRefused(tail, keyWorks, i);
      assert tail[i] == inputs[i + 2] && tail[i + 1] == inputs[i + 3];
      assert FailedThenRefused(inputs, keyWorks, i + 2);
    } else {
      assert FailedThenRefused(inputs, keyWorks, 0);
    }
  }

  /** `get_api_key_from_user()`: the `while True` loop over the lines read by
      `input()`. */
  method GetApiKeyFromUser(inputs: seq<string>, keyWorks: string -> bool) returns (r: DialogEnd)
    ensures r == KeyDialog(inputs, keyWorks)
  {
    var i := 0;
    while true
      invariant 0 <= i <= |inputs|
      invariant KeyDialog(inputs[i..], keyWorks) == KeyDialog(inputs, keyWorks)
      decreases |inputs| - i
    {
      if i == |inputs| {
        return InputClosed;
      }
      var apiKey := Strip(inputs[i]);
      assert inputs[i..][1..] == inputs[i + 1..];
      i := i + 1;
      if apiKey == "" {
        continue;
      }
      if !("sk-" <= apiKey) {
        continue;
      }
      if |apiKey| < 20 {
        continue;
      }
      if keyWorks(apiKey) {
        return ProvidedKey(apiKey);
      }
      if i == |inputs| {
        return InputClosed;
      }
      var retry := Lower(Strip(inputs[i]));
      assert inputs[i - 1..][2..] == inputs[i + 1..];
      i := i + 1;
      if retry !in RetryAnswers {
        return GaveUp;
      }
    }
  }

  // ---- initialize_openai --------------------------------------------------

  /** How `initialize_openai()` ends; `Aborted` is the exception `input()`
      raises at end of input, which nothing catches. */
  datatype InitEnd = Initialized | NotInitialized | Aborted

  /** The module globals `initialize_openai` assigns, and the process
      environment's `OPENAI_API_KEY`. A client is represented by the key it
      was built with. */
  class OpenAiSetup {
    var environmentKey: Option<string>
    var openaiClient: Option<string>
    var openaiApiKey: Option<string>

    constructor(environmentKey: Option<string>)
      ensures this.environmentKey == environmentKey
      ensures openaiClient == None && openaiApiKey == None
    {
      this.environmentKey := environmentKey;
      openaiClient := None;
      openaiApiKey := None;
    }

    /** `clientFails(k)` says whether `OpenAI(api_key=k)` raises. */
    method InitializeOpenAI(clientFails: string -> bool, inputs: seq<string>, keyWorks: string -> bool)
      returns (r: InitEnd)
      modifies this
      ensures var env := old(environmentKey);
        env.Some? && env.value != "" && !clientFails(env.value) ==>
          r == Initialized && openaiClient == env &&
          openaiApiKey == old(openaiApiKey) && environmentKey == env
      ensures var env := old(environmentKey);
        !(env.Some? && env.value != "" && !clientFails(env.value)) ==>
          match KeyDialog(inputs, keyWorks)
          case ProvidedKey(k) =>
            if clientFails(k) then
              r == NotInitialized && openaiClient == old(openaiClient) &&
              openaiApiKey == old(openaiApiKey) && environmentKey == env
            else
              r == Initialized && openaiClient == Some(k) && openaiApiKey == Some(k) && environmentKey == Some(k)
          case GaveUp =>
            r == NotInitialized && openaiClient == old(openaiClient) &&
            openaiApiKey == old(openaiApiKey) && environmentKey == env
          case InputClosed =>
            r == Aborted && openaiClient == old(openaiClient) &&
            openaiApiKey == old(openaiApiKey) && environmentKey == env
      ensures r == Initialized ==> openaiClient.Some?
    {
      var apiKey := environmentKey;
      if apiKey.Some? && apiKey.value != "" {
        if !clientFails(apiKey.value) {
          openaiClient := apiKey;
          return Initialized;
        }
      }
      var answer := GetApiKeyFromUser(inputs, keyWorks);
      match answer
      case InputClosed =>
        r := Aborted;
      case GaveUp =>
        r := NotInitialized;
      case ProvidedKey(k) =>
        // a key the dialog returns is never empty, so `if api_key:` holds
        if clientFails(k) {
          r := NotInitialized;
        } else {
          openaiClient := Some(k);
          openaiApiKey := Some(k);
          environmentKey := Some(k);
          r := Initialized;
        }
    }
  }

  // ---- position_instructions ----------------------------------------------

  /** The focus paragraphs of the prompt, one per key of `position_instructions`. */
  datatype Focus = Tech | Management | Sales | Marketing | Finance | Hr | Design | General

  const PositionInstructions: map<string, Focus> := map[
    "tech" := Tech, "management" := Management, "sales" := Sales,
    "marketing" := Marketing, "finance" := Finance, "hr" := Hr,
    "design" := Design, "general" := General]

  /** `position_instructions.get(position_type, position_instructions["general"])`. */
  function PositionFocus(positionType: string): (f: Focus)
    ensures positionType in PositionInstructions ==> f == PositionInstructions[positionType]
    ensures positionType !in PositionInstructions ==> f == General
  {
    if positionType in PositionInstructions then PositionInstructions[positionType] else General
  }

  /** The key of `position_instructions` that names a focus. */
  function FocusKey(f: Focus): string
  {
    match f
    case Tech => "tech"
    case Management => "management"
    case Sales => "sales"
    case Marketing => "marketing"
    case Finance => "finance"
    case Hr => "hr"
    case Design => "design"
    case General => "general"
  }

  /** Every known position type selects its own focus, and the keys are
      exactly the focus names. */
  lemma PositionFocusOfKey(f: Focus)
    ensures FocusKey(f) in PositionInstructions
    ensures PositionFocus(FocusKey(f)) == f
  {
  }

  /** The lookup is case-sensitive: an unknown spelling falls back to `general`. */
  lemma UnknownPositionIsGeneral()
    ensures PositionFocus("Tech") == General
    ensures PositionFocus("") == General
    ensures PositionFocus("it") == General
  {
    assert "Tech" !in PositionInstructions;
    assert "" !in PositionInstructions;
    assert "it" !in PositionInstructions;
  }

  // ---- process_cv_with_openai ---------------------------------------------

  /** What the prompt is built from. */
  datatype Prompt = Prompt(positionType: string, focus: Focus, rawData: string)

  /** The chat-completion call: the message content (which may be None), or
      the exception's text. */
  datatype Completion = Completed(content: Option<string>) | CompletionFailed(error: string)

  const NotConfiguredMessage: string := "OpenAI API ključ nije konfiguriran"

  /** `process_cv_with_openai(raw_data, position_type)`; `complete` stands for
      the OpenAI call. The ensures only describe that outside call, passed
      through; what the client makes of each answer is proved in `Session`. */
  function ProcessCvWithOpenAI(clientReady: bool, rawData: string, positionType: string,
                               complete: Prompt -> Completion): (r: Option<string>)
    ensures !clientReady ==> r == Some(NotConfiguredMessage)
    ensures clientReady ==>
      var c := complete(Prompt(positionType, PositionFocus(positionType), rawData));
      (c.Completed? ==> r == c.content) &&
      (c.CompletionFailed? ==> r == Some("Greška pri obradi s OpenAI: " + c.error))
  {
    if !clientReady then Some(NotConfiguredMessage)
    else
      var prompt := Prompt(positionType, PositionFocus(positionType), rawData);
      match complete(prompt)
      case Completed(content) => content
      case CompletionFailed(e) => Some("Greška pri obradi s OpenAI: " + e)
  }

  // ---- upload_cv ----------------------------------------------------------

  /** The multipart request: the file part's filename (None when there is no
      `file` part) and the `position_type` field. */
  datatype UploadForm = UploadForm(fileName: Option<string>, positionType: Option<string>)

  /** What `extract_cv_data` returns. */
  datatype Extraction = Extracted(rawData: string, markdown: string, text: string) | ExtractionFailed(error: string)

  /** `request.form.get('position_type', 'general')`. */
  function PositionTypeOf(form: UploadForm): string
  {
    if form.positionType.Some? then form.positionType.value else "general"
  }

  /** `upload_cv()`. `raised` is the text of an exception raised while the
      request is read or the upload saved to a temporary file (lines 200-210,
      all inside the `try` of line 198): Werkzeug's 413 for a body over
      `MAX_CONTENT_LENGTH` is raised by the first read of `request.files`, so
      it wins over the file checks, while a failed save can only follow them.
      `extraction` is what the extractor returns for the saved file;
      `clientReady` says whether `openai_client` is set. */
  function UploadCv(form: UploadForm, raised: Option<string>, extraction: Extraction,
                    clientReady: bool, complete: Prompt -> Completion): (resp: HttpResponse)
    ensures raised.Some? ==> resp == HttpResponse(500, ErrorBody("Nepredviđena greška: " + raised.value))
    ensures raised.None? && form.fileName.None? ==> resp == HttpResponse(400, ErrorBody("Nema datoteke"))
    ensures raised.None? && form.fileName == Some("") ==> resp == HttpResponse(400, ErrorBody("Nema odabrane datoteke"))
    ensures raised.None? && form.fileName.Some? && form.fileName.value != "" && extraction.ExtractionFailed? ==>
      resp == HttpResponse(500, ErrorBody("Greška pri izvlačenju: " + extraction.error))
    ensures resp.status == 200 <==>
      form.fileName.Some? && form.fileName.value != "" && raised.None? && extraction.Extracted?
    ensures resp.status in {200, 400, 500}
    ensures resp.status == 200 ==>
      && resp.body.success && resp.body.error.None?
      && resp.body.rawData == Some(extraction.rawData)
      && resp.body.originalMarkdown == Some(extraction.markdown)
      && resp.body.text == Some(extraction.text)
      && resp.body.fileName == form.fileName
      && (!clientReady ==> resp.body.processedMarkdown == Some(extraction.markdown))
      && (clientReady ==>
            resp.body.processedMarkdown ==
            ProcessCvWithOpenAI(true, extraction.rawData, PositionTypeOf(form), complete))
    ensures resp.status != 200 ==> !resp.body.success && resp.body.error.Some?
  {
    if raised.Some? then HttpResponse(500, ErrorBody("Nepredviđena greška: " + raised.value))
    else if form.fileName.None? then HttpResponse(400, ErrorBody("Nema datoteke"))
    else if form.fileName.value == "" then HttpResponse(400, ErrorBody("Nema odabrane datoteke"))
    else
      var positionType := PositionTypeOf(form);
      match extraction
      case ExtractionFailed(e) => HttpResponse(500, ErrorBody("Greška pri izvlačenju: " + e))
      case Extracted(rawData, markdown, text) =>
        var processed := if clientReady then ProcessCvWithOpenAI(true, rawData, positionType, complete)
                         else Some(markdown);
        HttpResponse(200, ResponseBody(true, None, Some(rawData), processed, Some(markdown), Some(text), form.fileName))
  }
}
