# CV parser: a Dafny model

This project models the CV parser application. A browser client
(`static/cv_script.js`) lets the user pick a CV file, checks it, uploads it
to a Flask server (`cv_parser_app.py`), and shows the markdown profile that
comes back, rendered as HTML. The server extracts the document's data and,
when an OpenAI client is configured, has it rewritten as a markdown profile
for a chosen position type.

The modules are:

- `Wrappers`: the `Option` type.
- `Text`: substring occurrences, the leftmost-greedy span of a two-delimiter
  regular expression, and ASCII lower-casing.
- `Markdown`: `markdownToHtml`. Its eleven regular-expression replacements
  are composed in the code's order. Lines are delimited the way JavaScript
  regular expressions delimit them, by any of `\n`, `\r`, U+2028 and U+2029.
- `Protocol`: the JSON bodies of `/api/upload-cv`, and how the browser
  receives a response (`response.ok`).
- `CvClient`: the file checks and export names as functions, and the
  `CVParserApp` object as a class. The class keeps the code's two fields,
  `selectedFile` and `processingResults`, and its methods change them as the
  code does.
- `CvServer`: Python's `str.strip()`, the API-key format checks, the retry
  answers, and the `while True` key dialog as a loop. It also covers
  `initialize_openai` as a class over the module globals, the
  `position_type` lookup, `process_cv_with_openai`, and the response
  `upload_cv` chooses.
- `Session`: the server's responses as the client classifies them.
- `MarkdownExample`: one text followed through every rule of
  `markdownToHtml`. It has a heading, a blank line, a paragraph with a bold
  and an italic span, and two list items.

Some behaviour comes from outside the code, and the model takes it as
parameters:

- the lines typed at the console;
- whether an OpenAI key passes its test call;
- whether building the client raises;
- what the chat completion returns;
- what the document extractor returns;
- the text of an exception raised while the request is read or the upload saved;
- what the browser's `fetch` yields.

Two functions only pass such behaviour on, so they have no row of their own:

- `Protocol.Deliver` is how `fetch` presents a response (static/cv_script.js:143-150):
  the body as sent, and `response.ok` for a 2xx status.
  `Session.OkAgreesWithSuccess` proves that for every response of the
  endpoint, `response.ok` holds exactly when the body says `success`.
- `CvServer.ProcessCvWithOpenAI` (cv_parser_app.py:111-188) hands the
  completion's content on, or the error text after its fixed prefix.
  `Session.NullCompletionStored` and `Session.OpenAiFailureStored` prove
  what the client then keeps. `CvServer.PositionFocus` covers the
  instruction lookup of line 127.

The model follows the code in these places:

- `removeFile` clears only the selection. A result already shown stays in
  `processingResults`, so a later download raises a `TypeError` on the null
  selection (`ExportThrew`).
- `processCV` has no guard against a second submission and no discarding of
  a response that arrives after the file was removed.
- After the newline rules, the two paragraph rules act only at the two ends
  of the string if the input has no `\r`, U+2028 or U+2029. That is
  `Markdown.ParagraphRulesActAtEnds`. Any of those three still separates
  lines for `^` and `$`.
- The `<ul>` rule has no `g` flag and uses `s`. It wraps one span, from the
  first `<li>` to the last `</li>` in the whole text.

## Model

| member | source | states |
|---|---|---|
| Text.FindPair | static/cv_script.js:210-213 | the span found is a pair of delimiters with none of the opening ones before it and none of the closing ones after it; no span is found only when no pair exists at all |
| Text.GreedyPairUnique | static/cv_script.js:210-213 | at most one span is leftmost-greedy, so the replacement a greedy pattern makes is determined |
| Text.GreedyPairExists | static/cv_script.js:210-213 | whenever some delimiter pair exists, a leftmost-greedy one exists |
| Text.Lower | static/cv_script.js:62 | the result has the input's length; each ASCII capital becomes its small letter, every other character is kept, and no ASCII capital is left |
| Markdown.MapLines | static/cv_script.js:207-212 | no contract of its own: `Markdown.MapLinesCons` proves a line-wise rule acts on the first line and the rest separately, keeping the terminator between them; `Markdown.MapLinesOfLine` that a text without a terminator is one line; `Markdown.MapLinesFusion` that two line-wise rules in a row are one rule per line |
| Markdown.MapLinesCons | static/cv_script.js:207-212 | a line-wise rule maps the first line, keeps its terminator, and goes on with the rest |
| Markdown.MapLinesOfLine | static/cv_script.js:207-212 | on a text without a line terminator a line-wise rule acts once, on the whole text |
| Markdown.MapLinesFusion | static/cv_script.js:207-212 | two line-wise rules applied one after the other equal their composition applied per line, when the first keeps each line a single line |
| Markdown.MapLinesKeepsOut | static/cv_script.js:207-212 | a character that the rule never adds to a single line stays absent from the whole text |
| Markdown.Prefixed | static/cv_script.js:207-209 | no contract of its own: `Markdown.HeadingRulesOnLine` and `Markdown.ListItemOnLine` prove what a marked line becomes; `Markdown.PrefixedKeepsOut` that it adds no character missing from the line and the tags |
| Markdown.H1Line | static/cv_script.js:207 | no contract of its own: `Markdown.HeadingRulesOnLine` proves `# t` becomes `<h1>t</h1>` |
| Markdown.H2Line | static/cv_script.js:208 | no contract of its own: `Markdown.HeadingRulesOnLine` proves `## t` becomes `<h2>t</h2>` |
| Markdown.H3Line | static/cv_script.js:209 | no contract of its own: `Markdown.HeadingRulesOnLine` proves `### t` becomes `<h3>t</h3>` |
| Markdown.ListItemLine | static/cv_script.js:212 | no contract of its own: `Markdown.ListItemOnLine` proves `- t` becomes `<li>t</li>` |
| Markdown.StrongLine | static/cv_script.js:210 | no contract of its own: `Markdown.Enclose` states the replacement, `Markdown.StrongIsGreedy` the greedy span |
| Markdown.EmLine | static/cv_script.js:211 | no contract of its own: `Markdown.Enclose` states the replacement, `MarkdownExample.EmOnLine` one `<em>` span on a line |
| Markdown.OpenParagraph | static/cv_script.js:216 | no contract of its own: `Markdown.ParagraphRulesTagEnds` and `Markdown.ParagraphClassQuirks` state what it does |
| Markdown.CloseParagraph | static/cv_script.js:217 | no contract of its own: `Markdown.ParagraphRulesTagEnds` states what it does |
| Markdown.ParagraphRulesTagEnds | static/cv_script.js:216-217 | after the paragraph rules a line starts with `<` and ends with `>`, and a second `</p>` rule adds nothing |
| Markdown.ParagraphClassQuirks | static/cv_script.js:216 | the character class of line 216 holds the bar character as well as `h`, `u` and `l`, so a line starting with `<` and a bar is spared, while lines opening with `<strong>` or `<em>` still get `<p>` |
| Markdown.Flattened | static/cv_script.js:207-215 | no contract of its own: `Markdown.FlattenedKeepsOut` proves no line terminator is introduced, and `MarkdownExample.FlattenedShape` gives its value on the sample shape |
| Markdown.MarkdownToHtml | static/cv_script.js:204-218 | no contract of its own: `Markdown.NoNewlineInOutput` is proved for every input, `Markdown.ParagraphRulesActAtEnds` for every input without `\r`, U+2028 or U+2029, and `MarkdownExample.RenderExample` for one concrete text |
| Markdown.Enclose | static/cv_script.js:210-211 | a line without a delimiter pair is unchanged; otherwise the leftmost-greedy span is replaced by the open tag, the text between the delimiters and the close tag, and the rest of the line is kept |
| Markdown.EncloseAt | static/cv_script.js:210-211 | the leftmost-greedy span is exactly the one the emphasis rules replace |
| Markdown.StrongIsGreedy | static/cv_script.js:210 | a line that starts and ends with `**` is bold from end to end, so `**a** and **b**` becomes one `<strong>` span holding `a** and **b` |
| Markdown.WrapList | static/cv_script.js:213 | without an `<li>` … `</li>` span the text is unchanged; with one, a single `<ul>` goes before the first `<li>` and a single `</ul>` after the last `</li>` |
| Markdown.ListItemOnLine | static/cv_script.js:212 | a line starting `- ` becomes `<li>` + the rest of the line + `</li>` |
| Markdown.ListItemOpensWrap | static/cv_script.js:212-213 | any complete line starting `- ` leaves an `<li>` … `</li>` span after the list rule, so the `<ul>` wrap fires |
| Markdown.BlankLinesToParagraphs | static/cv_script.js:214 | no two newlines in a row are left; text without a newline is unchanged |
| Markdown.NewlinesToBreaks | static/cv_script.js:215 | no newline is left; text without a newline is unchanged |
| Markdown.HeadingRulesFuse | static/cv_script.js:207-209 | the three heading rules, each run over every line, equal one combined rule run once per line |
| Markdown.HeadingRulesOnLine | static/cv_script.js:207-209 | a `# ` line becomes `<h1>` before the `## ` rule runs and is left alone by the later rules; `## ` gives `<h2>`, `### ` gives `<h3>` |
| Markdown.FlattenedKeepsOut | static/cv_script.js:207-215 | the replacements up to the newline rules introduce no line terminator |
| Markdown.NoNewlineInOutput | static/cv_script.js:204-218 | the rendered markup contains no newline, whatever the markdown |
| Markdown.ParagraphRulesActAtEnds | static/cv_script.js:214-217 | for markdown without `\r`, U+2028 or U+2029, `<p>` can be added only at the very start and `</p>` only at the very end |
| MarkdownExample.LineRulesFuse | static/cv_script.js:207-212 | the six line-wise rules before the `<ul>` wrap, each run over every line, equal one combined rule run once per line |
| MarkdownExample.HeadingLineRules | static/cv_script.js:207-212 | `# t`, with no `*`, `<` or terminator in `t`, becomes `<h1>t</h1>` under the six line-wise rules |
| MarkdownExample.ItemLineRules | static/cv_script.js:207-212 | `- t`, with no `*`, `<` or terminator in `t`, becomes `<li>t</li>` under the six line-wise rules |
| MarkdownExample.StrongOnLine | static/cv_script.js:210 | a line `a**b**R`, with no `*` in `a` and no `**` starting inside `*R` (so `R` may be empty), gets exactly one `<strong>` span, around `b` |
| MarkdownExample.EmOnLine | static/cv_script.js:211 | `S*d*e` with no `*` in `S` or `e` gets exactly one `<em>` span, around `d` |
| MarkdownExample.EmphasisLineRules | static/cv_script.js:207-212 | a line `a**b**c*d*e` not starting with `#` or `-` gets `<strong>` around `b` and `<em>` around `d` and nothing else |
| MarkdownExample.LinesStage | static/cv_script.js:207-212 | the line-wise rules on five lines, the second empty, map each line on its own |
| MarkdownExample.WrapStage | static/cv_script.js:213 | with no `<l` in the heading or the paragraph, `<ul>` goes right before the first item and `</ul>` right after the last |
| MarkdownExample.BlankStage | static/cv_script.js:214 | the blank line becomes `</p><p>` and the single newlines stay |
| MarkdownExample.BreakStage | static/cv_script.js:215 | the remaining newlines become `<br>` |
| MarkdownExample.HeadingFirst | static/cv_script.js:216-217 | a text that starts with the `<h1>` heading and ends with `</ul>` gets no paragraph tags |
| MarkdownExample.FlattenedShape | static/cv_script.js:207-215 | for any heading, paragraph with one bold and one italic span, and two items of plain text, the rules before the paragraph rules give heading, `</p><p>`, paragraph, `<br>`, and the items inside one `<ul>` joined by `<br>` |
| MarkdownExample.RenderShape | static/cv_script.js:204-218 | `markdownToHtml` of that shape is the same text: the paragraph rules add nothing to it |
| MarkdownExample.RenderExample | static/cv_script.js:204-218 | `# Title`, a blank line, `Some **bold** and *italic* text.`, `- item one` and `- item two` render as `<h1>Title</h1></p><p>Some <strong>bold</strong> and <em>italic</em> text.<br><ul><li>item one</li><br><li>item two</li></ul>` |
| CvClient.AfterLastDot | static/cv_script.js:62 | no contract of its own: `CvClient.AfterLastDotParts` proves the text has no `.` and is the whole name or follows a `.` |
| CvClient.AfterLastDotParts | static/cv_script.js:62 | what `split('.').pop()` keeps is a tail of the name that holds no `.`, and is either the whole name or preceded by a `.` |
| CvClient.ExtensionOf | static/cv_script.js:62 | no contract of its own: `CvClient.ExtensionAfterLastDot`, `CvClient.ExtensionWithoutDot` and the two examples below state it |
| CvClient.ExtensionAfterLastDot | static/cv_script.js:62 | the extension is `.` plus the lower-cased text after the last `.` |
| CvClient.ExtensionWithoutDot | static/cv_script.js:62 | a name without `.` is its own extension, lower-cased, after a `.` |
| CvClient.UpperPdfExtension | static/cv_script.js:62 | the name `PDF` has extension `.pdf` |
| CvClient.PdfAfterTwoDots | static/cv_script.js:62 | `my.cv.pdf` has extension `.pdf` |
| CvClient.SelectErrorMessage | static/cv_script.js:64-71 | no contract of its own: the two messages `handleFileSelect` shows; `CvClient.CVParserApp.HandleFileSelect` states when each is shown |
| CvClient.CheckFile | static/cv_script.js:57-73 | a file passes exactly when its extension is one of the eight allowed ones and its size is at most 50 MiB; a bad extension is reported with that extension even for an oversized file, and only a file with an allowed extension can be reported too large |
| CvClient.SizeCeiling | static/cv_script.js:68-75 | with an allowed extension, a size of exactly 50·1024·1024 bytes passes and one byte more is too large |
| CvClient.DotlessNameAccepted | static/cv_script.js:62-75 | a file named `PDF` of the maximal size passes |
| CvClient.BeforeFirstDot | static/cv_script.js:278 | no contract of its own: `CvClient.BeforeFirstDotParts`, `CvClient.BaseBeforeFirstDot` and `CvClient.BaseWithoutDot` state it |
| CvClient.BeforeFirstDotParts | static/cv_script.js:278 | what `split('.')[0]` keeps holds no `.`, and is either the whole name or followed by a `.` |
| CvClient.BaseBeforeFirstDot | static/cv_script.js:278 | the export base name is the text before the first `.` |
| CvClient.BaseWithoutDot | static/cv_script.js:278 | a name without `.` is its own base name |
| CvClient.MarkdownFileName | static/cv_script.js:278 | no contract of its own: `CvClient.ExportNames` states it |
| CvClient.HtmlFileName | static/cv_script.js:308 | no contract of its own: `CvClient.ExportNames` states it |
| CvClient.ExportNames | static/cv_script.js:275-311 | the markdown export is named base + `_processed.md` and the HTML export base + `_profile.html`, so `resume.pdf` gives `resume_processed.md` |
| CvClient.FirstDotAndLastDot | static/cv_script.js:278 | for `my.cv.pdf` the export name stops at the first dot (`my_processed.md`), while the extension check of line 62 reads past the last one (`.pdf`) |
| CvClient.FailureMessage | static/cv_script.js:153 | the message is never empty: the server's error when it is a non-empty string, the default text otherwise |
| CvClient.Classify | static/cv_script.js:143-158 | the result is kept exactly when `response.ok` and `success` both hold, and then unchanged; a thrown exception gives the network message; any other response gives the failure message |
| CvClient.ReportedErrors | static/cv_script.js:150-155 | every non-empty server error is shown word for word, whatever the status; an empty error gives the default text, and so does a success flag on a non-2xx response |
| CvClient.CVParserApp.constructor | static/cv_script.js:4-7 | no file is selected and no result is held |
| CvClient.CVParserApp.HandleFileSelect | static/cv_script.js:54-78 | no file changes nothing and shows nothing; a file that fails a check shows that check's message and leaves the selection; a file that passes becomes the selection; the result is never touched, and a selected file has always passed the checks |
| CvClient.CVParserApp.RemoveFile | static/cv_script.js:102-114 | the selection is cleared and the held result is kept |
| CvClient.CVParserApp.DisplayResults | static/cv_script.js:164-192 | the result is stored first; its markdown is shown rendered by `markdownToHtml`, with the raw data and the text beside it; a null markdown throws after the result is stored |
| CvClient.CVParserApp.ProcessCV | static/cv_script.js:126-162 | with no selection no request is made and the no-file message is shown; the held result changes only when the outcome is kept; a report leaves it as it was; a kept result whose markdown is null ends in the network message |
| CvClient.CVParserApp.DownloadMarkdown | static/cv_script.js:275-281 | with no result nothing happens; with a result but no selection it throws; otherwise it exports the processed markdown, with null written as `null`, under the markdown export name as `text/markdown` |
| CvClient.CVParserApp.DownloadHtml | static/cv_script.js:283-311 | with no result nothing happens; a null markdown or no selection throws; otherwise it exports the rendered markup inside the fixed document shell under the HTML export name as `text/html` |
| CvClient.BlobText | static/cv_script.js:277-279 | no contract of its own: how a null processed markdown is written out; `CvClient.CVParserApp.DownloadMarkdown` and `CvClient.CVParserApp.CopyToClipboard` state where it is used |
| CvClient.CVParserApp.CopyToClipboard | static/cv_script.js:313-322 | with no result nothing is copied; otherwise the processed markdown is copied as text, with null written as `null` |
| CvServer.Strip | cv_parser_app.py:33 | the result is a slice of the input, with only whitespace cut from each end, and neither starts nor ends with whitespace |
| CvServer.StripPadded | cv_parser_app.py:33 | stripping removes exactly the whitespace around a text that neither starts nor ends with whitespace |
| CvServer.KeyProblemOf | cv_parser_app.py:35-45 | no contract of its own: `CvServer.KeyFormat` states it |
| CvServer.KeyFormat | cv_parser_app.py:35-45 | a key passes exactly when it starts with `sk-` and has at least 20 characters; an empty key is reported as empty, one without the prefix as such, and a short one as too short |
| CvServer.WantsRetry | cv_parser_app.py:56-57 | no contract of its own: `CvServer.RetryAnswer` and the four examples below state it |
| CvServer.RetryAnswer | cv_parser_app.py:56-57 | the retry answer is compared after stripping and lower-casing with `d`, `da`, `y`, `yes` |
| CvServer.PaddedDaRetries | cv_parser_app.py:56-57 | ` Da ` asks for another try |
| CvServer.UpperYesRetries | cv_parser_app.py:56-57 | `YES` followed by a newline asks for another try |
| CvServer.RefusalEndsDialog | cv_parser_app.py:56-58 | `n` ends the dialog |
| CvServer.EmptyAnswerEndsDialog | cv_parser_app.py:56-58 | an empty answer ends the dialog |
| CvServer.KeyDialog | cv_parser_app.py:32-58 | no contract of its own: `CvServer.DialogRound`, `CvServer.DialogKeyIsChecked` and `CvServer.DialogGivesUpOnAnswer` state it, and `CvServer.GetApiKeyFromUser` is proved to end as it does |
| CvServer.DialogRound | cv_parser_app.py:32-58 | a line failing the format checks is skipped; a well-formed key that works is returned; a well-formed key that fails is followed by the retry answer, and past the last line the dialog ends with end of input |
| CvServer.DialogKeyIsChecked | cv_parser_app.py:32-53 | a key the dialog returns is a typed line with its whitespace stripped, passes all three format checks, and passed the test call |
| CvServer.DialogGivesUpOnAnswer | cv_parser_app.py:54-58 | the dialog gives up only when some typed line is a well-formed key that failed the live test and the line typed right after it is outside the retry set |
| CvServer.GetApiKeyFromUser | cv_parser_app.py:22-58 | the loop ends exactly as the dialog over the typed lines does: a working key, giving up, or end of input |
| CvServer.OpenAiSetup.constructor | cv_parser_app.py:17-20 | no client and no stored key at start |
| CvServer.OpenAiSetup.InitializeOpenAI | cv_parser_app.py:60-88 | a non-empty environment key whose client builds is used and nothing else changes; otherwise the dialog runs. A returned key whose client builds is stored as client, global and environment key; an unbuildable key or giving up leaves all state as it was and reports failure; end of input aborts |
| CvServer.PositionFocus | cv_parser_app.py:116-127 | a known position type selects its own instruction; any other string selects the general one |
| CvServer.PositionFocusOfKey | cv_parser_app.py:116-127 | every instruction is selected by its own key |
| CvServer.UnknownPositionIsGeneral | cv_parser_app.py:127 | the lookup is case-sensitive: `Tech`, `it` and the empty string fall back to general |
| CvServer.PositionTypeOf | cv_parser_app.py:214 | no contract of its own: the form's `position_type`, or `general` when absent; `CvServer.UploadCv` states where it is used |
| CvServer.UploadCv | cv_parser_app.py:196-244 | an exception raised while the request is read or the upload saved gives 500 `Nepredviđena greška: ` + its text, and takes precedence over the file checks; otherwise no file part gives 400 `Nema datoteke`, an empty file name gives 400 `Nema odabrane datoteke`, and a failed extraction gives 500 with its prefixed message; the status is 200 exactly when none of these happens, and an error response never claims success. Then the body holds success, the raw data, the original markdown, the text and the file name, and its processed markdown is the OpenAI output (position type defaulting to `general`) if a client exists, else the extracted markdown |
| Session.ServerErrorsShownVerbatim | cv_parser_app.py:200-244 | every error response the endpoint sends reaches the user with the server's own message, never the client's default |
| Session.MissingFileReported | cv_parser_app.py:200-201 | a request without a file part, read without an exception, ends with `Nema datoteke` shown to the user |
| Session.RaisedErrorShown | cv_parser_app.py:198-244 | an exception raised while reading or saving the upload reaches the user as `Nepredviđena greška: ` + its text, whatever the form holds |
| Session.OkAgreesWithSuccess | cv_parser_app.py:196-244 | for every response of the endpoint, the browser's `response.ok` holds exactly when the body carries `success` |
| Session.OpenAiFailureStored | cv_parser_app.py:187-188 | a failed completion still gives a 200 response; the client keeps it, and its processed markdown is the error text after `Greška pri obradi s OpenAI: ` |
| Session.SuccessStored | cv_parser_app.py:223-236 | every 200 response is kept by the client as sent, and without a client its processed markdown is the extracted markdown |
| Session.NullCompletionStored | cv_parser_app.py:186 | a completion without content still gives a 200 response, with a null processed markdown, which the client keeps |

## Left out

- DOM wiring and display: event listeners, `displayFileInfo`, `switchTab`, `showLoading`/`hideLoading`, button enabling, `hideResults`, scrolling. `showError` is modelled as the message it would show.
- `formatFileSize`: floating-point formatting with `Math.log`, `Math.pow` and `toFixed`.
- `fetch`, `FormData` and `response.json()`: network I/O. Their result is the `RequestOutcome` parameter. A thrown `fetch` or `response.json()` is the `Threw` outcome.
- The 413 of Flask's 50 MiB `MAX_CONTENT_LENGTH` (cv_parser_app.py:15) is not an outcome of its own. Werkzeug raises it when `request.files` is first read at line 200, inside the `try` of line 198, so lines 243-244 answer with a JSON 500 `Nepredviđena greška: 413 …`. In the model that is a `raised` text of `CvServer.UploadCv`, which the user sees word for word (`Session.RaisedErrorShown`). The limit counts the whole multipart body, so a file of exactly 50 MiB passes `CvClient.SizeCeiling` and is still refused by the server.
- The position-type drop-down value the client sends: I/O from the page.
- `downloadFile`, `Blob` and object URLs: browser primitives. The model stops at the name, text and MIME type handed to them.
- The `navigator.clipboard` promise and its notification: asynchronous browser work. The timed auto-dismiss of banners is left out too.
- `JSON.stringify(rawData, null, 2)` in the raw-data pane: raw structured data is carried as its JSON text.
- Flask routing, `tempfile`, `os.unlink` cleanup, `DocumentExtractor` and the OpenAI client: foreign libraries and I/O. Each becomes a parameter: a raised exception's text, an `Extraction` value, `keyWorks`, `clientFails` and `complete`. These are fixed functions, so a key is assumed to test the same way each time it is tried.
- The prompt text, the model settings and the JSON dump of the raw data sent to OpenAI: the prompt is represented by its position type, its instruction and the raw data.
- Console output (`print`) and prompts: only the lines read by `input()` are modelled.
- `health_check`, `index` and the `__main__` start-up block: route glue and process start-up, outside the modelled rules.
- A file part whose file name is absent (`None`) rather than empty: not modelled. `UploadForm.fileName` is None only when there is no `file` part.
- JSON `null` and an absent `processed_markdown` key are both None. The server always sends the key, so only the `null` text of a Blob is modelled.
- CvClient.CheckFile: `toLowerCase` is modelled on ASCII letters only. No non-ASCII character lower-cases into an allowed extension, so acceptance is unchanged. The extension quoted in the error message can differ for non-ASCII names.
- CvServer.RetryAnswer: `lower()` is modelled on ASCII letters only. No non-ASCII character lower-cases into `d`, `da`, `y` or `yes`, so the decision is unchanged.
- Concurrency: the code has no guard against overlapping submissions beyond disabling the button, so none is modelled.
