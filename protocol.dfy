/** The JSON bodies that the upload endpoint returns and the browser client
    reads (cv_parser_app.py:200-244, static/cv_script.js:143-158). */
module Protocol {
  import opened Wrappers

  /** A JSON object from `/api/upload-cv`. An absent key reads as None, and an
      absent `success` as false; `processedMarkdown` is also None when the
      server sent `null`. Raw structured data travels as its JSON text. */
  datatype ResponseBody = ResponseBody(
    success: bool,
    error: Option<string>,
    rawData: Option<string>,
    processedMarkdown: Option<string>,
    originalMarkdown: Option<string>,
    text: Option<string>,
    fileName: Option<string>)

  /** `jsonify({'error': message})`. */
  function ErrorBody(message: string): ResponseBody
  {
    ResponseBody(false, Some(message), None, None, None, None, None)
  }

  datatype HttpResponse = HttpResponse(status: nat, body: ResponseBody)

  /** What `await fetch(…)` followed by `await response.json()` yields: a parsed
      body together with `response.ok`, or a thrown exception (a transport
      failure or a body that is not JSON). */
  datatype RequestOutcome = Threw | Responded(ok: bool, body: ResponseBody)

  /** A JSON response as the browser sees it: `response.ok` is a 2xx status.
      The ensures describe the browser's own behaviour, passed through; what
      the client makes of each response is proved in `Session`. */
  function Deliver(r: HttpResponse): (o: RequestOutcome)
    ensures o.Responded? && o.body == r.body
    ensures o.ok <==> 200 <= r.status <= 299
  {
    Responded(200 <= r.status <= 299, r.body)
  }
}
