/** The browser client reading what the upload endpoint returns: the server's
    response rules (cv_parser_app.py:196-244) composed with the client's
    outcome rules (static/cv_script.js:139-165). */
module Session {
  import opened Wrappers
  import opened Protocol
  import CvClient
  import CvServer

  /** Every error response of the endpoint reaches the user with the server's
      own message, never the client's default. */
  lemma ServerErrorsShownVerbatim(form: CvServer.UploadForm, raised: Option<string>,
                                  extraction: CvServer.Extraction, clientReady: bool,
                                  complete: CvServer.Prompt -> CvServer.Completion)
    requires CvServer.UploadCv(form, raised, extraction, clientReady, complete).status != 200
    ensures var resp := CvServer.UploadCv(form, raised, extraction, clientReady, complete);
      CvClient.Classify(Deliver(resp)) == CvClient.Report(resp.body.error.value) &&
      resp.body.error.value != CvClient.DefaultFailureMessage
  {
    var resp := CvServer.UploadCv(form, raised, extraction, clientReady, complete);
    if raised.Some? {
      var m := "Nepredviđena greška: " + raised.value;
      assert resp.body.error.value == m;
      assert m[0] == 'N';
    } else if form.fileName.None? {
      assert resp.body.error.value == "Nema datoteke";
    } else if form.fileName.value == "" {
      assert resp.body.error.value == "Nema odabrane datoteke";
    } else {
      var m := "Greška pri izvlačenju: " + extraction.error;
      assert resp.body.error.value == m;
      assert m[0] == 'G';
      assert m[..5] == "Grešk";
      assert CvClient.DefaultFailureMessage[..5] == "Obrađ"[..5];
    }
  }

  /** The client's two conditions agree for this server: `response.ok` holds
      exactly when the body's `success` does, so neither check of
      `response.ok && result.success` ever decides alone. */
  lemma OkAgreesWithSuccess(form: CvServer.UploadForm, raised: Option<string>,
                            extraction: CvServer.Extraction, clientReady: bool,
                            complete: CvServer.Prompt -> CvServer.Completion)
    ensures var resp := CvServer.UploadCv(form, raised, extraction, clientReady, complete);
      Deliver(resp).ok <==> resp.body.success
  {
  }

  /** An exception raised while the request is read or saved, such as the 413
      for a body over the server's limit, reaches the user as the
      unexpected-error text whatever the form holds. */
  lemma RaisedErrorShown(form: CvServer.UploadForm, e: string,
                         extraction: CvServer.Extraction, clientReady: bool,
                         complete: CvServer.Prompt -> CvServer.Completion)
    ensures CvClient.Classify(Deliver(CvServer.UploadCv(form, Some(e), extraction, clientReady, complete)))
            == CvClient.Report("Nepredviđena greška: " + e)
  {
    var m := "Nepredviđena greška: " + e;
    assert m[0] == 'N';
  }

  /** A missing file part is reported as such. */
  lemma MissingFileReported(positionType: Option<string>,
                            extraction: CvServer.Extraction, clientReady: bool,
                            complete: CvServer.Prompt -> CvServer.Completion)
    ensures CvClient.Classify(Deliver(CvServer.UploadCv(CvServer.UploadForm(None, positionType),
                                                       None, extraction, clientReady, complete)))
            == CvClient.Report("Nema datoteke")
  {
  }

  /** A successful response is stored as sent, and without an OpenAI client its
      processed markdown is the extractor's own markdown. */
  lemma SuccessStored(form: CvServer.UploadForm, raised: Option<string>,
                      extraction: CvServer.Extraction, clientReady: bool,
                      complete: CvServer.Prompt -> CvServer.Completion)
    requires CvServer.UploadCv(form, raised, extraction, clientReady, complete).status == 200
    ensures var resp := CvServer.UploadCv(form, raised, extraction, clientReady, complete);
      && CvClient.Classify(Deliver(resp)) == CvClient.Store(resp.body)
      && (!clientReady ==> resp.body.processedMarkdown == Some(extraction.markdown))
  {
  }

  /** When the completion comes back without content the server still answers
      200 with a null `processed_markdown`, which the client stores. */
  lemma NullCompletionStored(fileName: string, positionType: Option<string>, rawData: string,
                             markdown: string, text: string,
                             complete: CvServer.Prompt -> CvServer.Completion)
    requires fileName != ""
    requires var pt := CvServer.PositionTypeOf(CvServer.UploadForm(Some(fileName), positionType));
      complete(CvServer.Prompt(pt, CvServer.PositionFocus(pt), rawData)) == CvServer.Completed(None)
    ensures var resp := CvServer.UploadCv(CvServer.UploadForm(Some(fileName), positionType), None,
                                         CvServer.Extracted(rawData, markdown, text), true, complete);
      && CvClient.Classify(Deliver(resp)) == CvClient.Store(resp.body)
      && resp.body.processedMarkdown == None
  {
  }

  /** A failed OpenAI call is not an HTTP error: the server still answers 200,
      with the error text as the processed markdown, and the client stores it
      as the profile to render. */
  lemma OpenAiFailureStored(fileName: string, positionType: Option<string>, rawData: string,
                            markdown: string, text: string, e: string,
                            complete: CvServer.Prompt -> CvServer.Completion)
    requires fileName != ""
    requires var pt := CvServer.PositionTypeOf(CvServer.UploadForm(Some(fileName), positionType));
      complete(CvServer.Prompt(pt, CvServer.PositionFocus(pt), rawData)) == CvServer.CompletionFailed(e)
    ensures var resp := CvServer.UploadCv(CvServer.UploadForm(Some(fileName), positionType), None,
                                         CvServer.Extracted(rawData, markdown, text), true, complete);
      && resp.status == 200
      && CvClient.Classify(Deliver(resp)) == CvClient.Store(resp.body)
      && resp.body.processedMarkdown == Some("Greška pri obradi s OpenAI: " + e)
  {
  }
}
