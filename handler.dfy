/** POST / (app.js:68-179): one webhook delivery in, the ordered remote calls
    the bot makes and the HTTP status it answers with out. */
module Handler {
  import opened Wrappers
  import JsText
  import Payload
  import Menu

  /** The three calls to the WhatsApp Cloud API, as the bot issues them. A
      text message carries one of the menu's static replies, whose words are
      `Menu.Text(reply)`. */
  datatype Action =
    | SendText(to: Option<string>, reply: Menu.Reply)
    | UploadMedia(path: string, mimeType: string)
    | SendDocument(to: Option<string>, mediaId: string, filename: string)

  /** How a text or document send ended; either way the bot goes on, because
      `sendMessage` and `sendDocumentById` log and drop their own errors. */
  datatype Sent = Sent | SendFailed

  /** How the upload ended: the media id the platform returned, or an error,
      which `uploadMedia` rethrows. */
  datatype Upload = Uploaded(mediaId: string) | UploadFailed

  /** The outcomes the platform would give the calls of one request. Only
      `upload` reaches the handler: `text` and `document` are here so that
      `SendFailuresIgnored` can state that their failures change nothing. */
  datatype Remote = Remote(text: Sent, upload: Upload, document: Sent)

  datatype Outcome = Outcome(trace: seq<Action>, status: int)

  const PdfPath := "comics.pdf"
  const PdfMimeType := "application/pdf"
  const PdfFilename := "./comics.pdf"

  /** The document flow of app.js:147-153: upload the PDF, then send it by the
      returned media id. A failed upload throws past the send into the local
      catch, so nothing else is attempted. */
  function SendPdf(to: Option<string>, upload: Upload): (t: seq<Action>)
    ensures |t| >= 1 && t[0] == UploadMedia(PdfPath, PdfMimeType)
    ensures upload.UploadFailed? ==> |t| == 1
    ensures upload.Uploaded? ==> t[1..] == [SendDocument(to, upload.mediaId, PdfFilename)]
  {
    match upload
    case Uploaded(id) => [UploadMedia(PdfPath, PdfMimeType), SendDocument(to, id, PdfFilename)]
    case UploadFailed => [UploadMedia(PdfPath, PdfMimeType)]
  }

  /** What the bot sends to `from` for the normalised body `body`
      (app.js:127-176): the one text reply of the first matching menu rule,
      then, for "4" only, the document flow. */
  function Respond(from: Option<string>, body: Option<string>, upload: Upload): (t: seq<Action>)
    ensures |t| >= 1 && t[0] == SendText(from, Menu.Lookup(Menu.Rules, body).reply)
    ensures forall i :: 0 < i < |t| ==> !t[i].SendText?
    ensures body != Some("4") ==> |t| == 1
    ensures body == Some("4") ==> t[1..] == SendPdf(from, upload)
  {
    Menu.DispatchFollowsRules(body);
    Menu.DocumentOnlyForFour(body);
    var choice := Menu.Dispatch(body);
    [SendText(from, choice.reply)] + (if choice.sendsDocument then SendPdf(from, upload) else [])
  }

  /** The handler. A delivery without a message is acknowledged at once;
      otherwise the sender gets the response to the message's normalised
      body. The answer is 200 in every case, whatever the platform made of
      the calls. */
  function HandlePost(d: Payload.Delivery, remote: Remote): (o: Outcome)
    ensures o.status == 200
    ensures o.trace == [] <==> !Payload.HasMessage(d)
    ensures Payload.HasMessage(d) ==>
      var m := Payload.FirstMessage(d).value;
      && o.trace[0] == SendText(m.from, Menu.Lookup(Menu.Rules, Payload.NormalizedBody(m)).reply)
      && (forall i :: 0 < i < |o.trace| ==> !o.trace[i].SendText?)
      && (Payload.NormalizedBody(m) != Some("4") ==> |o.trace| == 1)
      && (Payload.NormalizedBody(m) == Some("4") ==> o.trace[1..] == SendPdf(m.from, remote.upload))
  {
    match Payload.FirstMessage(d)
    case None => Outcome([], 200)
    case Some(m) => Outcome(Respond(m.from, Payload.NormalizedBody(m), remote.upload), 200)
  }

  /** The whole trace for "4": the list of departments, the upload, and the
      document only when the upload succeeded, carrying exactly the id the
      platform returned. */
  lemma FourTrace(d: Payload.Delivery, remote: Remote)
    requires Payload.HasMessage(d)
    requires Payload.NormalizedBody(Payload.FirstMessage(d).value) == Some("4")
    ensures var from := Payload.FirstMessage(d).value.from;
      HandlePost(d, remote).trace ==
        [SendText(from, Menu.Departments), UploadMedia(PdfPath, PdfMimeType)]
        + (if remote.upload.Uploaded? then [SendDocument(from, remote.upload.mediaId, PdfFilename)] else [])
  {
  }

  /** A document is sent only after an upload that succeeded, and only with
      the media id that upload returned. */
  lemma NoDocumentWithoutUpload(d: Payload.Delivery, remote: Remote, i: nat)
    requires i < |HandlePost(d, remote).trace|
    requires HandlePost(d, remote).trace[i].SendDocument?
    ensures remote.upload.Uploaded?
    ensures HandlePost(d, remote).trace[i].mediaId == remote.upload.mediaId
    ensures i > 0 && HandlePost(d, remote).trace[i - 1] == UploadMedia(PdfPath, PdfMimeType)
  {
    var t := HandlePost(d, remote).trace;
    var m := Payload.FirstMessage(d).value;
    var body := Payload.NormalizedBody(m);
    if body == Some("4") {
      FourTrace(d, remote);
    }
  }

  /** The failures `sendMessage` and `sendDocumentById` swallow change nothing:
      the trace and the status depend on the upload's outcome alone. */
  lemma SendFailuresIgnored(d: Payload.Delivery, r1: Remote, r2: Remote)
    requires r1.upload == r2.upload
    ensures HandlePost(d, r1) == HandlePost(d, r2)
  {
  }

  /** A message with no text body gets the catch-all reply. */
  lemma MissingBodyGetsInvalidOption(d: Payload.Delivery, remote: Remote)
    requires Payload.HasMessage(d)
    requires Payload.FirstMessage(d).value.text.None? || Payload.FirstMessage(d).value.text.value.body.None?
    ensures HandlePost(d, remote).trace == [SendText(Payload.FirstMessage(d).value.from, Menu.InvalidOption)]
  {
  }

  /** A greeting in any case, padded with any space, gets the welcome menu. */
  lemma GreetingGetsWelcome(d: Payload.Delivery, remote: Remote, pre: string, w: string, post: string)
    requires Payload.HasMessage(d)
    requires Payload.FirstMessage(d).value.text == Some(Payload.Text(Some(pre + w + post)))
    requires JsText.AllSpace(pre) && JsText.AllSpace(post)
    requires JsText.ToUpper(w) in Menu.Greetings
    ensures HandlePost(d, remote).trace == [SendText(Payload.FirstMessage(d).value.from, Menu.Welcome)]
  {
    var m := Payload.FirstMessage(d).value;
    var u := JsText.ToUpper(w);
    assert !JsText.IsTrimSpace(u[0]) && !JsText.IsTrimSpace(u[|u| - 1]);
    JsText.NormalizePadded(pre, w, post);
    assert Payload.NormalizedBody(m) == Some(u);
    RespondToGreeting(m.from, u, remote.upload);
  }

  /** A normalised greeting gets the welcome menu and nothing more. */
  lemma RespondToGreeting(from: Option<string>, u: string, upload: Upload)
    requires u in Menu.Greetings
    ensures Respond(from, Some(u), upload) == [SendText(from, Menu.Welcome)]
  {
    Menu.GreetingsGetWelcome(u);
  }

  /** A delivery carrying just `m`. */
  function DeliveryOf(m: Payload.Message): (d: Payload.Delivery)
    ensures Payload.FirstMessage(d) == Some(m)
  {
    Payload.Delivery(Some([Payload.Entry(Some([Payload.Change(Some(Payload.Value(Some([m]))))]))]))
  }

  /** A delivery whose one message says `text`. */
  function TextFrom(from: string, text: string): (d: Payload.Delivery)
    ensures Payload.HasMessage(d)
    ensures Payload.FirstMessage(d).value == Payload.Message(Some(from), Some(Payload.Text(Some(text))))
  {
    DeliveryOf(Payload.Message(Some(from), Some(Payload.Text(Some(text)))))
  }

  /** "hi" selects the welcome menu. */
  lemma LowerCaseGreeting(from: string, remote: Remote)
    ensures HandlePost(TextFrom(from, "hi"), remote).trace == [SendText(Some(from), Menu.Welcome)]
  {
    var u := JsText.ToUpper("hi");
    assert u[0] == 'H' && u[1] == 'I';
    assert u == "HI";
    assert "hi" == [] + "hi" + [];
    GreetingGetsWelcome(TextFrom(from, "hi"), remote, [], "hi", []);
  }

  /** " Hi " selects the welcome menu. */
  lemma PaddedGreeting(from: string, remote: Remote)
    ensures HandlePost(TextFrom(from, " Hi "), remote).trace == [SendText(Some(from), Menu.Welcome)]
  {
    var u := JsText.ToUpper("Hi");
    assert u[0] == 'H' && u[1] == 'I';
    assert u == "HI";
    assert " Hi " == " " + "Hi" + " ";
    GreetingGetsWelcome(TextFrom(from, " Hi "), remote, " ", "Hi", " ");
  }

  /** "HEY" selects the welcome menu. */
  lemma UpperCaseGreeting(from: string, remote: Remote)
    ensures HandlePost(TextFrom(from, "HEY"), remote).trace == [SendText(Some(from), Menu.Welcome)]
  {
    var u := JsText.ToUpper("HEY");
    assert u[0] == 'H' && u[1] == 'E' && u[2] == 'Y';
    assert u == "HEY";
    assert "HEY" == [] + "HEY" + [];
    GreetingGetsWelcome(TextFrom(from, "HEY"), remote, [], "HEY", []);
  }
}
