/** The image generator page: a prompt box, a loading flag, the generated
    image (a `data:` URL, section 3 of RFC 2397) and an error line. As on
    the login screen, the asynchronous `handleGenerate` is split into its
    synchronous start and the continuation that handles the reply. */
module ImageStudio {
  import opened Wrappers
  import opened Browser

  const JpegDataUrlPrefix := "data:image/jpeg;base64,"
  const GenerationFailedMessage := "Generation failed"
  const NoImageMessage := "No image data received"

  /** The image source built from a base64 payload. */
  function JpegDataUrl(payload: string): string {
    JpegDataUrlPrefix + payload
  }

  /** A `data:` URL taken apart as section 3 of RFC 2397 describes it:
      `data:` [mediatype] [`;base64`] `,` data. */
  datatype DataUrl = DataUrl(mediaType: string, isBase64: bool, data: string)

  /** The position of the first `c` in `s`, if any. */
  function IndexOf(s: string, c: char): (k: Option<nat>)
    ensures k.Some? ==> k.value < |s| && s[k.value] == c && forall i :: 0 <= i < k.value ==> s[i] != c
    ensures k.None? ==> forall i :: 0 <= i < |s| ==> s[i] != c
  {
    if s == [] then None
    else if s[0] == c then Some(0)
    else
      match IndexOf(s[1..], c)
      case None => None
      case Some(k) => Some(k + 1)
  }

  const Base64Marker := ";base64"

  /** Reads a `data:` URL: the header runs up to the first comma, a trailing
      `;base64` marks the encoding, and what follows the comma is the data. */
  function ParseDataUrl(url: string): (r: Option<DataUrl>)
    ensures r.None? <==> !(|url| >= 5 && url[..5] == "data:" && exists i :: 5 <= i < |url| && url[i] == ',')
    ensures r.Some? ==> forall i :: 0 <= i < |r.value.mediaType| ==> r.value.mediaType[i] != ','
    ensures r.Some? ==> url == "data:" + r.value.mediaType + (if r.value.isBase64 then Base64Marker else "") + "," + r.value.data
  {
    if |url| < 5 || url[..5] != "data:" then None
    else
      CommaAfterScheme(url);
      match IndexOf(url[5..], ',')
      case None => None
      case Some(k) =>
        var header := url[5..5 + k];
        SplitAtComma(url, k, header);
        Some(FromHeader(header, url[5 + k + 1..]))
  }

  /** The parts of a `data:` URL with the given header and data. */
  function FromHeader(header: string, data: string): (d: DataUrl)
    requires forall i :: 0 <= i < |header| ==> header[i] != ','
    ensures forall i :: 0 <= i < |d.mediaType| ==> d.mediaType[i] != ','
    ensures "data:" + d.mediaType + (if d.isBase64 then Base64Marker else "") + "," + d.data == "data:" + header + "," + data
  {
    if |header| >= |Base64Marker| && header[|header| - |Base64Marker|..] == Base64Marker then
      SplitMarker(header, data);
      DataUrl(header[..|header| - |Base64Marker|], true, data)
    else
      DataUrl(header, false, data)
  }

  lemma CommaAfterScheme(url: string)
    requires |url| >= 5
    ensures IndexOf(url[5..], ',').Some? <==> exists i :: 5 <= i < |url| && url[i] == ','
  {
    var rest := url[5..];
    if IndexOf(rest, ',').Some? {
      var k := IndexOf(rest, ',').value;
      assert url[5 + k] == rest[k];
    } else {
      forall i | 5 <= i < |url| ensures url[i] != ',' {
        assert url[i] == rest[i - 5];
      }
    }
  }

  lemma SplitAtComma(url: string, k: nat, header: string)
    requires 5 + k < |url| && url[..5] == "data:" && url[5 + k] == ','
    requires forall i :: 0 <= i < k ==> url[5..][i] != ','
    requires header == url[5..5 + k]
    ensures url == "data:" + header + "," + url[5 + k + 1..]
    ensures forall i :: 0 <= i < |header| ==> header[i] != ','
  {
    assert url == url[..5] + header + [url[5 + k]] + url[5 + k + 1..];
    forall i | 0 <= i < |header| ensures header[i] != ',' {
      assert header[i] == url[5..][i];
    }
  }

  lemma SplitMarker(header: string, data: string)
    requires |header| >= |Base64Marker| && header[|header| - |Base64Marker|..] == Base64Marker
    ensures "data:" + header + "," + data == "data:" + header[..|header| - |Base64Marker|] + Base64Marker + "," + data
  {
    assert header == header[..|header| - |Base64Marker|] + Base64Marker;
  }

  /** A `data:` URL whose header holds no comma and ends in `;base64`
      parses back into that header's media type, the base64 flag and
      exactly the data after the comma, whatever the data holds. */
  lemma Base64DataUrlParses(mediaType: string, data: string)
    requires forall i :: 0 <= i < |mediaType| ==> mediaType[i] != ','
    ensures ParseDataUrl("data:" + mediaType + Base64Marker + "," + data) == Some(DataUrl(mediaType, true, data))
  {
    var header := mediaType + Base64Marker;
    var url := "data:" + mediaType + Base64Marker + "," + data;
    assert url[..5] == "data:";
    var rest := url[5..];
    assert rest == header + "," + data;
    var k := |header|;
    forall i | 0 <= i < k ensures rest[i] != ',' {
      if i < |mediaType| { assert rest[i] == mediaType[i]; } else { assert rest[i] == Base64Marker[i - |mediaType|]; }
    }
    assert rest[k] == ',';
    assert IndexOf(rest, ',') == Some(k);
    assert url[5..5 + k] == header;
    assert header[|header| - |Base64Marker|..] == Base64Marker;
    assert header[..|header| - |Base64Marker|] == mediaType;
    assert url[5 + k + 1..] == data;
    assert ParseDataUrl(url) == Some(DataUrl(header[..|header| - |Base64Marker|], true, url[5 + k + 1..]));
  }

  /** The image source is a base64 JPEG `data:` URL whose data is exactly
      the payload, whatever the payload holds. */
  lemma JpegDataUrlRoundTrip(payload: string)
    ensures ParseDataUrl(JpegDataUrl(payload)) == Some(DataUrl("image/jpeg", true, payload))
  {
    assert JpegDataUrlPrefix == "data:" + "image/jpeg" + Base64Marker + ",";
    Base64DataUrlParses("image/jpeg", payload);
  }

  /** How a generation ends. */
  datatype Outcome = Image(source: string) | Failed(message: string)

  /** The branch a reply takes: a thrown error fails with its message, a
      non-ok response with the server's `detail` or the fixed message, an ok
      response without a non-empty `image_base64` with "No image data
      received"; otherwise the image is the JPEG data URL of the payload. */
  function OutcomeOf(reply: HttpReply): (o: Outcome)
    ensures o.Image? <==> reply.Response? && reply.ok && "image_base64" in reply.body && reply.body["image_base64"] != ""
    ensures o.Image? ==> ParseDataUrl(o.source) == Some(DataUrl("image/jpeg", true, reply.body["image_base64"]))
    ensures reply.Failure? ==> o == Failed(reply.message)
    ensures reply.Response? && !reply.ok ==>
      o.message == (if "detail" in reply.body && reply.body["detail"] != "" then reply.body["detail"] else GenerationFailedMessage)
    ensures reply.Response? && reply.ok && o.Failed? ==> o.message == NoImageMessage
  {
    match reply
    case Failure(m) => Failed(m)
    case Response(ok, body) =>
      if !ok then Failed(FieldOr(body, "detail", GenerationFailedMessage))
      else if "image_base64" in body && body["image_base64"] != "" then
        JpegDataUrlRoundTrip(body["image_base64"]);
        Image(JpegDataUrl(body["image_base64"]))
      else Failed(NoImageMessage)
  }

  class ImageGenerator {
    var prompt: string
    var loading: bool
    var imageData: Option<string>
    var error: string

    /** Empty prompt, not loading, no image, no error. */
    constructor ()
      ensures prompt == "" && !loading && imageData == None && error == ""
    {
      prompt := "";
      loading := false;
      imageData := None;
      error := "";
    }

    /** The prompt box's `onChange`. */
    method SetPrompt(text: string)
      modifies this
      ensures prompt == text
      ensures loading == old(loading) && imageData == old(imageData) && error == old(error)
    {
      prompt := text;
    }

    /** The prompt box is `required`: the form submits only with a non-empty prompt. */
    predicate CanSubmit()
      reads this
    {
      prompt != ""
    }

    /** The synchronous start of `handleGenerate`, reached once the browser
        has checked the prompt box: loading on, error and image cleared; the
        request body carries the prompt. */
    method BeginGenerate() returns (body: string)
      requires CanSubmit()
      modifies this
      ensures loading && error == "" && imageData == None
      ensures body == prompt == old(prompt) && body != ""
    {
      loading := true;
      error := "";
      imageData := None;
      body := prompt;
    }

    /** The rest of `handleGenerate` once the reply is in: an image is set
        only on success, an error only on failure, and loading is off. */
    method FinishGenerate(reply: HttpReply)
      modifies this
      ensures !loading && prompt == old(prompt)
      ensures match OutcomeOf(reply)
        case Image(src) => imageData == Some(src) && error == old(error)
        case Failed(m) => error == m && imageData == old(imageData)
    {
      match reply {
        case Failure(m) =>
          error := m;
        case Response(ok, body) =>
          if !ok {
            error := FieldOr(body, "detail", GenerationFailedMessage);
          } else if "image_base64" in body && body["image_base64"] != "" {
            imageData := Some(JpegDataUrl(body["image_base64"]));
          } else {
            error := NoImageMessage;
          }
      }
      loading := false;
    }

    /** A whole `handleGenerate` whose reply is `reply`: afterwards nothing
        is loading, a failure leaves no image, and a success leaves no error. */
    method Generate(reply: HttpReply) returns (body: string)
      requires CanSubmit()
      modifies this
      ensures body == prompt == old(prompt) && !loading
      ensures match OutcomeOf(reply)
        case Image(src) => imageData == Some(src) && error == ""
        case Failed(m) => error == m && imageData == None
    {
      body := BeginGenerate();
      FinishGenerate(reply);
    }
  }
}
