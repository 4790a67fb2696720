/**
 * The `<OffthreadVideo>` frame server (packages/renderer/src/offthread-video-server.ts): the order
 * of the query checks in `extractUrlAndSourceFromUrl` and the routing of a request to 404, 200 or
 * 500. URL parsing, `parseFloat`, the format validator, the download and the extraction are
 * parameters; the response object is modelled by what ends up in it.
 */
module OffthreadServer {

  import opened Wrappers
  import opened Text
  import opened Codecs

  const NoSrcError := "Did not pass `src` parameter"
  const NoTimeError := "Did not get `time` parameter"
  const NoImageFormatError := "Did not get `imageFormat` parameter"
  const NoUrlError := "Request came in without URL"

  type Frame = seq<byte>

  /** What `new URL(url, 'http://localhost')` yields that the server reads: the search string and its parameters. */
  datatype ParsedUrl = ParsedUrl(search: string, params: map<string, string>)

  /** The request as the frame extractor needs it. */
  datatype FrameRequest = FrameRequest(src: string, time: real, imageFormat: ImageFormat)

  /** The imported helpers, none of which is part of this model. */
  datatype Services = Services(
    parseUrl: string -> ParsedUrl,
    parseFloat: string -> real,
    validateImageFormat: string -> Outcome,
    download: string -> Result<string>,
    extract: (string, real, ImageFormat) -> Result<Option<Frame>>)

  /** `params.get(name)` read as JavaScript truthiness: absent and empty are alike. */
  predicate Given(params: map<string, string>, name: string) {
    name in params && params[name] != ""
  }

  /**
   * `extractUrlAndSourceFromUrl`: an empty query, then a missing `src`, `time` and `imageFormat` (in
   * that order) are errors; the format must then pass validation.
   */
  function ExtractUrlAndSource(s: Services, url: string): (r: Result<FrameRequest>)
    ensures var p := s.parseUrl(url).params;
      r.Ok? <==> Trim(s.parseUrl(url).search) != "" && Given(p, "src") && Given(p, "time") &&
                 Given(p, "imageFormat") && s.validateImageFormat(p["imageFormat"]).Pass?
    ensures Trim(s.parseUrl(url).search) == "" ==> r == Err("Expected query from " + url)
    ensures r.Ok? ==> var p := s.parseUrl(url).params;
      r.value.src == p["src"] && r.value.time == s.parseFloat(p["time"]) &&
      (r.value.imageFormat == Jpeg <==> p["imageFormat"] == "jpeg")
  {
    var parsed := s.parseUrl(url);
    var p := parsed.params;
    if Trim(parsed.search) == "" then Err("Expected query from " + url)
    else if !Given(p, "src") then Err(NoSrcError)
    else if !Given(p, "time") then Err(NoTimeError)
    else if !Given(p, "imageFormat") then Err(NoImageFormatError)
    else
      match s.validateImageFormat(p["imageFormat"])
      case Fail(e) => Err(e)
      case Pass =>
        Ok(FrameRequest(p["src"], s.parseFloat(p["time"]), if p["imageFormat"] == "jpeg" then Jpeg else Png))
  }

  /**
   * The checks come in a fixed order: the first one that fails decides the message, whatever the
   * later parameters hold.
   */
  lemma CheckOrder(s: Services, url: string)
    ensures var parsed := s.parseUrl(url);
      var p := parsed.params;
      var r := ExtractUrlAndSource(s, url);
      (Trim(parsed.search) != "" && !Given(p, "src") ==> r == Err(NoSrcError)) &&
      (Trim(parsed.search) != "" && Given(p, "src") && !Given(p, "time") ==>
         r == Err(NoTimeError)) &&
      (Trim(parsed.search) != "" && Given(p, "src") && Given(p, "time") && !Given(p, "imageFormat") ==>
         r == Err(NoImageFormatError))
  {
  }

  /** What answering one request leaves behind. */
  datatype Handled =
    | Threw(error: string)
    | Answered(status: nat, headers: seq<(string, string)>, body: Frame,
               downloaded: seq<string>, reported: Option<string>)

  function ContentType(f: ImageFormat): string {
    "image/" + (if f == Jpeg then "jpg" else "png")
  }

  /**
   * The request listener: no URL throws; any path not starting with `/proxy` gets an empty 404 and
   * nothing is downloaded; a bad query throws; otherwise the source is downloaded and the frame
   * extracted, answering 200 with the frame, or 500 with the error passed to `onError`.
   */
  function Handle(s: Services, url: Option<string>): (r: Handled)
    ensures (url.None? || url.value == "") ==> r == Threw(NoUrlError)
    ensures url.Some? && url.value != "" && !StartsWith(url.value, "/proxy") ==>
      r == Answered(404, [], [], [], None)
  {
    if url.None? || url.value == "" then Threw(NoUrlError)
    else if !StartsWith(url.value, "/proxy") then Answered(404, [], [], [], None)
    else
      match ExtractUrlAndSource(s, url.value)
      case Err(e) => Threw(e)
      case Ok(req) =>
        var headers := [("access-control-allow-origin", "*"), ("content-type", ContentType(req.imageFormat))];
        match s.download(req.src)
        case Err(e) => Answered(500, headers, [], [req.src], Some(e))
        case Ok(to) =>
          match s.extract(to, req.time, req.imageFormat)
          case Err(e) => Answered(500, headers, [], [req.src], Some(e))
          case Ok(None) => Answered(500, headers, [], [req.src], Some("no readable from ffmpeg"))
          case Ok(Some(frame)) => Answered(200, headers, frame, [req.src], None)
  }

  /** A proxy request with a valid query: the content type follows the image format. */
  lemma ContentTypeFollowsFormat(s: Services, url: string)
    requires StartsWith(url, "/proxy") && ExtractUrlAndSource(s, url).Ok?
    ensures var r := Handle(s, Some(url));
      var f := ExtractUrlAndSource(s, url).value.imageFormat;
      r.Answered? && r.headers == [("access-control-allow-origin", "*"), ("content-type", ContentType(f))] &&
      (ContentType(f) == "image/jpg" <==> s.parseUrl(url).params["imageFormat"] == "jpeg")
  {
    var f := ExtractUrlAndSource(s, url).value.imageFormat;
    assert ContentType(Png) != "image/jpg" by {
      assert ContentType(Png)[6] == 'p';
    }
  }

  /** A bad query on a proxy path throws with the query error, and nothing is downloaded or answered. */
  lemma BadQueryThrows(s: Services, url: string)
    requires StartsWith(url, "/proxy") && ExtractUrlAndSource(s, url).Err?
    ensures Handle(s, Some(url)) == Threw(ExtractUrlAndSource(s, url).error)
  {
  }

  /**
   * A valid proxy request downloads exactly its source once, and is answered 200 with the frame
   * exactly when both the download and the extraction succeed; every failure answers 500 with an
   * empty body and reports exactly that failure.
   */
  lemma ProxyOutcome(s: Services, url: string)
    requires StartsWith(url, "/proxy") && ExtractUrlAndSource(s, url).Ok?
    ensures var req := ExtractUrlAndSource(s, url).value;
      var r := Handle(s, Some(url));
      var d := s.download(req.src);
      r.Answered? && r.downloaded == [req.src] &&
      (r.status == 200 <==> d.Ok? && s.extract(d.value, req.time, req.imageFormat).Ok? &&
                            s.extract(d.value, req.time, req.imageFormat).value.Some?) &&
      (r.status == 200 ==> r.body == s.extract(d.value, req.time, req.imageFormat).value.value && r.reported.None?) &&
      (r.status != 200 ==> r.status == 500 && r.body == [] && r.reported.Some?) &&
      (d.Err? ==> r.reported == Some(d.error))
  {
  }
}
