/**
 * The browser client's generation calls (`ImageAPI` in public/js/api.js): the media-URL
 * extractors, the content parts of each request, the video-model table, and the
 * streaming driver that reads the response body chunk by chunk while reporting progress.
 *
 * The network is abstracted: the API's answer (`ApiReply`), the body's chunks and the
 * relay's answer (`ProxyReply`) are inputs. Progress callbacks become the returned
 * sequence of `Progress` events, in the order they are reported.
 */
module ClientApi {
  import opened Wrappers
  import opened JsText
  import opened Messages
  import opened UrlExtract

  const DefaultModel := "gemini-3.0-pro-image-portrait"
  const EstimatedTotalBytes := 5000
  /** `errorText.substring(0, 200)` in the API error message. */
  const ErrorDetailLength := 200

  // ---------------------------------------------------------------- extractors

  /** `ImageAPI.extractImageUrl`. */
  method ExtractImageUrl(text: string) returns (r: Option<string>)
    ensures r == Pick(ClientImage, text)
    ensures r.None? <==> NoUrlIn(ClientImage, text, 0, |text|)
    ensures r.Some? ==> r.value in Candidates(ClientImage, text)
    ensures r.Some? ==> FirstStrongOrFirst(ClientImage, Candidates(ClientImage, text), r.value)
    ensures r.Some? ==> (StartsWith(r.value, "http://") || StartsWith(r.value, "https://"))
    ensures r.Some? ==> forall m :: 0 <= m < |r.value| ==> !Excluded(ClientImage, r.value[m])
  {
    r := Extract(ClientImage, text);
    PickNoneIff(ClientImage, text);
    if r.Some? {
      PickSelects(ClientImage, text);
      ghost var k := PickIndex(ClientImage, text);
      CleanImageCandidate(text, k);
      CandidateShape(ClientImage, text, k);
    }
  }

  /** `ImageAPI.extractVideoUrl`: its cleanup strips a trailing run of `\`, `"`, `'` and the letter `s`. */
  method ExtractVideoUrl(text: string) returns (r: Option<string>)
    ensures r == Pick(ClientVideo, text)
    ensures r.None? <==> NoUrlIn(ClientVideo, text, 0, |text|)
    ensures r.Some? ==> FirstStrongOrFirst(ClientVideo, Candidates(ClientVideo, text), r.value)
    ensures r.Some? ==> (StartsWith(r.value, "http://") || StartsWith(r.value, "https://"))
    ensures r.Some? ==> var last := r.value[|r.value| - 1];
                        last != 's' && last != '\'' && last != '"' && last != '\\'
  {
    r := Extract(ClientVideo, text);
    PickNoneIff(ClientVideo, text);
    if r.Some? {
      PickSelects(ClientVideo, text);
      PickShape(ClientVideo, text);
    }
  }

  // ---------------------------------------------------------------- requests

  /** The request body: `{model, stream: true, messages: [{role: 'user', content: parts}]}`. */
  datatype Payload = Payload(model: string, stream: bool, parts: seq<Part>)

  /** The body `callApiStream` sends: an absent or empty model falls back to the default. */
  function ImagePayload(model: Option<string>, parts: seq<Part>): (p: Payload)
    ensures p.stream && p.parts == parts
    ensures p.model == (if Truthy(model) then model.value else DefaultModel)
  {
    Payload(Or(model, DefaultModel), true, parts)
  }

  /**
   * `editImage`: the prompt, then the main image, then every reference image in the
   * given order; an absent or empty reference list adds nothing.
   */
  method EditImageParts(prompt: string, mainImage: string, references: Option<seq<string>>)
    returns (parts: seq<Part>)
    ensures |parts| == 2 + (if references.Some? then |references.value| else 0)
    ensures parts[0] == TextPart(prompt) && parts[1] == ImageUrlPart(mainImage)
    ensures references.Some? ==>
              forall i :: 0 <= i < |references.value| ==> parts[2 + i] == ImageUrlPart(references.value[i])
  {
    parts := [TextPart(prompt)];
    parts := parts + [ImageUrlPart(mainImage)];
    if references.Some? && |references.value| > 0 {
      var refs := references.value;
      var i := 0;
      while i < |refs|
        invariant 0 <= i <= |refs|
        invariant |parts| == 2 + i
        invariant parts[0] == TextPart(prompt) && parts[1] == ImageUrlPart(mainImage)
        invariant forall j :: 0 <= j < i ==> parts[2 + j] == ImageUrlPart(refs[j])
      {
        parts := parts + [ImageUrlPart(refs[i])];
        i := i + 1;
      }
    }
  }

  datatype VideoMode = TextToVideo | FrameToVideo

  /** The `VIDEO_MODELS` table: an entry per mode for `landscape` and `portrait`. */
  function VideoModelEntry(mode: VideoMode, ratio: string): Option<string>
  {
    match (mode, ratio)
    case (TextToVideo, "landscape") => Some("veo_3_1_t2v_landscape")
    case (TextToVideo, "portrait") => Some("veo_3_1_t2v_portrait")
    case (FrameToVideo, "landscape") => Some("veo_3_1_i2v_s_landscape")
    case (FrameToVideo, "portrait") => Some("veo_3_1_i2v_s_portrait")
    case _ => None
  }

  /** The model of a video call: the table's entry for the ratio, else the landscape one. */
  function VideoModel(mode: VideoMode, ratio: string): (m: string)
    ensures VideoModelEntry(mode, ratio).Some? ==> m == VideoModelEntry(mode, ratio).value
    ensures VideoModelEntry(mode, ratio).None? ==> m == VideoModelEntry(mode, "landscape").value
  {
    match VideoModelEntry(mode, ratio)
    case Some(m) => m
    case None => VideoModelEntry(mode, "landscape").value
  }

  /** Only `landscape` and `portrait` select their own model; every other ratio falls back to landscape. */
  lemma VideoModelFallback(mode: VideoMode, ratio: string)
    ensures ratio != "portrait" ==> VideoModel(mode, ratio) == VideoModel(mode, "landscape")
    ensures VideoModel(mode, "portrait") != VideoModel(mode, "landscape")
  {
  }

  /** `generateVideoFromFrames`: prompt, start frame, and the end frame only when it is truthy. */
  function FrameParts(prompt: string, startFrame: string, endFrame: Option<string>): (parts: seq<Part>)
    ensures |parts| == (if Truthy(endFrame) then 3 else 2)
    ensures parts[0] == TextPart(prompt) && parts[1] == ImageUrlPart(startFrame)
    ensures Truthy(endFrame) ==> parts[2] == ImageUrlPart(endFrame.value)
  {
    var parts := [TextPart(prompt), ImageUrlPart(startFrame)];
    if Truthy(endFrame) then parts + [ImageUrlPart(endFrame.value)] else parts
  }

  /** The body of `generateVideo`: the portrait text-to-video model for `portrait`, the landscape one otherwise. */
  function TextToVideoPayload(prompt: string, ratio: string): (p: Payload)
    ensures p.stream && p.parts == [TextPart(prompt)]
    ensures p.model == (if ratio == "portrait" then "veo_3_1_t2v_portrait" else "veo_3_1_t2v_landscape")
  {
    Payload(VideoModel(TextToVideo, ratio), true, [TextPart(prompt)])
  }

  /** The body of `generateVideoFromFrames`: the frame-to-video model, and the frame parts. */
  function FrameToVideoPayload(prompt: string, ratio: string, startFrame: string, endFrame: Option<string>): (p: Payload)
    ensures p.stream && p.parts == FrameParts(prompt, startFrame, endFrame)
    ensures p.model == (if ratio == "portrait" then "veo_3_1_i2v_s_portrait" else "veo_3_1_i2v_s_landscape")
  {
    Payload(VideoModel(FrameToVideo, ratio), true, FrameParts(prompt, startFrame, endFrame))
  }

  // ---------------------------------------------------------------- streaming

  /** One `reader.read()` result: the decoded text of the chunk and its byte length. */
  datatype Chunk = Chunk(text: string, size: nat)

  /** The in-order concatenation of the chunks' text. */
  function Concat(chunks: seq<Chunk>): string
  {
    if chunks == [] then "" else Concat(chunks[..|chunks| - 1]) + chunks[|chunks| - 1].text
  }

  /** The number of bytes in the chunks. */
  function TotalBytes(chunks: seq<Chunk>): nat
  {
    if chunks == [] then 0 else TotalBytes(chunks[..|chunks| - 1]) + chunks[|chunks| - 1].size
  }

  /** The progress reported while streaming: `min(15 + received / 5000 * 55, 70)`. */
  function StreamPercent(received: nat): (p: real)
    ensures 15.0 <= p <= 70.0
  {
    var raw := 15.0 + (received as real / EstimatedTotalBytes as real) * 55.0;
    if raw < 70.0 then raw else 70.0
  }

  lemma StreamPercentMonotone(a: nat, b: nat)
    requires a <= b
    ensures StreamPercent(a) <= StreamPercent(b)
  {
    assert a as real / 5000.0 <= b as real / 5000.0;
  }

  lemma {:induction false} TotalBytesMonotone(chunks: seq<Chunk>, i: nat, j: nat)
    requires i <= j <= |chunks|
    ensures TotalBytes(chunks[..i]) <= TotalBytes(chunks[..j])
    decreases j - i
  {
    if i < j {
      TotalBytesMonotone(chunks, i, j - 1);
      assert chunks[..j][..j - 1] == chunks[..j - 1];
    }
  }

  datatype Stage = Connecting | Creating | CreatingVideo | Parsing | Downloading | Processing | Finished

  /** A progress report `{stage, percent}`. */
  datatype Progress = Progress(stage: Stage, percent: real)

  /** The reports of the read loop: after chunk `i`, the percent for the bytes received so far. */
  function StreamEvents(chunks: seq<Chunk>, stage: Stage): (events: seq<Progress>)
    ensures |events| == |chunks|
  {
    seq(|chunks|, i requires 0 <= i < |chunks| => Progress(stage, StreamPercent(TotalBytes(chunks[..i + 1]))))
  }

  /** The percents never decrease. */
  predicate Ascending(events: seq<Progress>)
  {
    forall i, j :: 0 <= i <= j < |events| ==> events[i].percent <= events[j].percent
  }

  /** Every percent lies in `[lo, hi]`. */
  predicate Within(events: seq<Progress>, lo: real, hi: real)
  {
    forall i :: 0 <= i < |events| ==> lo <= events[i].percent <= hi
  }

  /** Streaming progress only grows, and stays between 15 and 70. */
  lemma StreamEventsAscending(chunks: seq<Chunk>, stage: Stage)
    ensures Ascending(StreamEvents(chunks, stage))
    ensures Within(StreamEvents(chunks, stage), 15.0, 70.0)
  {
    var events := StreamEvents(chunks, stage);
    forall i, j | 0 <= i <= j < |events|
      ensures events[i].percent <= events[j].percent
    {
      var a, b := TotalBytes(chunks[..i + 1]), TotalBytes(chunks[..j + 1]);
      assert events[i].percent == StreamPercent(a);
      assert events[j].percent == StreamPercent(b);
      TotalBytesMonotone(chunks, i + 1, j + 1);
      StreamPercentMonotone(a, b);
    }
    forall i | 0 <= i < |events|
      ensures 15.0 <= events[i].percent <= 70.0
    {
      assert events[i].percent == StreamPercent(TotalBytes(chunks[..i + 1]));
    }
  }

  /**
   * The read loop: append each chunk's text to `fullText`, add its length to the byte
   * count, and report the streaming percent after each chunk.
   */
  method ReadStream(chunks: seq<Chunk>, stage: Stage)
    returns (fullText: string, receivedBytes: nat, events: seq<Progress>)
    ensures fullText == Concat(chunks)
    ensures receivedBytes == TotalBytes(chunks)
    ensures events == StreamEvents(chunks, stage)
  {
    fullText, receivedBytes, events := "", 0, [];
    var i := 0;
    while i < |chunks|
      invariant 0 <= i <= |chunks|
      invariant fullText == Concat(chunks[..i])
      invariant receivedBytes == TotalBytes(chunks[..i])
      invariant events == StreamEvents(chunks[..i], stage)
    {
      ReadStep(chunks, i, stage);
      fullText := fullText + chunks[i].text;
      receivedBytes := receivedBytes + chunks[i].size;
      events := events + [Progress(stage, StreamPercent(receivedBytes))];
      i := i + 1;
    }
    assert chunks[..i] == chunks;
  }

  /** One turn of the read loop: the text, the byte count and the reports each grow by the next chunk. */
  lemma ReadStep(chunks: seq<Chunk>, i: nat, stage: Stage)
    requires i < |chunks|
    ensures Concat(chunks[..i + 1]) == Concat(chunks[..i]) + chunks[i].text
    ensures TotalBytes(chunks[..i + 1]) == TotalBytes(chunks[..i]) + chunks[i].size
    ensures StreamEvents(chunks[..i + 1], stage)
            == StreamEvents(chunks[..i], stage) + [Progress(stage, StreamPercent(TotalBytes(chunks[..i + 1])))]
  {
    var next := chunks[..i + 1];
    assert next[..i] == chunks[..i];
    var a := StreamEvents(next, stage);
    var b := StreamEvents(chunks[..i], stage) + [Progress(stage, StreamPercent(TotalBytes(next)))];
    forall j | 0 <= j < i + 1
      ensures a[j] == b[j]
    {
      if j < i {
        assert chunks[..i][..j + 1] == next[..j + 1];
      } else {
        assert next[..j + 1] == next;
      }
    }
  }

  /** `response.ok` and `response.status`, with `response.text()` for the failure message. */
  datatype ApiReply = ApiReply(ok: bool, status: int, errorText: string)

  /** The relay's answer for `/api/proxy-image?url=...`, with the body already read as a data URL. */
  datatype ProxyReply = ProxyFailed | ProxyOk(dataUrl: string)

  /** How an image call ends: the three errors it throws, or its `{imageUrl, imageBase64}`. */
  datatype ImageOutcome =
    | ApiFailed(status: int, detail: string)
    | NoImageUrl(fullText: string)
    | DownloadFailed(url: string)
    | ImageReady(imageUrl: string, imageBase64: string)

  /** The first `n` characters, as `substring(0, n)` takes them. */
  function Prefix(s: string, n: nat): (r: string)
    ensures |r| <= n && StartsWith(s, r)
    ensures |s| <= n ==> r == s
  {
    if |s| <= n then s else s[..n]
  }

  /** The reports common to every call that got an ok response: 5, 15, streaming, 75. */
  function Prelude(chunks: seq<Chunk>, stage: Stage): seq<Progress>
  {
    [Progress(Connecting, 5.0), Progress(stage, 15.0)] + StreamEvents(chunks, stage) + [Progress(Parsing, 75.0)]
  }

  lemma AscendingConcat(a: seq<Progress>, b: seq<Progress>, lo: real, mid: real, hi: real)
    requires Ascending(a) && Within(a, lo, mid)
    requires Ascending(b) && Within(b, mid, hi)
    requires lo <= mid <= hi
    ensures Ascending(a + b) && Within(a + b, lo, hi)
  {
    var ab := a + b;
    forall i | 0 <= i < |ab|
      ensures lo <= ab[i].percent <= hi
    {
      if i < |a| {
        assert ab[i] == a[i];
      } else {
        assert ab[i] == b[i - |a|];
      }
    }
    forall i, j | 0 <= i <= j < |ab|
      ensures ab[i].percent <= ab[j].percent
    {
      if j < |a| {
        assert ab[i] == a[i] && ab[j] == a[j];
      } else if i >= |a| {
        assert ab[i] == b[i - |a|] && ab[j] == b[j - |a|];
      } else {
        assert ab[i] == a[i] && ab[j] == b[j - |a|];
      }
    }
  }

  /** The reports after parsing, for an image call: downloading, processing, done. */
  const ImageTail := [Progress(Downloading, 80.0), Progress(Processing, 90.0), Progress(Finished, 100.0)]

  /** The report after parsing, for a video call: done. */
  const VideoTail := [Progress(Finished, 100.0)]

  /** Within one call, the reports never decrease and stay in [5, 100], whichever way it ends. */
  lemma {:induction false} CallEventsAscending(chunks: seq<Chunk>, stage: Stage, tail: seq<Progress>)
    requires tail == [] || tail == ImageTail[..1] || tail == ImageTail || tail == VideoTail
    ensures Ascending(Prelude(chunks, stage) + tail) && Within(Prelude(chunks, stage) + tail, 5.0, 100.0)
  {
    StreamEventsAscending(chunks, stage);
    var head := [Progress(Connecting, 5.0), Progress(stage, 15.0)];
    AscendingConcat(head, StreamEvents(chunks, stage), 5.0, 15.0, 70.0);
    AscendingConcat(head + StreamEvents(chunks, stage), [Progress(Parsing, 75.0)], 5.0, 75.0, 75.0);
    assert Prelude(chunks, stage) == head + StreamEvents(chunks, stage) + [Progress(Parsing, 75.0)];
    AscendingConcat(Prelude(chunks, stage), tail, 5.0, 75.0, 100.0);
  }

  /**
   * The part of `callApiStream` after the stream is read: extract the URL (failing if
   * there is none), report 80 and fetch it through the relay (failing if that fails),
   * then report 90 and 100. `tail` is what is reported after the 75.
   */
  method ParseAndDownload(fullText: string, proxy: ProxyReply)
    returns (outcome: ImageOutcome, tail: seq<Progress>)
    ensures Pick(ClientImage, fullText).None? ==> outcome == NoImageUrl(fullText) && tail == []
    ensures Pick(ClientImage, fullText).Some? && proxy.ProxyFailed? ==>
              outcome == DownloadFailed(Pick(ClientImage, fullText).value) && tail == ImageTail[..1]
    ensures Pick(ClientImage, fullText).Some? && proxy.ProxyOk? ==>
              outcome == ImageReady(Pick(ClientImage, fullText).value, proxy.dataUrl) && tail == ImageTail
  {
    var imageUrl := ExtractImageUrl(fullText);
    if imageUrl.None? {
      outcome, tail := NoImageUrl(fullText), [];
      return;
    }
    if proxy.ProxyFailed? {
      outcome, tail := DownloadFailed(imageUrl.value), ImageTail[..1];
      return;
    }
    outcome, tail := ImageReady(imageUrl.value, proxy.dataUrl), ImageTail;
  }

  /**
   * `callApiStream`: report 5, fail on a non-ok response; report 15, read the stream and
   * report 75; then parse and download. Within the call the reports never decrease and
   * stay in [5, 100].
   */
  method CallApiStream(api: ApiReply, chunks: seq<Chunk>, proxy: ProxyReply)
    returns (outcome: ImageOutcome, events: seq<Progress>)
    ensures Ascending(events) && Within(events, 5.0, 100.0)
    ensures !api.ok ==>
              outcome == ApiFailed(api.status, Prefix(api.errorText, ErrorDetailLength))
              && events == [Progress(Connecting, 5.0)]
    ensures api.ok && Pick(ClientImage, Concat(chunks)).None? ==>
              outcome == NoImageUrl(Concat(chunks)) && events == Prelude(chunks, Creating)
    ensures api.ok && Pick(ClientImage, Concat(chunks)).Some? && proxy.ProxyFailed? ==>
              outcome == DownloadFailed(Pick(ClientImage, Concat(chunks)).value)
              && events == Prelude(chunks, Creating) + ImageTail[..1]
    ensures api.ok && Pick(ClientImage, Concat(chunks)).Some? && proxy.ProxyOk? ==>
              outcome == ImageReady(Pick(ClientImage, Concat(chunks)).value, proxy.dataUrl)
              && events == Prelude(chunks, Creating) + ImageTail
  {
    events := [Progress(Connecting, 5.0)];
    if !api.ok {
      outcome := ApiFailed(api.status, Prefix(api.errorText, ErrorDetailLength));
      return;
    }
    events := events + [Progress(Creating, 15.0)];
    var fullText, receivedBytes, streamed := ReadStream(chunks, Creating);
    events := events + streamed + [Progress(Parsing, 75.0)];
    assert events == Prelude(chunks, Creating);
    var tail;
    outcome, tail := ParseAndDownload(fullText, proxy);
    CallEventsAscending(chunks, Creating, tail);
    events := Prelude(chunks, Creating) + tail;
  }

  /** How a video call ends: the two errors it throws, or its `videoUrl`. */
  datatype VideoOutcome =
    | VideoApiFailed(status: int, detail: string)
    | NoVideoUrl(fullText: string)
    | VideoReady(videoUrl: string)

  /** The part of a video call after the stream is read: extract the URL, then report 100. */
  method ParseVideo(fullText: string) returns (outcome: VideoOutcome, tail: seq<Progress>)
    ensures Pick(ClientVideo, fullText).None? ==> outcome == NoVideoUrl(fullText) && tail == []
    ensures Pick(ClientVideo, fullText).Some? ==>
              outcome == VideoReady(Pick(ClientVideo, fullText).value) && tail == VideoTail
  {
    var videoUrl := ExtractVideoUrl(fullText);
    if videoUrl.None? {
      outcome, tail := NoVideoUrl(fullText), [];
      return;
    }
    outcome, tail := VideoReady(videoUrl.value), VideoTail;
  }

  /**
   * The request and streaming steps shared by `generateVideo` and
   * `generateVideoFromFrames`: report 5, fail on a non-ok response, report 15, read the
   * stream, report 75, extract the video URL and report 100.
   */
  method CallVideoStream(api: ApiReply, chunks: seq<Chunk>)
    returns (outcome: VideoOutcome, events: seq<Progress>)
    ensures Ascending(events) && Within(events, 5.0, 100.0)
    ensures !api.ok ==>
              outcome == VideoApiFailed(api.status, Prefix(api.errorText, ErrorDetailLength))
              && events == [Progress(Connecting, 5.0)]
    ensures api.ok && Pick(ClientVideo, Concat(chunks)).None? ==>
              outcome == NoVideoUrl(Concat(chunks)) && events == Prelude(chunks, CreatingVideo)
    ensures api.ok && Pick(ClientVideo, Concat(chunks)).Some? ==>
              outcome == VideoReady(Pick(ClientVideo, Concat(chunks)).value)
              && events == Prelude(chunks, CreatingVideo) + VideoTail
  {
    events := [Progress(Connecting, 5.0)];
    if !api.ok {
      outcome := VideoApiFailed(api.status, Prefix(api.errorText, ErrorDetailLength));
      return;
    }
    events := events + [Progress(CreatingVideo, 15.0)];
    var fullText, receivedBytes, streamed := ReadStream(chunks, CreatingVideo);
    events := events + streamed + [Progress(Parsing, 75.0)];
    assert events == Prelude(chunks, CreatingVideo);
    var tail;
    outcome, tail := ParseVideo(fullText);
    CallEventsAscending(chunks, CreatingVideo, tail);
    events := Prelude(chunks, CreatingVideo) + tail;
  }
}
