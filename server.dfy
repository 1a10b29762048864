/**
 * The relay server (server.js): the MIME type of an uploaded file, the server's own
 * image-URL extractor, the outcome logic of `callImageApi`, and the content parts the
 * `/api/edit` handler assembles.
 *
 * HTTP, multer and `Buffer` are abstracted: the upstream reply, the downloaded image
 * (already base64-encoded) and the parsed request fields are inputs.
 */
module Server {
  import opened Wrappers
  import opened JsText
  import opened Messages
  import opened UrlExtract
  import ClientApi

  const DefaultModel := "gemini-3.0-pro-image-portrait"

  // ---------------------------------------------------------------- getMimeType

  /** The path without its trailing run of `/`. */
  function StripTrailingSlashes(s: string): (r: string)
    ensures |r| <= |s|
  {
    if s != [] && s[|s| - 1] == '/' then StripTrailingSlashes(s[..|s| - 1]) else s
  }

  /** What is stripped is exactly the trailing run of `/`. */
  lemma {:induction false} StripTrailingSlashesSpec(s: string)
    ensures var r := StripTrailingSlashes(s);
      && r == s[..|r|]
      && (r == [] || r[|r| - 1] != '/')
      && forall i :: |r| <= i < |s| ==> s[i] == '/'
  {
    if s != [] && s[|s| - 1] == '/' {
      var p := s[..|s| - 1];
      StripTrailingSlashesSpec(p);
      var r := StripTrailingSlashes(p);
      assert p[..|r|] == s[..|r|];
    }
  }

  /** The index of the last occurrence of `c` in `s`. */
  function LastIndex(s: string, c: char): (k: Option<nat>)
    ensures k.Some? ==> k.value < |s|
  {
    if s == [] then None
    else if s[|s| - 1] == c then Some(|s| - 1)
    else LastIndex(s[..|s| - 1], c)
  }

  /** `LastIndex` finds an occurrence with none after it, and finds nothing only when there is none. */
  lemma {:induction false} LastIndexSpec(s: string, c: char)
    ensures var k := LastIndex(s, c);
      && (k.Some? ==> s[k.value] == c && forall j :: k.value < j < |s| ==> s[j] != c)
      && (k.None? ==> forall j :: 0 <= j < |s| ==> s[j] != c)
  {
    if s != [] && s[|s| - 1] != c {
      var p := s[..|s| - 1];
      LastIndexSpec(p, c);
      assert forall j :: 0 <= j < |p| ==> p[j] == s[j];
    }
  }

  /** The last path segment of a path without trailing slashes. */
  function Basename(t: string): (b: string)
    ensures |b| <= |t|
  {
    match LastIndex(t, '/')
    case Some(k) => t[k + 1..]
    case None => t
  }

  /** The segment ends the path and holds no `/`. */
  lemma BasenameSpec(t: string)
    ensures EndsWith(t, Basename(t))
    ensures forall j :: 0 <= j < |Basename(t)| ==> Basename(t)[j] != '/'
  {
    LastIndexSpec(t, '/');
  }

  /**
   * `path.extname` (POSIX): from the last `.` of the last segment to its end, or the
   * empty string when that segment has no `.`, starts with its only `.`, or is `..`.
   */
  function Extname(path: string): (ext: string)
    ensures ext == [] || ext[0] == '.'
  {
    var base := Basename(StripTrailingSlashes(path));
    match LastIndex(base, '.')
    case None => ""
    case Some(d) => if d == 0 || base == ".." then "" else (LastIndexSpec(base, '.'); base[d..])
  }

  /** The extension ends the path once its trailing slashes are gone, and holds no other `.` and no `/`. */
  lemma ExtnameSpec(path: string)
    ensures EndsWith(StripTrailingSlashes(path), Extname(path))
    ensures forall j :: 0 < j < |Extname(path)| ==> Extname(path)[j] != '.' && Extname(path)[j] != '/'
  {
    var t := StripTrailingSlashes(path);
    var base := Basename(t);
    BasenameSpec(t);
    LastIndexSpec(base, '.');
    match LastIndex(base, '.')
    case None =>
    case Some(d) =>
      if d != 0 && base != ".." {
        assert t[|t| - |base|..][d..] == t[|t| - |base| + d..];
      }
  }

  /** The `mimeTypes` table of `getMimeType`, keyed by lower-case extension. */
  function MimeOf(ext: string): (mime: Option<string>)
    ensures mime.Some? ==> mime.value == "image/jpeg" || mime.value == "image/png"
                           || mime.value == "image/webp" || mime.value == "image/gif"
  {
    match ext
    case ".jpg" => Some("image/jpeg")
    case ".jpeg" => Some("image/jpeg")
    case ".png" => Some("image/png")
    case ".webp" => Some("image/webp")
    case ".gif" => Some("image/gif")
    case _ => None
  }

  /** `getMimeType`: the table's entry for the lower-cased extension, else `image/jpeg`. */
  function GetMimeType(filename: string): (mime: string)
    ensures mime == "image/jpeg" || mime == "image/png" || mime == "image/webp" || mime == "image/gif"
    ensures MimeOf(Lower(Extname(filename))).Some? ==> mime == MimeOf(Lower(Extname(filename))).value
    ensures MimeOf(Lower(Extname(filename))).None? ==> mime == "image/jpeg"
  {
    var ext := Lower(Extname(filename));
    match MimeOf(ext)
    case Some(m) => m
    case None => "image/jpeg"
  }

  /** A tail free of `c` does not move the last `c`. */
  lemma {:induction false} LastIndexAppend(s: string, t: string, c: char)
    requires forall j :: 0 <= j < |t| ==> t[j] != c
    ensures LastIndex(s + t, c) == LastIndex(s, c)
  {
    if t != [] {
      var t' := t[..|t| - 1];
      LastIndexAppend(s, t', c);
      assert (s + t)[..|s + t| - 1] == s + t';
    } else {
      assert s + t == s;
    }
  }

  lemma BasenameAppend(stem: string, ext: string)
    requires stem != [] && stem[|stem| - 1] != '/'
    requires forall j :: 0 <= j < |ext| ==> ext[j] != '/'
    ensures Basename(stem + ext) == Basename(stem) + ext
    ensures Basename(stem) != []
  {
    LastIndexAppend(stem, ext, '/');
    LastIndexSpec(stem, '/');
    match LastIndex(stem, '/')
    case Some(k) =>
      assert (stem + ext)[k + 1..] == stem[k + 1..] + ext;
    case None =>
  }

  /** A non-directory stem followed by `.` and at least one character other than `.` and `/` has that extension. */
  lemma ExtnameOfSuffix(stem: string, ext: string)
    requires stem != [] && stem[|stem| - 1] != '/'
    requires |ext| >= 2 && ext[0] == '.'
    requires forall j :: 1 <= j < |ext| ==> ext[j] != '.' && ext[j] != '/'
    ensures Extname(stem + ext) == ext
  {
    var path := stem + ext;
    assert path[|path| - 1] == ext[|ext| - 1];
    assert StripTrailingSlashes(path) == path;
    BasenameAppend(stem, ext);
    var sb := Basename(stem);
    LastDot(sb, ext);
    assert (sb + ext)[|sb|..] == ext;
  }

  /** The last `.` of `s + ext` is the one that starts `ext` when `ext` holds no other. */
  lemma LastDot(s: string, ext: string)
    requires |ext| >= 1 && ext[0] == '.'
    requires forall j :: 1 <= j < |ext| ==> ext[j] != '.'
    ensures LastIndex(s + ext, '.') == Some(|s|)
  {
    var head, tail := s + ['.'], ext[1..];
    assert s + ext == head + tail by {
      assert ext == [ext[0]] + tail;
    }
    assert LastIndex(head, '.') == Some(|s|) by {
      assert head[|head| - 1] == '.';
    }
    forall j | 0 <= j < |tail|
      ensures tail[j] != '.'
    {
      assert tail[j] == ext[j + 1];
    }
    LastIndexAppend(head, tail, '.');
  }

  /** Every key of the table is `.` followed by lower-case letters. */
  lemma MimeKeyShape(l: string)
    requires MimeOf(l).Some?
    ensures |l| >= 2 && l[0] == '.'
    ensures forall j :: 1 <= j < |l| ==> 'a' <= l[j] <= 'z'
  {
  }

  /**
   * A name ending in one of the table's extensions, in any letter case, gets that
   * extension's type, whatever the stem is (provided the stem is not a bare directory).
   */
  lemma MimeTypeOfSuffix(stem: string, ext: string)
    requires stem != [] && stem[|stem| - 1] != '/'
    requires MimeOf(Lower(ext)).Some?
    ensures GetMimeType(stem + ext) == MimeOf(Lower(ext)).value
  {
    var l := Lower(ext);
    MimeKeyShape(l);
    forall j | 0 <= j < |ext|
      ensures (j == 0 <==> ext[j] == '.') && ext[j] != '/'
    {
      assert l[j] == LowerChar(ext[j]);
    }
    ExtnameOfSuffix(stem, ext);
    assert Lower(Extname(stem + ext)) == l;
  }

  /** A character that does not occur has no last occurrence. */
  lemma {:induction false} LastIndexAbsent(s: string, c: char)
    requires c !in s
    ensures LastIndex(s, c) == None
  {
    if s != [] {
      var p := s[..|s| - 1];
      assert c !in p by {
        assert forall j :: 0 <= j < |p| ==> p[j] == s[j];
      }
      LastIndexAbsent(p, c);
    }
  }

  /** Stripping the trailing slashes introduces no character. */
  lemma {:induction false} StripTrailingSlashesAbsent(s: string, c: char)
    requires c !in s
    ensures c !in StripTrailingSlashes(s)
  {
    if s != [] && s[|s| - 1] == '/' {
      var p := s[..|s| - 1];
      assert c !in p by {
        assert forall j :: 0 <= j < |p| ==> p[j] == s[j];
      }
      StripTrailingSlashesAbsent(p, c);
    }
  }

  /** The last segment of a path holds only characters of the path. */
  lemma BasenameAbsent(t: string, c: char)
    requires c !in t
    ensures c !in Basename(t)
  {
    match LastIndex(t, '/')
    case Some(k) =>
      var b := t[k + 1..];
      assert forall j :: 0 <= j < |b| ==> b[j] == t[k + 1 + j];
    case None =>
  }

  /** A name without any `.` has no extension. */
  lemma ExtnameWithoutDot(filename: string)
    requires '.' !in filename
    ensures Extname(filename) == ""
  {
    var t := StripTrailingSlashes(filename);
    StripTrailingSlashesAbsent(filename, '.');
    BasenameAbsent(t, '.');
    LastIndexAbsent(Basename(t), '.');
  }

  /** A name without any `.` is given the default `image/jpeg`. */
  lemma MimeTypeWithoutDot(filename: string)
    requires '.' !in filename
    ensures GetMimeType(filename) == "image/jpeg"
  {
    ExtnameWithoutDot(filename);
    assert Lower("") == "";
  }

  // ---------------------------------------------------------------- extractImageUrl

  /**
   * The server's `extractImageUrl`: matches stop only at white space, `"`, `\` and `)`
   * (so they may hold `]`), are returned without cleanup, and pass the test with an image
   * extension, `image` or `cdn`.
   */
  method ExtractImageUrl(text: string) returns (r: Option<string>)
    ensures r == Pick(ServerImage, text)
    ensures r.None? <==> NoUrlIn(ServerImage, text, 0, |text|)
    ensures r.Some? ==> r.value in Candidates(ServerImage, text)
    ensures r.Some? ==> FirstStrongOrFirst(ServerImage, Candidates(ServerImage, text), r.value)
    ensures r.Some? ==> (StartsWith(r.value, "http://") || StartsWith(r.value, "https://"))
    ensures r.Some? ==> forall m :: 0 <= m < |r.value| ==> !Excluded(ServerImage, r.value[m])
  {
    r := Extract(ServerImage, text);
    PickNoneIff(ServerImage, text);
    if r.Some? {
      PickSelects(ServerImage, text);
      ghost var k := PickIndex(ServerImage, text);
      CandidateShape(ServerImage, text, k);
    }
  }

  /**
   * The lookbehind `(?<!")` at the end of the server's pattern never rejects a match:
   * the last character of a run is never `"`, which the class already refuses.
   */
  lemma LookbehindVacuous(text: string, k: nat)
    requires k < |Candidates(ServerImage, text)|
    ensures var c := Candidates(ServerImage, text)[k];
      c != [] && c[|c| - 1] != '"'
  {
    CandidateShape(ServerImage, text, k);
  }

  // ---------------------------------------------------------------- callImageApi

  /** A `data:` URI with a base64 payload. */
  function DataUrl(mime: string, base64: string): (u: string)
    ensures StartsWith(u, "data:") && EndsWith(u, base64)
    ensures StartsWith(u[5..], mime + ";base64,")
  {
    "data:" + mime + ";base64," + base64
  }

  /**
   * The model of the upstream request: the default parameter applies only when no model
   * is passed at all, so an empty model string is sent as it is.
   */
  function ServerModel(model: Option<string>): (m: string)
    ensures model.None? ==> m == DefaultModel
    ensures model.Some? ==> m == model.value
  {
    match model
    case Some(v) => v
    case None => DefaultModel
  }

  /** The prefix `callImageApi` puts before the downloaded image: a PNG data URI, whatever the image's real type. */
  const PngDataPrefix := "data:image/png;base64,"

  /** The downloaded image, already base64-encoded, or a failed download. */
  datatype ImageFetch = FetchFailed | FetchOk(base64: string)

  /** How `callImageApi` ends: its three errors, or `{imageUrl, imageBase64, rawResponse}`. */
  datatype GenerationOutcome =
    | UpstreamFailed(status: int, errorText: string)
    | NoImageUrl
    | ImageDownloadFailed(url: string)
    | Generated(imageUrl: string, imageBase64: string, rawResponse: string)

  /**
   * `callImageApi`: a non-ok reply fails with its status and whole body; otherwise the
   * URL is extracted from the raw body, downloaded, and returned as a PNG data URI.
   */
  method CallImageApi(api: ClientApi.ApiReply, rawText: string, image: ImageFetch)
    returns (outcome: GenerationOutcome)
    ensures !api.ok ==> outcome == UpstreamFailed(api.status, api.errorText)
    ensures api.ok && Pick(ServerImage, rawText).None? ==> outcome == NoImageUrl
    ensures api.ok && Pick(ServerImage, rawText).Some? && image.FetchFailed? ==>
              outcome == ImageDownloadFailed(Pick(ServerImage, rawText).value)
    ensures api.ok && Pick(ServerImage, rawText).Some? && image.FetchOk? ==>
              outcome == Generated(Pick(ServerImage, rawText).value,
                                   PngDataPrefix + image.base64, rawText)
    ensures outcome.Generated? ==> outcome.imageUrl in Candidates(ServerImage, rawText)
  {
    if !api.ok {
      return UpstreamFailed(api.status, api.errorText);
    }
    var imageUrl := ExtractImageUrl(rawText);
    if imageUrl.None? {
      return NoImageUrl;
    }
    if image.FetchFailed? {
      return ImageDownloadFailed(imageUrl.value);
    }
    outcome := Generated(imageUrl.value, PngDataPrefix + image.base64, rawText);
  }

  // ---------------------------------------------------------------- /api/edit

  /** An uploaded file: its original name and its content, base64-encoded. */
  datatype Upload = Upload(originalName: string, base64: string)

  /** The `referenceImagesBase64` field: falsy, a JSON array of strings, or text `JSON.parse` rejects. */
  datatype ReferenceField = NoReferences | ReferenceJson(refs: seq<string>) | MalformedJson

  /** Why the handler answers without calling the API. */
  datatype EditError = MissingPrompt | MissingApiKey | MissingImage | ReferenceParseError

  /** The status of each refusal: 400 for missing fields, 500 for the exception `JSON.parse` throws. */
  function ErrorStatus(e: EditError): (status: int)
    ensures status == 400 <==> !e.ReferenceParseError?
    ensures status == 500 <==> e.ReferenceParseError?
  {
    if e.ReferenceParseError? then 500 else 400
  }

  datatype EditRequest = Rejected(error: EditError) | Accepted(parts: seq<Part>)

  /** The data URI of an uploaded file, typed by its name. */
  function UploadUrl(u: Upload): string
  {
    DataUrl(GetMimeType(u.originalName), u.base64)
  }

  /** The main image: the base64 field when truthy, else the uploaded file. */
  function MainImageUrl(mainImageBase64: Option<string>, mainUpload: Option<Upload>): string
    requires Truthy(mainImageBase64) || mainUpload.Some?
  {
    if Truthy(mainImageBase64) then mainImageBase64.value else UploadUrl(mainUpload.value)
  }

  /** The references listed in the JSON field, or none. */
  function JsonReferences(field: ReferenceField): seq<string>
  {
    if field.ReferenceJson? then field.refs else []
  }

  /** The data URIs of the uploaded files, in order. */
  function UploadUrls(uploads: seq<Upload>): (urls: seq<string>)
    ensures |urls| == |uploads|
    ensures forall i :: 0 <= i < |uploads| ==> urls[i] == UploadUrl(uploads[i])
  {
    seq(|uploads|, i requires 0 <= i < |uploads| => UploadUrl(uploads[i]))
  }

  /** The part of one uploaded file (the main image or a reference): its type from its name, then its content as a data URI. */
  method UploadPart(file: Upload) returns (part: Part)
    ensures part == ImageUrlPart(UploadUrl(file))
  {
    var mimeType := GetMimeType(file.originalName);
    part := ImageUrlPart(DataUrl(mimeType, file.base64));
  }

  /** The loop over the uploaded reference files: one image part per file, typed by its name. */
  method PushUploads(parts: seq<Part>, uploads: seq<Upload>) returns (out: seq<Part>)
    ensures out == parts + ImageParts(UploadUrls(uploads))
  {
    ghost var urls := UploadUrls(uploads);
    out := parts;
    var i := 0;
    while i < |uploads|
      invariant 0 <= i <= |uploads|
      invariant out == parts + ImageParts(urls[..i])
    {
      var part := UploadPart(uploads[i]);
      assert part == ImageUrlPart(urls[i]);
      PushStep(parts, urls, i, out);
      out := out + [part];
      i := i + 1;
    }
    assert urls[..i] == urls;
  }

  /** One turn of either push loop: appending the next URL's part extends the prefix by one. */
  lemma PushStep(parts: seq<Part>, urls: seq<string>, i: nat, out: seq<Part>)
    requires i < |urls| && out == parts + ImageParts(urls[..i])
    ensures out + [ImageUrlPart(urls[i])] == parts + ImageParts(urls[..i + 1])
  {
    assert urls[..i + 1] == urls[..i] + [urls[i]];
    ImagePartsAppend(urls[..i], urls[i]);
  }

  /** The loop over the JSON-listed references: one image part per string. */
  method PushUrls(parts: seq<Part>, urls: seq<string>) returns (out: seq<Part>)
    ensures out == parts + ImageParts(urls)
  {
    out := parts;
    var i := 0;
    while i < |urls|
      invariant 0 <= i <= |urls|
      invariant out == parts + ImageParts(urls[..i])
    {
      PushStep(parts, urls, i, out);
      out := out + [ImageUrlPart(urls[i])];
      i := i + 1;
    }
    assert urls[..i] == urls;
  }

  /**
   * The checks and `contentParts` pushes of the `/api/edit` handler: prompt, API key and
   * main image are required in that order; the parts are the text, the main image, every
   * uploaded reference file, then every JSON-listed reference, each in its given order.
   */
  method BuildEditParts(prompt: Option<string>, apiKey: Option<string>,
                        mainImageBase64: Option<string>, mainUpload: Option<Upload>,
                        referenceUploads: seq<Upload>, referenceField: ReferenceField)
    returns (result: EditRequest)
    ensures !Truthy(prompt) ==> result == Rejected(MissingPrompt)
    ensures Truthy(prompt) && !Truthy(apiKey) ==> result == Rejected(MissingApiKey)
    ensures Truthy(prompt) && Truthy(apiKey) && !Truthy(mainImageBase64) && mainUpload.None? ==>
              result == Rejected(MissingImage)
    ensures (Truthy(prompt) && Truthy(apiKey) && (Truthy(mainImageBase64) || mainUpload.Some?)
             && referenceField.MalformedJson?) ==> result == Rejected(ReferenceParseError)
    ensures result.Accepted? <==>
              Truthy(prompt) && Truthy(apiKey) && (Truthy(mainImageBase64) || mainUpload.Some?)
              && !referenceField.MalformedJson?
    ensures result.Accepted? ==>
              result.parts == [TextPart(prompt.value), ImageUrlPart(MainImageUrl(mainImageBase64, mainUpload))]
                              + ImageParts(UploadUrls(referenceUploads))
                              + ImageParts(JsonReferences(referenceField))
  {
    if !Truthy(prompt) {
      return Rejected(MissingPrompt);
    }
    if !Truthy(apiKey) {
      return Rejected(MissingApiKey);
    }
    var parts := [TextPart(prompt.value)];
    if Truthy(mainImageBase64) {
      parts := parts + [ImageUrlPart(mainImageBase64.value)];
    } else if mainUpload.Some? {
      var mainPart := UploadPart(mainUpload.value);
      parts := parts + [mainPart];
    } else {
      return Rejected(MissingImage);
    }
    assert parts == [TextPart(prompt.value), ImageUrlPart(MainImageUrl(mainImageBase64, mainUpload))];
    parts := PushUploads(parts, referenceUploads);
    if referenceField.MalformedJson? {
      return Rejected(ReferenceParseError);
    }
    parts := PushUrls(parts, JsonReferences(referenceField));
    result := Accepted(parts);
  }

  /** Positions in an accepted request: the main image second, uploads next, JSON references last. */
  lemma EditPartsLayout(prompt: string, main: string, uploads: seq<Upload>, refs: seq<string>, i: nat)
    requires i < 2 + |uploads| + |refs|
    ensures var parts := [TextPart(prompt), ImageUrlPart(main)] + ImageParts(UploadUrls(uploads)) + ImageParts(refs);
      && |parts| == 2 + |uploads| + |refs|
      && (i == 0 ==> parts[i] == TextPart(prompt))
      && (i == 1 ==> parts[i] == ImageUrlPart(main))
      && (2 <= i < 2 + |uploads| ==> parts[i] == ImageUrlPart(UploadUrl(uploads[i - 2])))
      && (2 + |uploads| <= i ==> parts[i] == ImageUrlPart(refs[i - 2 - |uploads|]))
  {
    var head := [TextPart(prompt), ImageUrlPart(main)] + ImageParts(UploadUrls(uploads));
    var parts := head + ImageParts(refs);
    if i < |head| {
      assert parts[i] == head[i];
    } else {
      assert parts[i] == ImageParts(refs)[i - |head|];
    }
  }
}
