# NANO image generator — a verified model of its request and history logic

This project is a Dafny model of the sequential logic of the NANO image generator. The generator is a small Express server plus a browser client. Both send prompts (and images) to an OpenAI-style chat-completions endpoint and fish the resulting media URL out of the streamed reply. The model covers five pieces:

- **Media-URL extraction** (`UrlExtract`, `ClientApi`, `Server`):
  - `text.match(/https?:\/\/[^…]+/g)` is written out as a scanner for greedy runs.
  - Over it sits the "first candidate that passes the keyword or extension test, else the first candidate" search.
  - There are three variants of the character class, the cleanup and the test: the client's image extractor, the client's video extractor and the server's image extractor.
- **Request assembly and the streaming driver** (`ClientApi`, `Server`):
  - The content parts of `editImage`, `generateVideoFromFrames` and the server's `/api/edit` handler, in their push order.
  - The `VIDEO_MODELS` table with its landscape fallback.
  - `getMimeType`, including Node's POSIX `path.extname`.
  - The read loop that concatenates the chunks and counts their bytes.
  - The sequence of progress reports and the ways a call can end.
- **The history log** (`History`): a most-recent-first list of at most 30 entries under one storage key, with the quota-driven `save` loop that retries with ever shorter prefixes.
- **The task queue and page rules** (`App`):
  - `TaskManager`, with at most three tasks and an active-task pointer.
  - `buildModelName` and the flash/ratio rule of `updateVersionOptions`.
  - The cap of five reference images.
  - Template appending.
- **`truncateText`** (`Ui`).

Network, storage and clock effects are parameters:

- the API's reply (`ApiReply`);
- the body's chunks (`Chunk`);
- the image relay's reply (`ProxyReply`, `ImageFetch`);
- a `setItem` oracle that decides whether a write succeeds;
- ids and timestamps, passed in as strings.

Progress callbacks become the returned sequence of `Progress` reports. The modules are:

- `Wrappers`: `Option`.
- `JsText`: the JavaScript string built-ins the code uses (`trim`, `toLowerCase`, `includes`, truthiness, `||`).
- `Messages`: the content parts.
- `UrlExtract`, `ClientApi`, `Server`, `History`, `Ui` and `App`.

## Notes on the code

- The code has no parser for `data:` lines: the extractors run directly over the raw response text (public/js/api.js:76, server.js:86).
- No request carries a timeout.
- No character class refuses `>`. The client image cleanup strips `\`, `"` and white space; the video cleanup strips `\`, `"`, `'` and the letter `s`. The tests look for an extension anywhere in the URL, not only at its end.
- Progress reports never decrease, but they can repeat: the streaming percent stays at 70 once it gets there, and a chunk of zero bytes repeats the last report. `ClientApi.CallEventsAscending` proves the non-decreasing order.

## Model

| member | source | states |
|---|---|---|
| UrlExtract.RunEnd | public/js/api.js:17 | the greedy run of allowed characters from `j`: every character before its end is allowed, and it ends at the end of the text or at a refused character |
| UrlExtract.SchemeOfMatch | public/js/api.js:17 | where a match begins, the scheme (`http://` or `https://`) is followed by at least one allowed character |
| UrlExtract.SpansFrom | public/js/api.js:18 | the matches found from `i` lie inside the text, are non-empty, and come in increasing, non-overlapping order |
| UrlExtract.FirstSpanIsMatch | public/js/api.js:17 | the span taken at a match position is a scheme followed by a maximal non-empty run of allowed characters |
| UrlExtract.SpansAreMatches | public/js/api.js:18 | every span the global scan returns is a greedy match of the pattern |
| UrlExtract.SpansEmptyIff | public/js/api.js:18-19 | the scan finds nothing exactly when no match of the pattern begins anywhere in the rest of the text |
| UrlExtract.SpansLeftmost | public/js/api.js:18 | no match begins before the first span |
| UrlExtract.SpansRightmost | public/js/api.js:18 | no match begins after the last span |
| UrlExtract.SpansNoGap | public/js/api.js:18 | no match begins between two consecutive spans, so the scan misses no match |
| UrlExtract.Slices | public/js/api.js:18 | candidate `k` is the text of span `k` |
| UrlExtract.Clean | public/js/api.js:21 | the cleanup removes exactly the trailing run of the dialect's noise characters: the result is a prefix, does not end in noise, and everything removed is noise |
| UrlExtract.FirstStrongFrom | public/js/api.js:20-25 | the index of the first cleaned candidate passing the test, and none before it passes; none means no candidate passes |
| UrlExtract.Extract | public/js/api.js:18-28 | the scan-and-test loop returns the first passing cleaned candidate, else the first candidate cleaned, else nothing |
| UrlExtract.PickNoneIff | public/js/api.js:17-28 | an extractor returns null exactly when no `http(s)://` followed by an allowed character occurs in the text |
| UrlExtract.PickSelects | public/js/api.js:20-26 | a result is the first candidate (in order of appearance) whose cleaned form passes the test, or the first candidate cleaned when none passes |
| UrlExtract.PickIndex | public/js/api.js:20-26 | every result is the cleaned form of one of the candidates |
| UrlExtract.MatchShape | public/js/api.js:17 | the text of a match starts with the scheme, has at least one character after it, and holds no refused character |
| UrlExtract.CandidateShape | public/js/api.js:17-18 | every candidate has the shape of a match |
| UrlExtract.CleanKeepsScheme | public/js/api.js:180 | the cleanup never eats into the scheme, since `/` is not a noise character |
| UrlExtract.CleanImageCandidate | public/js/api.js:21 | the client's image cleanup never changes a candidate, because its noise characters are all refused by the class |
| UrlExtract.PickShape | public/js/api.js:185 | every result starts with the scheme and does not end in a noise character of its dialect |
| UrlExtract.VideoCleanupEatsS | public/js/api.js:180 | the video cleanup turns `https://x.co/clips` into `https://x.co/clip`, and the image cleanup leaves it alone |
| ClientApi.ExtractImageUrl | public/js/api.js:16-29 | null iff no `http(s)://` run exists; otherwise the first candidate passing the extension/`image`/`cdn`/`storage` test, else the first candidate, returned verbatim; it starts with the scheme and holds no white space, `"`, `\`, `)` or `]` |
| ClientApi.ExtractVideoUrl | public/js/api.js:175-188 | null iff no run (the class also refuses `'`) exists; otherwise the first candidate passing the video extension/`video` test, else the first; it starts with the scheme and never ends in `s`, `'`, `"` or `\` |
| ClientApi.ImagePayload | public/js/api.js:34-38 | a streamed request carrying the parts; a falsy model is replaced by the default model |
| ClientApi.EditImageParts | public/js/api.js:136-150 | the text part, then the main image, then each reference in order; 2 + the number of references parts, 2 when there are none |
| ClientApi.VideoModel | public/js/api.js:191 | the table's model for a known ratio, else the landscape model of the same mode |
| ClientApi.VideoModelFallback | public/js/api.js:261 | only `portrait` selects a model other than the landscape one, and the two differ |
| ClientApi.FrameParts | public/js/api.js:263-275 | the text part, then the start frame, then the end frame only when it is truthy |
| ClientApi.TextToVideoPayload | public/js/api.js:190-204 | a streamed request with the prompt alone, for `veo_3_1_t2v_portrait` when the ratio is `portrait` and `veo_3_1_t2v_landscape` otherwise |
| ClientApi.FrameToVideoPayload | public/js/api.js:260-288 | a streamed request with the frame parts, for `veo_3_1_i2v_s_portrait` when the ratio is `portrait` and `veo_3_1_i2v_s_landscape` otherwise |
| ClientApi.StreamPercent | public/js/api.js:70 | the streaming percent stays within [15, 70] |
| ClientApi.StreamPercentMonotone | public/js/api.js:70 | more bytes never give a smaller streaming percent |
| ClientApi.TotalBytesMonotone | public/js/api.js:68 | the byte count of a longer prefix of the chunks is never smaller |
| ClientApi.StreamEventsAscending | public/js/api.js:62-72 | the reports of the read loop never decrease and stay within [15, 70] |
| ClientApi.ReadStream | public/js/api.js:56-72 | after the loop, `fullText` is the in-order concatenation of the chunks, `receivedBytes` the sum of their sizes, and one report per chunk was made with the percent for the bytes so far |
| ClientApi.ReadStep | public/js/api.js:66-71 | each turn appends the chunk's text, adds its size and adds one report |
| ClientApi.Prefix | public/js/api.js:51 | `substring(0, 200)`: a prefix of at most 200 characters, the whole text when it is short enough |
| ClientApi.CallEventsAscending | public/js/api.js:32-96 | whichever way a call ends, its reports never decrease and stay within [5, 100] |
| ClientApi.ParseAndDownload | public/js/api.js:76-101 | no URL: the extraction error and no further report; a failed relay: the download error after the 80 report; otherwise the URL and the image after the 80, 90 and 100 reports |
| ClientApi.CallApiStream | public/js/api.js:31-102 | a non-ok reply fails with its status and the first 200 characters of its text after the 5 report alone; otherwise 5, 15, the streaming reports and 75, then as ParseAndDownload; the reports never decrease and stay within [5, 100] |
| ClientApi.ParseVideo | public/js/api.js:242-249 | no URL: the extraction error; otherwise the video URL after the 100 report |
| ClientApi.CallVideoStream | public/js/api.js:198-249 | a non-ok reply fails after the 5 report; otherwise 5, 15, the streaming reports, 75, then the video URL and 100, or the extraction error; the reports never decrease and stay within [5, 100] |
| Server.StripTrailingSlashesSpec | server.js:36 | what `path.extname` first strips is exactly the trailing run of `/` |
| Server.LastIndexSpec | server.js:36 | the last occurrence of a character has none after it; no occurrence means the character does not occur |
| Server.BasenameSpec | server.js:36 | the last path segment ends the path and holds no `/` |
| Server.Extname | server.js:36 | the extension is empty or starts with `.` |
| Server.ExtnameSpec | server.js:36 | the extension ends the path (after its trailing slashes) and holds no other `.` and no `/` |
| Server.LastIndexAppend | server.js:36 | appending text free of a character does not move its last occurrence |
| Server.BasenameAppend | server.js:36 | appending text free of `/` to a non-directory path extends its last segment |
| Server.ExtnameOfSuffix | server.js:36 | a name ending in `.` plus characters other than `.` and `/` has exactly that extension |
| Server.LastDot | server.js:36 | the `.` that starts such a suffix is the last `.` of the name |
| Server.LastIndexAbsent | server.js:36 | a character that does not occur has no last occurrence |
| Server.StripTrailingSlashesAbsent | server.js:36 | stripping trailing slashes introduces no character |
| Server.BasenameAbsent | server.js:36 | the last segment holds only characters of the path |
| Server.MimeOf | server.js:37-43 | the table gives only `image/jpeg`, `image/png`, `image/webp` or `image/gif` |
| Server.MimeKeyShape | server.js:37-43 | every table key is `.` followed by lower-case letters |
| Server.GetMimeType | server.js:35-45 | the type is always one of the four image types |
| Server.MimeTypeOfSuffix | server.js:35-45 | a name ending in a table extension, in any letter case, gets that extension's type |
| Server.ExtnameWithoutDot | server.js:36 | a name without `.` has no extension |
| Server.MimeTypeWithoutDot | server.js:44 | a name without `.` gets the default `image/jpeg` |
| Server.ExtractImageUrl | server.js:48-61 | null iff no `http(s)://` run of characters outside white space, `"`, `\` and `)` exists; otherwise the first match passing the extension/`image`/`cdn` test (no `storage`), else the first match, untrimmed |
| Server.LookbehindVacuous | server.js:49 | no candidate ends in `"`, so the `(?<!")` lookbehind never rejects a match |
| Server.DataUrl | server.js:182 | a `data:` URI: `data:`, the type, `;base64,`, the payload |
| Server.ServerModel | server.js:64 | the default model applies only when no model is passed; a passed model, even an empty one, is used as it is |
| Server.CallImageApi | server.js:64-107 | a non-ok reply fails with its status and text; no URL fails with the extraction error; a failed download fails with the URL; otherwise the extracted URL, the body as a `data:image/png;base64,` URI, and the raw text |
| Server.ErrorStatus | server.js:159-235 | the validation errors answer 400; a reference field that does not parse answers 500 |
| Server.UploadUrls | server.js:190-197 | one data URI per uploaded file, in order, typed by the file's name |
| Server.UploadPart | server.js:177-183 | an uploaded file becomes an image part holding its data URI |
| Server.PushUploads | server.js:189-198 | the uploaded reference files are appended as image parts, in order |
| Server.PushStep | server.js:193-196 | each turn of a push loop appends the next URL's part |
| Server.PushUrls | server.js:201-210 | the JSON-listed references are appended as image parts, in order |
| Server.BuildEditParts | server.js:157-210 | prompt, API key and main image are required in that order; a malformed reference field fails after them; otherwise the text part, the main image (the base64 field when truthy, else the uploaded file), the uploaded references, then the JSON references, and only then is the request accepted |
| Server.EditPartsLayout | server.js:167-210 | in an accepted request, part 0 is the text, part 1 the main image, then the uploads, then the JSON references, by position |
| History.Read | public/js/history.js:5-12 | `getAll` reads the stored list, or `[]` when the key is absent or does not parse |
| History.OrNull | public/js/history.js:20-21 | `value \|\| null`: the value when truthy, else null |
| History.NewItem | public/js/history.js:17-25 | each field is copied when truthy, else it gets its default: the clock id, null, `generate`, `image`, the clock time; the prompt is copied as it is |
| History.Prepend | public/js/history.js:27-31 | `unshift` and `splice(30)` leave min(n + 1, 30) items |
| History.PrependOrder | public/js/history.js:27-31 | the new item comes first, and the old items follow in order; only the oldest are dropped, and none when fewer than 30 were held |
| History.WithoutId | public/js/history.js:39 | exactly the items whose id differs are kept |
| History.WithoutIdUnchanged | public/js/history.js:39 | the filter changes nothing when no item has the id |
| History.WithoutIdAppend | public/js/history.js:39 | `filter` keeps order and works item by item: filtering a concatenation concatenates the filtered parts, and one item is kept exactly when its id differs |
| History.FindById | public/js/history.js:78 | the result has the id and is in the list; none exactly when no item has the id |
| History.FindByIdFirst | public/js/history.js:78 | the result is the first item with the id |
| History.ShrunkLength | public/js/history.js:57 | `max(1, floor(0.7 n))` is at least 1 and, for n ≥ 2, strictly less than n, so the loop terminates |
| History.SaveStoresPrefix | public/js/history.js:48-74 | after `save`, the store holds its old contents, nothing, or a non-empty prefix of the list |
| History.SaveAcceptedOrEmpty | public/js/history.js:51-70 | `save([])` writes nothing; an accepted write stores the whole list; a non-quota error stops without retry |
| History.SaveFinalAttempt | public/js/history.js:57-66 | once the shrunk list has at most one item, the key is removed and one last write is made; if it fails, nothing is stored |
| History.SaveAlwaysFull | public/js/history.js:51-66 | a store that always reports the quota ends empty, however long the list |
| History.HistoryManager.GetAll | public/js/history.js:5-12 | reads the stored list, or `[]` |
| History.HistoryManager.GetById | public/js/history.js:76-79 | the stored item with the id, none exactly when there is none |
| History.HistoryManager.Clear | public/js/history.js:44-46 | removes the key; the history then reads as empty |
| History.HistoryManager.Save | public/js/history.js:48-74 | the loop leaves the store as the specification of `save` prescribes |
| History.HistoryManager.Add | public/js/history.js:14-35 | returns the new entry and saves it in front of the stored history, cut to 30 |
| History.HistoryManager.Remove | public/js/history.js:37-42 | returns the stored history without the id and saves it |
| History.RemoveLastItemIsStale | public/js/history.js:37-42 | removing the only stored item leaves it in storage, because `save([])` writes nothing |
| Ui.Substring | public/js/ui.js:73 | `substring(0, n)` with a negative `n` as 0 and one past the end as the length: a prefix of that length |
| Ui.TruncateText | public/js/ui.js:71-74 | the text unchanged when it is at most `maxLength` long; otherwise its first `maxLength` characters and `...`, `maxLength` + 3 long; it always starts with the first min(length, `maxLength`) characters |
| Ui.TruncateIdempotent | public/js/ui.js:71-74 | truncating twice with the same limit is truncating once |
| Ui.TruncateDefault | public/js/ui.js:71 | the default limit is 50 |
| App.BuildModelName | public/js/app.js:164-173 | an unknown version or ratio gives `gemini-3.0-pro-image-landscape`; otherwise the name starts with the version prefix and `-` and ends with the ratio suffix and the version suffix |
| App.RatioKeyIsSuffix | public/js/app.js:3-9 | every ratio's suffix is its key, which never ends in `-2k` or `-4k` |
| App.ParseFlashName | public/js/app.js:172 | the flash name of a ratio is read back as that version and ratio |
| App.ParseProName | public/js/app.js:172 | the pro name of a ratio is read back as that version and ratio |
| App.ParseSizedProName | public/js/app.js:172 | a ratio key followed by a size suffix is not a ratio key, and the ratio is what precedes the suffix |
| App.ParseProSizedName | public/js/app.js:172 | the 2k and 4k names of a ratio are read back as that version and ratio |
| App.ModelNameRoundTrip | public/js/app.js:164-173 | a known version and ratio can be read back from the name built from them |
| App.ModelNameInjective | public/js/app.js:164-173 | distinct known choices always give distinct model names |
| App.SupportedExactly | public/js/app.js:196-199 | of the known ratios, only portrait and landscape allow the flash version; every other version is always allowed |
| App.ReferenceAccepted | public/js/app.js:405-412 | the loop takes files in order until five are held, and stops early only when five are held |
| App.SpliceOne | public/js/app.js:428 | `splice(index, 1)` removes the element at a valid index and nothing at an index past the end |
| App.SpliceOneRemoves | public/js/app.js:428 | removal at a valid index deletes exactly that element and keeps the others in order |
| App.ApplyTemplate | public/js/app.js:343-350 | a non-empty trimmed prompt becomes `<trimmed>, <template>`, an empty one just the template |
| App.TrimUnchanged | public/js/app.js:344 | a string that starts and ends with non-space characters is its own trim |
| App.TemplatesAccumulate | public/js/app.js:343-350 | two template clicks in turn list both templates after the trimmed prompt |
| App.AppState.Model | public/js/app.js:175-177 | for a known version and ratio, the current model name reads back as them |
| App.AppState.UpdateVersionOptions | public/js/app.js:186-209 | for a known ratio, each option is disabled exactly when unsupported, and an unsupported selection moves to `gemini-3.0-pro`, after which the selection is supported; an unknown ratio changes nothing |
| App.AppState.AddReferenceImages | public/js/app.js:404-414 | the files are appended in order, as many as fit under five |
| App.AppState.RemoveReferenceImage | public/js/app.js:427-428 | the list loses the element at the index, as `splice` removes it |
| App.Merge | public/js/app.js:67 | `Object.assign` replaces the fields the update carries and keeps the others |
| App.IndexOfId | public/js/app.js:65 | the first task with the id, or none when no task has it |
| App.WithoutTask | public/js/app.js:73 | exactly the tasks whose id differs are kept |
| App.WithoutTaskAppend | public/js/app.js:73 | `filter` keeps order and works task by task: filtering a concatenation concatenates the filtered parts, and one task is kept exactly when its id differs |
| App.WithoutTaskFirst | public/js/app.js:73-75 | the first task of the filtered list, which `removeTask` makes active, is the first task in the old order whose id differs |
| App.UpdateFirstFrame | public/js/app.js:64-70 | only the first task with the id changes, merged with the update; no task with the id, no change |
| App.TaskManager.constructor | public/js/app.js:34-37 | the queue starts empty, with no active task |
| App.TaskManager.CanAddTask | public/js/app.js:39-41 | true exactly when fewer than three tasks exist |
| App.TaskManager.AddTask | public/js/app.js:43-62 | refused, with nothing changed, when three tasks exist; otherwise a running task with progress 0 and no result is appended and made active; there are never more than three |
| App.TaskManager.UpdateTask | public/js/app.js:64-70 | the update is merged into the first task with the id, and the active task is unchanged |
| App.TaskManager.RemoveTask | public/js/app.js:72-81 | every task with the id is dropped; the first remaining task becomes active if the active one went; none is active when none remain; otherwise the active task is unchanged and stays listed |
| App.TaskManager.SetActive | public/js/app.js:83-94 | the id becomes active; a truthy result of the first task with it is shown as a video when its type names `video`, else as an image |

## Left out

- The network. Every `fetch` (the API, the image relay, the server's download) is an input to the model. So are `response.text()`, `reader.read()` and `TextDecoder`. The proxy routes, `/api/generate`, `/api/config/status`, `/api/health`, static serving and start-up are not modelled.
- `FileReader`, `blobToBase64`, `Buffer.toString('base64')` and `URL.createObjectURL` are not modelled: encoded payloads are opaque strings.
- Multer's upload limits (20 MB, one main image, five references) are not modelled.
- `JSON.parse` of the reference field and of the stored history is not modelled. The reference field is absent, a list of strings, or malformed. The store is absent, unparsable, or a list of items. A parse result of another shape (a number, an object, an array of non-strings) is not modelled.
- `JSON.stringify` of the history is not modelled.
- The DOM is not modelled: rendering, listeners, toasts, modals, theme and tab switching, previews, `formatDate`, `render` and `updateCount`. Persisting the selection to `localStorage` in `updateVersionOptions` and in the selectors is not modelled either.
- Clocks are not modelled: `Date.now()` ids and `toISOString()` times are string parameters.
- History.ShrunkLength: computes `floor(0.7 n)` as `floor(7 n / 10)`. This equals the floating-point product for every length the history can have (at most 30), but not for every natural number (90, for one).
- ClientApi.StreamPercent: the percent is a `real`, so floating-point rounding is not modelled. Only its bounds and its ordering are proved.
- UrlExtract.Strong: the case-insensitive match folds ASCII letters only.
- App.BuildModelName: a version or ratio key that names a property of `Object.prototype` (such as `constructor`) is treated as unknown. The same goes for `VIDEO_MODELS` lookups in ClientApi.VideoModel.
- App.TaskManager.UpdateTask: only `status`, `progress` and `result` can be updated, and an update cannot set `result` back to null.
- App.Task: tasks are values, so a caller holding a task object does not see later updates to it. `result` is a string, where the code stores the whole result object, which is always truthy; the empty-string case that App.TaskManager.SetActive's truthiness test handles cannot arise in the code.
- App.AppState.UpdateVersionOptions: the selected option and `state.modelVersion` are taken to agree, as the page keeps them. A missing `<select>` element is not modelled.
- ClientApi.ExtractImageUrl: the case where the returned URL is falsy cannot occur, because every candidate is at least 8 characters long.
- Ui.TruncateText: lengths count Unicode scalar values, where JavaScript's `length` counts UTF-16 code units. A character outside the Basic Multilingual Plane counts once and is never split, so such text may be kept whole where the code would truncate it.
- Ui.Substring: `substring` positions are counted in Unicode scalar values, not UTF-16 code units, for the same reason.
- ClientApi.Prefix: the 200-character prefix of an error body counts Unicode scalar values, not UTF-16 code units, so text outside the Basic Multilingual Plane keeps more characters than the code keeps.
