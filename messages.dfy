/**
 * The content parts of the single user message sent to the chat-completions endpoint:
 * `{type: 'text', text}` and `{type: 'image_url', image_url: {url}}`.
 */
module Messages {

  datatype Part = TextPart(text: string) | ImageUrlPart(url: string)

  /** One image part per URL (or data URI), in the given order. */
  function ImageParts(urls: seq<string>): (parts: seq<Part>)
    ensures |parts| == |urls|
    ensures forall i :: 0 <= i < |urls| ==> parts[i] == ImageUrlPart(urls[i])
  {
    seq(|urls|, i requires 0 <= i < |urls| => ImageUrlPart(urls[i]))
  }

  /** Pushing one more URL adds one more part at the end. */
  lemma ImagePartsAppend(urls: seq<string>, url: string)
    ensures ImageParts(urls + [url]) == ImageParts(urls) + [ImageUrlPart(url)]
  {
    var a := ImageParts(urls + [url]);
    var b := ImageParts(urls) + [ImageUrlPart(url)];
    forall i | 0 <= i < |a|
      ensures a[i] == b[i]
    {
      if i < |urls| {
        assert (urls + [url])[i] == urls[i];
      }
    }
  }
}
