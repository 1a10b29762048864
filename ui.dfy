/** `UI.truncateText` (public/js/ui.js). */
module Ui {
  import opened JsText

  /** `text.substring(0, n)`: a negative end counts as 0, one past the end as the length. */
  function Substring(text: string, n: int): (r: string)
    ensures |r| == if n < 0 then 0 else if n > |text| then |text| else n
    ensures r == text[..|r|]
  {
    if n < 0 then [] else if n > |text| then text else text[..n]
  }

  /**
   * `truncateText(text, maxLength = 50)`: the text itself when it is short enough,
   * otherwise its first `maxLength` characters and `...`.
   */
  function TruncateText(text: string, maxLength: int := 50): (r: string)
    ensures |text| <= maxLength ==> r == text
    ensures |text| > maxLength ==>
              |r| == (if maxLength < 0 then 0 else maxLength) + 3 && EndsWith(r, "...")
    ensures StartsWith(r, text[..if |text| <= maxLength then |text| else if maxLength < 0 then 0 else maxLength])
  {
    if |text| <= maxLength then text else Substring(text, maxLength) + "..."
  }

  /** Truncating twice with the same limit gives what truncating once gives. */
  lemma TruncateIdempotent(text: string, maxLength: int)
    ensures TruncateText(TruncateText(text, maxLength), maxLength) == TruncateText(text, maxLength)
  {
    var r := TruncateText(text, maxLength);
    if |text| > maxLength {
      var n := if maxLength < 0 then 0 else maxLength;
      assert r == text[..n] + "...";
      assert Substring(r, maxLength) == text[..n];
    }
  }

  /** The default limit is 50 characters. */
  lemma TruncateDefault(text: string)
    ensures |text| <= 50 ==> TruncateText(text) == text
    ensures |text| > 50 ==> |TruncateText(text)| == 53 && TruncateText(text)[..50] == text[..50]
  {
  }
}
