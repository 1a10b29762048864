/**
 * Media-URL extraction from free text, shared by the three extractors of the code base:
 * `ImageAPI.extractImageUrl` and `ImageAPI.extractVideoUrl` in the browser client and
 * `extractImageUrl` in the relay server.
 *
 * Each runs a global pattern `https?:\/\/[^...]+` over the text (here a hand-written
 * scanner producing the match spans), cleans each match by stripping a trailing run of
 * "noise" characters, and returns the first cleaned match that passes a keyword or
 * extension test, falling back to the first match.
 */
module UrlExtract {
  import opened Wrappers
  import opened JsText

  /** Which of the three extractors: they differ in character class, cleanup and test. */
  datatype Dialect = ClientImage | ClientVideo | ServerImage

  /** The characters the negated class `[^...]` of the dialect's pattern refuses. */
  predicate Excluded(d: Dialect, c: char)
  {
    IsSpace(c) || c == '"' || c == '\\' || c == ')'
    || (d != ServerImage && c == ']')
    || (d == ClientVideo && c == '\'')
  }

  /**
   * The characters the cleanup `replace(/[...]+$/, '')` strips from the end of a match.
   * In the video extractor the class is written `[\\"\\s']`, in which `\\s` is a backslash
   * and the letter `s`, not white space. The server does no cleanup.
   */
  predicate Noise(d: Dialect, c: char)
  {
    match d
    case ClientImage => c == '\\' || c == '"' || IsSpace(c)
    case ClientVideo => c == '\\' || c == '"' || c == 's' || c == '\''
    case ServerImage => false
  }

  /** A match of the dialect's pattern begins at position `i`. */
  predicate UrlAt(d: Dialect, text: string, i: nat)
  {
    i < |text| &&
    ((StartsWith(text[i..], "http://") && i + 7 < |text| && !Excluded(d, text[i + 7]))
     || (StartsWith(text[i..], "https://") && i + 8 < |text| && !Excluded(d, text[i + 8])))
  }

  /** Length of the scheme part `http://` or `https://` of a match at `i`. */
  function SchemeLength(text: string, i: nat): (n: nat)
    requires i <= |text|
    ensures n == 7 || n == 8
  {
    if StartsWith(text[i..], "https://") then 8 else 7
  }

  lemma SchemeOfMatch(d: Dialect, text: string, i: nat)
    requires UrlAt(d, text, i)
    ensures i + SchemeLength(text, i) < |text| && !Excluded(d, text[i + SchemeLength(text, i)])
  {
    if StartsWith(text[i..], "https://") {
      assert text[i..][4] == "https://"[4] == 's';
      assert !StartsWith(text[i..], "http://") by {
        assert "http://"[4] == ':';
      }
    }
  }

  /** The end of the run of non-excluded characters that starts at `j`. */
  function RunEnd(d: Dialect, text: string, j: nat): (k: nat)
    requires j <= |text|
    ensures j <= k <= |text|
    ensures forall m :: j <= m < k ==> !Excluded(d, text[m])
    ensures k == |text| || Excluded(d, text[k])
    decreases |text| - j
  {
    if j == |text| || Excluded(d, text[j]) then j else RunEnd(d, text, j + 1)
  }

  /** A match: the half-open range `[start, end)` of the text. */
  datatype Span = Span(start: nat, end: nat)

  /** `sp` is a greedy match: scheme, then a maximal non-empty run of allowed characters. */
  predicate IsMatch(d: Dialect, text: string, sp: Span)
  {
    sp.start < sp.end <= |text| && UrlAt(d, text, sp.start)
    && sp.start + SchemeLength(text, sp.start) < sp.end
    && (forall m :: sp.start + SchemeLength(text, sp.start) <= m < sp.end ==> !Excluded(d, text[m]))
    && (sp.end == |text| || Excluded(d, text[sp.end]))
  }

  /** No match of the pattern begins in `[a, b)`. */
  predicate NoUrlIn(d: Dialect, text: string, a: nat, b: nat)
  {
    forall p :: a <= p < b ==> !UrlAt(d, text, p)
  }

  /**
   * The matches `text.match(pattern)` (with the global flag) returns from position `i` on:
   * the scan tries each position in turn and, after a match, resumes at its end.
   * The contract says that the spans lie in the text in increasing order; SpansAreMatches
   * adds that each is a greedy match, and the lemmas after it that the scan misses none.
   */
  function SpansFrom(d: Dialect, text: string, i: nat): (spans: seq<Span>)
    requires i <= |text|
    ensures forall k :: 0 <= k < |spans| ==> i <= spans[k].start < spans[k].end <= |text|
    ensures forall k :: 0 <= k < |spans| - 1 ==> spans[k].end <= spans[k + 1].start
    decreases |text| - i
  {
    if i == |text| then []
    else if UrlAt(d, text, i) then
      var n := SchemeLength(text, i);
      SchemeOfMatch(d, text, i);
      var e := RunEnd(d, text, i + n);
      [Span(i, e)] + SpansFrom(d, text, e)
    else
      SpansFrom(d, text, i + 1)
  }

  /** The span the scan takes at a match position is a greedy match. */
  lemma FirstSpanIsMatch(d: Dialect, text: string, i: nat)
    requires UrlAt(d, text, i)
    ensures IsMatch(d, text, Span(i, RunEnd(d, text, i + SchemeLength(text, i))))
  {
    SchemeOfMatch(d, text, i);
  }

  /** Each span is a greedy match of the pattern. */
  lemma {:induction false} SpansAreMatches(d: Dialect, text: string, i: nat, k: nat)
    requires i <= |text|
    requires k < |SpansFrom(d, text, i)|
    ensures IsMatch(d, text, SpansFrom(d, text, i)[k])
    decreases |text| - i
  {
    var spans := SpansFrom(d, text, i);
    if UrlAt(d, text, i) {
      var n := SchemeLength(text, i);
      SchemeOfMatch(d, text, i);
      var e := RunEnd(d, text, i + n);
      var rest := SpansFrom(d, text, e);
      assert spans == [Span(i, e)] + rest;
      if k > 0 {
        SpansAreMatches(d, text, e, k - 1);
        assert spans[k] == rest[k - 1];
      } else {
        FirstSpanIsMatch(d, text, i);
        assert spans[0] == Span(i, e);
      }
    } else {
      assert spans == SpansFrom(d, text, i + 1);
      SpansAreMatches(d, text, i + 1, k);
    }
  }

  lemma NoUrlExtend(d: Dialect, text: string, i: nat, b: nat)
    requires NoUrlIn(d, text, i + 1, b) && !UrlAt(d, text, i)
    ensures NoUrlIn(d, text, i, b)
  {
  }

  /** There is no match exactly when no match of the pattern begins anywhere from `i` on. */
  lemma {:induction false} SpansEmptyIff(d: Dialect, text: string, i: nat)
    requires i <= |text|
    ensures SpansFrom(d, text, i) == [] <==> NoUrlIn(d, text, i, |text|)
    decreases |text| - i
  {
    if i < |text| && !UrlAt(d, text, i) {
      SpansEmptyIff(d, text, i + 1);
      if SpansFrom(d, text, i) == [] {
        NoUrlExtend(d, text, i, |text|);
      }
    }
  }

  /** No match begins before the first span: the scan takes the leftmost one. */
  lemma {:induction false} SpansLeftmost(d: Dialect, text: string, i: nat)
    requires i <= |text|
    requires SpansFrom(d, text, i) != []
    ensures NoUrlIn(d, text, i, SpansFrom(d, text, i)[0].start)
    decreases |text| - i
  {
    if !UrlAt(d, text, i) {
      SpansLeftmost(d, text, i + 1);
      NoUrlExtend(d, text, i, SpansFrom(d, text, i)[0].start);
    }
  }

  /** No match begins after the last span. */
  lemma {:induction false} SpansRightmost(d: Dialect, text: string, i: nat)
    requires i <= |text|
    requires SpansFrom(d, text, i) != []
    ensures var spans := SpansFrom(d, text, i);
      NoUrlIn(d, text, spans[|spans| - 1].end, |text|)
    decreases |text| - i
  {
    var spans := SpansFrom(d, text, i);
    if UrlAt(d, text, i) {
      var e := spans[0].end;
      var rest := SpansFrom(d, text, e);
      assert spans == [Span(i, e)] + rest;
      if rest == [] {
        SpansEmptyIff(d, text, e);
        assert spans[|spans| - 1] == spans[0];
      } else {
        SpansRightmost(d, text, e);
        assert spans[|spans| - 1] == rest[|rest| - 1];
      }
    } else {
      assert spans == SpansFrom(d, text, i + 1);
      SpansRightmost(d, text, i + 1);
    }
  }

  /**
   * No match begins between two consecutive spans (matches beginning inside a span are
   * consumed by it, as with the global flag).
   */
  lemma {:induction false} SpansNoGap(d: Dialect, text: string, i: nat, k: nat)
    requires i <= |text|
    requires k + 1 < |SpansFrom(d, text, i)|
    ensures var spans := SpansFrom(d, text, i);
      NoUrlIn(d, text, spans[k].end, spans[k + 1].start)
    decreases |text| - i
  {
    var spans := SpansFrom(d, text, i);
    if UrlAt(d, text, i) {
      var e := spans[0].end;
      var rest := SpansFrom(d, text, e);
      assert spans == [Span(i, e)] + rest;
      assert spans[k + 1] == rest[k];
      if k == 0 {
        SpansLeftmost(d, text, e);
      } else {
        SpansNoGap(d, text, e, k - 1);
        assert spans[k] == rest[k - 1];
      }
    } else {
      assert spans == SpansFrom(d, text, i + 1);
      SpansNoGap(d, text, i + 1, k);
    }
  }

  /** The text of each span, in order. */
  function Slices(text: string, spans: seq<Span>): (r: seq<string>)
    requires forall k :: 0 <= k < |spans| ==> spans[k].start <= spans[k].end <= |text|
    ensures |r| == |spans|
    ensures forall k :: 0 <= k < |spans| ==> r[k] == text[spans[k].start..spans[k].end]
  {
    if spans == [] then [] else [text[spans[0].start..spans[0].end]] + Slices(text, spans[1..])
  }

  /** The array `text.match(pattern)` returns, as a (possibly empty) sequence. */
  function Candidates(d: Dialect, text: string): seq<string>
  {
    var spans := SpansFrom(d, text, 0);
    Slices(text, spans)
  }

  /** The cleanup: `u` without its trailing run of noise characters. */
  function Clean(d: Dialect, u: string): (r: string)
    ensures |r| <= |u| && r == u[..|r|]
    ensures r == [] || !Noise(d, r[|r| - 1])
    ensures forall i :: |r| <= i < |u| ==> Noise(d, u[i])
  {
    if u != [] && Noise(d, u[|u| - 1]) then Clean(d, u[..|u| - 1]) else u
  }

  /** `/\.(png|jpg|jpeg|webp|gif)/i` finds a match in `u`. */
  predicate HasImageExtension(u: string)
  {
    var l := Lower(u);
    Contains(l, ".png") || Contains(l, ".jpg") || Contains(l, ".jpeg")
    || Contains(l, ".webp") || Contains(l, ".gif")
  }

  /** `/\.(mp4|webm|mov|avi)/i` finds a match in `u`. */
  predicate HasVideoExtension(u: string)
  {
    var l := Lower(u);
    Contains(l, ".mp4") || Contains(l, ".webm") || Contains(l, ".mov") || Contains(l, ".avi")
  }

  /** The keyword-or-extension test each extractor applies to a cleaned match. */
  predicate Strong(d: Dialect, u: string)
  {
    match d
    case ClientImage =>
      HasImageExtension(u) || Contains(u, "image") || Contains(u, "cdn") || Contains(u, "storage")
    case ServerImage => HasImageExtension(u) || Contains(u, "image") || Contains(u, "cdn")
    case ClientVideo => HasVideoExtension(u) || Contains(u, "video")
  }

  /** Index of the first candidate, from `i` on, whose cleaned form passes the test. */
  function FirstStrongFrom(d: Dialect, cands: seq<string>, i: nat): (k: Option<nat>)
    requires i <= |cands|
    ensures k.Some? ==> i <= k.value < |cands| && Strong(d, Clean(d, cands[k.value]))
    ensures k.Some? ==> forall j :: i <= j < k.value ==> !Strong(d, Clean(d, cands[j]))
    ensures k.None? ==> forall j :: i <= j < |cands| ==> !Strong(d, Clean(d, cands[j]))
    decreases |cands| - i
  {
    if i == |cands| then None
    else if Strong(d, Clean(d, cands[i])) then Some(i)
    else FirstStrongFrom(d, cands, i + 1)
  }

  /** What the extractor returns: the first passing cleaned candidate, else the first one cleaned. */
  function Pick(d: Dialect, text: string): Option<string>
  {
    var cands := Candidates(d, text);
    if cands == [] then None
    else match FirstStrongFrom(d, cands, 0)
      case Some(k) => Some(Clean(d, cands[k]))
      case None => Some(Clean(d, cands[0]))
  }

  /** The scan-and-test loop shared by the three extractors. */
  method Extract(d: Dialect, text: string) returns (r: Option<string>)
    ensures r == Pick(d, text)
  {
    var matches := Candidates(d, text);
    if matches == [] {
      return None;
    }
    var i := 0;
    while i < |matches|
      invariant 0 <= i <= |matches|
      invariant FirstStrongFrom(d, matches, 0) == FirstStrongFrom(d, matches, i)
    {
      var cleanUrl := Clean(d, matches[i]);
      if Strong(d, cleanUrl) {
        return Some(cleanUrl);
      }
      i := i + 1;
    }
    return Some(Clean(d, matches[0]));
  }

  /** `u` is what the search promises: the first cleaned candidate passing the test, else the first one cleaned. */
  predicate FirstStrongOrFirst(d: Dialect, cands: seq<string>, u: string)
  {
    (exists k :: 0 <= k < |cands| && u == Clean(d, cands[k]) && Strong(d, u)
       && forall j :: 0 <= j < k ==> !Strong(d, Clean(d, cands[j])))
    || (0 < |cands| && u == Clean(d, cands[0])
       && forall j :: 0 <= j < |cands| ==> !Strong(d, Clean(d, cands[j])))
  }

  /** The extractor returns nothing exactly when no match of the pattern begins in the text. */
  lemma PickNoneIff(d: Dialect, text: string)
    ensures Pick(d, text).None? <==> NoUrlIn(d, text, 0, |text|)
  {
    SpansEmptyIff(d, text, 0);
  }

  /** A result is the first cleaned candidate passing the test, else the first candidate cleaned. */
  lemma PickSelects(d: Dialect, text: string)
    requires Pick(d, text).Some?
    ensures FirstStrongOrFirst(d, Candidates(d, text), Pick(d, text).value)
  {
    var cands := Candidates(d, text);
    match FirstStrongFrom(d, cands, 0)
    case Some(k) =>
      assert 0 <= k < |cands| && Pick(d, text).value == Clean(d, cands[k]);
    case None =>
  }

  /** The index of the candidate a result was cleaned from. */
  lemma PickIndex(d: Dialect, text: string) returns (k: nat)
    requires Pick(d, text).Some?
    ensures k < |Candidates(d, text)| && Pick(d, text).value == Clean(d, Candidates(d, text)[k])
  {
    var cands := Candidates(d, text);
    match FirstStrongFrom(d, cands, 0)
    case Some(j) =>
      k := j;
    case None =>
      k := 0;
  }

  /** The text of a match is a scheme followed by characters of the class, all refused nothing. */
  lemma MatchShape(d: Dialect, text: string, sp: Span)
    requires IsMatch(d, text, sp)
    ensures var c := text[sp.start..sp.end];
      && (StartsWith(c, "http://") || StartsWith(c, "https://"))
      && SchemeLength(c, 0) < |c|
      && forall m :: 0 <= m < |c| ==> !Excluded(d, c[m])
  {
    var c := text[sp.start..sp.end];
    var n := SchemeLength(text, sp.start);
    SchemeOfMatch(d, text, sp.start);
    var tail := text[sp.start..];
    forall m | 0 <= m < n
      ensures c[..n][m] == tail[..n][m]
    {
      assert c[..n][m] == c[m] == text[sp.start + m];
      assert tail[..n][m] == tail[m] == text[sp.start + m];
    }
    assert c[..n] == tail[..n];
    if n == 8 {
      assert c[..n] == "https://";
    } else {
      assert c[..n] == "http://";
    }
    assert SchemeLength(c, 0) == n by {
      assert c[0..] == c;
    }
    forall m | 0 <= m < |c|
      ensures !Excluded(d, c[m])
    {
      if m >= n {
        assert c[m] == text[sp.start + m];
      } else {
        assert c[m] == c[..n][m];
      }
    }
  }

  /** Every candidate has the shape of a match. */
  lemma CandidateShape(d: Dialect, text: string, k: nat)
    requires k < |Candidates(d, text)|
    ensures var c := Candidates(d, text)[k];
      && (StartsWith(c, "http://") || StartsWith(c, "https://"))
      && SchemeLength(c, 0) < |c|
      && forall m :: 0 <= m < |c| ==> !Excluded(d, c[m])
  {
    SpansAreMatches(d, text, 0, k);
    MatchShape(d, text, SpansFrom(d, text, 0)[k]);
  }

  /** Cleaning a candidate never eats into its scheme. */
  lemma CleanKeepsScheme(d: Dialect, c: string)
    requires StartsWith(c, "http://") || StartsWith(c, "https://")
    ensures StartsWith(Clean(d, c), "http://") || StartsWith(Clean(d, c), "https://")
  {
    var r := Clean(d, c);
    var n := if StartsWith(c, "https://") then 8 else 7;
    assert c[n - 1] == c[..n][n - 1] == '/';
    assert !Noise(d, c[n - 1]);
    assert n <= |r|;
    assert r[..n] == c[..n];
  }

  /** The client's image cleanup never changes a candidate: its noise characters are all refused by the class. */
  lemma CleanImageCandidate(text: string, k: nat)
    requires k < |Candidates(ClientImage, text)|
    ensures Clean(ClientImage, Candidates(ClientImage, text)[k]) == Candidates(ClientImage, text)[k]
  {
    var c := Candidates(ClientImage, text)[k];
    CandidateShape(ClientImage, text, k);
    assert !Noise(ClientImage, c[|c| - 1]);
  }

  /** Every result starts with the scheme and does not end in a noise character of its dialect. */
  lemma PickShape(d: Dialect, text: string)
    requires Pick(d, text).Some?
    ensures var u := Pick(d, text).value;
      && (StartsWith(u, "http://") || StartsWith(u, "https://"))
      && !Noise(d, u[|u| - 1])
  {
    var k := PickIndex(d, text);
    CandidateShape(d, text, k);
    CleanKeepsScheme(d, Candidates(d, text)[k]);
  }

  /** The video cleanup eats a trailing `s`: `https://x.co/clips` comes out as `https://x.co/clip`. */
  lemma VideoCleanupEatsS()
    ensures Clean(ClientVideo, "https://x.co/clips") == "https://x.co/clip"
    ensures Clean(ClientImage, "https://x.co/clips") == "https://x.co/clips"
  {
    var u := "https://x.co/clips";
    assert u[..|u| - 1] == "https://x.co/clip";
  }
}
