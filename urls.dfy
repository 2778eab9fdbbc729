/**
 * `clean_url` and `extract_urls`: the bare URLs of a message, found with
 * RX_RFC_3986 and trimmed of one trailing junk character.
 */
module Urls {
  import opened Wrappers
  import opened Text
  import opened Patterns

  /** The characters `[a-zA-Z0-9/]` that `clean_url` keeps at the end of a url. */
  predicate IsUrlTailChar(c: char) {
    ('a' <= c <= 'z') || ('A' <= c <= 'Z') || ('0' <= c <= '9') || c == '/'
  }

  /**
   * Where `[^a-zA-Z0-9/]$` matches in multi-line mode: a character outside
   * the class that ends the string or stands before a newline.
   */
  predicate JunkAt(s: string, k: nat)
    requires k < |s|
  {
    !IsUrlTailChar(s[k]) && (k + 1 == |s| || s[k + 1] == '\n')
  }

  /** `clean_url`: deletes every junk character, one `re.sub` pass. */
  function CleanUrl(url: string): (r: string)
    ensures |r| <= |url|
  {
    if url == [] then []
    else (if JunkAt(url, 0) then [] else [url[0]]) + CleanUrl(url[1..])
  }

  /**
   * On a string without newlines, which every extracted url is, `clean_url`
   * drops the last character exactly when it is not a letter, a digit or `/`,
   * and otherwise returns its input.
   */
  lemma {:induction false} CleanUrlTrimsLastChar(url: string)
    requires '\n' !in url
    ensures url != [] && !IsUrlTailChar(url[|url| - 1]) ==> CleanUrl(url) == url[..|url| - 1]
    ensures url == [] || IsUrlTailChar(url[|url| - 1]) ==> CleanUrl(url) == url
    ensures |CleanUrl(url)| >= |url| - 1 && CleanUrl(url) <= url
  {
    if url != [] {
      var tail := url[1..];
      assert '\n' !in tail;
      CleanUrlTrimsLastChar(tail);
      if tail == [] {
      } else {
        assert !JunkAt(url, 0);
        assert url[|url| - 1] == tail[|tail| - 1];
        assert url == [url[0]] + tail;
        assert url[..|url| - 1] == [url[0]] + tail[..|tail| - 1];
      }
    }
  }

  /** The RX_RFC_3986 matches of a text, as index ranges. */
  function UrlSpans(text: string): (spans: seq<Span>)
    ensures SpansWithin(text, 0, spans)
  {
    Scan(SchemeUrl, text, 0)
  }

  /** The shape RX_RFC_3986 accepts: 2 to 6 word characters, `://`, then no whitespace. */
  predicate IsSchemeUrl(u: string) {
    var w := NextIndex(u, 0, EndsWordRun);
    && 2 <= w <= 6
    && w + 3 < |u|
    && u[w..w + 3] == "://"
    && forall k :: w + 3 <= k < |u| ==> !IsSpace(u[k])
  }

  /** `NextIndex` is pinned down by its contract. */
  lemma NextIndexIs(s: string, j: nat, stop: char -> bool, r: nat)
    requires j <= r <= |s|
    requires forall k :: j <= k < r ==> !stop(s[k])
    requires r < |s| ==> stop(s[r])
    ensures NextIndex(s, j, stop) == r
  {
  }

  /** The pieces of an RX_RFC_3986 match at `i`: the word run, `://`, then a run without whitespace. */
  lemma SchemeMatchParts(text: string, i: nat, e: nat)
    requires i <= |text| && MatchEnd(SchemeUrl, text, i) == Some(e)
    ensures
      var w := NextIndex(text, i, EndsWordRun);
      && 2 <= w - i <= 6 && w + 3 < e <= |text|
      && text[w] == ':' && text[w + 1] == '/' && text[w + 2] == '/'
      && e == NextIndex(text, w + 3, IsSpace)
  {
    assert MatchEnd(SchemeUrl, text, i) == SchemeUrlEnd(text, i);
    var w := NextIndex(text, i, EndsWordRun);
    assert text[w..w + 3] == "://";
    assert text[w..w + 3][0] == text[w] && text[w..w + 3][1] == text[w + 1] && text[w..w + 3][2] == text[w + 2];
  }

  /** A raw match holds no newline: its word run, `://` and tail run contain none. */
  lemma RawUrlHasNoNewline(text: string, s: Span)
    requires s.start <= |text| && MatchEnd(SchemeUrl, text, s.start) == Some(s.end)
    ensures '\n' !in text[s.start..s.end]
  {
    SchemeMatchParts(text, s.start, s.end);
    var u := text[s.start..s.end];
    var w := NextIndex(text, s.start, EndsWordRun);
    forall k | 0 <= k < |u|
      ensures u[k] != '\n'
    {
      assert u[k] == text[s.start + k];
      if s.start + k < w {
        assert !EndsWordRun(text[s.start + k]);
      } else if s.start + k >= w + 3 {
        assert !IsSpace(text[s.start + k]);
      }
    }
  }

  lemma SeparatorAt(v: string, d: nat)
    requires d + 3 <= |v| && v[d] == ':' && v[d + 1] == '/' && v[d + 2] == '/'
    ensures v[d..d + 3] == "://"
  {
  }

  /** Every raw match is a whole whitespace-free run of scheme-url shape. */
  lemma RawUrlIsSchemeUrl(text: string, s: Span)
    requires s.start <= |text| && MatchEnd(SchemeUrl, text, s.start) == Some(s.end)
    ensures IsSchemeUrl(text[s.start..s.end])
    ensures s.end == |text| || IsSpace(text[s.end])
    ensures '\n' !in text[s.start..s.end]
  {
    SchemeMatchParts(text, s.start, s.end);
    RawUrlHasNoNewline(text, s);
    var u := text[s.start..s.end];
    var w := NextIndex(text, s.start, EndsWordRun);
    var d := w - s.start;
    NextIndexIs(u, 0, EndsWordRun, d);
    assert u[d] == text[w] && u[d + 1] == text[w + 1] && u[d + 2] == text[w + 2];
    SeparatorAt(u, d);
    forall k | d + 3 <= k < |u|
      ensures !IsSpace(u[k])
    {
      assert u[k] == text[s.start + k];
    }
  }

  /**
   * `RX_RFC_3986.findall(text)`: the matched substrings, left to right. Each
   * is a whole whitespace-free scheme url without newlines: the match stops
   * only at whitespace or at the end of the text.
   */
  function RawUrls(text: string): (raw: seq<string>)
    ensures |raw| == |UrlSpans(text)|
    ensures forall k :: 0 <= k < |raw| ==>
      UrlSpans(text)[k].end <= |text| && raw[k] == text[UrlSpans(text)[k].start..UrlSpans(text)[k].end]
    ensures forall k :: 0 <= k < |raw| ==> IsSchemeUrl(raw[k]) && '\n' !in raw[k]
    ensures forall k :: 0 <= k < |raw| ==>
      UrlSpans(text)[k].end == |text| || IsSpace(text[UrlSpans(text)[k].end])
  {
    var spans := UrlSpans(text);
    assert forall k :: 0 <= k < |spans| ==>
      var u := text[spans[k].start..spans[k].end];
      IsSchemeUrl(u) && '\n' !in u && (spans[k].end == |text| || IsSpace(text[spans[k].end]))
    by {
      forall k | 0 <= k < |spans|
        ensures
          var u := text[spans[k].start..spans[k].end];
          IsSchemeUrl(u) && '\n' !in u && (spans[k].end == |text| || IsSpace(text[spans[k].end]))
      {
        ScanMatchAt(SchemeUrl, text, k);
        RawUrlIsSchemeUrl(text, spans[k]);
      }
    }
    seq(|spans|, k requires 0 <= k < |spans| => text[spans[k].start..spans[k].end])
  }

  /**
   * `url` is `raw` or `raw` without its last character, the latter exactly
   * when that character is not an ASCII letter, a digit or `/`.
   */
  predicate TrimmedOf(url: string, raw: string) {
    && raw != []
    && url <= raw
    && |url| >= |raw| - 1
    && (url == raw <==> IsUrlTailChar(raw[|raw| - 1]))
  }

  /** Cleaning non-empty strings without newlines trims each of them. */
  lemma CleanUrlsTrimmed(raw: seq<string>)
    requires forall k :: 0 <= k < |raw| ==> raw[k] != [] && '\n' !in raw[k]
    ensures forall k :: 0 <= k < |raw| ==> TrimmedOf(CleanUrl(raw[k]), raw[k])
  {
    forall k | 0 <= k < |raw|
      ensures TrimmedOf(CleanUrl(raw[k]), raw[k])
    {
      CleanUrlTrimsLastChar(raw[k]);
    }
  }

  /**
   * `extract_urls`: every match of RX_RFC_3986, cleaned, duplicates kept.
   * The k-th url is the k-th raw match, trimmed of a last character that is
   * not a letter, a digit or `/`.
   */
  function ExtractUrls(text: string): (urls: seq<string>)
    ensures |urls| == |RawUrls(text)|
    ensures forall k :: 0 <= k < |urls| ==> urls[k] == CleanUrl(RawUrls(text)[k])
    ensures forall k :: 0 <= k < |urls| ==> TrimmedOf(urls[k], RawUrls(text)[k])
  {
    var raw := RawUrls(text);
    CleanUrlsTrimmed(raw);
    seq(|raw|, k requires 0 <= k < |raw| => CleanUrl(raw[k]))
  }

  /**
   * `extract_urls` keeps the matches in text order: they are left to right
   * and do not overlap, so the k-th url comes from the k-th match.
   */
  lemma ExtractedUrls(text: string)
    ensures forall j, k :: 0 <= j < k < |UrlSpans(text)| ==> UrlSpans(text)[j].end <= UrlSpans(text)[k].start
  {
    ScanIsFindAll(SchemeUrl, text, 0);
  }

  /** A text in which `://` never occurs yields no urls. */
  lemma NoSeparatorNoUrls(text: string)
    requires Absent(text, "://")
    ensures ExtractUrls(text) == []
  {
    forall q: nat | q <= |text|
      ensures MatchEnd(SchemeUrl, text, q).None?
    {
      var w := NextIndex(text, q, EndsWordRun);
      if w + 3 < |text| && text[w..w + 3] == "://" {
        assert OccursAt(text, "://", w);
      }
    }
    NoMatchScansEmpty(SchemeUrl, text);
  }
}
