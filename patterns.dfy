/**
 * The two regular expressions of the pipeline and Python's `findall` /
 * `finditer` search over them, as an explicit left-to-right scanner.
 *
 *   RX_RFC_3986  `\w{2,6}://[^\s]+`
 *   RX_MD_URLS   `(?P<description>[^()]+)\((?P<url>[^)]+)\)`
 *
 * Both patterns are deterministic once greediness and backtracking are
 * worked out, so a match at a position is a partial function of the text
 * and the position: `MatchEnd`.
 */
module Patterns {
  import opened Wrappers
  import opened Text

  datatype Pattern = SchemeUrl | MarkdownLink

  /** A match of a pattern: the half-open index range `[start, end)`. */
  datatype Span = Span(start: nat, end: nat)

  predicate EndsWordRun(c: char) { !IsWordChar(c) }

  predicate IsParen(c: char) { c == '(' || c == ')' }

  predicate IsCloseParen(c: char) { c == ')' }

  /**
   * `\w{2,6}://[^\s]+` anchored at `i`. The greedy `\w{2,6}` can only be
   * followed by `:` when it took the whole run of word characters starting
   * at `i`, so a match needs that run to have length 2 to 6; `[^\s]+` then
   * runs to the next whitespace character or the end of the text.
   */
  function SchemeUrlEnd(text: string, i: nat): (r: Option<nat>)
    requires i <= |text|
    ensures r.Some? ==> i < r.value <= |text|
    ensures r.Some? ==> r.value == |text| || IsSpace(text[r.value])
    ensures r.Some? ==> forall k :: i <= k < r.value ==> !IsSpace(text[k])
  {
    var w := NextIndex(text, i, EndsWordRun);
    if 2 <= w - i <= 6 && w + 3 < |text| && text[w..w + 3] == "://" && !IsSpace(text[w + 3])
    then Some(NextIndex(text, w + 3, IsSpace))
    else None
  }

  /**
   * `[^()]+\([^)]+\)` anchored at `i`: the description runs to the first
   * parenthesis, which must be `(`, and the url runs from there to the first
   * `)`; both runs must be non-empty.
   */
  function MarkdownLinkEnd(text: string, i: nat): (r: Option<nat>)
    requires i <= |text|
    ensures r.Some? ==> i < r.value <= |text|
    ensures r.Some? ==> text[r.value - 1] == ')'
    ensures r.Some? ==> forall k :: i <= k < r.value - 1 ==> text[k] != ')'
  {
    var d := NextIndex(text, i, IsParen);
    if i < d < |text| && text[d] == '(' then
      var u := NextIndex(text, d + 1, IsCloseParen);
      if d + 1 < u < |text| then Some(u + 1) else None
    else None
  }

  /** Where a match of `p` that starts at `i` ends, if there is one. */
  function MatchEnd(p: Pattern, text: string, i: nat): (r: Option<nat>)
    requires i <= |text|
    ensures r.Some? ==> i < r.value <= |text|
  {
    match p
    case SchemeUrl => SchemeUrlEnd(text, i)
    case MarkdownLink => MarkdownLinkEnd(text, i)
  }

  /** Every span is a non-empty range of `text` at or after `from`. */
  predicate SpansWithin(text: string, from: nat, spans: seq<Span>) {
    forall k :: 0 <= k < |spans| ==> from <= spans[k].start < spans[k].end <= |text|
  }

  /** `p` matches nowhere in `[lo, hi)`. */
  ghost predicate NoMatchIn(p: Pattern, text: string, lo: nat, hi: nat) {
    forall q: nat :: lo <= q < hi && q <= |text| ==> MatchEnd(p, text, q).None?
  }

  ghost predicate SpansAreMatches(p: Pattern, text: string, from: nat, spans: seq<Span>) {
    forall k :: 0 <= k < |spans| ==>
      from <= spans[k].start <= |text| && MatchEnd(p, text, spans[k].start) == Some(spans[k].end)
  }

  ghost predicate SpansInOrder(spans: seq<Span>) {
    forall j, k :: 0 <= j < k < |spans| ==> spans[j].end <= spans[k].start
  }

  ghost predicate GapsHaveNoMatch(p: Pattern, text: string, from: nat, spans: seq<Span>) {
    && NoMatchIn(p, text, from, if spans == [] then |text| else spans[0].start)
    && (forall k :: 0 <= k < |spans| - 1 ==> NoMatchIn(p, text, spans[k].end, spans[k + 1].start))
    && (spans != [] ==> NoMatchIn(p, text, spans[|spans| - 1].end, |text|))
  }

  /**
   * What Python's `findall` promises, stated without a scanner: the spans are
   * matches, in order and non-overlapping, and no match starts anywhere
   * between them (so each is the leftmost match after its predecessor).
   */
  ghost predicate IsFindAll(p: Pattern, text: string, from: nat, spans: seq<Span>) {
    SpansAreMatches(p, text, from, spans) && SpansInOrder(spans) && GapsHaveNoMatch(p, text, from, spans)
  }

  lemma ScanStep(p: Pattern, text: string, i: nat, e: nat, rest: seq<Span>)
    requires i <= |text| && MatchEnd(p, text, i) == Some(e)
    requires IsFindAll(p, text, e, rest)
    ensures IsFindAll(p, text, i, [Span(i, e)] + rest)
  {
    var r := [Span(i, e)] + rest;
    assert SpansAreMatches(p, text, i, r) by {
      forall k | 0 <= k < |r|
        ensures i <= r[k].start <= |text| && MatchEnd(p, text, r[k].start) == Some(r[k].end)
      {
        if k > 0 {
          assert r[k] == rest[k - 1];
        }
      }
    }
    assert SpansInOrder(r) by {
      forall j, k | 0 <= j < k < |r|
        ensures r[j].end <= r[k].start
      {
        assert r[k] == rest[k - 1];
        if j > 0 {
          assert r[j] == rest[j - 1];
        }
      }
    }
    assert GapsHaveNoMatch(p, text, i, r) by {
      assert NoMatchIn(p, text, i, i);
      forall k | 0 <= k < |r| - 1
        ensures NoMatchIn(p, text, r[k].end, r[k + 1].start)
      {
        assert r[k + 1] == rest[k];
        if k > 0 {
          assert r[k] == rest[k - 1];
        }
      }
      if rest != [] {
        assert r[|r| - 1] == rest[|rest| - 1];
      }
    }
  }

  lemma ScanSkip(p: Pattern, text: string, i: nat, rest: seq<Span>)
    requires i < |text| && MatchEnd(p, text, i).None?
    requires IsFindAll(p, text, i + 1, rest)
    ensures IsFindAll(p, text, i, rest)
  {
  }

  /**
   * The leftmost, non-overlapping search from index `i`: try to match at
   * `i`; on success resume after the match, otherwise at `i + 1`.
   */
  function Scan(p: Pattern, text: string, i: nat): (spans: seq<Span>)
    requires i <= |text|
    ensures SpansWithin(text, i, spans)
    decreases |text| - i
  {
    if i == |text| then []
    else match MatchEnd(p, text, i)
      case Some(e) => [Span(i, e)] + Scan(p, text, e)
      case None => Scan(p, text, i + 1)
  }

  /** The scanner meets `IsFindAll`. */
  lemma {:induction false} ScanIsFindAll(p: Pattern, text: string, i: nat)
    requires i <= |text|
    ensures IsFindAll(p, text, i, Scan(p, text, i))
    decreases |text| - i
  {
    if i < |text| {
      match MatchEnd(p, text, i)
      case Some(e) =>
        ScanIsFindAll(p, text, e);
        ScanStep(p, text, i, e, Scan(p, text, e));
      case None =>
        ScanIsFindAll(p, text, i + 1);
        ScanSkip(p, text, i, Scan(p, text, i + 1));
    }
  }

  /** The k-th span of a scan from the start is a match. */
  lemma ScanMatchAt(p: Pattern, text: string, k: nat)
    requires k < |Scan(p, text, 0)|
    ensures Scan(p, text, 0)[k].start <= |text|
    ensures MatchEnd(p, text, Scan(p, text, 0)[k].start) == Some(Scan(p, text, 0)[k].end)
  {
    ScanIsFindAll(p, text, 0);
  }

  lemma FindAllTail(p: Pattern, text: string, from: nat, spans: seq<Span>)
    requires spans != [] && IsFindAll(p, text, from, spans)
    ensures IsFindAll(p, text, spans[0].end, spans[1..])
  {
    var rest := spans[1..];
    assert SpansAreMatches(p, text, spans[0].end, rest) by {
      forall k | 0 <= k < |rest|
        ensures spans[0].end <= rest[k].start <= |text| && MatchEnd(p, text, rest[k].start) == Some(rest[k].end)
      {
        assert rest[k] == spans[k + 1];
      }
    }
    assert SpansInOrder(rest) by {
      forall j, k | 0 <= j < k < |rest|
        ensures rest[j].end <= rest[k].start
      {
        assert rest[j] == spans[j + 1] && rest[k] == spans[k + 1];
      }
    }
    assert GapsHaveNoMatch(p, text, spans[0].end, rest) by {
      forall k | 0 <= k < |rest| - 1
        ensures NoMatchIn(p, text, rest[k].end, rest[k + 1].start)
      {
        assert rest[k] == spans[k + 1] && rest[k + 1] == spans[k + 2];
      }
      if rest != [] {
        assert rest[|rest| - 1] == spans[|spans| - 1];
        assert rest[0] == spans[1];
      }
    }
  }

  lemma FindAllSkip(p: Pattern, text: string, from: nat, spans: seq<Span>)
    requires from < |text| && MatchEnd(p, text, from).None?
    requires IsFindAll(p, text, from, spans)
    ensures IsFindAll(p, text, from + 1, spans)
  {
    forall k | 0 <= k < |spans|
      ensures from + 1 <= spans[k].start
    {
      assert MatchEnd(p, text, spans[k].start).Some?;
    }
  }

  lemma FindAllHead(p: Pattern, text: string, from: nat, spans: seq<Span>)
    requires from <= |text| && MatchEnd(p, text, from).Some?
    requires IsFindAll(p, text, from, spans)
    ensures spans != [] && spans[0] == Span(from, MatchEnd(p, text, from).value)
  {
  }

  /** One step of a findall from `from`: at the end, no spans; else what a match or a miss at `from` leaves. */
  lemma FindAllStep(p: Pattern, text: string, from: nat, spans: seq<Span>)
    requires from <= |text| && IsFindAll(p, text, from, spans)
    ensures from == |text| ==> spans == []
    ensures from < |text| && MatchEnd(p, text, from).Some? ==>
      && spans != [] && spans[0] == Span(from, MatchEnd(p, text, from).value)
      && IsFindAll(p, text, spans[0].end, spans[1..])
    ensures from < |text| && MatchEnd(p, text, from).None? ==> IsFindAll(p, text, from + 1, spans)
  {
    if from < |text| {
      if MatchEnd(p, text, from).Some? {
        FindAllHead(p, text, from, spans);
        FindAllTail(p, text, from, spans);
      } else {
        FindAllSkip(p, text, from, spans);
      }
    }
  }

  /** `IsFindAll` determines the spans: the scanner is the only search that meets it. */
  lemma {:induction false} FindAllIsUnique(p: Pattern, text: string, from: nat, spans: seq<Span>)
    requires from <= |text| && IsFindAll(p, text, from, spans)
    ensures spans == Scan(p, text, from)
    decreases |text| - from, 1
  {
    if from == |text| {
      FindAllStep(p, text, from, spans);
    } else if MatchEnd(p, text, from).Some? {
      UniqueAfterMatch(p, text, from, spans);
    } else {
      UniqueAfterMiss(p, text, from, spans);
    }
  }

  lemma {:induction false} UniqueAfterMatch(p: Pattern, text: string, from: nat, spans: seq<Span>)
    requires from < |text| && MatchEnd(p, text, from).Some? && IsFindAll(p, text, from, spans)
    ensures spans == Scan(p, text, from)
    decreases |text| - from, 0
  {
    FindAllStep(p, text, from, spans);
    FindAllIsUnique(p, text, spans[0].end, spans[1..]);
    ScanAfterMatch(p, text, from, spans);
  }

  lemma {:induction false} UniqueAfterMiss(p: Pattern, text: string, from: nat, spans: seq<Span>)
    requires from < |text| && MatchEnd(p, text, from).None? && IsFindAll(p, text, from, spans)
    ensures spans == Scan(p, text, from)
    decreases |text| - from, 0
  {
    FindAllStep(p, text, from, spans);
    FindAllIsUnique(p, text, from + 1, spans);
    ScanAfterMiss(p, text, from);
  }

  lemma ScanAfterMatch(p: Pattern, text: string, from: nat, spans: seq<Span>)
    requires from < |text| && MatchEnd(p, text, from).Some?
    requires spans != [] && spans[0] == Span(from, MatchEnd(p, text, from).value)
    requires spans[1..] == Scan(p, text, spans[0].end)
    ensures spans == Scan(p, text, from)
  {
    assert spans == [spans[0]] + spans[1..];
  }

  lemma ScanAfterMiss(p: Pattern, text: string, from: nat)
    requires from < |text| && MatchEnd(p, text, from).None?
    ensures Scan(p, text, from) == Scan(p, text, from + 1)
  {
  }

  /** A text where the pattern matches at no index has no matches. */
  lemma NoMatchScansEmpty(p: Pattern, text: string)
    requires NoMatchIn(p, text, 0, |text|)
    ensures Scan(p, text, 0) == []
  {
    FindAllIsUnique(p, text, 0, []);
  }

  /** The description group of a markdown-link match at `s`. */
  function LinkDescription(text: string, s: Span): (d: string)
    requires s.start <= s.end <= |text|
    ensures MatchEnd(MarkdownLink, text, s.start) == Some(s.end) ==>
      |d| > 0 && forall c :: c in d ==> !IsParen(c)
  {
    text[s.start..NextIndex(text, s.start, IsParen)]
  }

  /** The url group of a markdown-link match at `s`. */
  function LinkUrl(text: string, s: Span): (u: string)
    requires s.start <= s.end <= |text|
    ensures MatchEnd(MarkdownLink, text, s.start) == Some(s.end) ==>
      && |u| > 0 && (forall c :: c in u ==> !IsCloseParen(c))
      && s.end - |u| - 2 >= s.start && text[s.end - |u| - 2] == '(' && text[s.end - 1] == ')'
      && OccursAt(text, u, s.end - 1 - |u|)
  {
    var d := NextIndex(text, s.start, IsParen);
    if d + 1 < s.end then text[d + 1..s.end - 1] else []
  }
}
