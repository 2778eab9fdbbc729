/**
 * `normalize_links_and_add_footer`: turn every fetched url of a message into
 * a markdown link, mark every url that failed in red, and append one quoted
 * footer block per fetched article.
 *
 * The markdown-link pass fills `footer_summaries` first, but the pass over
 * the fetched urls overwrites every entry it made with `user_description`
 * set to `None`; what the first pass leaves behind is only the key order
 * (urls named in markdown links first) and the crash it can raise.
 */
module Rewriter {
  import opened Wrappers
  import opened Text
  import opened Patterns
  import opened OrderedMaps
  import opened Articles

  /** A match of RX_MD_URLS: its `description` and `url` groups. */
  datatype Link = Link(description: string, url: string)

  /** `OutputFooter`. */
  datatype OutputFooter = OutputFooter(url: string, userDescription: Option<string>, title: string, summary: string)

  /**
   * `l` holds the two groups of the match `s`: the matched text is
   * `description(url)`, the description is non-empty without parentheses
   * and the url is non-empty without `)`. These determine both groups.
   */
  predicate GroupsOf(text: string, s: Span, l: Link) {
    && s.start <= s.end <= |text|
    && text[s.start..s.end] == l.description + "(" + l.url + ")"
    && |l.description| > 0 && (forall c :: c in l.description ==> !IsParen(c))
    && |l.url| > 0 && (forall c :: c in l.url ==> !IsCloseParen(c))
  }

  /** A slice cut around the two single characters at `d` and `e - 1`. */
  lemma SliceAround(t: string, a: nat, d: nat, e: nat)
    requires a <= d && d + 1 < e <= |t|
    ensures t[a..e] == t[a..d] + [t[d]] + t[d + 1..e - 1] + [t[e - 1]]
  {
  }

  /** The groups of one RX_MD_URLS match. */
  lemma LinkGroups(text: string, s: Span)
    requires s.start <= |text| && MatchEnd(MarkdownLink, text, s.start) == Some(s.end)
    ensures GroupsOf(text, s, Link(LinkDescription(text, s), LinkUrl(text, s)))
  {
    var d := NextIndex(text, s.start, IsParen);
    assert MarkdownLinkEnd(text, s.start) == Some(s.end);
    assert s.start < d && d + 1 < s.end - 1 && text[d] == '(' && text[s.end - 1] == ')';
    assert LinkDescription(text, s) == text[s.start..d];
    assert LinkUrl(text, s) == text[d + 1..s.end - 1];
    SliceAround(text, s.start, d, s.end);
  }

  /** `RX_MD_URLS(text)`: the markdown links of a text, left to right, one per match. */
  function MarkdownLinks(text: string): (links: seq<Link>)
    ensures |links| == |Scan(MarkdownLink, text, 0)|
  {
    var spans := Scan(MarkdownLink, text, 0);
    seq(|spans|, k requires 0 <= k < |spans| =>
      Link(LinkDescription(text, spans[k]), LinkUrl(text, spans[k])))
  }

  /** The k-th markdown link holds the two groups of the k-th RX_MD_URLS match. */
  lemma MarkdownLinkGroups(text: string)
    ensures forall k :: 0 <= k < |MarkdownLinks(text)| ==>
      GroupsOf(text, Scan(MarkdownLink, text, 0)[k], MarkdownLinks(text)[k])
  {
    var spans := Scan(MarkdownLink, text, 0);
    forall k | 0 <= k < |spans|
      ensures GroupsOf(text, spans[k], MarkdownLinks(text)[k])
    {
      ScanMatchAt(MarkdownLink, text, k);
      LinkGroups(text, spans[k]);
    }
  }

  /** The `url` groups of some links. */
  function UrlsOf(links: seq<Link>): (urls: seq<string>)
    ensures |urls| == |links| && forall k :: 0 <= k < |links| ==> urls[k] == links[k].url
  {
    seq(|links|, k requires 0 <= k < |links| => links[k].url)
  }

  /** The `url` groups of the markdown links of a text. */
  function MarkdownUrls(text: string): seq<string> {
    UrlsOf(MarkdownLinks(text))
  }

  lemma MarkdownUrlOccursAt(text: string, k: nat)
    requires k < |MarkdownUrls(text)|
    ensures MarkdownUrls(text)[k] != [] && !Absent(text, MarkdownUrls(text)[k])
  {
    var spans := Scan(MarkdownLink, text, 0);
    var u := MarkdownUrls(text)[k];
    ScanMatchAt(MarkdownLink, text, k);
    assert u == LinkUrl(text, spans[k]);
    assert OccursAt(text, u, spans[k].end - 1 - |u|);
  }

  /** The url of every markdown link occurs in the text. */
  lemma MarkdownUrlsOccur(text: string)
    ensures forall u :: u in MarkdownUrls(text) ==> u != [] && !Absent(text, u)
  {
    forall k | 0 <= k < |MarkdownUrls(text)| {
      MarkdownUrlOccursAt(text, k);
    }
  }

  /** A text without `(` has no markdown links. */
  lemma NoParenNoLinks(text: string)
    requires '(' !in text
    ensures MarkdownUrls(text) == []
  {
    forall q: nat | q <= |text|
      ensures MatchEnd(MarkdownLink, text, q).None?
    {
      var d := NextIndex(text, q, IsParen);
      if d < |text| {
        assert text[d] in text;
      }
    }
    NoMatchScansEmpty(MarkdownLink, text);
  }

  /** A key of `summaries` whose value is a `UrlContent`. */
  predicate IsContentKey(summaries: OrderedMap<Entry>, u: string) {
    u in summaries.values && summaries.values[u].Content?
  }

  /** A key of `summaries` whose value is FETCH_ERROR. */
  predicate IsErrorKey(summaries: OrderedMap<Entry>, u: string) {
    u in summaries.values && summaries.values[u].FetchError?
  }

  /** A key whose article was not summarised; reading its footer text crashes. */
  predicate IsPlainTextKey(summaries: OrderedMap<Entry>, u: string) {
    IsContentKey(summaries, u) && !summaries.values[u].content.isSummary
  }

  /** The urls of `urls` that map to a `UrlContent`, in order. */
  function ContentUrls(urls: seq<string>, summaries: OrderedMap<Entry>): (r: seq<string>)
    ensures forall u :: u in r <==> u in urls && IsContentKey(summaries, u)
  {
    if urls == [] then []
    else
      var n := |urls| - 1;
      assert urls == urls[..n] + [urls[n]];
      ContentUrls(urls[..n], summaries) + (if IsContentKey(summaries, urls[n]) then [urls[n]] else [])
  }

  /** The urls of `urls` that map to FETCH_ERROR, in order. */
  function ErrorUrls(urls: seq<string>, summaries: OrderedMap<Entry>): (r: seq<string>)
    ensures forall u :: u in r <==> u in urls && IsErrorKey(summaries, u)
  {
    if urls == [] then []
    else
      var n := |urls| - 1;
      assert urls == urls[..n] + [urls[n]];
      ErrorUrls(urls[..n], summaries) + (if IsErrorKey(summaries, urls[n]) then [urls[n]] else [])
  }

  /** The entry the pass over the fetched urls writes for a url. */
  function FooterFor(url: string, c: UrlContent): OutputFooter {
    OutputFooter(url, None, c.article.title, if c.isSummary then c.article.summary else c.article.text)
  }

  /** The key order of `footer_summaries`: markdown-linked urls, then the other fetched urls. */
  function FooterKeys(text: string, summaries: OrderedMap<Entry>): seq<string> {
    Dedup(ContentUrls(MarkdownUrls(text), summaries) + ContentUrls(summaries.keys, summaries))
  }

  /** `footer_summaries` once both passes are done. */
  function Footers(text: string, summaries: OrderedMap<Entry>): (f: OrderedMap<OutputFooter>)
    requires summaries.Valid()
    ensures f.Valid()
    ensures forall u :: u in f.values <==> IsContentKey(summaries, u)
  {
    OrderedMap(FooterKeys(text, summaries),
               map u | u in summaries.values && summaries.values[u].Content? :: FooterFor(u, summaries.values[u].content))
  }

  /** Some url of `urls` maps to an article that was not summarised. */
  predicate AnyPlainText(urls: seq<string>, summaries: OrderedMap<Entry>) {
    exists u :: u in urls && IsPlainTextKey(summaries, u)
  }

  lemma AnyPlainTextStep(urls: seq<string>, i: nat, summaries: OrderedMap<Entry>)
    requires i < |urls|
    ensures AnyPlainText(urls[..i + 1], summaries) <==> AnyPlainText(urls[..i], summaries) || IsPlainTextKey(summaries, urls[i])
  {
    assert urls[..i + 1] == urls[..i] + [urls[i]];
    if AnyPlainText(urls[..i + 1], summaries) {
      var v :| v in urls[..i + 1] && IsPlainTextKey(summaries, v);
      if v != urls[i] {
        assert v in urls[..i];
      }
    }
  }

  /** The pass over the markdown links raises when one names a url whose article was not summarised. */
  predicate Crashes(text: string, summaries: OrderedMap<Entry>) {
    AnyPlainText(MarkdownUrls(text), summaries)
  }

  /** `f"[{fs.title}]({url})"`. */
  function Markdown(title: string, url: string): string {
    "[" + title + "](" + url + ")"
  }

  /** `f"<span style='color: red'>{url}</span>"`. */
  function RedSpan(url: string): string {
    "<span style='color: red'>" + url + "</span>"
  }

  /** The message after replacing each url of `urls`, in order, by its markdown link. */
  function LinkAll(message: string, urls: seq<string>, footers: map<string, OutputFooter>): string
    requires forall u :: u in urls ==> u in footers
  {
    if urls == [] then message
    else
      var n := |urls| - 1;
      ReplaceAll(LinkAll(message, urls[..n], footers), urls[n], Markdown(footers[urls[n]].title, urls[n]))
  }

  /** The message after wrapping each url of `urls`, in order, in a red span. */
  function MarkAll(message: string, urls: seq<string>): string {
    if urls == [] then message
    else
      var n := |urls| - 1;
      ReplaceAll(MarkAll(message, urls[..n]), urls[n], RedSpan(urls[n]))
  }

  /** `fs.user_description or fs.title`: an absent or empty description falls back to the title. */
  function Heading(fs: OutputFooter): (h: string)
    ensures h == fs.title || (fs.userDescription == Some(h) && h != [])
    ensures fs.userDescription.None? || fs.userDescription == Some([]) ==> h == fs.title
    ensures fs.userDescription.Some? && fs.userDescription.value != [] ==> h == fs.userDescription.value
  {
    if fs.userDescription.Some? && fs.userDescription.value != [] then fs.userDescription.value else fs.title
  }

  /** `[f"> {s}" for s in lines]`. */
  function Quoted(lines: seq<string>): (r: seq<string>)
    ensures |r| == |lines| && forall i :: 0 <= i < |r| ==> r[i] == "> " + lines[i]
  {
    seq(|lines|, i requires 0 <= i < |lines| => "> " + lines[i])
  }

  /**
   * `"\n".join([f"> {s}" for s in summary.split("\n")])`: the summary with
   * `> ` before its first line and after every newline.
   */
  function QuoteLines(summary: string): (q: string)
    ensures q == "> " + ReplaceAll(summary, "\n", "\n> ")
  {
    ReplaceAllIsJoinOfSplit(summary, "\n", "\n> ");
    JoinQuoted(Split(summary, "\n"));
    Join(Quoted(Split(summary, "\n")), "\n")
  }

  /** The footer block of one article. */
  function Block(fs: OutputFooter): string {
    "\n\n> # " + Heading(fs) + "\n" + QuoteLines(fs.summary)
  }

  /** The footer blocks of `urls`, in order. */
  function Blocks(urls: seq<string>, footers: map<string, OutputFooter>): string
    requires forall u :: u in urls ==> u in footers
  {
    if urls == [] then []
    else
      var n := |urls| - 1;
      Blocks(urls[..n], footers) + Block(footers[urls[n]])
  }

  /**
   * What `normalize_links_and_add_footer` returns or raises: the crash of
   * the markdown-link pass, or the message with links made markdown, failed
   * urls marked and the footer blocks appended.
   */
  function Rewrite(text: string, summaries: OrderedMap<Entry>): (r: Result<string, Error>)
    requires summaries.Valid()
    ensures r.Err? ==> r.error == MissingTextAttribute
  {
    if Crashes(text, summaries) then Err(MissingTextAttribute)
    else
      var f := Footers(text, summaries);
      Ok(MarkAll(LinkAll(text, f.keys, f.values), ErrorUrls(summaries.keys, summaries)) + Blocks(f.keys, f.values))
  }

  /** `ContentUrls` of one more url. */
  lemma ContentUrlsStep(urls: seq<string>, i: nat, summaries: OrderedMap<Entry>)
    requires i < |urls|
    ensures ContentUrls(urls[..i + 1], summaries) ==
      if IsContentKey(summaries, urls[i]) then ContentUrls(urls[..i], summaries) + [urls[i]]
      else ContentUrls(urls[..i], summaries)
  {
    assert urls[..i + 1][..i] == urls[..i];
    if !IsContentKey(summaries, urls[i]) {
      assert ContentUrls(urls[..i], summaries) + [] == ContentUrls(urls[..i], summaries);
    }
  }

  /** The same, after a fixed prefix. */
  lemma ContentUrlsStepAfter(prior: seq<string>, urls: seq<string>, i: nat, summaries: OrderedMap<Entry>)
    requires i < |urls|
    ensures prior + ContentUrls(urls[..i + 1], summaries) ==
      if IsContentKey(summaries, urls[i]) then (prior + ContentUrls(urls[..i], summaries)) + [urls[i]]
      else prior + ContentUrls(urls[..i], summaries)
  {
    ContentUrlsStep(urls, i, summaries);
  }

  lemma LinkAllSnoc(message: string, urls: seq<string>, u: string, footers: map<string, OutputFooter>)
    requires forall v :: v in urls + [u] ==> v in footers
    ensures LinkAll(message, urls + [u], footers) ==
      ReplaceAll(LinkAll(message, urls, footers), u, Markdown(footers[u].title, u))
  {
    assert (urls + [u])[..|urls|] == urls;
  }

  lemma MarkAllSnoc(message: string, urls: seq<string>, u: string)
    ensures MarkAll(message, urls + [u]) == ReplaceAll(MarkAll(message, urls), u, RedSpan(u))
  {
    assert (urls + [u])[..|urls|] == urls;
  }

  lemma BlocksSnoc(urls: seq<string>, u: string, footers: map<string, OutputFooter>)
    requires forall v :: v in urls + [u] ==> v in footers
    ensures Blocks(urls + [u], footers) == Blocks(urls, footers) + Block(footers[u])
  {
    assert (urls + [u])[..|urls|] == urls;
  }

  lemma AppendBlockStep(message: string, keys: seq<string>, i: nat, footers: map<string, OutputFooter>, out: string)
    requires i < |keys| && forall v :: v in keys ==> v in footers
    requires out == message + Blocks(keys[..i], footers)
    ensures out + Block(footers[keys[i]]) == message + Blocks(keys[..i + 1], footers)
  {
    var prefix, u := keys[..i], keys[i];
    assert keys[..i + 1] == prefix + [u];
    assert forall v :: v in prefix + [u] ==> v in keys;
    BlocksSnoc(prefix, u, footers);
    AppendAssoc(message, Blocks(prefix, footers), Block(footers[u]));
  }

  lemma AppendAssoc(a: string, b: string, c: string)
    ensures (a + b) + c == a + (b + c)
  {
  }

  /** `footer_summaries` ends up with one key per fetched url, whether it was linked in markdown or not. */
  lemma FooterKeysAreContentKeys(text: string, summaries: OrderedMap<Entry>)
    requires summaries.Valid()
    ensures forall u :: u in FooterKeys(text, summaries) <==> IsContentKey(summaries, u)
  {
    var md := ContentUrls(MarkdownUrls(text), summaries);
    var all := ContentUrls(summaries.keys, summaries);
    forall u | IsContentKey(summaries, u)
      ensures u in md + all
    {
      assert u in summaries.keys;
    }
  }

  /** The dict the pass over the fetched urls leaves, once it has seen all of them. */
  lemma FootersReached(text: string, summaries: OrderedMap<Entry>, d: OrderedMap<OutputFooter>)
    requires summaries.Valid() && d.Valid()
    requires d.keys == FooterKeys(text, summaries)
    requires forall u :: IsContentKey(summaries, u) ==> d.values[u] == FooterFor(u, summaries.values[u].content)
    ensures d == Footers(text, summaries)
  {
    FooterKeysAreContentKeys(text, summaries);
    var f := Footers(text, summaries);
    assert d.values.Keys == f.values.Keys;
  }

  /**
   * The pass over the markdown links (the first loop of
   * `normalize_links_and_add_footer`): it raises on the first link whose url
   * maps to an article that was not summarised, and otherwise has inserted
   * every linked url that maps to a `UrlContent`, in link order.
   */
  method CollectLinkedFooters(links: seq<Link>, summaries: OrderedMap<Entry>)
    returns (r: Result<OrderedMap<OutputFooter>, Error>)
    ensures r.Err? <==> AnyPlainText(UrlsOf(links), summaries)
    ensures r.Err? ==> r.error == MissingTextAttribute
    ensures r.Ok? ==> r.value.Valid() && r.value.keys == Dedup(ContentUrls(UrlsOf(links), summaries))
  {
    var footerSummaries := Empty<OutputFooter>();
    ghost var urls := UrlsOf(links);
    var i := 0;
    while i < |links|
      invariant i <= |links|
      invariant LinkedKeys(summaries, urls, i, footerSummaries)
      invariant !AnyPlainText(urls[..i], summaries)
    {
      var url := links[i].url;
      AnyPlainTextStep(urls, i, summaries);
      LinkedKeysStep(summaries, urls, i, footerSummaries, links[i].description);
      if url in summaries.values && summaries.values[url].Content? {
        var c := summaries.values[url].content;
        if !c.isSummary {
          AnyPlainTextPrefix(urls, i + 1, summaries);
          return Err(MissingTextAttribute);
        }
        var fs := OutputFooter(url, Some(links[i].description), c.article.title, c.article.summary);
        footerSummaries := footerSummaries.Insert(url, fs);
      }
      i := i + 1;
    }
    assert urls[..i] == urls;
    r := Ok(footerSummaries);
  }

  /** The keys after the pass over the markdown links has seen the first `i` urls. */
  ghost predicate LinkedKeys(summaries: OrderedMap<Entry>, urls: seq<string>, i: nat, d: OrderedMap<OutputFooter>)
    requires i <= |urls|
  {
    d.Valid() && d.keys == Dedup(ContentUrls(urls[..i], summaries))
  }

  lemma LinkedKeysStep(summaries: OrderedMap<Entry>, urls: seq<string>, i: nat, d: OrderedMap<OutputFooter>,
                       description: string)
    requires i < |urls| && LinkedKeys(summaries, urls, i, d)
    ensures LinkedKeys(summaries, urls, i + 1,
      if IsContentKey(summaries, urls[i]) then
        var c := summaries.values[urls[i]].content;
        d.Insert(urls[i], OutputFooter(urls[i], Some(description), c.article.title, c.article.summary))
      else d)
  {
    ContentUrlsStep(urls, i, summaries);
    if IsContentKey(summaries, urls[i]) {
      var c := summaries.values[urls[i]].content;
      InsertKeys(d, ContentUrls(urls[..i], summaries), urls[i],
                 OutputFooter(urls[i], Some(description), c.article.title, c.article.summary));
    }
  }

  /** A crash seen in a prefix is a crash of the whole. */
  lemma AnyPlainTextPrefix(urls: seq<string>, n: nat, summaries: OrderedMap<Entry>)
    requires n <= |urls| && AnyPlainText(urls[..n], summaries)
    ensures AnyPlainText(urls, summaries)
  {
    var v :| v in urls[..n] && IsPlainTextKey(summaries, v);
    assert v in urls;
  }

  /** The entry the pass over `summaries` leaves for the k-th key: inserted when it maps to a `UrlContent`. */
  function FetchedStep(summaries: OrderedMap<Entry>, k: nat, d: OrderedMap<OutputFooter>): OrderedMap<OutputFooter>
    requires summaries.Valid() && k < |summaries.keys| && d.Valid()
  {
    var url := summaries.keys[k];
    if IsContentKey(summaries, url) then d.Insert(url, FooterFor(url, summaries.values[url].content)) else d
  }

  /** The keys after the pass over `summaries` has seen its first `i` keys. */
  ghost predicate FetchedKeys(summaries: OrderedMap<Entry>, prior: seq<string>, i: nat, d: OrderedMap<OutputFooter>)
    requires i <= |summaries.keys|
  {
    d.Valid() && d.keys == Dedup(prior + ContentUrls(summaries.keys[..i], summaries))
  }

  /** The entries written so far by the pass over `summaries`. */
  ghost predicate FetchedValues(summaries: OrderedMap<Entry>, i: nat, d: OrderedMap<OutputFooter>)
    requires i <= |summaries.keys|
  {
    forall u :: IsContentKey(summaries, u) && u in summaries.keys[..i] ==>
      u in d.values && d.values[u] == FooterFor(u, summaries.values[u].content)
  }

  /** The entries the pass over `summaries` never writes. */
  ghost predicate OthersKept(summaries: OrderedMap<Entry>, d0: OrderedMap<OutputFooter>, d: OrderedMap<OutputFooter>) {
    forall u :: u in d.values && !IsContentKey(summaries, u) ==> u in d0.values && d.values[u] == d0.values[u]
  }

  lemma FetchedKeysStep(summaries: OrderedMap<Entry>, prior: seq<string>, i: nat, d: OrderedMap<OutputFooter>)
    requires summaries.Valid() && i < |summaries.keys| && FetchedKeys(summaries, prior, i, d)
    ensures FetchedKeys(summaries, prior, i + 1, FetchedStep(summaries, i, d))
  {
    var keys := summaries.keys;
    var url := keys[i];
    ContentUrlsStepAfter(prior, keys, i, summaries);
    if IsContentKey(summaries, url) {
      InsertKeys(d, prior + ContentUrls(keys[..i], summaries), url, FooterFor(url, summaries.values[url].content));
    }
  }

  lemma FetchedValuesStep(summaries: OrderedMap<Entry>, i: nat, d: OrderedMap<OutputFooter>)
    requires summaries.Valid() && i < |summaries.keys| && d.Valid() && FetchedValues(summaries, i, d)
    ensures FetchedValues(summaries, i + 1, FetchedStep(summaries, i, d))
  {
    var keys := summaries.keys;
    var d' := FetchedStep(summaries, i, d);
    forall u | IsContentKey(summaries, u) && u in keys[..i + 1]
      ensures u in d'.values && d'.values[u] == FooterFor(u, summaries.values[u].content)
    {
      assert keys[..i + 1] == keys[..i] + [keys[i]];
    }
  }

  lemma OthersKeptStep(summaries: OrderedMap<Entry>, d0: OrderedMap<OutputFooter>, i: nat, d: OrderedMap<OutputFooter>)
    requires summaries.Valid() && i < |summaries.keys| && d.Valid() && OthersKept(summaries, d0, d)
    ensures OthersKept(summaries, d0, FetchedStep(summaries, i, d))
  {
  }

  lemma FetchedPassDone(summaries: OrderedMap<Entry>, prior: seq<string>, d: OrderedMap<OutputFooter>)
    requires summaries.Valid()
    requires FetchedKeys(summaries, prior, |summaries.keys|, d) && FetchedValues(summaries, |summaries.keys|, d)
    ensures d.Valid() && d.keys == Dedup(prior + ContentUrls(summaries.keys, summaries))
    ensures forall u :: IsContentKey(summaries, u) ==> u in d.values && d.values[u] == FooterFor(u, summaries.values[u].content)
  {
    assert summaries.keys[..|summaries.keys|] == summaries.keys;
  }

  /**
   * The pass over `summaries` (the second loop): every url that maps to a
   * `UrlContent` gets the entry `FooterFor` gives it, new urls go to the end,
   * and the entries of other urls are left alone.
   */
  method AddFetchedFooters(d0: OrderedMap<OutputFooter>, ghost prior: seq<string>, summaries: OrderedMap<Entry>)
    returns (d: OrderedMap<OutputFooter>)
    requires summaries.Valid() && d0.Valid() && d0.keys == Dedup(prior)
    ensures d.Valid() && d.keys == Dedup(prior + ContentUrls(summaries.keys, summaries))
    ensures forall u :: IsContentKey(summaries, u) ==> u in d.values && d.values[u] == FooterFor(u, summaries.values[u].content)
    ensures forall u :: u in d.values && !IsContentKey(summaries, u) ==> u in d0.values && d.values[u] == d0.values[u]
  {
    d := d0;
    var keys := summaries.keys;
    assert prior + ContentUrls(keys[..0], summaries) == prior;
    var i := 0;
    while i < |keys|
      invariant i <= |keys|
      invariant FetchedKeys(summaries, prior, i, d)
      invariant FetchedValues(summaries, i, d)
      invariant OthersKept(summaries, d0, d)
    {
      var url := keys[i];
      var entry := summaries.values[url];
      FetchedKeysStep(summaries, prior, i, d);
      FetchedValuesStep(summaries, i, d);
      OthersKeptStep(summaries, d0, i, d);
      if entry.Content? {
        var c := entry.content;
        var fs := OutputFooter(url, None, c.article.title, if c.isSummary then c.article.summary else c.article.text);
        d := d.Insert(url, fs);
      }
      i := i + 1;
    }
    FetchedPassDone(summaries, prior, d);
  }

  /** The third loop: each footer url, in key order, is replaced by its markdown link. */
  method ReplaceWithLinks(message: string, footers: OrderedMap<OutputFooter>) returns (out: string)
    requires footers.Valid()
    ensures out == LinkAll(message, footers.keys, footers.values)
  {
    out := message;
    var keys := footers.keys;
    var i := 0;
    while i < |keys|
      invariant i <= |keys|
      invariant out == LinkAll(message, keys[..i], footers.values)
    {
      var url := keys[i];
      var markdown := Markdown(footers.values[url].title, url);
      LinkAllSnoc(message, keys[..i], url, footers.values);
      out := ReplaceAll(out, url, markdown);
      assert keys[..i + 1] == keys[..i] + [url];
      i := i + 1;
    }
    assert keys[..i] == keys;
  }

  /** The fourth loop: each failed url, in order, is wrapped in a red span. */
  method MarkFailedUrls(message: string, failed: seq<string>) returns (out: string)
    ensures out == MarkAll(message, failed)
  {
    out := message;
    var i := 0;
    while i < |failed|
      invariant i <= |failed|
      invariant out == MarkAll(message, failed[..i])
    {
      var url := failed[i];
      MarkAllSnoc(message, failed[..i], url);
      out := ReplaceAll(out, url, RedSpan(url));
      assert failed[..i + 1] == failed[..i] + [url];
      i := i + 1;
    }
    assert failed[..i] == failed;
  }

  /** The last loop: one footer block per footer entry, in key order. */
  method AppendFooterBlocks(message: string, footers: OrderedMap<OutputFooter>) returns (out: string)
    requires footers.Valid()
    ensures out == message + Blocks(footers.keys, footers.values)
  {
    out := message;
    var keys := footers.keys;
    var i := 0;
    while i < |keys|
      invariant i <= |keys|
      invariant out == message + Blocks(keys[..i], footers.values)
    {
      var fs := footers.values[keys[i]];
      var title := Heading(fs);
      var quotedSummary := QuoteLines(fs.summary);
      AppendBlockStep(message, keys, i, footers.values, out);
      out := out + ("\n\n> # " + title + "\n" + quotedSummary);
      i := i + 1;
    }
    assert keys[..i] == keys;
  }

  /** `normalize_links_and_add_footer`: the five loops in the order the function runs them. */
  method NormalizeLinksAndAddFooter(inputMessage: string, summaries: OrderedMap<Entry>)
    returns (result: Result<string, Error>)
    requires summaries.Valid()
    ensures result == Rewrite(inputMessage, summaries)
  {
    var links := MarkdownLinks(inputMessage);
    var linked := CollectLinkedFooters(links, summaries);
    if linked.Err? {
      return Err(linked.error);
    }
    var footerSummaries := AddFetchedFooters(linked.value, ContentUrls(UrlsOf(links), summaries), summaries);
    FootersReached(inputMessage, summaries, footerSummaries);
    var outMessage := ReplaceWithLinks(inputMessage, footerSummaries);
    outMessage := MarkFailedUrls(outMessage, ErrorUrls(summaries.keys, summaries));
    outMessage := AppendFooterBlocks(outMessage, footerSummaries);
    result := Ok(outMessage);
  }

  /** With no fetched urls the message comes back unchanged. */
  lemma RewriteOfEmptyMap(text: string, summaries: OrderedMap<Entry>)
    requires summaries.Valid() && summaries.keys == []
    ensures Rewrite(text, summaries) == Ok(text)
  {
    assert !Crashes(text, summaries);
    ContentUrlsNone(MarkdownUrls(text), summaries);
    assert FooterKeys(text, summaries) == Dedup([] + []);
    assert ErrorUrls(summaries.keys, summaries) == [];
    assert text + [] == text;
  }

  /**
   * The footer keys are distinct, they are exactly the urls that map to a
   * `UrlContent`, and the ones named in markdown links come first, in link order.
   */
  lemma FooterKeyOrder(text: string, summaries: OrderedMap<Entry>)
    requires summaries.Valid()
    ensures Distinct(Footers(text, summaries).keys)
    ensures forall u :: u in Footers(text, summaries).keys <==> IsContentKey(summaries, u)
    ensures Dedup(ContentUrls(MarkdownUrls(text), summaries)) <= Footers(text, summaries).keys
  {
    FooterKeysAreContentKeys(text, summaries);
    DedupPrefix(ContentUrls(MarkdownUrls(text), summaries), ContentUrls(summaries.keys, summaries));
  }

  /**
   * Every footer entry is the one the pass over `summaries` wrote: no user
   * description, so its heading is the article title, and its text is the
   * summary when there is one and the article text otherwise.
   */
  lemma FootersHeadedByTitle(text: string, summaries: OrderedMap<Entry>)
    requires summaries.Valid()
    ensures forall u :: u in Footers(text, summaries).values ==>
      var fs := Footers(text, summaries).values[u];
      var c := summaries.values[u].content;
      && fs.userDescription.None?
      && Heading(fs) == c.article.title
      && fs.summary == (if c.isSummary then c.article.summary else c.article.text)
  {
  }

  /** A url whose fetch failed gets no footer block and is marked in red. */
  lemma FailedUrlHasNoBlock(text: string, summaries: OrderedMap<Entry>, u: string)
    requires summaries.Valid() && IsErrorKey(summaries, u)
    ensures u !in Footers(text, summaries).keys
    ensures u in ErrorUrls(summaries.keys, summaries)
  {
    FooterKeysAreContentKeys(text, summaries);
  }

  lemma {:induction false} JoinQuoted(parts: seq<string>)
    requires |parts| >= 1
    ensures Join(Quoted(parts), "\n") == "> " + Join(parts, "\n> ")
    decreases |parts|
  {
    var q := Quoted(parts);
    if |parts| > 1 {
      var rest := parts[1..];
      JoinQuoted(rest);
      assert q[1..] == Quoted(rest);
      var j := Join(rest, "\n> ");
      assert Join(q, "\n") == ("> " + parts[0]) + "\n" + ("> " + j);
      assert Join(parts, "\n> ") == parts[0] + "\n> " + j;
      assert ("> " + parts[0]) + "\n" + ("> " + j) == "> " + (parts[0] + "\n> " + j);
    }
  }

  lemma {:induction false} LinkAllAbsent(message: string, urls: seq<string>, footers: map<string, OutputFooter>)
    requires forall u :: u in urls ==> u in footers && u != [] && Absent(message, u)
    ensures LinkAll(message, urls, footers) == message
    decreases |urls|
  {
    if urls != [] {
      var n := |urls| - 1;
      assert forall u :: u in urls[..n] ==> u in urls;
      assert urls[n] in urls;
      LinkAllAbsent(message, urls[..n], footers);
      ReplaceAllAbsent(message, urls[n], Markdown(footers[urls[n]].title, urls[n]));
    }
  }

  lemma {:induction false} MarkAllAbsent(message: string, urls: seq<string>)
    requires forall u :: u in urls ==> u != [] && Absent(message, u)
    ensures MarkAll(message, urls) == message
    decreases |urls|
  {
    if urls != [] {
      var n := |urls| - 1;
      assert forall u :: u in urls[..n] ==> u in urls;
      assert urls[n] in urls;
      MarkAllAbsent(message, urls[..n]);
      ReplaceAllAbsent(message, urls[n], RedSpan(urls[n]));
    }
  }

  /**
   * When no fetched url occurs in the message, nothing can crash or be
   * replaced: the output is the message followed by the footer blocks.
   */
  lemma UntouchedWhenUrlsAbsent(text: string, summaries: OrderedMap<Entry>)
    requires summaries.Valid()
    requires forall u :: u in summaries.keys ==> u != [] && Absent(text, u)
    ensures Rewrite(text, summaries) ==
      Ok(text + Blocks(Footers(text, summaries).keys, Footers(text, summaries).values))
  {
    MarkdownUrlsOccur(text);
    assert !Crashes(text, summaries);
    var f := Footers(text, summaries);
    FooterKeysAreContentKeys(text, summaries);
    LinkAllAbsent(text, f.keys, f.values);
    MarkAllAbsent(text, ErrorUrls(summaries.keys, summaries));
  }

  /**
   * A message without `(` has no markdown links: the rewrite never raises,
   * and the footer follows the order of `summaries`.
   */
  lemma NoParenNeverFails(text: string, summaries: OrderedMap<Entry>)
    requires summaries.Valid() && '(' !in text
    ensures Rewrite(text, summaries).Ok?
    ensures Footers(text, summaries).keys == ContentUrls(summaries.keys, summaries)
  {
    NoParenNoLinks(text);
    assert ContentUrls(MarkdownUrls(text), summaries) == [];
    assert [] + ContentUrls(summaries.keys, summaries) == ContentUrls(summaries.keys, summaries);
    ContentUrlsDistinct(summaries.keys, summaries);
    DedupOfDistinct(ContentUrls(summaries.keys, summaries));
  }

  lemma {:induction false} ContentUrlsNone(urls: seq<string>, summaries: OrderedMap<Entry>)
    requires forall u :: !IsContentKey(summaries, u)
    ensures ContentUrls(urls, summaries) == []
    decreases |urls|
  {
    if urls != [] {
      ContentUrlsNone(urls[..|urls| - 1], summaries);
    }
  }

  lemma {:induction false} ErrorUrlsNone(urls: seq<string>, summaries: OrderedMap<Entry>)
    requires forall u :: !IsErrorKey(summaries, u)
    ensures ErrorUrls(urls, summaries) == []
    decreases |urls|
  {
    if urls != [] {
      ErrorUrlsNone(urls[..|urls| - 1], summaries);
    }
  }

  lemma {:induction false} ContentUrlsDistinct(urls: seq<string>, summaries: OrderedMap<Entry>)
    requires Distinct(urls)
    ensures Distinct(ContentUrls(urls, summaries))
    decreases |urls|
  {
    if urls != [] {
      var n := |urls| - 1;
      ContentUrlsDistinct(urls[..n], summaries);
      assert urls[n] !in urls[..n];
    }
  }

  /** The rewrite raises exactly when a markdown link names a url whose article was not summarised. */
  lemma RewriteFailsExactly(text: string, summaries: OrderedMap<Entry>)
    requires summaries.Valid()
    ensures Rewrite(text, summaries).Err? <==>
      exists k :: 0 <= k < |MarkdownLinks(text)| && IsPlainTextKey(summaries, MarkdownLinks(text)[k].url)
  {
    var urls := MarkdownUrls(text);
    if Crashes(text, summaries) {
      var u :| u in urls && IsPlainTextKey(summaries, u);
      var k :| 0 <= k < |urls| && urls[k] == u;
      assert IsPlainTextKey(summaries, MarkdownLinks(text)[k].url);
    }
    if exists k :: 0 <= k < |MarkdownLinks(text)| && IsPlainTextKey(summaries, MarkdownLinks(text)[k].url) {
      var k :| 0 <= k < |MarkdownLinks(text)| && IsPlainTextKey(summaries, MarkdownLinks(text)[k].url);
      assert urls[k] in urls;
    }
  }

  /** One fetched article that was summarised or is not linked in markdown does not crash the rewrite. */
  lemma OneArticleNoCrash(text: string, u: string, c: UrlContent)
    requires c.isSummary || u !in MarkdownUrls(text)
    ensures OrderedMap([u], map[u := Content(c)]).Valid()
    ensures !Crashes(text, OrderedMap([u], map[u := Content(c)]))
  {
    var summaries := OrderedMap([u], map[u := Content(c)]);
    assert summaries.Valid();
  }

  /** The footer dict when `summaries` holds one fetched article. */
  lemma OneArticleFooters(text: string, u: string, c: UrlContent)
    requires c.isSummary || u !in MarkdownUrls(text)
    ensures OrderedMap([u], map[u := Content(c)]).Valid()
    ensures !Crashes(text, OrderedMap([u], map[u := Content(c)]))
    ensures Footers(text, OrderedMap([u], map[u := Content(c)])).keys == [u]
    ensures Footers(text, OrderedMap([u], map[u := Content(c)])).values[u] == FooterFor(u, c)
  {
    var summaries := OrderedMap([u], map[u := Content(c)]);
    OneArticleNoCrash(text, u, c);
    var md := ContentUrls(MarkdownUrls(text), summaries);
    assert ContentUrls([u], summaries) == [u] by {
      assert [u][..0] == [];
    }
    DedupOfRepeats(md + [u], u);
    assert md + [u] != [];
    var f := Footers(text, summaries);
    assert f.keys == [u];
    assert IsContentKey(summaries, u);
  }

  /** The footer block of an article is headed by its title and quotes its summary, or its text. */
  lemma FooterOfArticle(u: string, c: UrlContent)
    ensures Block(FooterFor(u, c)) ==
      "\n\n> # " + c.article.title + "\n" + QuoteLines(if c.isSummary then c.article.summary else c.article.text)
  {
  }

  /**
   * One fetched article: its url becomes a markdown link headed by the
   * title and one block quoting its summary (or its text) is appended.
   */
  lemma OneArticle(text: string, u: string, c: UrlContent)
    requires c.isSummary || u !in MarkdownUrls(text)
    ensures OrderedMap([u], map[u := Content(c)]).Valid()
    ensures Rewrite(text, OrderedMap([u], map[u := Content(c)])) ==
      Ok(ReplaceAll(text, u, Markdown(c.article.title, u)) +
         ("\n\n> # " + c.article.title + "\n" + QuoteLines(if c.isSummary then c.article.summary else c.article.text)))
  {
    var summaries := OrderedMap([u], map[u := Content(c)]);
    OneArticleFooters(text, u, c);
    var f := Footers(text, summaries);
    var linked := ReplaceAll(text, u, Markdown(c.article.title, u));
    var body := if c.isSummary then c.article.summary else c.article.text;
    var block := "\n\n> # " + c.article.title + "\n" + QuoteLines(body);
    assert LinkAll(text, f.keys, f.values) == linked by {
      assert [u][..0] == [];
    }
    assert MarkAll(linked, ErrorUrls(summaries.keys, summaries)) == linked by {
      ErrorUrlsNone(summaries.keys, summaries);
    }
    assert Blocks(f.keys, f.values) == block by {
      assert [u][..0] == [];
      FooterOfArticle(u, c);
      assert Blocks(f.keys, f.values) == [] + Block(FooterFor(u, c));
    }
  }

  /** One failed url: it is marked in red and no footer is appended. */
  lemma OneFailedUrl(text: string, u: string)
    ensures OrderedMap([u], map[u := FetchError]).Valid()
    ensures Rewrite(text, OrderedMap([u], map[u := FetchError])) == Ok(ReplaceAll(text, u, RedSpan(u)))
  {
    var summaries := OrderedMap([u], map[u := FetchError]);
    assert summaries.Valid();
    assert !Crashes(text, summaries);
    ContentUrlsNone(MarkdownUrls(text), summaries);
    ContentUrlsNone([u], summaries);
    assert FooterKeys(text, summaries) == Dedup([] + []);
    var f := Footers(text, summaries);
    assert f.keys == [];
    assert LinkAll(text, f.keys, f.values) == text;
    assert [u][..0] == [];
    assert ErrorUrls(summaries.keys, summaries) == [u];
    assert MarkAll(text, [u]) == ReplaceAll(MarkAll(text, []), u, RedSpan(u));
    assert Blocks(f.keys, f.values) == [];
    assert ReplaceAll(text, u, RedSpan(u)) + [] == ReplaceAll(text, u, RedSpan(u));
  }
}
