/**
 * `get_article_from_url` and `get_articles_from_input_message`: fetch every
 * extracted url under a length budget and collect the results in a dict.
 *
 * Downloading, parsing and summarising belong to a page library that is not
 * modelled; what it yields for a url is the oracle `fetch`, and every
 * exception it raises becomes an outcome of the oracle.
 */
module Articles {
  import opened Wrappers
  import opened OrderedMaps
  import opened Urls

  /** What the page library yields for a url. */
  datatype Page =
    | DownloadFailed                          // `download()` or `parse()` raised
    | Downloaded(title: string, text: string,
                 nlpSummary: Option<string>)  // `None`: `nlp()` raises

  /** The parsed article; `summary` stays empty unless `nlp()` ran. */
  datatype Article = Article(title: string, text: string, summary: string)

  /** What `get_article_from_url` returns: `(is_summary, article)`. */
  datatype Fetched = Fetched(isSummary: bool, article: Article)

  /** `UrlContent`. */
  datatype UrlContent = UrlContent(url: string, isSummary: bool, article: Article)

  /** A value of the `articles` dict: a `UrlContent` or the FETCH_ERROR marker `"__error__"`. */
  datatype Entry = FetchError | Content(content: UrlContent)

  /** The exceptions that leave the pipeline. */
  datatype Error =
    | BudgetExceeded(totalMaxLength: int)  // the RuntimeError naming the total
    | MissingTextAttribute                 // `UrlContent` has no attribute `text`

  /** The length test: no summary when the budget is negative or the text is shorter than it. */
  predicate SkipsSummary(textLength: nat, maxLength: int) {
    maxLength < 0 || textLength < maxLength
  }

  /**
   * `get_article_from_url(url, max_length=maxLength)` for the page the
   * library yields for `url`; `None` stands for a raised exception.
   */
  function GetArticleFromUrl(page: Page, maxLength: int): (r: Option<Fetched>)
    ensures r.Some? <==> page.Downloaded? && (SkipsSummary(|page.text|, maxLength) || page.nlpSummary.Some?)
    ensures r.Some? ==> r.value.article.title == page.title && r.value.article.text == page.text
    ensures r.Some? ==> (r.value.isSummary <==> 0 <= maxLength <= |page.text|)
    ensures r.Some? && r.value.isSummary ==> r.value.article.summary == page.nlpSummary.value
  {
    match page
    case DownloadFailed => None
    case Downloaded(title, text, nlpSummary) =>
      if SkipsSummary(|text|, maxLength) then Some(Fetched(false, Article(title, text, "")))
      else match nlpSummary
        case None => None
        case Some(summary) => Some(Fetched(true, Article(title, text, summary)))
  }

  /** How much of the total an article uses up: its summary if it has one, else its text. */
  function Consumed(f: Fetched): nat {
    if f.isSummary then |f.article.summary| else |f.article.text|
  }

  /** One call of the allocator: the extracted urls, the page oracle, the total and the starting budget. */
  datatype Request = Request(urls: seq<string>, fetch: string -> Page, totalMaxLength: int, initialBudget: int)

  /**
   * The budget when the k-th url is reached: the starting budget, replaced by
   * `total - consumed` after every successful fetch, kept after a failed one.
   */
  function BudgetBefore(req: Request, k: nat): (b: int)
    requires k <= |req.urls|
    ensures b == req.initialBudget || b <= req.totalMaxLength
    decreases k, 0
  {
    if k == 0 then req.initialBudget
    else match OutcomeAt(req, k - 1)
      case None => BudgetBefore(req, k - 1)
      case Some(f) => req.totalMaxLength - Consumed(f)
  }

  /** What fetching the k-th url yields, under the budget of that moment. */
  function OutcomeAt(req: Request, k: nat): Option<Fetched>
    requires k < |req.urls|
    decreases k, 1
  {
    GetArticleFromUrl(req.fetch(req.urls[k]), BudgetBefore(req, k))
  }

  /** The dict value the k-th fetch writes. */
  function EntryAt(req: Request, k: nat): Entry
    requires k < |req.urls|
  {
    match OutcomeAt(req, k)
    case None => FetchError
    case Some(f) => Content(UrlContent(req.urls[k], f.isSummary, f.article))
  }

  /**
   * The allocator's result stated without its loop: it raises exactly when
   * the budget is exhausted as some url is reached; otherwise the keys are
   * the distinct urls in order of first occurrence and each value is what
   * the last fetch of that url wrote.
   */
  function Allocation(req: Request): (r: Result<OrderedMap<Entry>, Error>)
    ensures r.Err? ==> r.error == BudgetExceeded(req.totalMaxLength)
    ensures r.Ok? ==> r.value.Valid() && forall u :: u in r.value.values <==> u in req.urls
    ensures r.Ok? ==> forall u :: u in r.value.values && r.value.values[u].Content? ==>
      var c := r.value.values[u].content;
      && c.url == u
      && req.fetch(u).Downloaded?
      && c.article.title == req.fetch(u).title
      && c.article.text == req.fetch(u).text
  {
    var urls := req.urls;
    if exists k :: 0 <= k < |urls| && BudgetBefore(req, k) <= 0 then Err(BudgetExceeded(req.totalMaxLength))
    else Ok(OrderedMap(Dedup(urls), map u | u in urls :: EntryAt(req, LastIndex(urls, u))))
  }

  /**
   * After the k-th url the budget is `total` minus the length of that
   * article's summary or text, whatever it was before; a failed fetch
   * leaves it as it was.
   */
  lemma BudgetAfterUrl(req: Request, k: nat)
    requires k < |req.urls|
    ensures
      var page := req.fetch(req.urls[k]);
      var b := BudgetBefore(req, k);
      && (page.DownloadFailed? ==> BudgetBefore(req, k + 1) == b)
      && (page.Downloaded? && SkipsSummary(|page.text|, b) ==>
            BudgetBefore(req, k + 1) == req.totalMaxLength - |page.text|)
      && (page.Downloaded? && !SkipsSummary(|page.text|, b) && page.nlpSummary.Some? ==>
            BudgetBefore(req, k + 1) == req.totalMaxLength - |page.nlpSummary.value|)
      && (page.Downloaded? && !SkipsSummary(|page.text|, b) && page.nlpSummary.None? ==>
            BudgetBefore(req, k + 1) == b)
  {
  }

  /** Running out of budget after the last url is not an error. */
  lemma ExhaustionAfterLastUrlIsFine(req: Request)
    requires forall k :: 0 <= k < |req.urls| ==> BudgetBefore(req, k) > 0
    ensures Allocation(req).Ok?
  {
  }

  lemma LastIndexOfExtension(s: seq<string>, x: string, y: string)
    requires y in s && y != x
    ensures LastIndex(s + [x], y) == LastIndex(s, y)
  {
    assert (s + [x])[..|s|] == s;
  }

  /** The dict after the first k urls, as the loop keeps it. */
  ghost predicate Collected(req: Request, k: nat, d: OrderedMap<Entry>)
    requires k <= |req.urls|
  {
    && d.Valid()
    && d.keys == Dedup(req.urls[..k])
    && (forall u :: u in d.values ==> u in req.urls[..k])
    && (forall u :: u in d.values ==> d.values[u] == EntryAt(req, LastIndex(req.urls[..k], u)))
  }

  lemma BudgetStep(req: Request, k: nat)
    requires k < |req.urls|
    ensures OutcomeAt(req, k) == GetArticleFromUrl(req.fetch(req.urls[k]), BudgetBefore(req, k))
    ensures OutcomeAt(req, k).None? ==> BudgetBefore(req, k + 1) == BudgetBefore(req, k)
    ensures OutcomeAt(req, k).Some? ==> BudgetBefore(req, k + 1) == req.totalMaxLength - Consumed(OutcomeAt(req, k).value)
    ensures EntryAt(req, k) == match OutcomeAt(req, k)
      case None => FetchError
      case Some(f) => Content(UrlContent(req.urls[k], f.isSummary, f.article))
  {
  }

  /** No url before the k-th found the budget exhausted. */
  ghost predicate BudgetHeld(req: Request, k: nat)
    requires k <= |req.urls|
  {
    forall j :: 0 <= j < k ==> BudgetBefore(req, j) > 0
  }

  lemma BudgetHeldStep(req: Request, k: nat)
    requires k < |req.urls| && BudgetHeld(req, k) && BudgetBefore(req, k) > 0
    ensures BudgetHeld(req, k + 1)
  {
  }

  /** The dict after one more insertion of the k-th url, for a url already in it or a new one. */
  lemma CollectStep(req: Request, k: nat, d: OrderedMap<Entry>)
    requires k < |req.urls| && Collected(req, k, d)
    ensures Collected(req, k + 1, d.Insert(req.urls[k], EntryAt(req, k)))
  {
    var urls := req.urls;
    var url := urls[k];
    var d' := d.Insert(url, EntryAt(req, k));
    assert urls[..k + 1] == urls[..k] + [url];
    forall u | u in d'.values
      ensures u in urls[..k + 1]
    {
    }
    forall u | u in d'.values
      ensures d'.values[u] == EntryAt(req, LastIndex(urls[..k + 1], u))
    {
      if u != url {
        LastIndexOfExtension(urls[..k], url, u);
      }
    }
  }

  /**
   * One turn of the allocator's loop with budget left: `fetched`, the fetch
   * under the current budget, is the k-th outcome, and the budget and the
   * dict move on to their values after k.
   */
  lemma FetchStep(req: Request, k: nat, d: OrderedMap<Entry>, fetched: Option<Fetched>)
    requires k < |req.urls| && BudgetHeld(req, k) && BudgetBefore(req, k) > 0 && Collected(req, k, d)
    requires fetched == GetArticleFromUrl(req.fetch(req.urls[k]), BudgetBefore(req, k))
    ensures BudgetHeld(req, k + 1)
    ensures fetched.None? ==>
      && BudgetBefore(req, k + 1) == BudgetBefore(req, k)
      && Collected(req, k + 1, d.Insert(req.urls[k], FetchError))
    ensures fetched.Some? ==>
      && BudgetBefore(req, k + 1) == req.totalMaxLength - Consumed(fetched.value)
      && Collected(req, k + 1, d.Insert(req.urls[k], Content(UrlContent(req.urls[k], fetched.value.isSummary, fetched.value.article))))
  {
    BudgetStep(req, k);
    BudgetHeldStep(req, k);
    CollectStep(req, k, d);
  }

  lemma CollectedAll(req: Request, d: OrderedMap<Entry>)
    requires Collected(req, |req.urls|, d)
    requires BudgetHeld(req, |req.urls|)
    ensures Allocation(req) == Ok(d)
  {
    var urls := req.urls;
    assert urls[..|urls|] == urls;
    var m := map u | u in urls :: EntryAt(req, LastIndex(urls, u));
    assert d.values == m;
  }

  /**
   * The loop of `get_articles_from_input_message` over the extracted urls,
   * with the mutable budget `max_length` and the dict `articles`.
   */
  method FetchAll(urls: seq<string>, totalMaxLength: int, initialBudget: int, fetch: string -> Page)
    returns (result: Result<OrderedMap<Entry>, Error>)
    ensures result == Allocation(Request(urls, fetch, totalMaxLength, initialBudget))
  {
    ghost var req := Request(urls, fetch, totalMaxLength, initialBudget);
    var maxLength := initialBudget;
    var articles := Empty<Entry>();
    var k := 0;
    while k < |urls|
      invariant k <= |urls|
      invariant maxLength == BudgetBefore(req, k)
      invariant BudgetHeld(req, k)
      invariant Collected(req, k, articles)
    {
      var url := urls[k];
      if maxLength <= 0 {
        return Err(BudgetExceeded(totalMaxLength));
      }
      var fetched := GetArticleFromUrl(fetch(url), maxLength);
      FetchStep(req, k, articles, fetched);
      if fetched.Some? {
        var f := fetched.value;
        articles := articles.Insert(url, Content(UrlContent(url, f.isSummary, f.article)));
        if f.isSummary {
          maxLength := totalMaxLength - |f.article.summary|;
        } else {
          maxLength := totalMaxLength - |f.article.text|;
        }
        assert maxLength == totalMaxLength - Consumed(f);
      } else {
        articles := articles.Insert(url, FetchError);
      }
      k := k + 1;
    }
    CollectedAll(req, articles);
    result := Ok(articles);
  }

  /** `get_articles_from_input_message`: extract the urls, then fetch them all. */
  method GetArticlesFromInputMessage(inputMessage: string, totalMaxLength: int, initialBudget: int,
                                     fetch: string -> Page)
    returns (result: Result<OrderedMap<Entry>, Error>)
    ensures result == Allocation(Request(ExtractUrls(inputMessage), fetch, totalMaxLength, initialBudget))
  {
    var urls := ExtractUrls(inputMessage);
    result := FetchAll(urls, totalMaxLength, initialBudget, fetch);
  }
}
