# hello_outside_world: the message pipeline, in Dafny

`script.py` is an extension for text-generation-webui. It finds the urls in a
chat message, fetches every page, summarises the long ones, and rewrites the
message. Each fetched url becomes a markdown link `[title](url)`. Each url that
failed is wrapped in a red `<span>`. One quoted block per article is then
appended as a footer. This project models that pipeline and proves what it does.

The model has one module per stage:

- `Wrappers` (`wrappers.dfy`): `Option` and `Result`.
- `Text` (`text.dfy`): ASCII `\w` and `\s`, Python's `str.replace`, `str.split` and `str.join`.
  It also proves that `s.replace(p, r)` is `r.join(s.split(p))`.
- `Patterns` (`patterns.dfy`): the two regular expressions, RX_RFC_3986 `\w{2,6}://[^\s]+`
  and RX_MD_URLS `[^()]+\([^)]+\)`.
  - Python's leftmost, non-overlapping `findall` is an explicit left-to-right scanner, `Scan`.
  - `IsFindAll` states the same search without a scanner: every span is a match, the
    spans are in order, and no match starts in a gap between them.
  - The scanner meets `IsFindAll`, and it is the only span list that does.
- `Urls` (`urls.dfy`): `clean_url` under multi-line `$`, and `extract_urls`.
- `OrderedMaps` (`ordered_maps.dfy`): Python's insertion-ordered `dict`.
  - `Dedup` gives the key order that a sequence of insertions leaves.
- `Articles` (`articles.dfy`): the summarise decision of `get_article_from_url`, and the
  budget loop of `get_articles_from_input_message`.
  - The loop is the method `FetchAll`.
  - The loop is proved equal to `Allocation`, a statement of its result without the loop:
    it raises exactly when the budget is exhausted as some url is reached; otherwise the
    keys are the distinct urls in first-occurrence order, and each value is what the
    *last* fetch of that url wrote.
- `Rewriter` (`rewriter.dfy`): `normalize_links_and_add_footer`.
  - Its five loops are methods, each proved against a function.
  - The whole function is proved equal to `Rewrite`.
- `Dispatch` (`dispatch.dfy`): `chat_input_modifier` and `input_modifier`.

The page library (`newspaper`) is an oracle `fetch: string -> Page`. A download or
parse that raises is `DownloadFailed`. An `nlp()` that raises is
`Downloaded(.., nlpSummary := None)`. Both exceptions are caught by the allocator,
which records FETCH_ERROR (`"__error__"`, the `FetchError` entry).

The pipeline has two exceptions that escape it. Both are modelled as `Err` outcomes:

- The `RuntimeError` raised when the budget is at or below 0 as a url is reached
  (`BudgetExceeded(total)`).
- The `AttributeError` of script.py:184 (`MissingTextAttribute`). The markdown-link loop
  reads `summaries[url].text`, and `UrlContent` has no such field. So a markdown-linked
  url whose article was not summarised makes the whole rewrite raise.

The model follows the code on these points:

- Footer headings always use the article title. The loop at script.py:187-197 overwrites
  every entry the markdown-link loop made, with `user_description=None`. For
  `See [cool](https://x.test/p)`, the heading is the title, not `cool`. What the first
  loop leaves behind is only the key order (markdown-linked urls first) and the crash.
- A url that occurs twice is fetched twice. The second outcome overwrites the first
  value; the key keeps its first position.
- After a successful fetch, the budget is *replaced* by `total - len(summary or text)`.
  It is not decremented.
- `input_modifier` returns its argument on its first line. Nothing after script.py:241 runs.

## Model

| member | source | states |
|---|---|---|
| Patterns.SchemeUrlEnd | script.py:63-66 | an RX_RFC_3986 match at a position is non-empty, inside the text and free of whitespace, and greedy: it ends only at whitespace or at the end of the text |
| Patterns.MarkdownLinkEnd | script.py:60 | an RX_MD_URLS match at a position is non-empty, inside the text, ends with `)` and holds no `)` before it |
| Patterns.Scan | script.py:98 | the findall search yields non-empty spans inside the text, at or after the start index |
| Patterns.ScanIsFindAll | script.py:63-66 | the scanner's spans are matches, left to right and non-overlapping, and no match starts between two of them (or after the last) |
| Patterns.FindAllIsUnique | script.py:98 | any span list with those properties is the scanner's: the findall result is determined |
| Patterns.NoMatchScansEmpty | script.py:98 | a text where the pattern matches at no position yields no matches |
| Patterns.LinkDescription | script.py:60 | the `description` group of a markdown-link match is non-empty and holds no parenthesis |
| Patterns.LinkUrl | script.py:60 | the `url` group of a markdown-link match is non-empty, holds no `)`, stands between `(` and the closing `)`, and occurs in the text |
| Text.ReplaceAllIsJoinOfSplit | script.py:201 | `s.replace(p, r)` is `r.join(s.split(p))`: every occurrence of `p`, taken left to right without overlap, becomes `r` and nothing else changes |
| Text.ReplaceAllAbsent | script.py:205 | replacing a string that does not occur leaves the message unchanged |
| Text.ReplaceAllIdentity | script.py:201 | replacing a string by itself leaves the message unchanged |
| Text.Split | script.py:210 | `split` always returns at least one part |
| Text.SplitJoinRoundTrip | script.py:210 | joining the lines `split("\n")` returns with `"\n"` gives the summary back |
| Urls.CleanUrl | script.py:92-94 | `clean_url` never lengthens a url |
| Urls.CleanUrlTrimsLastChar | script.py:92-94 | on a url without newlines, `clean_url` drops the last character exactly when it is not an ASCII letter, digit or `/`; the result is a prefix of length at least len-1 |
| Urls.UrlSpans | script.py:98 | the RX_RFC_3986 match spans of a message are non-empty ranges inside it |
| Urls.RawUrls | script.py:98 | `findall` gives one string per match, in order; each is a scheme url (2-6 word characters, `://`, then no whitespace) without newlines, and its match stops only at whitespace or at the end of the message |
| Urls.ExtractUrls | script.py:97-100 | `extract_urls` gives one url per match, in order: the k-th is its raw match, or that match without its last character exactly when that character is not an ASCII letter, digit or `/` |
| Urls.RawUrlIsSchemeUrl | script.py:63-66 | every RX_RFC_3986 match is 2-6 word characters, `://`, then one or more non-whitespace characters, and ends at whitespace or at the end of the text |
| Urls.ExtractedUrls | script.py:97-100 | the matches behind the extracted urls are left to right and do not overlap |
| Urls.NoSeparatorNoUrls | script.py:97-100 | a text with no `://` yields no urls |
| OrderedMaps.OrderedMap.Insert | script.py:146 | `d[k] = v`: a new key goes to the end, an existing key keeps its place, and the value is replaced |
| OrderedMaps.Dedup | script.py:133-153 | the key order after inserting a sequence has each distinct element exactly once |
| OrderedMaps.DedupFirstOccurrenceOrder | script.py:133-153 | the keys stand in the order of their first insertion |
| OrderedMaps.DedupPrefix | script.py:168-197 | later insertions never reorder the keys inserted first |
| OrderedMaps.DedupSnoc | script.py:146 | one more insertion appends a new key and leaves the order unchanged for a repeated one |
| OrderedMaps.InsertKeys | script.py:146 | inserting into a dict whose keys came from a sequence gives the key order of the extended sequence |
| Articles.GetArticleFromUrl | script.py:108-122 | no summary exactly when the budget is negative or the text is shorter than it; title and text are the page's; a summary is produced when asked for unless `nlp()` fails; a failed download yields no article |
| Articles.Allocation | script.py:125-154 | the allocator's result: it raises only with the total in the message; otherwise its keys are exactly the extracted urls, and every `UrlContent` carries its own url and its page's title and text |
| Articles.BudgetBefore | script.py:132-153 | the budget as each url is reached is the starting budget or, once an article was kept, at most the total |
| Articles.BudgetAfterUrl | script.py:146-153 | after a summarised article the budget is total minus the summary length; after an unsummarised one, total minus the text length; after a failure, unchanged |
| Articles.ExhaustionAfterLastUrlIsFine | script.py:134-138 | if the budget is positive as each url is reached, the allocator does not raise, whatever the budget ends at |
| Articles.FetchAll | script.py:133-154 | the budget loop computes exactly `Allocation`: keys in first-occurrence order, each value from the last fetch of its url, the budget error exactly when some url is reached with budget at most 0 |
| Articles.GetArticlesFromInputMessage | script.py:125-154 | the allocator applied to the urls `extract_urls` finds in the message |
| Rewriter.MarkdownLinks | script.py:170 | as many links as RX_MD_URLS matches of the message |
| Rewriter.MarkdownLinkGroups | script.py:170-172 | the k-th link holds the groups of the k-th match: the matched text is `description(url)`, the description non-empty without parentheses, the url non-empty without `)` |
| Rewriter.MarkdownUrlsOccur | script.py:170-172 | every markdown-link url is non-empty and occurs in the message |
| Rewriter.NoParenNoLinks | script.py:60 | a message without `(` has no markdown links |
| Rewriter.ContentUrls | script.py:187-189 | the urls kept are exactly those that map to a `UrlContent` |
| Rewriter.ErrorUrls | script.py:204 | the urls kept are exactly those that map to FETCH_ERROR |
| Rewriter.Footers | script.py:168-197 | `footer_summaries` is a valid dict whose keys are exactly the urls that map to a `UrlContent` |
| Rewriter.Rewrite | script.py:157-213 | the only exception the rewrite raises is the missing `text` attribute |
| Rewriter.CollectLinkedFooters | script.py:168-185 | the markdown-link loop raises exactly when a link names a url whose article was not summarised; otherwise its keys are the linked `UrlContent` urls, deduplicated, in link order |
| Rewriter.AddFetchedFooters | script.py:187-197 | the loop over `summaries` gives every `UrlContent` url a footer with no user description, the title, and the summary or text; new keys go after the existing ones, and other entries are kept |
| Rewriter.FootersReached | script.py:168-197 | the dict both loops leave is `Footers` |
| Rewriter.Heading | script.py:209 | `user_description or title`: a non-empty user description when there is one, and the title when the description is missing or empty |
| Rewriter.ReplaceWithLinks | script.py:199-201 | the loop computes `LinkAll`: each footer url, in key order, is replaced everywhere by `[title](url)` |
| Rewriter.MarkFailedUrls | script.py:203-205 | the loop computes `MarkAll`: each failed url, in order, is replaced everywhere by its red span |
| Rewriter.AppendFooterBlocks | script.py:207-211 | the loop computes `Blocks`: one block per footer entry is appended, in key order |
| Rewriter.NormalizeLinksAndAddFooter | script.py:157-213 | the five loops compute `Rewrite`: the crash exactly when `Crashes`, otherwise links, then red marks, then footer blocks |
| Rewriter.RewriteOfEmptyMap | script.py:168-213 | with no fetched urls the message comes back unchanged |
| Rewriter.FooterKeyOrder | script.py:168-197 | footer keys are distinct, are exactly the `UrlContent` urls, and start with the markdown-linked ones in link order |
| Rewriter.FootersHeadedByTitle | script.py:187-197 | every footer has no user description, so its heading is the article title; its text is the summary when there is one and the article text otherwise |
| Rewriter.FailedUrlHasNoBlock | script.py:188-189 | a url whose fetch failed has no footer entry and is among the urls marked red |
| Rewriter.QuoteLines | script.py:210 | the quoted summary is `> ` followed by the summary with every newline followed by `> ` |
| Rewriter.JoinQuoted | script.py:210 | joining the quoted lines with newlines puts `> ` first and after every separator |
| Rewriter.LinkAllAbsent | script.py:199-201 | replacing urls that do not occur leaves the message unchanged |
| Rewriter.MarkAllAbsent | script.py:204-205 | marking urls that do not occur leaves the message unchanged |
| Rewriter.UntouchedWhenUrlsAbsent | script.py:168-213 | when no fetched url occurs in the message, the output is the message followed by the footer blocks |
| Rewriter.NoParenNeverFails | script.py:168-197 | a message without `(` never raises, and the footer follows the order of `summaries` |
| Rewriter.ContentUrlsNone | script.py:187-189 | with no `UrlContent` values no url is kept |
| Rewriter.ErrorUrlsNone | script.py:204 | with no FETCH_ERROR values no url is marked |
| Rewriter.ContentUrlsDistinct | script.py:187-189 | keeping some urls of a duplicate-free sequence keeps it duplicate-free |
| Rewriter.RewriteFailsExactly | script.py:176-184 | the rewrite raises if and only if some markdown link names a url whose article was not summarised |
| Rewriter.OneArticleNoCrash | script.py:176-184 | one fetched article that was summarised or is not named by a markdown link does not make script.py:184 raise |
| Rewriter.OneArticleFooters | script.py:168-197 | one fetched article that was summarised or is not named by a markdown link (so script.py:184 does not raise) gives a footer dict with exactly that url and its entry |
| Rewriter.FooterOfArticle | script.py:190-197 | an article's block is the heading `> # ` with its title, then its quoted summary or text |
| Rewriter.OneArticle | script.py:187-211 | one fetched article that was summarised or is not named by a markdown link (so script.py:184 does not raise): the output is the message with its url made a markdown link, followed by one block headed by the title |
| Rewriter.OneFailedUrl | script.py:203-205 | one failed url: the output is the message with the url in a red span, and no footer |
| Dispatch.ChatInputModifier | script.py:216-231 | unchanged unless `use_for` is `Chats` or `Both`; otherwise the visible text is the rewritten text when `enable_visible` and the original otherwise; only the two pipeline errors can escape |
| Dispatch.ChatInputIsRewrite | script.py:224-228 | when enabled, the call raises exactly when the allocator or the rewrite does, and its first component is the rewrite of the message under the fetched articles |
| Dispatch.NoUrlsPassThrough | script.py:216-231 | a message without `://` comes back unchanged, and the visible text becomes the message exactly when the pipeline runs with `enable_visible` |
| Dispatch.DefaultsRewriteBoth | script.py:74-79 | the default settings (`use_for` `Both`, `enable_visible` on) run the pipeline on chats: the call raises exactly when the allocator or the rewrite does, and both components are the rewrite of the message under the fetched articles |
| Dispatch.InputModifier | script.py:234-241 | `input_modifier` returns its argument unchanged, whatever the settings |

## Left out

- The `newspaper` page library (download, parse, `nlp()`, CONFIG timeouts, script.py:102-122) is a network library. It is the oracle `fetch`, and any exception it raises is a failed fetch. The oracle is a function, so a url fetched twice yields the same page both times; a url that times out once and downloads the next time is not expressible.
- The starting budget `int(total - total * 0.3)` (script.py:132) is floating-point arithmetic. It is the parameter `initialBudget` of the allocator and of `ChatInputModifier`.
- `min_length` and `prefer_articles` are passed along but never read, so they are absent. So is `summary_length_trigger`, which the pipeline never reads; it is kept only in `Params`.
- The settings file (`load_params_from_file`, `load_params`, `save_params`, script.py:69-89) is file I/O. Settings are the parameter `params`.
- The module-level directory checks (script.py:47-55) depend on the filesystem.
- The UI and its callbacks (script.py:276-321), `setup`'s `nltk.download` (script.py:268-273), `custom_css` and `custom_js` are UI glue or startup I/O.
- The `print` logging carries no behaviour and is left out.
- The code after `return string` in `input_modifier` (script.py:242-250) never runs. It also names an undefined `text`.
- `\w` and `\s` are restricted to ASCII: `[A-Za-z0-9_]`, and space, tab, newline, carriage return, vertical tab, form feed and U+001C to U+001F. Non-ASCII word characters and spaces (U+0085, U+00A0, U+2028 and the like) are not modelled.
- Python strings are sequences of code points; the model uses `seq<char>` and does no encoding.
- Rewriter.Rewrite: its own contract only states which error it raises. The output is characterised by the lemmas after it (`RewriteFailsExactly`, `RewriteOfEmptyMap`, `UntouchedWhenUrlsAbsent`, `OneArticle`, `OneFailedUrl`) and by the loop methods proved against it.
