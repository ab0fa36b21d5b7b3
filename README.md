# A verified model of the monthly article scraper

`scripts/article_scraper.py` collects, for a list of blog sites and one
calendar month, the articles each site published in that month and renders
them as a Markdown report. For each site it reads `robots.txt` to find the
site's sitemaps (the `Sitemap:` extension record of section 2.2.4 of
RFC 9309). It then walks the Sitemap protocol 0.9 documents breadth-first:
a `sitemapindex` enqueues its `sitemap/loc` children, and a `urlset` emits
its `url/loc` children with their `lastmod`. Each new location is
pre-filtered by its `lastmod`, or by month tokens in its path. The pages that
pass are fetched. The title and publication date each come from the first
page element that gives one, and the description is cut to two sentences.
A page becomes an article only when its publication date lies in the month.
A site's articles are sorted by date.

This project models that logic in Dafny and proves properties of it. Fetching
and parsing are replaced by inputs:

- `texts` maps a URL to the body of its successful text fetch;
- `web` maps a URL to its parsed sitemap document;
- `pages` maps a URL to its parsed HTML page;
- a date parser is a function `string -> Option<Instant>`.

A URL that is missing from a map is one whose fetch failed (non-200), whose
body was empty, or that did not parse.

Modules, one per concern of the script:

| file | module | what it holds |
|---|---|---|
| `wrappers.dfy` | `Wrappers` | `Option` |
| `text.dfy` | `Text` | Python string operations (`strip`, `split`, `join`, `splitlines`, `lower`, `replace`, `str.find`, integer rendering) |
| `dates.dfy` | `Dates` | UTC datetimes, `parse_month`, `month_matches`, `month_tokens`, `is_candidate_url`, `%d.%m.%Y` |
| `urls.dfy` | `Urls` | split URLs, `normalize_domain`, `rstrip("/")` |
| `robots.dfy` | `Robots` | `discover_sitemaps` |
| `sitemaps.dfy` | `Sitemaps` | `strip_namespace`, `collect_sitemap_entries` |
| `descriptions.dfy` | `Descriptions` | `shorten_description` |
| `extraction.dfy` | `Extraction` | `parse_datetime`, `extract_description`, `extract_article_data` |
| `articles.dfy` | `Articles` | `collect_articles` |
| `report.dfy` | `Report` | `render_markdown` |

The loops of the script are methods with loops:

- `DiscoverSitemaps`;
- `CollectSitemapEntries`, with its inner `EnqueueIndex` and `ReadUrlSet`;
- `ShortenDescription`;
- `CollectArticles`, with `GatherEntries` and `SelectArticles`;
- `RenderMarkdown`.

Each method is proved equal to a recursive function of its inputs. The
properties the script promises are lemmas about those functions.

The traversal of `collect_sitemap_entries` has a reference definition,
`Visits(web, start)`: a recursive walk over the queue and the seen set that
drops a seen head and otherwise looks it up and appends what its document
enqueues. The method's loop is proved to return the entries of exactly those
documents. Lemmas about `Visits` state what a breadth-first traversal is: it
starts at the start URL, looks up no URL twice, is closed under what visited
indexes list, looks up only URLs that an earlier visited index listed, and
follows first-in first-out order. The walk terminates on cyclic indexes
because the seen set grows inside a finite universe, namely the start URL and
every URL any index of the web lists.

The selection loop of `collect_articles` carries a ghost record of the
locations the extractor is called on. Lemmas show that this record has no
repetitions and holds exactly the first occurrences that pass the pre-filter.
They also show that pages at other locations do not affect the result.

`normalize_domain` removes every occurrence of `www.`, not only a leading
one (`Replace`, as in the code).

## Model

| member | source | states |
|---|---|---|
| Dates.ParseMonth | scripts/article_scraper.py:55-58 | the range starts at midnight of day 1 of the month and ends at midnight of day 1 of the next month (December rolls over to January of the next year); start is before end |
| Dates.FourDaysAfter28 | scripts/article_scraper.py:57 | day 28 plus four days, with the day set back to 1, is the first of the next month, for every month length |
| Dates.MonthMatchesCalendarMonth | scripts/article_scraper.py:221-222 | an instant lies in `parse_month`'s range exactly when its year and month are that month's |
| Dates.MonthRangeHalfOpen | scripts/article_scraper.py:221-222 | the range holds its start and not its end |
| Dates.MonthTokensCount | scripts/article_scraper.py:225-232 | a month has three distinct tokens for months 1 to 9 and two from October on |
| Dates.CandidatePathMonth | scripts/article_scraper.py:235-237 | a path is a candidate exactly when it contains `/YYYY/MM`, `/YYYY-MM` or `/YYYY/M` |
| Urls.NormalizeDomainLeadingWww | scripts/article_scraper.py:61-63 | a netloc `www.` + rest, where rest has no other `www.`, normalises to rest |
| Urls.NormalizeDomainPlain | scripts/article_scraper.py:61-63 | a netloc without `www.` is unchanged |
| Urls.PathPrefix | scripts/article_scraper.py:247 | the prefix is the path without its trailing slashes: a prefix of the path that does not end in `/`, followed in the path only by `/` |
| Robots.SitemapLineColon | scripts/article_scraper.py:80-81 | on a line whose lower-case form starts with `sitemap:`, the first colon is at index 7 |
| Robots.SitemapValueAfterPrefix | scripts/article_scraper.py:80-81 | the value of a sitemap line is what follows its 8-character prefix, stripped |
| Robots.DeclaredMembers | scripts/article_scraper.py:78-83 | a URL is collected exactly when it is non-empty and some sitemap line of the body carries it |
| Robots.Discovered | scripts/article_scraper.py:73-86 | the result is never empty; it is the default `/sitemap.xml` URL or a list of non-empty stripped values; a missing or empty body gives the default |
| Robots.DiscoveredDefault | scripts/article_scraper.py:84-85 | a body with no sitemap line that has a value gives exactly the default |
| Robots.DiscoverSitemaps | scripts/article_scraper.py:73-86 | the line loop returns the declared values in file order, or the default when there are none |
| Sitemaps.StripNamespace | scripts/article_scraper.py:89-92 | the result is a suffix of the tag; the tag itself when it has no `}`; otherwise what follows its first `}` |
| Sitemaps.UrlStep | scripts/article_scraper.py:126-137 | a `url` child emits at most one entry; its path starts with a non-empty prefix, and its `loc` and `lastmod` are stripped |
| Sitemaps.Enqueued | scripts/article_scraper.py:117-124 | only a fetched `sitemapindex` adds to the queue |
| Sitemaps.Emitted | scripts/article_scraper.py:117-137 | only a fetched `urlset` emits entries, each well formed for the prefix; any other root emits nothing |
| Sitemaps.FirstOccurrences | scripts/article_scraper.py:104-108 | the URLs looked up are the distinct URLs dequeued, without repetition |
| Sitemaps.EnqueueIndex | scripts/article_scraper.py:119-124 | the index loop appends the stripped `loc` of each `sitemap` child with a non-empty `loc`, in document order |
| Sitemaps.ReadUrlSet | scripts/article_scraper.py:126-137 | the urlset loop appends the entries of the kept `url` children, in document order |
| Sitemaps.Visit | scripts/article_scraper.py:109-137 | visiting a URL extends the queue by what its document enqueues and the entries by what it emits |
| Sitemaps.CollectSitemapEntries | scripts/article_scraper.py:95-138 | the loop terminates; the URLs it looks up in the web, in order, are exactly the reference traversal `Visits` (so none twice, by `VisitsShape`); it returns the entries those documents emit, in visiting order |
| Sitemaps.VisitsShape | scripts/article_scraper.py:101-124 | the traversal looks up the start URL first, looks up no URL twice, and looks up every location a visited index lists |
| Sitemaps.VisitsCausal | scripts/article_scraper.py:101-124 | every URL looked up after the start URL was listed by an index looked up before it |
| Sitemaps.VisitsFifo | scripts/article_scraper.py:101-124 | the URLs looked up are the first occurrences, in order, of the start URL followed by everything the visited indexes list, in visiting order: the queue is first-in first-out |
| Descriptions.ShortenDescription | scripts/article_scraper.py:163-178 | the character loop, its `break` and its tail step give `Shortened(text)` |
| Descriptions.ClosedCount | scripts/article_scraper.py:169-173 | the buffer never holds a terminator, and a text closes one sentence per terminator |
| Descriptions.ClosedShape | scripts/article_scraper.py:169-173 | every closed sentence is non-empty and holds exactly one terminator, at its end |
| Descriptions.ShortenedEmpty | scripts/article_scraper.py:164-166 | the result is empty exactly when the input is only whitespace |
| Descriptions.ShortenedTerminators | scripts/article_scraper.py:163-178 | the result holds min(2, n) terminators when the input holds n |
| Descriptions.ShortenedNoTerminator | scripts/article_scraper.py:163-178 | without a terminator the result is the whitespace-collapsed input |
| Descriptions.ShortenedTwoSentences | scripts/article_scraper.py:174-175 | with two or more terminators the result ends with a terminator |
| Extraction.ExtractDescription | scripts/article_scraper.py:153-160 | the description has no surrounding whitespace; it is empty exactly when the meta content, or failing it the first paragraph, is missing or only whitespace |
| Extraction.FirstNonEmptyIsFirst | scripts/article_scraper.py:187-196 | the first-non-empty choice is empty only when every option is empty, and is otherwise the first non-empty option |
| Extraction.FirstParsedIsFirst | scripts/article_scraper.py:198-205 | the first-parsed choice is missing only when no option parses, and is otherwise the first option that parses |
| Extraction.ResolveTitleFirst | scripts/article_scraper.py:187-196 | the title is the first non-empty of og:title (stripped), `<h1>` and `<title>` |
| Extraction.ResolveDateFirst | scripts/article_scraper.py:198-205 | the date is the first of the published-time meta tag and the `<time>` tag that parses |
| Extraction.ExtractArticle | scripts/article_scraper.py:181-218 | a page yields an article exactly when it was fetched and both a title and a date resolve; the article carries the URL and its normalised domain |
| Extraction.ExtractArticleWhen | scripts/article_scraper.py:209-210 | a page yields an article exactly when some title option is non-empty and some date option parses |
| Extraction.ArticleDescriptionShort | scripts/article_scraper.py:207 | an article's description holds at most two terminators |
| Articles.Take | scripts/article_scraper.py:262-271 | a new location gives at most one article; it passes the pre-filter, is the page's article, has the entry's URL and is published in the month |
| Articles.PrefilterMonth | scripts/article_scraper.py:262-266 | an entry whose `lastmod` parses passes the pre-filter exactly when that date lies in the calendar month; one without a usable `lastmod` passes exactly when its path contains `/YYYY/MM`, `/YYYY-MM` or `/YYYY/M` |
| Articles.Consider | scripts/article_scraper.py:262-271 | the loop body for a new location computes `Take`, and calls the extractor exactly when the pre-filter passes |
| Articles.AcceptedMembers | scripts/article_scraper.py:256-271 | an article is kept exactly when some entry is the first with its location and contributes it |
| Articles.AcceptedDistinct | scripts/article_scraper.py:257-261 | the kept articles have pairwise distinct URLs, each the location of an entry |
| Articles.AcceptedInMonth | scripts/article_scraper.py:270-271 | every kept article is published in the month |
| Articles.SortByDateSpec | scripts/article_scraper.py:273 | the sort is ascending by publication date and a permutation |
| Articles.SortByDateStable | scripts/article_scraper.py:273 | articles with the same date keep their order, as Python's stable `sorted` does |
| Articles.ReportedArticles | scripts/article_scraper.py:240-273 | the result is sorted, has distinct URLs, lies in the month, and holds exactly the articles of the selected entries |
| Articles.SelectArticles | scripts/article_scraper.py:256-271 | the loop with `seen_urls` keeps `Accepted` of the entries and calls the extractor on `Fetches` of the entries, in order |
| Articles.FetchesOnce | scripts/article_scraper.py:257-267 | the extractor is called at most once per location, and only on locations of the entries |
| Articles.FetchesMembers | scripts/article_scraper.py:257-267 | the extractor is called on a location exactly when some entry with that location is the first with it and passes the pre-filter |
| Articles.AcceptedUsesFetched | scripts/article_scraper.py:257-271 | two page maps that agree on the fetched locations give the same articles: no other page is consulted |
| Articles.GatherEntries | scripts/article_scraper.py:252-254 | the entries are those of the reference traversal of each discovered sitemap, one sitemap after the other; the sitemap documents fetched are those traversals' lookups, in the same order |
| Articles.CollectArticles | scripts/article_scraper.py:240-273 | the result is the date-sorted list of the articles accepted from the entries of the sitemaps discovered for the re-split base URL; the sitemap documents fetched are the traversals' lookups, and the extractor is called on exactly `Fetches` of those entries |
| Report.AppendSection | scripts/article_scraper.py:279-297 | one iteration appends exactly the section of the site |
| Report.RenderMarkdown | scripts/article_scraper.py:276-298 | the output is the newline join of the sections of the sites, in order |
| Report.SiteLinesShape | scripts/article_scraper.py:279-297 | a section is three lines without articles and four plus one per article otherwise; it starts with the heading and ends with an empty line; without articles its second line is the `Нет статей за {month}.` notice, otherwise it puts the header, separator and each article's row in place |
| Report.ReportLinesSections | scripts/article_scraper.py:276-298 | the report holds each site's section right after those of the sites before it |
| Report.EscapeShape | scripts/article_scraper.py:291-294 | escaping keeps every `\|` of the text and leaves none that opens a column |
| Report.RowColumns | scripts/article_scraper.py:288-296 | a row opens exactly the six borders of the five-column table when the site and the URL (which are not escaped) carry no `\|` |

## Left out

- HTTP: fetching, status codes, timeouts and the User-Agent header are inputs (the maps `texts`, `web`, `pages`). Exceptions that `session.get` raises are not caught by the script; the model has no path for them.
- XML and HTML parsing: a sitemap document is its root tag and, per child, the tag and the `findtext` results; a page is the results of its lookups (`get_text` included).
- `urlparse`: URLs come split into scheme, netloc and path. The split of a sitemap `loc` is part of the document input. `discover_sitemaps` re-parses the base URL it is given. `Urls.Resplit` states the result of that re-parse instead of computing it: for a non-empty scheme the same scheme and netloc come back. For an empty scheme, as with a scheme-relative site URL `//host/...`, the base URL starts with `:` and both parts come back empty.
- `parse_datetime`'s parsing and time-zone conversion (`dateutil`) are the parser parameter. Only its handling of missing and empty values is modelled.
- `parse_datetime` catches only `ValueError` and `TypeError`. An `OverflowError`, from `dateutil` on oversized numbers or from the UTC conversion of a date at the edge of `datetime`'s range, escapes and aborts the whole run. A `DateParser` returns `Some` or `None` and has no such path, like the uncaught `session.get` exceptions.
- `strptime` on the month argument: the year and month arrive as integers that identify a month with a successor that `datetime` can hold (`MonthInRange`). Invalid text makes the script raise, and December 9999 makes it overflow; neither error path is modelled.
- `Text.Lower` lowers ASCII letters only. For the `sitemap:` prefix test this is exact. Only two non-ASCII characters lower to text that begins with an ASCII letter. U+212A KELVIN SIGN lowers to `k`, which is not in `sitemap:`. U+0130 lowers to `i` followed by U+0307, and in `sitemap:` the `i` is followed by `t`.
- `Text.SplitLines` uses Python's line-boundary set, and `IsSpace` uses Python's whitespace set. Unicode normalisation is not modelled.
- `Dates.MonthTokens` writes the year with ASCII digits. `%Y` also accepts other Unicode decimal digits, and `month_tokens` keeps the year as typed, so the tokens differ for such input.
- `Dates.FormatDate` zero-pads the year to four digits; a C library `strftime` may not pad years below 1000.
- A whitespace-only `<loc>` in a `urlset` passes the `if not loc` test and becomes the empty location after stripping. The model follows the code and emits it when the path prefix is empty.
- Visit-once holds per sitemap traversal, as in the code: two sitemaps listed in robots.txt that share an index are each traversed in full.
- `main`, `parse_args`, `DEFAULT_SITES`, writing the report and the `datetime.now` default month: command-line I/O. `RenderMarkdown` takes the `articles_by_site` dictionary as its sequence of items in insertion order.
