/**
 * `extract_description` and `extract_article_data`: which fields of a
 * fetched HTML page become the title, the publication date and the
 * description of an article, and when a page yields no article at all.
 *
 * A page is given by what the HTML lookups of the scraper return on it;
 * the date parser is a parameter.
 */
module Extraction {
  import opened Wrappers
  import opened Text
  import opened Dates
  import opened Urls
  import opened Sitemaps
  import opened Descriptions

  /** A `<time>` element: its `datetime` attribute and its stripped text. */
  datatype TimeTag = TimeTag(datetime: Option<string>, text: string)

  /**
   * The lookups on a parsed page. An attribute lookup is `None` when the
   * element or its attribute is missing; a text lookup is `None` when the
   * element is missing, and otherwise its `get_text(" ", strip=True)`.
   */
  datatype Page = Page(
    ogTitle: Option<string>,          // content of <meta property="og:title">
    h1: Option<string>,               // text of the first <h1>
    title: Option<string>,            // text of <title>
    publishedTime: Option<string>,    // content of <meta property="article:published_time">
    time: Option<TimeTag>,            // the first <time>
    metaDescription: Option<string>,  // content of <meta name="description">
    paragraph: Option<string>)        // text of the first <p>

  /** The record `Article` of the scraper. */
  datatype Article = Article(site: string, title: string, publishedAt: Instant, url: string, description: string)

  /** A date parser: `dateutil`'s `parse` followed by the conversion to UTC; `None` on failure. */
  type DateParser = string -> Option<Instant>

  /** `parse_datetime`: nothing for a missing or empty value, else the parser's answer. */
  function ParseDateTime(parse: DateParser, value: Option<string>): (r: Option<Instant>)
    ensures !Truthy(value) ==> r.None?
    ensures Truthy(value) ==> r == parse(value.value)
  {
    if Truthy(value) then parse(value.value) else None
  }

  /** `extract_description`: the stripped meta description, else the first paragraph's words. */
  function ExtractDescription(page: Page): (r: string)
    ensures Trimmed(r)
    ensures r == [] <==>
              if Truthy(page.metaDescription) then AllSpace(page.metaDescription.value)
              else page.paragraph.None? || AllSpace(page.paragraph.value)
  {
    if Truthy(page.metaDescription) then
      StripEmpty(page.metaDescription.value);
      Strip(page.metaDescription.value)
    else if page.paragraph.Some? then Collapse(page.paragraph.value)
    else ""
  }

  /** The title chosen by `extract_article_data`: og:title, then `<h1>`, then `<title>`. */
  function ResolveTitle(page: Page): string {
    var og := if Truthy(page.ogTitle) then Strip(page.ogTitle.value) else "";
    if og != "" then og
    else
      var h1 := if page.h1.Some? then page.h1.value else "";
      if h1 != "" then h1
      else if page.title.Some? then page.title.value
      else ""
  }

  /** The date chosen by `extract_article_data`: the meta tag, then the `<time>` tag. */
  function ResolveDate(parse: DateParser, page: Page): Option<Instant> {
    var meta := if Truthy(page.publishedTime) then ParseDateTime(parse, page.publishedTime) else None;
    if meta.Some? then meta
    else if page.time.Some? then
      var tag := page.time.value;
      ParseDateTime(parse, if Truthy(tag.datetime) then tag.datetime else Some(tag.text))
    else None
  }

  /** The title a page's lookups offer, in priority order (empty where a lookup gives nothing). */
  function TitleCandidates(page: Page): seq<string> {
    [ if Truthy(page.ogTitle) then Strip(page.ogTitle.value) else "",
      if page.h1.Some? then page.h1.value else "",
      if page.title.Some? then page.title.value else "" ]
  }

  /** The date strings a page offers, in priority order. */
  function DateCandidates(page: Page): seq<Option<string>> {
    [ page.publishedTime,
      if page.time.Some? then
        (if Truthy(page.time.value.datetime) then page.time.value.datetime else Some(page.time.value.text))
      else None ]
  }

  /** The first non-empty string of `cs`, or `""`. */
  function FirstNonEmpty(cs: seq<string>): string
    decreases |cs|
  {
    if cs == [] then "" else if cs[0] != "" then cs[0] else FirstNonEmpty(cs[1..])
  }

  /** The first date string of `cs` the parser accepts, parsed. */
  function FirstParsed(parse: DateParser, cs: seq<Option<string>>): Option<Instant>
    decreases |cs|
  {
    if cs == [] then None
    else if ParseDateTime(parse, cs[0]).Some? then ParseDateTime(parse, cs[0])
    else FirstParsed(parse, cs[1..])
  }

  /** `FirstNonEmpty` is empty only when every candidate is, and is otherwise the first non-empty one. */
  lemma {:induction false} FirstNonEmptyIsFirst(cs: seq<string>)
    ensures FirstNonEmpty(cs) == "" <==> forall i :: 0 <= i < |cs| ==> cs[i] == ""
    ensures FirstNonEmpty(cs) != "" ==>
              exists i :: 0 <= i < |cs| && cs[i] == FirstNonEmpty(cs) && forall j :: 0 <= j < i ==> cs[j] == ""
    decreases |cs|
  {
    if cs != [] && cs[0] == "" {
      var r := FirstNonEmpty(cs[1..]);
      FirstNonEmptyIsFirst(cs[1..]);
      if r != "" {
        var i :| 0 <= i < |cs[1..]| && cs[1..][i] == r && forall j :: 0 <= j < i ==> cs[1..][j] == "";
        assert cs[i + 1] == r;
        forall j | 0 <= j < i + 1 ensures cs[j] == "" {
          if j > 0 { assert cs[j] == cs[1..][j - 1]; }
        }
      } else {
        forall i | 0 <= i < |cs| ensures cs[i] == "" {
          if i > 0 { assert cs[i] == cs[1..][i - 1]; }
        }
      }
    }
  }

  /** `FirstParsed` is missing only when no candidate parses, and is otherwise the first that does. */
  lemma {:induction false} FirstParsedIsFirst(parse: DateParser, cs: seq<Option<string>>)
    ensures FirstParsed(parse, cs).None? <==> forall i :: 0 <= i < |cs| ==> ParseDateTime(parse, cs[i]).None?
    ensures FirstParsed(parse, cs).Some? ==>
              exists i :: 0 <= i < |cs| && ParseDateTime(parse, cs[i]) == FirstParsed(parse, cs)
                && forall j :: 0 <= j < i ==> ParseDateTime(parse, cs[j]).None?
    decreases |cs|
  {
    if cs != [] && ParseDateTime(parse, cs[0]).None? {
      var r := FirstParsed(parse, cs[1..]);
      FirstParsedIsFirst(parse, cs[1..]);
      if r.Some? {
        var i :| 0 <= i < |cs[1..]| && ParseDateTime(parse, cs[1..][i]) == r
                 && forall j :: 0 <= j < i ==> ParseDateTime(parse, cs[1..][j]).None?;
        assert ParseDateTime(parse, cs[i + 1]) == r;
        forall j | 0 <= j < i + 1 ensures ParseDateTime(parse, cs[j]).None? {
          if j > 0 { assert cs[j] == cs[1..][j - 1]; }
        }
      } else {
        forall i | 0 <= i < |cs| ensures ParseDateTime(parse, cs[i]).None? {
          if i > 0 { assert cs[i] == cs[1..][i - 1]; }
        }
      }
    }
  }

  /** The title is the first non-empty of og:title, `<h1>` and `<title>`. */
  lemma ResolveTitleFirst(page: Page)
    ensures ResolveTitle(page) == FirstNonEmpty(TitleCandidates(page))
  {
    var cs := TitleCandidates(page);
    assert cs[1..][1..] == [cs[2]] && [cs[2]][1..] == [];
    assert FirstNonEmpty([cs[2]]) == cs[2];
    assert FirstNonEmpty(cs[1..]) == if cs[1] != "" then cs[1] else cs[2];
  }

  /** The date is the first of the meta tag and the `<time>` tag that parses. */
  lemma ResolveDateFirst(parse: DateParser, page: Page)
    ensures ResolveDate(parse, page) == FirstParsed(parse, DateCandidates(page))
  {
    var cs := DateCandidates(page);
    assert cs[1..] == [cs[1]] && [cs[1]][1..] == [];
    assert FirstParsed(parse, [cs[1]]) == ParseDateTime(parse, cs[1]);
  }

  /**
   * `extract_article_data`: `pages` maps each URL whose fetch returned a
   * non-empty body to its parsed page; `url` is the split form of `loc`.
   */
  function ExtractArticle(pages: map<string, Page>, parse: DateParser, loc: string, url: Url): (r: Option<Article>)
    ensures r.Some? <==> loc in pages && ResolveTitle(pages[loc]) != "" && ResolveDate(parse, pages[loc]).Some?
    ensures r.Some? ==> r.value.url == loc && r.value.site == NormalizeDomain(url)
  {
    if loc !in pages then None
    else
      var page := pages[loc];
      var title := ResolveTitle(page);
      var publishedAt := ResolveDate(parse, page);
      var description := Shortened(ExtractDescription(page));
      if title != "" && publishedAt.Some? then
        Some(Article(NormalizeDomain(url), title, publishedAt.value, loc, description))
      else None
  }

  /**
   * A page yields an article exactly when it was fetched, one of its title
   * lookups is non-empty and one of its date strings parses.
   */
  lemma ExtractArticleWhen(pages: map<string, Page>, parse: DateParser, loc: string, url: Url)
    ensures ExtractArticle(pages, parse, loc, url).Some? <==>
              && loc in pages
              && (exists i :: 0 <= i < |TitleCandidates(pages[loc])| && TitleCandidates(pages[loc])[i] != "")
              && (exists i :: 0 <= i < |DateCandidates(pages[loc])| && ParseDateTime(parse, DateCandidates(pages[loc])[i]).Some?)
  {
    if loc in pages {
      ResolveTitleFirst(pages[loc]);
      FirstNonEmptyIsFirst(TitleCandidates(pages[loc]));
      ResolveDateFirst(parse, pages[loc]);
      FirstParsedIsFirst(parse, DateCandidates(pages[loc]));
    }
  }

  /** An article's description holds at most two sentence terminators. */
  lemma ArticleDescriptionShort(pages: map<string, Page>, parse: DateParser, loc: string, url: Url)
    requires ExtractArticle(pages, parse, loc, url).Some?
    ensures CountIn(ExtractArticle(pages, parse, loc, url).value.description, Terminators) <= 2
  {
    ShortenedTerminators(ExtractDescription(pages[loc]));
  }
}
