/**
 * `collect_articles`: the articles of one site for one month. The sitemaps
 * of the site are traversed, their entries are taken in order with each
 * location considered once, an entry is fetched only when its `lastmod`
 * lies in the month or, without a usable `lastmod`, when its path carries a
 * month token, and a page becomes a result when its publication date lies
 * in the month. The results are ordered by publication date, stably.
 */
module Articles {
  import opened Wrappers
  import opened Text
  import opened Dates
  import opened Urls
  import opened Robots
  import opened Sitemaps
  import opened Extraction

  /** The month being reported: `parse_month`'s range and `month_tokens`. */
  datatype Window = Window(start: DateTime, end: DateTime, tokens: set<string>)

  function MonthWindow(year: int, month: int): Window
    requires MonthInRange(year, month)
  {
    var range := ParseMonth(year, month);
    Window(range.0, range.1, MonthTokens(year, month))
  }

  /** Whether an entry is worth fetching: the two `continue` tests on `lastmod` and the path. */
  predicate Prefilter(parse: DateParser, w: Window, e: SitemapEntry) {
    var lastmodDate := ParseDateTime(parse, e.lastmod);
    if lastmodDate.Some? then MonthMatches(lastmodDate.value, w.start, w.end)
    else IsCandidatePath(e.url.path, w.tokens)
  }

  /**
   * The pre-filter for month `month` of `year`: a `lastmod` that parses must
   * fall in that calendar month; without a usable one, whatever the parser,
   * the path must carry `/YYYY/MM`, `/YYYY-MM` or `/YYYY/M`.
   */
  lemma PrefilterMonth(parse: DateParser, year: int, month: int, e: SitemapEntry)
    requires MonthInRange(year, month)
    ensures ParseDateTime(parse, e.lastmod).Some? ==>
              (Prefilter(parse, MonthWindow(year, month), e) <==>
                 ParseDateTime(parse, e.lastmod).value.year == year && ParseDateTime(parse, e.lastmod).value.month == month)
    ensures ParseDateTime(parse, e.lastmod).None? || !Truthy(e.lastmod) ==>
              (Prefilter(parse, MonthWindow(year, month), e) <==>
                 || Contains(e.url.path, "/" + ZeroPad(year, 4) + "/" + ZeroPad(month, 2))
                 || Contains(e.url.path, "/" + ZeroPad(year, 4) + "-" + ZeroPad(month, 2))
                 || Contains(e.url.path, "/" + ZeroPad(year, 4) + "/" + NatToString(month)))
  {
    var d := ParseDateTime(parse, e.lastmod);
    if d.Some? {
      MonthMatchesCalendarMonth(d.value, year, month);
    }
    CandidatePathMonth(e.url.path, year, month);
  }

  /** The locations of `es`. */
  function LocsOf(es: seq<SitemapEntry>): (r: set<string>)
    decreases |es|
  {
    if es == [] then {} else LocsOf(es[..|es| - 1]) + {es[|es| - 1].loc}
  }

  /** What one entry met for the first time contributes to `articles`. */
  function Take(pages: map<string, Page>, parse: DateParser, w: Window, e: SitemapEntry): (r: seq<Article>)
    ensures |r| <= 1
    ensures r != [] ==> Prefilter(parse, w, e) && ExtractArticle(pages, parse, e.loc, e.url) == Some(r[0])
    ensures r != [] ==> r[0].url == e.loc && MonthMatches(r[0].publishedAt, w.start, w.end)
  {
    if !Prefilter(parse, w, e) then []
    else
      var article := ExtractArticle(pages, parse, e.loc, e.url);
      if article.Some? && MonthMatches(article.value.publishedAt, w.start, w.end) then [article.value] else []
  }

  /** What an entry met for the first time contributes; `Take` with its context fixed. */
  type Taker = SitemapEntry -> seq<Article>

  function Taking(pages: map<string, Page>, parse: DateParser, w: Window): Taker {
    e => Take(pages, parse, w, e)
  }

  /** The list `articles` after the loop over `es`, before sorting. */
  function Accepted(take: Taker, es: seq<SitemapEntry>): seq<Article>
    decreases |es|
  {
    if es == [] then []
    else
      var p := es[..|es| - 1];
      var e := es[|es| - 1];
      Accepted(take, p) + (if e.loc in LocsOf(p) then [] else take(e))
  }

  /** Entry `i` is the first with its location and contributes `a`. */
  predicate SelectedAs(take: Taker, es: seq<SitemapEntry>, i: int, a: Article) {
    0 <= i < |es| && es[i].loc !in LocsOf(es[..i]) && a in take(es[i])
  }

  /** A taker yields at most one article per entry, at the entry's location. */
  ghost predicate OnePerLoc(take: Taker) {
    forall e :: |take(e)| <= 1 && (take(e) != [] ==> take(e)[0].url == e.loc)
  }

  lemma TakingOnePerLoc(pages: map<string, Page>, parse: DateParser, w: Window)
    ensures OnePerLoc(Taking(pages, parse, w))
  {
  }

  /** Whether an entry is selected depends only on the entries up to it. */
  lemma SelectedAsPrefix(take: Taker, es: seq<SitemapEntry>, n: int, i: int, a: Article)
    requires 0 <= i < n <= |es|
    ensures SelectedAs(take, es, i, a) <==> SelectedAs(take, es[..n], i, a)
  {
    assert es[..n][..i] == es[..i] && es[..n][i] == es[i];
  }

  /**
   * The kept articles are exactly those of the selected entries: an article
   * is kept iff some entry is the first with its location and contributes it.
   */
  lemma {:induction false} AcceptedMembers(take: Taker, es: seq<SitemapEntry>, a: Article)
    ensures a in Accepted(take, es) <==> exists i :: SelectedAs(take, es, i, a)
    decreases |es|
  {
    if es != [] {
      var n := |es| - 1;
      var p, e := es[..n], es[n];
      AcceptedMembers(take, p, a);
      var q := Accepted(take, p);
      var t := if e.loc in LocsOf(p) then [] else take(e);
      assert Accepted(take, es) == q + t;
      if a in q {
        var i :| SelectedAs(take, p, i, a);
        SelectedAsPrefix(take, es, n, i, a);
      } else if a in t {
        assert SelectedAs(take, es, n, a);
      } else {
        forall i | 0 <= i < |es| ensures !SelectedAs(take, es, i, a) {
          if i < n {
            SelectedAsPrefix(take, es, n, i, a);
          }
        }
      }
    }
  }

  /** Every kept article comes from an entry location, and no two share a URL. */
  lemma {:induction false} AcceptedDistinct(take: Taker, es: seq<SitemapEntry>)
    requires OnePerLoc(take)
    ensures forall k :: 0 <= k < |Accepted(take, es)| ==> Accepted(take, es)[k].url in LocsOf(es)
    ensures forall i, j :: 0 <= i < j < |Accepted(take, es)| ==> Accepted(take, es)[i].url != Accepted(take, es)[j].url
    decreases |es|
  {
    if es != [] {
      var p, e := es[..|es| - 1], es[|es| - 1];
      AcceptedDistinct(take, p);
      var q := Accepted(take, p);
      var t := if e.loc in LocsOf(p) then [] else take(e);
      var r := q + t;
      assert Accepted(take, es) == r;
      assert LocsOf(es) == LocsOf(p) + {e.loc};
      assert forall k :: 0 <= k < |q| ==> q[k].url in LocsOf(p);
      assert t != [] ==> e.loc !in LocsOf(p) && t == take(e) && t[0].url == e.loc;
      forall k | 0 <= k < |r| ensures r[k].url in LocsOf(es) {
        if k < |q| {
          assert r[k] == q[k];
        } else {
          assert r[k] == t[0];
        }
      }
      forall i, j | 0 <= i < j < |r| ensures r[i].url != r[j].url {
        if j >= |q| {
          assert r[j] == t[0] && r[i] == q[i];
          assert r[j].url == e.loc && e.loc !in LocsOf(p) && r[i].url in LocsOf(p);
        } else {
          assert r[j] == q[j] && r[i] == q[i];
        }
      }
    }
  }

  // ------------------------------------------------------------ sorting

  /** Ordered by publication date, earliest first. */
  predicate SortedByDate(s: seq<Article>) {
    forall i, j :: 0 <= i < j < |s| ==> NotAfter(s[i].publishedAt, s[j].publishedAt)
  }

  /** Insert `a` after every article not later than it. */
  function Insert(a: Article, s: seq<Article>): seq<Article>
    decreases |s|
  {
    if s == [] || Before(a.publishedAt, s[0].publishedAt) then [a] + s
    else [s[0]] + Insert(a, s[1..])
  }

  /** `sorted(articles, key=lambda item: item.published_at)`: a stable sort by date. */
  function SortByDate(s: seq<Article>): seq<Article>
    decreases |s|
  {
    if s == [] then [] else Insert(s[|s| - 1], SortByDate(s[..|s| - 1]))
  }

  /** The articles of `s` published at `d`, in order. */
  function AtDate(s: seq<Article>, d: DateTime): seq<Article>
    decreases |s|
  {
    if s == [] then []
    else (if s[0].publishedAt == d then [s[0]] else []) + AtDate(s[1..], d)
  }

  /** Putting `a` in front of a sorted list whose head is later keeps it sorted. */
  lemma PrependSorted(a: Article, s: seq<Article>)
    requires SortedByDate(s) && (s == [] || Before(a.publishedAt, s[0].publishedAt))
    ensures SortedByDate([a] + s)
  {
    forall i, j | 0 <= i < j < |s| + 1 ensures NotAfter(([a] + s)[i].publishedAt, ([a] + s)[j].publishedAt) {
      if i == 0 {
        if Before(s[j - 1].publishedAt, a.publishedAt) {
          BeforeTransitive(s[j - 1].publishedAt, a.publishedAt, s[0].publishedAt);
        }
      }
    }
  }

  /** Putting `b` in front of a sorted list none of whose elements is earlier keeps it sorted. */
  lemma PrependLeast(b: Article, t: seq<Article>)
    requires SortedByDate(t) && forall k :: 0 <= k < |t| ==> NotAfter(b.publishedAt, t[k].publishedAt)
    ensures SortedByDate([b] + t)
  {
    forall i, j | 0 <= i < j < |t| + 1 ensures NotAfter(([b] + t)[i].publishedAt, ([b] + t)[j].publishedAt) {
      if i > 0 {
        assert ([b] + t)[i] == t[i - 1];
      }
    }
  }

  lemma {:induction false} InsertSorted(a: Article, s: seq<Article>)
    requires SortedByDate(s)
    ensures SortedByDate(Insert(a, s)) && multiset(Insert(a, s)) == multiset(s) + multiset{a}
    decreases |s|
  {
    if s == [] || Before(a.publishedAt, s[0].publishedAt) {
      PrependSorted(a, s);
    } else {
      var t := Insert(a, s[1..]);
      InsertSorted(a, s[1..]);
      assert s == [s[0]] + s[1..];
      forall k | 0 <= k < |t| ensures NotAfter(s[0].publishedAt, t[k].publishedAt) {
        assert t[k] in multiset(s[1..]) + multiset{a};
        if t[k] != a {
          var m :| 0 <= m < |s[1..]| && s[1..][m] == t[k];
          assert s[m + 1] == t[k];
        }
      }
      PrependLeast(s[0], t);
    }
  }

  /** The sort orders by date and keeps every article as often as it occurs. */
  lemma {:induction false} SortByDateSpec(s: seq<Article>)
    ensures SortedByDate(SortByDate(s)) && multiset(SortByDate(s)) == multiset(s)
    decreases |s|
  {
    if s != [] {
      var p := s[..|s| - 1];
      SortByDateSpec(p);
      InsertSorted(s[|s| - 1], SortByDate(p));
      assert s == p + [s[|s| - 1]];
    }
  }

  lemma {:induction false} AtDateInsert(a: Article, s: seq<Article>, d: DateTime)
    requires SortedByDate(s)
    ensures AtDate(Insert(a, s), d) == AtDate(s, d) + (if a.publishedAt == d then [a] else [])
    decreases |s|
  {
    if s == [] || Before(a.publishedAt, s[0].publishedAt) {
      if a.publishedAt == d {
        AtDateLater(s, d);
      }
      assert ([a] + s)[1..] == s;
    } else {
      AtDateInsert(a, s[1..], d);
      assert (([s[0]] + Insert(a, s[1..])))[1..] == Insert(a, s[1..]);
      assert AtDate(s, d) == (if s[0].publishedAt == d then [s[0]] else []) + AtDate(s[1..], d);
    }
  }

  /** In a sorted list whose head is later than `d`, nothing is published at `d`. */
  lemma {:induction false} AtDateLater(s: seq<Article>, d: DateTime)
    requires SortedByDate(s) && (s == [] || Before(d, s[0].publishedAt))
    ensures AtDate(s, d) == []
    decreases |s|
  {
    if s != [] {
      if |s| > 1 {
        assert NotAfter(s[0].publishedAt, s[1].publishedAt);
        if !Before(d, s[1].publishedAt) {
          BeforeTransitive(d, s[0].publishedAt, s[1].publishedAt);
        }
      }
      AtDateLater(s[1..], d);
    }
  }

  lemma {:induction false} AtDateSnoc(s: seq<Article>, a: Article, d: DateTime)
    ensures AtDate(s + [a], d) == AtDate(s, d) + (if a.publishedAt == d then [a] else [])
    decreases |s|
  {
    if s == [] {
      assert [a][1..] == [];
    } else {
      AtDateSnoc(s[1..], a, d);
      assert (s + [a])[1..] == s[1..] + [a];
    }
  }

  /** Stability: the articles of any one date keep their original order. */
  lemma {:induction false} SortByDateStable(s: seq<Article>, d: DateTime)
    ensures AtDate(SortByDate(s), d) == AtDate(s, d)
    decreases |s|
  {
    if s != [] {
      var p := s[..|s| - 1];
      SortByDateStable(p, d);
      SortByDateSpec(p);
      AtDateInsert(s[|s| - 1], SortByDate(p), d);
      assert s == p + [s[|s| - 1]];
      AtDateSnoc(p, s[|s| - 1], d);
    }
  }

  /** No two articles of `s` share a URL. */
  predicate DistinctUrls(s: seq<Article>) {
    forall i, j :: 0 <= i < j < |s| ==> s[i].url != s[j].url
  }

  lemma {:induction false} DistinctUrlsOnce(a: seq<Article>, x: Article)
    requires DistinctUrls(a)
    ensures multiset(a)[x] <= 1
    decreases |a|
  {
    if a != [] {
      assert a == [a[0]] + a[1..];
      DistinctUrlsOnce(a[1..], x);
      forall k | 0 <= k < |a[1..]| ensures a[1..][k] != a[0] {
        assert a[1..][k] == a[k + 1] && a[0].url != a[k + 1].url;
      }
      assert a[0] !in a[1..];
    }
  }

  lemma RepeatedTwice(b: seq<Article>, i: int, j: int)
    requires 0 <= i < j < |b|
    ensures multiset(b)[b[i]] >= 1 + (if b[i] == b[j] then 1 else 0)
  {
    assert b == b[..j] + b[j..];
    assert b[i] == b[..j][i];
    assert b[j] == b[j..][0];
  }

  /** A permutation of a list without shared URLs has none either. */
  lemma DistinctUrlsPermutation(a: seq<Article>, b: seq<Article>)
    requires DistinctUrls(a) && multiset(a) == multiset(b)
    ensures DistinctUrls(b)
  {
    forall i, j | 0 <= i < j < |b| ensures b[i].url != b[j].url {
      assert b[i] in multiset(a) && b[j] in multiset(a);
      var p :| 0 <= p < |a| && a[p] == b[i];
      var q :| 0 <= q < |a| && a[q] == b[j];
      RepeatedTwice(b, i, j);
      DistinctUrlsOnce(a, b[i]);
      assert p != q;
      if p < q {
        assert a[p].url != a[q].url;
      } else {
        assert a[q].url != a[p].url;
      }
    }
  }

  /** Every kept article lies in the month. */
  lemma {:induction false} AcceptedInMonth(pages: map<string, Page>, parse: DateParser, w: Window, es: seq<SitemapEntry>)
    ensures forall k :: 0 <= k < |Accepted(Taking(pages, parse, w), es)| ==>
              MonthMatches(Accepted(Taking(pages, parse, w), es)[k].publishedAt, w.start, w.end)
    decreases |es|
  {
    if es != [] {
      var take := Taking(pages, parse, w);
      var p, e := es[..|es| - 1], es[|es| - 1];
      AcceptedInMonth(pages, parse, w, p);
      var q := Accepted(take, p);
      var t: seq<Article> := if e.loc in LocsOf(p) then [] else take(e);
      var r := q + t;
      assert Accepted(take, es) == r;
      assert t != [] ==> t == Take(pages, parse, w, e);
      forall k | 0 <= k < |r| ensures MonthMatches(r[k].publishedAt, w.start, w.end) {
        if k < |q| {
          assert r[k] == q[k];
        } else {
          assert r[k] == t[0];
        }
      }
    }
  }

  /**
   * What `collect_articles` returns for entries `es`: ordered by date, each
   * article published in the month, no URL twice, and the articles are
   * exactly those of the entries met first for their location whose
   * prefilter passes and whose page gives an article of the month.
   */
  lemma ReportedArticles(pages: map<string, Page>, parse: DateParser, w: Window, es: seq<SitemapEntry>)
    ensures var r := SortByDate(Accepted(Taking(pages, parse, w), es));
            && SortedByDate(r)
            && DistinctUrls(r)
            && (forall k :: 0 <= k < |r| ==> MonthMatches(r[k].publishedAt, w.start, w.end))
            && (forall a :: a in r <==> exists i :: SelectedAs(Taking(pages, parse, w), es, i, a))
  {
    var take := Taking(pages, parse, w);
    var q := Accepted(take, es);
    var r := SortByDate(q);
    SortByDateSpec(q);
    TakingOnePerLoc(pages, parse, w);
    AcceptedDistinct(take, es);
    DistinctUrlsPermutation(q, r);
    ReportedMembers(take, es, r);
    AcceptedInMonth(pages, parse, w, es);
    ReportedInMonth(q, r, w);
  }

  lemma ReportedMembers(take: Taker, es: seq<SitemapEntry>, r: seq<Article>)
    requires multiset(r) == multiset(Accepted(take, es))
    ensures forall a :: a in r <==> exists i :: SelectedAs(take, es, i, a)
  {
    var q := Accepted(take, es);
    forall a ensures a in r <==> exists i :: SelectedAs(take, es, i, a) {
      AcceptedMembers(take, es, a);
      assert a in r <==> a in multiset(q);
    }
  }

  lemma ReportedInMonth(q: seq<Article>, r: seq<Article>, w: Window)
    requires multiset(r) == multiset(q)
    requires forall k :: 0 <= k < |q| ==> MonthMatches(q[k].publishedAt, w.start, w.end)
    ensures forall k :: 0 <= k < |r| ==> MonthMatches(r[k].publishedAt, w.start, w.end)
  {
    forall k | 0 <= k < |r| ensures MonthMatches(r[k].publishedAt, w.start, w.end) {
      assert r[k] in multiset(q);
      var i :| 0 <= i < |q| && q[i] == r[k];
    }
  }

  // ------------------------------------------------------------ fetches

  /**
   * The locations `extract_article_data` is called on for entries `es`, in
   * call order: an entry met first for its location whose pre-filter passes.
   */
  function Fetches(parse: DateParser, w: Window, es: seq<SitemapEntry>): seq<string>
    decreases |es|
  {
    if es == [] then []
    else
      var p := es[..|es| - 1];
      var e := es[|es| - 1];
      Fetches(parse, w, p) + (if e.loc !in LocsOf(p) && Prefilter(parse, w, e) then [e.loc] else [])
  }

  /** Entry `i` is the first with its location and passes the pre-filter. */
  predicate FetchedAt(parse: DateParser, w: Window, es: seq<SitemapEntry>, i: int) {
    0 <= i < |es| && es[i].loc !in LocsOf(es[..i]) && Prefilter(parse, w, es[i])
  }

  lemma FetchedAtPrefix(parse: DateParser, w: Window, es: seq<SitemapEntry>, n: int, i: int)
    requires 0 <= i < n <= |es|
    ensures FetchedAt(parse, w, es, i) <==> FetchedAt(parse, w, es[..n], i)
  {
    assert es[..n][..i] == es[..i] && es[..n][i] == es[i];
  }

  /** The locations of `es` are those of its entries. */
  lemma {:induction false} LocsOfMembers(es: seq<SitemapEntry>, x: string)
    ensures x in LocsOf(es) <==> exists i :: 0 <= i < |es| && es[i].loc == x
    decreases |es|
  {
    if es != [] {
      var p := es[..|es| - 1];
      LocsOfMembers(p, x);
      if x in LocsOf(p) {
        var i :| 0 <= i < |p| && p[i].loc == x;
        assert es[i] == p[i];
      } else if x != es[|es| - 1].loc {
        forall i | 0 <= i < |es| ensures es[i].loc != x {
          if i < |p| {
            assert es[i] == p[i];
          }
        }
      }
    }
  }

  /**
   * The extractor is called at most once per location, and exactly for the
   * locations of the entries met first for their location whose pre-filter
   * passes.
   */
  lemma {:induction false} FetchesOnce(parse: DateParser, w: Window, es: seq<SitemapEntry>)
    ensures Distinct(Fetches(parse, w, es))
    ensures forall x :: x in Fetches(parse, w, es) ==> x in LocsOf(es)
    decreases |es|
  {
    if es != [] {
      var p, e := es[..|es| - 1], es[|es| - 1];
      FetchesOnce(parse, w, p);
      var f := Fetches(parse, w, p);
      var t := if e.loc !in LocsOf(p) && Prefilter(parse, w, e) then [e.loc] else [];
      var r := f + t;
      assert Fetches(parse, w, es) == r;
      assert LocsOf(es) == LocsOf(p) + {e.loc};
      forall i, j | 0 <= i < j < |r| ensures r[i] != r[j] {
        assert r[i] == f[i];
        if j >= |f| {
          assert r[j] == e.loc && f[i] in f;
        } else {
          assert r[j] == f[j];
        }
      }
    }
  }

  /** A location is fetched exactly when some entry with it is fetched at. */
  lemma {:induction false} FetchesMembers(parse: DateParser, w: Window, es: seq<SitemapEntry>, x: string)
    ensures x in Fetches(parse, w, es) <==> exists i :: FetchedAt(parse, w, es, i) && es[i].loc == x
    decreases |es|
  {
    if es != [] {
      var n := |es| - 1;
      var p, e := es[..n], es[n];
      FetchesMembers(parse, w, p, x);
      var f := Fetches(parse, w, p);
      var t := if e.loc !in LocsOf(p) && Prefilter(parse, w, e) then [e.loc] else [];
      assert Fetches(parse, w, es) == f + t;
      if x in f {
        var i :| FetchedAt(parse, w, p, i) && p[i].loc == x;
        FetchedAtPrefix(parse, w, es, n, i);
      } else if x in t {
        assert FetchedAt(parse, w, es, n) && es[n].loc == x;
      } else {
        forall i | 0 <= i < |es| && es[i].loc == x ensures !FetchedAt(parse, w, es, i) {
          if i < n {
            FetchedAtPrefix(parse, w, es, n, i);
          }
        }
      }
    }
  }

  /** Two page maps that agree on `locs`. */
  ghost predicate AgreeOn(pages: map<string, Page>, pages': map<string, Page>, locs: seq<string>) {
    forall x :: x in locs ==> (x in pages <==> x in pages') && (x in pages ==> pages[x] == pages'[x])
  }

  /**
   * The pages are consulted only at the fetched locations: two page maps
   * that agree there give the same articles.
   */
  lemma {:induction false} AcceptedUsesFetched(pages: map<string, Page>, pages': map<string, Page>, parse: DateParser,
                                               w: Window, es: seq<SitemapEntry>)
    requires AgreeOn(pages, pages', Fetches(parse, w, es))
    ensures Accepted(Taking(pages, parse, w), es) == Accepted(Taking(pages', parse, w), es)
    decreases |es|
  {
    if es != [] {
      var p, e := es[..|es| - 1], es[|es| - 1];
      var f := Fetches(parse, w, p);
      assert Fetches(parse, w, es) == f + (if e.loc !in LocsOf(p) && Prefilter(parse, w, e) then [e.loc] else []);
      AcceptedUsesFetched(pages, pages', parse, w, p);
      if e.loc !in LocsOf(p) && Prefilter(parse, w, e) {
        assert e.loc in Fetches(parse, w, es);
        assert ExtractArticle(pages, parse, e.loc, e.url) == ExtractArticle(pages', parse, e.loc, e.url);
      }
    }
  }

  // --------------------------------------------------------- the method

  /** The entries of one traversal per sitemap URL, one after the other. */
  ghost function Gathered(web: Web, urls: seq<string>, prefix: string): seq<SitemapEntry>
    decreases |urls|
  {
    if urls == [] then []
    else Gathered(web, urls[..|urls| - 1], prefix) + Collected(web, urls[|urls| - 1], prefix)
  }

  /** The sitemap URLs looked up by one traversal per sitemap URL, one after the other. */
  ghost function Lookups(web: Web, urls: seq<string>): seq<string>
    decreases |urls|
  {
    if urls == [] then [] else Lookups(web, urls[..|urls| - 1]) + Visits(web, urls[|urls| - 1])
  }

  lemma LookupsSnoc(web: Web, urls: seq<string>, i: int)
    requires 0 <= i < |urls|
    ensures Lookups(web, urls[..i + 1]) == Lookups(web, urls[..i]) + Visits(web, urls[i])
  {
    assert urls[..i + 1][..i] == urls[..i];
  }

  lemma GatheredSnoc(web: Web, urls: seq<string>, i: int, prefix: string)
    requires 0 <= i < |urls|
    ensures Gathered(web, urls[..i + 1], prefix) == Gathered(web, urls[..i], prefix) + Collected(web, urls[i], prefix)
  {
    assert urls[..i + 1][..i] == urls[..i];
  }

  /** The sitemap URLs `discover_sitemaps` finds for the site, from the robots body `texts` holds. */
  function SiteSitemaps(texts: map<string, string>, site: Url): seq<string> {
    var (scheme, netloc) := Resplit(site);
    var robotsUrl := RobotsUrl(scheme, netloc);
    Discovered(if robotsUrl in texts then Some(texts[robotsUrl]) else None, scheme, netloc)
  }

  /** The entries `collect_articles` gathers for the site. */
  ghost function SiteEntries(texts: map<string, string>, web: Web, site: Url): seq<SitemapEntry> {
    Gathered(web, SiteSitemaps(texts, site), PathPrefix(site.path))
  }

  /**
   * `collect_articles`. The network is given by what it returns: `texts`
   * maps a URL to the body of its successful text fetch (robots.txt),
   * `web` a URL to its parsed sitemap document, `pages` a URL to its parsed
   * HTML page. `lookups` records the sitemap documents fetched, `fetched`
   * the locations the extractor is called on.
   */
  method CollectArticles(texts: map<string, string>, web: Web, pages: map<string, Page>, parse: DateParser,
                         site: Url, year: int, month: int)
    returns (articles: seq<Article>, ghost lookups: seq<string>, ghost fetched: seq<string>)
    requires MonthInRange(year, month)
    ensures lookups == Lookups(web, SiteSitemaps(texts, site))
    ensures articles == SortByDate(Accepted(Taking(pages, parse, MonthWindow(year, month)), SiteEntries(texts, web, site)))
    ensures fetched == Fetches(parse, MonthWindow(year, month), SiteEntries(texts, web, site))
  {
    var pathPrefix := PathPrefix(site.path);
    var w := MonthWindow(year, month);
    var (scheme, netloc) := Resplit(site);
    var robotsUrl := RobotsUrl(scheme, netloc);
    var robots := if robotsUrl in texts then Some(texts[robotsUrl]) else None;
    var sitemapUrls := DiscoverSitemaps(robots, scheme, netloc);
    var entries;
    entries, lookups := GatherEntries(web, sitemapUrls, pathPrefix);
    var accepted;
    accepted, fetched := SelectArticles(pages, parse, w, entries);
    articles := SortByDate(accepted);
  }

  /**
   * The loop `entries.extend(collect_sitemap_entries(...))` over the sitemap
   * URLs; `lookups` records the sitemap documents fetched, in order.
   */
  method GatherEntries(web: Web, sitemapUrls: seq<string>, pathPrefix: string)
    returns (entries: seq<SitemapEntry>, ghost lookups: seq<string>)
    ensures entries == Gathered(web, sitemapUrls, pathPrefix)
    ensures lookups == Lookups(web, sitemapUrls)
  {
    entries, lookups := [], [];
    for i := 0 to |sitemapUrls|
      invariant entries == Gathered(web, sitemapUrls[..i], pathPrefix)
      invariant lookups == Lookups(web, sitemapUrls[..i])
    {
      var found, visited := CollectSitemapEntries(web, sitemapUrls[i], pathPrefix);
      GatheredSnoc(web, sitemapUrls, i, pathPrefix);
      LookupsSnoc(web, sitemapUrls, i);
      entries, lookups := entries + found, lookups + visited;
    }
    assert sitemapUrls[..|sitemapUrls|] == sitemapUrls;
  }

  /**
   * The loop over the entries with `seen_urls`: the articles kept, in entry
   * order, and the locations fetched, in call order.
   */
  method SelectArticles(pages: map<string, Page>, parse: DateParser, w: Window, entries: seq<SitemapEntry>)
    returns (accepted: seq<Article>, ghost fetched: seq<string>)
    ensures accepted == Accepted(Taking(pages, parse, w), entries)
    ensures fetched == Fetches(parse, w, entries)
  {
    ghost var take := Taking(pages, parse, w);
    accepted, fetched := [], [];
    var seenUrls: set<string> := {};
    for i := 0 to |entries|
      invariant accepted == Accepted(take, entries[..i])
      invariant fetched == Fetches(parse, w, entries[..i])
      invariant seenUrls == LocsOf(entries[..i])
    {
      var entry := entries[i];
      SelectStep(take, entries, i);
      FetchesStep(parse, w, entries, i);
      if entry.loc in seenUrls {
        assert accepted + [] == accepted && fetched + [] == fetched;
        continue;
      }
      seenUrls := seenUrls + {entry.loc};
      var taken, called := Consider(pages, parse, w, entry);
      assert taken == take(entry);
      accepted, fetched := accepted + taken, fetched + called;
    }
    assert entries[..|entries|] == entries;
  }

  /** One iteration of the loop over the entries. */
  lemma SelectStep(take: Taker, es: seq<SitemapEntry>, i: int)
    requires 0 <= i < |es|
    ensures Accepted(take, es[..i + 1]) ==
              Accepted(take, es[..i]) + (if es[i].loc in LocsOf(es[..i]) then [] else take(es[i]))
    ensures LocsOf(es[..i + 1]) == LocsOf(es[..i]) + {es[i].loc}
  {
    assert es[..i + 1] == es[..i] + [es[i]];
    AcceptedSnoc(take, es[..i], es[i]);
    assert es[..i + 1][..i] == es[..i];
  }

  lemma FetchesStep(parse: DateParser, w: Window, es: seq<SitemapEntry>, i: int)
    requires 0 <= i < |es|
    ensures Fetches(parse, w, es[..i + 1]) ==
              Fetches(parse, w, es[..i]) + (if es[i].loc !in LocsOf(es[..i]) && Prefilter(parse, w, es[i]) then [es[i].loc] else [])
  {
    assert es[..i + 1][..i] == es[..i];
  }

  lemma AcceptedSnoc(take: Taker, es: seq<SitemapEntry>, e: SitemapEntry)
    ensures Accepted(take, es + [e]) == Accepted(take, es) + (if e.loc in LocsOf(es) then [] else take(e))
  {
    assert (es + [e])[..|es|] == es;
  }

  /**
   * The body of that loop for a location met for the first time. `fetched`
   * holds the location when the extractor is called on it.
   */
  method Consider(pages: map<string, Page>, parse: DateParser, w: Window, entry: SitemapEntry)
    returns (taken: seq<Article>, ghost fetched: seq<string>)
    ensures taken == Take(pages, parse, w, entry)
    ensures fetched == if Prefilter(parse, w, entry) then [entry.loc] else []
  {
    taken, fetched := [], [];
    var lastmodDate := ParseDateTime(parse, entry.lastmod);
    if lastmodDate.Some? && !MonthMatches(lastmodDate.value, w.start, w.end) {
      return;
    }
    if lastmodDate.None? && !IsCandidatePath(entry.url.path, w.tokens) {
      return;
    }
    fetched := [entry.loc];
    var article := ExtractArticle(pages, parse, entry.loc, entry.url);
    if article.None? {
      return;
    }
    if MonthMatches(article.value.publishedAt, w.start, w.end) {
      taken := [article.value];
    }
  }
}
