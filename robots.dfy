/**
 * Sitemap discovery (`discover_sitemaps`): the `Sitemap:` records of a
 * site's robots.txt (the extension record of section 2.2.4 of RFC 9309),
 * in file order, or the conventional `/sitemap.xml` when there are none.
 */
module Robots {
  import opened Wrappers
  import opened Text

  /** `line.lower().startswith("sitemap:")`. */
  predicate IsSitemapLine(line: string) {
    StartsWith(Lower(line), "sitemap:")
  }

  /** On a sitemap line the first colon is the one of the `sitemap:` prefix. */
  lemma SitemapLineColon(line: string)
    requires IsSitemapLine(line)
    ensures ':' in line && IndexOf(line, ':') == 7
  {
    assert Lower(line)[..8] == "sitemap:";
    forall k | 0 <= k < 7 ensures line[k] != ':' {
      assert Lower(line)[k] == "sitemap:"[k];
    }
    assert Lower(line)[7] == ':';
    assert line[7] == ':';
  }

  /** `line.split(":", 1)[1].strip()`. */
  function SitemapValue(line: string): (v: string)
    requires IsSitemapLine(line)
    ensures Trimmed(v)
  {
    SitemapLineColon(line);
    Strip(AfterFirst(line, ':'))
  }

  /** The value of a sitemap line is what follows its `sitemap:` prefix, stripped. */
  lemma SitemapValueAfterPrefix(line: string)
    requires IsSitemapLine(line)
    ensures SitemapValue(line) == Strip(line[8..])
  {
    SitemapLineColon(line);
  }

  /** What a sitemap record must carry to be kept: a non-empty stripped URL. */
  predicate Usable(url: string) {
    url != [] && Trimmed(url)
  }

  /** What one line contributes: its value when it is a sitemap line with a non-empty value. */
  function Kept(line: string): (urls: seq<string>)
    ensures |urls| <= 1 && forall i :: 0 <= i < |urls| ==> Usable(urls[i])
  {
    if IsSitemapLine(line) && SitemapValue(line) != "" then [SitemapValue(line)] else []
  }

  /** The non-empty sitemap values of `lines`, in order. */
  function Declared(lines: seq<string>): (urls: seq<string>)
    ensures forall i :: 0 <= i < |urls| ==> Usable(urls[i])
    decreases |lines|
  {
    if lines == [] then [] else Declared(lines[..|lines| - 1]) + Kept(lines[|lines| - 1])
  }

  /** `line` is a sitemap line whose value is `url`. */
  predicate Carries(line: string, url: string) {
    IsSitemapLine(line) && SitemapValue(line) == url
  }

  lemma KeptMembers(line: string, url: string)
    ensures url in Kept(line) <==> url != "" && Carries(line, url)
  {
  }

  /** Some line of `lines` carries `url`. */
  predicate CarriedBy(lines: seq<string>, url: string) {
    exists i :: 0 <= i < |lines| && Carries(lines[i], url)
  }

  predicate SomeLine(lines: seq<string>, p: string -> bool) {
    exists i :: 0 <= i < |lines| && p(lines[i])
  }

  lemma SomeLineSnoc(lines: seq<string>, p: string -> bool)
    requires lines != []
    ensures SomeLine(lines, p) <==> SomeLine(lines[..|lines| - 1], p) || p(lines[|lines| - 1])
  {
    var init := lines[..|lines| - 1];
    if SomeLine(lines, p) {
      var i :| 0 <= i < |lines| && p(lines[i]);
      if i < |init| {
        assert init[i] == lines[i];
      }
    }
    if SomeLine(init, p) {
      var i :| 0 <= i < |init| && p(init[i]);
      assert lines[i] == init[i];
    }
  }

  lemma CarriedBySnoc(lines: seq<string>, url: string)
    requires lines != []
    ensures CarriedBy(lines, url) <==> CarriedBy(lines[..|lines| - 1], url) || Carries(lines[|lines| - 1], url)
  {
    var carries := line => Carries(line, url);
    var init := lines[..|lines| - 1];
    SomeLineSnoc(lines, carries);
    assert CarriedBy(lines, url) == SomeLine(lines, carries);
    assert CarriedBy(init, url) == SomeLine(init, carries);
  }

  /** A URL is declared exactly when some sitemap line carries it as its non-empty value. */
  lemma {:induction false} DeclaredMembers(lines: seq<string>, url: string)
    ensures url in Declared(lines) <==> url != "" && CarriedBy(lines, url)
    decreases |lines|
  {
    if lines != [] {
      var init, last := lines[..|lines| - 1], lines[|lines| - 1];
      DeclaredMembers(init, url);
      KeptMembers(last, url);
      CarriedBySnoc(lines, url);
      assert Declared(lines) == Declared(init) + Kept(last);
      assert url in Declared(lines) <==> url in Declared(init) || url in Kept(last);
    }
  }

  lemma DeclaredSnoc(lines: seq<string>, i: int)
    requires 0 <= i < |lines|
    ensures Declared(lines[..i + 1]) == Declared(lines[..i]) + Kept(lines[i])
  {
    assert lines[..i + 1][..i] == lines[..i];
  }

  /** `f"{scheme}://{netloc}/robots.txt"`, the URL whose body is read. */
  function RobotsUrl(scheme: string, netloc: string): string {
    scheme + "://" + netloc + "/robots.txt"
  }

  /** `f"{scheme}://{netloc}/sitemap.xml"`. */
  function DefaultSitemap(scheme: string, netloc: string): string {
    scheme + "://" + netloc + "/sitemap.xml"
  }

  /** What `discover_sitemaps` returns for the robots body it fetched (`None`: fetch failed). */
  function Discovered(robots: Option<string>, scheme: string, netloc: string): (urls: seq<string>)
    ensures urls != []
    ensures urls == [DefaultSitemap(scheme, netloc)] ||
            forall i :: 0 <= i < |urls| ==> Usable(urls[i])
    ensures robots == None || robots == Some("") ==> urls == [DefaultSitemap(scheme, netloc)]
  {
    var found := if robots.Some? && robots.value != "" then Declared(SplitLines(robots.value)) else [];
    if found == [] then [DefaultSitemap(scheme, netloc)] else found
  }

  /** A body without any usable sitemap line gives the default. */
  lemma DiscoveredDefault(robots: string, scheme: string, netloc: string)
    requires forall i :: 0 <= i < |SplitLines(robots)| ==>
               !IsSitemapLine(SplitLines(robots)[i]) || SitemapValue(SplitLines(robots)[i]) == ""
    ensures Discovered(Some(robots), scheme, netloc) == [DefaultSitemap(scheme, netloc)]
  {
    var lines := SplitLines(robots);
    var found := Declared(lines);
    if found != [] {
      DeclaredMembers(lines, found[0]);
    }
  }

  /** `discover_sitemaps`, given the robots.txt body the fetch produced. */
  method DiscoverSitemaps(robots: Option<string>, scheme: string, netloc: string)
    returns (sitemaps: seq<string>)
    ensures sitemaps == Discovered(robots, scheme, netloc)
  {
    sitemaps := [];
    if robots.Some? && robots.value != "" {
      var lines := SplitLines(robots.value);
      for i := 0 to |lines|
        invariant sitemaps == Declared(lines[..i])
      {
        var line := lines[i];
        DeclaredSnoc(lines, i);
        if IsSitemapLine(line) {
          var url := SitemapValue(line);
          if url != "" {
            sitemaps := sitemaps + [url];
          }
        }
        assert sitemaps == Declared(lines[..i]) + Kept(line);
      }
      assert lines[..|lines|] == lines;
    }
    if sitemaps == [] {
      sitemaps := sitemaps + [DefaultSitemap(scheme, netloc)];
    }
  }
}
