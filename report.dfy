/**
 * `render_markdown`: one section per site, in the order the sites were
 * collected. A section is a `## site` heading followed either by a notice
 * that the month has no articles or by a five-column table with one row
 * per article; every section ends with an empty line, and the lines are
 * joined with newlines. Pipes in titles and descriptions are escaped so
 * that they do not open new columns.
 */
module Report {
  import opened Text
  import opened Dates
  import opened Extraction

  const Header: string := "| Сайт | Название статьи | Дата публикации | Ссылка | Описание |"
  const Separator: string := "| --- | --- | --- | --- | --- |"

  /** `s.replace("|", "\\|")`. */
  function Escape(s: string): string {
    Replace(s, "|", "\\|")
  }

  /** A table line: the cells between `|` borders, each padded by one space. */
  function TableRow(cells: seq<string>): string {
    "| " + Join(" | ", cells) + " |"
  }

  /** The five cells of an article's row; title and description are escaped. */
  function Cells(a: Article): seq<string> {
    [a.site, Escape(a.title), FormatDate(a.publishedAt), a.url, Escape(a.description)]
  }

  /** The table row of one article. */
  function Row(a: Article): string {
    TableRow(Cells(a))
  }

  /** The notice of a site without articles in the month. */
  function NoArticles(month: string): string {
    "Нет статей за " + month + "."
  }

  /** `[render(x) for x in xs]`. */
  function Render(render: Article -> string, xs: seq<Article>): (lines: seq<string>)
    ensures |lines| == |xs|
    decreases |xs|
  {
    if xs == [] then [] else Render(render, xs[..|xs| - 1]) + [render(xs[|xs| - 1])]
  }

  /** The table rows of a site's articles. */
  function Rows(articles: seq<Article>): seq<string> {
    Render(Row, articles)
  }

  /** The lines of one site's section. */
  function SiteLines(site: string, articles: seq<Article>, month: string): seq<string> {
    ["## " + site]
      + if articles == [] then [NoArticles(month), ""]
        else [Header, Separator] + Rows(articles) + [""]
  }

  /** A site with its articles: one item of `articles_by_site`. */
  type Site = (string, seq<Article>)

  /** The lines of `section(x)` for each `x` of `sites`, one after the other. */
  function Sections(section: Site -> seq<string>, sites: seq<Site>): seq<string>
    decreases |sites|
  {
    if sites == [] then [] else Sections(section, sites[..|sites| - 1]) + section(sites[|sites| - 1])
  }

  function SiteSection(month: string): Site -> seq<string> {
    (x: Site) => SiteLines(x.0, x.1, month)
  }

  /** The lines of the whole report, section after section. */
  function ReportLines(sites: seq<Site>, month: string): seq<string> {
    Sections(SiteSection(month), sites)
  }

  /** `render_markdown`: the sections of `sites`, in order, joined with newlines. */
  method RenderMarkdown(sites: seq<Site>, month: string) returns (out: string)
    ensures out == Join("\n", ReportLines(sites, month))
  {
    var lines: seq<string> := [];
    for i := 0 to |sites|
      invariant lines == ReportLines(sites[..i], month)
    {
      var (site, articles) := sites[i];
      SectionsSnoc(SiteSection(month), sites, i);
      lines := AppendSection(lines, site, articles, month);
    }
    assert sites[..|sites|] == sites;
    out := Join("\n", lines);
  }

  /** One iteration of the loop over the sites: the section of `site` is appended. */
  method AppendSection(lines: seq<string>, site: string, articles: seq<Article>, month: string)
    returns (lines': seq<string>)
    ensures lines' == lines + SiteLines(site, articles, month)
  {
    lines' := lines + ["## " + site];
    if articles == [] {
      lines' := lines' + [NoArticles(month), ""];
      return;
    }
    lines' := lines' + [Header, Separator];
    ghost var table := lines';
    for j := 0 to |articles|
      invariant lines' == table + Rows(articles[..j])
    {
      RenderSnoc(Row, articles, j);
      lines' := lines' + [Row(articles[j])];
    }
    assert articles[..|articles|] == articles;
    lines' := lines' + [""];
    SectionAssoc(lines, "## " + site, [Header, Separator], Rows(articles), [""]);
  }

  lemma SectionAssoc(lines: seq<string>, h: string, t: seq<string>, r: seq<string>, e: seq<string>)
    ensures (((lines + [h]) + t) + r) + e == lines + ([h] + ((t + r) + e))
  {
  }

  // ------------------------------------------------------------ lemmas

  /**
   * A section is its heading, then the notice and a blank line for no
   * articles, or the table and a blank line.
   */
  lemma SiteLinesShape(site: string, articles: seq<Article>, month: string)
    ensures var ls := SiteLines(site, articles, month);
            && |ls| == (if articles == [] then 3 else |articles| + 4)
            && ls[0] == "## " + site && ls[|ls| - 1] == ""
            && (articles == [] ==> ls[1] == NoArticles(month))
            && (articles != [] ==>
                  && ls[1] == Header && ls[2] == Separator
                  && forall k :: 0 <= k < |articles| ==> ls[k + 3] == Row(articles[k]))
  {
    if articles != [] {
      RenderAt(Row, articles);
      TableShape("## " + site, Header, Separator, Rows(articles));
    }
  }

  lemma TableShape(h: string, x: string, y: string, rows: seq<string>)
    ensures var ls := [h] + (([x, y] + rows) + [""]);
            && |ls| == |rows| + 4 && ls[0] == h && ls[1] == x && ls[2] == y && ls[|ls| - 1] == ""
            && forall k :: 0 <= k < |rows| ==> ls[k + 3] == rows[k]
  {
  }

  lemma RenderSnoc(render: Article -> string, xs: seq<Article>, j: int)
    requires 0 <= j < |xs|
    ensures Render(render, xs[..j + 1]) == Render(render, xs[..j]) + [render(xs[j])]
  {
    assert xs[..j + 1][..j] == xs[..j];
  }

  lemma {:induction false} RenderAt(render: Article -> string, xs: seq<Article>)
    ensures forall k :: 0 <= k < |xs| ==> Render(render, xs)[k] == render(xs[k])
    decreases |xs|
  {
    if xs != [] {
      var p := xs[..|xs| - 1];
      RenderAt(render, p);
      forall k | 0 <= k < |xs| ensures Render(render, xs)[k] == render(xs[k]) {
        if k < |p| {
          assert xs[k] == p[k];
        }
      }
    }
  }

  /** The lines of the first `i` items start the lines of all. */
  lemma {:induction false} SectionsPrefix(section: Site -> seq<string>, sites: seq<Site>, i: int)
    requires 0 <= i <= |sites|
    ensures |Sections(section, sites[..i])| <= |Sections(section, sites)|
    ensures Sections(section, sites)[..|Sections(section, sites[..i])|] == Sections(section, sites[..i])
    decreases |sites| - i
  {
    if i == |sites| {
      assert sites[..i] == sites;
    } else {
      var p := sites[..|sites| - 1];
      assert p[..i] == sites[..i];
      SectionsPrefix(section, p, i);
    }
  }

  lemma SectionsSnoc(section: Site -> seq<string>, sites: seq<Site>, i: int)
    requires 0 <= i < |sites|
    ensures Sections(section, sites[..i + 1]) == Sections(section, sites[..i]) + section(sites[i])
  {
    assert sites[..i + 1][..i] == sites[..i];
  }

  /** The lines of item `i` follow those of the items before it. */
  lemma SectionsAt(section: Site -> seq<string>, sites: seq<Site>, i: int)
    requires 0 <= i < |sites|
    ensures |Sections(section, sites[..i])| + |section(sites[i])| <= |Sections(section, sites)|
    ensures Sections(section, sites)[|Sections(section, sites[..i])|..|Sections(section, sites[..i])| + |section(sites[i])|]
            == section(sites[i])
  {
    SectionsSnoc(section, sites, i);
    SectionsPrefix(section, sites, i + 1);
    SliceOfPrefix(Sections(section, sites), Sections(section, sites[..i]), section(sites[i]));
  }

  /** The report holds the sections of the sites one after the other. */
  lemma ReportLinesSections(sites: seq<Site>, month: string, i: int)
    requires 0 <= i < |sites|
    ensures |ReportLines(sites[..i], month)| + |SiteLines(sites[i].0, sites[i].1, month)| <= |ReportLines(sites, month)|
    ensures ReportLines(sites, month)[|ReportLines(sites[..i], month)|
                                      ..|ReportLines(sites[..i], month)| + |SiteLines(sites[i].0, sites[i].1, month)|]
            == SiteLines(sites[i].0, sites[i].1, month)
  {
    SectionsAt(SiteSection(month), sites, i);
    assert SiteSection(month)(sites[i]) == SiteLines(sites[i].0, sites[i].1, month);
  }

  lemma SliceOfPrefix(all: seq<string>, before: seq<string>, section: seq<string>)
    requires |before + section| <= |all| && all[..|before + section|] == before + section
    ensures |before| + |section| <= |all| && all[|before|..|before| + |section|] == section
  {
    assert all[|before|..|before| + |section|] == (before + section)[|before|..];
  }

  // ------------------------------------------------------------- pipes

  /** A `|` that is not preceded by a backslash: one that opens a new column. */
  function BarePipes(s: string): nat
    decreases |s|
  {
    if s == [] then 0
    else
      var n := |s|;
      BarePipes(s[..n - 1]) + (if s[n - 1] == '|' && (n == 1 || s[n - 2] != '\\') then 1 else 0)
  }

  /** Gluing on a piece that does not start with `|` adds its bare pipes. */
  lemma {:induction false} BarePipesConcat(a: string, b: string)
    requires b == [] || b[0] != '|'
    ensures BarePipes(a + b) == BarePipes(a) + BarePipes(b)
    decreases |b|
  {
    if b == [] {
      assert a + b == a;
    } else {
      var b' := b[..|b| - 1];
      assert (a + b)[..|a + b| - 1] == a + b';
      BarePipesConcat(a, b');
      if |b| >= 2 {
        assert (a + b)[|a + b| - 2] == b[|b| - 2];
      }
    }
  }

  /** Escaping leaves no bare pipe, does not start with one, and keeps every pipe of the text. */
  lemma {:induction false} EscapeShape(s: string)
    ensures BarePipes(Escape(s)) == 0
    ensures Escape(s) == [] || Escape(s)[0] != '|'
    ensures CountIn(Escape(s), {'|'}) == CountIn(s, {'|'})
    decreases |s|
  {
    if s != [] {
      EscapeShape(s[1..]);
      var rest := Escape(s[1..]);
      if s[0] == '|' {
        assert StartsWith(s, "|");
        assert Escape(s) == "\\|" + rest;
        assert BarePipes("\\|") == 0 by {
          assert "\\|"[..1] == "\\";
        }
        BarePipesConcat("\\|", rest);
        CountInConcat("\\|", rest, {'|'});
      } else {
        assert !StartsWith(s, "|");
        assert Escape(s) == [s[0]] + rest;
        assert BarePipes([s[0]]) == 0;
        BarePipesConcat([s[0]], rest);
        CountInConcat([s[0]], rest, {'|'});
      }
    }
  }

  lemma {:induction false} DigitsHaveNoPipe(n: nat)
    ensures '|' !in NatToString(n)
    decreases n
  {
    if n >= 10 {
      DigitsHaveNoPipe(n / 10);
    }
  }

  lemma FormatDateNoPipe(d: Instant)
    ensures '|' !in FormatDate(d) && FormatDate(d)[0] != '|'
  {
    DigitsHaveNoPipe(d.day);
    DigitsHaveNoPipe(d.month);
    DigitsHaveNoPipe(d.year);
  }

  /** A cell that cannot open a column: no bare pipe, and no `|` at its start. */
  predicate QuietCell(c: string) {
    BarePipes(c) == 0 && (c == [] || c[0] != '|')
  }

  /** Joining quiet cells with `" | "` opens one column border per separator. */
  lemma {:induction false} JoinColumns(cells: seq<string>)
    requires forall k :: 0 <= k < |cells| ==> QuietCell(cells[k])
    ensures BarePipes(Join(" | ", cells)) == if cells == [] then 0 else |cells| - 1
    ensures Join(" | ", cells) == [] || Join(" | ", cells)[0] != '|'
    decreases |cells|
  {
    if |cells| >= 2 {
      var j := Join(" | ", cells[1..]);
      JoinColumns(cells[1..]);
      assert cells[1..][0] == cells[1];
      assert QuietCell(cells[0]);
      assert BarePipes(" | ") == 1 by { assert " | "[..2] == " |"; assert " |"[..1] == " "; }
      BarePipesConcat(cells[0], " | ");
      BarePipesConcat(cells[0] + " | ", j);
      assert Join(" | ", cells) == (cells[0] + " | ") + j;
      assert (cells[0] + " | ")[0] != '|';
    } else if |cells| == 1 {
      assert QuietCell(cells[0]);
    }
  }

  /** A table line of `n` quiet cells opens exactly `n + 1` column borders. */
  lemma TableRowColumns(cells: seq<string>)
    requires cells != [] && forall k :: 0 <= k < |cells| ==> QuietCell(cells[k])
    ensures BarePipes(TableRow(cells)) == |cells| + 1
  {
    var j := Join(" | ", cells);
    JoinColumns(cells);
    assert BarePipes("| ") == 1 by { assert "| "[..1] == "|"; }
    assert BarePipes(" |") == 1 by { assert " |"[..1] == " "; }
    BarePipesConcat("| ", j);
    BarePipesConcat("| " + j, " |");
  }

  lemma {:induction false} NoPipeQuiet(s: string)
    requires '|' !in s
    ensures QuietCell(s)
    decreases |s|
  {
    if s != [] {
      NoPipeQuiet(s[..|s| - 1]);
    }
  }

  /**
   * A row opens exactly the six column borders of the five-column table
   * whenever the site and the URL carry no `|` (those two are not escaped).
   */
  lemma RowColumns(a: Article)
    requires '|' !in a.site && '|' !in a.url
    ensures BarePipes(Row(a)) == 6
  {
    var cells := Cells(a);
    EscapeShape(a.title);
    EscapeShape(a.description);
    FormatDateNoPipe(a.publishedAt);
    NoPipeQuiet(a.site);
    NoPipeQuiet(a.url);
    NoPipeQuiet(cells[2]);
    TableRowColumns(cells);
  }
}
