/**
 * The sitemap collector (`collect_sitemap_entries`): a first-in first-out
 * work-list traversal of Sitemap protocol 0.9 documents. A `sitemapindex`
 * root enqueues the `loc` of each `sitemap` child; a `urlset` root emits the
 * `loc` and `lastmod` of each `url` child; any other root is ignored. A set
 * of URLs already taken from the queue keeps every URL from being fetched
 * twice, so cyclic indexes terminate.
 *
 * The web is a finite map from URL to parsed document; a URL missing from
 * it is one whose fetch failed, whose body was empty or did not parse.
 */
module Sitemaps {
  import opened Wrappers
  import opened Text
  import opened Urls

  /**
   * A child element of a document root: its tag, the text found by
   * `findtext(".//{*}loc")` and `findtext(".//{*}lastmod")` (`None` when
   * there is no such element), and the split form of the stripped `loc`.
   */
  datatype XmlChild = XmlChild(tag: string, loc: Option<string>, locUrl: Url, lastmod: Option<string>)

  datatype XmlDoc = XmlDoc(rootTag: string, children: seq<XmlChild>)

  /** One `(loc, lastmod)` pair the collector returns, with `loc` already split. */
  datatype SitemapEntry = SitemapEntry(loc: string, url: Url, lastmod: Option<string>)

  type Web = map<string, XmlDoc>

  /** `strip_namespace`: the part of a tag after its first `}`, if it has one. */
  function StripNamespace(tag: string): (r: string)
    ensures |r| <= |tag| && r == tag[|tag| - |r|..]
    ensures '}' !in tag ==> r == tag
    ensures '}' in tag ==> |r| < |tag| && tag[|tag| - |r| - 1] == '}' && '}' !in tag[..|tag| - |r| - 1]
  {
    if '}' in tag then AfterFirst(tag, '}') else tag
  }

  /** Python truthiness of a `findtext` result: present and non-empty. */
  predicate Truthy(text: Option<string>) {
    text.Some? && text.value != ""
  }

  /** What one child of a `sitemapindex` adds to the queue. */
  function IndexStep(c: XmlChild): seq<string> {
    if StripNamespace(c.tag) == "sitemap" && Truthy(c.loc) then [Strip(c.loc.value)] else []
  }

  /** Every entry the collector emits: path under the prefix, `loc` and `lastmod` stripped. */
  predicate WellFormedEntry(e: SitemapEntry, prefix: string) {
    && (prefix != "" ==> StartsWith(e.url.path, prefix))
    && Trimmed(e.loc)
    && (e.lastmod.Some? ==> Trimmed(e.lastmod.value))
  }

  /** What one child of a `urlset` emits. */
  function UrlStep(c: XmlChild, prefix: string): (r: seq<SitemapEntry>)
    ensures |r| <= 1
    ensures forall i :: 0 <= i < |r| ==> WellFormedEntry(r[i], prefix)

  {
    if StripNamespace(c.tag) == "url" && Truthy(c.loc) && (prefix == "" || StartsWith(c.locUrl.path, prefix)) then
      [SitemapEntry(Strip(c.loc.value), c.locUrl, if Truthy(c.lastmod) then Some(Strip(c.lastmod.value)) else None)]
    else []
  }

  /** The locations a `sitemapindex` with these children enqueues, in document order. */
  function IndexLocs(cs: seq<XmlChild>): seq<string>
    decreases |cs|
  {
    if cs == [] then [] else IndexLocs(cs[..|cs| - 1]) + IndexStep(cs[|cs| - 1])
  }

  /** The entries a `urlset` with these children emits, in document order. */
  function UrlEntries(cs: seq<XmlChild>, prefix: string): (r: seq<SitemapEntry>)
    ensures forall i :: 0 <= i < |r| ==> WellFormedEntry(r[i], prefix)
    decreases |cs|
  {
    if cs == [] then [] else UrlEntries(cs[..|cs| - 1], prefix) + UrlStep(cs[|cs| - 1], prefix)
  }

  /** What visiting URL `u` adds to the queue: only a `sitemapindex` adds anything. */
  function Enqueued(web: Web, u: string): (r: seq<string>)
    ensures r != [] ==> u in web && StripNamespace(web[u].rootTag) == "sitemapindex"
  {
    if u in web && StripNamespace(web[u].rootTag) == "sitemapindex" then IndexLocs(web[u].children) else []
  }

  /** What visiting URL `u` emits: only a `urlset` emits anything. */
  function Emitted(web: Web, u: string, prefix: string): (r: seq<SitemapEntry>)
    ensures r != [] ==> u in web && StripNamespace(web[u].rootTag) == "urlset"
    ensures forall i :: 0 <= i < |r| ==> WellFormedEntry(r[i], prefix)
  {
    if u in web && StripNamespace(web[u].rootTag) == "urlset" then UrlEntries(web[u].children, prefix) else []
  }

  /** Everything visiting `us` in order enqueues. */
  function EnqueuedFrom(web: Web, us: seq<string>): seq<string>
    decreases |us|
  {
    if us == [] then [] else EnqueuedFrom(web, us[..|us| - 1]) + Enqueued(web, us[|us| - 1])
  }

  /** Everything visiting `us` in order emits. */
  function EmittedFrom(web: Web, us: seq<string>, prefix: string): (r: seq<SitemapEntry>)
    ensures forall i :: 0 <= i < |r| ==> WellFormedEntry(r[i], prefix)
    decreases |us|
  {
    if us == [] then [] else EmittedFrom(web, us[..|us| - 1], prefix) + Emitted(web, us[|us| - 1], prefix)
  }

  /** The first occurrence of each element of `s`, in order. */
  function FirstOccurrences(s: seq<string>): (r: seq<string>)
    ensures forall x :: x in r <==> x in s
    ensures forall i, j :: 0 <= i < j < |r| ==> r[i] != r[j]
    decreases |s|
  {
    if s == [] then []
    else
      var p := FirstOccurrences(s[..|s| - 1]);
      if s[|s| - 1] in p then p else p + [s[|s| - 1]]
  }

  /** Every location any `sitemapindex` of the web can enqueue. */
  ghost function IndexedUrls(web: Web): set<string> {
    set u, i | u in web && 0 <= i < |IndexLocs(web[u].children)| :: IndexLocs(web[u].children)[i]
  }

  lemma EnqueuedIndexed(web: Web, u: string)
    ensures forall x :: x in Enqueued(web, u) ==> x in IndexedUrls(web)
  {
    forall x | x in Enqueued(web, u) ensures x in IndexedUrls(web) {
      var i :| 0 <= i < |Enqueued(web, u)| && Enqueued(web, u)[i] == x;
    }
  }

  lemma IndexLocsSnoc(cs: seq<XmlChild>, j: int)
    requires 0 <= j < |cs|
    ensures IndexLocs(cs[..j + 1]) == IndexLocs(cs[..j]) + IndexStep(cs[j])
  {
    assert cs[..j + 1][..j] == cs[..j];
  }

  lemma UrlEntriesSnoc(cs: seq<XmlChild>, prefix: string, j: int)
    requires 0 <= j < |cs|
    ensures UrlEntries(cs[..j + 1], prefix) == UrlEntries(cs[..j], prefix) + UrlStep(cs[j], prefix)
  {
    assert cs[..j + 1][..j] == cs[..j];
  }

  /** The `for child in root` loop of a `sitemapindex`: append each `sitemap` child's `loc`. */
  method EnqueueIndex(children: seq<XmlChild>, queue: seq<string>) returns (queue': seq<string>)
    ensures queue' == queue + IndexLocs(children)
  {
    queue' := queue;
    for j := 0 to |children|
      invariant queue' == queue + IndexLocs(children[..j])
    {
      var child := children[j];
      IndexLocsSnoc(children, j);
      AppendAssoc(queue, IndexLocs(children[..j]), IndexStep(child));
      if StripNamespace(child.tag) != "sitemap" {
        assert queue' + IndexStep(child) == queue';
        continue;
      }
      if child.loc.Some? && child.loc.value != "" {
        queue' := queue' + [Strip(child.loc.value)];
      } else {
        assert queue' + IndexStep(child) == queue';
      }
    }
    assert children[..|children|] == children;
  }

  /** The `for child in root` loop of a `urlset`: append an entry per kept `url` child. */
  method ReadUrlSet(children: seq<XmlChild>, pathPrefix: string, entries: seq<SitemapEntry>)
    returns (entries': seq<SitemapEntry>)
    ensures entries' == entries + UrlEntries(children, pathPrefix)
  {
    entries' := entries;
    for j := 0 to |children|
      invariant entries' == entries + UrlEntries(children[..j], pathPrefix)
    {
      var child := children[j];
      UrlEntriesSnoc(children, pathPrefix, j);
      AppendAssoc(entries, UrlEntries(children[..j], pathPrefix), UrlStep(child, pathPrefix));
      var step := UrlStep(child, pathPrefix);
      if StripNamespace(child.tag) == "url" && child.loc.Some? && child.loc.value != "" {
        var loc := Strip(child.loc.value);
        if pathPrefix == "" || StartsWith(child.locUrl.path, pathPrefix) {
          var lastmod := if child.lastmod.Some? && child.lastmod.value != "" then Some(Strip(child.lastmod.value)) else None;
          entries' := entries' + [SitemapEntry(loc, child.locUrl, lastmod)];
        } else {
          assert entries' + step == entries';
        }
      } else {
        assert entries' + step == entries';
      }
    }
    assert children[..|children|] == children;
  }

  // ------------------------------------------------ the reference traversal

  /** The URLs a traversal from `start` can ever meet: the start URL and every URL an index lists. */
  ghost function Universe(web: Web, start: string): set<string> {
    {start} + IndexedUrls(web)
  }

  /** Everything seen or queued lies in `universe`, which holds every URL an index lists. */
  ghost predicate Bounded(web: Web, universe: set<string>, queue: seq<string>, seen: set<string>) {
    IndexedUrls(web) <= universe && seen <= universe && forall x :: x in queue ==> x in universe
  }

  lemma BoundedSkip(web: Web, universe: set<string>, queue: seq<string>, seen: set<string>)
    requires Bounded(web, universe, queue, seen) && queue != []
    ensures Bounded(web, universe, queue[1..], seen)
  {
    forall x | x in queue[1..] ensures x in universe {
      var k :| 0 <= k < |queue[1..]| && queue[1..][k] == x;
      assert queue[k + 1] == x;
    }
  }

  lemma BoundedVisit(web: Web, universe: set<string>, queue: seq<string>, seen: set<string>)
    requires Bounded(web, universe, queue, seen) && queue != [] && queue[0] !in seen
    ensures Bounded(web, universe, queue[1..] + Enqueued(web, queue[0]), seen + {queue[0]})
    ensures |universe - (seen + {queue[0]})| < |universe - seen|
  {
    BoundedSkip(web, universe, queue, seen);
    EnqueuedIndexed(web, queue[0]);
    FewerUnseen(universe, seen, queue[0]);
  }

  /** Seeing a new URL of the universe leaves fewer of it unseen. */
  lemma FewerUnseen(universe: set<string>, seen: set<string>, u: string)
    requires u in universe && u !in seen
    ensures |universe - (seen + {u})| < |universe - seen|
  {
    assert universe - seen == (universe - (seen + {u})) + {u};
  }

  /**
   * The URLs the work-list loop looks up when it starts from `queue` and
   * `seen`, in order: the head of the queue is dropped when it was seen,
   * and otherwise looked up, with what its document enqueues joining the
   * back of the queue. It terminates because every step either sees a new
   * URL of the finite universe or shortens the queue.
   */
  ghost function Walk(web: Web, universe: set<string>, queue: seq<string>, seen: set<string>): seq<string>
    requires Bounded(web, universe, queue, seen)
    decreases |universe - seen|, |queue|
  {
    if queue == [] then []
    else if queue[0] in seen then
      BoundedSkip(web, universe, queue, seen);
      Walk(web, universe, queue[1..], seen)
    else
      BoundedVisit(web, universe, queue, seen);
      [queue[0]] + Walk(web, universe, queue[1..] + Enqueued(web, queue[0]), seen + {queue[0]})
  }

  /** The URLs `collect_sitemap_entries` looks up, in order, starting from `start`. */
  ghost function Visits(web: Web, start: string): seq<string> {
    Walk(web, Universe(web, start), [start], {})
  }

  /** The entries `collect_sitemap_entries` returns for `start`. */
  ghost function Collected(web: Web, start: string, prefix: string): (r: seq<SitemapEntry>)
    ensures forall i :: 0 <= i < |r| ==> WellFormedEntry(r[i], prefix)
  {
    EmittedFrom(web, Visits(web, start), prefix)
  }

  lemma AppendAssoc<T>(a: seq<T>, b: seq<T>, c: seq<T>)
    ensures (a + b) + c == a + (b + c)
  {
  }

  lemma EmittedFromSnoc(web: Web, us: seq<string>, u: string, prefix: string)
    ensures EmittedFrom(web, us + [u], prefix) == EmittedFrom(web, us, prefix) + Emitted(web, u, prefix)
  {
    assert (us + [u])[..|us|] == us;
  }

  /**
   * The body of the loop for a URL not seen before: fetch it and, by the tag
   * of its root, extend the queue or the entries.
   */
  method Visit(web: Web, current: string, pathPrefix: string, queue: seq<string>, entries: seq<SitemapEntry>)
    returns (queue': seq<string>, entries': seq<SitemapEntry>)
    ensures queue' == queue + Enqueued(web, current)
    ensures entries' == entries + Emitted(web, current, pathPrefix)
  {
    queue', entries' := queue, entries;
    if current !in web {
      assert queue + Enqueued(web, current) == queue;
      assert entries + Emitted(web, current, pathPrefix) == entries;
      return;
    }
    var doc := web[current];
    var rootTag := StripNamespace(doc.rootTag);
    if rootTag == "sitemapindex" {
      queue' := EnqueueIndex(doc.children, queue);
      assert entries + Emitted(web, current, pathPrefix) == entries;
    } else if rootTag == "urlset" {
      entries' := ReadUrlSet(doc.children, pathPrefix, entries);
      assert queue + Enqueued(web, current) == queue;
    } else {
      assert queue + Enqueued(web, current) == queue;
      assert entries + Emitted(web, current, pathPrefix) == entries;
    }
  }

  /**
   * `collect_sitemap_entries`: the entries of the documents the reference
   * traversal visits, in visiting order. `visited` lists the URLs looked up
   * in the web (fetched), in order: exactly those of the reference
   * traversal, so by `VisitsShape` none twice. During the loop, what is left
   * of the traversal is `Walk` of the queue and the seen set.
   */
  method CollectSitemapEntries(web: Web, sitemapUrl: string, pathPrefix: string)
    returns (entries: seq<SitemapEntry>, ghost visited: seq<string>)
    ensures visited == Visits(web, sitemapUrl)
    ensures entries == Collected(web, sitemapUrl, pathPrefix)
  {
    entries := [];
    var queue := [sitemapUrl];
    var seen: set<string> := {};
    visited := [];
    ghost var universe := Universe(web, sitemapUrl);
    assert visited + Walk(web, universe, queue, seen) == Visits(web, sitemapUrl);

    while queue != []
      invariant Bounded(web, universe, queue, seen)
      invariant visited + Walk(web, universe, queue, seen) == Visits(web, sitemapUrl)
      invariant entries == EmittedFrom(web, visited, pathPrefix)
      decreases |universe - seen|, |queue|
    {
      var current := queue[0];
      if current in seen {
        BoundedSkip(web, universe, queue, seen);
        queue := queue[1..];
        continue;
      }
      BoundedVisit(web, universe, queue, seen);
      ghost var rest := Walk(web, universe, queue[1..] + Enqueued(web, current), seen + {current});
      AppendAssoc(visited, [current], rest);
      EmittedFromSnoc(web, visited, current, pathPrefix);
      seen := seen + {current};
      visited := visited + [current];
      queue, entries := Visit(web, current, pathPrefix, queue[1..], entries);
    }
    assert visited + [] == visited;
  }

  // ------------------------------------------------ what the traversal is

  /** No element occurs twice. */
  predicate Distinct(s: seq<string>) {
    forall i, j :: 0 <= i < j < |s| ==> s[i] != s[j]
  }

  /** `w` repeats no URL and holds none of `seen`. */
  predicate Fresh(w: seq<string>, seen: set<string>) {
    Distinct(w) && forall x :: x in w ==> x !in seen
  }

  lemma FreshCons(u: string, rest: seq<string>, seen: set<string>)
    requires u !in seen && Fresh(rest, seen + {u})
    ensures Fresh([u] + rest, seen)
  {
    var w := [u] + rest;
    assert forall x :: x in w <==> x == u || x in rest;
    forall i, j | 0 <= i < j < |w| ensures w[i] != w[j] {
      assert w[j] == rest[j - 1];
      if i > 0 {
        assert w[i] == rest[i - 1];
      }
    }
  }

  /** The walk looks up no URL twice and none that was seen before it started. */
  lemma {:induction false} WalkFresh(web: Web, universe: set<string>, queue: seq<string>, seen: set<string>)
    requires Bounded(web, universe, queue, seen)
    ensures Fresh(Walk(web, universe, queue, seen), seen)
    decreases |universe - seen|, |queue|
  {
    if queue != [] {
      var u := queue[0];
      if u in seen {
        BoundedSkip(web, universe, queue, seen);
        WalkFresh(web, universe, queue[1..], seen);
      } else {
        BoundedVisit(web, universe, queue, seen);
        var queue', seen' := queue[1..] + Enqueued(web, u), seen + {u};
        WalkFresh(web, universe, queue', seen');
        FreshCons(u, Walk(web, universe, queue', seen'), seen);
      }
    }
  }

  /** Every URL a seen document enqueues is seen or still queued. */
  ghost predicate ClosedUnder(web: Web, seen: set<string>, queue: seq<string>) {
    forall v, x :: v in seen && x in Enqueued(web, v) ==> x in seen || x in queue
  }

  /**
   * Every queued URL is seen or in `w`, and everything seen or in `w` has
   * what it enqueues seen or in `w` too.
   */
  ghost predicate Reaches(web: Web, seen: set<string>, queue: seq<string>, w: seq<string>) {
    && (forall x :: x in queue ==> x in seen || x in w)
    && (forall v, x :: (v in seen || v in w) && x in Enqueued(web, v) ==> x in seen || x in w)
  }

  lemma ClosedAfterVisit(web: Web, seen: set<string>, queue: seq<string>)
    requires ClosedUnder(web, seen, queue) && queue != []
    ensures ClosedUnder(web, seen + {queue[0]}, queue[1..] + Enqueued(web, queue[0]))
  {
    var u := queue[0];
    var queue', seen' := queue[1..] + Enqueued(web, u), seen + {u};
    forall v, x | v in seen' && x in Enqueued(web, v) ensures x in seen' || x in queue' {
      if v == u {
        assert x in queue';
      } else if x !in seen {
        assert x in queue;
        var k :| 0 <= k < |queue| && queue[k] == x;
        if k > 0 {
          assert queue[1..][k - 1] == x;
        }
      }
    }
  }

  lemma ClosedAfterSkip(web: Web, seen: set<string>, queue: seq<string>)
    requires ClosedUnder(web, seen, queue) && queue != [] && queue[0] in seen
    ensures ClosedUnder(web, seen, queue[1..])
  {
    forall v, x | v in seen && x in Enqueued(web, v) ensures x in seen || x in queue[1..] {
      if x !in seen {
        InTail(queue, x);
      }
    }
  }

  /** An element of a sequence other than its head is in its tail. */
  lemma InTail<T>(s: seq<T>, x: T)
    requires x in s && x != s[0]
    ensures x in s[1..]
  {
    assert s == [s[0]] + s[1..];
  }

  lemma ReachesSkip(web: Web, seen: set<string>, queue: seq<string>, w: seq<string>)
    requires queue != [] && queue[0] in seen && Reaches(web, seen, queue[1..], w)
    ensures Reaches(web, seen, queue, w)
  {
    assert queue == [queue[0]] + queue[1..];
  }

  lemma ReachesVisit(web: Web, seen: set<string>, queue: seq<string>, rest: seq<string>)
    requires queue != [] && Reaches(web, seen + {queue[0]}, queue[1..] + Enqueued(web, queue[0]), rest)
    ensures Reaches(web, seen, queue, [queue[0]] + rest)
  {
    assert queue == [queue[0]] + queue[1..];
    assert forall x :: x in [queue[0]] + rest <==> x == queue[0] || x in rest;
  }

  /**
   * The walk looks up every queued URL not seen yet, and everything seen or
   * looked up has what it enqueues seen or looked up too.
   */
  lemma {:induction false} WalkClosed(web: Web, universe: set<string>, queue: seq<string>, seen: set<string>)
    requires Bounded(web, universe, queue, seen) && ClosedUnder(web, seen, queue)
    ensures Reaches(web, seen, queue, Walk(web, universe, queue, seen))
    decreases |universe - seen|, |queue|
  {
    if queue != [] {
      var u := queue[0];
      if u in seen {
        BoundedSkip(web, universe, queue, seen);
        ClosedAfterSkip(web, seen, queue);
        WalkClosed(web, universe, queue[1..], seen);
        ReachesSkip(web, seen, queue, Walk(web, universe, queue[1..], seen));
      } else {
        BoundedVisit(web, universe, queue, seen);
        var queue', seen' := queue[1..] + Enqueued(web, u), seen + {u};
        ClosedAfterVisit(web, seen, queue);
        WalkClosed(web, universe, queue', seen');
        ReachesVisit(web, seen, queue, Walk(web, universe, queue', seen'));
      }
    }
  }

  /** Every element of `w` was enqueued by `done` or by the elements of `w` before it. */
  ghost predicate Causal(web: Web, done: seq<string>, w: seq<string>) {
    forall k :: 0 <= k < |w| ==> w[k] in EnqueuedFrom(web, done + w[..k])
  }

  lemma CausalCons(web: Web, done: seq<string>, u: string, rest: seq<string>)
    requires u in EnqueuedFrom(web, done) && Causal(web, done + [u], rest)
    ensures Causal(web, done, [u] + rest)
  {
    ConsBefore(us => EnqueuedFrom(web, us), done, u, rest);
  }

  /**
   * If `u` is in `from(done)` and each element of `rest` is in `from` of
   * what precedes it after `done + [u]`, each element of `[u] + rest` is in
   * `from` of what precedes it after `done`.
   */
  lemma ConsBefore(from: seq<string> -> seq<string>, done: seq<string>, u: string, rest: seq<string>)
    requires u in from(done)
    requires forall k :: 0 <= k < |rest| ==> rest[k] in from(done + [u] + rest[..k])
    ensures forall k :: 0 <= k < |[u] + rest| ==> ([u] + rest)[k] in from(done + ([u] + rest)[..k])
  {
    var w := [u] + rest;
    forall k | 0 <= k < |w| ensures w[k] in from(done + w[..k]) {
      if k == 0 {
        assert done + w[..0] == done;
      } else {
        assert w[k] == rest[k - 1];
        assert done + w[..k] == done + [u] + rest[..k - 1];
      }
    }
  }

  /**
   * Every URL the walk looks up was enqueued by a document looked up
   * before it, given that every queued URL was enqueued by `done`.
   */
  lemma {:induction false} WalkCausal(web: Web, universe: set<string>, queue: seq<string>, seen: set<string>,
                                      done: seq<string>)
    requires Bounded(web, universe, queue, seen)
    requires forall x :: x in queue ==> x in EnqueuedFrom(web, done)
    ensures Causal(web, done, Walk(web, universe, queue, seen))
    decreases |universe - seen|, |queue|
  {
    if queue != [] {
      var u := queue[0];
      if u in seen {
        BoundedSkip(web, universe, queue, seen);
        WalkCausal(web, universe, queue[1..], seen, done);
      } else {
        BoundedVisit(web, universe, queue, seen);
        var queue', seen' := queue[1..] + Enqueued(web, u), seen + {u};
        EnqueuedFromSnoc(web, done, u);
        forall x | x in queue' ensures x in EnqueuedFrom(web, done + [u]) {
          if x !in Enqueued(web, u) {
            assert x in queue[1..];
          }
        }
        WalkCausal(web, universe, queue', seen', done + [u]);
        CausalCons(web, done, u, Walk(web, universe, queue', seen'));
      }
    }
  }

  /**
   * The state of the loop in terms of the queue: the URLs taken from the
   * queue so far followed by the queue are the start URL followed by
   * everything the visited documents enqueued; the visited URLs are the
   * first occurrences among those taken; the seen set holds exactly the
   * visited URLs.
   */
  ghost predicate QueueState(web: Web, start: string, dequeued: seq<string>, queue: seq<string>,
                             visited: seq<string>, seen: set<string>)
  {
    && dequeued + queue == [start] + EnqueuedFrom(web, visited)
    && visited == FirstOccurrences(dequeued)
    && (forall x :: x in seen <==> x in visited)
  }

  lemma EnqueuedFromSnoc(web: Web, us: seq<string>, u: string)
    ensures EnqueuedFrom(web, us + [u]) == EnqueuedFrom(web, us) + Enqueued(web, u)
  {
    assert (us + [u])[..|us|] == us;
  }

  lemma FirstOccurrencesSnoc(s: seq<string>, x: string)
    ensures FirstOccurrences(s + [x]) == if x in s then FirstOccurrences(s) else FirstOccurrences(s) + [x]
  {
    assert (s + [x])[..|s|] == s;
  }

  /** Moving the head of the queue to the dequeued list, then appending `e`. */
  lemma PopAppend(dequeued: seq<string>, queue: seq<string>, e: seq<string>)
    requires queue != []
    ensures (dequeued + [queue[0]]) + (queue[1..] + e) == (dequeued + queue) + e
  {
    assert queue == [queue[0]] + queue[1..];
  }

  /** Taking an already seen URL off the queue keeps the queue state. */
  lemma SkipStep(web: Web, start: string, dequeued: seq<string>, queue: seq<string>,
                 visited: seq<string>, seen: set<string>)
    requires QueueState(web, start, dequeued, queue, visited, seen)
    requires queue != [] && queue[0] in seen
    ensures QueueState(web, start, dequeued + [queue[0]], queue[1..], visited, seen)
  {
    PopAppend(dequeued, queue, []);
    assert queue[1..] + [] == queue[1..];
    assert (dequeued + queue) + [] == dequeued + queue;
    FirstOccurrencesSnoc(dequeued, queue[0]);
  }

  /** Taking a new URL off the queue and visiting it: the queue grows by what it enqueues. */
  lemma VisitStep(web: Web, start: string, dequeued: seq<string>, queue: seq<string>,
                  visited: seq<string>, seen: set<string>)
    requires QueueState(web, start, dequeued, queue, visited, seen)
    requires queue != [] && queue[0] !in seen
    ensures QueueState(web, start, dequeued + [queue[0]], queue[1..] + Enqueued(web, queue[0]),
                       visited + [queue[0]], seen + {queue[0]})
  {
    var c := queue[0];
    EnqueuedFromSnoc(web, visited, c);
    FirstOccurrencesSnoc(dequeued, c);
    PopAppend(dequeued, queue, Enqueued(web, c));
    AppendAssoc([start], EnqueuedFrom(web, visited), Enqueued(web, c));
  }

  /**
   * `visited` is what a first-in first-out traversal from `start` looks up:
   * the first occurrences among the start URL and everything the visited
   * documents enqueue.
   */
  ghost predicate IsTraversal(web: Web, start: string, visited: seq<string>) {
    visited == FirstOccurrences([start] + EnqueuedFrom(web, visited))
  }

  /** From any queue state, finishing the walk gives a first-in first-out traversal. */
  lemma {:induction false} WalkFifo(web: Web, universe: set<string>, start: string, dequeued: seq<string>,
                                    queue: seq<string>, visited: seq<string>, seen: set<string>)
    requires Bounded(web, universe, queue, seen)
    requires QueueState(web, start, dequeued, queue, visited, seen)
    ensures IsTraversal(web, start, visited + Walk(web, universe, queue, seen))
    decreases |universe - seen|, |queue|
  {
    if queue == [] {
      assert dequeued + [] == dequeued && visited + [] == visited;
    } else {
      var u := queue[0];
      if u in seen {
        BoundedSkip(web, universe, queue, seen);
        SkipStep(web, start, dequeued, queue, visited, seen);
        WalkFifo(web, universe, start, dequeued + [u], queue[1..], visited, seen);
      } else {
        BoundedVisit(web, universe, queue, seen);
        VisitStep(web, start, dequeued, queue, visited, seen);
        var queue', seen' := queue[1..] + Enqueued(web, u), seen + {u};
        WalkFifo(web, universe, start, dequeued + [u], queue', visited + [u], seen');
        AppendAssoc(visited, [u], Walk(web, universe, queue', seen'));
      }
    }
  }

  /** The reference traversal looks up the start URL first, then what it enqueues. */
  lemma VisitsUnfold(web: Web, start: string)
    ensures Bounded(web, Universe(web, start), Enqueued(web, start), {start})
    ensures Visits(web, start) == [start] + Walk(web, Universe(web, start), Enqueued(web, start), {start})
  {
    var universe := Universe(web, start);
    assert Bounded(web, universe, [start], {});
    BoundedVisit(web, universe, [start], {});
    assert [start][1..] + Enqueued(web, start) == Enqueued(web, start);
    assert {} + {start} == {start};
  }

  /**
   * The traversal starts at its start URL, looks up no URL twice, and is
   * closed: every location a visited `sitemapindex` lists is visited too.
   */
  lemma VisitsShape(web: Web, start: string)
    ensures Visits(web, start) != [] && Visits(web, start)[0] == start
    ensures Distinct(Visits(web, start))
    ensures forall u, x :: u in Visits(web, start) && x in Enqueued(web, u) ==> x in Visits(web, start)
  {
    var universe := Universe(web, start);
    assert Bounded(web, universe, [start], {});
    WalkFresh(web, universe, [start], {});
    assert ClosedUnder(web, {}, [start]);
    WalkClosed(web, universe, [start], {});
    VisitsUnfold(web, start);
  }

  /**
   * Minimality: every URL looked up after the start URL was listed by an
   * index looked up before it.
   */
  lemma VisitsCausal(web: Web, start: string)
    ensures forall k :: 0 < k < |Visits(web, start)| ==>
              Visits(web, start)[k] in EnqueuedFrom(web, Visits(web, start)[..k])
  {
    var universe := Universe(web, start);
    VisitsUnfold(web, start);
    var rest := Walk(web, universe, Enqueued(web, start), {start});
    EnqueuedFromSnoc(web, [], start);
    assert [] + [start] == [start];
    WalkCausal(web, universe, Enqueued(web, start), {start}, [start]);
    var v := Visits(web, start);
    forall k | 0 < k < |v| ensures v[k] in EnqueuedFrom(web, v[..k]) {
      assert v[k] == rest[k - 1];
      assert v[..k] == [start] + rest[..k - 1];
    }
  }

  /**
   * The queue is first-in first-out: the URLs looked up are the first
   * occurrences, in order, of the start URL followed by everything the
   * visited documents enqueue, in visiting order.
   */
  lemma VisitsFifo(web: Web, start: string)
    ensures IsTraversal(web, start, Visits(web, start))
  {
    var universe := Universe(web, start);
    assert Bounded(web, universe, [start], {});
    assert QueueState(web, start, [], [start], [], {});
    WalkFifo(web, universe, start, [], [start], [], {});
    assert [] + Visits(web, start) == Visits(web, start);
  }
}
