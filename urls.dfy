/**
 * URLs as the scraper sees them after `urlparse`: a scheme, a network
 * location and a path. Every URL of the model comes already split.
 */
module Urls {
  import opened Text

  datatype Url = Url(scheme: string, netloc: string, path: string)

  /** `f"{scheme}://{netloc}"`, the site's base URL. */
  function BaseUrl(u: Url): string {
    u.scheme + "://" + u.netloc
  }

  /**
   * The scheme and network location `urlparse` finds again in `BaseUrl(u)`,
   * the text `collect_articles` hands to `discover_sitemaps`. A non-empty
   * scheme comes back with its network location. Without a scheme the base
   * URL starts with `:`, so it has neither: for a scheme-relative site URL
   * `//host/...` both parts are empty.
   */
  function Resplit(u: Url): (string, string) {
    if u.scheme == "" then ("", "") else (u.scheme, u.netloc)
  }

  /** `normalize_domain`: the network location with every `www.` removed. */
  function NormalizeDomain(u: Url): string {
    Replace(u.netloc, "www.", "")
  }

  /** A domain with a leading `www.` and no other occurrence loses exactly that prefix. */
  lemma {:induction false} NormalizeDomainLeadingWww(u: Url, rest: string)
    requires u.netloc == "www." + rest && !Contains(rest, "www.")
    ensures NormalizeDomain(u) == rest
  {
    assert StartsWith(u.netloc, "www.");
    assert u.netloc[4..] == rest;
    ReplaceAbsent(rest, "www.", "");
  }

  /** A domain without `www.` is its own normal form. */
  lemma NormalizeDomainPlain(u: Url)
    requires !Contains(u.netloc, "www.")
    ensures NormalizeDomain(u) == u.netloc
  {
    ReplaceAbsent(u.netloc, "www.", "");
  }

  /** `path.rstrip("/")`: the site's path prefix for sitemap filtering. */
  function PathPrefix(path: string): (r: string)
    ensures StartsWith(path, r)
    ensures r == [] || r[|r| - 1] != '/'
    ensures forall i :: |r| <= i < |path| ==> path[i] == '/'
    decreases |path|
  {
    if path != [] && path[|path| - 1] == '/' then PathPrefix(path[..|path| - 1]) else path
  }
}
