/**
 * The frontend's URL normalisation for API requests: absolute URLs are cut
 * down to path and query, hard-coded backend hosts are removed, doubled
 * `/api/` prefixes are collapsed, and relative paths get a leading '/'.
 *
 * How the browser's `URL` class splits an absolute URL is a parameter
 * (`parseUrl`), `None` standing for the exception it throws.
 */
module UrlHelpers {
  import opened Wrappers
  import opened JsText

  /** What `new URL(url)` exposes that the helpers use. */
  datatype UrlParts = UrlParts(pathname: string, search: string)

  const Localhost127: string := "127.0.0.1:8000"
  const ProductionHost: string := "docentes.facet.unt.edu.ar"
  const LocalhostName: string := "localhost:8000"

  /** Removes everything up to and including the last occurrence of each backend host on the first line. */
  function StripHosts(url: string): string {
    StripThroughLast(StripThroughLast(StripThroughLast(url, Localhost127), ProductionHost), LocalhostName)
  }

  /** Rewrites the first "/api/api/", "/api/facet/" and "/api/login/", one occurrence each. */
  function CollapseApi(url: string): string {
    ReplaceFirst(ReplaceFirst(ReplaceFirst(url, "/api/api/", "/api/"), "/api/facet/", "/facet/"), "/api/login/", "/login/")
  }

  /** The path a relative URL is normalised to. */
  function NormalizeRelative(url: string): (r: string)
    ensures StartsWith(r, "/") || StartsWith(r, "http")
  {
    var u := CollapseApi(StripHosts(url));
    if !StartsWith(u, "/") && !StartsWith(u, "http") then "/" + u else u
  }

  /** `normalizeUrl`. */
  function NormalizeUrl(url: string, parseUrl: string -> Option<UrlParts>): (r: string)
    ensures Includes(url, "://") && parseUrl(url).Some? ==> r == parseUrl(url).value.pathname + parseUrl(url).value.search
    ensures Includes(url, "://") && parseUrl(url).None? ==> r == url
    ensures !Includes(url, "://") ==> StartsWith(r, "/") || StartsWith(r, "http")
  {
    if Includes(url, "://") then
      match parseUrl(url)
      case None => url
      case Some(parts) => parts.pathname + parts.search
    else NormalizeRelative(url)
  }

  /** `buildApiUrl`: the endpoint, normalised. */
  function BuildApiUrl(endpoint: string, parseUrl: string -> Option<UrlParts>): string {
    NormalizeUrl(endpoint, parseUrl)
  }

  /**
   * On a single line, stripping through the last occurrence of a host
   * leaves no occurrence of it.
   */
  lemma StripLeavesNoHost(s: string, pat: string)
    requires pat != ""
    requires forall i :: 0 <= i < |s| ==> !IsLineTerminator(s[i])
    ensures !Includes(StripThroughLast(s, pat), pat)
  {
    var limit := FirstLineEnd(s);
    assert limit == |s|;
    var r := StripThroughLast(s, pat);
    var off := |s| - |r|;
    var last := LastOccurrenceBefore(s, pat, limit);
    assert last.None? ==> off == 0;
    assert last.Some? ==> off == last.value + |pat|;
    forall q | 0 <= q <= |r|
      ensures !OccursAt(r, pat, q)
    {
      if q + |pat| <= |r| {
        assert r[q..q + |pat|] == s[off + q..off + q + |pat|];
        assert last.Some? ==> off + q > last.value;
        assert !OccursAt(s, pat, off + q);
      }
    }
  }

  /** Stripping a pattern that does not occur changes nothing. */
  lemma StripAbsent(s: string, pat: string)
    requires !Includes(s, pat)
    ensures StripThroughLast(s, pat) == s
  {
  }

  /** Replacing a pattern that does not occur changes nothing. */
  lemma ReplaceAbsent(s: string, pat: string, rep: string)
    requires !Includes(s, pat)
    ensures ReplaceFirst(s, pat, rep) == s
  {
    IncludesIff(s, pat);
  }

  /**
   * A path that already starts with '/', names no backend host and has no
   * doubled `/api/` prefix is left exactly as it is.
   */
  lemma NormalPathUnchanged(url: string, parseUrl: string -> Option<UrlParts>)
    requires StartsWith(url, "/") && !Includes(url, "://")
    requires !Includes(url, Localhost127) && !Includes(url, ProductionHost) && !Includes(url, LocalhostName)
    requires !Includes(url, "/api/api/") && !Includes(url, "/api/facet/") && !Includes(url, "/api/login/")
    ensures NormalizeUrl(url, parseUrl) == url
  {
    StripAbsent(url, Localhost127);
    StripAbsent(url, ProductionHost);
    StripAbsent(url, LocalhostName);
    ReplaceAbsent(url, "/api/api/", "/api/");
    ReplaceAbsent(url, "/api/facet/", "/facet/");
    ReplaceAbsent(url, "/api/login/", "/login/");
  }
}
