/**
 * The list pages' search-and-pagination hook: how it normalises the
 * pagination links the backend returns, how it builds a filtered URL, how
 * it works out the current page and the number of pages, and how its state
 * moves on next, previous, go-to-page, apply and clear.
 *
 * A request is asynchronous: a transition returns the URL it asks for, and
 * `FetchData` later applies the response (`None` when the request fails).
 */
module UseSearch {
  import opened Wrappers
  import opened JsText
  import JsNumber
  import UrlHelpers

  type JsNum = JsNumber.JsNum

  // ---------------------------------------------------------------------
  // normalizeUrl

  /** The number of '/' at the start of `s`. */
  function LeadingSlashes(s: string): (k: nat)
    ensures k <= |s| && (forall i :: 0 <= i < k ==> s[i] == '/') && (k < |s| ==> s[k] != '/')
  {
    if s != [] && s[0] == '/' then 1 + LeadingSlashes(s[1..]) else 0
  }

  /** `s.replace(/^\/+/, "/")`: a leading run of '/' becomes exactly one; nothing else changes. */
  function CollapseLeadingSlashes(s: string): (r: string)
    ensures LeadingSlashes(s) == 0 ==> r == s
    ensures LeadingSlashes(s) > 0 ==> r == "/" + s[LeadingSlashes(s)..]
  {
    var k := LeadingSlashes(s);
    if k == 0 then s else "/" + s[k..]
  }

  /** After collapsing, a URL that started with '/' starts with exactly one. */
  lemma CollapseLeavesOne(s: string)
    requires LeadingSlashes(s) > 0
    ensures LeadingSlashes(CollapseLeadingSlashes(s)) == 1
  {
    var k := LeadingSlashes(s);
    var r := CollapseLeadingSlashes(s);
    assert r[1..] == s[k..];
    assert LeadingSlashes(r) == 1 + LeadingSlashes(s[k..]);
  }

  /** Collapsing twice is collapsing once. */
  lemma CollapseIdempotent(s: string)
    ensures CollapseLeadingSlashes(CollapseLeadingSlashes(s)) == CollapseLeadingSlashes(s)
  {
    var r := CollapseLeadingSlashes(s);
    if LeadingSlashes(s) > 0 {
      CollapseLeavesOne(s);
      assert r[1..] == r[LeadingSlashes(r)..];
    }
  }

  /**
   * `normalizeUrl` of the hook: an URL starting with "http" becomes path
   * plus query; `None` is the exception `new URL` throws on one it cannot
   * read. Any other URL only has its leading slashes collapsed.
   */
  function NormalizePageUrl(url: string, parseUrl: string -> Option<UrlHelpers.UrlParts>): (r: Option<string>)
    ensures !StartsWith(url, "http") ==> r == Some(CollapseLeadingSlashes(url))
    ensures StartsWith(url, "http") && parseUrl(url).Some? ==> r == Some(parseUrl(url).value.pathname + parseUrl(url).value.search)
    ensures StartsWith(url, "http") && parseUrl(url).None? ==> r.None?
  {
    if StartsWith(url, "http") then
      match parseUrl(url)
      case None => None
      case Some(parts) => Some(parts.pathname + parts.search)
    else Some(CollapseLeadingSlashes(url))
  }

  // ---------------------------------------------------------------------
  // buildUrlWithFilters

  /** The filters in insertion order; a value is `None` when it is `undefined`. */
  type Filters = seq<(string, Option<string>)>

  /** The parameters one filter adds: none for "" or `undefined`; `estado = "todos"` asks for `show_all=true`. */
  function Emitted(key: string, value: Option<string>): seq<(string, string)> {
    if value.None? || value.value == "" then []
    else if key == "estado" && value.value == "todos" then [("show_all", "true")]
    else [(key, value.value)]
  }

  /** The parameters the filters add, in insertion order. */
  function KeptParams(filters: Filters): (ps: seq<(string, string)>)
    ensures |ps| <= |filters|
  {
    if filters == [] then []
    else KeptParams(filters[..|filters| - 1]) + Emitted(filters[|filters| - 1].0, filters[|filters| - 1].1)
  }

  /**
   * Every parameter other than `show_all` comes from a filter with a
   * non-empty value, and every such filter gives one, except that
   * `estado = "todos"` is not sent as such.
   */
  lemma {:induction false} KeptParamsIff(filters: Filters, key: string, value: string)
    requires key != "show_all"
    ensures (key, value) in KeptParams(filters) <==>
              value != "" && (key, Some(value)) in filters && !(key == "estado" && value == "todos")
  {
    if filters != [] {
      var init := filters[..|filters| - 1];
      KeptParamsIff(init, key, value);
      assert filters == init + [filters[|filters| - 1]];
    }
  }

  /** `estado = "todos"` is never sent as such: it becomes `show_all=true`. */
  lemma {:induction false} TodosBecomesShowAll(filters: Filters)
    requires ("estado", Some("todos")) in filters
    ensures ("show_all", "true") in KeptParams(filters)
    ensures ("estado", "todos") !in KeptParams(filters)
  {
    var init := filters[..|filters| - 1];
    assert filters == init + [filters[|filters| - 1]];
    if ("estado", Some("todos")) in init {
      TodosBecomesShowAll(init);
    } else {
      NoTodos(init);
    }
  }

  lemma {:induction false} NoTodos(filters: Filters)
    ensures ("estado", "todos") !in KeptParams(filters)
  {
    if filters != [] {
      NoTodos(filters[..|filters| - 1]);
    }
  }

  /** The `page` parameter: only when the page is given and not 0. */
  function PageParam(page: Option<int>): seq<(string, string)> {
    if page.Some? && page.value != 0 then [("page", IntToString(page.value))] else []
  }

  function Pieces(params: seq<(string, string)>): (pieces: seq<string>)
    ensures |pieces| == |params|
    ensures forall i :: 0 <= i < |params| ==> pieces[i] == params[i].0 + "=" + params[i].1
  {
    seq(|params|, i requires 0 <= i < |params| => params[i].0 + "=" + params[i].1)
  }

  /** `params.toString()`, leaving out percent-encoding. */
  function QueryString(params: seq<(string, string)>): string {
    Join(Pieces(params), "&")
  }

  /** The URL `buildUrlWithFilters` returns. */
  function UrlWithFilters(baseUrl: string, filters: Filters, page: Option<int>): string {
    var query := QueryString(KeptParams(filters) + PageParam(page));
    if query == "" then baseUrl else baseUrl + "?" + query
  }

  /** With no parameter at all the URL is exactly the base URL; otherwise a query follows it. */
  lemma BareBaseUrl(baseUrl: string, filters: Filters, page: Option<int>)
    ensures var params := KeptParams(filters) + PageParam(page);
            (params == [] ==> UrlWithFilters(baseUrl, filters, page) == baseUrl)
            && (params != [] ==> UrlWithFilters(baseUrl, filters, page) == baseUrl + "?" + QueryString(params))
  {
    var params := KeptParams(filters) + PageParam(page);
    if params != [] {
      assert '=' in Pieces(params)[0];
      JoinKeepsFirst(Pieces(params), "&");
    }
  }

  lemma JoinKeepsFirst(parts: seq<string>, sep: string)
    requires parts != []
    ensures parts[0] <= Join(parts, sep)
  {
  }

  // ---------------------------------------------------------------------
  // Current page and number of pages

  /** `URLSearchParams(q)`: the non-empty '&'-separated pieces, each split at its first '='; no decoding. */
  function ParseQuery(q: string): seq<(string, string)> {
    var pieces := Split(q, '&');
    ParsePieces(pieces)
  }

  /** `new URLSearchParams(search)` on a location's search text: a leading '?' is not part of the query. */
  function SearchParams(search: string): seq<(string, string)> {
    ParseQuery(if StartsWith(search, "?") then search[1..] else search)
  }

  function ParsePieces(pieces: seq<string>): seq<(string, string)> {
    if pieces == [] then []
    else
      var rest := ParsePieces(pieces[1..]);
      if pieces[0] == "" then rest else [ParsePiece(pieces[0])] + rest
  }

  function ParsePiece(piece: string): (string, string) {
    match IndexOf(piece, "=")
    case None => (piece, "")
    case Some(i) => (piece[..i], piece[i + 1..])
  }

  /** `params.get(name)`: the first value given for `name`. */
  function Get(params: seq<(string, string)>, name: string): Option<string> {
    if params == [] then None
    else if params[0].0 == name then Some(params[0].1)
    else Get(params[1..], name)
  }

  /** `normalizedUrl.split("?")[1] || ""`. */
  function QueryOf(url: string): string {
    var parts := Split(url, '?');
    if |parts| >= 2 then parts[1] else ""
  }

  /** `s || fallback` for a parameter that may be missing. */
  function OrDefault(v: Option<string>, fallback: string): string {
    if v.Some? && v.value != "" then v.value else fallback
  }

  /** `parseInt` as a number. */
  function ParseIntNum(s: string): JsNum {
    match JsNumber.ParseInt(s)
    case None => JsNumber.NaN
    case Some(v) => JsNumber.Finite(v as real)
  }

  /** `Math.floor(offset / limit) + 1` on JavaScript numbers. */
  function PageFromOffset(offset: Option<int>, limit: Option<int>): JsNum {
    if offset.None? || limit.None? then JsNumber.NaN
    else if limit.value == 0 then
      if offset.value == 0 then JsNumber.NaN else JsNumber.Infinity(offset.value > 0)
    else JsNumber.Finite((FloorDiv(offset.value, limit.value) + 1) as real)
  }

  /** `Math.floor(a / b)` for integers: division rounding toward minus infinity, whatever the signs. */
  function FloorDiv(a: int, b: int): int
    requires b != 0
  {
    if b > 0 then a / b else (-a) / (-b)
  }

  /** `FloorDiv` is the floor of the exact quotient. */
  lemma FloorDivIsFloor(a: int, b: int)
    requires b != 0
    ensures FloorDiv(a, b) == (a as real / b as real).Floor
  {
    var a', b' := if b > 0 then a else -a, if b > 0 then b else -b;
    assert a' as real / b' as real == a as real / b as real;
    var q := a' / b';
    assert q * b' <= a' < q * b' + b';
    var x := a' as real / b' as real;
    assert (q as real) * (b' as real) <= a' as real;
    assert q as real <= x by {
      assert x * (b' as real) == a' as real;
    }
    assert x < (q + 1) as real by {
      assert x * (b' as real) == a' as real;
      assert a' as real < (q + 1) as real * b' as real;
    }
  }

  /**
   * The page shown after loading `url`: the `page` parameter when it is
   * given, else `floor(offset / limit) + 1` with offset 0 and limit the page
   * size by default.
   */
  function CurrentPageOf(url: string, pageSize: int): JsNum {
    var params := ParseQuery(QueryOf(url));
    var page := Get(params, "page");
    if page.Some? && page.value != "" then ParseIntNum(page.value)
    else
      var offset := JsNumber.ParseInt(OrDefault(Get(params, "offset"), "0"));
      var limit := JsNumber.ParseInt(OrDefault(Get(params, "limit"), IntToString(pageSize)));
      PageFromOffset(offset, limit)
  }

  /** `Math.ceil(totalItems / pageSize)`. */
  function TotalPagesOf(totalItems: int, pageSize: int): JsNum {
    if pageSize == 0 then
      if totalItems == 0 then JsNumber.NaN else JsNumber.Infinity(totalItems > 0)
    else JsNumber.Finite(-((-(totalItems as real / pageSize as real)).Floor) as real)
  }

  /** For a positive page size: the fewest pages of that size holding every item. */
  lemma TotalPagesExact(totalItems: nat, pageSize: int)
    requires pageSize > 0
    ensures TotalPagesOf(totalItems, pageSize) == JsNumber.Finite(((totalItems + pageSize - 1) / pageSize) as real)
    ensures var n := (totalItems + pageSize - 1) / pageSize;
            n * pageSize >= totalItems && (n == 0 || (n - 1) * pageSize < totalItems)
  {
    var n := (totalItems + pageSize - 1) / pageSize;
    CeilingBounds(totalItems, pageSize);
    FloorDivIsFloor(-(totalItems as int), pageSize);
    NegatedQuotient(totalItems, pageSize);
    assert (-(totalItems as real / pageSize as real)).Floor == -n;
  }

  /** Negating the dividend negates the exact quotient. */
  lemma NegatedQuotient(t: int, p: int)
    requires p > 0
    ensures (-t) as real / p as real == -(t as real / p as real)
  {
    var x := t as real / p as real;
    assert x * (p as real) == t as real;
    assert (-x) * (p as real) == (-t) as real;
  }

  /** The ceiling of `t / p` for a positive `p`, in integers: minus the floor of `-t / p`. */
  lemma CeilingBounds(t: nat, p: int)
    requires p > 0
    ensures var n := (t + p - 1) / p;
            t <= n * p < t + p && (-(t as int)) / p == -n
  {
    var n := (t + p - 1) / p;
    assert n * p <= t + p - 1 < n * p + p;
    var m := (-(t as int)) / p;
    assert m * p <= -(t as int) < m * p + p;
    if m < -n {
      ScaleMono(m + 1, -n, p);
      assert false;
    } else if m > -n {
      ScaleMono(-n + 1, m, p);
      assert false;
    }
  }

  /** An offset inside the listing, with the limit equal to the page size, lands on a page between 1 and the page count. */
  lemma OffsetPageInRange(offset: nat, totalItems: nat, pageSize: int)
    requires pageSize > 0 && offset < totalItems
    ensures 1 <= offset / pageSize + 1 <= (totalItems + pageSize - 1) / pageSize
  {
    var q, n := offset / pageSize, (totalItems + pageSize - 1) / pageSize;
    assert q * pageSize <= offset;
    assert n * pageSize > totalItems - 1;
    if n <= q {
      ScaleMono(n, q, pageSize);
      assert false;
    }
  }

  /** Multiplying by a positive number keeps order. */
  lemma ScaleMono(a: int, b: int, c: int)
    requires a <= b && c > 0
    ensures a * c <= b * c
  {
    assert b * c - a * c == (b - a) * c;
  }

  /** A parameter the query string carries through unchanged: no '&', '=' or '?' in its name, no '&' or '?' in its value. */
  predicate PlainParam(kv: (string, string)) {
    '&' !in kv.0 && '=' !in kv.0 && '?' !in kv.0 && '&' !in kv.1 && '?' !in kv.1
  }

  /**
   * The page `goToPage(p)` asks for is the page shown once its response
   * arrives: building the URL and reading the page back agree, as long as
   * the base URL has no query and the filters' names and values need no
   * escaping.
   */
  lemma PageRoundTrip(baseUrl: string, filters: Filters, p: nat, pageSize: int)
    requires p > 0 && '?' !in baseUrl
    requires forall i :: 0 <= i < |KeptParams(filters)| ==> PlainParam(KeptParams(filters)[i]) && KeptParams(filters)[i].0 != "page"
    ensures CurrentPageOf(UrlWithFilters(baseUrl, filters, Some(p)), pageSize) == JsNumber.Finite(p as real)
  {
    var kept := KeptParams(filters);
    var digits := IntToString(p);
    var params := kept + [("page", digits)];
    assert PageParam(Some(p)) == [("page", digits)];
    assert forall k :: 0 <= k < |digits| ==> IsAsciiDigit(digits[k]);
    assert PlainParam(("page", digits));
    var pieces := Pieces(params);
    var q := Join(pieces, "&");
    forall k | 0 <= k < |pieces| ensures '&' !in pieces[k] && '?' !in pieces[k] && '=' in pieces[k] {
      assert PlainParam(params[k]);
      assert pieces[k] == params[k].0 + "=" + params[k].1;
    }
    JoinWithout(pieces, "&", '?');
    JoinKeepsFirst(pieces, "&");
    assert q != "";
    var url := UrlWithFilters(baseUrl, filters, Some(p));
    assert url == baseUrl + ['?'] + q;
    SplitAfterPiece(baseUrl, '?', q);
    SplitWithoutSep(q, '?');
    assert QueryOf(url) == q;
    SplitJoin(pieces, '&');
    ParsePiecesOf(params);
    assert ParseQuery(q) == params;
    GetAfter(kept, [("page", digits)], "page");
    JsNumber.ParseIntPadded(p, 0);
  }

  /** A character that is in no piece nor in the separator is not in the joined string. */
  lemma {:induction false} JoinWithout(parts: seq<string>, sep: string, c: char)
    requires c !in sep && forall k :: 0 <= k < |parts| ==> c !in parts[k]
    ensures c !in Join(parts, sep)
  {
    if |parts| > 1 {
      JoinWithout(parts[1..], sep, c);
    }
  }

  /** Reading back the pieces of plain parameters gives the parameters. */
  lemma {:induction false} ParsePiecesOf(params: seq<(string, string)>)
    requires forall i :: 0 <= i < |params| ==> PlainParam(params[i])
    ensures ParsePieces(Pieces(params)) == params
  {
    if params != [] {
      var piece := Pieces(params)[0];
      assert piece == params[0].0 + "=" + params[0].1;
      assert OccursAt(piece, "=", |params[0].0|);
      forall j | 0 <= j < |params[0].0| ensures !OccursAt(piece, "=", j) {
        assert piece[j] == params[0].0[j];
      }
      assert IndexOf(piece, "=") == Some(|params[0].0|);
      assert piece[..|params[0].0|] == params[0].0;
      assert piece[|params[0].0| + 1..] == params[0].1;
      assert Pieces(params)[1..] == Pieces(params[1..]);
      ParsePiecesOf(params[1..]);
    }
  }

  /** A name that no earlier parameter has is looked up in the later ones. */
  lemma {:induction false} GetAfter(a: seq<(string, string)>, b: seq<(string, string)>, name: string)
    requires forall i :: 0 <= i < |a| ==> a[i].0 != name
    ensures Get(a + b, name) == Get(b, name)
  {
    if a != [] {
      assert (a + b)[0] == a[0] && (a + b)[1..] == a[1..] + b;
      GetAfter(a[1..], b, name);
    } else {
      assert a + b == b;
    }
  }

  // ---------------------------------------------------------------------
  // The hook's state

  /** A page of results as the backend returns it. */
  datatype Response<T> = Response(count: int, next: Option<string>, previous: Option<string>, results: seq<T>)

  const FetchError: string := "Error al obtener los datos"

  /** A non-null, non-empty link: JavaScript's truthiness of a `string | null`. */
  predicate Truthy(s: Option<string>) {
    s.Some? && s.value != ""
  }

  /** The state of one mounted hook. */
  class SearchHook<T> {
    const baseUrl: string
    const pageSize: int
    const defaultFilters: Filters
    var data: seq<T>
    var isLoading: bool
    var error: Option<string>
    var totalItems: int
    var currentPage: JsNum
    var nextUrl: Option<string>
    var prevUrl: Option<string>
    var currentUrl: string
    var currentFilters: Filters

    constructor (baseUrl: string, pageSize: int, defaultFilters: Filters)
      ensures this.baseUrl == baseUrl && this.pageSize == pageSize && this.defaultFilters == defaultFilters
      ensures data == [] && isLoading && error.None? && totalItems == 0 && currentPage == JsNumber.Finite(1.0)
      ensures nextUrl.None? && prevUrl.None? && currentUrl == baseUrl && currentFilters == defaultFilters
    {
      this.baseUrl := baseUrl;
      this.pageSize := pageSize;
      this.defaultFilters := defaultFilters;
      data := [];
      isLoading := true;
      error := None;
      totalItems := 0;
      currentPage := JsNumber.Finite(1.0);
      nextUrl := None;
      prevUrl := None;
      currentUrl := baseUrl;
      currentFilters := defaultFilters;
    }

    /** `totalPages`. */
    function TotalPages(): JsNum
      reads this
    {
      TotalPagesOf(totalItems, pageSize)
    }

    /** `buildUrlWithFilters`: fills the parameters filter by filter, then the page. */
    method BuildUrlWithFilters(filters: Filters, page: Option<int>) returns (url: string)
      ensures url == UrlWithFilters(baseUrl, filters, page)
    {
      var params: seq<(string, string)> := [];
      var i := 0;
      while i < |filters|
        invariant 0 <= i <= |filters|
        invariant params == KeptParams(filters[..i])
      {
        var (key, value) := filters[i];
        if value.Some? && value.value != "" {
          if key == "estado" && value.value == "todos" {
            params := params + [("show_all", "true")];
          } else {
            params := params + [(key, value.value)];
          }
        }
        assert filters[..i + 1][..i] == filters[..i];
        i := i + 1;
      }
      assert filters[..i] == filters;
      if page.Some? && page.value != 0 {
        params := params + [("page", IntToString(page.value))];
      }
      assert params == KeptParams(filters) + PageParam(page);
      var query := QueryString(params);
      if query == "" {
        url := baseUrl;
      } else {
        url := baseUrl + "?" + query;
      }
    }

    /** `applyFilters`: remembers the filters and asks for their first page. */
    method ApplyFilters(filters: Filters) returns (fetch: string)
      modifies this
      ensures fetch == UrlWithFilters(baseUrl, filters, Some(1))
      ensures currentFilters == filters && currentUrl == fetch && currentPage == JsNumber.Finite(1.0)
      ensures data == old(data) && isLoading == old(isLoading) && error == old(error) && totalItems == old(totalItems)
      ensures nextUrl == old(nextUrl) && prevUrl == old(prevUrl)
    {
      currentFilters := filters;
      fetch := BuildUrlWithFilters(filters, Some(1));
      currentUrl := fetch;
      currentPage := JsNumber.Finite(1.0);
    }

    /** `clearFilters`: back to the default filters, without a page parameter. */
    method ClearFilters() returns (fetch: string)
      modifies this
      ensures fetch == UrlWithFilters(baseUrl, defaultFilters, None)
      ensures currentFilters == defaultFilters && currentUrl == fetch && currentPage == JsNumber.Finite(1.0)
      ensures data == old(data) && isLoading == old(isLoading) && error == old(error) && totalItems == old(totalItems)
      ensures nextUrl == old(nextUrl) && prevUrl == old(prevUrl)
    {
      currentFilters := defaultFilters;
      fetch := BuildUrlWithFilters(defaultFilters, None);
      currentUrl := fetch;
      currentPage := JsNumber.Finite(1.0);
    }

    /** `goToNextPage`: nothing without a next link; otherwise follow it and count one page up. */
    method GoToNextPage() returns (fetch: Option<string>)
      modifies this
      ensures !Truthy(old(nextUrl)) ==> fetch.None? && currentUrl == old(currentUrl) && currentPage == old(currentPage)
      ensures Truthy(old(nextUrl)) ==> fetch == old(nextUrl) && currentUrl == old(nextUrl).value
                                       && currentPage == Add(old(currentPage), 1)
      ensures data == old(data) && isLoading == old(isLoading) && error == old(error) && totalItems == old(totalItems)
      ensures nextUrl == old(nextUrl) && prevUrl == old(prevUrl) && currentFilters == old(currentFilters)
    {
      fetch := None;
      if Truthy(nextUrl) {
        currentUrl := nextUrl.value;
        currentPage := Add(currentPage, 1);
        fetch := nextUrl;
      }
    }

    /** `goToPrevPage`: nothing without a previous link; otherwise follow it and count one page down. */
    method GoToPrevPage() returns (fetch: Option<string>)
      modifies this
      ensures !Truthy(old(prevUrl)) ==> fetch.None? && currentUrl == old(currentUrl) && currentPage == old(currentPage)
      ensures Truthy(old(prevUrl)) ==> fetch == old(prevUrl) && currentUrl == old(prevUrl).value
                                       && currentPage == Add(old(currentPage), -1)
      ensures data == old(data) && isLoading == old(isLoading) && error == old(error) && totalItems == old(totalItems)
      ensures nextUrl == old(nextUrl) && prevUrl == old(prevUrl) && currentFilters == old(currentFilters)
    {
      fetch := None;
      if Truthy(prevUrl) {
        currentUrl := prevUrl.value;
        currentPage := Add(currentPage, -1);
        fetch := prevUrl;
      }
    }

    /** `goToPage`: the current filters at that page. */
    method GoToPage(page: int) returns (fetch: string)
      modifies this
      ensures fetch == UrlWithFilters(baseUrl, old(currentFilters), Some(page))
      ensures currentUrl == fetch && currentPage == JsNumber.Finite(page as real)
      ensures data == old(data) && isLoading == old(isLoading) && error == old(error) && totalItems == old(totalItems)
      ensures nextUrl == old(nextUrl) && prevUrl == old(prevUrl) && currentFilters == old(currentFilters)
    {
      fetch := BuildUrlWithFilters(currentFilters, Some(page));
      currentUrl := fetch;
      currentPage := JsNumber.Finite(page as real);
    }

    /** `setCurrentUrl`: remembers the URL and fetches it; the page is left as it was. */
    method SetCurrentUrl(url: string) returns (fetch: string)
      modifies this
      ensures fetch == url && currentUrl == url
      ensures currentPage == old(currentPage) && currentFilters == old(currentFilters)
      ensures data == old(data) && isLoading == old(isLoading) && error == old(error) && totalItems == old(totalItems)
      ensures nextUrl == old(nextUrl) && prevUrl == old(prevUrl)
    {
      currentUrl := url;
      fetch := url;
    }

    /** `fetchData(url)` once its response (`None`: the request failed) has arrived. */
    method FetchData(url: Option<string>, response: Option<Response<T>>, parseUrl: string -> Option<UrlHelpers.UrlParts>)
      modifies this
      ensures !isLoading
      ensures currentUrl == old(currentUrl) && currentFilters == old(currentFilters)
      ensures var fetchUrl := OrDefault(url, old(currentUrl));
              match NormalizePageUrl(fetchUrl, parseUrl)
              case None =>
                error == Some(FetchError) && data == old(data) && totalItems == old(totalItems) && currentPage == old(currentPage)
                && nextUrl == old(nextUrl) && prevUrl == old(prevUrl)
              case Some(normalized) =>
                if response.None? then
                  error == Some(FetchError) && data == old(data) && totalItems == old(totalItems) && currentPage == old(currentPage)
                  && nextUrl == old(nextUrl) && prevUrl == old(prevUrl)
                else
                  var r := response.value;
                  data == r.results && totalItems == r.count
                  && (Links(r, parseUrl).Some? ==>
                        error.None? && (nextUrl, prevUrl) == Links(r, parseUrl).value
                        && currentPage == CurrentPageOf(normalized, pageSize))
                  && (Links(r, parseUrl).None? ==>
                        error == Some(FetchError) && currentPage == old(currentPage) && prevUrl == old(prevUrl)
                        && nextUrl == NextAfterFailure(r, parseUrl, old(nextUrl)))
    {
      isLoading := true;
      error := None;
      var fetchUrl := OrDefault(url, currentUrl);
      var normalized := NormalizePageUrl(fetchUrl, parseUrl);
      if normalized.None? || response.None? {
        error := Some(FetchError);
        isLoading := false;
        return;
      }
      var r := response.value;
      data := r.results;
      totalItems := r.count;
      var linked := ApplyLinks(r, parseUrl);
      if linked {
        currentPage := CurrentPageOf(normalized.value, pageSize);
      }
      isLoading := false;
    }

    /**
     * The links part of `fetchData`: each link normalised in turn, next
     * first; `false` when normalising one throws, which leaves the error set.
     */
    method ApplyLinks(r: Response<T>, parseUrl: string -> Option<UrlHelpers.UrlParts>) returns (linked: bool)
      modifies this
      ensures linked <==> Links(r, parseUrl).Some?
      ensures linked ==> error == old(error) && (nextUrl, prevUrl) == Links(r, parseUrl).value
      ensures !linked ==> error == Some(FetchError)
      ensures !linked ==> prevUrl == old(prevUrl) && nextUrl == NextAfterFailure(r, parseUrl, old(nextUrl))
      ensures data == old(data) && totalItems == old(totalItems) && currentPage == old(currentPage)
      ensures isLoading == old(isLoading) && currentUrl == old(currentUrl) && currentFilters == old(currentFilters)
    {
      if Truthy(r.next) {
        var n := NormalizePageUrl(r.next.value, parseUrl);
        if n.None? {
          error := Some(FetchError);
          return false;
        }
        nextUrl := n;
      } else {
        nextUrl := None;
      }
      if Truthy(r.previous) {
        var p := NormalizePageUrl(r.previous.value, parseUrl);
        if p.None? {
          error := Some(FetchError);
          return false;
        }
        prevUrl := p;
      } else {
        prevUrl := None;
      }
      return true;
    }
  }

  /** The normalised next and previous links of a response; `None` when normalising one throws. */
  function Links<T>(r: Response<T>, parseUrl: string -> Option<UrlHelpers.UrlParts>): Option<(Option<string>, Option<string>)> {
    var next := if Truthy(r.next) then NormalizePageUrl(r.next.value, parseUrl) else Some("");
    var prev := if Truthy(r.previous) then NormalizePageUrl(r.previous.value, parseUrl) else Some("");
    if next.None? || prev.None? then None
    else Some((if Truthy(r.next) then next else None, if Truthy(r.previous) then prev else None))
  }

  /**
   * `nextUrl` after the links of `r` failed to normalise: the next link is
   * set before the previous one is tried, so it holds the new link when
   * that one normalised, and is left as it was when it threw.
   */
  function NextAfterFailure<T>(r: Response<T>, parseUrl: string -> Option<UrlHelpers.UrlParts>, before: Option<string>): Option<string> {
    if !Truthy(r.next) then None
    else if NormalizePageUrl(r.next.value, parseUrl).Some? then NormalizePageUrl(r.next.value, parseUrl)
    else before
  }

  /** `prev + delta` on a JavaScript number. */
  function Add(n: JsNum, delta: int): JsNum {
    match n
    case Finite(v) => JsNumber.Finite(v + delta as real)
    case _ => n
  }
}
