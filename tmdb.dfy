/** The TMDB client: the poster URL helper, the shape of the search and season requests (the
    key goes in a bearer header or in the query string, never both), the Korean-origin filter,
    and what the two lookups return on a missing key, a failed status or a thrown error. The
    HTTP call itself is a function parameter. */
module Tmdb {
  import opened Text
  import opened Wrappers

  const BaseUrl: string := "https://api.themoviedb.org/3"
  const ImageBase: string := "https://image.tmdb.org/t/p/"

  /** Keys longer than this are v4 bearer tokens; shorter ones are v3 query keys. */
  const BearerThreshold: nat := 60

  /** A search result. `posterPath` is `None` for null; `firstAirDate` is "" when absent;
      `originCountry` is `None` when absent. */
  datatype Series = Series(
    id: nat,
    name: string,
    posterPath: Option<string>,
    firstAirDate: string,
    originCountry: Option<seq<string>>,
    originalLanguage: string)

  /** A season record; only its poster is used. */
  datatype Season = Season(posterPath: Option<string>)

  // ------------------------------------------------------------------
  // Poster URLs
  // ------------------------------------------------------------------

  datatype PosterSize = W92 | W185 | W500

  const DefaultSize: PosterSize := W185

  function SizeName(size: PosterSize): string
  {
    match size
    case W92 => "w92"
    case W185 => "w185"
    case W500 => "w500"
  }

  predicate StartsWith(s: string, p: string)
  {
    |p| <= |s| && s[..|p|] == p
  }

  /** `getPosterUrl`: no URL for a null or empty path, else the image base, size and path. */
  function PosterUrl(path: Option<string>, size: PosterSize): (r: Option<string>)
    ensures r.None? <==> path.None? || path.value == []
    ensures r.Some? ==> StartsWith(r.value, ImageBase + SizeName(size))
  {
    if path.None? || path.value == [] then None else Some(ImageBase + SizeName(size) + path.value)
  }

  /** Reads a poster URL back into its size and path. */
  function SplitPosterUrl(url: string): (r: Option<(PosterSize, string)>)
    ensures r.Some? ==> r.value.1 != []
  {
    var p92 := ImageBase + SizeName(W92);
    var p185 := ImageBase + SizeName(W185);
    var p500 := ImageBase + SizeName(W500);
    if StartsWith(url, p92) && |url| > |p92| then Some((W92, url[|p92|..]))
    else if StartsWith(url, p185) && |url| > |p185| then Some((W185, url[|p185|..]))
    else if StartsWith(url, p500) && |url| > |p500| then Some((W500, url[|p500|..]))
    else None
  }

  /** The size and the path can be recovered from every URL `PosterUrl` builds, so distinct
      posters or sizes never share a URL. */
  lemma PosterUrlRoundTrip(path: string, size: PosterSize)
    requires path != []
    ensures SplitPosterUrl(PosterUrl(Some(path), size).value) == Some((size, path))
  {
    var url := ImageBase + SizeName(size) + path;
    var n := |ImageBase|;
    assert url[n + 1] == SizeName(size)[1];
    var p92 := ImageBase + SizeName(W92);
    var p185 := ImageBase + SizeName(W185);
    assert p92[n + 1] == '9' && p185[n + 1] == '1';
    if size != W92 {
      assert url[..|p92|][n + 1] != p92[n + 1];
    }
    if size == W500 {
      assert url[..|p185|][n + 1] != p185[n + 1];
    }
    var p := ImageBase + SizeName(size);
    assert url[..|p|] == p;
    assert url[|p|..] == path;
  }

  // ------------------------------------------------------------------
  // Requests
  // ------------------------------------------------------------------

  /** A request: base URL, query parameters in append order, headers in insertion order. */
  datatype Request = Request(url: string, params: seq<(string, string)>, headers: seq<(string, string)>)

  /** The first value stored under `name`, as `searchParams.get` and header lookup read it. */
  function Get(pairs: seq<(string, string)>, name: string): (r: Option<string>)
    ensures r.Some? ==> (name, r.value) in pairs
    ensures r.None? ==> forall i :: 0 <= i < |pairs| ==> pairs[i].0 != name
  {
    if pairs == [] then None
    else if pairs[0].0 == name then Some(pairs[0].1)
    else Get(pairs[1..], name)
  }

  function Names(pairs: seq<(string, string)>): (r: seq<string>)
    ensures |r| == |pairs|
    ensures forall i :: 0 <= i < |pairs| ==> r[i] == pairs[i].0
  {
    if pairs == [] then [] else [pairs[0].0] + Names(pairs[1..])
  }

  predicate IsBearer(key: string)
  {
    |key| > BearerThreshold
  }

  /** A key that is absent or empty counts as missing (`!TMDB_API_KEY`). */
  predicate HasKey(key: Option<string>)
  {
    key.Some? && key.value != []
  }

  /** The request `searchSeries` sends for `query`. */
  function SearchRequest(key: string, query: string): Request
  {
    Request(
      BaseUrl + "/search/tv",
      (if IsBearer(key) then [] else [("api_key", key)])
        + [("query", query), ("language", "en-US"), ("page", "1")],
      [("Content-Type", "application/json")]
        + (if IsBearer(key) then [("Authorization", "Bearer " + key)] else []))
  }

  /** The request `getSeasonDetails` sends for one season of one series. */
  function SeasonRequest(key: string, seriesId: nat, seasonNumber: nat): Request
  {
    Request(
      BaseUrl + "/tv/" + Decimal(seriesId) + "/season/" + Decimal(seasonNumber),
      (if IsBearer(key) then [] else [("api_key", key)]) + [("language", "en-US")],
      [("Content-Type", "application/json")]
        + (if IsBearer(key) then [("Authorization", "Bearer " + key)] else []))
  }

  /** A long key travels only as a bearer header, a short one only as the `api_key`
      parameter; the content type is always JSON. */
  lemma KeyPlacement(key: string, query: string, seriesId: nat, seasonNumber: nat)
    ensures var reqs := [SearchRequest(key, query), SeasonRequest(key, seriesId, seasonNumber)];
      forall k :: 0 <= k < 2 ==>
        Get(reqs[k].headers, "Authorization") == (if IsBearer(key) then Some("Bearer " + key) else None)
        && Get(reqs[k].params, "api_key") == (if IsBearer(key) then None else Some(key))
        && Get(reqs[k].headers, "Content-Type") == Some("application/json")
  {
    var s := SearchRequest(key, query);
    var t := SeasonRequest(key, seriesId, seasonNumber);
    if IsBearer(key) {
      assert s.headers[1] == ("Authorization", "Bearer " + key);
      assert t.headers[1] == ("Authorization", "Bearer " + key);
    }
  }

  /** The search parameters are `query`, `language=en-US` and `page=1`, in that order, after
      the optional `api_key`. */
  lemma SearchParams(key: string, query: string)
    ensures var ps := SearchRequest(key, query).params;
      Names(ps) == (if IsBearer(key) then [] else ["api_key"]) + ["query", "language", "page"]
      && Get(ps, "query") == Some(query) && Get(ps, "language") == Some("en-US")
      && Get(ps, "page") == Some("1")
  {
    var ps := SearchRequest(key, query).params;
    var tail := [("query", query), ("language", "en-US"), ("page", "1")];
    assert tail[1..][1..] == [("page", "1")];
    assert Get(tail[1..], "page") == Get(tail[1..][1..], "page") == Some("1");
    assert Get(tail, "query") == Some(query);
    assert Get(tail, "language") == Some("en-US");
    assert Get(tail, "page") == Some("1");
    var names := ["query", "language", "page"];
    assert Names(tail) == names;
    if IsBearer(key) {
      assert ps == tail;
    } else {
      assert ps == [("api_key", key)] + tail;
      assert ps[1..] == tail;
      assert Names(ps) == ["api_key"] + names;
    }
  }

  /** Builds the search request the way `searchSeries` does, header by header and parameter
      by parameter. */
  method BuildSearchRequest(key: string, query: string) returns (req: Request)
    ensures req == SearchRequest(key, query)
  {
    var bearer := |key| > BearerThreshold;
    var headers := [("Content-Type", "application/json")];
    if bearer {
      headers := headers + [("Authorization", "Bearer " + key)];
    }
    var params: seq<(string, string)> := [];
    if !bearer {
      params := params + [("api_key", key)];
    }
    params := params + [("query", query)];
    params := params + [("language", "en-US")];
    params := params + [("page", "1")];
    req := Request(BaseUrl + "/search/tv", params, headers);
  }

  /** Builds the season request the way `getSeasonDetails` does. */
  method BuildSeasonRequest(key: string, seriesId: nat, seasonNumber: nat) returns (req: Request)
    ensures req == SeasonRequest(key, seriesId, seasonNumber)
  {
    var bearer := |key| > BearerThreshold;
    var params: seq<(string, string)> := [];
    if !bearer {
      params := params + [("api_key", key)];
    }
    params := params + [("language", "en-US")];
    var headers := [("Content-Type", "application/json")];
    if bearer {
      headers := headers + [("Authorization", "Bearer " + key)];
    }
    req := Request(BaseUrl + "/tv/" + Decimal(seriesId) + "/season/" + Decimal(seasonNumber), params, headers);
  }

  // ------------------------------------------------------------------
  // Responses
  // ------------------------------------------------------------------

  /** What `fetch` followed by `json()` gives: a thrown error, or a status and a body. */
  datatype Response<T> = Threw | Responded(ok: bool, body: T)

  /** The search filter: a series is Korean by origin country or by original language. */
  predicate IsKorean(s: Series)
  {
    (s.originCountry.Some? && "KR" in s.originCountry.value) || s.originalLanguage == "ko"
  }

  function KoreanOnly(results: seq<Series>): (r: seq<Series>)
    ensures |r| <= |results|
    ensures forall i :: 0 <= i < |r| ==> IsKorean(r[i])
  {
    if results == [] then []
    else (if IsKorean(results[0]) then [results[0]] else []) + KoreanOnly(results[1..])
  }

  /** The filter keeps exactly the Korean results. */
  lemma {:induction false} KoreanOnlyMembers(results: seq<Series>, x: Series)
    ensures x in KoreanOnly(results) <==> x in results && IsKorean(x)
  {
    if results != [] {
      KoreanOnlyMembers(results[1..], x);
      assert results == [results[0]] + results[1..];
    }
  }

  /** The filter keeps relative order: it distributes over concatenation. */
  lemma {:induction false} KoreanOnlyAppend(a: seq<Series>, b: seq<Series>)
    ensures KoreanOnly(a + b) == KoreanOnly(a) + KoreanOnly(b)
  {
    if a == [] {
      assert a + b == b;
    } else {
      assert (a + b)[0] == a[0];
      assert (a + b)[1..] == a[1..] + b;
      KoreanOnlyAppend(a[1..], b);
    }
  }

  /** A list of Korean series passes the filter unchanged (so the filter is idempotent). */
  lemma {:induction false} KoreanOnlyKeepsKorean(results: seq<Series>)
    requires forall i :: 0 <= i < |results| ==> IsKorean(results[i])
    ensures KoreanOnly(results) == results
  {
    if results != [] {
      KoreanOnlyKeepsKorean(results[1..]);
    }
  }

  /** The list `searchSeries` returns for a response: `[]` on a thrown error or a failed
      status, otherwise the Korean part of `results` (absent `results` counting as `[]`). */
  function SearchOutcome(resp: Response<Option<seq<Series>>>): (r: seq<Series>)
    ensures resp.Threw? || !resp.ok || resp.body.None? ==> r == []
    ensures resp.Responded? && resp.ok && resp.body.Some? ==> r == KoreanOnly(resp.body.value)
    ensures forall i :: 0 <= i < |r| ==> IsKorean(r[i]) && r[i] in resp.body.value
  {
    match resp
    case Threw => []
    case Responded(ok, body) =>
      if !ok || body.None? then []
      else
        var r := KoreanOnly(body.value);
        assert forall i :: 0 <= i < |r| ==> r[i] in body.value by {
          forall i | 0 <= i < |r| {
            KoreanOnlyMembers(body.value, r[i]);
          }
        }
        r
  }

  /** `searchSeries`: a missing key throws (`Err`); otherwise the request is built, sent, and
      the response read as `SearchOutcome` says. */
  method SearchSeries(key: Option<string>, query: string, fetch: Request -> Response<Option<seq<Series>>>)
    returns (r: Result<seq<Series>, string>)
    ensures r.Err? <==> !HasKey(key)
    ensures r.Ok? ==> r.value == SearchOutcome(fetch(SearchRequest(key.value, query)))
  {
    if key.None? || key.value == [] {
      return Err("TMDB_API_KEY is not defined");
    }
    var req := BuildSearchRequest(key.value, query);
    var resp := fetch(req);
    if resp.Threw? || !resp.ok {
      return Ok([]);
    }
    var results := if resp.body.Some? then resp.body.value else [];
    var korean := KoreanOnly(results);
    return Ok(korean);
  }

  /** The season `getSeasonDetails` returns for a response: nothing on a thrown error or a
      failed status, otherwise the body. */
  function SeasonOutcome(resp: Response<Option<Season>>): (r: Option<Season>)
    ensures resp.Threw? || !resp.ok ==> r == None
    ensures resp.Responded? && resp.ok ==> r == resp.body
  {
    if resp.Threw? || !resp.ok then None else resp.body
  }

  /** `getSeasonDetails`: a missing key gives `None` without a request (unlike the search,
      which throws); otherwise the request is built, sent and read as `SeasonOutcome` says. */
  method GetSeasonDetails(key: Option<string>, seriesId: nat, seasonNumber: nat,
                          fetch: Request -> Response<Option<Season>>)
    returns (r: Option<Season>)
    ensures !HasKey(key) ==> r == None
    ensures HasKey(key) ==> r == SeasonOutcome(fetch(SeasonRequest(key.value, seriesId, seasonNumber)))
  {
    if key.None? || key.value == [] {
      return None;
    }
    var req := BuildSeasonRequest(key.value, seriesId, seasonNumber);
    var resp := fetch(req);
    if resp.Threw? || !resp.ok {
      return None;
    }
    return resp.body;
  }
}
