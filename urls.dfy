/**
 * UrlGenerator: the "back" link built from the Referer header, and the
 * rewriting of a URL's query string. App\Service\Tools\UrlGenerator and the
 * older App\Service\UrlGenerator share the rewriting; only the former sends
 * a referer pointing at the site root to the home route.
 */
module Urls {
  import opened Base
  import opened OrderedMap
  import opened Text

  /** What `parse_url` finds in a URL; each part is null when absent. */
  datatype UrlParts = UrlParts(path: Option<string>, query: Option<string>, fragment: Option<string>)

  /**
   * The PHP library functions the rewriting relies on: `parse_url` (None
   * when it answers false for a malformed URL), `parse_str` and
   * `http_build_query`.
   */
  datatype UrlCodec = UrlCodec(
    parse: string -> Option<UrlParts>,
    parseQuery: string -> OMap<string, string>,
    buildQuery: OMap<string, string> -> string)

  /** `$router->generate($route, $params)`. */
  datatype Router = Router(generate: (string, OMap<string, string>) -> string)

  /** The current request as generateBackurl reads it: the Referer header and `getSchemeAndHttpHost()`. */
  datatype BackRequest = BackRequest(referer: Option<string>, host: string)

  const HomeRoute: string := "app_home"
  /** The fallbackRoute callers pass when they have no other: the default of generateBackurl. */
  const SetupRoute: string := "app_setup"
  const DefaultSkipPaths: seq<string> := ["/", "/working-progress"]

  // ---------------------------------------------------------------- the query parameters

  /** `foreach ($removeKeys as $k) unset($queryParams[$k]);` */
  function RemoveAll(p: OMap<string, string>, keys: seq<string>): OMap<string, string>
    decreases |keys|
  {
    if keys == [] then p else RemoveAll(Remove(p, keys[0]), keys[1..])
  }

  /** One override: null unsets the key, anything else assigns it. */
  function Override(p: OMap<string, string>, k: string, v: Option<string>): OMap<string, string> {
    if v.None? then Remove(p, k) else Put(p, k, v.value)
  }

  /** `foreach ($overrides as $k => $v)`, in the order of the overrides. */
  function ApplyOverrides(p: OMap<string, string>, overrides: OMap<string, Option<string>>): OMap<string, string>
    decreases |overrides|
  {
    if overrides == [] then p else ApplyOverrides(Override(p, overrides[0].0, overrides[0].1), overrides[1..])
  }

  /** The removals first, then the overrides. */
  function RewriteParams(p: OMap<string, string>, removeKeys: seq<string>, overrides: OMap<string, Option<string>>): OMap<string, string> {
    ApplyOverrides(RemoveAll(p, removeKeys), overrides)
  }

  /** `$query !== '' ? parse_str($query) : []`. */
  function QueryParams(c: UrlCodec, query: string): OMap<string, string> {
    if query != "" then c.parseQuery(query) else []
  }

  /** The rewritten URL: the path, '?' and the rebuilt query when it is non-empty, '#' and a non-empty fragment. */
  function Assemble(path: string, query: string, fragment: string): string {
    path + (if query != "" then "?" + query else "") + (if fragment != "" then "#" + fragment else "")
  }

  /**
   * rewriteQueryParams. A malformed URL (parse_url answers false) has path
   * and query false: the path is then never a skip path and prints as "",
   * the query parses to [], and the fragment, false rather than null, adds
   * a lone '#'.
   */
  function RewriteSpec(c: UrlCodec, url: string, overrides: OMap<string, Option<string>>, removeKeys: seq<string>, skipPaths: seq<string>)
    : string
  {
    match c.parse(url)
    case None =>
      Assemble("", c.buildQuery(RewriteParams([], removeKeys, overrides)), "") + "#"
    case Some(parts) =>
      var path := parts.path.GetOr("/");
      if path in skipPaths then url
      else
        var q := c.buildQuery(RewriteParams(QueryParams(c, parts.query.GetOr("")), removeKeys, overrides));
        Assemble(path, q, parts.fragment.GetOr(""))
  }

  // ---------------------------------------------------------------- the back link

  /** The referer points at the root: `parse_url($referer, PHP_URL_PATH)` is '/' or ''. */
  predicate RootPath(c: UrlCodec, referer: string) {
    c.parse(referer).Some? && (c.parse(referer).value.path == Some("/") || c.parse(referer).value.path == Some(""))
  }

  /** generateBackurl; rootRule is the Tools version's redirection of the root to the home route. */
  function BackUrlSpec(c: UrlCodec, router: Router, req: Option<BackRequest>, fallbackRoute: string,
                       fallbackParams: OMap<string, string>, sameHostOnly: bool, rootRule: bool): string
  {
    var fallback := router.generate(fallbackRoute, fallbackParams);
    if req.None? then fallback
    else
      var referer := req.value.referer.GetOr("");
      if referer == "" then fallback
      else if sameHostOnly && (req.value.host == "" || !StartsWith(referer, req.value.host)) then fallback
      else if rootRule && RootPath(c, referer) then router.generate(HomeRoute, [])
      else referer
  }

  class UrlGenerator {
    const request: Option<BackRequest>
    const router: Router
    const codec: UrlCodec
    /** true for App\Service\Tools\UrlGenerator, false for App\Service\UrlGenerator. */
    const rootRule: bool

    constructor (request: Option<BackRequest>, router: Router, codec: UrlCodec, rootRule: bool)
      ensures this.request == request && this.router == router && this.codec == codec && this.rootRule == rootRule
    {
      this.request := request;
      this.router := router;
      this.codec := codec;
      this.rootRule := rootRule;
    }

    /**
     * The back link is the fallback route, the home route, or a referer; with
     * sameHostOnly a referer is answered only when it starts with the
     * request's non-empty scheme and host.
     */
    function GenerateBackurl(fallbackRoute: string, fallbackParams: OMap<string, string>, sameHostOnly: bool): (r: string)
      ensures r == router.generate(fallbackRoute, fallbackParams)
        || (rootRule && r == router.generate(HomeRoute, []))
        || (request.Some? && request.value.referer == Some(r) && r != "")
      ensures sameHostOnly && request.Some? && request.value.referer == Some(r)
        && r != router.generate(fallbackRoute, fallbackParams) && !(rootRule && r == router.generate(HomeRoute, []))
        ==> request.value.host != "" && StartsWith(r, request.value.host)
      ensures request.None? || request.value.referer.GetOr("") == "" ==> r == router.generate(fallbackRoute, fallbackParams)
      ensures request.Some? && sameHostOnly && request.value.referer.GetOr("") != ""
        && (request.value.host == "" || !StartsWith(request.value.referer.GetOr(""), request.value.host))
        ==> r == router.generate(fallbackRoute, fallbackParams)
      ensures RefererAccepted(request, sameHostOnly)
        ==> r == if rootRule && RootPath(codec, request.value.referer.GetOr("")) then router.generate(HomeRoute, [])
                 else request.value.referer.GetOr("")
    {
      BackUrlSpec(codec, router, request, fallbackRoute, fallbackParams, sameHostOnly, rootRule)
    }

    method RewriteQueryParams(url: string, overrides: OMap<string, Option<string>>, removeKeys: seq<string>, skipPaths: seq<string>)
      returns (r: string)
      ensures r == RewriteSpec(codec, url, overrides, removeKeys, skipPaths)
    {
      var parts := codec.parse(url);
      var path := "";
      var query := "";
      var fragment := "";
      if parts.Some? {
        path := parts.value.path.GetOr("/");
        if path in skipPaths {
          return url;
        }
        query := parts.value.query.GetOr("");
        fragment := parts.value.fragment.GetOr("");
      }
      var params := QueryParams(codec, query);
      var i := 0;
      while i < |removeKeys|
        invariant 0 <= i <= |removeKeys|
        invariant RemoveAll(QueryParams(codec, query), removeKeys) == RemoveAll(params, removeKeys[i..])
      {
        assert removeKeys[i..][0] == removeKeys[i] && removeKeys[i..][1..] == removeKeys[i + 1..];
        params := Remove(params, removeKeys[i]);
        i := i + 1;
      }
      var j := 0;
      while j < |overrides|
        invariant 0 <= j <= |overrides|
        invariant RewriteParams(QueryParams(codec, query), removeKeys, overrides) == ApplyOverrides(params, overrides[j..])
      {
        assert overrides[j..][0] == overrides[j] && overrides[j..][1..] == overrides[j + 1..];
        var (k, v) := overrides[j];
        if v.None? {
          params := Remove(params, k);
        } else {
          params := Put(params, k, v.value);
        }
        j := j + 1;
      }
      var newQuery := codec.buildQuery(params);
      r := Assemble(path, newQuery, fragment);
      if parts.None? {
        r := r + "#";
      }
    }
  }

  // ---------------------------------------------------------------- what the rewriting does to each key

  lemma {:induction false} RemoveAllGet(p: OMap<string, string>, keys: seq<string>, k: string)
    ensures Get(RemoveAll(p, keys), k) == if k in keys then None else Get(p, k)
    decreases |keys|
  {
    if keys != [] {
      GetRemove(p, keys[0], k);
      RemoveAllGet(Remove(p, keys[0]), keys[1..], k);
      assert k in keys <==> k == keys[0] || k in keys[1..];
    }
  }

  /** With one override per key (as in a PHP array), each key ends as its override says, or as it was. */
  lemma {:induction false} ApplyOverridesGet(p: OMap<string, string>, overrides: OMap<string, Option<string>>, k: string)
    requires UniqueKeys(overrides)
    ensures Get(ApplyOverrides(p, overrides), k)
      == match Get(overrides, k)
         case Some(v) => v
         case None => Get(p, k)
    decreases |overrides|
  {
    if overrides != [] {
      var (k0, v0) := overrides[0];
      var tail := overrides[1..];
      assert UniqueKeys(tail) by {
        forall i, j | 0 <= i < j < |tail| ensures tail[i].0 != tail[j].0 {
          assert tail[i] == overrides[i + 1] && tail[j] == overrides[j + 1];
        }
      }
      if k == k0 {
        assert !HasKey(tail, k) by {
          forall i | 0 <= i < |tail| ensures tail[i].0 != k {
            assert tail[i] == overrides[i + 1];
          }
        }
      }
      if v0.None? { GetRemove(p, k0, k); } else { GetPut(p, k0, v0.value, k); }
      ApplyOverridesGet(Override(p, k0, v0), tail, k);
    }
  }

  /**
   * After the rewriting, an overridden key holds its override (or is gone
   * when that is null), a removed key is gone, and every other key keeps
   * its value.
   */
  lemma RewriteParamsGet(p: OMap<string, string>, removeKeys: seq<string>, overrides: OMap<string, Option<string>>, k: string)
    requires UniqueKeys(overrides)
    ensures Get(RewriteParams(p, removeKeys, overrides), k)
      == match Get(overrides, k)
         case Some(v) => v
         case None => if k in removeKeys then None else Get(p, k)
  {
    ApplyOverridesGet(RemoveAll(p, removeKeys), overrides, k);
    RemoveAllGet(p, removeKeys, k);
  }

  lemma {:induction false} RemoveAllUnique(p: OMap<string, string>, keys: seq<string>)
    requires UniqueKeys(p)
    ensures UniqueKeys(RemoveAll(p, keys))
    decreases |keys|
  {
    if keys != [] {
      RemoveUnique(p, keys[0]);
      RemoveAllUnique(Remove(p, keys[0]), keys[1..]);
    }
  }

  lemma {:induction false} ApplyOverridesUnique(p: OMap<string, string>, overrides: OMap<string, Option<string>>)
    requires UniqueKeys(p)
    ensures UniqueKeys(ApplyOverrides(p, overrides))
    decreases |overrides|
  {
    if overrides != [] {
      var (k0, v0) := overrides[0];
      if v0.None? { RemoveUnique(p, k0); } else { PutUnique(p, k0, v0.value); }
      ApplyOverridesUnique(Override(p, k0, v0), overrides[1..]);
    }
  }

  /** The rewritten parameters are still a PHP array: no key twice. */
  lemma RewriteParamsUnique(p: OMap<string, string>, removeKeys: seq<string>, overrides: OMap<string, Option<string>>)
    requires UniqueKeys(p)
    ensures UniqueKeys(RewriteParams(p, removeKeys, overrides))
  {
    RemoveAllUnique(p, removeKeys);
    ApplyOverridesUnique(RemoveAll(p, removeKeys), overrides);
  }

  // ---------------------------------------------------------------- the rewritten URL

  /** A URL on a skipped path comes back unchanged; one without a path counts as '/', skipped by default. */
  lemma SkippedPathsAreUntouched(c: UrlCodec, url: string, overrides: OMap<string, Option<string>>, removeKeys: seq<string>, skipPaths: seq<string>)
    ensures c.parse(url).Some? && c.parse(url).value.path.GetOr("/") in skipPaths
      ==> RewriteSpec(c, url, overrides, removeKeys, skipPaths) == url
    ensures c.parse(url).Some? && c.parse(url).value.path.None?
      ==> RewriteSpec(c, url, overrides, removeKeys, DefaultSkipPaths) == url
  {
  }

  /**
   * Outside the skipped paths the rewritten URL starts with the path, is
   * followed by '?' only when the rebuilt query is non-empty, and ends with
   * '#' and the fragment only when there is a non-empty one.
   */
  lemma RewriteKeepsPathAndFragment(c: UrlCodec, url: string, overrides: OMap<string, Option<string>>, removeKeys: seq<string>, skipPaths: seq<string>)
    requires c.parse(url).Some? && c.parse(url).value.path.GetOr("/") !in skipPaths
    ensures var parts := c.parse(url).value;
      var r := RewriteSpec(c, url, overrides, removeKeys, skipPaths);
      var path := parts.path.GetOr("/");
      var frag := parts.fragment.GetOr("");
      var q := c.buildQuery(RewriteParams(QueryParams(c, parts.query.GetOr("")), removeKeys, overrides));
      StartsWith(r, path)
      && (frag != "" ==> |frag| < |r| && r[|r| - |frag| - 1..] == "#" + frag)
      && (q == "" && frag == "" ==> r == path)
      && (q == "" && frag != "" ==> r == path + "#" + frag)
      && (q != "" && frag == "" ==> r == path + "?" + q)
      && (q != "" ==> |path| < |r| && r[|path|] == '?')
  {
    var parts := c.parse(url).value;
    var path := parts.path.GetOr("/");
    var frag := parts.fragment.GetOr("");
    var q := c.buildQuery(RewriteParams(QueryParams(c, parts.query.GetOr("")), removeKeys, overrides));
    var mid := if q != "" then "?" + q else "";
    var tailPart := if frag != "" then "#" + frag else "";
    var r := path + mid + tailPart;
    assert r[..|path|] == path;
    assert r == (path + mid) + tailPart;
  }

  /** A URL parse_url rejects comes back as its rebuilt query followed by a lone '#', whatever its path. */
  lemma MalformedUrlEndsWithHash(c: UrlCodec, url: string, overrides: OMap<string, Option<string>>, removeKeys: seq<string>, skipPaths: seq<string>)
    requires c.parse(url).None?
    ensures var r := RewriteSpec(c, url, overrides, removeKeys, skipPaths);
      var q := c.buildQuery(RewriteParams([], removeKeys, overrides));
      r == (if q == "" then "#" else "?" + q + "#")
  {
  }

  // ---------------------------------------------------------------- the two back links

  /** The referer passes the emptiness and, with sameHostOnly, the same-host checks. */
  predicate RefererAccepted(req: Option<BackRequest>, sameHostOnly: bool) {
    req.Some? && req.value.referer.GetOr("") != ""
    && (sameHostOnly ==> req.value.host != "" && StartsWith(req.value.referer.GetOr(""), req.value.host))
  }

  /**
   * The two generations differ only on a referer that passes the checks and
   * points at the root: the Tools version answers the home route, the older
   * one the referer itself. Conversely, on every such referer the Tools
   * version answers the home route and the older one the referer, so they
   * differ unless the referer is the home route's own URL.
   */
  lemma BackUrlGenerationsDiffer(c: UrlCodec, router: Router, req: Option<BackRequest>, fallbackRoute: string,
                                 fallbackParams: OMap<string, string>, sameHostOnly: bool)
    ensures var tools := BackUrlSpec(c, router, req, fallbackRoute, fallbackParams, sameHostOnly, true);
      var legacy := BackUrlSpec(c, router, req, fallbackRoute, fallbackParams, sameHostOnly, false);
      tools != legacy ==>
        req.Some? && req.value.referer.Some? && legacy == req.value.referer.value && RootPath(c, legacy)
        && tools == router.generate(HomeRoute, [])
    ensures var tools := BackUrlSpec(c, router, req, fallbackRoute, fallbackParams, sameHostOnly, true);
      var legacy := BackUrlSpec(c, router, req, fallbackRoute, fallbackParams, sameHostOnly, false);
      RefererAccepted(req, sameHostOnly) && RootPath(c, req.value.referer.GetOr("")) ==>
        tools == router.generate(HomeRoute, []) && legacy == req.value.referer.GetOr("")
        && (tools != legacy <==> req.value.referer.GetOr("") != router.generate(HomeRoute, []))
  {
  }

  /** A same-host referer that is not the root is the back link, in both generations. */
  lemma SameHostRefererIsKept(c: UrlCodec, router: Router, host: string, referer: string, fallbackRoute: string,
                              fallbackParams: OMap<string, string>, rootRule: bool)
    requires host != "" && StartsWith(referer, host) && !RootPath(c, referer)
    ensures BackUrlSpec(c, router, Some(BackRequest(Some(referer), host)), fallbackRoute, fallbackParams, true, rootRule) == referer
  {
  }
}
