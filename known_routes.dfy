/** The routes of the sample extension that need neither authentication nor a license key:
    a request path is public when it starts, ignoring case, with one of three prefixes. */
module KnownRoutes {
  import opened Text

  const Health := "/health"
  const HealthV1 := "/v1/health"
  const Swagger := "/index.html"

  const PublicRoutes: seq<string> := [Health, HealthV1, Swagger]

  /** `s.StartsWith(prefix, StringComparison.InvariantCultureIgnoreCase)`, narrowed to a
      comparison of the first `|prefix|` characters of `s` with `prefix`, case folded on
      ASCII letters only; code points the invariant culture ignores are compared as they are. */
  predicate StartsWithIgnoreCase(s: string, prefix: string) {
    |prefix| <= |s| && Lower(s[..|prefix|]) == Lower(prefix)
  }

  /** `routes.Any(route => path.StartsWith(route, ...))`. */
  function AnyRouteMatches(routes: seq<string>, path: string): (r: bool)
    ensures r <==> exists k :: 0 <= k < |routes| && StartsWithIgnoreCase(path, routes[k])
  {
    if routes == [] then false
    else
      var rest := AnyRouteMatches(routes[1..], path);
      assert forall k :: 1 <= k < |routes| ==> routes[k] == routes[1..][k - 1];
      StartsWithIgnoreCase(path, routes[0]) || rest
  }

  /** `IsPublicRoute`. */
  function IsPublicRoute(path: string): (r: bool)
    ensures r <==> StartsWithIgnoreCase(path, Health) || StartsWithIgnoreCase(path, HealthV1) || StartsWithIgnoreCase(path, Swagger)
  {
    ThreeRoutes(Health, HealthV1, Swagger, path);
    AnyRouteMatches(PublicRoutes, path)
  }

  lemma ThreeRoutes(a: string, b: string, c: string, path: string)
    ensures AnyRouteMatches([a, b, c], path) <==>
              StartsWithIgnoreCase(path, a) || StartsWithIgnoreCase(path, b) || StartsWithIgnoreCase(path, c)
  {
    assert [a, b, c][1..] == [b, c];
    assert [b, c][1..] == [c];
    assert [c][1..] == [];
    assert AnyRouteMatches([c], path) == StartsWithIgnoreCase(path, c);
    assert AnyRouteMatches([b, c], path) == (StartsWithIgnoreCase(path, b) || AnyRouteMatches([c], path));
  }

  /** A prefix test against a lower-case route is a plain prefix test on the lower-cased path. */
  lemma IgnoreCaseOfLowerRoute(path: string, route: string)
    requires Lower(route) == route
    ensures StartsWithIgnoreCase(path, route) <==> StartsWith(Lower(path), route)
  {
    if |route| <= |path| {
      assert Lower(path[..|route|]) == Lower(path)[..|route|];
    }
  }

  /** The three public prefixes, spelled out. */
  lemma PublicIff(path: string)
    ensures IsPublicRoute(path) <==>
              StartsWith(Lower(path), "/health") || StartsWith(Lower(path), "/v1/health") || StartsWith(Lower(path), "/index.html")
  {
    ThreeRoutes(Health, HealthV1, Swagger, path);
    assert Lower(Health) == Health;
    assert Lower(HealthV1) == HealthV1;
    assert Lower(Swagger) == Swagger;
    IgnoreCaseOfLowerRoute(path, Health);
    IgnoreCaseOfLowerRoute(path, HealthV1);
    IgnoreCaseOfLowerRoute(path, Swagger);
  }

  /** Changing the case of ASCII letters does not change the answer. */
  lemma CaseIgnored(path: string)
    ensures IsPublicRoute(Upper(path)) == IsPublicRoute(path)
    ensures IsPublicRoute(Lower(path)) == IsPublicRoute(path)
  {
    assert Lower(Upper(path)) == Lower(path);
    assert Lower(Lower(path)) == Lower(path);
    PublicIff(path);
    PublicIff(Upper(path));
    PublicIff(Lower(path));
  }

  /** Anything after a public prefix is public too ("/healthz" as well as "/health/ready"). */
  lemma ExtensionPublic(path: string, more: string)
    requires IsPublicRoute(path)
    ensures IsPublicRoute(path + more)
  {
    var k :| 0 <= k < |PublicRoutes| && StartsWithIgnoreCase(path, PublicRoutes[k]);
    var n := |PublicRoutes[k]|;
    assert (path + more)[..n] == path[..n];
  }

  /** The empty path is not public. */
  lemma EmptyNotPublic()
    ensures !IsPublicRoute("")
  {
  }

  /** A longer word after "/health" is still public. */
  lemma HealthzPublic()
    ensures IsPublicRoute("/healthz")
  {
    PublicIff("/healthz");
    assert Lower("/healthz") == "/healthz";
  }

  /** Upper-case spellings of a public prefix are public. */
  lemma UpperCasePublic()
    ensures IsPublicRoute("/INDEX.HTML")
  {
    PublicIff("/INDEX.HTML");
    assert Lower("/INDEX.HTML") == "/index.html";
  }

  /** A versioned path other than the health endpoint is not public. */
  lemma ProcessNotPublic()
    ensures !IsPublicRoute("/v1/process")
  {
    var p := "/v1/process";
    assert Lower(p[..|Health|])[1] != Lower(Health)[1];
    assert Lower(p[..|HealthV1|])[4] != Lower(HealthV1)[4];
    assert Lower(p[..|Swagger|])[1] != Lower(Swagger)[1];
  }
}
