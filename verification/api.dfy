/** Where the frontend sends its requests. */
module Api {
  import Text

  /** The proxy location the frontend is deployed with: a same-origin path. */
  const ApiBase: string := "/api/proxy"

  /** `replace(/\/$/, "")`: removes one slash at the very end, if there is one. */
  function StripTrailingSlash(s: string): (r: string)
    ensures r == s || r + "/" == s
    ensures r == s <==> (s == [] || s[|s| - 1] != '/')
  {
    if s != [] && s[|s| - 1] == '/' then s[..|s| - 1] else s
  }

  /** An absolute (`http...`) or protocol-relative (`//...`) base is used as it is. */
  predicate IsAbsolute(base: string) {
    Text.StartsWith(base, "http") || Text.StartsWith(base, "//")
  }

  /** The base resolved against the page's origin when it is relative: the origin, then a
      path that starts with exactly the one slash the base has or is given. */
  function Resolve(base: string, origin: string): (r: string)
    ensures IsAbsolute(base) ==> r == base
    ensures !IsAbsolute(base) ==>
              && Text.StartsWith(r, origin)
              && var path := r[|origin|..];
                 && path != [] && path[0] == '/'
                 && (if Text.StartsWith(base, "/") then path == base else path == "/" + base)
  {
    if IsAbsolute(base) then base
    else origin + (if Text.StartsWith(base, "/") then "" else "/") + base
  }

  /** `getApiUrl`, with `window.location.origin` passed in: the resolved base without its
      trailing slash. A relative base always stays under the origin. */
  function GetApiUrl(base: string, origin: string): (r: string)
    ensures var u := Resolve(base, origin);
            if u != [] && u[|u| - 1] == '/' then r + "/" == u else r == u
    ensures !IsAbsolute(base) ==> Text.StartsWith(r, origin)
  {
    var u := Resolve(base, origin);
    assert !IsAbsolute(base) ==> |u| > |origin|;
    StripTrailingSlash(u)
  }

  /** Resolving a relative base inserts exactly one slash between origin and path, and leaves a
      base without a trailing slash otherwise untouched. */
  lemma RelativeBaseJoin(base: string, origin: string)
    requires !IsAbsolute(base) && base != [] && base[|base| - 1] != '/'
    ensures Text.StartsWith(base, "/") ==> GetApiUrl(base, origin) == origin + base
    ensures !Text.StartsWith(base, "/") ==> GetApiUrl(base, origin) == origin + "/" + base
  {
    if Text.StartsWith(base, "/") {
      assert origin + "" + base == origin + base;
    }
  }

  /** With the deployed base the requests go to `<origin>/api/proxy`. */
  lemma DeployedUrl(origin: string)
    ensures GetApiUrl(ApiBase, origin) == origin + "/api/proxy"
  {
    assert !Text.StartsWith(ApiBase, "http") by { assert ApiBase[0] != 'h'; }
    assert !Text.StartsWith(ApiBase, "//") by { assert ApiBase[1] != '/'; }
    RelativeBaseJoin(ApiBase, origin);
  }
}
