/** The routing decisions of
    be/apps/core/src/modules/infrastructure/static-web/static-web.controller.ts:
    which asset service answers a path, how legacy dashboard paths are
    rewritten, which paths count as HTML routes, and the ladder that picks
    between the tenant-restricted page (403), the tenant-missing page (404)
    and the served asset for each route handler.

    The tenant context, the reserved-slug predicate, the root tenant slug and
    the asset services themselves live outside the controller; they are
    parameters here, gathered in `Env`. */
module StaticWeb {
  import opened Common
  import StaticDashboard

  /** The two asset services the controller can hand a request to. */
  datatype Service = WebService | DashboardService

  const LegacyDashboardPrefix: string := "/static/dashboard"
  const TenantMissingEntryPath: string := StaticDashboard.Basename + "/tenant-missing.html"
  const TenantRestrictedEntryPath: string := StaticDashboard.Basename + "/tenant-restricted.html"
  const WelcomePath: string := StaticDashboard.Basename + "/welcome"

  /** An HTTP response: status, body (None for a HEAD-only response) and
      headers. */
  datatype Response = Response(status: int, body: Option<string>, headers: seq<(string, string)>)

  /** The tenant context of the current request. `placeholder` is what
      `isPlaceholderTenantContext` answers for it. */
  datatype TenantContext = TenantContext(tenantSlug: Option<string>, requestedSlug: Option<string>, placeholder: bool)

  /** `StaticAssetService.handleRequest(path, headOnly, requestHost)`:
      None when the service has nothing to serve. */
  type AssetHandler = (Service, string, bool, Option<string>) -> Option<Response>

  /** Everything the controller reads from outside itself. */
  datatype Env = Env(
    tenant: Option<TenantContext>,
    rootSlug: string,
    isSlugReserved: string -> bool,
    assets: AssetHandler)

  /** The parts of an incoming request the controller looks at. `urlHost`
      is the host of `new URL(req.url)`, None when the URL does not parse. */
  datatype Request = Request(path: string, forwardedHost: Option<string>, host: Option<string>, urlHost: Option<string>)

  // ---------------------------------------------------------------------
  // Path classification
  // ---------------------------------------------------------------------

  /** The dashboard's own prefix as a whole path segment: "/platform" or
      "/platform/...", but not "/platformx". */
  function IsDashboardBasename(path: string): (r: bool)
    ensures r <==> StaticDashboard.Basename <= path &&
                   (|path| == |StaticDashboard.Basename| || path[|StaticDashboard.Basename|] == '/')
  {
    path == StaticDashboard.Basename || StartsWith(path, StaticDashboard.Basename + "/")
  }

  /** The legacy "/static/dashboard" prefix as a whole path segment. */
  function IsLegacyDashboardPath(path: string): (r: bool)
    ensures r <==> LegacyDashboardPrefix <= path &&
                   (|path| == |LegacyDashboardPrefix| || path[|LegacyDashboardPrefix|] == '/')
  {
    path == LegacyDashboardPrefix || StartsWith(path, LegacyDashboardPrefix + "/")
  }

  predicate IsDashboardPath(path: string) {
    IsDashboardBasename(path) || IsLegacyDashboardPath(path)
  }

  /** The two dashboard prefixes are disjoint. */
  lemma BasenameIsNotLegacy(path: string)
    requires IsDashboardBasename(path)
    ensures !IsLegacyDashboardPath(path)
  {
    assert |path| >= 9 && path[1] == 'p' by {
      if path != StaticDashboard.Basename {
        assert path[..10] == StaticDashboard.Basename + "/";
      }
    }
  }

  /** A path that is `base` itself or lies below it as a path segment. */
  predicate UnderSegment(path: string, base: string) {
    path == base || (|path| > |base| && path[..|base|] == base && path[|base|] == '/')
  }

  /** `resolveService`: the dashboard service answers exactly the paths at
      or below "/platform" or the legacy "/static/dashboard". */
  function ResolveService(path: string): (r: Service)
    ensures r == DashboardService <==> UnderSegment(path, "/platform") || UnderSegment(path, "/static/dashboard")
  {
    assert StartsWith(path, StaticDashboard.Basename + "/") <==> UnderSegment(path, "/platform") && path != "/platform" by {
      if |path| > 9 && path[..9] == "/platform" && path[9] == '/' {
        assert path[..10] == path[..9] + [path[9]];
      }
    }
    assert StartsWith(path, LegacyDashboardPrefix + "/") <==> UnderSegment(path, "/static/dashboard") && path != "/static/dashboard" by {
      if |path| > 17 && path[..17] == "/static/dashboard" && path[17] == '/' {
        assert path[..18] == path[..17] + [path[17]];
      }
    }
    if IsDashboardPath(path) then DashboardService else WebService
  }

  /** A path that merely starts with the basename letters is not a
      dashboard path. */
  lemma PlatformPrefixIsNotDashboard()
    ensures ResolveService("/platformx") == WebService
    ensures ResolveService("/platform") == DashboardService
    ensures ResolveService("/static/dashboard/assets/app.js") == DashboardService
  {
  }

  /** `normalizeRequestPath`: for the dashboard service, a legacy path has
      its "/static/dashboard" prefix replaced by the basename; every other
      path, and every path for the web service, is passed on unchanged. */
  function NormalizeRequestPath(path: string, service: Service): (r: string)
    ensures service == WebService ==> r == path
    ensures !IsLegacyDashboardPath(path) ==> r == path
    ensures service == DashboardService && IsLegacyDashboardPath(path) ==>
              IsDashboardBasename(r) && r == StaticDashboard.Basename + path[|LegacyDashboardPrefix|..]
  {
    if service != DashboardService then path
    else if IsDashboardBasename(path) then
      BasenameIsNotLegacy(path);
      path
    else if IsLegacyDashboardPath(path) then
      var r := StaticDashboard.Basename + path[|LegacyDashboardPrefix|..];
      assert path != LegacyDashboardPrefix ==> r[..|StaticDashboard.Basename| + 1] == StaticDashboard.Basename + "/" by {
        if path != LegacyDashboardPrefix {
          assert path[|LegacyDashboardPrefix|] == '/';
        }
      }
      r
    else path
  }

  /** Every path routed to the dashboard reaches the dashboard service in
      basename form. */
  lemma DashboardPathsReachBasename(path: string)
    requires ResolveService(path) == DashboardService
    ensures IsDashboardBasename(NormalizeRequestPath(path, ResolveService(path)))
  {
  }

  /** `isHtmlRoute`: a path is an HTML route unless its last segment (query
      stripped, trimmed) names a file with an extension other than ".html". */
  function IsHtmlRoute(path: string): (r: bool)
    ensures path == "" ==> r
    ensures EndsWith(Trim(BeforeFirst(path, '?')), "/") ==> r
    ensures !r <==> var last := AfterLast(Trim(BeforeFirst(path, '?')), '/');
                    '.' in last && !EndsWith(last, ".html")
  {
    var normalized := Trim(BeforeFirst(path, '?'));
    var last := AfterLast(normalized, '/');
    if path == "" then true
    else if normalized == "" || normalized == "/" || EndsWith(normalized, "/") then true
    else if last == "" then true
    else if EndsWith(last, ".html") then true
    else '.' !in last
  }

  /** A path with no '?' is its own text before the first '?'. */
  lemma BeforeFirstAbsent(s: string, c: char)
    requires c !in s
    ensures BeforeFirst(s, c) == s
  {
  }

  /** The last segment `isHtmlRoute` inspects for a clean path. */
  lemma LastSegment(dir: string, segment: string)
    requires dir != [] && dir[0] == '/'
    requires segment != [] && !IsSpace(segment[|segment| - 1])
    requires '?' !in dir && '?' !in segment && '/' !in segment
    ensures AfterLast(Trim(BeforeFirst(dir + "/" + segment, '?')), '/') == segment
  {
    var p := dir + "/" + segment;
    assert p == dir + ['/'] + segment;
    BeforeFirstAbsent(p, '?');
    assert Trim(BeforeFirst(p, '?')) == p;
    AfterLastOfConcat(dir, '/', segment);
  }

  /** A final segment without a dot is a page. */
  lemma SegmentWithoutDotIsHtml(dir: string, segment: string)
    requires dir != [] && dir[0] == '/'
    requires segment != [] && !IsSpace(segment[|segment| - 1])
    requires '?' !in dir && '?' !in segment && '/' !in segment && '.' !in segment
    ensures IsHtmlRoute(dir + "/" + segment)
  {
    LastSegment(dir, segment);
  }

  /** A final segment with an extension other than ".html" is an asset. */
  lemma SegmentWithExtensionIsAsset(dir: string, segment: string)
    requires dir != [] && dir[0] == '/'
    requires segment != [] && !IsSpace(segment[|segment| - 1])
    requires '?' !in dir && '?' !in segment && '/' !in segment
    requires '.' in segment && !EndsWith(segment, ".html")
    ensures !IsHtmlRoute(dir + "/" + segment)
  {
    LastSegment(dir, segment);
  }

  // ---------------------------------------------------------------------
  // Pathname normalisation and tenantless access
  // ---------------------------------------------------------------------

  /** Removes every trailing '/' (`replace(/\/+$/, '')`). */
  function StripTrailingSlashes(s: string): (r: string)
    ensures r <= s
    ensures !EndsWith(r, "/")
    ensures forall i :: |r| <= i < |s| ==> s[i] == '/'
  {
    if s != [] && s[|s| - 1] == '/' then StripTrailingSlashes(s[..|s| - 1]) else s
  }

  /** `normalizePathname`: the path before any '?', trimmed, without
      trailing slashes; "/" when nothing is left before the query. */
  function NormalizePathname(path: string): (r: string)
    ensures '?' !in r
    ensures EndsWith(r, "/") ==> r == "/"
    ensures IsBlank(BeforeFirst(path, '?')) ==> r == "/"
    ensures var t := Trim(BeforeFirst(path, '?'));
            && (t == "" || t == "/" ==> r == "/")
            && (t != "" ==> r <= t && forall i :: |r| <= i < |t| ==> t[i] == '/')
            && (t != "" && t != "/" ==> !EndsWith(r, "/"))
  {
    if path == "" then "/"
    else
      var rawPath := BeforeFirst(path, '?');
      if rawPath == "" then "/"
      else
        var trimmed := Trim(rawPath);
        if trimmed == "" then "/"
        else if |trimmed| > 1 && EndsWith(trimmed, "/") then
          var r := StripTrailingSlashes(trimmed);
          assert forall x :: x in r ==> x in trimmed;
          r
        else
          assert EndsWith(trimmed, "/") ==> trimmed == "/" by {
            if EndsWith(trimmed, "/") {
              assert trimmed == [trimmed[0]];
            }
          }
          trimmed
  }

  /** Only slashes collapse: "//" normalises to the empty path. */
  lemma DoubleSlashNormalisesToEmpty()
    ensures NormalizePathname("//") == ""
  {
    assert BeforeFirst("//", '?') == "//";
    assert Trim("//") == "//";
  }

  /** `shouldAllowTenantlessDashboardAccess`: exactly the paths that, with
      the query cut off and whitespace trimmed, are the welcome path followed
      by nothing but slashes. */
  function AllowTenantlessDashboardAccess(path: string): (r: bool)
    ensures var t := Trim(BeforeFirst(path, '?'));
            r <==> WelcomePath <= t && forall i :: |WelcomePath| <= i < |t| ==> t[i] == '/'
  {
    WelcomeFromSlashPadded(path);
    NormalizePathname(path) == WelcomePath
  }

  /** Two words that do not end in '/', each a prefix of `t` followed in
      `t` by nothing but slashes, are the same word. */
  lemma SlashPaddedPrefixesAgree(t: string, a: string, b: string)
    requires a != [] && b != [] && a <= t && b <= t
    requires a[|a| - 1] != '/' && b[|b| - 1] != '/'
    requires forall i :: |a| <= i < |t| ==> t[i] == '/'
    requires forall i :: |b| <= i < |t| ==> t[i] == '/'
    ensures a == b
  {
  }

  /** The shape of the welcome path that normalisation depends on. */
  lemma WelcomePathShape()
    ensures |WelcomePath| > 1 && WelcomePath[1] == 'p' && WelcomePath[|WelcomePath| - 1] == 'e'
  {
    assert WelcomePath == "/platform/welcome";
  }

  /** A path that is, query cut and trimmed, a word followed by nothing but
      slashes normalises to that word when the word has no slash at its
      end or in second position. */
  lemma NormalizeSlashPadded(path: string, w: string)
    requires |w| > 1 && w[1] != '/' && w[|w| - 1] != '/'
    requires var t := Trim(BeforeFirst(path, '?'));
             w <= t && forall i :: |w| <= i < |t| ==> t[i] == '/'
    ensures NormalizePathname(path) == w
  {
    var t := Trim(BeforeFirst(path, '?'));
    assert t != "" && t != "/";
    SlashPaddedWord(t, NormalizePathname(path), w);
  }

  /** A prefix of `t` with no trailing '/' that leaves only slashes behind
      is the word `w` when `w` is such a prefix too and its second character
      is not a slash. */
  lemma SlashPaddedWord(t: string, r: string, w: string)
    requires |w| > 1 && w[1] != '/' && w[|w| - 1] != '/'
    requires w <= t && forall i :: |w| <= i < |t| ==> t[i] == '/'
    requires r <= t && !EndsWith(r, "/") && forall i :: |r| <= i < |t| ==> t[i] == '/'
    ensures r == w
  {
    assert t[1] == w[1];
    assert r != [];
    SlashPaddedPrefixesAgree(t, r, w);
  }

  /** A path that is the welcome path padded with slashes normalises to the
      welcome path. */
  lemma WelcomeFromSlashPadded(path: string)
    ensures var t := Trim(BeforeFirst(path, '?'));
            WelcomePath <= t && (forall i :: |WelcomePath| <= i < |t| ==> t[i] == '/') ==>
            NormalizePathname(path) == WelcomePath
  {
    var t := Trim(BeforeFirst(path, '?'));
    if WelcomePath <= t && forall i :: |WelcomePath| <= i < |t| ==> t[i] == '/' {
      WelcomePathShape();
      NormalizeSlashPadded(path, WelcomePath);
    }
  }

  function Slashes(n: nat): (r: string)
    ensures |r| == n && forall i :: 0 <= i < n ==> r[i] == '/'
  {
    if n == 0 then "" else Slashes(n - 1) + "/"
  }

  lemma {:induction false} StripSlashesOff(w: string, n: nat)
    requires w != [] && w[|w| - 1] != '/'
    ensures StripTrailingSlashes(w + Slashes(n)) == w
  {
    if n > 0 {
      assert (w + Slashes(n))[..|w| + n - 1] == w + Slashes(n - 1);
      StripSlashesOff(w, n - 1);
    }
  }

  lemma BeforeFirstOfPrefix(a: string, b: string)
    requires '?' !in a
    ensures BeforeFirst(a + "?" + b, '?') == a
  {
    var r := BeforeFirst(a + "?" + b, '?');
    assert (a + "?" + b)[|a|] == '?';
    assert r == (a + "?" + b)[..|r|];
  }

  /** Whatever follows the first '?' does not affect the normalised
      pathname. */
  lemma NormalizePathnameIgnoresQuery(p: string, query: string)
    requires '?' !in p
    ensures NormalizePathname(p + "?" + query) == NormalizePathname(p)
  {
    BeforeFirstOfPrefix(p, query);
    if p != "" {
      BeforeFirstAbsent(p, '?');
    }
  }

  /** A pathname that needs no trimming normalises to itself without its
      trailing slashes. */
  lemma NormalizeTrimmedPath(p: string)
    requires p != [] && '?' !in p && !IsSpace(p[0]) && !IsSpace(p[|p| - 1])
    ensures NormalizePathname(p) == if |p| > 1 && EndsWith(p, "/") then StripTrailingSlashes(p) else p
  {
    BeforeFirstAbsent(p, '?');
  }

  /** The facts about a word followed by slashes that normalisation needs. */
  lemma WithSlashes(w: string, n: nat)
    requires w != [] && '?' !in w && !IsSpace(w[0]) && w[|w| - 1] != '/' && !IsSpace(w[|w| - 1])
    ensures var p := w + Slashes(n);
            && '?' !in p && p[0] == w[0] && !IsSpace(p[|p| - 1])
            && (n > 0 <==> |p| > 1 && EndsWith(p, "/"))
  {
    var p := w + Slashes(n);
    assert forall i :: |w| <= i < |p| ==> p[i] == '/';
    assert forall i :: 0 <= i < |w| ==> p[i] == w[i];
    if n == 0 {
      assert p == w;
    }
  }

  /** The welcome path with any number of trailing slashes normalises to
      the welcome path. */
  lemma {:induction false} WelcomeWithSlashesNormalises(n: nat)
    ensures NormalizePathname(WelcomePath + Slashes(n)) == WelcomePath
  {
    var p := WelcomePath + Slashes(n);
    assert WelcomePath == "/platform/welcome";
    WithSlashes(WelcomePath, n);
    NormalizeTrimmedPath(p);
    StripSlashesOff(WelcomePath, n);
    assert NormalizePathname(p) == (if |p| > 1 && EndsWith(p, "/") then StripTrailingSlashes(p) else p);
    assert n == 0 ==> NormalizePathname(p) == WelcomePath;
  }

  /** The welcome page is reachable without a tenant whatever the number of
      trailing slashes and whatever the query string. */
  lemma {:induction false} WelcomeIgnoresSlashesAndQuery(n: nat, query: string)
    ensures AllowTenantlessDashboardAccess(WelcomePath + Slashes(n))
    ensures AllowTenantlessDashboardAccess(WelcomePath + Slashes(n) + "?" + query)
  {
    WelcomeWithSlashesNormalises(n);
    NormalizePathnameIgnoresQuery(WelcomePath + Slashes(n), query);
  }

  // ---------------------------------------------------------------------
  // Tenant decisions
  // ---------------------------------------------------------------------

  function LowerOpt(s: Option<string>): (r: Option<string>)
    ensures r.Some? <==> s.Some?
  {
    match s
    case None => None
    case Some(v) => Some(ToLower(v))
  }

  /** The tenant is the root tenant: its slug, lowercased, is the root slug. */
  predicate IsRootContext(env: Env) {
    env.tenant.Some? && LowerOpt(env.tenant.value.tenantSlug) == Some(env.rootSlug)
  }

  /** `isReservedTenant({ root })`. */
  function IsReservedTenant(env: Env, root: bool): (r: bool)
    ensures env.tenant.None? ==> !r
    ensures IsRootContext(env) ==> r == root
    ensures env.tenant.Some? && !IsRootContext(env) && env.tenant.value.placeholder ==>
              r == (Truthy(env.tenant.value.requestedSlug)
                    && env.isSlugReserved(ToLower(env.tenant.value.requestedSlug.value)))
    ensures env.tenant.Some? && !IsRootContext(env) && !env.tenant.value.placeholder ==>
              r == (Truthy(env.tenant.value.tenantSlug)
                    && env.isSlugReserved(ToLower(env.tenant.value.tenantSlug.value)))
  {
    if env.tenant.None? then false
    else
      var ctx := env.tenant.value;
      var tenantSlug := LowerOpt(ctx.tenantSlug);
      if tenantSlug == Some(env.rootSlug) then root
      else
        var requestedSlug := LowerOpt(ctx.requestedSlug);
        if ctx.placeholder then
          if !Truthy(requestedSlug) then false
          else env.isSlugReserved(requestedSlug.value)
        else if !Truthy(tenantSlug) then false
        else env.isSlugReserved(tenantSlug.value)
  }

  /** `shouldRenderTenantMissingPage`: no tenant, or only a placeholder. */
  function ShouldRenderTenantMissingPage(env: Env): (r: bool)
    ensures !r <==> env.tenant.Some? && !env.tenant.value.placeholder
  {
    env.tenant.None? || env.tenant.value.placeholder
  }

  // ---------------------------------------------------------------------
  // Responses
  // ---------------------------------------------------------------------

  /** `resolveRequestHost`: the trimmed `x-forwarded-host` header, else the
      trimmed `host` header, else the host of the request URL. */
  function ResolveRequestHost(req: Request): (r: Option<string>)
    ensures Truthy(TrimOpt(req.forwardedHost)) ==> r == Some(Trim(req.forwardedHost.value))
    ensures !Truthy(TrimOpt(req.forwardedHost)) && Truthy(TrimOpt(req.host)) ==> r == Some(Trim(req.host.value))
    ensures !Truthy(TrimOpt(req.forwardedHost)) && !Truthy(TrimOpt(req.host)) ==> r == req.urlHost
    ensures r.Some? && r != req.urlHost ==> r.value != "" && !IsSpace(r.value[0])
  {
    var forwarded := TrimOpt(req.forwardedHost);
    if Truthy(forwarded) then forwarded
    else
      var host := TrimOpt(req.host);
      if Truthy(host) then host
      else req.urlHost
  }

  /** `s?.trim()`. */
  function TrimOpt(s: Option<string>): (r: Option<string>)
    ensures r.Some? <==> s.Some?
    ensures r.Some? ==> r.value == Trim(s.value)
  {
    match s
    case None => None
    case Some(v) => Some(Trim(v))
  }

  /** `serve`: the service's response for the normalised path, or a 404
      ("Not Found", or no body for HEAD) when it has nothing. */
  function Serve(req: Request, service: Service, headOnly: bool, env: Env): (r: Response)
    ensures env.assets(service, NormalizeRequestPath(req.path, service), headOnly, ResolveRequestHost(req)).None? ==>
              r.status == 404 && r.body == (if headOnly then None else Some("Not Found"))
    ensures env.assets(service, NormalizeRequestPath(req.path, service), headOnly, ResolveRequestHost(req)).Some? ==>
              r == env.assets(service, NormalizeRequestPath(req.path, service), headOnly, ResolveRequestHost(req)).value
  {
    var normalizedPath := NormalizeRequestPath(req.path, service);
    match env.assets(service, normalizedPath, headOnly, ResolveRequestHost(req))
    case Some(response) => response
    case None => Response(404, if headOnly then None else Some("Not Found"), [])
  }

  /** `renderTenantMissingPage`: the dashboard's tenant-missing page with
      status 404, or a plain 404 when the page is not available. */
  function TenantMissingPage(env: Env): (r: Response)
    ensures r.status == 404
    ensures env.assets(DashboardService, TenantMissingEntryPath, false, None).Some? ==>
              r == env.assets(DashboardService, TenantMissingEntryPath, false, None).value.(status := 404)
    ensures env.assets(DashboardService, TenantMissingEntryPath, false, None).None? ==>
              r == Response(404, Some("Workspace unavailable"), [])
  {
    match env.assets(DashboardService, TenantMissingEntryPath, false, None)
    case Some(response) => response.(status := 404)
    case None => Response(404, Some("Workspace unavailable"), [])
  }

  /** `renderTenantRestrictedPage`: the tenant-restricted page with 403. */
  function TenantRestrictedPage(env: Env): (r: Response)
    ensures r.status == 403
    ensures env.assets(DashboardService, TenantRestrictedEntryPath, false, None).Some? ==>
              r == env.assets(DashboardService, TenantRestrictedEntryPath, false, None).value.(status := 403)
    ensures env.assets(DashboardService, TenantRestrictedEntryPath, false, None).None? ==>
              r == Response(403, Some("Workspace access restricted"), [])
  {
    match env.assets(DashboardService, TenantRestrictedEntryPath, false, None)
    case Some(response) => response.(status := 403)
    case None => Response(403, Some("Workspace access restricted"), [])
  }

  // ---------------------------------------------------------------------
  // Route handlers
  // ---------------------------------------------------------------------

  /** `getStaticWebRoot` ("/static/web", "/static/dashboard"): always the
      web service, no tenant checks. */
  function GetStaticWebRoot(req: Request, env: Env): (r: Response)
    ensures r == Serve(req, WebService, false, env)
  {
    Serve(req, WebService, false, env)
  }

  /** `getStaticWebIndex` ("/", "/explory"): a reserved tenant (the root
      tenant included) gets 403, a missing tenant 404, and a 404 from the
      web service is replaced by the tenant-missing page. */
  function GetStaticWebIndex(req: Request, env: Env): (r: Response)
    ensures IsReservedTenant(env, true) ==> r == TenantRestrictedPage(env)
    ensures !IsReservedTenant(env, true) && ShouldRenderTenantMissingPage(env) ==> r == TenantMissingPage(env)
    ensures !IsReservedTenant(env, true) && !ShouldRenderTenantMissingPage(env) ==>
              if Serve(req, WebService, false, env).status == 404 then r == TenantMissingPage(env)
              else r == Serve(req, WebService, false, env)
    ensures r.status == 404 ==> r == TenantMissingPage(env)
  {
    if IsReservedTenant(env, true) then TenantRestrictedPage(env)
    else if ShouldRenderTenantMissingPage(env) then TenantMissingPage(env)
    else
      var response := Serve(req, WebService, false, env);
      if response.status == 404 then TenantMissingPage(env) else response
  }

  /** `getStaticPhotoPage` ("/photos/:photoId"): the same ladder as the
      index, then the served page is decorated for the photo. */
  function GetStaticPhotoPage(req: Request, photoId: string, env: Env,
                              decorate: (string, Response) -> Response): (r: Response)
    ensures IsReservedTenant(env, true) ==> r == TenantRestrictedPage(env)
    ensures !IsReservedTenant(env, true) && ShouldRenderTenantMissingPage(env) ==> r == TenantMissingPage(env)
    ensures !IsReservedTenant(env, true) && !ShouldRenderTenantMissingPage(env) ==>
              if Serve(req, WebService, false, env).status == 404 then r == TenantMissingPage(env)
              else r == decorate(photoId, Serve(req, WebService, false, env))
  {
    if IsReservedTenant(env, true) then TenantRestrictedPage(env)
    else if ShouldRenderTenantMissingPage(env) then TenantMissingPage(env)
    else
      var response := Serve(req, WebService, false, env);
      if response.status == 404 then TenantMissingPage(env)
      else decorate(photoId, response)
  }

  /** `getStaticDashboardIndexWithBasename` ("/platform", "/platform/..."):
      only HTML routes are gated; a reserved tenant other than the root gets
      403; a missing tenant gets 404 unless the path is the welcome page;
      everything else is served by the dashboard service. */
  function GetStaticDashboard(req: Request, env: Env): (r: Response)
    ensures !IsHtmlRoute(req.path) ==> r == Serve(req, DashboardService, false, env)
    ensures IsHtmlRoute(req.path) && IsReservedTenant(env, false) ==> r == TenantRestrictedPage(env)
    ensures IsHtmlRoute(req.path) && !IsReservedTenant(env, false)
            && !AllowTenantlessDashboardAccess(req.path) && ShouldRenderTenantMissingPage(env) ==>
              r == TenantMissingPage(env)
    ensures IsHtmlRoute(req.path) && !IsReservedTenant(env, false)
            && (AllowTenantlessDashboardAccess(req.path) || !ShouldRenderTenantMissingPage(env)) ==>
              r == Serve(req, DashboardService, false, env)
  {
    var pathname := req.path;
    var isHtmlRoute := IsHtmlRoute(pathname);
    var allowTenantlessAccess := isHtmlRoute && AllowTenantlessDashboardAccess(pathname);
    var isReservedTenant := IsReservedTenant(env, false);
    if isHtmlRoute && isReservedTenant then TenantRestrictedPage(env)
    else if isHtmlRoute && !allowTenantlessAccess && ShouldRenderTenantMissingPage(env) then TenantMissingPage(env)
    else Serve(req, DashboardService, false, env)
  }

  /** `getAsset` (every other path) through `handleRequest`: the service chosen by
      path, no tenant checks. */
  function GetAsset(req: Request, env: Env): (r: Response)
    ensures r == Serve(req, ResolveService(req.path), false, env)
  {
    Serve(req, ResolveService(req.path), false, env)
  }

  /** On the dashboard the root tenant is never restricted, while on the
      public pages it always is. */
  lemma {:induction false} RootTenantOnlyRestrictedOnPublicPages(req: Request, env: Env)
    requires IsRootContext(env)
    ensures GetStaticWebIndex(req, env).status == 403
    ensures GetStaticDashboard(req, env).status != 403 || Serve(req, DashboardService, false, env).status == 403
  {
    assert IsReservedTenant(env, true);
    assert !IsReservedTenant(env, false);
  }

  /** Without a tenant the dashboard still serves the welcome page. */
  lemma {:induction false} WelcomeServedWithoutTenant(req: Request, env: Env)
    requires env.tenant.None?
    requires AllowTenantlessDashboardAccess(req.path)
    ensures GetStaticDashboard(req, env) == Serve(req, DashboardService, false, env)
  {
    assert !IsReservedTenant(env, false);
  }

  /** A non-HTML asset is served whatever the tenant situation. */
  lemma AssetsAreNeverGated(req: Request, env: Env)
    ensures !IsHtmlRoute(req.path) ==> GetStaticDashboard(req, env) == Serve(req, DashboardService, false, env)
  {
  }
}
