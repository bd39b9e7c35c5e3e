/** The HTTPS redirect applied to every request, except the health check. */
module Middleware {

  const HealthPrefix: string := "/health"
  const HttpsScheme: string := "https://"

  /** A request as the middleware sees it. `hostAllowed` is the outcome of
      the framework's host validation that `get_host()` performs against the
      allowed-hosts setting. */
  datatype Request = Request(path: string, host: string, fullPath: string, isSecure: bool, hostAllowed: bool)

  /** Either the request goes on to the application unchanged, or the client
      is sent a permanent redirect, or `get_host()` raises DisallowedHost,
      which the framework answers with 400 Bad Request. */
  datatype Decision = PassThrough | PermanentRedirect(location: string) | DisallowedHost

  predicate StartsWith(s: string, prefix: string) {
    |s| >= |prefix| && s[..|prefix|] == prefix
  }

  /** `HealthCheckSSLRedirectMiddleware.__call__`: the health check always
      passes; with the redirect setting on, a plain-HTTP request is sent to
      the same host and path over HTTPS, unless building that location finds
      the host disallowed; everything else passes. The host is consulted only
      on the redirect path. */
  function Decide(req: Request, sslRedirect: bool): (d: Decision)
    ensures StartsWith(req.path, HealthPrefix) ==> d == PassThrough
    ensures d.PermanentRedirect? <==>
      !StartsWith(req.path, HealthPrefix) && sslRedirect && !req.isSecure && req.hostAllowed
    ensures d.DisallowedHost? <==>
      !StartsWith(req.path, HealthPrefix) && sslRedirect && !req.isSecure && !req.hostAllowed
    ensures d.PermanentRedirect? ==> StartsWith(d.location, HttpsScheme)
  {
    if StartsWith(req.path, HealthPrefix) then PassThrough
    else if sslRedirect && !req.isSecure then
      if req.hostAllowed then PermanentRedirect(HttpsScheme + req.host + req.fullPath) else DisallowedHost
    else PassThrough
  }

  /** The redirect keeps the host and the full path: what follows the scheme
      is exactly the host and then the path with its query. */
  lemma RedirectKeepsHostAndPath(req: Request, sslRedirect: bool)
    requires Decide(req, sslRedirect).PermanentRedirect?
    ensures Decide(req, sslRedirect).location[|HttpsScheme|..] == req.host + req.fullPath
  {
    var loc := HttpsScheme + req.host + req.fullPath;
    assert loc[|HttpsScheme|..] == req.host + req.fullPath;
  }

  /** Which answer a request gets depends only on the health prefix of its
      path, the setting, whether it is secure and whether its host is
      allowed. */
  lemma DecisionDependsOnlyOnPrefixSettingSchemeAndHost(a: Request, b: Request, sslRedirect: bool)
    requires StartsWith(a.path, HealthPrefix) == StartsWith(b.path, HealthPrefix)
    requires a.isSecure == b.isSecure && a.hostAllowed == b.hostAllowed
    ensures Decide(a, sslRedirect).PermanentRedirect? == Decide(b, sslRedirect).PermanentRedirect?
    ensures Decide(a, sslRedirect).DisallowedHost? == Decide(b, sslRedirect).DisallowedHost?
  {
  }

  /** A disallowed host matters only on the redirect path: a secure request,
      a health check or a request with the setting off passes whatever its
      host. */
  lemma HostCheckedOnlyWhenRedirecting(req: Request, sslRedirect: bool)
    requires StartsWith(req.path, HealthPrefix) || !sslRedirect || req.isSecure
    ensures Decide(req, sslRedirect) == PassThrough
    ensures Decide(req.(hostAllowed := !req.hostAllowed), sslRedirect) == PassThrough
  {
  }

  /** The redirected request, once it arrives over HTTPS, passes. */
  lemma RedirectedRequestPasses(req: Request, sslRedirect: bool)
    requires Decide(req, sslRedirect).PermanentRedirect?
    ensures Decide(req.(isSecure := true), sslRedirect) == PassThrough
  {
  }

  /** Health checks pass whatever the setting and the scheme. */
  lemma HealthChecksAlwaysPass(req: Request, sslRedirect: bool, suffix: string)
    requires req.path == HealthPrefix + suffix
    ensures Decide(req, sslRedirect) == PassThrough
  {
    assert req.path[..|HealthPrefix|] == HealthPrefix;
  }
}
