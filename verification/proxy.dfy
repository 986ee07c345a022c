/** The page-route gate run before every matched page request (proxy.ts): the root
    page passes, every other page needs a token cookie that verifies and a permission
    that is a prefix of the path. */
module Proxy {
  import opened Wrappers
  import opened Auth

  /** `NextResponse.next()` or a redirect, possibly deleting the token cookie. */
  datatype ProxyOutcome = Continue | Redirect(location: string, deletesTokenCookie: bool)

  /** `routes.some(route => pathname.startsWith(route))`. */
  function AnyPrefix(routes: seq<string>, pathname: string): (r: bool)
    ensures r <==> exists i :: 0 <= i < |routes| && routes[i] <= pathname
  {
    if routes == [] then false
    else routes[0] <= pathname || AnyPrefix(routes[1..], pathname)
  }

  /** `verifiedToken.perms ?? []`. */
  function Permissions(p: AuthPayload): seq<string> {
    match p.perms
    case None => []
    case Some(routes) => routes
  }

  const UnauthorizedPage := "/unauthorized"
  const ForbiddenPage := "/forbidden"
  const RevalidationPrefix := "/login?state=revalidation&redirect="

  /** proxy(): root bypass, then cookie presence, then verification, then the
      permission-prefix check, each failure with its own redirect. */
  function Gate(pathname: string, tokenCookie: Option<string>, verify: Verifier): (r: ProxyOutcome)
    ensures pathname == "/" ==> r == Continue
    ensures pathname != "/" && (tokenCookie == None || tokenCookie == Some("")) ==>
      r == Redirect(UnauthorizedPage, false)
    ensures pathname != "/" && tokenCookie.Some? && tokenCookie.value != "" && verify(tokenCookie.value).None? ==>
      r == Redirect(RevalidationPrefix + pathname, true)
    ensures pathname != "/" && tokenCookie.Some? && tokenCookie.value != "" && verify(tokenCookie.value).Some? ==>
      var perms := Permissions(verify(tokenCookie.value).value);
      && (r == Continue <==> exists i :: 0 <= i < |perms| && perms[i] <= pathname)
      && (r != Continue ==> r == Redirect(ForbiddenPage, false))
    ensures r.Redirect? && r.deletesTokenCookie ==> r.location == RevalidationPrefix + pathname
  {
    if pathname == "/" then Continue
    else if tokenCookie == None || tokenCookie == Some("") then Redirect(UnauthorizedPage, false)
    else match verify(tokenCookie.value)
      case None => Redirect(RevalidationPrefix + pathname, true)
      case Some(payload) =>
        if AnyPrefix(Permissions(payload), pathname) then Continue
        else Redirect(ForbiddenPage, false)
  }

  /** A token without permissions reaches no page but the root. */
  lemma NoPermissionsNoAccess(pathname: string, cookie: string, verify: Verifier)
    requires pathname != "/" && cookie != ""
    requires verify(cookie).Some? && verify(cookie).value.perms.None?
    ensures Gate(pathname, Some(cookie), verify) == Redirect(ForbiddenPage, false)
  {
  }
}
