/**
 * The edge middleware: requests for a protected path without an `idToken`
 * cookie are sent to the login page with the path to come back to; every
 * other request passes.
 */
module Middleware {
  import opened Wrappers
  import opened Strings

  /** The paths that need a signed-in user, as prefixes. */
  const AuthRequiredPaths: seq<string> := ["/create", "/settings"]

  /** The paths meant for coaches. The middleware never reads this list. */
  const CoachRequiredPaths: seq<string> := ["/create"]

  /** `paths.some(p => pathname.startsWith(p))`. */
  function AnyPrefix(paths: seq<string>, pathname: string): (r: bool)
    ensures r <==> exists i :: 0 <= i < |paths| && StartsWith(pathname, paths[i])
  {
    if |paths| == 0 then false
    else if StartsWith(pathname, paths[0]) then true
    else
      assert forall i :: 1 <= i < |paths| ==> paths[i] == paths[1..][i - 1];
      AnyPrefix(paths[1..], pathname)
  }

  /** A path is protected iff it starts with one of the two prefixes. */
  function IsProtected(pathname: string): (r: bool)
    ensures r <==> StartsWith(pathname, "/create") || StartsWith(pathname, "/settings")
  {
    var r := AnyPrefix(AuthRequiredPaths, pathname);
    assert StartsWith(pathname, AuthRequiredPaths[0]) ==> r;
    assert StartsWith(pathname, AuthRequiredPaths[1]) ==> r;
    r
  }

  /** What the middleware answers: a redirect to `path` with the `redirect`
   *  search parameter, or `NextResponse.next()`. */
  datatype Response = Redirect(path: string, redirectParam: string) | PassThrough

  /** `middleware(request)`, with the request's pathname and the value of
   *  its `idToken` cookie (None: no cookie). */
  function Handle(pathname: string, idToken: Option<string>): (r: Response)
    ensures r.Redirect? <==> IsProtected(pathname) && !Truthy(idToken)
    ensures r.Redirect? ==> r == Redirect("/login", pathname)
  {
    if IsProtected(pathname) && !Truthy(idToken) then Redirect("/login", pathname) else PassThrough
  }

  /** The test is on prefixes, not on path segments. */
  lemma PrefixNotSegment()
    ensures IsProtected("/settings-x")
    ensures IsProtected("/createaccount")
  {
    assert "/settings-x"[..9] == "/settings";
    assert "/createaccount"[..7] == "/create";
  }

  /** Any non-empty token, whatever it holds, reaches every path, the coach
   *  paths included: the token is not decoded and the coach list is not
   *  consulted. */
  lemma AnyTokenPasses(pathname: string, token: string)
    requires token != ""
    ensures Handle(pathname, Some(token)) == PassThrough
  {
  }

  /** An empty cookie counts as no cookie. */
  lemma EmptyTokenIsMissing(pathname: string)
    ensures Handle(pathname, Some("")) == Handle(pathname, None)
  {
  }
}
