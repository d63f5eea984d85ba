/** The route guard of the session middleware: which paths need a signed-in
    user, and where a visitor without one is sent. Cookies and the session
    refresh are outside the model; the user the session yields is a
    parameter. */
module RouteGuard {
  import opened Common
  import opened Text

  /** The areas of the application that need a signed-in user. */
  const ProtectedRoutes: seq<string> := ["/todo", "/drive", "/food", "/pokemon", "/notes"]

  /** `routes.some((route) => path.startsWith(route))` */
  function AnyPrefix(routes: seq<string>, path: string): (b: bool)
    ensures b <==> exists i :: 0 <= i < |routes| && StartsWith(path, routes[i])
  {
    if routes == [] then false
    else
      assert forall i :: 1 <= i < |routes| ==> routes[i] == routes[1..][i - 1];
      StartsWith(path, routes[0]) || AnyPrefix(routes[1..], path)
  }

  predicate IsProtectedRoute(path: string) {
    AnyPrefix(ProtectedRoutes, path)
  }

  /** What the middleware does with a request: let it through with the
      refreshed session, or redirect it to another path of the same URL. */
  datatype Decision = PassThrough | RedirectTo(pathname: string)

  /** updateSession's decision for a request to `path`. */
  function UpdateSession(path: string, user: Option<Id>): (d: Decision)
    ensures d.RedirectTo? <==> IsProtectedRoute(path) && user.None?
    ensures d.RedirectTo? ==> d.pathname == "/"
    ensures user.Some? ==> d == PassThrough
    ensures !IsProtectedRoute(path) ==> d == PassThrough
  {
    if IsProtectedRoute(path) && user.None? then RedirectTo("/") else PassThrough
  }

  /** The match is on prefixes, not on path segments: anything that
      extends a protected path is protected too. */
  lemma {:induction false} ExtensionStaysProtected(path: string, suffix: string)
    requires IsProtectedRoute(path)
    ensures IsProtectedRoute(path + suffix)
  {
    var i :| 0 <= i < |ProtectedRoutes| && StartsWith(path, ProtectedRoutes[i]);
    var r := ProtectedRoutes[i];
    assert (path + suffix)[..|r|] == path[..|r|];
    assert StartsWith(path + suffix, r);
  }

  /** A path that looks like another area but shares its first letters is
      guarded as well, while the home and login pages are not. */
  lemma PrefixMatchExamples()
    ensures IsProtectedRoute("/todos") && IsProtectedRoute("/foodie") && IsProtectedRoute("/drive/photos")
    ensures !IsProtectedRoute("/") && !IsProtectedRoute("/login")
  {
    assert StartsWith("/todos", ProtectedRoutes[0]);
    assert StartsWith("/foodie", ProtectedRoutes[2]);
    assert StartsWith("/drive/photos", ProtectedRoutes[1]);
    forall i | 0 <= i < |ProtectedRoutes|
      ensures !StartsWith("/login", ProtectedRoutes[i])
    {
      assert "/login"[1] != ProtectedRoutes[i][1];
    }
  }
}
