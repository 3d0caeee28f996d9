/** The request guard in front of the admin pages. The session lookup is an
    input: whether a valid session came back for the request's headers. */
module Middleware {

  import Strings

  const ProtectedPaths: seq<string> := ["/admin"]
  const LoginPath := "/admin/login"

  /** `protectedPaths.some(path => pathname.startsWith(path))` */
  predicate AnyPrefix(paths: seq<string>, pathname: string)
    decreases |paths|
  {
    paths != [] && (Strings.StartsWith(pathname, paths[0]) || AnyPrefix(paths[1..], pathname))
  }

  predicate IsProtected(pathname: string) {
    AnyPrefix(ProtectedPaths, pathname)
  }

  datatype Decision = Next | Redirect(pathname: string)

  /** What the guard does: whether it consulted the session store, and
      whether it lets the request through. */
  datatype Outcome = Outcome(sessionLookedUp: bool, decision: Decision)

  /** `middleware`, as written. */
  function Guard(pathname: string, hasSession: bool): Outcome {
    if IsProtected(pathname) then
      Outcome(true, if hasSession then Next else Redirect(LoginPath))
    else
      Outcome(false, Next)
  }

  /** A path is protected exactly when it starts with "/admin"; the test on
      its own is a prefix test, so it would count "/administrator" too. */
  lemma ProtectedIffAdminPrefix(pathname: string)
    ensures IsProtected(pathname) <==> |pathname| >= 6 && pathname[..6] == "/admin"
    ensures IsProtected("/administrator")
  {
    assert ProtectedPaths[1..] == [];
    assert "/administrator"[..6] == "/admin";
  }

  /** Unprotected paths pass without a lookup; protected ones pass exactly
      when there is a session, and are sent to the login page otherwise. */
  lemma GuardSpec(pathname: string, hasSession: bool)
    ensures var o := Guard(pathname, hasSession);
      && (o.sessionLookedUp <==> Strings.StartsWith(pathname, "/admin"))
      && (o.decision == Next <==> !Strings.StartsWith(pathname, "/admin") || hasSession)
      && (o.decision != Next ==> o.decision == Redirect("/admin/login"))
  {
    assert ProtectedPaths[1..] == [];
  }

  /** `config.matcher: ['/admin/:path*']`: the paths the middleware runs on,
      "/admin" itself and everything below "/admin/". */
  predicate Matched(pathname: string) {
    pathname == "/admin" || Strings.StartsWith(pathname, "/admin/")
  }

  /** A request as the application serves it: paths outside the matcher
      never reach the middleware and pass without a lookup. */
  function Handle(pathname: string, hasSession: bool): Outcome {
    if Matched(pathname) then Guard(pathname, hasSession) else Outcome(false, Next)
  }

  /** Every matched path is protected, so the guard's unprotected branch is
      never taken in the application; the session is looked up exactly for
      matched paths, which pass exactly with a session and are otherwise
      sent to the login page; "/administrator" is not matched and passes. */
  lemma HandleSpec(pathname: string, hasSession: bool)
    ensures Matched(pathname) ==> IsProtected(pathname)
    ensures var o := Handle(pathname, hasSession);
      && (o.sessionLookedUp <==> Matched(pathname))
      && (o.decision == Next <==> !Matched(pathname) || hasSession)
      && (o.decision != Next ==> o.decision == Redirect("/admin/login"))
    ensures Handle("/administrator", hasSession) == Outcome(false, Next)
  {
    assert ProtectedPaths[1..] == [];
    if Strings.StartsWith(pathname, "/admin/") {
      assert pathname[..6] == pathname[..7][..6];
    }
    assert !Strings.StartsWith("/administrator", "/admin/") by {
      assert "/administrator"[6] != "/admin/"[6];
    }
  }

  /** The login page lies under "/admin" too: a visitor without a session who
      asks for it is redirected to it again, so the guard never lets them reach it. */
  lemma LoginRedirectsToItself()
    ensures Guard(LoginPath, false) == Outcome(true, Redirect(LoginPath))
    ensures Handle(LoginPath, false) == Outcome(true, Redirect(LoginPath))
  {
    assert LoginPath[..6] == "/admin";
    assert LoginPath[..7] == "/admin/";
  }

  /** The guard with the login page exempted, as evidently intended. */
  function GuardExemptingLogin(pathname: string, hasSession: bool): Outcome {
    if IsProtected(pathname) && pathname != LoginPath then
      Outcome(true, if hasSession then Next else Redirect(LoginPath))
    else
      Outcome(false, Next)
  }

  /** The login page is always reachable, no redirect ever points back at
      the page that was asked for, and every other page is guarded as before. */
  lemma GuardExemptingLoginSpec(pathname: string, hasSession: bool)
    ensures GuardExemptingLogin(LoginPath, hasSession).decision == Next
    ensures GuardExemptingLogin(pathname, hasSession).decision != Redirect(pathname)
    ensures pathname != LoginPath ==> GuardExemptingLogin(pathname, hasSession) == Guard(pathname, hasSession)
  {
  }
}
