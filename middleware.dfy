/**
 * The request guard (learnhub/middleware.ts): paths under "/admin" or "/dashboard" need an
 * `auth_token` cookie; without one the request is redirected to the login page, which is told
 * where to come back to.
 */
module Middleware {
  import opened Wrappers
  import opened Strings

  datatype Decision = Next | RedirectToLogin(redirect: string)

  predicate IsProtected(pathname: string) {
    StartsWith(pathname, "/admin") || StartsWith(pathname, "/dashboard")
  }

  /** `middleware`: `authToken` is the cookie's value; an empty value counts as missing. */
  function Guard(pathname: string, authToken: Option<string>): (d: Decision)
    ensures d.RedirectToLogin? <==> IsProtected(pathname) && (authToken.None? || authToken.value == "")
    ensures d.RedirectToLogin? ==> d.redirect == pathname
  {
    if !IsProtected(pathname) then Next
    else if authToken.None? || authToken.value == "" then RedirectToLogin(pathname)
    else Next
  }

  /** Any token lets every path through, and no token stops exactly the protected ones. */
  lemma GuardByCase(pathname: string, token: string)
    requires token != ""
    ensures Guard(pathname, Some(token)) == Next
    ensures Guard(pathname, None) == Guard(pathname, Some(""))
    ensures Guard("/admin" + pathname, None) == RedirectToLogin("/admin" + pathname)
    ensures Guard("/dashboard" + pathname, None) == RedirectToLogin("/dashboard" + pathname)
  {
    assert ("/admin" + pathname)[..6] == "/admin";
    assert ("/dashboard" + pathname)[..10] == "/dashboard";
  }

  /** The test is a plain prefix test: "/administrator" is guarded, "/login" and "/" are not. */
  lemma GuardExamples()
    ensures Guard("/administrator", None).RedirectToLogin?
    ensures Guard("/login", None) == Next && Guard("/", None) == Next
  {
    assert "/administrator"[..6] == "/admin";
    assert "/login"[..6] != "/admin" by { assert "/login"[1] != "/admin"[1]; }
  }
}
