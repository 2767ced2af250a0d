/**
 * The double-submit CSRF check of the Google sign-in callback: the
 * `g_csrf_token` cookie and the `g_csrf_token` form field must both be
 * present, non-empty and equal.  A failure is an HTTP 400 with one of three
 * messages, checked in order.
 */
module GoogleSignin {
  import opened Wrappers

  const CookieMissing := "expected cookie `g_csrf_token`"
  const BodyMissing := "expected post data `g_csrf_token`"
  const TokenMismatch := "csrf verification failed"

  /** Python truthiness of an optional string: present and not empty. */
  predicate Given(token: Option<string>)
  {
    token.Some? && token.value != ""
  }

  /** `csrf_check(cookie, body)`: the text of the HTTP 400 it raises, if any. */
  function CsrfCheck(cookie: Option<string>, body: Option<string>): (r: Outcome<string>)
    ensures r.Pass? <==> Given(cookie) && cookie == body
    ensures !Given(cookie) ==> r == Fail(CookieMissing)
    ensures Given(cookie) && !Given(body) ==> r == Fail(BodyMissing)
    ensures Given(cookie) && Given(body) && cookie != body ==> r == Fail(TokenMismatch)
  {
    if !Given(cookie) then Fail(CookieMissing)
    else if !Given(body) then Fail(BodyMissing)
    else if cookie != body then Fail(TokenMismatch)
    else Pass
  }
}
