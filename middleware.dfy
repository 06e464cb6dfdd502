/** The authentication middleware: a decision, per request, from the path, the
    signed-in user and that user's role to "let it through" or "redirect". */
module Middleware {
  import opened Wrappers
  import opened Helpers

  const STRIPE_ROUTE: string := "/api/webhook/stripe"
  const SIGN_IN: string := "/sign-in"
  const DASHBOARD: string := "/dashboard"
  const ADMIN_DASHBOARD: string := "/admin/dashboard"
  const ADMIN_PREFIX: string := "/admin"
  const ERROR_PAGE: string := "/error"

  /** The routes a signed-out visitor may open. */
  predicate IsPublic(path: string)
  {
    path in {"/", "/api/webhook/register", SIGN_IN, "/sign-up"}
  }

  /** The identity provider's answer when asked for the user's role. */
  datatype RoleLookup = Found(role: Option<string>) | LookupFailed

  datatype Decision = Pass | Redirect(location: string)

  /** The middleware as written: the rules are tried in order and the first match wins. */
  function Route(path: string, userId: Option<string>, lookup: RoleLookup): Decision
  {
    if path == STRIPE_ROUTE then Pass
    else if !Present(userId) then
      if IsPublic(path) then Pass else Redirect(SIGN_IN)
    else
      match lookup
      case LookupFailed => Redirect(ERROR_PAGE)
      case Found(role) =>
        if IsAdmin(role) && path == DASHBOARD then Redirect(ADMIN_DASHBOARD)
        else if !IsAdmin(role) && ADMIN_PREFIX <= path then Redirect(DASHBOARD)
        else if IsPublic(path) then Redirect(if IsAdmin(role) then ADMIN_DASHBOARD else DASHBOARD)
        else Pass
  }

  /** The middleware with the error page exempt from the redirect to itself. */
  function RouteGuarded(path: string, userId: Option<string>, lookup: RoleLookup): (d: Decision)
    ensures lookup.Found? || path != ERROR_PAGE ==> d == Route(path, userId, lookup)
  {
    if Present(userId) && lookup.LookupFailed? && path == ERROR_PAGE then Pass
    else Route(path, userId, lookup)
  }

  /** The Stripe webhook path always passes, whoever asks. */
  lemma StripeRouteAlwaysPasses(userId: Option<string>, lookup: RoleLookup)
    ensures Route(STRIPE_ROUTE, userId, lookup) == Pass
  {
  }

  /** A signed-out request is sent to the sign-in page exactly when its path is
      neither public nor the Stripe webhook; otherwise it passes. */
  lemma SignedOutRedirect(path: string, userId: Option<string>, lookup: RoleLookup)
    requires !Present(userId)
    ensures Route(path, userId, lookup) ==
            if path != STRIPE_ROUTE && !IsPublic(path) then Redirect(SIGN_IN) else Pass
  {
  }

  /** The rules for a signed-in user whose role was found, in their order. */
  lemma SignedInRules(path: string, userId: string, role: Option<string>)
    requires userId != "" && path != STRIPE_ROUTE
    ensures role == Some("admin") && path == DASHBOARD ==>
              Route(path, Some(userId), Found(role)) == Redirect(ADMIN_DASHBOARD)
    ensures role != Some("admin") && ADMIN_PREFIX <= path ==>
              Route(path, Some(userId), Found(role)) == Redirect(DASHBOARD)
    ensures IsPublic(path) ==>
              Route(path, Some(userId), Found(role)) == Redirect(if role == Some("admin") then ADMIN_DASHBOARD else DASHBOARD)
    ensures Route(path, Some(userId), Found(role)) == Pass <==>
              !IsPublic(path) && !(role == Some("admin") && path == DASHBOARD) && !(role != Some("admin") && ADMIN_PREFIX <= path)
  {
  }

  /** A failed role lookup sends a signed-in user to the error page. */
  lemma LookupFailureRedirectsToError(path: string, userId: string)
    requires userId != "" && path != STRIPE_ROUTE
    ensures Route(path, Some(userId), LookupFailed) == Redirect(ERROR_PAGE)
  {
  }

  /** When the role is found, every redirect target passes when requested again
      by the same user with the same role: no redirect loop. */
  lemma NoRedirectLoop(path: string, userId: Option<string>, role: Option<string>)
    ensures Route(path, userId, Found(role)).Redirect? ==>
            Route(Route(path, userId, Found(role)).location, userId, Found(role)) == Pass
  {
    assert !IsPublic(DASHBOARD) && !IsPublic(ADMIN_DASHBOARD) && !IsPublic(ERROR_PAGE);
    assert DASHBOARD[1] != ADMIN_PREFIX[1];
    assert ADMIN_DASHBOARD[..|ADMIN_PREFIX|] == ADMIN_PREFIX;
  }

  /** As written, a lookup that keeps failing redirects the error page to itself. */
  lemma ErrorPageRedirectsToItself(userId: string)
    requires userId != ""
    ensures Route(ERROR_PAGE, Some(userId), LookupFailed) == Redirect(ERROR_PAGE)
  {
  }

  /** With the error page exempt, every redirect target passes when requested
      again with the same user and the same lookup outcome, failed or not. */
  lemma GuardedNoRedirectLoop(path: string, userId: Option<string>, lookup: RoleLookup)
    ensures RouteGuarded(path, userId, lookup).Redirect? ==>
            RouteGuarded(RouteGuarded(path, userId, lookup).location, userId, lookup) == Pass
  {
    if lookup.Found? {
      NoRedirectLoop(path, userId, lookup.role);
      var d := Route(path, userId, lookup);
      if d.Redirect? {
        assert d.location != ERROR_PAGE;
      }
    } else {
      assert !IsPublic(ERROR_PAGE) && ERROR_PAGE != STRIPE_ROUTE;
    }
  }
}
