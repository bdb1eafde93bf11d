/** The route guard wrapped around pages: a spinner while the session is
    loading, redirects for pages that need (or must not have) a signed-in
    user, and the page itself otherwise. */
module RouteGuard {
  import opened Common

  /** The router location the user was trying to reach, kept as its path. */
  type Location = string

  datatype Outcome =
    | Spinner
    | Redirect(to: string, fromLocation: Option<Location>, replace: bool)
    | Children

  /** `requireAuth = true` applies when the prop is not given. */
  function RequireAuth(prop: Option<bool>): bool
  {
    if prop.None? then true else prop.value
  }

  /** ProtectedRoute's cascade of early returns. */
  function Guard(loading: bool, requireAuthProp: Option<bool>, signedIn: bool, location: Location): Outcome
  {
    var requireAuth := RequireAuth(requireAuthProp);
    if loading then Spinner
    else if requireAuth && !signedIn then Redirect("/login", Some(location), true)
    else if !requireAuth && signedIn then Redirect("/dashboard/student", None, true)
    else Children
  }

  /** Each outcome and exactly the inputs that lead to it. */
  lemma GuardOutcomes(loading: bool, prop: Option<bool>, signedIn: bool, location: Location)
    ensures Guard(loading, prop, signedIn, location).Spinner? <==> loading
    ensures Guard(loading, prop, signedIn, location) == Redirect("/login", Some(location), true) <==>
      !loading && RequireAuth(prop) && !signedIn
    ensures Guard(loading, prop, signedIn, location) == Redirect("/dashboard/student", None, true) <==>
      !loading && !RequireAuth(prop) && signedIn
    ensures Guard(loading, prop, signedIn, location).Children? <==>
      !loading && RequireAuth(prop) == signedIn
    ensures Guard(loading, prop, signedIn, location).Redirect? ==> Guard(loading, prop, signedIn, location).replace
  {
  }

  /** Leaving the prop out is the same as passing true. */
  lemma RequireAuthDefault(loading: bool, signedIn: bool, location: Location)
    ensures Guard(loading, None, signedIn, location) == Guard(loading, Some(true), signedIn, location)
  {
  }

  /** A page that requires a user is never shown to a visitor, and a page
      for visitors only (sign-in, sign-up) is never shown to a user. */
  lemma GuardSafety(loading: bool, prop: Option<bool>, signedIn: bool, location: Location)
    requires Guard(loading, prop, signedIn, location).Children?
    ensures RequireAuth(prop) ==> signedIn
    ensures !RequireAuth(prop) ==> !signedIn
  {
  }
}
