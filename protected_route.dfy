/** The guard around private pages, and where the login page sends a user it guarded. */
module ProtectedRoute {
  import opened Wrappers

  datatype Location = Location(pathname: string, search: string, hash: string)

  /** What the guard renders. */
  datatype Rendered = PageLoader | Redirect(to: string, from: Location) | Children

  /** `redirectTo` defaults to "/login" when not given. */
  function Guard(isLoading: bool, isAuthenticated: bool, location: Location, redirectTo: Option<string>): (r: Rendered)
    ensures isLoading ==> r == PageLoader
    ensures !isLoading && !isAuthenticated ==> r == Redirect(redirectTo.GetOr("/login"), location)
    ensures !isLoading && isAuthenticated ==> r == Children
  {
    if isLoading then PageLoader
    else if !isAuthenticated then Redirect(redirectTo.GetOr("/login"), location)
    else Children
  }

  /** `location.state?.from?.pathname || '/dashboard'`. */
  function LoginDestination(from: Option<Location>): string {
    if from.Some? && from.value.pathname != "" then from.value.pathname else "/dashboard"
  }

  /** A user turned away from a page is sent back to it after logging in; one who came straight to login goes to the dashboard. */
  lemma ReturnAfterLogin(location: Location, redirectTo: Option<string>)
    requires location.pathname != ""
    ensures var r := Guard(false, false, location, redirectTo);
      r.Redirect? && LoginDestination(Some(r.from)) == location.pathname
    ensures LoginDestination(None) == "/dashboard"
  {
  }
}
