/** The floating navigation dock: the links offered and the filter that hides the current page's link. */
module GlobalNavigation {
  import opened JsString
  import opened Seqs

  /** A dock entry; the icon is not modelled and Logout's click handler is represented by its title. */
  datatype NavLink = NavLink(title: string, href: string)

  const HOME := NavLink("Home", "/")
  const PLAY := NavLink("Play", "/lobby")
  const LEADERBOARD := NavLink("Leaderboard", "/leaderboard")
  const DASHBOARD := NavLink("Dashboard", "/dashboard")
  const PROFILE := NavLink("Profile", "/profile")
  const LOGOUT := NavLink("Logout", "/login")
  const LOGIN := NavLink("Login", "/login")

  /** `allLinks`: three public links, then the signed-in links or the Login link. */
  function AllLinks(isAuthenticated: bool): seq<NavLink> {
    [HOME, PLAY, LEADERBOARD] + (if isAuthenticated then [DASHBOARD, PROFILE, LOGOUT] else [LOGIN])
  }

  /** Whether a link stays in the dock on a path: Home on an exact match, the others on a raw prefix match. */
  function ShownOn(currentPath: string): NavLink -> bool {
    (link: NavLink) =>
      !(link.href == "/" && currentPath == "/") && !(link.href != "/" && StartsWith(currentPath, link.href))
  }

  function VisibleLinks(isAuthenticated: bool, currentPath: string): seq<NavLink> {
    Filter(AllLinks(isAuthenticated), ShownOn(currentPath))
  }

  /**
   * The dock keeps, in their order, exactly the links the current path does not hide:
   * Home is hidden only on "/" itself, every other link whenever the path starts with its href.
   */
  lemma VisibleLinksFilter(isAuthenticated: bool, currentPath: string, link: NavLink)
    ensures Sublist(VisibleLinks(isAuthenticated, currentPath), AllLinks(isAuthenticated))
    ensures link in VisibleLinks(isAuthenticated, currentPath) <==>
      link in AllLinks(isAuthenticated)
      && (if link.href == "/" then currentPath != "/" else !StartsWith(currentPath, link.href))
  {
    FilterIsSublist(AllLinks(isAuthenticated), ShownOn(currentPath));
    FilterMembership(AllLinks(isAuthenticated), ShownOn(currentPath), link);
  }

  /** Signed in the dock offers six links, signed out four, in the order written. */
  lemma AllLinksOrder()
    ensures AllLinks(true) == [HOME, PLAY, LEADERBOARD, DASHBOARD, PROFILE, LOGOUT]
    ensures AllLinks(false) == [HOME, PLAY, LEADERBOARD, LOGIN]
  {
  }

  /** Home is offered on every page but "/". */
  lemma HomeHiddenOnlyAtRoot(isAuthenticated: bool, currentPath: string)
    ensures HOME in VisibleLinks(isAuthenticated, currentPath) <==> currentPath != "/"
  {
    VisibleLinksFilter(isAuthenticated, currentPath, HOME);
  }

  /** Logout shares Login's href, so a signed-in user on any "/login…" path gets no Logout link. */
  lemma LogoutHiddenOnLoginPaths(currentPath: string)
    requires StartsWith(currentPath, "/login")
    ensures LOGOUT !in VisibleLinks(true, currentPath)
  {
    VisibleLinksFilter(true, currentPath, LOGOUT);
  }

  /** The prefix test also hides Profile on a profile sub-page. */
  lemma ProfileHiddenOnSubpage()
    ensures PROFILE !in VisibleLinks(true, "/profile/42")
  {
    assert StartsWith("/profile/42", "/profile");
    VisibleLinksFilter(true, "/profile/42", PROFILE);
  }
}
