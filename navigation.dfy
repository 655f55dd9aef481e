/**
 * The two navigation bars of the front end: the role-dependent route list
 * of `MainNav`, whose entries are active on an exact path match, and the
 * item variant of `ReusableNavbar`, where an item is also highlighted on
 * paths below it unless it is "/admin" or "/".
 */
module Navigation {
  import opened Wrappers
  import opened Text
  import opened Roles

  /** One entry of `MainNav`'s route list. */
  datatype NavRoute = NavRoute(href: string, caption: string, active: bool)

  function Hrefs(routes: seq<NavRoute>): seq<string>
  {
    seq(|routes|, i requires 0 <= i < |routes| => routes[i].href)
  }

  function Entry(href: string, caption: string, pathname: string): NavRoute
  {
    NavRoute(href, caption, pathname == href)
  }

  /** `setRoutes`: the route list for the signed-in user's role (`None` when
      nobody is signed in), each entry active exactly when `pathname` equals its href. */
  function SetRoutes(role: Option<UserRole>, pathname: string): (routes: seq<NavRoute>)
    ensures role == Some(CLUB_MANAGER) ==> Hrefs(routes) == ["/dashboard", "/myclub", "/myevents", "/members"]
    ensures role == Some(SAO_ADMIN) ==> Hrefs(routes) == ["/dashboard", "/clubs", "/events", "/members"]
    ensures role != Some(CLUB_MANAGER) && role != Some(SAO_ADMIN) ==>
      Hrefs(routes) == ["/dashboard", "/clubs", "/events"]
    ensures forall i :: 0 <= i < |routes| ==> (routes[i].active <==> pathname == routes[i].href)
  {
    if role == Some(CLUB_MANAGER) then
      [Entry("/dashboard", "Dashboard", pathname), Entry("/myclub", "My Club", pathname),
       Entry("/myevents", "My Events", pathname), Entry("/members", "Members", pathname)]
    else if role == Some(SAO_ADMIN) then
      [Entry("/dashboard", "Dashboard", pathname), Entry("/clubs", "Clubs", pathname),
       Entry("/events", "Events", pathname), Entry("/members", "Members", pathname)]
    else
      [Entry("/dashboard", "Dashboard", pathname), Entry("/clubs", "Clubs", pathname),
       Entry("/events", "Events", pathname)]
  }

  /** Every list starts at the dashboard, and the hrefs of a list are distinct,
      so at most one entry is active for any path. */
  lemma AtMostOneActive(role: Option<UserRole>, pathname: string)
    ensures |SetRoutes(role, pathname)| > 0 && SetRoutes(role, pathname)[0].href == "/dashboard"
    ensures forall i, j :: 0 <= i < j < |SetRoutes(role, pathname)| ==>
      SetRoutes(role, pathname)[i].href != SetRoutes(role, pathname)[j].href
    ensures forall i, j ::
      (0 <= i < |SetRoutes(role, pathname)| && 0 <= j < |SetRoutes(role, pathname)| &&
       SetRoutes(role, pathname)[i].active && SetRoutes(role, pathname)[j].active) ==> i == j
  {
    var routes := SetRoutes(role, pathname);
    assert forall i :: 0 <= i < |routes| ==> routes[i].href == Hrefs(routes)[i];
  }

  /** An href carries the same label in every role's list. */
  lemma LabelsAgreeAcrossRoles(r1: Option<UserRole>, r2: Option<UserRole>, pathname: string, i: int, j: int)
    requires 0 <= i < |SetRoutes(r1, pathname)| && 0 <= j < |SetRoutes(r2, pathname)|
    requires SetRoutes(r1, pathname)[i].href == SetRoutes(r2, pathname)[j].href
    ensures SetRoutes(r1, pathname)[i] == SetRoutes(r2, pathname)[j]
  {
  }

  /** The button variant of a `ReusableNavbar` item. */
  datatype Variant = Secondary | Ghost

  /** The variant of the item `href` on page `pathname`. */
  function ItemVariant(pathname: string, href: string): (v: Variant)
    ensures pathname == href ==> v == Secondary
    ensures (href == "/admin" || href == "/") ==> (v == Secondary <==> pathname == href)
    ensures href != "/admin" && href != "/" ==> (v == Secondary <==> StartsWith(pathname, href))
  {
    if pathname == href || (StartsWith(pathname, href) && href != "/admin" && href != "/")
    then Secondary
    else Ghost
  }

  /** The admin layout's items, in order. */
  const ADMIN_NAV_ITEMS: seq<string> := ["/admin", "/admin/clubs", "/admin/events", "/admin/members"]

  /** With the admin layout's items, at most one button is highlighted on any page. */
  lemma AdminNavHighlightsAtMostOne(pathname: string, i: int, j: int)
    requires 0 <= i < |ADMIN_NAV_ITEMS| && 0 <= j < |ADMIN_NAV_ITEMS|
    requires ItemVariant(pathname, ADMIN_NAV_ITEMS[i]) == Secondary
    requires ItemVariant(pathname, ADMIN_NAV_ITEMS[j]) == Secondary
    ensures i == j
  {
    forall k | 1 <= k < |ADMIN_NAV_ITEMS|
      ensures StartsWith(pathname, ADMIN_NAV_ITEMS[k]) ==> pathname[7] == ADMIN_NAV_ITEMS[k][7]
    {
      if StartsWith(pathname, ADMIN_NAV_ITEMS[k]) {
        assert pathname[7] == pathname[..|ADMIN_NAV_ITEMS[k]|][7];
      }
    }
  }
}
