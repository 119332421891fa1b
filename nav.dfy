/**
 * The navigation bar: whether the current page is an admin page, the
 * active-link rule, and which links appear.
 */
module Nav {
  import opened Text

  /** `pathname.startsWith('/admin')` */
  predicate IsAdminPage(pathname: string)
  {
    StartsWith(pathname, "/admin")
  }

  const AppTitle: string := "Grocery Tracker"
  const AdminSuffix: string := " - Admin"

  /** The heading: the app title, with " - Admin" on admin pages. */
  function Title(pathname: string): (t: string)
    ensures AppTitle <= t
  {
    AppTitle + (if IsAdminPage(pathname) then AdminSuffix else "")
  }

  /** The heading carries the admin suffix exactly on admin pages. */
  lemma TitleMarksAdmin(pathname: string)
    ensures Title(pathname)[|AppTitle|..] == AdminSuffix <==> IsAdminPage(pathname)
    ensures !IsAdminPage(pathname) ==> Title(pathname) == AppTitle
  {
    assert (AppTitle + AdminSuffix)[|AppTitle|..] == AdminSuffix;
  }

  /**
   * The active-link rule: the exact path, or for every link but the
   * dashboard any pathname that starts with the link's path.
   */
  predicate IsActive(pathname: string, path: string)
  {
    pathname == path || (path != "/dashboard" && StartsWith(pathname, path))
  }

  const ActiveStyle: string := "text-blue-600 border-blue-600"
  const InactiveStyle: string := "text-gray-600 border-transparent hover:text-gray-900 hover:border-gray-300"
  /** The fixed class of the two links that never use the active rule. */
  const PlainStyle: string := "text-gray-600 hover:text-gray-900"

  /** `getLinkClass(path)` */
  function LinkClass(pathname: string, path: string): (c: string)
  {
    "font-medium border-b-2 " + (if IsActive(pathname, path) then ActiveStyle else InactiveStyle) + " transition-colors"
  }

  /** A link is styled active exactly when the active-link rule holds. */
  lemma LinkClassActiveIff(pathname: string, path: string)
    ensures LinkClass(pathname, path) == LinkClass(path, path) <==> IsActive(pathname, path)
  {
    if !IsActive(pathname, path) {
      assert |LinkClass(path, path)| != |LinkClass(pathname, path)|;
    }
  }

  /** The dashboard link is active only on the dashboard itself. */
  lemma DashboardExactOnly(pathname: string)
    ensures IsActive(pathname, "/dashboard") <==> pathname == "/dashboard"
  {
  }

  /** Prefix matching is on raw text, so '/stores' is active on '/storesX'. */
  lemma RawPrefixMatch()
    ensures IsActive("/storesX", "/stores")
    ensures IsActive("/stores/aldi", "/stores")
    ensures !IsActive("/dashboard/x", "/dashboard")
  {
    assert "/stores" <= "/storesX";
    assert "/stores" <= "/stores/aldi";
  }

  // ---------------------------------------------------------------------------
  // Links

  datatype LinkKind = BackToDashboard | AdminStores | ApiLogs | Receipts | Analytics | Stores | AdminEntry

  datatype Link = Link(kind: LinkKind, href: string, style: string)

  /** The links shown, in order, for the page and the user's admin flag. */
  function Links(pathname: string, isAdmin: bool): (r: seq<Link>)
    ensures IsAdminPage(pathname) ==>
      && |r| == 3 && r[0] == Link(BackToDashboard, "/dashboard", PlainStyle)
      && [r[1].kind, r[2].kind] == [AdminStores, ApiLogs]
      && [r[1].href, r[2].href] == ["/admin/stores", "/admin/api-logs"]
    ensures !IsAdminPage(pathname) ==>
      && |r| == (if isAdmin then 4 else 3)
      && [r[0].kind, r[1].kind, r[2].kind] == [Receipts, Analytics, Stores]
      && [r[0].href, r[1].href, r[2].href] == ["/dashboard", "/analytics", "/stores"]
      && (isAdmin ==> r[3].href == "/admin/stores")
    ensures (exists i :: 0 <= i < |r| && r[i].kind == AdminEntry) <==> !IsAdminPage(pathname) && isAdmin
    ensures forall i :: 0 <= i < |r| && r[i].kind != BackToDashboard && r[i].kind != AdminEntry ==>
      r[i].style == LinkClass(pathname, r[i].href)
  {
    if IsAdminPage(pathname) then
      [Link(BackToDashboard, "/dashboard", PlainStyle),
       Link(AdminStores, "/admin/stores", LinkClass(pathname, "/admin/stores")),
       Link(ApiLogs, "/admin/api-logs", LinkClass(pathname, "/admin/api-logs"))]
    else
      var main := [Link(Receipts, "/dashboard", LinkClass(pathname, "/dashboard")),
                   Link(Analytics, "/analytics", LinkClass(pathname, "/analytics")),
                   Link(Stores, "/stores", LinkClass(pathname, "/stores"))];
      if isAdmin then
        var r := main + [Link(AdminEntry, "/admin/stores", PlainStyle + " transition-colors text-sm")];
        assert r[3].kind == AdminEntry;
        r
      else main
  }

  /** On admin pages no link to the dashboard is ever styled active. */
  lemma AdminPagesNeverHighlightDashboard(pathname: string, isAdmin: bool)
    requires IsAdminPage(pathname)
    ensures forall l :: l in Links(pathname, isAdmin) && l.href == "/dashboard" ==> l.style != LinkClass("/dashboard", "/dashboard")
  {
    var r := Links(pathname, isAdmin);
    assert r[1].href != "/dashboard" && r[2].href != "/dashboard";
    assert PlainStyle[0] != LinkClass("/dashboard", "/dashboard")[0];
  }
}
