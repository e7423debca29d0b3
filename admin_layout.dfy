/** The admin shell of src/components/admin/AdminLayout.tsx: the navigation, the
    header title chosen from it, and the mobile sidebar's open flag. */
module AdminLayout {
  import opened Wrappers
  import opened Seqs

  datatype NavItem = NavItem(name: string, href: string)

  /** The navigation entries, in order; "All Cars" links to the dashboard too. */
  const Navigation: seq<NavItem> := [
    NavItem("Dashboard", "/admin/dashboard"),
    NavItem("All Cars", "/admin/dashboard"),
    NavItem("Add New Car", "/admin/cars/new")]

  /** `isActive(path)`: the current pathname is exactly `path`. */
  predicate IsActive(pathname: string, path: string) {
    pathname == path
  }

  /** `navigation.find(item => isActive(item.href))?.name || 'Dashboard'`. */
  function HeaderTitle(pathname: string): (t: string)
    ensures (forall i :: 0 <= i < |Navigation| ==> !IsActive(pathname, Navigation[i].href)) ==> t == "Dashboard"
    ensures forall i :: 0 <= i < |Navigation| && IsActive(pathname, Navigation[i].href)
                        && (forall j :: 0 <= j < i ==> !IsActive(pathname, Navigation[j].href))
                        ==> t == Navigation[i].name
  {
    match FirstIndex(Navigation, (item: NavItem) => IsActive(pathname, item.href))
    case None => "Dashboard"
    case Some(i) => if Navigation[i].name != "" then Navigation[i].name else "Dashboard"
  }

  /** The title for every pathname: "Add New Car" on its page, "Dashboard" anywhere else. */
  lemma HeaderTitleCases(pathname: string)
    ensures HeaderTitle(pathname) == if pathname == "/admin/cars/new" then "Add New Car" else "Dashboard"
  {
    if pathname == "/admin/dashboard" {
      assert IsActive(pathname, Navigation[0].href);
    } else if pathname == "/admin/cars/new" {
      assert !IsActive(pathname, Navigation[0].href) && !IsActive(pathname, Navigation[1].href);
      assert IsActive(pathname, Navigation[2].href);
    }
  }

  /** "All Cars" shares the dashboard's href behind an earlier entry, so it is never the title. */
  lemma AllCarsNeverTitle(pathname: string)
    ensures HeaderTitle(pathname) != "All Cars"
  {
    HeaderTitleCases(pathname);
  }

  /** The mobile sidebar. */
  class Sidebar {
    var sidebarOpen: bool

    constructor()
      ensures !sidebarOpen
    {
      sidebarOpen := false;
    }

    /** The menu button. */
    method Open()
      modifies this
      ensures sidebarOpen
    {
      sidebarOpen := true;
    }

    /** The close button, the backdrop, and any navigation link. */
    method Close()
      modifies this
      ensures !sidebarOpen
    {
      sidebarOpen := false;
    }
  }
}
