/** The navigation bar: its four links and which of them is highlighted for the current route. */
module Navbar {
  import opened Text

  datatype NavItem = NavItem(name: string, path: string)

  const HOME_PATH := "/dashboard"

  const NAV_ITEMS: seq<NavItem> := [
    NavItem("Home", HOME_PATH),
    NavItem("Habits", "/dashboard/habits"),
    NavItem("Focus", "/dashboard/focus"),
    NavItem("Profile", "/dashboard/profile")
  ]

  /** An item is active on its own path, and every item but Home also on any route that starts with its path. */
  predicate IsActive(pathname: string, item: NavItem)
  {
    pathname == item.path || (item.path != HOME_PATH && StartsWith(pathname, item.path))
  }

  /** The indices of the highlighted items, in bar order. */
  function ActiveItems(pathname: string): (r: seq<nat>)
    ensures forall k | 0 <= k < |r| :: r[k] < |NAV_ITEMS| && IsActive(pathname, NAV_ITEMS[r[k]])
    ensures forall i | 0 <= i < |NAV_ITEMS| :: IsActive(pathname, NAV_ITEMS[i]) ==> i in r
  {
    ActiveFrom(pathname, 0)
  }

  function ActiveFrom(pathname: string, i: nat): (r: seq<nat>)
    requires i <= |NAV_ITEMS|
    ensures forall k | 0 <= k < |r| :: i <= r[k] < |NAV_ITEMS| && IsActive(pathname, NAV_ITEMS[r[k]])
    ensures forall j | i <= j < |NAV_ITEMS| :: IsActive(pathname, NAV_ITEMS[j]) ==> j in r
    decreases |NAV_ITEMS| - i
  {
    if i == |NAV_ITEMS| then []
    else (if IsActive(pathname, NAV_ITEMS[i]) then [i] else []) + ActiveFrom(pathname, i + 1)
  }

  /** Home is highlighted on `/dashboard` only, not on the routes below it. */
  lemma HomeOnlyOnExactPath(pathname: string)
    ensures IsActive(pathname, NAV_ITEMS[0]) <==> pathname == HOME_PATH
  {
  }

  /** A route below a section highlights that section and not Home. */
  lemma SubrouteHighlightsSection()
    ensures IsActive("/dashboard/habits/sleep", NAV_ITEMS[1])
    ensures !IsActive("/dashboard/habits/sleep", NAV_ITEMS[0])
  {
    assert "/dashboard/habits/sleep"[..|"/dashboard/habits"|] == "/dashboard/habits";
  }

  /** The test is a plain prefix test: `/dashboard/focusmode` highlights Focus as well. */
  lemma PrefixNotSegment()
    ensures IsActive("/dashboard/focusmode", NAV_ITEMS[2])
  {
    assert "/dashboard/focusmode"[..|"/dashboard/focus"|] == "/dashboard/focus";
  }

  /** A route below one section's path cannot start with a path that differs from it at character 11. */
  lemma SectionExcludes(s: string, p: string, q: string)
    requires StartsWith(s, p) && |p| > 11 && |q| > 11 && p[11] != q[11]
    ensures !StartsWith(s, q)
  {
    assert s[11] == s[..|p|][11];
  }

  /** When one item is highlighted, no other item is. */
  lemma ActiveExcludesOthers(pathname: string, i: nat, j: nat)
    requires i < |NAV_ITEMS| && j < |NAV_ITEMS| && i != j
    requires IsActive(pathname, NAV_ITEMS[i])
    ensures !IsActive(pathname, NAV_ITEMS[j])
  {
    if i != 0 && j != 0 {
      var p, q := NAV_ITEMS[i].path, NAV_ITEMS[j].path;
      assert StartsWith(pathname, p);
      assert |p| > 11 && |q| > 11 && p[11] != q[11];
      SectionExcludes(pathname, p, q);
    }
  }

  /** No route highlights two items. */
  lemma AtMostOneActive(pathname: string, i: nat, j: nat)
    requires i < |NAV_ITEMS| && j < |NAV_ITEMS|
    ensures IsActive(pathname, NAV_ITEMS[i]) && IsActive(pathname, NAV_ITEMS[j]) ==> i == j
  {
    if i != j && IsActive(pathname, NAV_ITEMS[i]) {
      ActiveExcludesOthers(pathname, i, j);
    }
  }
}
