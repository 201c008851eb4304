/** The bottom navigation bar of Navbar.jsx: which item is highlighted for the current path. */
module Navbar {

  datatype NavItem = NavItem(to: string, caption: string)

  const NavItems: seq<NavItem> := [
    NavItem("/", "Главная"),
    NavItem("/flavors", "Вкусы"),
    NavItem("/mixes", "Миксы"),
    NavItem("/profile", "Профиль")]

  /** `isActive`: the exact path, or for every item but the root, a path that starts with it. */
  predicate IsActive(pathname: string, to: string): (b: bool)
    ensures to == "/" ==> (b <==> pathname == "/")
    ensures pathname == to ==> b
    ensures b ==> to <= pathname
  {
    pathname == to || (to != "/" && to <= pathname)
  }

  /** Two prefixes of one path agree on their common length. */
  lemma PrefixesAgree(a: string, b: string, p: string, k: nat)
    requires a <= p && b <= p && k < |a| && k < |b|
    ensures a[k] == b[k]
  {
    assert a[k] == p[k];
  }

  /** For the app's items, no path lights two of them. */
  lemma AtMostOneActive(pathname: string, i: nat, j: nat)
    requires i < j < |NavItems|
    ensures !(IsActive(pathname, NavItems[i].to) && IsActive(pathname, NavItems[j].to))
  {
    var a, b := NavItems[i].to, NavItems[j].to;
    if i == 0 {
      assert |b| > 1 && b != "/";
    } else if a <= pathname && b <= pathname {
      PrefixesAgree(a, b, pathname, 1);
    }
  }
}
