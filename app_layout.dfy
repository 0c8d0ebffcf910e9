/** The side menu of src/components/AppLayout.jsx: the items each role is offered, when an
    item is highlighted, and the role caption. */
module AppLayout {
  import opened Js
  import opened Text
  import Navbar

  /** One `NavItem`; the icon is left out. */
  datatype NavItem = NavItem(to: string, text: string)

  /** The items under the three `role === ...` blocks, in page order. */
  function NavItems(role: Json): (items: seq<NavItem>)
    ensures role == Str("ADMIN") ==>
      items == [NavItem("/admin", "Panel Admin"), NavItem("/pediatric", "Vista Pediatra"),
                NavItem("/representative", "Vista Representante")]
    ensures role == Str("PEDIATRA") ==> items == [NavItem("/pediatric", "Panel Pediatra")]
    ensures role == Str("REPRESENTANTE") ==> items == [NavItem("/representative", "Mis hijos")]
    ensures !Navbar.IsKnownRole(role) ==> items == []
  {
    (if role == Str("ADMIN") then
      [NavItem("/admin", "Panel Admin"), NavItem("/pediatric", "Vista Pediatra"),
       NavItem("/representative", "Vista Representante")]
     else []) +
    (if role == Str("PEDIATRA") then [NavItem("/pediatric", "Panel Pediatra")] else []) +
    (if role == Str("REPRESENTANTE") then [NavItem("/representative", "Mis hijos")] else [])
  }

  /** Only an administrator is offered more than one page; every item of any role opens one of
      the three dashboards. */
  lemma NavItemsTargets(role: Json)
    ensures |NavItems(role)| <= 1 || role == Str("ADMIN")
    ensures forall k :: 0 <= k < |NavItems(role)| ==>
      NavItems(role)[k].to in {"/admin", "/pediatric", "/representative"}
  {
    assert "ADMIN"[0] == 'A' && "PEDIATRA"[0] == 'P' && "REPRESENTANTE"[0] == 'R';
  }

  /** `loc.pathname.startsWith(to)`: a bare prefix test. */
  predicate ItemActive(pathname: string, to: string) {
    StartsWith(pathname, to)
  }

  /** Whatever the top bar highlights, the side menu highlights too. */
  lemma NavbarActiveImpliesItemActive(pathname: string, to: string)
    requires Navbar.IsActive(pathname, to)
    ensures ItemActive(pathname, to)
  {
  }

  /** The converse fails: an item's route followed by anything that does not start a new
      segment, such as "/admin" in "/administrator", lights up the side menu's item but not
      the top bar's link. */
  lemma PrefixWithoutBoundary(to: string, rest: string)
    requires rest != [] && rest[0] != '/'
    ensures ItemActive(to + rest, to)
    ensures !Navbar.IsActive(to + rest, to)
  {
    assert (to + rest)[..|to|] == to;
    assert (to + rest)[|to|] == rest[0];
    Navbar.ActiveAtSegmentBoundary(to + rest, to);
  }

  /** "/administrator" is such a path for the "/admin" item. */
  lemma AdministratorPath()
    ensures ItemActive("/administrator", "/admin") && !Navbar.IsActive("/administrator", "/admin")
  {
    assert "/admin" + "istrator" == "/administrator";
    PrefixWithoutBoundary("/admin", "istrator");
  }

  /** The caption under the title: "Rol: <role>" for a truthy role, "—" otherwise. */
  function RoleLabel(role: Json): (t: string)
    ensures IsFalsy(role) ==> t == "—"
    ensures IsTruthy(role) ==> t == "Rol: " + ToStr(role)
  {
    if IsTruthy(role) then "Rol: " + ToStr(role) else "—"
  }
}
