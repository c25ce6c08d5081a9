/**
 * The dashboard's side navigation: a declared list of five links, each with a visibility
 * condition on the viewer's role and whether they own an approved startup, filtered in order;
 * the link whose address is the current path is highlighted, and the role is shown as a label.
 */
module DashboardNav {
  import opened Wrappers
  import opened Types
  import Roles
  import opened Sequences

  datatype NavItem = NavItem(href: string, text: string, show: bool)

  /** The declared list, for a role and the owner flag (which defaults to false). */
  function NavItems(role: string, isApprovedOwner: bool): (r: seq<NavItem>)
    ensures |r| == 5
  {
    [ NavItem("/dashboard", "Panel principal", true),
      NavItem("/dashboard/my-startup", "Mi Startup", role == "entrepreneur" && isApprovedOwner),
      NavItem("/dashboard/profile", "Mi perfil", true),
      NavItem("/admin", "Reclamos Pendientes", role == "admin"),
      NavItem("/admin/users", "Usuarios", role == "admin") ]
  }

  /** `items.filter(item => item.show)`. */
  function Visible(items: seq<NavItem>): (r: seq<NavItem>)
    ensures |r| <= |items|
  {
    if items == [] then []
    else (if items[0].show then [items[0]] else []) + Visible(items[1..])
  }

  /** The filter keeps exactly the links marked to show. */
  lemma {:induction false} VisibleMembers(items: seq<NavItem>, it: NavItem)
    ensures it in Visible(items) <==> it in items && it.show
  {
    if items != [] {
      VisibleMembers(items[1..], it);
      assert items == [items[0]] + items[1..];
    }
  }

  /** The filter keeps the declared order. */
  lemma {:induction false} VisibleKeepsOrder(items: seq<NavItem>)
    ensures SubsequenceOf(Visible(items), items)
  {
    if items != [] {
      VisibleKeepsOrder(items[1..]);
      if items[0].show {
        assert Visible(items) == [items[0]] + Visible(items[1..]);
        assert Visible(items)[1..] == Visible(items[1..]);
      } else {
        assert Visible(items) == Visible(items[1..]);
        SkipHead(Visible(items[1..]), items);
      }
    }
  }

  /** The links a user sees, their role read as everywhere else. */
  function VisibleItems(user: AuthUser, isApprovedOwner: bool): seq<NavItem> {
    Visible(NavItems(Roles.GetUserRole(Some(user)), isApprovedOwner))
  }

  function Hrefs(items: seq<NavItem>): (r: seq<string>)
    ensures |r| == |items|
    ensures forall i :: 0 <= i < |items| ==> r[i] == items[i].href
  {
    if items == [] then [] else [items[0].href] + Hrefs(items[1..])
  }

  /** The part of the filter's result one link contributes. */
  function Shown(it: NavItem): seq<NavItem> {
    if it.show then [it] else []
  }

  /** The filter of a five-link list, one link at a time. */
  lemma VisibleOfFive(items: seq<NavItem>)
    requires |items| == 5
    ensures Visible(items) == Shown(items[0]) + (Shown(items[1]) + (Shown(items[2]) + (Shown(items[3]) + Shown(items[4]))))
  {
    assert items[4..][1..] == [];
    assert Visible(items[4..]) == Shown(items[4]);
    assert items[3..][1..] == items[4..];
    assert Visible(items[3..]) == Shown(items[3]) + Visible(items[4..]);
    assert items[2..][1..] == items[3..];
    assert Visible(items[2..]) == Shown(items[2]) + Visible(items[3..]);
    assert items[1..][1..] == items[2..];
    assert Visible(items[1..]) == Shown(items[1]) + Visible(items[2..]);
    assert Visible(items) == Shown(items[0]) + Visible(items[1..]);
  }

  /**
   * The links for each kind of viewer: everyone gets the overview and the profile, an
   * entrepreneur who owns an approved startup also gets it between them, and an admin gets the
   * two admin links after them.
   */
  lemma NavForRole(role: string, isApprovedOwner: bool)
    ensures role == "entrepreneur" && isApprovedOwner ==>
      Hrefs(Visible(NavItems(role, isApprovedOwner))) == ["/dashboard", "/dashboard/my-startup", "/dashboard/profile"]
    ensures role == "admin" ==>
      Hrefs(Visible(NavItems(role, isApprovedOwner))) == ["/dashboard", "/dashboard/profile", "/admin", "/admin/users"]
    ensures role != "admin" && !(role == "entrepreneur" && isApprovedOwner) ==>
      Hrefs(Visible(NavItems(role, isApprovedOwner))) == ["/dashboard", "/dashboard/profile"]
  {
    var items := NavItems(role, isApprovedOwner);
    VisibleOfFive(items);
    if role == "admin" {
      assert Visible(items) == [items[0], items[2], items[3], items[4]];
    } else if role == "entrepreneur" && isApprovedOwner {
      assert Visible(items) == [items[0], items[1], items[2]];
    } else {
      assert Visible(items) == [items[0], items[2]];
    }
  }

  /** A user with no stored role is an entrepreneur: never the admin links, the startup link iff an owner. */
  lemma MissingRoleIsEntrepreneur(user: AuthUser, isApprovedOwner: bool)
    requires user.metadata.role.None? || user.metadata.role == Some("")
    ensures Hrefs(VisibleItems(user, isApprovedOwner)) ==
      if isApprovedOwner then ["/dashboard", "/dashboard/my-startup", "/dashboard/profile"]
      else ["/dashboard", "/dashboard/profile"]
  {
    NavForRole("entrepreneur", isApprovedOwner);
  }

  /** A link is highlighted when the path equals its address exactly; a sub-path does not count. */
  predicate IsActive(pathname: string, item: NavItem) {
    pathname == item.href
  }

  /** Addresses are distinct, so at most one visible link is highlighted on any path. */
  lemma AtMostOneActive(role: string, isApprovedOwner: bool, pathname: string, i: nat, j: nat)
    requires i < |Visible(NavItems(role, isApprovedOwner))| && j < |Visible(NavItems(role, isApprovedOwner))|
    requires IsActive(pathname, Visible(NavItems(role, isApprovedOwner))[i])
    requires IsActive(pathname, Visible(NavItems(role, isApprovedOwner))[j])
    ensures i == j
  {
    NavForRole(role, isApprovedOwner);
    var h := Hrefs(Visible(NavItems(role, isApprovedOwner)));
    assert h[i] == pathname == h[j];
  }

  /** The label under the user's name. */
  function RoleLabel(role: string): (r: string)
    ensures role == "entrepreneur" ==> r == "Emprendedor"
    ensures role == "investor" ==> r == "Inversor"
    ensures role != "entrepreneur" && role != "investor" ==> r == "Admin"
  {
    if role == "entrepreneur" then "Emprendedor" else if role == "investor" then "Inversor" else "Admin"
  }
}
