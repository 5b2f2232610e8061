/**
 * The side menu of the dashboard pages. The items depend on the role in
 * the session: every known role starts from the six base pages, an admin
 * adds the ticket and device-management pages, a superadmin adds user
 * management as well, and a visitor without a known role sees only the
 * login page and the dashboard. The item whose link is the current path is
 * highlighted; the logout request carries the user's name or e-mail.
 */
module HamburgerMenu {
  import opened Js

  datatype MenuItem = MenuItem(href: string, text: string)

  /** The session's user. Absent fields are `undefined`. */
  datatype UserSession = UserSession(id: Option<string>, name: Option<string>, email: Option<string>, role: Option<string>)

  const BaseMenu: seq<MenuItem> := [
    MenuItem("/dashboard", "Dashboard"),
    MenuItem("/device", "Devices"),
    MenuItem("/sensor", "Sensors"),
    MenuItem("/alert", "Alerts"),
    MenuItem("/sla", "SLA"),
    MenuItem("/account", "Account")
  ]

  const UserManagementItem := MenuItem("/user-management", "User Managements")
  const DeviceManagementItem := MenuItem("/device-management", "Device Managements")
  const TicketItem := MenuItem("/ticket", "Ticket")
  const GuestMenu: seq<MenuItem> := [MenuItem("/login", "Login"), MenuItem("/dashboard", "Dashboard")]

  /** `session?.user?.role ?? null`. */
  function RoleOf(session: Option<UserSession>): (role: Option<string>)
    ensures session.None? ==> role.None?
    ensures session.Some? ==> role == session.value.role
  {
    if session.Some? then session.value.role else None
  }

  predicate KnownRole(role: Option<string>) {
    role == Some("superadmin") || role == Some("admin") || role == Some("user")
  }

  /** The menu a role sees. */
  function MenuFor(role: Option<string>): (items: seq<MenuItem>)
    ensures KnownRole(role) ==> |items| >= 6 && items[..6] == BaseMenu
    ensures role == Some("superadmin") ==> items[6..] == [TicketItem, UserManagementItem, DeviceManagementItem]
    ensures role == Some("admin") ==> items[6..] == [TicketItem, DeviceManagementItem]
    ensures role == Some("user") ==> |items| == 6
    ensures !KnownRole(role) ==> items == GuestMenu
  {
    if role == Some("superadmin") then BaseMenu + [TicketItem, UserManagementItem, DeviceManagementItem]
    else if role == Some("admin") then BaseMenu + [TicketItem, DeviceManagementItem]
    else if role == Some("user") then BaseMenu
    else GuestMenu
  }

  /** The component body: copy the base menu, then push or replace by role. */
  method BuildMenu(role: Option<string>) returns (menuItems: seq<MenuItem>)
    ensures menuItems == MenuFor(role)
  {
    menuItems := BaseMenu;
    if role == Some("superadmin") {
      menuItems := menuItems + [TicketItem, UserManagementItem, DeviceManagementItem];
    } else if role == Some("admin") {
      menuItems := menuItems + [TicketItem, DeviceManagementItem];
    } else if role == Some("user") {
    } else {
      menuItems := GuestMenu;
    }
  }

  function Href(item: MenuItem): string { item.href }

  /** The user-management page is offered to the superadmin and to no one else. */
  lemma UserManagementOnlySuperadmin(role: Option<string>)
    ensures (exists i :: 0 <= i < |MenuFor(role)| && MenuFor(role)[i].href == "/user-management") <==>
      role == Some("superadmin")
  {
    if role == Some("superadmin") {
      assert MenuFor(role)[7].href == "/user-management";
    }
  }

  /** The device-management page is offered to the superadmin and the admin. */
  lemma DeviceManagementForAdmins(role: Option<string>)
    ensures (exists i :: 0 <= i < |MenuFor(role)| && MenuFor(role)[i].href == "/device-management") <==>
      role == Some("superadmin") || role == Some("admin")
  {
    if role == Some("superadmin") {
      assert MenuFor(role)[8].href == "/device-management";
    } else if role == Some("admin") {
      assert MenuFor(role)[7].href == "/device-management";
    }
  }

  /** No menu links the same page twice. */
  lemma HrefsDistinct(role: Option<string>)
    ensures forall i, j :: 0 <= i < j < |MenuFor(role)| ==> MenuFor(role)[i].href != MenuFor(role)[j].href
  {
  }

  /** `pathname === item.href`. */
  predicate IsActive(pathname: string, item: MenuItem) {
    pathname == item.href
  }

  /** At most one item of a menu is highlighted, and it is the one linking the current path. */
  lemma AtMostOneActive(role: Option<string>, pathname: string)
    ensures forall i, j ::
      (0 <= i < |MenuFor(role)| && 0 <= j < |MenuFor(role)| &&
       IsActive(pathname, MenuFor(role)[i]) && IsActive(pathname, MenuFor(role)[j])) ==> i == j
  {
    HrefsDistinct(role);
  }

  /** `session?.user?.name ?? session?.user?.email ?? ""`: only an absent field falls through. */
  function LogoutUsername(session: Option<UserSession>): (username: string)
    ensures session.Some? && session.value.name.Some? ==> username == session.value.name.value
    ensures session.Some? && session.value.name.None? && session.value.email.Some? ==> username == session.value.email.value
    ensures (session.None? || (session.value.name.None? && session.value.email.None?)) ==> username == ""
  {
    if session.None? then ""
    else match session.value.name
      case Some(n) => n
      case None => (match session.value.email case Some(e) => e case None => "")
  }
}
