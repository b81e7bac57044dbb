/** The main navigation (desktop sidebar and mobile bottom bar). */
module Navigation {
  import opened Types
  import opened Menu

  const BaseItems: seq<MenuItem> := [
    MenuItem("dashboard", "Home", "fa-house"),
    MenuItem("submit", "Submit", "fa-plus-circle"),
    MenuItem("reports", "History", "fa-clock-rotate-left"),
    MenuItem("payouts", "Cash", "fa-wallet")
  ]

  const AdminItem: MenuItem := MenuItem("admin", "Admin", "fa-user-shield")

  /** `menuItems` for a role. */
  function Items(role: UserRole): (items: seq<MenuItem>)
    ensures IsRoleMenu(items, BaseItems, AdminItem, role)
  {
    assert Ids(BaseItems) == BaseIds;
    ForRole(BaseItems, AdminItem, role)
  }
}
