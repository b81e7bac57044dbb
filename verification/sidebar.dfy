/** The older sidebar: the same menu as the main navigation under other
    labels and icons. */
module Sidebar {
  import opened Types
  import opened Menu
  import Navigation

  const BaseItems: seq<MenuItem> := [
    MenuItem("dashboard", "My Wallet", "fa-wallet"),
    MenuItem("submit", "Submit Work", "fa-paper-plane"),
    MenuItem("reports", "History", "fa-clock-rotate-left"),
    MenuItem("payouts", "Withdrawal", "fa-money-bill-transfer")
  ]

  const AdminItem: MenuItem := MenuItem("admin", "Admin Panel", "fa-user-shield")

  /** `menuItems` for a role. */
  function Items(role: UserRole): (items: seq<MenuItem>)
    ensures IsRoleMenu(items, BaseItems, AdminItem, role)
  {
    assert Ids(BaseItems) == BaseIds;
    ForRole(BaseItems, AdminItem, role)
  }

  /** For every role the sidebar offers the same tabs, in the same order, as
      the main navigation, so either one selects the same screens. */
  lemma SameTabsAsNavigation(role: UserRole)
    ensures Ids(Items(role)) == Ids(Navigation.Items(role))
  {
    var s, n := Items(role), Navigation.Items(role);
    assert |Ids(s)| == |Ids(n)|;
    forall i | 0 <= i < |s|
      ensures Ids(s)[i] == Ids(n)[i]
    {
      if i < 4 {
        assert Ids(s)[..4][i] == Ids(n)[..4][i];
      }
    }
  }
}
