/** What the two role-conditional menus have in common: a fixed list of
    items, an administrator item pushed at the end for administrators, and
    highlighting of the item whose id is the active tab. */
module Menu {
  import opened Types

  /** An entry: its tab id, its caption (`label` in the source) and its icon. */
  datatype MenuItem = MenuItem(id: string, caption: string, icon: string)

  /** The ids every role sees, in order. */
  const BaseIds: seq<string> := ["dashboard", "submit", "reports", "payouts"]

  /** The id of the item only administrators see. */
  const AdminId: string := "admin"

  function Ids(items: seq<MenuItem>): (ids: seq<string>)
    ensures |ids| == |items|
    ensures forall i :: 0 <= i < |items| ==> ids[i] == items[i].id
  {
    if |items| == 0 then [] else [items[0].id] + Ids(items[1..])
  }

  /** No two items share an id. */
  predicate DistinctIds(items: seq<MenuItem>) {
    forall i, j :: 0 <= i < j < |items| ==> items[i].id != items[j].id
  }

  /** `items` is the menu `role` should see: the four base items in order,
      then `adminItem` last exactly for an administrator, no id repeated. */
  predicate IsRoleMenu(items: seq<MenuItem>, base: seq<MenuItem>, adminItem: MenuItem, role: UserRole) {
    && |items| == (if role == Admin then 5 else 4)
    && items[..4] == base
    && Ids(items)[..4] == BaseIds
    && (role == Admin ==> items[4] == adminItem)
    && (role == Admin <==> exists i :: 0 <= i < |items| && items[i].id == AdminId)
    && DistinctIds(items)
  }

  /** The menu a role sees: the base items, then `adminItem` for an
      administrator (`menuItems.push(...)` under `role === UserRole.ADMIN`). */
  function ForRole(base: seq<MenuItem>, adminItem: MenuItem, role: UserRole): (items: seq<MenuItem>)
    requires Ids(base) == BaseIds && adminItem.id == AdminId
    ensures IsRoleMenu(items, base, adminItem, role)
  {
    var items := if role == Admin then base + [adminItem] else base;
    assert forall i :: 0 <= i < 4 ==> items[i].id == BaseIds[i];
    items
  }

  /** An item is highlighted when its id is the active tab. */
  predicate Highlighted(activeTab: string, item: MenuItem) {
    activeTab == item.id
  }

  /** Clicking item `i`, in the desktop or the mobile list, calls
      `setActiveTab` with its id. */
  function Select(items: seq<MenuItem>, i: nat): (tab: string)
    requires i < |items|
    ensures Highlighted(tab, items[i])
  {
    items[i].id
  }

  /** With distinct ids at most one item is highlighted, whatever the
      active tab. */
  lemma AtMostOneHighlighted(items: seq<MenuItem>, activeTab: string, i: nat, j: nat)
    requires DistinctIds(items)
    requires i < |items| && j < |items|
    requires Highlighted(activeTab, items[i]) && Highlighted(activeTab, items[j])
    ensures i == j
  {
  }

  /** After a click, the clicked item and only it is highlighted. */
  lemma SelectHighlightsClicked(items: seq<MenuItem>, i: nat, j: nat)
    requires DistinctIds(items)
    requires i < |items| && j < |items|
    ensures Highlighted(Select(items, i), items[j]) <==> i == j
  {
  }
}
