/** The navigation sidebar: its fixed menu and the label shown for a role. */
module Sidebar {

  /** `getRoleDisplayName`. */
  function RoleDisplayName(role: string): (name: string)
    ensures role == "manager" ==> name == "Manager"
    ensures role == "staff" ==> name == "Staff"
    ensures role == "cashier" ==> name == "Cashier"
    ensures role !in {"manager", "staff", "cashier"} ==> name == "User"
  {
    if role == "manager" then "Manager"
    else if role == "staff" then "Staff"
    else if role == "cashier" then "Cashier"
    else "User"
  }

  /** The display name is one of four, and only the three known roles get a
      name other than "User". */
  lemma RoleDisplayNameRange(role: string)
    ensures RoleDisplayName(role) in ["Manager", "Staff", "Cashier", "User"]
    ensures RoleDisplayName(role) != "User" <==> role in {"manager", "staff", "cashier"}
  {
  }

  /** A menu entry; the icon is not modelled. */
  datatype NavItem = NavItem(title: string, href: string)

  /** `sidebarItems`. */
  const SIDEBAR_ITEMS: seq<NavItem> := [
    NavItem("Dashboard", "/"),
    NavItem("Product Management", "/products"),
    NavItem("Stock Overview", "/stock"),
    NavItem("Analytics", "/analytics")
  ]

  function Hrefs(items: seq<NavItem>): (r: seq<string>)
    ensures |r| == |items| && forall i :: 0 <= i < |items| ==> r[i] == items[i].href
  {
    seq(|items|, i requires 0 <= i < |items| => items[i].href)
  }

  /** The menu has four entries leading to the four pages, in this order,
      each page once. */
  lemma SidebarItemsFixed()
    ensures Hrefs(SIDEBAR_ITEMS) == ["/", "/products", "/stock", "/analytics"]
    ensures forall i, j :: 0 <= i < j < |SIDEBAR_ITEMS| ==> SIDEBAR_ITEMS[i].href != SIDEBAR_ITEMS[j].href
  {
  }
}
