/** The profile page's derived values: money spent, the recent orders, the avatar letter and the menu
    links, which depend on the roles. */
module Profile {
  import opened Wrappers
  import opened Domain
  import Text
  import OrderContext

  /** `orders.reduce((sum, o) => sum + o.total, 0)`. */
  function TotalSpent(orders: seq<OrderContext.Order>): int {
    if orders == [] then 0 else orders[0].total + TotalSpent(orders[1..])
  }

  /** Nothing is spent before the first order, and placing an order (which prepends it) adds its total
      to the money spent. */
  lemma TotalSpentPrepend(o: OrderContext.Order, orders: seq<OrderContext.Order>)
    ensures TotalSpent([]) == 0
    ensures TotalSpent([o] + orders) == o.total + TotalSpent(orders)
  {
    assert ([o] + orders)[1..] == orders;
  }

  /** The money spent on two lists of orders together is the sum of the money spent on each. */
  lemma {:induction false} TotalSpentAppend(a: seq<OrderContext.Order>, b: seq<OrderContext.Order>)
    ensures TotalSpent(a + b) == TotalSpent(a) + TotalSpent(b)
  {
    if a == [] {
      assert a + b == b;
    } else {
      assert (a + b)[1..] == a[1..] + b;
      TotalSpentAppend(a[1..], b);
    }
  }

  /** `orders.slice(0, 5)`. */
  function RecentOrders(orders: seq<OrderContext.Order>): (r: seq<OrderContext.Order>)
    ensures |r| == if |orders| < 5 then |orders| else 5
    ensures forall i :: 0 <= i < |r| ==> r[i] == orders[i]
  {
    if |orders| <= 5 then orders else orders[..5]
  }

  /** `orders.length > 0`: the recent-orders section is shown. */
  predicate ShowRecent(orders: seq<OrderContext.Order>) {
    |orders| > 0
  }

  /** A shown section has at least one order in it, and the most recent order leads it. */
  lemma RecentOrdersShown(orders: seq<OrderContext.Order>)
    ensures ShowRecent(orders) <==> RecentOrders(orders) != []
    ensures ShowRecent(orders) ==> RecentOrders(orders)[0] == orders[0]
  {
  }

  /** `profile?.full_name?.[0]?.toUpperCase() || 'U'`. */
  function AvatarInitial(fullName: Option<string>): (letter: char)
    ensures fullName.None? || fullName == Some("") ==> letter == 'U'
    ensures fullName.Some? && fullName.value != "" ==> letter == Text.UpperChar(fullName.value[0])
    ensures !Text.IsLower(letter)
  {
    if fullName.Some? && fullName.value != "" then Text.UpperChar(fullName.value[0]) else 'U'
  }

  datatype MenuLink = MenuLink(caption: string, path: string)

  const AdminLink: MenuLink := MenuLink("Admin Dashboard", "/admin")

  /** The profile menu: order history and about, then the admin dashboard for admins. */
  function MenuLinks(roles: set<AppRole>): (links: seq<MenuLink>)
    ensures |links| >= 2 && links[0] == MenuLink("Order History", "/orders")
    ensures links[1] == MenuLink("About BHU-Quick-Food", "/about")
    ensures AdminLink in links <==> HasRole(roles, SuperAdmin) || HasRole(roles, CafeteriaAdmin)
  {
    [MenuLink("Order History", "/orders"), MenuLink("About BHU-Quick-Food", "/about")]
    + (if HasRole(roles, SuperAdmin) || HasRole(roles, CafeteriaAdmin) then [AdminLink] else [])
  }

  /** The role badges next to the name. */
  function Badges(roles: set<AppRole>): (badges: seq<string>)
    ensures "Super Admin" in badges <==> HasRole(roles, SuperAdmin)
    ensures "Cafeteria Admin" in badges <==> HasRole(roles, CafeteriaAdmin)
    ensures |badges| <= 2
  {
    (if HasRole(roles, SuperAdmin) then ["Super Admin"] else [])
    + (if HasRole(roles, CafeteriaAdmin) then ["Cafeteria Admin"] else [])
  }
}
