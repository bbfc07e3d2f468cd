/** The admin dashboard: order statistics (shown to super admins only) and the list of management
    sections, which depends on the role. */
module AdminDashboard {
  import opened Wrappers
  import opened Domain
  import Seqs

  /** The columns of an `orders` row the statistics query selects. */
  datatype StatsRow = StatsRow(id: string, status: OrderStatus, total: int)

  datatype OrderStats = OrderStats(total: nat, revenue: int, pending: nat)

  /** `reduce((s, o) => s + Number(o.total), 0)`. */
  function Revenue(rows: seq<StatsRow>): int {
    if rows == [] then 0 else rows[0].total + Revenue(rows[1..])
  }

  /** An order still waiting to be worked on: `pending` or `confirmed`. */
  predicate IsAwaiting(o: StatsRow) {
    o.status == Pending || o.status == Confirmed
  }

  /** The statistics the query returns; `data` is absent when the query returned no rows object. */
  function Stats(data: Option<seq<StatsRow>>): (st: OrderStats)
    ensures data.None? ==> st == OrderStats(0, 0, 0)
    ensures data.Some? ==> st.total == |data.value| && st.revenue == Revenue(data.value)
    ensures data.Some? ==> st.pending == |Seqs.Filter(data.value, IsAwaiting)|
    ensures st.pending <= st.total
  {
    var rows := data.GetOr([]);
    Seqs.CountIsFilterLength(rows, IsAwaiting);
    OrderStats(if data.Some? then |data.value| else 0, Revenue(rows), Seqs.Count(rows, IsAwaiting))
  }

  /** Revenue adds up over any split of the rows. */
  lemma {:induction false} RevenueAppend(a: seq<StatsRow>, b: seq<StatsRow>)
    ensures Revenue(a + b) == Revenue(a) + Revenue(b)
  {
    if a == [] {
      assert a + b == b;
    } else {
      assert (a + b)[1..] == a[1..] + b;
      RevenueAppend(a[1..], b);
    }
  }

  /** With no negative totals, revenue is at least as large as any single order. */
  lemma {:induction false} RevenueBounds(rows: seq<StatsRow>, k: nat)
    requires forall i :: 0 <= i < |rows| ==> rows[i].total >= 0
    requires k < |rows|
    ensures Revenue(rows) >= rows[k].total >= 0
  {
    if k > 0 {
      RevenueBounds(rows[1..], k - 1);
    } else {
      RevenueNonNegative(rows[1..]);
    }
  }

  lemma {:induction false} RevenueNonNegative(rows: seq<StatsRow>)
    requires forall i :: 0 <= i < |rows| ==> rows[i].total >= 0
    ensures Revenue(rows) >= 0
  {
    if rows != [] {
      RevenueNonNegative(rows[1..]);
    }
  }

  /** `enabled: hasRole('super_admin')`: the statistics are fetched for super admins only. */
  predicate StatsEnabled(roles: set<AppRole>) {
    HasRole(roles, SuperAdmin)
  }

  datatype Section = Section(caption: string, path: string)

  const ManageOrdersSection: Section := Section("Manage Orders", "/admin/orders")

  /** `adminSections`. */
  function AdminSections(roles: set<AppRole>): (sections: seq<Section>)
    ensures sections != [] && sections[|sections| - 1] == ManageOrdersSection
    ensures HasRole(roles, SuperAdmin) ==>
      && |sections| == 4
      && sections[..3] == [Section("Manage Cafeterias", "/admin/cafeterias"),
                           Section("Manage Hostels", "/admin/hostels"),
                           Section("Manage Users & Roles", "/admin/users")]
    ensures !HasRole(roles, SuperAdmin) ==> sections == [ManageOrdersSection]
  {
    (if HasRole(roles, SuperAdmin) then
       [Section("Manage Cafeterias", "/admin/cafeterias"),
        Section("Manage Hostels", "/admin/hostels"),
        Section("Manage Users & Roles", "/admin/users")]
     else [])
    + [ManageOrdersSection]
  }

  /** Only a super admin reaches the cafeteria, hostel and user pages from the dashboard, and every
      admin reaches the order page. */
  lemma SectionsByRole(roles: set<AppRole>, s: Section)
    ensures ManageOrdersSection in AdminSections(roles)
    ensures s in AdminSections(roles) && s != ManageOrdersSection ==> StatsEnabled(roles)
  {
    assert AdminSections(roles)[|AdminSections(roles)| - 1] == ManageOrdersSection;
  }
}
