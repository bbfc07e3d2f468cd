/** The admin order list: a status filter over the fetched orders, the filter options, and the
    human-readable status labels. Changing an order's status is a remote write and is not modelled;
    the select offers every status, whatever the current one. */
module ManageOrders {
  import opened Domain
  import Text
  import Seqs

  /** The columns of an `orders` row the page reads. */
  datatype OrderRow = OrderRow(id: string, status: OrderStatus, total: int, hostel: string, paymentMethod: string)

  /** `ORDER_STATUSES`, in declared order. */
  const OrderStatuses: seq<OrderStatus> := [Pending, Confirmed, Preparing, RiderAssigned, OnTheWay, Delivered, Cancelled]

  /** The position of each status in `ORDER_STATUSES`: the list names every status once. */
  function StatusIndex(s: OrderStatus): (i: nat)
    ensures i < |OrderStatuses| && OrderStatuses[i] == s
  {
    match s
    case Pending => 0
    case Confirmed => 1
    case Preparing => 2
    case RiderAssigned => 3
    case OnTheWay => 4
    case Delivered => 5
    case Cancelled => 6
  }

  /** The filter buttons: `['all', ...ORDER_STATUSES]`. */
  function FilterOptions(): (opts: seq<string>)
    ensures |opts| == 1 + |OrderStatuses| && opts[0] == "all"
    ensures forall i :: 0 <= i < |OrderStatuses| ==> opts[i + 1] == StatusName(OrderStatuses[i])
  {
    ["all"] + seq(|OrderStatuses|, i requires 0 <= i < |OrderStatuses| => StatusName(OrderStatuses[i]))
  }

  /** Every status of the schema is offered exactly once, and "all" is not a status name. */
  lemma FilterOptionsComplete()
    ensures forall s: OrderStatus :: StatusName(s) in FilterOptions()
    ensures forall i, j :: 0 <= i < j < |FilterOptions()| ==> FilterOptions()[i] != FilterOptions()[j]
  {
    var opts := FilterOptions();
    forall s: OrderStatus ensures StatusName(s) in opts {
      assert opts[StatusIndex(s) + 1] == StatusName(s);
    }
  }

  function HasStatusName(filter: string): OrderRow -> bool {
    (o: OrderRow) => StatusName(o.status) == filter
  }

  /** `filter === 'all' ? orders : orders.filter(o => o.status === filter)`. */
  function FilteredOrders(orders: seq<OrderRow>, filter: string): (r: seq<OrderRow>)
    ensures |r| <= |orders|
    ensures filter == "all" ==> r == orders
    ensures filter != "all" ==> forall o :: o in r <==> o in orders && StatusName(o.status) == filter
  {
    if filter == "all" then orders else Seqs.Filter(orders, HasStatusName(filter))
  }

  /** The filtered list is the fetched list with some rows taken out, the rest in their order. */
  lemma FilteredIsSubsequence(orders: seq<OrderRow>, filter: string)
    ensures Seqs.IsSubsequence(FilteredOrders(orders, filter), orders)
  {
    if filter == "all" {
      Seqs.SubsequenceRefl(orders);
    } else {
      Seqs.FilterIsSubsequence(orders, HasStatusName(filter));
    }
  }

  /** Choosing the button of status `s` keeps every row of that status, as often as it occurs, and
      nothing else. */
  lemma FilterByStatus(orders: seq<OrderRow>, s: OrderStatus, o: OrderRow)
    ensures multiset(FilteredOrders(orders, StatusName(s)))[o] == if o.status == s then multiset(orders)[o] else 0
  {
    assert StatusName(s) != "all";
    Seqs.FilterMultiset(orders, HasStatusName(StatusName(s)), o);
    StatusNameInjective(o.status, s);
  }

  /** `s.replace(/_/g, ' ')`. */
  function Label(s: string): (r: string)
    ensures |r| == |s| && '_' !in r
    ensures forall i :: 0 <= i < |s| && s[i] != '_' ==> r[i] == s[i]
    ensures forall i :: 0 <= i < |s| && s[i] == '_' ==> r[i] == ' '
  {
    Text.ReplaceAllRemoves(s, '_', ' ');
    Text.ReplaceAll(s, '_', ' ')
  }

  /** The caption of a filter button. */
  function FilterCaption(option: string): string {
    if option == "all" then "All" else Label(option)
  }

  /** On strings without spaces the labelling can be undone, so it tells them apart. */
  lemma LabelInjective(s: string, t: string)
    requires ' ' !in s && ' ' !in t
    requires Label(s) == Label(t)
    ensures s == t
  {
    forall i | 0 <= i < |s| ensures s[i] == t[i] {
      if s[i] == '_' {
        assert Label(t)[i] == ' ';
      } else {
        assert s[i] == Label(t)[i];
      }
    }
  }

  /** Different statuses get different labels. */
  lemma LabelsDistinct(s: OrderStatus, t: OrderStatus)
    requires s != t
    ensures Label(StatusName(s)) != Label(StatusName(t))
  {
    StatusNameInjective(s, t);
    assert ' ' !in StatusName(s) && ' ' !in StatusName(t);
    if Label(StatusName(s)) == Label(StatusName(t)) {
      LabelInjective(StatusName(s), StatusName(t));
    }
  }

  /** An example label. */
  lemma LabelExample()
    ensures Label(StatusName(RiderAssigned)) == "rider assigned"
    ensures FilterCaption("all") == "All"
  {
  }

  /** The status select offers all seven statuses for every order: nothing restricts which status may
      follow which. */
  function StatusChoices(current: OrderStatus): (choices: seq<OrderStatus>)
    ensures forall s: OrderStatus :: s in choices
  {
    assert forall s: OrderStatus :: s in OrderStatuses by {
      forall s: OrderStatus ensures s in OrderStatuses {
        assert OrderStatuses[StatusIndex(s)] == s;
      }
    }
    OrderStatuses
  }
}
