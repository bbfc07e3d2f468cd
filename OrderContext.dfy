/** The in-memory order store: the list of placed orders (most recent first) and the current order.
    Placing an order builds it from the priced cart, prepends it and makes it current, and schedules
    four timed status changes that walk it from `preparing` to `delivered`. */
module OrderContext {
  import opened Wrappers
  import opened Domain
  import Text
  import Radix
  import CartContext

  /** The statuses this store knows: the schema's enumeration without `pending` and `cancelled`. */
  predicate IsTracked(s: OrderStatus) {
    s != Pending && s != Cancelled
  }

  type TrackedStatus = s: OrderStatus | IsTracked(s) witness Confirmed

  datatype Order = Order(
    id: string,
    items: seq<CartContext.CartLine>,
    subtotal: int,
    deliveryFee: int,
    total: int,
    status: TrackedStatus,
    hostel: string,
    paymentMethod: string,
    createdAt: nat,
    estimatedDelivery: int,
    riderName: Option<string>,
    riderPhone: Option<string>)

  const RiderNames: seq<string> := ["Adamu M.", "Chinedu O.", "Ibrahim K.", "Grace A.", "Emeka N."]

  /** The statuses the simulated progression applies, in the order it schedules them. */
  const ProgressionStatuses: seq<TrackedStatus> := [Preparing, RiderAssigned, OnTheWay, Delivered]

  /** `'ORD-' + clock.toString(36).toUpperCase()`. */
  function OrderId(clock: nat): (id: string)
    ensures |id| >= 5 && id[..4] == "ORD-"
    ensures forall i :: 4 <= i < |id| ==> Text.IsDigit(id[i]) || Text.IsUpper(id[i])
  {
    var digits := Radix.ToRadix(clock, 36);
    var id := "ORD-" + Text.Upper(digits);
    assert forall i :: 4 <= i < |id| ==> id[i] == Text.UpperChar(digits[i - 4]);
    id
  }

  /** The id determines the clock reading it was made from: its digits decode back to it. */
  lemma OrderIdRoundTrip(clock: nat)
    ensures Radix.FromRadix(OrderId(clock)[4..], 36) == clock
  {
    var digits := Radix.ToRadix(clock, 36);
    assert OrderId(clock)[4..] == Text.Upper(digits);
    Radix.FromRadixUpper(digits, 36);
    Radix.FromToRadix(clock, 36);
  }

  /** Different clock readings give different ids. */
  lemma OrderIdInjective(c1: nat, c2: nat)
    requires OrderId(c1) == OrderId(c2)
    ensures c1 == c2
  {
    OrderIdRoundTrip(c1);
    OrderIdRoundTrip(c2);
  }

  /** `'080' + Math.floor(random * 90000000 + 10000000)`, with `roll` the integer part of `random * 90000000`. */
  function RiderPhone(roll: nat): (phone: string)
    requires roll < 90000000
    ensures |phone| == 11 && phone[..3] == "080" && phone[3] != '0'
    ensures forall i :: 0 <= i < |phone| ==> Text.IsDigit(phone[i])
    ensures Radix.FromRadix(phone[3..], 10) == roll + 10000000
  {
    var n := roll + 10000000;
    var digits := Radix.ToRadix(n, 10);
    assert Radix.Pow(10, 7) == 10000000 && Radix.Pow(10, 8) == 100000000;
    Radix.ToRadixLength(n, 10, 8);
    Radix.ToRadixLeadingDigit(n, 10);
    Radix.FromToRadix(n, 10);
    var phone := "080" + digits;
    assert phone[3..] == digits;
    assert forall i :: 3 <= i < |phone| ==> phone[i] == digits[i - 3];
    phone
  }

  /** The order that `placeOrder` builds. The clock reading and the three random draws are parameters:
      `etaRoll`, `riderRoll` and `phoneRoll` are the integer parts of `random * 15`, `random * 5`
      and `random * 90000000`. */
  function NewOrder(items: seq<CartContext.CartLine>, subtotal: int, deliveryFee: int, hostel: string,
                    paymentMethod: string, clock: nat, createdAt: nat,
                    etaRoll: nat, riderRoll: nat, phoneRoll: nat): (o: Order)
    requires etaRoll < 15 && riderRoll < |RiderNames| && phoneRoll < 90000000
    ensures o.total == subtotal + deliveryFee
    ensures o.status == Confirmed
    ensures o.items == items && o.subtotal == subtotal && o.deliveryFee == deliveryFee
    ensures o.hostel == hostel && o.paymentMethod == paymentMethod && o.createdAt == createdAt
    ensures o.id == OrderId(clock)
    ensures 25 <= o.estimatedDelivery <= 39
    ensures o.riderName.Some? && o.riderName.value in RiderNames
    ensures o.riderPhone.Some? && |o.riderPhone.value| == 11 && o.riderPhone.value[..3] == "080"
  {
    Order(OrderId(clock), items, subtotal, deliveryFee, subtotal + deliveryFee, Confirmed, hostel,
          paymentMethod, createdAt, 25 + etaRoll, Some(RiderNames[riderRoll]), Some(RiderPhone(phoneRoll)))
  }

  /** `orders.map(o => o.id === id ? { ...o, status } : o)`. */
  function Patched(orders: seq<Order>, id: string, status: TrackedStatus): (r: seq<Order>)
    ensures |r| == |orders|
  {
    seq(|orders|, k requires 0 <= k < |orders| =>
      if orders[k].id == id then orders[k].(status := status) else orders[k])
  }

  /** `prev?.id === id ? { ...prev, status } : prev`. */
  function PatchedCurrent(current: Option<Order>, id: string, status: TrackedStatus): Option<Order> {
    if current.Some? && current.value.id == id then Some(current.value.(status := status)) else current
  }

  /** A status patch changes only the status, and only of the orders with that id. */
  lemma PatchedScope(orders: seq<Order>, id: string, status: TrackedStatus)
    ensures forall k :: 0 <= k < |orders| ==>
      && Patched(orders, id, status)[k].(status := orders[k].status) == orders[k]
      && (orders[k].id != id ==> Patched(orders, id, status)[k] == orders[k])
      && (orders[k].id == id ==> Patched(orders, id, status)[k].status == status)
  {
  }

  /** Of two patches to the same id, the later one wins; in particular a repeated patch changes nothing. */
  lemma PatchedLastWins(orders: seq<Order>, id: string, s1: TrackedStatus, s2: TrackedStatus)
    ensures Patched(Patched(orders, id, s1), id, s2) == Patched(orders, id, s2)
    ensures PatchedCurrent(PatchedCurrent(None, id, s1), id, s2) == None
  {
  }

  lemma PatchedIdempotent(orders: seq<Order>, current: Option<Order>, id: string, s: TrackedStatus)
    ensures Patched(Patched(orders, id, s), id, s) == Patched(orders, id, s)
    ensures PatchedCurrent(PatchedCurrent(current, id, s), id, s) == PatchedCurrent(current, id, s)
  {
    PatchedLastWins(orders, id, s, s);
  }

  lemma PatchedCurrentLastWins(current: Option<Order>, id: string, s1: TrackedStatus, s2: TrackedStatus)
    ensures PatchedCurrent(PatchedCurrent(current, id, s1), id, s2) == PatchedCurrent(current, id, s2)
  {
  }

  /** A pending status change: after `delay` milliseconds, set the order `orderId` to `status`. */
  datatype Timer = Timer(delay: real, orderId: string, status: TrackedStatus)

  /** The delay of progression step `i`: `(i + 1) * 8000 + random * 4000`, `jitter` being `random * 4000`. */
  function StepDelay(i: nat, jitter: real): (d: real)
    requires 0.0 <= jitter < 4000.0
    ensures (i + 1) as real * 8000.0 <= d < (i + 1) as real * 8000.0 + 4000.0
  {
    (i + 1) as real * 8000.0 + jitter
  }

  /** The delay windows of the steps are disjoint and increasing, whatever the random draws: an earlier
      step always fires before a later one. */
  lemma StepDelaysOrdered(i: nat, j: nat, ji: real, jj: real)
    requires i < j
    requires 0.0 <= ji < 4000.0 && 0.0 <= jj < 4000.0
    ensures StepDelay(i, ji) < StepDelay(j, jj)
  {
  }

  /** The timers of a schedule fire in list order, each later than the one before. */
  ghost predicate FiresInOrder(schedule: seq<Timer>) {
    forall a, b :: 0 <= a < b < |schedule| ==> schedule[a].delay < schedule[b].delay
  }

  class OrderStore {
    var orders: seq<Order>
    var currentOrder: Option<Order>

    constructor ()
      ensures orders == [] && currentOrder == None
    {
      orders := [];
      currentOrder := None;
    }

    /** `placeOrder`: build the order, prepend it, make it current, and schedule the progression.
        `jitters[i]` is the random part of the delay of step `i`. */
    method PlaceOrder(items: seq<CartContext.CartLine>, subtotal: int, deliveryFee: int, hostel: string,
                      paymentMethod: string, clock: nat, createdAt: nat,
                      etaRoll: nat, riderRoll: nat, phoneRoll: nat, jitters: seq<real>)
      returns (order: Order, schedule: seq<Timer>)
      requires etaRoll < 15 && riderRoll < |RiderNames| && phoneRoll < 90000000
      requires |jitters| == |ProgressionStatuses|
      requires forall i :: 0 <= i < |jitters| ==> 0.0 <= jitters[i] < 4000.0
      modifies this
      ensures order == NewOrder(items, subtotal, deliveryFee, hostel, paymentMethod, clock, createdAt,
                                etaRoll, riderRoll, phoneRoll)
      ensures orders == [order] + old(orders)
      ensures currentOrder == Some(order)
      ensures |schedule| == |ProgressionStatuses|
      ensures forall i :: 0 <= i < |schedule| ==>
        schedule[i] == Timer(StepDelay(i, jitters[i]), order.id, ProgressionStatuses[i])
      ensures FiresInOrder(schedule)
    {
      order := NewOrder(items, subtotal, deliveryFee, hostel, paymentMethod, clock, createdAt,
                        etaRoll, riderRoll, phoneRoll);
      orders := [order] + orders;
      currentOrder := Some(order);
      schedule := [];
      var i := 0;
      while i < |ProgressionStatuses|
        invariant 0 <= i <= |ProgressionStatuses|
        invariant |schedule| == i
        invariant forall k :: 0 <= k < i ==>
          schedule[k] == Timer(StepDelay(k, jitters[k]), order.id, ProgressionStatuses[k])
        invariant FiresInOrder(schedule)
      {
        var t := Timer(StepDelay(i, jitters[i]), order.id, ProgressionStatuses[i]);
        forall k | 0 <= k < i ensures schedule[k].delay < t.delay {
          StepDelaysOrdered(k, i, jitters[k], jitters[i]);
        }
        schedule := schedule + [t];
        i := i + 1;
      }
    }

    /** `updateOrderStatus(id, status)`: patch the status of every order with that id, and of the
        current order when it has that id. */
    method UpdateOrderStatus(id: string, status: TrackedStatus)
      modifies this
      ensures orders == Patched(old(orders), id, status)
      ensures currentOrder == PatchedCurrent(old(currentOrder), id, status)
    {
      orders := Patched(orders, id, status);
      currentOrder := PatchedCurrent(currentOrder, id, status);
    }

    /** The scheduled timers firing one after another, in order of their delays (list order, since
        the schedule fires in order). Each firing is a status patch for the order it was made for. */
    method RunProgression(schedule: seq<Timer>, id: string)
      requires FiresInOrder(schedule)
      requires forall i :: 0 <= i < |schedule| ==> schedule[i].orderId == id
      modifies this
      ensures schedule == [] ==> orders == old(orders) && currentOrder == old(currentOrder)
      ensures schedule != [] ==>
        && orders == Patched(old(orders), id, schedule[|schedule| - 1].status)
        && currentOrder == PatchedCurrent(old(currentOrder), id, schedule[|schedule| - 1].status)
    {
      var i := 0;
      while i < |schedule|
        invariant 0 <= i <= |schedule|
        invariant i == 0 ==> orders == old(orders) && currentOrder == old(currentOrder)
        invariant i > 0 ==>
          && orders == Patched(old(orders), id, schedule[i - 1].status)
          && currentOrder == PatchedCurrent(old(currentOrder), id, schedule[i - 1].status)
      {
        if i > 0 {
          PatchedLastWins(old(orders), id, schedule[i - 1].status, schedule[i].status);
          PatchedCurrentLastWins(old(currentOrder), id, schedule[i - 1].status, schedule[i].status);
        }
        UpdateOrderStatus(schedule[i].orderId, schedule[i].status);
        i := i + 1;
      }
    }
  }

  /** A freshly placed order whose progression has run to the end is delivered, in the list and as the
      current order, and nothing else about it has changed. */
  method PlaceAndDeliver(store: OrderStore, items: seq<CartContext.CartLine>, subtotal: int, deliveryFee: int,
                         hostel: string, paymentMethod: string, clock: nat, createdAt: nat,
                         etaRoll: nat, riderRoll: nat, phoneRoll: nat, jitters: seq<real>)
    returns (order: Order)
    requires etaRoll < 15 && riderRoll < |RiderNames| && phoneRoll < 90000000
    requires |jitters| == |ProgressionStatuses|
    requires forall i :: 0 <= i < |jitters| ==> 0.0 <= jitters[i] < 4000.0
    modifies store
    ensures |store.orders| == |old(store.orders)| + 1
    ensures store.orders[0] == order.(status := Delivered)
    ensures store.currentOrder == Some(order.(status := Delivered))
    ensures order.status == Confirmed && order.total == subtotal + deliveryFee
  {
    var schedule;
    order, schedule := store.PlaceOrder(items, subtotal, deliveryFee, hostel, paymentMethod, clock, createdAt,
                                        etaRoll, riderRoll, phoneRoll, jitters);
    store.RunProgression(schedule, order.id);
  }
}
