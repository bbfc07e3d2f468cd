/** The order-tracking page: finds the order named in the address, shows how far along it is as a
    five-step timeline and a progress bar, counts down the remaining minutes, and shows the rider's
    card while a rider is on the job. */
module OrderTracking {
  import opened Wrappers
  import opened Domain
  import OrderContext

  /** The timeline, in order. */
  const StatusSteps: seq<OrderContext.TrackedStatus> := [Confirmed, Preparing, RiderAssigned, OnTheWay, Delivered]

  /** `orders.find(o => o.id === id)`. */
  function FindOrder(orders: seq<OrderContext.Order>, id: string): (r: Option<OrderContext.Order>)
    ensures r.Some? ==> exists k :: 0 <= k < |orders| && orders[k] == r.value && r.value.id == id &&
                                    forall j :: 0 <= j < k ==> orders[j].id != id
    ensures r.None? <==> forall k :: 0 <= k < |orders| ==> orders[k].id != id
  {
    if orders == [] then None
    else if orders[0].id == id then Some(orders[0])
    else
      var r := FindOrder(orders[1..], id);
      assert r.Some? ==> exists k :: 0 <= k < |orders| && orders[k] == r.value && forall j :: 0 <= j < k ==> orders[j].id != id by {
        if r.Some? {
          var k :| 0 <= k < |orders[1..]| && orders[1..][k] == r.value && r.value.id == id &&
                   forall j :: 0 <= j < k ==> orders[1..][j].id != id;
          assert orders[k + 1] == r.value;
          assert forall j :: 0 <= j < k + 1 ==> orders[j].id != id by {
            forall j | 0 <= j < k + 1 ensures orders[j].id != id {
              if j > 0 { assert orders[j] == orders[1..][j - 1]; }
            }
          }
        }
      }
      assert r.None? ==> forall k :: 0 <= k < |orders| ==> orders[k].id != id by {
        if r.None? {
          forall k | 0 <= k < |orders| ensures orders[k].id != id {
            if k > 0 { assert orders[k] == orders[1..][k - 1]; }
          }
        }
      }
      r
  }

  /** `currentOrder?.id === id ? currentOrder : orders.find(o => o.id === id)`: the order shown for the
      address `id`. */
  function Lookup(current: Option<OrderContext.Order>, orders: seq<OrderContext.Order>, id: string)
    : (r: Option<OrderContext.Order>)
    ensures r.Some? ==> r.value.id == id
    ensures r.Some? ==> r == current || r.value in orders
    ensures current.Some? && current.value.id == id ==> r == current
    ensures r.None? <==> !(current.Some? && current.value.id == id) && forall o :: o in orders ==> o.id != id
    ensures !(current.Some? && current.value.id == id) ==> r == FindOrder(orders, id)
  {
    if current.Some? && current.value.id == id then current else FindOrder(orders, id)
  }

  /** `statusSteps.findIndex(s => s.status === status)`: the position of the status on the
      timeline, or -1 for a status that is not on it. */
  function StepIndexIn(steps: seq<OrderStatus>, s: OrderStatus): (r: int)
    ensures -1 <= r < |steps|
    ensures r >= 0 ==> steps[r] == s && forall j :: 0 <= j < r ==> steps[j] != s
    ensures r == -1 <==> s !in steps
  {
    if steps == [] then -1
    else if steps[0] == s then 0
    else
      var r := StepIndexIn(steps[1..], s);
      if r == -1 then -1 else r + 1
  }

  function StepIndex(s: OrderStatus): int {
    StepIndexIn(StatusSteps, s)
  }

  /** Every status the order store produces is on the timeline, at the position where it is listed. */
  lemma StepIndexTracked(i: nat)
    requires i < |StatusSteps|
    ensures StepIndex(StatusSteps[i]) == i
  {
  }

  /** `((index + 1) / statusSteps.length) * 100`. */
  function ProgressPercent(index: int): real {
    ((index + 1) as real / |StatusSteps| as real) * 100.0
  }

  /** The bar grows by a fifth at each step and is full exactly when the order is delivered; a status
      off the timeline (the schema's `pending` or `cancelled`) shows an empty bar. */
  lemma ProgressOfStatus(s: OrderStatus)
    ensures OrderContext.IsTracked(s) ==> ProgressPercent(StepIndex(s)) == 20.0 * (StepIndex(s) + 1) as real
    ensures ProgressPercent(StepIndex(s)) == 100.0 <==> s == Delivered
    ensures !OrderContext.IsTracked(s) ==> ProgressPercent(StepIndex(s)) == 0.0
  {
  }

  /** A later step shows a fuller bar. */
  lemma ProgressMonotone(i: nat, j: nat)
    requires i < j < |StatusSteps|
    ensures ProgressPercent(StepIndex(StatusSteps[i])) < ProgressPercent(StepIndex(StatusSteps[j]))
  {
    StepIndexTracked(i);
    StepIndexTracked(j);
  }

  /** `Math.max(0, estimatedDelivery - Math.floor(elapsed / 60))`, with `elapsed` in seconds. */
  function RemainingTime(estimatedDelivery: int, elapsed: nat): (m: int)
    ensures m >= 0
    ensures m <= estimatedDelivery || m == 0
    ensures elapsed < 60 ==> m == if estimatedDelivery > 0 then estimatedDelivery else 0
  {
    var left := estimatedDelivery - elapsed / 60;
    if left > 0 then left else 0
  }

  /** The countdown never goes up as time passes, and reaches zero once the estimate has elapsed. */
  lemma RemainingTimeMonotone(eta: int, e1: nat, e2: nat)
    requires e1 <= e2
    ensures RemainingTime(eta, e2) <= RemainingTime(eta, e1)
    ensures e2 >= 60 * eta ==> RemainingTime(eta, e2) == 0
  {
    assert e1 / 60 <= e2 / 60;
  }

  /** The flags of one timeline step. */
  datatype StepView = StepView(isComplete: bool, isCurrent: bool)

  /** `statusSteps.map((step, i) => ({ isComplete: i <= index, isCurrent: i === index }))`. */
  function StepViews(index: int): (v: seq<StepView>)
    ensures |v| == |StatusSteps|
  {
    seq(|StatusSteps|, i requires 0 <= i < |StatusSteps| => StepView(i <= index, i == index))
  }

  /** How many steps are drawn as the current one. */
  function CountCurrent(vs: seq<StepView>): nat {
    if vs == [] then 0 else (if vs[0].isCurrent then 1 else 0) + CountCurrent(vs[1..])
  }

  lemma {:induction false} CountCurrentNone(vs: seq<StepView>)
    requires forall i :: 0 <= i < |vs| ==> !vs[i].isCurrent
    ensures CountCurrent(vs) == 0
  {
    if vs != [] {
      CountCurrentNone(vs[1..]);
    }
  }

  lemma {:induction false} CountCurrentOne(vs: seq<StepView>, k: nat)
    requires k < |vs|
    requires forall i :: 0 <= i < |vs| ==> (vs[i].isCurrent <==> i == k)
    ensures CountCurrent(vs) == 1
  {
    if k == 0 {
      CountCurrentNone(vs[1..]);
    } else {
      CountCurrentOne(vs[1..], k - 1);
    }
  }

  /** For an order on the timeline the completed steps are exactly those up to and including its
      status, and exactly one step is the current one. */
  lemma TimelineShape(s: OrderContext.TrackedStatus)
    ensures forall i :: 0 <= i < |StatusSteps| ==>
      (StepViews(StepIndex(s))[i].isComplete <==> i <= StepIndex(s))
    ensures forall i :: 0 <= i < |StatusSteps| ==>
      (StepViews(StepIndex(s))[i].isCurrent <==> StatusSteps[i] == s)
    ensures CountCurrent(StepViews(StepIndex(s))) == 1
  {
    CountCurrentOne(StepViews(StepIndex(s)), StepIndex(s));
  }

  /** `(status === 'rider_assigned' || status === 'on_the_way') && riderName`. */
  predicate ShowRiderCard(o: OrderContext.Order) {
    (o.status == RiderAssigned || o.status == OnTheWay) && o.riderName.Some? && o.riderName.value != ""
  }

  /** The rider card is shown only in the two steps between assignment and delivery. */
  lemma RiderCardWindow(o: OrderContext.Order)
    requires ShowRiderCard(o)
    ensures StepIndex(o.status) == 2 || StepIndex(o.status) == 3
  {
  }

  /** Orders built by the store always have a rider, so their card is shown in exactly those steps. */
  lemma RiderCardForStoreOrders(o: OrderContext.Order)
    requires o.riderName.Some? && o.riderName.value in OrderContext.RiderNames
    ensures ShowRiderCard(o) <==> o.status == RiderAssigned || o.status == OnTheWay
  {
  }

  /** The seconds-elapsed counter runs only while an order is shown and it is not yet delivered. */
  predicate CounterRuns(order: Option<OrderContext.Order>) {
    order.Some? && order.value.status != Delivered
  }

  class TrackingTimer {
    var elapsed: nat

    constructor ()
      ensures elapsed == 0
    {
      elapsed := 0;
    }

    /** One tick of the one-second interval. */
    method Tick(order: Option<OrderContext.Order>)
      modifies this
      ensures CounterRuns(order) ==> elapsed == old(elapsed) + 1
      ensures !CounterRuns(order) ==> elapsed == old(elapsed)
    {
      if CounterRuns(order) {
        elapsed := elapsed + 1;
      }
    }
  }
}
