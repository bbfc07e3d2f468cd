/** The checkout page: choose a hostel and a payment method, see the total, and place the order.
    Placing it turns the cart into an order in the order store and then empties the cart. */
module Checkout {
  import opened Wrappers
  import Hostels
  import CartContext
  import OrderContext

  /** `hostel?.deliveryFee || 0`: the fee of the selected hostel, 0 when none is selected. */
  function DeliveryFee(selected: string): (fee: nat)
    ensures Hostels.Find(selected).None? ==> fee == 0
    ensures Hostels.Find(selected).Some? ==> 200 <= fee <= 350
  {
    Hostels.TableRanges();
    match Hostels.Find(selected)
    case Some(h) => h.deliveryFee
    case None => 0
  }

  /** The fee charged is exactly the table's fee for the selected hostel, and it is zero exactly when
      no hostel of the table has the selected id. */
  lemma DeliveryFeeMatchesTable(selected: string)
    ensures forall h :: h in Hostels.All && h.id == selected ==> DeliveryFee(selected) == h.deliveryFee
    ensures DeliveryFee(selected) == 0 <==> forall h :: h in Hostels.All ==> h.id != selected
  {
    forall h | h in Hostels.All && h.id == selected
      ensures DeliveryFee(selected) == h.deliveryFee
    {
      Hostels.FindUnique(selected, h);
    }
  }

  /** `total = subtotal + deliveryFee`: the cart's subtotal plus the table fee of the selected hostel,
      or the subtotal alone when no hostel of the table has the selected id. */
  function Total(items: seq<CartContext.CartLine>, selected: string): (t: int)
    ensures forall h :: h in Hostels.All && h.id == selected ==> t == CartContext.Subtotal(items) + h.deliveryFee
    ensures (forall h :: h in Hostels.All ==> h.id != selected) ==> t == CartContext.Subtotal(items)
  {
    DeliveryFeeMatchesTable(selected);
    CartContext.Subtotal(items) + DeliveryFee(selected)
  }

  /** The ids of the three payment options. */
  const PaymentMethods: seq<string> := ["card", "transfer", "cash"]

  /** `items.length === 0 && !showSuccess`: the page sends the visitor back to the cart. Once an order
      has been placed the success overlay keeps the page from redirecting while the cart empties. */
  predicate RedirectsToCart(items: seq<CartContext.CartLine>, showSuccess: bool) {
    |items| == 0 && !showSuccess
  }

  datatype PlaceOutcome =
    | MissingHostel
    | MissingPayment
    | Placed(order: OrderContext.Order, path: string)

  class CheckoutPage {
    var selectedHostel: string
    var paymentMethod: string
    var processing: bool
    var showSuccess: bool

    /** The page only ever selects ids offered by its own lists. */
    ghost predicate Valid()
      reads this
    {
      && (selectedHostel == "" || Hostels.Find(selectedHostel).Some?)
      && (paymentMethod == "" || paymentMethod in PaymentMethods)
    }

    constructor ()
      ensures Valid()
      ensures selectedHostel == "" && paymentMethod == "" && !processing && !showSuccess
    {
      selectedHostel := "";
      paymentMethod := "";
      processing := false;
      showSuccess := false;
    }

    /** A click on one of the hostel options. */
    method SelectHostel(h: Hostels.Hostel)
      requires Valid() && h in Hostels.All
      modifies this
      ensures Valid()
      ensures selectedHostel == h.id && DeliveryFee(selectedHostel) == h.deliveryFee
      ensures paymentMethod == old(paymentMethod) && processing == old(processing)
      ensures showSuccess == old(showSuccess)
    {
      Hostels.FindUnique(h.id, h);
      selectedHostel := h.id;
    }

    /** A click on one of the payment options. */
    method SelectPayment(id: string)
      requires Valid() && id in PaymentMethods
      modifies this
      ensures Valid()
      ensures paymentMethod == id
      ensures selectedHostel == old(selectedHostel) && processing == old(processing)
      ensures showSuccess == old(showSuccess)
    {
      paymentMethod := id;
    }

    /** `handlePlaceOrder`, from the click to the navigation: the hostel is checked before the payment
        method; a placed order carries the cart's lines and prices; the cart is emptied only after the
        order exists. The clock reading and the random draws of the order store are parameters. */
    method HandlePlaceOrder(cart: CartContext.Cart, store: OrderContext.OrderStore,
                            clock: nat, createdAt: nat, etaRoll: nat, riderRoll: nat, phoneRoll: nat,
                            jitters: seq<real>)
      returns (outcome: PlaceOutcome, schedule: seq<OrderContext.Timer>)
      requires Valid() && !processing && !showSuccess
      requires etaRoll < 15 && riderRoll < |OrderContext.RiderNames| && phoneRoll < 90000000
      requires |jitters| == |OrderContext.ProgressionStatuses|
      requires forall i :: 0 <= i < |jitters| ==> 0.0 <= jitters[i] < 4000.0
      modifies this, cart, store
      ensures Valid()
      ensures selectedHostel == old(selectedHostel) && paymentMethod == old(paymentMethod)
      ensures old(selectedHostel) == "" <==> outcome == MissingHostel
      ensures outcome == MissingPayment <==> old(selectedHostel) != "" && old(paymentMethod) == ""
      ensures !outcome.Placed? ==>
        && cart.items == old(cart.items) && store.orders == old(store.orders)
        && store.currentOrder == old(store.currentOrder) && !showSuccess && !processing
      ensures outcome.Placed? ==>
        && Hostels.Find(old(selectedHostel)).Some?
        && outcome.order.items == old(cart.items)
        && outcome.order.subtotal == CartContext.Subtotal(old(cart.items))
        && outcome.order.deliveryFee == DeliveryFee(old(selectedHostel))
        && outcome.order.total == Total(old(cart.items), old(selectedHostel))
        && outcome.order.hostel == Hostels.Find(old(selectedHostel)).value.name
        && outcome.order.paymentMethod == old(paymentMethod)
        && outcome.order.status.Confirmed?
        && store.orders == [outcome.order] + old(store.orders)
        && store.currentOrder == Some(outcome.order)
        && outcome.path == "/tracking/" + outcome.order.id
        && cart.items == [] && cart.Valid()
        && showSuccess && !processing
        && !RedirectsToCart(cart.items, showSuccess)
    {
      if selectedHostel == "" {
        return MissingHostel, [];
      }
      if paymentMethod == "" {
        return MissingPayment, [];
      }
      var hostel := Hostels.Find(selectedHostel).value;
      var fee := DeliveryFee(selectedHostel);
      var subtotal := CartContext.Subtotal(cart.items);
      processing := true;
      // The simulated two-second payment delay elapses here.
      processing := false;
      showSuccess := true;
      var order;
      order, schedule := store.PlaceOrder(cart.items, subtotal, fee, hostel.name,
                                          paymentMethod, clock, createdAt, etaRoll, riderRoll, phoneRoll,
                                          jitters);
      // The 2.5-second timer fires: the cart is emptied and the page navigates to the tracking page.
      cart.ClearCart();
      outcome := Placed(order, "/tracking/" + order.id);
    }
  }
}
