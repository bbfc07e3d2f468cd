/** The shopping cart: an ordered list of lines, one per menu item, kept in memory for the session.
    Every operation replaces the list by a new one computed from the old one; the derived item count
    and subtotal are recomputed from the current lines on every read. */
module CartContext {
  import opened Wrappers
  import Seqs

  /** A snapshot of a menu item taken when it is added; later catalog changes do not reach it. */
  datatype MenuItem = MenuItem(
    id: string,
    name: string,
    description: Option<string>,
    price: nat,
    imageUrl: Option<string>,
    preparationTime: Option<nat>)

  datatype CartLine = CartLine(
    menuItem: MenuItem,
    quantity: int,
    specialInstructions: Option<string>,
    cafeteriaId: string,
    cafeteriaName: string)

  /** The arguments of one `addItem` call. */
  datatype AddRequest = AddRequest(item: MenuItem, cafeteriaId: string, cafeteriaName: string)

  /** The cart invariant: at most one line per menu-item id, and every quantity at least 1. */
  ghost predicate WellFormed(items: seq<CartLine>) {
    && (forall i, j :: 0 <= i < j < |items| ==> items[i].menuItem.id != items[j].menuItem.id)
    && (forall i :: 0 <= i < |items| ==> items[i].quantity >= 1)
  }

  /** `items.find(i => i.menuItem.id === id)`: the first line for `id`. */
  function Find(items: seq<CartLine>, id: string): (r: Option<CartLine>)
    ensures r.Some? <==> exists k :: 0 <= k < |items| && items[k].menuItem.id == id
    ensures r.Some? ==> r.value in items && r.value.menuItem.id == id
  {
    if items == [] then None
    else if items[0].menuItem.id == id then Some(items[0])
    else Find(items[1..], id)
  }

  /** The quantity of `id` in the cart, 0 when it has no line. */
  function Quantity(items: seq<CartLine>, id: string): int {
    match Find(items, id)
    case Some(l) => l.quantity
    case None => 0
  }

  /** `items.map(i => i.menuItem.id === id ? f(i) : i)`. */
  function MapMatching(items: seq<CartLine>, id: string, f: CartLine -> CartLine): (r: seq<CartLine>)
    ensures |r| == |items|
    ensures forall k :: 0 <= k < |items| ==>
      r[k] == if items[k].menuItem.id == id then f(items[k]) else items[k]
  {
    if items == [] then []
    else [if items[0].menuItem.id == id then f(items[0]) else items[0]] + MapMatching(items[1..], id, f)
  }

  /** The existing line with its quantity one higher. */
  function Increment(l: CartLine): CartLine {
    l.(quantity := l.quantity + 1)
  }

  /** The filter that `removeItem(id)` applies: the line is not the one for `id`. */
  function IsOther(id: string): CartLine -> bool {
    (l: CartLine) => l.menuItem.id != id
  }

  /** The lines after `addItem(item, cafeteriaId, cafeteriaName)`. */
  function Added(items: seq<CartLine>, item: MenuItem, cafeteriaId: string, cafeteriaName: string): (r: seq<CartLine>)
    ensures Find(items, item.id).Some? ==> |r| == |items| && forall k :: 0 <= k < |items| ==>
      && r[k].menuItem == items[k].menuItem
      && r[k].cafeteriaId == items[k].cafeteriaId
      && r[k].cafeteriaName == items[k].cafeteriaName
      && r[k].specialInstructions == items[k].specialInstructions
      && r[k].quantity == items[k].quantity + (if items[k].menuItem.id == item.id then 1 else 0)
    ensures Find(items, item.id).None? ==>
      && |r| == |items| + 1
      && r[..|items|] == items
      && r[|items|] == CartLine(item, 1, None, cafeteriaId, cafeteriaName)
  {
    if Find(items, item.id).Some? then
      MapMatching(items, item.id, Increment)
    else
      items + [CartLine(item, 1, None, cafeteriaId, cafeteriaName)]
  }

  /** The lines after `removeItem(id)`. */
  function Removed(items: seq<CartLine>, id: string): (r: seq<CartLine>)
    ensures forall l :: l in r <==> l in items && l.menuItem.id != id
  {
    Seqs.Filter(items, IsOther(id))
  }

  /** The lines after `updateQuantity(id, q)` with a positive `q`. */
  function WithQuantity(items: seq<CartLine>, id: string, q: int): seq<CartLine> {
    MapMatching(items, id, (l: CartLine) => l.(quantity := q))
  }

  /** The lines after `updateInstructions(id, text)`. */
  function WithInstructions(items: seq<CartLine>, id: string, text: string): seq<CartLine> {
    MapMatching(items, id, (l: CartLine) => l.(specialInstructions := Some(text)))
  }

  /** `totalItems`: the sum of the quantities. */
  function TotalItems(items: seq<CartLine>): int {
    if items == [] then 0 else items[0].quantity + TotalItems(items[1..])
  }

  /** `subtotal`: the sum of unit price times quantity. */
  function Subtotal(items: seq<CartLine>): int {
    if items == [] then 0 else items[0].menuItem.price * items[0].quantity + Subtotal(items[1..])
  }

  // ---------------------------------------------------------------------------------------------
  // The store

  class Cart {
    var items: seq<CartLine>

    ghost predicate Valid()
      reads this
    {
      WellFormed(items)
    }

    constructor ()
      ensures Valid() && items == []
    {
      items := [];
    }

    method AddItem(item: MenuItem, cafeteriaId: string, cafeteriaName: string)
      requires Valid()
      modifies this
      ensures Valid()
      ensures items == Added(old(items), item, cafeteriaId, cafeteriaName)
    {
      AddedWellFormed(items, item, cafeteriaId, cafeteriaName);
      items := Added(items, item, cafeteriaId, cafeteriaName);
    }

    method RemoveItem(id: string)
      requires Valid()
      modifies this
      ensures Valid()
      ensures items == Removed(old(items), id)
    {
      RemovedWellFormed(items, id);
      items := Removed(items, id);
    }

    /** A quantity of zero or less removes the line, exactly as `RemoveItem` does. */
    method UpdateQuantity(id: string, quantity: int)
      requires Valid()
      modifies this
      ensures Valid()
      ensures quantity <= 0 ==> items == Removed(old(items), id)
      ensures quantity > 0 ==> items == WithQuantity(old(items), id, quantity)
    {
      if quantity <= 0 {
        RemovedWellFormed(items, id);
        items := Removed(items, id);
      } else {
        items := WithQuantity(items, id, quantity);
      }
    }

    method UpdateInstructions(id: string, instructions: string)
      requires Valid()
      modifies this
      ensures Valid()
      ensures items == WithInstructions(old(items), id, instructions)
    {
      items := WithInstructions(items, id, instructions);
    }

    method ClearCart()
      modifies this
      ensures Valid() && items == []
    {
      items := [];
    }

    function ItemCount(): int
      reads this
    {
      TotalItems(items)
    }

    function SubtotalNow(): int
      reads this
    {
      Subtotal(items)
    }
  }

  // ---------------------------------------------------------------------------------------------
  // Properties of the operations

  /** Adding keeps one line per id and every quantity positive. */
  lemma AddedWellFormed(items: seq<CartLine>, item: MenuItem, cafeteriaId: string, cafeteriaName: string)
    requires WellFormed(items)
    ensures WellFormed(Added(items, item, cafeteriaId, cafeteriaName))
  {
    var r := Added(items, item, cafeteriaId, cafeteriaName);
    var n := |items|;
    if Find(items, item.id).None? {
      forall i | 0 <= i < n ensures r[i] == items[i] {
        assert r[..n][i] == items[i];
      }
      forall i, j | 0 <= i < j < |r| ensures r[i].menuItem.id != r[j].menuItem.id {
        if j == n {
          assert items[i].menuItem.id != item.id;
        }
      }
    } else {
      forall i, j | 0 <= i < j < |r| ensures r[i].menuItem.id != r[j].menuItem.id {
        assert r[i].menuItem == items[i].menuItem && r[j].menuItem == items[j].menuItem;
      }
    }
  }

  /** A list with unique ids, viewed from its head. */
  lemma WellFormedCons(items: seq<CartLine>)
    requires items != []
    ensures WellFormed(items) <==>
      && items[0].quantity >= 1
      && WellFormed(items[1..])
      && forall l :: l in items[1..] ==> l.menuItem.id != items[0].menuItem.id
  {
    if WellFormed(items) {
      forall l | l in items[1..] ensures l.menuItem.id != items[0].menuItem.id {
        var k :| 0 <= k < |items[1..]| && items[1..][k] == l;
        assert items[k + 1] == l;
      }
    }
    if && items[0].quantity >= 1
       && WellFormed(items[1..])
       && forall l :: l in items[1..] ==> l.menuItem.id != items[0].menuItem.id
    {
      forall i, j | 0 <= i < j < |items| ensures items[i].menuItem.id != items[j].menuItem.id {
        if i == 0 {
          assert items[j] in items[1..] by { assert items[j] == items[1..][j - 1]; }
        } else {
          assert items[i] == items[1..][i - 1] && items[j] == items[1..][j - 1];
        }
      }
      forall i | 0 <= i < |items| ensures items[i].quantity >= 1 {
        if i > 0 { assert items[i] == items[1..][i - 1]; }
      }
    }
  }

  /** Removing keeps one line per id and every quantity positive. */
  lemma {:induction false} RemovedWellFormed(items: seq<CartLine>, id: string)
    requires WellFormed(items)
    ensures WellFormed(Removed(items, id))
  {
    if items != [] {
      WellFormedCons(items);
      RemovedWellFormed(items[1..], id);
      var r := Removed(items, id);
      if items[0].menuItem.id != id {
        assert r == [items[0]] + Removed(items[1..], id);
        assert r[1..] == Removed(items[1..], id);
        WellFormedCons(r);
      } else {
        assert r == Removed(items[1..], id);
      }
    }
  }

  /** Setting a positive quantity keeps one line per id and every quantity positive. */
  lemma WithQuantityWellFormed(items: seq<CartLine>, id: string, q: int)
    requires WellFormed(items) && q >= 1
    ensures WellFormed(WithQuantity(items, id, q))
  {
  }

  /** Setting instructions keeps one line per id and every quantity positive. */
  lemma WithInstructionsWellFormed(items: seq<CartLine>, id: string, text: string)
    requires WellFormed(items)
    ensures WellFormed(WithInstructions(items, id, text))
  {
  }

  /** A map over the lines of an id that has none changes nothing. */
  lemma {:induction false} MapMatchingAbsent(items: seq<CartLine>, id: string, f: CartLine -> CartLine)
    requires Find(items, id).None?
    ensures MapMatching(items, id, f) == items
  {
  }

  /** Removing an id that has no line changes nothing. */
  lemma RemovedAbsent(items: seq<CartLine>, id: string)
    requires Find(items, id).None?
    ensures Removed(items, id) == items
  {
    Seqs.FilterKeepsAll(items, IsOther(id));
  }

  /** Removing keeps the other lines in their original relative order. */
  lemma RemovedKeepsOrder(items: seq<CartLine>, id: string)
    ensures Seqs.IsSubsequence(Removed(items, id), items)
  {
    Seqs.FilterIsSubsequence(items, IsOther(id));
  }

  /** Changing one line with `f` changes the item count by the change in that line's quantity. */
  lemma {:induction false} TotalItemsMapMatching(items: seq<CartLine>, id: string, f: CartLine -> CartLine)
    requires WellFormed(items)
    ensures TotalItems(MapMatching(items, id, f)) == TotalItems(items) +
      match Find(items, id) case Some(l) => f(l).quantity - l.quantity case None => 0
  {
    if items != [] {
      WellFormedCons(items);
      var m := MapMatching(items, id, f);
      assert m[1..] == MapMatching(items[1..], id, f);
      if items[0].menuItem.id == id {
        assert Find(items[1..], id).None?;
        MapMatchingAbsent(items[1..], id, f);
      } else {
        TotalItemsMapMatching(items[1..], id, f);
      }
    }
  }

  /** Changing one line with an `f` that keeps its menu item changes the subtotal by that line's change. */
  lemma {:induction false} SubtotalMapMatching(items: seq<CartLine>, id: string, f: CartLine -> CartLine)
    requires WellFormed(items)
    requires forall l :: f(l).menuItem == l.menuItem
    ensures Subtotal(MapMatching(items, id, f)) == Subtotal(items) +
      match Find(items, id)
      case Some(l) => l.menuItem.price * f(l).quantity - l.menuItem.price * l.quantity
      case None => 0
  {
    if items != [] {
      WellFormedCons(items);
      var m := MapMatching(items, id, f);
      assert m[1..] == MapMatching(items[1..], id, f);
      if items[0].menuItem.id == id {
        assert Find(items[1..], id).None?;
        MapMatchingAbsent(items[1..], id, f);
      } else {
        SubtotalMapMatching(items[1..], id, f);
      }
    }
  }

  lemma {:induction false} TotalItemsAppend(items: seq<CartLine>, l: CartLine)
    ensures TotalItems(items + [l]) == TotalItems(items) + l.quantity
  {
    if items != [] {
      assert (items + [l])[1..] == items[1..] + [l];
      TotalItemsAppend(items[1..], l);
    }
  }

  lemma {:induction false} SubtotalAppend(items: seq<CartLine>, l: CartLine)
    ensures Subtotal(items + [l]) == Subtotal(items) + l.menuItem.price * l.quantity
  {
    if items != [] {
      assert (items + [l])[1..] == items[1..] + [l];
      SubtotalAppend(items[1..], l);
    }
  }

  /** Every `addItem` raises the item count by exactly one. */
  lemma AddedTotalItems(items: seq<CartLine>, item: MenuItem, cafeteriaId: string, cafeteriaName: string)
    requires WellFormed(items)
    ensures TotalItems(Added(items, item, cafeteriaId, cafeteriaName)) == TotalItems(items) + 1
  {
    if Find(items, item.id).Some? {
      TotalItemsMapMatching(items, item.id, Increment);
    } else {
      TotalItemsAppend(items, CartLine(item, 1, None, cafeteriaId, cafeteriaName));
    }
  }

  /** `addItem` raises the subtotal by one unit price: that of the snapshot already in the cart when
      the id has a line (a newer price on `item` is ignored), that of `item` otherwise. */
  lemma AddedSubtotal(items: seq<CartLine>, item: MenuItem, cafeteriaId: string, cafeteriaName: string)
    requires WellFormed(items)
    ensures Subtotal(Added(items, item, cafeteriaId, cafeteriaName)) == Subtotal(items) +
      match Find(items, item.id) case Some(l) => l.menuItem.price case None => item.price
  {
    if Find(items, item.id).Some? {
      var l := Find(items, item.id).value;
      SubtotalMapMatching(items, item.id, Increment);
      MulSucc(l.menuItem.price, l.quantity);
    } else {
      SubtotalAppend(items, CartLine(item, 1, None, cafeteriaId, cafeteriaName));
    }
  }

  lemma MulSucc(p: int, q: int)
    ensures p * (q + 1) == p * q + p
  {
  }

  /** Removing a line lowers the item count by that line's quantity. */
  lemma {:induction false} RemovedTotalItems(items: seq<CartLine>, id: string)
    requires WellFormed(items)
    ensures TotalItems(Removed(items, id)) == TotalItems(items) - Quantity(items, id)
  {
    if items != [] {
      WellFormedCons(items);
      if items[0].menuItem.id == id {
        assert Find(items[1..], id).None?;
        RemovedAbsent(items[1..], id);
        assert Removed(items, id) == Removed(items[1..], id);
      } else {
        RemovedTotalItems(items[1..], id);
        assert Removed(items, id) == [items[0]] + Removed(items[1..], id);
      }
    }
  }

  /** Removing a line lowers the subtotal by that line's price times quantity. */
  lemma {:induction false} RemovedSubtotal(items: seq<CartLine>, id: string)
    requires WellFormed(items)
    ensures Subtotal(Removed(items, id)) == Subtotal(items) -
      match Find(items, id) case Some(l) => l.menuItem.price * l.quantity case None => 0
  {
    if items != [] {
      WellFormedCons(items);
      if items[0].menuItem.id == id {
        assert Find(items[1..], id).None?;
        RemovedAbsent(items[1..], id);
        assert Removed(items, id) == Removed(items[1..], id);
      } else {
        RemovedSubtotal(items[1..], id);
        assert Removed(items, id) == [items[0]] + Removed(items[1..], id);
      }
    }
  }

  /** Setting a quantity: the line for `id`, if any, now has exactly `q`; every other id keeps its own. */
  lemma {:induction false} QuantityAfterWithQuantity(items: seq<CartLine>, id: string, q: int, other: string)
    ensures Quantity(WithQuantity(items, id, q), other) ==
      if other == id && Find(items, id).Some? then q else Quantity(items, other)
  {
    if items != [] {
      var r := WithQuantity(items, id, q);
      assert r[1..] == WithQuantity(items[1..], id, q);
      QuantityAfterWithQuantity(items[1..], id, q, other);
    }
  }

  /** After `addItem`, the quantity of the added id is one higher and every other id is unaffected. */
  lemma {:induction false} QuantityAfterAdded(items: seq<CartLine>, item: MenuItem, cafeteriaId: string,
                                              cafeteriaName: string, id: string)
    requires WellFormed(items)
    ensures Quantity(Added(items, item, cafeteriaId, cafeteriaName), id) ==
      Quantity(items, id) + (if item.id == id then 1 else 0)
  {
    var r := Added(items, item, cafeteriaId, cafeteriaName);
    if Find(items, item.id).Some? {
      QuantityAfterBump(items, item.id, id);
    } else {
      FindAppend(items, CartLine(item, 1, None, cafeteriaId, cafeteriaName), id);
    }
  }

  lemma {:induction false} QuantityAfterBump(items: seq<CartLine>, bumped: string, id: string)
    ensures Quantity(MapMatching(items, bumped, Increment), id) ==
      Quantity(items, id) + (if bumped == id && Find(items, id).Some? then 1 else 0)
  {
    if items != [] {
      var r := MapMatching(items, bumped, Increment);
      assert r[1..] == MapMatching(items[1..], bumped, Increment);
      QuantityAfterBump(items[1..], bumped, id);
    }
  }

  lemma {:induction false} FindAppend(items: seq<CartLine>, x: CartLine, id: string)
    ensures Find(items + [x], id) ==
      if Find(items, id).Some? then Find(items, id) else if x.menuItem.id == id then Some(x) else None
  {
    if items != [] {
      assert (items + [x])[1..] == items[1..] + [x];
      FindAppend(items[1..], x, id);
    } else {
      assert items + [x] == [x];
    }
  }

  /** The lines after a sequence of `addItem` calls, applied in order. */
  function AddAll(items: seq<CartLine>, adds: seq<AddRequest>): seq<CartLine>
    decreases |adds|
  {
    if adds == [] then items
    else AddAll(Added(items, adds[0].item, adds[0].cafeteriaId, adds[0].cafeteriaName), adds[1..])
  }

  /** Starting from a valid cart, a sequence of adds raises each id's quantity by the number of
      adds of that id, and the cart stays valid (no duplicate lines). */
  lemma {:induction false} AddAllQuantity(items: seq<CartLine>, adds: seq<AddRequest>, id: string)
    requires WellFormed(items)
    ensures WellFormed(AddAll(items, adds))
    ensures Quantity(AddAll(items, adds), id) ==
      Quantity(items, id) + Seqs.Count(adds, (a: AddRequest) => a.item.id == id)
    decreases |adds|
  {
    if adds != [] {
      var a := adds[0];
      AddedWellFormed(items, a.item, a.cafeteriaId, a.cafeteriaName);
      QuantityAfterAdded(items, a.item, a.cafeteriaId, a.cafeteriaName, id);
      AddAllQuantity(Added(items, a.item, a.cafeteriaId, a.cafeteriaName), adds[1..], id);
    }
  }

  /** Two adds of a 1500-naira item A and one of an 800-naira item B: 3 items, subtotal 3800. */
  lemma CartArithmeticExample(a: MenuItem, b: MenuItem, caf: string, name: string)
    requires a.id != b.id && a.price == 1500 && b.price == 800
    ensures var items := Added(Added(Added([], a, caf, name), a, caf, name), b, caf, name);
      TotalItems(items) == 3 && Subtotal(items) == 3800
  {
    var one := Added([], a, caf, name);
    var two := Added(one, a, caf, name);
    var three := Added(two, b, caf, name);
    AddedTotalItems([], a, caf, name);
    AddedSubtotal([], a, caf, name);
    AddedWellFormed([], a, caf, name);
    AddedTotalItems(one, a, caf, name);
    AddedSubtotal(one, a, caf, name);
    AddedWellFormed(one, a, caf, name);
    assert two == [CartLine(a, 2, None, caf, name)];
    AddedTotalItems(two, b, caf, name);
    AddedSubtotal(two, b, caf, name);
  }
}
