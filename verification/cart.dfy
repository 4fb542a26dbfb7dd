/**
 * The cart of the billing screen: the in-stock item list, its category and
 * search filter, the add and update actions, and the totals preview that is
 * shown before the bill is sent to the server.
 */
module Cart {
  import opened Wrappers
  import opened Text
  import opened Inventory
  import BillingEngine

  /** A cart line: the item's terms as listed when it was added, and the stock then as the cap. */
  datatype Line = Line(itemId: string, name: string, price: real, gstRate: real, quantity: int, maxQuantity: int)

  type Cart = seq<Line>

  // ------------------------------------------------------------ the item list

  /** The list the screen offers: the fetched items with stock left, in order. */
  function FetchAvailable(items: seq<Item>): (r: seq<Item>)
    ensures forall x :: x in r <==> x in items && x.quantity > 0
    ensures |r| <= |items|
  {
    if items == [] then []
    else (if items[0].quantity > 0 then [items[0]] else []) + FetchAvailable(items[1..])
  }

  /** The category tab: every item, or one category. */
  datatype CategoryFilter = All | Only(category: Category)

  /** Whether the screen lists `item` under the active tab and search term. */
  predicate Shown(item: Item, tab: CategoryFilter, term: string) {
    (tab.All? || item.category == tab.category) && Includes(Lower(item.name), Lower(term))
  }

  /** The items listed under the active tab and search term, in order. */
  function FilteredInventory(available: seq<Item>, tab: CategoryFilter, term: string): seq<Item> {
    if available == [] then []
    else (if Shown(available[0], tab, term) then [available[0]] else []) + FilteredInventory(available[1..], tab, term)
  }

  /** An item is listed exactly when it has stock, sits under the active tab, and matches the search. */
  lemma ListedIff(items: seq<Item>, tab: CategoryFilter, term: string, x: Item)
    ensures x in FilteredInventory(FetchAvailable(items), tab, term) <==>
      (x in items && x.quantity > 0 && (tab.All? || x.category == tab.category)
       && Includes(Lower(x.name), Lower(term)))
  {
    FilterMembers(FetchAvailable(items), tab, term, x);
  }

  /**
   * The same with the search spelled out: the lower-cased term occurs in the
   * lower-cased name at some offset.
   */
  lemma FilteredInventoryShows(items: seq<Item>, tab: CategoryFilter, term: string, x: Item)
    ensures x in FilteredInventory(FetchAvailable(items), tab, term) <==>
      (x in items && x.quantity > 0 && (tab.All? || x.category == tab.category)
       && exists k :: OccursAt(Lower(x.name), Lower(term), k))
  {
    ListedIff(items, tab, term, x);
    IncludesAtOffset(Lower(x.name), Lower(term));
  }

  lemma {:induction false} FilterMembers(available: seq<Item>, tab: CategoryFilter, term: string, x: Item)
    ensures x in FilteredInventory(available, tab, term) <==> x in available && Shown(x, tab, term)
    decreases |available|
  {
    if available != [] {
      FilterMembers(available[1..], tab, term, x);
      assert available == [available[0]] + available[1..];
    }
  }

  // --------------------------------------------------------------- the cart

  /** `Array.find` by item id: the first line for `id`, if any. */
  function Find(cart: Cart, id: string): (r: Option<nat>)
    ensures r.Some? ==> r.value < |cart| && cart[r.value].itemId == id
    ensures r.Some? ==> forall j :: 0 <= j < r.value ==> cart[j].itemId != id
    ensures r.None? ==> forall j :: 0 <= j < |cart| ==> cart[j].itemId != id
  {
    if cart == [] then None
    else if cart[0].itemId == id then Some(0)
    else match Find(cart[1..], id)
      case None => None
      case Some(k) => Some(k + 1)
  }

  /** No two lines name the same item. */
  ghost predicate NoDup(cart: Cart) {
    forall i, j :: 0 <= i < j < |cart| ==> cart[i].itemId != cart[j].itemId
  }

  /** The `map` that raises every line for `id` by one. */
  function Bump(cart: Cart, id: string): (r: Cart)
    ensures |r| == |cart|
    ensures forall j :: 0 <= j < |cart| ==>
      r[j] == if cart[j].itemId == id then cart[j].(quantity := cart[j].quantity + 1) else cart[j]
  {
    if cart == [] then []
    else [if cart[0].itemId == id then cart[0].(quantity := cart[0].quantity + 1) else cart[0]] + Bump(cart[1..], id)
  }

  /** The `map` that sets every line for `id` to quantity `n`. */
  function SetQuantity(cart: Cart, id: string, n: int): (r: Cart)
    ensures |r| == |cart|
    ensures forall j :: 0 <= j < |cart| ==>
      r[j] == if cart[j].itemId == id then cart[j].(quantity := n) else cart[j]
  {
    if cart == [] then []
    else [if cart[0].itemId == id then cart[0].(quantity := n) else cart[0]] + SetQuantity(cart[1..], id, n)
  }

  /** The `filter` that drops every line for `id`, keeping the rest in order. */
  function Remove(cart: Cart, id: string): Cart {
    if cart == [] then []
    else (if cart[0].itemId == id then [] else [cart[0]]) + Remove(cart[1..], id)
  }

  /** The lines kept are exactly those for other items. */
  lemma {:induction false} RemoveMembers(cart: Cart, id: string)
    ensures forall l :: l in Remove(cart, id) <==> l in cart && l.itemId != id
    decreases |cart|
  {
    if cart != [] {
      RemoveMembers(cart[1..], id);
      assert cart == [cart[0]] + cart[1..];
    }
  }

  /** The line an item starts with: quantity one, capped at the item's listed stock. */
  function NewLine(item: Item): Line {
    Line(item.itemId, item.name, item.price, item.gstRate, 1, item.quantity)
  }

  /**
   * `addToCart`: a new item is appended with quantity one; an item already
   * in the cart is raised by one while its line is below the item's stock,
   * and otherwise the cart is left as it is (the screen shows an alert).
   */
  function AddToCart(cart: Cart, item: Item): (r: Cart)
    ensures Find(cart, item.itemId).None? ==> r == cart + [NewLine(item)]
    ensures Find(cart, item.itemId).Some? ==>
      var k := Find(cart, item.itemId).value;
      && |r| == |cart|
      && (cart[k].quantity < item.quantity ==> r[k] == cart[k].(quantity := cart[k].quantity + 1))
      && (cart[k].quantity >= item.quantity ==> r == cart)
      && (NoDup(cart) ==> forall j :: 0 <= j < |cart| && j != k ==> r[j] == cart[j])
  {
    match Find(cart, item.itemId)
    case None => cart + [NewLine(item)]
    case Some(k) => if cart[k].quantity < item.quantity then Bump(cart, item.itemId) else cart
  }

  /**
   * `updateQuantity`: a quantity of zero or less drops the item's line; one
   * up to the line's cap replaces its quantity; a larger one is refused with
   * an alert. An id with no line leaves the cart as it is (the screen only
   * offers the action on lines it shows).
   */
  function UpdateQuantity(cart: Cart, id: string, n: int): (r: Cart)
    ensures n <= 0 ==> forall l :: l in r <==> l in cart && l.itemId != id
    ensures n <= 0 && NoDup(cart) && Find(cart, id).Some? ==>
      var k := Find(cart, id).value;
      r == cart[..k] + cart[k + 1..]
    ensures Find(cart, id).None? ==> r == cart
    ensures n > 0 && Find(cart, id).Some? ==>
      var k := Find(cart, id).value;
      && (n <= cart[k].maxQuantity && NoDup(cart) ==> r == cart[k := cart[k].(quantity := n)])
      && (n > cart[k].maxQuantity ==> r == cart)
  {
    if n <= 0 then
      RemoveShape(cart, id);
      RemoveMembers(cart, id);
      Remove(cart, id)
    else match Find(cart, id)
      case None => cart
      case Some(k) =>
        if n <= cart[k].maxQuantity then
          SetOnly(cart, id, k, n);
          SetQuantity(cart, id, n)
        else cart
  }

  lemma RemoveShape(cart: Cart, id: string)
    ensures Find(cart, id).None? ==> Remove(cart, id) == cart
    ensures NoDup(cart) && Find(cart, id).Some? ==>
      Remove(cart, id) == cart[..Find(cart, id).value] + cart[Find(cart, id).value + 1..]
  {
    match Find(cart, id)
    case None => RemoveMissing(cart, id);
    case Some(k) => if NoDup(cart) { RemoveUnique(cart, id, k); }
  }

  lemma {:induction false} RemoveMissing(cart: Cart, id: string)
    requires forall j :: 0 <= j < |cart| ==> cart[j].itemId != id
    ensures Remove(cart, id) == cart
    decreases |cart|
  {
    if cart != [] {
      RemoveMissing(cart[1..], id);
    }
  }

  /** Without duplicates, dropping `id` removes exactly its one line. */
  lemma {:induction false} RemoveUnique(cart: Cart, id: string, k: nat)
    requires NoDup(cart) && k < |cart| && cart[k].itemId == id
    ensures Remove(cart, id) == cart[..k] + cart[k + 1..]
    decreases k
  {
    var tail := cart[1..];
    assert Remove(cart, id) == (if cart[0].itemId == id then [] else [cart[0]]) + Remove(tail, id);
    if k == 0 {
      forall j | 0 <= j < |tail| ensures tail[j].itemId != id {
        assert tail[j] == cart[j + 1];
      }
      RemoveMissing(tail, id);
      assert cart[k + 1..] == tail;
    } else {
      assert cart[0].itemId != id;
      forall i, j | 0 <= i < j < |tail| ensures tail[i].itemId != tail[j].itemId {
        assert tail[i] == cart[i + 1] && tail[j] == cart[j + 1];
      }
      RemoveUnique(tail, id, k - 1);
      assert tail[..k - 1] == cart[1..k];
      assert tail[k..] == cart[k + 1..];
      assert cart[..k] == [cart[0]] + cart[1..k];
    }
  }

  lemma SetOnly(cart: Cart, id: string, k: nat, n: int)
    requires k < |cart| && cart[k].itemId == id
    ensures NoDup(cart) ==> SetQuantity(cart, id, n) == cart[k := cart[k].(quantity := n)]
  {
  }

  // ------------------------------------------------------------- invariants

  /** Every line's quantity lies between one and its cap. */
  ghost predicate Bounded(cart: Cart) {
    forall j :: 0 <= j < |cart| ==> 1 <= cart[j].quantity <= cart[j].maxQuantity
  }

  /** Adding keeps the lines distinct. */
  lemma AddToCartNoDup(cart: Cart, item: Item)
    requires NoDup(cart)
    ensures NoDup(AddToCart(cart, item))
  {
  }

  /** Dropping an item's lines keeps the others distinct. */
  lemma {:induction false} RemoveNoDup(cart: Cart, id: string)
    requires NoDup(cart)
    ensures NoDup(Remove(cart, id))
    decreases |cart|
  {
    if cart != [] {
      var tail := cart[1..];
      assert NoDup(tail) by {
        forall i, j | 0 <= i < j < |tail| ensures tail[i].itemId != tail[j].itemId {
          assert tail[i] == cart[i + 1] && tail[j] == cart[j + 1];
        }
      }
      RemoveNoDup(tail, id);
      RemoveMembers(tail, id);
      var rest := Remove(tail, id);
      forall j | 0 <= j < |rest| ensures rest[j].itemId != cart[0].itemId {
        assert rest[j] in tail;
        var i :| 0 <= i < |tail| && tail[i] == rest[j];
        assert cart[i + 1] == rest[j];
      }
    }
  }

  /** Updating keeps the lines distinct. */
  lemma UpdateQuantityNoDup(cart: Cart, id: string, n: int)
    requires NoDup(cart)
    ensures NoDup(UpdateQuantity(cart, id, n))
  {
    var r := UpdateQuantity(cart, id, n);
    if n <= 0 {
      assert r == Remove(cart, id);
      RemoveNoDup(cart, id);
    } else if Find(cart, id).Some? && n <= cart[Find(cart, id).value].maxQuantity {
      assert r == SetQuantity(cart, id, n);
      assert forall j :: 0 <= j < |r| ==> r[j].itemId == cart[j].itemId;
    } else {
      assert r == cart;
    }
  }

  /** Each line's cap is the stock of the listed item it was made from. */
  ghost predicate CappedBy(cart: Cart, available: seq<Item>) {
    forall j :: 0 <= j < |cart| ==>
      exists a :: 0 <= a < |available| && available[a].itemId == cart[j].itemId
                  && cart[j].maxQuantity == available[a].quantity
  }

  /** Listed items have distinct ids (`item_id` is UNIQUE) and stock left. */
  ghost predicate GoodListing(available: seq<Item>) {
    && (forall a, b :: 0 <= a < b < |available| ==> available[a].itemId != available[b].itemId)
    && (forall a :: 0 <= a < |available| ==> available[a].quantity > 0)
  }

  /** A click on a listed item, or a press of `-` or `+` on a line. */
  datatype Action = Add(index: nat) | Update(itemId: string, quantity: int)

  /** The cart after one action; a click on an unlisted position does nothing. */
  function Apply(cart: Cart, available: seq<Item>, act: Action): Cart {
    match act
    case Add(a) => if a < |available| then AddToCart(cart, available[a]) else cart
    case Update(id, n) => UpdateQuantity(cart, id, n)
  }

  /** The cart after a run of actions on a fixed listing. */
  function Run(cart: Cart, available: seq<Item>, actions: seq<Action>): Cart
    decreases |actions|
  {
    if actions == [] then cart else Run(Apply(cart, available, actions[0]), available, actions[1..])
  }

  /** One action keeps the lines distinct, in bounds and capped by the listing. */
  lemma StepKeeps(cart: Cart, available: seq<Item>, act: Action)
    requires GoodListing(available)
    requires NoDup(cart) && Bounded(cart) && CappedBy(cart, available)
    ensures var next := Apply(cart, available, act);
      NoDup(next) && Bounded(next) && CappedBy(next, available)
  {
    match act
    case Add(a) =>
      if a < |available| {
        AddKeeps(cart, available, a);
      }
    case Update(id, n) =>
      UpdateQuantityNoDup(cart, id, n);
      UpdateKeeps(cart, available, id, n);
  }

  lemma AddKeeps(cart: Cart, available: seq<Item>, a: nat)
    requires GoodListing(available) && a < |available|
    requires NoDup(cart) && Bounded(cart) && CappedBy(cart, available)
    ensures var r := AddToCart(cart, available[a]);
      NoDup(r) && Bounded(r) && CappedBy(r, available)
  {
    var item := available[a];
    var r := AddToCart(cart, item);
    AddToCartNoDup(cart, item);
    match Find(cart, item.itemId)
    case None =>
      assert r == cart + [NewLine(item)];
      assert r[|cart|].maxQuantity == available[a].quantity;
    case Some(k) =>
      if cart[k].quantity < item.quantity {
        var b :| 0 <= b < |available| && available[b].itemId == cart[k].itemId
                 && cart[k].maxQuantity == available[b].quantity;
        assert b == a;
        forall j | 0 <= j < |r|
          ensures exists a' :: 0 <= a' < |available| && available[a'].itemId == r[j].itemId
                               && r[j].maxQuantity == available[a'].quantity
        {
          assert r[j].itemId == cart[j].itemId && r[j].maxQuantity == cart[j].maxQuantity;
        }
      }
  }

  lemma UpdateKeeps(cart: Cart, available: seq<Item>, id: string, n: int)
    requires NoDup(cart) && Bounded(cart) && CappedBy(cart, available)
    ensures var r := UpdateQuantity(cart, id, n);
      Bounded(r) && CappedBy(r, available)
  {
    var r := UpdateQuantity(cart, id, n);
    if n <= 0 {
      RemoveMembers(cart, id);
      forall j | 0 <= j < |r|
        ensures 1 <= r[j].quantity <= r[j].maxQuantity
        ensures exists a :: 0 <= a < |available| && available[a].itemId == r[j].itemId
                            && r[j].maxQuantity == available[a].quantity
      {
        assert r[j] in cart;
      }
    } else if Find(cart, id).Some? {
      var k := Find(cart, id).value;
      if n <= cart[k].maxQuantity {
        forall j | 0 <= j < |r|
          ensures exists a :: 0 <= a < |available| && available[a].itemId == r[j].itemId
                              && r[j].maxQuantity == available[a].quantity
        {
          assert r[j].itemId == cart[j].itemId && r[j].maxQuantity == cart[j].maxQuantity;
        }
      }
    }
  }

  /**
   * Starting from an empty cart, any run of clicks on the in-stock listing
   * and presses of `-`/`+` keeps every line's quantity between one and its
   * cap, and never lists an item twice.
   */
  lemma {:induction false} RunKeepsBounds(cart: Cart, available: seq<Item>, actions: seq<Action>)
    requires GoodListing(available)
    requires NoDup(cart) && Bounded(cart) && CappedBy(cart, available)
    ensures var r := Run(cart, available, actions);
      NoDup(r) && Bounded(r) && CappedBy(r, available)
    decreases |actions|
  {
    if actions != [] {
      StepKeeps(cart, available, actions[0]);
      RunKeepsBounds(Apply(cart, available, actions[0]), available, actions[1..]);
    }
  }

  /** The empty cart on a fetched listing satisfies the invariants from the start. */
  lemma SessionKeepsBounds(items: seq<Item>, actions: seq<Action>)
    requires forall a, b :: 0 <= a < b < |items| ==> items[a].itemId != items[b].itemId
    ensures var r := Run([], FetchAvailable(items), actions);
      NoDup(r) && Bounded(r)
  {
    var available := FetchAvailable(items);
    FetchAvailableDistinct(items);
    RunKeepsBounds([], available, actions);
  }

  lemma {:induction false} FetchAvailableDistinct(items: seq<Item>)
    requires forall a, b :: 0 <= a < b < |items| ==> items[a].itemId != items[b].itemId
    ensures GoodListing(FetchAvailable(items))
    decreases |items|
  {
    if items != [] {
      FetchAvailableDistinct(items[1..]);
      var rest := FetchAvailable(items[1..]);
      forall x | x in rest ensures x.itemId != items[0].itemId {
        var i :| 0 <= i < |items[1..]| && items[1..][i] == x;
        assert items[i + 1] == x;
      }
    }
  }

  // ----------------------------------------------------------------- totals

  function CartSubtotal(cart: Cart): real {
    if cart == [] then 0.0 else cart[0].quantity as real * cart[0].price + CartSubtotal(cart[1..])
  }

  function CartGst(cart: Cart): real {
    if cart == [] then 0.0
    else cart[0].quantity as real * cart[0].price * cart[0].gstRate / 100.0 + CartGst(cart[1..])
  }

  /** `calculateBill`: the server's arithmetic applied to the cart's own prices and rates. */
  function CalculateBill(cart: Cart, discount: real): BillingEngine.Amounts {
    BillingEngine.Priced(CartSubtotal(cart), CartGst(cart), discount)
  }

  /** The lines the bill request carries: item id, name and quantity of each cart line. */
  function RequestLines(cart: Cart): (r: seq<BillingEngine.CartLine>)
    ensures |r| == |cart|
    ensures forall j :: 0 <= j < |cart| ==>
      r[j] == BillingEngine.CartLine(cart[j].itemId, cart[j].name, cart[j].quantity)
  {
    if cart == [] then [] else [BillingEngine.CartLine(cart[0].itemId, cart[0].name, cart[0].quantity)] + RequestLines(cart[1..])
  }

  /** Every line's price and rate are still those of the inventory row. */
  ghost predicate PricesCurrent(cart: Cart, inv: Inventory) {
    forall j :: 0 <= j < |cart| ==>
      cart[j].itemId in inv && cart[j].price == inv[cart[j].itemId].price && cart[j].gstRate == inv[cart[j].itemId].gstRate
  }

  lemma {:induction false} SnapshotSums(cart: Cart, inv: Inventory)
    requires PricesCurrent(cart, inv)
    ensures BillingEngine.AllKnown(inv, RequestLines(cart))
    ensures BillingEngine.SumItemTotals(BillingEngine.Snapshots(inv, RequestLines(cart))) == CartSubtotal(cart)
    ensures BillingEngine.SumGst(BillingEngine.Snapshots(inv, RequestLines(cart))) == CartGst(cart)
    decreases |cart|
  {
    if cart != [] {
      SnapshotSums(cart[1..], inv);
      assert RequestLines(cart) == [RequestLines(cart)[0]] + RequestLines(cart[1..]);
      assert RequestLines(cart)[1..] == RequestLines(cart[1..]);
    }
  }

  /**
   * The preview is what the server bills: when the cart's prices and rates
   * are still current and the server accepts the cart, the bill's subtotal,
   * GST, discount and final amount are the preview's.
   */
  lemma PreviewMatchesBill(s: BillingEngine.Store, merchantId: string, cart: Cart, discount: real,
                           customerName: Option<string>, customerPhone: Option<string>, billNumber: string)
    requires PricesCurrent(cart, s.inventory)
    ensures var req := BillingEngine.BillRequest(RequestLines(cart), Some(discount), customerName, customerPhone);
      var r := BillingEngine.CreateBill(s, merchantId, req, billNumber);
      r.1.Success? ==> BillingEngine.AmountsOf(r.1.value) == CalculateBill(cart, discount)
  {
    var req := BillingEngine.BillRequest(RequestLines(cart), Some(discount), customerName, customerPhone);
    var r := BillingEngine.CreateBill(s, merchantId, req, billNumber);
    if r.1.Success? {
      BillingEngine.CreateBillContents(s, merchantId, req, billNumber);
      SnapshotSums(cart, s.inventory);
    }
  }
}
