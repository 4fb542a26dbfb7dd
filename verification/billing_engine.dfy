/**
 * The bill-creation transaction of the server (`POST /api/bills`): cart
 * lines are processed in order against the live inventory, each one checked,
 * priced, decremented and logged; a bill with its item snapshots is then
 * recorded. Any failure rolls every effect back.
 */
module BillingEngine {
  import opened Wrappers
  import opened Inventory

  /** One cart line of the request: the item it names, the name shown in errors, the quantity. */
  datatype CartLine = CartLine(itemId: string, name: string, quantity: int)

  datatype BillRequest = BillRequest(
    lines: seq<CartLine>,
    discount: Option<real>,
    customerName: Option<string>,
    customerPhone: Option<string>)

  /** A cart line as posted: the item id and the quantity may be missing from it. */
  datatype LineBody = LineBody(itemId: Option<string>, name: string, quantity: Option<int>)

  /** The body of `POST /api/bills` as posted: `items` may be missing. */
  datatype BillBody = BillBody(
    items: Option<seq<LineBody>>,
    discount: Option<real>,
    customerName: Option<string>,
    customerPhone: Option<string>)

  predicate LineTyped(l: LineBody) {
    l.itemId.Some? && l.quantity.Some?
  }

  predicate AllTyped(ls: seq<LineBody>) {
    forall i :: 0 <= i < |ls| ==> LineTyped(ls[i])
  }

  /** A body every bind of the handler accepts. */
  predicate WellTyped(b: BillBody) {
    b.items.Some? && AllTyped(b.items.value)
  }

  function LineOf(l: LineBody): CartLine
    requires LineTyped(l)
  {
    CartLine(l.itemId.value, l.name, l.quantity.value)
  }

  function LinesOf(ls: seq<LineBody>): (r: seq<CartLine>)
    requires AllTyped(ls)
    ensures |r| == |ls| && forall i :: 0 <= i < |ls| ==> r[i] == LineOf(ls[i])
  {
    seq(|ls|, i requires 0 <= i < |ls| && AllTyped(ls) => LineOf(ls[i]))
  }

  function RequestOf(b: BillBody): BillRequest
    requires WellTyped(b)
  {
    BillRequest(LinesOf(b.items.value), b.discount, b.customerName, b.customerPhone)
  }

  /** A `bill_items` row: a snapshot of the item's name, price and rate when billed. */
  datatype BillItem = BillItem(
    itemId: string,
    itemName: string,
    quantity: int,
    unitPrice: real,
    gstRate: real,
    itemTotal: real,
    gstAmount: real)

  /** The enums of the `stock_movements` table. */
  datatype MovementType = In | Out | Adjustment
  datatype ReferenceType = PurchaseRef | SaleRef | AdjustmentRef | ExcelUploadRef

  datatype StockMovement = StockMovement(
    merchantId: string,
    itemId: string,
    movementType: MovementType,
    quantity: int,
    referenceType: ReferenceType,
    referenceId: Option<string>)

  datatype Bill = Bill(
    merchantId: string,
    billNumber: string,
    customerName: string,
    customerPhone: string,
    items: seq<BillItem>,
    subtotal: real,
    discountPercent: real,
    discountAmount: real,
    totalGst: real,
    finalAmount: real)

  /** The four amounts a bill shows. */
  datatype Amounts = Amounts(subtotal: real, totalGst: real, discountAmount: real, finalAmount: real)

  /**
   * The bill's arithmetic: the discount is a percentage of the subtotal
   * alone, and the final amount adds the tax and takes the discount off.
   */
  function Priced(subtotal: real, totalGst: real, discountPercent: real): Amounts {
    var discountAmount := subtotal * discountPercent / 100.0;
    Amounts(subtotal, totalGst, discountAmount, subtotal + totalGst - discountAmount)
  }

  function AmountsOf(bill: Bill): Amounts {
    Amounts(bill.subtotal, bill.totalGst, bill.discountAmount, bill.finalAmount)
  }

  /** The tables the transaction touches. */
  datatype Store = Store(inventory: Inventory, movements: seq<StockMovement>, bills: seq<Bill>)

  /**
   * Why the transaction is rolled back. `MalformedRequest` is the throw of a
   * body the handler cannot read: `items` missing (the `items.length` read
   * throws) or a line without its item id or quantity (the driver refuses the
   * `undefined` bind).
   */
  datatype BillError =
    | ItemNotFound(name: string)
    | InsufficientStock(name: string)
    | DuplicateBillNumber(billNumber: string)
    | MalformedRequest

  /** What the loop over the cart has built so far (inside the open transaction). */
  datatype Tally = Tally(inventory: Inventory, items: seq<BillItem>, movements: seq<StockMovement>, subtotal: real, totalGst: real)

  const WalkInCustomer: string := "Walk-in Customer"

  /** Sum of the quantities of the lines that name `id`. */
  function QtyOf(lines: seq<CartLine>, id: string): int {
    if lines == [] then 0 else (if lines[0].itemId == id then lines[0].quantity else 0) + QtyOf(lines[1..], id)
  }

  /** The bill item that `line` makes of `item`. */
  function Snapshot(item: Item, line: CartLine): BillItem {
    var itemTotal := line.quantity as real * item.price;
    BillItem(line.itemId, item.name, line.quantity, item.price, item.gstRate, itemTotal, itemTotal * item.gstRate / 100.0)
  }

  predicate AllKnown(inv: Inventory, lines: seq<CartLine>) {
    forall i :: 0 <= i < |lines| ==> lines[i].itemId in inv
  }

  /** The snapshots of every line, taken from `inv`. */
  function Snapshots(inv: Inventory, lines: seq<CartLine>): seq<BillItem>
    requires AllKnown(inv, lines)
  {
    if lines == [] then [] else [Snapshot(inv[lines[0].itemId], lines[0])] + Snapshots(inv, lines[1..])
  }

  /** One `out`/`sale` movement per line, referring to the bill number. */
  function SaleMovements(merchantId: string, billNumber: string, lines: seq<CartLine>): seq<StockMovement> {
    if lines == [] then []
    else [StockMovement(merchantId, lines[0].itemId, Out, lines[0].quantity, SaleRef, Some(billNumber))]
         + SaleMovements(merchantId, billNumber, lines[1..])
  }

  function SumItemTotals(items: seq<BillItem>): real {
    if items == [] then 0.0 else items[0].itemTotal + SumItemTotals(items[1..])
  }

  function SumGst(items: seq<BillItem>): real {
    if items == [] then 0.0 else items[0].gstAmount + SumGst(items[1..])
  }

  /**
   * Line `i` passes both checks: its item belongs to the merchant, and the
   * stock left after the earlier lines of the same cart covers its quantity.
   */
  ghost predicate LineOk(inv: Inventory, merchantId: string, lines: seq<CartLine>, i: int)
    requires 0 <= i < |lines|
  {
    && Owns(inv, merchantId, lines[i].itemId)
    && lines[i].quantity <= inv[lines[i].itemId].quantity - QtyOf(lines[..i], lines[i].itemId)
  }

  /** Every line of the cart passes its checks. */
  ghost predicate Feasible(inv: Inventory, merchantId: string, lines: seq<CartLine>) {
    forall i :: 0 <= i < |lines| ==> LineOk(inv, merchantId, lines, i)
  }

  /** Line `k` is the first line to fail its checks. */
  ghost predicate FirstBadLine(inv: Inventory, merchantId: string, lines: seq<CartLine>, k: int) {
    && 0 <= k < |lines|
    && !LineOk(inv, merchantId, lines, k)
    && forall i :: 0 <= i < k ==> LineOk(inv, merchantId, lines, i)
  }

  /** The error line `k` raises when it fails: not found before insufficient stock. */
  function LineError(inv: Inventory, merchantId: string, line: CartLine): BillError {
    if !Owns(inv, merchantId, line.itemId) then ItemNotFound(line.name) else InsufficientStock(line.name)
  }

  /** `inv` after `line` has taken its quantity from its item. */
  function Decrement(inv: Inventory, line: CartLine): Inventory
    requires line.itemId in inv
  {
    inv[line.itemId := inv[line.itemId].(quantity := inv[line.itemId].quantity - line.quantity)]
  }

  /** The tally after `line` has passed its checks: stock taken, snapshot and movement appended, sums grown. */
  function Step(t: Tally, merchantId: string, billNumber: string, line: CartLine): Tally
    requires line.itemId in t.inventory
  {
    var snap := Snapshot(t.inventory[line.itemId], line);
    Tally(Decrement(t.inventory, line), t.items + [snap],
          t.movements + [StockMovement(merchantId, line.itemId, Out, line.quantity, SaleRef, Some(billNumber))],
          t.subtotal + snap.itemTotal, t.totalGst + snap.gstAmount)
  }

  /** The loop over the cart, one line at a time, stopping at the first failing line. */
  function ProcessLines(t: Tally, merchantId: string, billNumber: string, lines: seq<CartLine>): Result<Tally, BillError>
    decreases |lines|
  {
    if lines == [] then Success(t)
    else if !Owns(t.inventory, merchantId, lines[0].itemId) then Failure(ItemNotFound(lines[0].name))
    else if t.inventory[lines[0].itemId].quantity < lines[0].quantity then Failure(InsufficientStock(lines[0].name))
    else ProcessLines(Step(t, merchantId, billNumber, lines[0]), merchantId, billNumber, lines[1..])
  }

  /** Taking stock from an item leaves every item's name, price and rate, and so every snapshot, as it was. */
  lemma {:induction false} SnapshotsIgnoreStock(inv: Inventory, line: CartLine, lines: seq<CartLine>)
    requires line.itemId in inv
    requires AllKnown(inv, lines)
    ensures AllKnown(Decrement(inv, line), lines)
    ensures Snapshots(Decrement(inv, line), lines) == Snapshots(inv, lines)
    decreases |lines|
  {
    if lines != [] {
      var d := Decrement(inv, line);
      var id := lines[0].itemId;
      assert d[id].name == inv[id].name && d[id].price == inv[id].price && d[id].gstRate == inv[id].gstRate;
      assert Snapshot(d[id], lines[0]) == Snapshot(inv[id], lines[0]);
      SnapshotsIgnoreStock(inv, line, lines[1..]);
    }
  }

  /** Line `i + 1` of a cart passes against `inv` exactly when line `i` of its tail passes against `inv` less line 0. */
  lemma LineOkShift(inv: Inventory, merchantId: string, lines: seq<CartLine>, i: int)
    requires 0 <= i < |lines| - 1
    requires lines[0].itemId in inv
    ensures LineOk(inv, merchantId, lines, i + 1) <==> LineOk(Decrement(inv, lines[0]), merchantId, lines[1..], i)
  {
    var id := lines[i + 1].itemId;
    assert lines[..i + 1][1..] == lines[1..][..i];
    assert QtyOf(lines[..i + 1], id) == (if lines[0].itemId == id then lines[0].quantity else 0) + QtyOf(lines[1..][..i], id);
  }

  /** Line 0 is checked against the stock as it stands. */
  lemma LineOkFirst(inv: Inventory, merchantId: string, lines: seq<CartLine>)
    requires lines != []
    ensures LineOk(inv, merchantId, lines, 0) <==>
      Owns(inv, merchantId, lines[0].itemId) && lines[0].quantity <= inv[lines[0].itemId].quantity
  {
    assert lines[..0] == [];
  }

  /** Feasibility unfolds one line at a time, following the loop. */
  lemma FeasibleStep(inv: Inventory, merchantId: string, lines: seq<CartLine>)
    requires lines != []
    ensures Feasible(inv, merchantId, lines) <==>
      && Owns(inv, merchantId, lines[0].itemId)
      && lines[0].quantity <= inv[lines[0].itemId].quantity
      && Feasible(Decrement(inv, lines[0]), merchantId, lines[1..])
  {
    LineOkFirst(inv, merchantId, lines);
    if Owns(inv, merchantId, lines[0].itemId) && lines[0].quantity <= inv[lines[0].itemId].quantity {
      var d := Decrement(inv, lines[0]);
      forall i | 0 <= i < |lines| - 1
        ensures LineOk(inv, merchantId, lines, i + 1) <==> LineOk(d, merchantId, lines[1..], i)
      {
        LineOkShift(inv, merchantId, lines, i);
      }
      if Feasible(d, merchantId, lines[1..]) {
        forall i | 0 <= i < |lines|
          ensures LineOk(inv, merchantId, lines, i)
        {
          if i > 0 {
            assert LineOk(d, merchantId, lines[1..], i - 1);
          }
        }
      }
      if Feasible(inv, merchantId, lines) {
        forall i | 0 <= i < |lines| - 1
          ensures LineOk(d, merchantId, lines[1..], i)
        {
          assert LineOk(inv, merchantId, lines, i + 1);
        }
      }
    } else {
      assert !LineOk(inv, merchantId, lines, 0);
    }
  }

  /** The loop succeeds exactly on feasible carts. */
  lemma {:induction false} ProcessLinesSucceeds(t: Tally, merchantId: string, billNumber: string, lines: seq<CartLine>)
    ensures ProcessLines(t, merchantId, billNumber, lines).Success? <==> Feasible(t.inventory, merchantId, lines)
    decreases |lines|
  {
    if lines != [] {
      FeasibleStep(t.inventory, merchantId, lines);
      if Owns(t.inventory, merchantId, lines[0].itemId) && t.inventory[lines[0].itemId].quantity >= lines[0].quantity {
        ProcessLinesSucceeds(Step(t, merchantId, billNumber, lines[0]), merchantId, billNumber, lines[1..]);
      }
    }
  }

  /** A feasible cart names only items of the inventory. */
  lemma FeasibleKnown(inv: Inventory, merchantId: string, lines: seq<CartLine>)
    requires Feasible(inv, merchantId, lines)
    ensures AllKnown(inv, lines)
  {
    forall i | 0 <= i < |lines|
      ensures lines[i].itemId in inv
    {
      assert LineOk(inv, merchantId, lines, i);
    }
  }

  /** A successful loop names only known items, and it has taken from each item the total quantity the cart asks of it. */
  lemma {:induction false} ProcessLinesStock(t: Tally, merchantId: string, billNumber: string, lines: seq<CartLine>)
    requires ProcessLines(t, merchantId, billNumber, lines).Success?
    ensures AllKnown(t.inventory, lines)
    ensures
      var inv := ProcessLines(t, merchantId, billNumber, lines).value.inventory;
      && inv.Keys == t.inventory.Keys
      && forall id :: id in t.inventory ==>
           inv[id] == t.inventory[id].(quantity := t.inventory[id].quantity - QtyOf(lines, id))
    decreases |lines|
  {
    if lines != [] {
      var t' := Step(t, merchantId, billNumber, lines[0]);
      assert ProcessLines(t, merchantId, billNumber, lines) == ProcessLines(t', merchantId, billNumber, lines[1..]);
      ProcessLinesStock(t', merchantId, billNumber, lines[1..]);
    }
  }

  /**
   * A successful loop has appended one snapshot and one sale movement per
   * line, in cart order, and grown the sums by the snapshots' totals and tax.
   */
  lemma {:induction false} ProcessLinesRecords(t: Tally, merchantId: string, billNumber: string, lines: seq<CartLine>)
    requires ProcessLines(t, merchantId, billNumber, lines).Success?
    ensures AllKnown(t.inventory, lines)
    ensures
      var r := ProcessLines(t, merchantId, billNumber, lines).value;
      && r.items == t.items + Snapshots(t.inventory, lines)
      && r.movements == t.movements + SaleMovements(merchantId, billNumber, lines)
      && r.subtotal == t.subtotal + SumItemTotals(Snapshots(t.inventory, lines))
      && r.totalGst == t.totalGst + SumGst(Snapshots(t.inventory, lines))
    decreases |lines|
  {
    ProcessLinesStock(t, merchantId, billNumber, lines);
    if lines != [] {
      var line := lines[0];
      var t' := Step(t, merchantId, billNumber, line);
      assert ProcessLines(t, merchantId, billNumber, lines) == ProcessLines(t', merchantId, billNumber, lines[1..]);
      ProcessLinesRecords(t', merchantId, billNumber, lines[1..]);
      SnapshotsIgnoreStock(t.inventory, line, lines[1..]);
      var snap := Snapshot(t.inventory[line.itemId], line);
      assert Snapshots(t.inventory, lines) == [snap] + Snapshots(t.inventory, lines[1..]);
    }
  }

  /** A failing loop reports the error of the first line that fails its checks. */
  lemma {:induction false} ProcessLinesFirstError(t: Tally, merchantId: string, billNumber: string, lines: seq<CartLine>)
    requires ProcessLines(t, merchantId, billNumber, lines).Failure?
    ensures exists k :: FirstBadLine(t.inventory, merchantId, lines, k)
                        && ProcessLines(t, merchantId, billNumber, lines).error == LineError(t.inventory, merchantId, lines[k])
    decreases |lines|
  {
    var line := lines[0];
    LineOkFirst(t.inventory, merchantId, lines);
    if !Owns(t.inventory, merchantId, line.itemId) || t.inventory[line.itemId].quantity < line.quantity {
      assert FirstBadLine(t.inventory, merchantId, lines, 0);
    } else {
      var t' := Step(t, merchantId, billNumber, line);
      ProcessLinesFirstError(t', merchantId, billNumber, lines[1..]);
      var k :| FirstBadLine(t'.inventory, merchantId, lines[1..], k)
               && ProcessLines(t', merchantId, billNumber, lines[1..]).error == LineError(t'.inventory, merchantId, lines[1..][k]);
      LineOkShift(t.inventory, merchantId, lines, k);
      forall i | 0 <= i < k + 1
        ensures LineOk(t.inventory, merchantId, lines, i)
      {
        if i > 0 {
          LineOkShift(t.inventory, merchantId, lines, i - 1);
        }
      }
      assert FirstBadLine(t.inventory, merchantId, lines, k + 1);
    }
  }

  /** With no negative stock to begin with, the loop leaves none, even when a cart names an item twice. */
  lemma {:induction false} ProcessLinesKeepsStock(t: Tally, merchantId: string, billNumber: string, lines: seq<CartLine>)
    requires StockNonNegative(t.inventory)
    requires ProcessLines(t, merchantId, billNumber, lines).Success?
    ensures StockNonNegative(ProcessLines(t, merchantId, billNumber, lines).value.inventory)
    decreases |lines|
  {
    if lines != [] {
      ProcessLinesKeepsStock(Step(t, merchantId, billNumber, lines[0]), merchantId, billNumber, lines[1..]);
    }
  }

  predicate BillNumberTaken(bills: seq<Bill>, billNumber: string) {
    exists i :: 0 <= i < |bills| && bills[i].billNumber == billNumber
  }

  /** `customerName || 'Walk-in Customer'`: absent or empty names become the walk-in customer. */
  function CustomerName(name: Option<string>): string {
    if name.Some? && name.value != "" then name.value else WalkInCustomer
  }

  /**
   * The whole transaction. The bill number comes from the caller (the server
   * derives it from the merchant and the clock); `bill_number` is UNIQUE, so
   * a clash fails the bill insert. On failure the store is returned as it was.
   */
  function CreateBill(s: Store, merchantId: string, req: BillRequest, billNumber: string): (r: (Store, Result<Bill, BillError>))
    ensures r.1.Failure? ==> r.0 == s
    ensures r.1.Success? <==> Feasible(s.inventory, merchantId, req.lines) && !BillNumberTaken(s.bills, billNumber)
  {
    var start := Tally(s.inventory, [], [], 0.0, 0.0);
    ProcessLinesSucceeds(start, merchantId, billNumber, req.lines);
    var res := ProcessLines(start, merchantId, billNumber, req.lines);
    if res.Failure? then (s, Failure(res.error))
    else if BillNumberTaken(s.bills, billNumber) then (s, Failure(DuplicateBillNumber(billNumber)))
    else
      var bill := BillOf(merchantId, req, billNumber, res.value);
      (Store(res.value.inventory, s.movements + res.value.movements, s.bills + [bill]), Success(bill))
  }

  /**
   * A successful bill changes the store by the cart: each item's stock drops
   * by what the cart asks of it, one sale movement per line is appended, and
   * the bill is appended to the bills.
   */
  lemma CreateBillStock(s: Store, merchantId: string, req: BillRequest, billNumber: string)
    requires CreateBill(s, merchantId, req, billNumber).1.Success?
    ensures AllKnown(s.inventory, req.lines)
    ensures
      var r := CreateBill(s, merchantId, req, billNumber);
      && r.0.inventory.Keys == s.inventory.Keys
      && (forall id :: id in s.inventory ==>
            r.0.inventory[id] == s.inventory[id].(quantity := s.inventory[id].quantity - QtyOf(req.lines, id)))
      && r.0.movements == s.movements + SaleMovements(merchantId, billNumber, req.lines)
      && r.0.bills == s.bills + [r.1.value]
  {
    LoopOutcome(s.inventory, merchantId, billNumber, req.lines);
  }

  /**
   * A successful bill holds the lines' snapshots and their sums, the discount
   * taken on the subtotal, and the customer as given or the walk-in customer.
   */
  lemma CreateBillContents(s: Store, merchantId: string, req: BillRequest, billNumber: string)
    requires CreateBill(s, merchantId, req, billNumber).1.Success?
    ensures AllKnown(s.inventory, req.lines)
    ensures
      var bill := CreateBill(s, merchantId, req, billNumber).1.value;
      && bill.merchantId == merchantId
      && bill.billNumber == billNumber
      && bill.customerName == CustomerName(req.customerName)
      && bill.customerPhone == req.customerPhone.GetOr("")
      && bill.items == Snapshots(s.inventory, req.lines)
      && bill.discountPercent == req.discount.GetOr(0.0)
      && AmountsOf(bill) == Priced(SumItemTotals(bill.items), SumGst(bill.items), bill.discountPercent)
  {
    LoopOutcome(s.inventory, merchantId, billNumber, req.lines);
  }

  /** The bill a completed loop makes: the tally's items, priced with the discount asked for. */
  function BillOf(merchantId: string, req: BillRequest, billNumber: string, t: Tally): (bill: Bill)
    ensures bill.items == t.items
    ensures AmountsOf(bill) == Priced(t.subtotal, t.totalGst, bill.discountPercent)
  {
    var discount := req.discount.GetOr(0.0);
    var a := Priced(t.subtotal, t.totalGst, discount);
    Bill(merchantId, billNumber, CustomerName(req.customerName), req.customerPhone.GetOr(""),
         t.items, a.subtotal, discount, a.discountAmount, a.totalGst, a.finalAmount)
  }

  /** The loop run from an empty tally yields exactly the cart's stock changes, records and sums. */
  lemma LoopOutcome(inv: Inventory, merchantId: string, billNumber: string, lines: seq<CartLine>)
    requires ProcessLines(Tally(inv, [], [], 0.0, 0.0), merchantId, billNumber, lines).Success?
    ensures AllKnown(inv, lines)
    ensures
      var t := ProcessLines(Tally(inv, [], [], 0.0, 0.0), merchantId, billNumber, lines).value;
      && t.inventory.Keys == inv.Keys
      && (forall id :: id in inv ==> t.inventory[id] == inv[id].(quantity := inv[id].quantity - QtyOf(lines, id)))
      && t.items == Snapshots(inv, lines)
      && t.movements == SaleMovements(merchantId, billNumber, lines)
      && t.subtotal == SumItemTotals(t.items)
      && t.totalGst == SumGst(t.items)
  {
    var start := Tally(inv, [], [], 0.0, 0.0);
    ProcessLinesStock(start, merchantId, billNumber, lines);
    ProcessLinesRecords(start, merchantId, billNumber, lines);
    var t := ProcessLines(start, merchantId, billNumber, lines).value;
    assert t.items == [] + Snapshots(inv, lines);
    assert t.movements == [] + SaleMovements(merchantId, billNumber, lines);
  }

  /** The bill holds one snapshot per cart line, in cart order, each with exactly its line's terms. */
  lemma SnapshotsAt(inv: Inventory, lines: seq<CartLine>)
    requires AllKnown(inv, lines)
    ensures |Snapshots(inv, lines)| == |lines|
    ensures forall i :: 0 <= i < |lines| ==>
      var item := inv[lines[i].itemId];
      && Snapshots(inv, lines)[i].itemId == lines[i].itemId
      && Snapshots(inv, lines)[i].itemName == item.name
      && Snapshots(inv, lines)[i].quantity == lines[i].quantity
      && Snapshots(inv, lines)[i].unitPrice == item.price
      && Snapshots(inv, lines)[i].gstRate == item.gstRate
      && Snapshots(inv, lines)[i].itemTotal == lines[i].quantity as real * item.price
      && Snapshots(inv, lines)[i].gstAmount == Snapshots(inv, lines)[i].itemTotal * item.gstRate / 100.0
  {
    SnapshotsIndex(inv, lines);
  }

  /** The `i`-th snapshot is the one the `i`-th line makes. */
  lemma {:induction false} SnapshotsIndex(inv: Inventory, lines: seq<CartLine>)
    requires AllKnown(inv, lines)
    ensures |Snapshots(inv, lines)| == |lines|
    ensures forall i :: 0 <= i < |lines| ==> Snapshots(inv, lines)[i] == Snapshot(inv[lines[i].itemId], lines[i])
    decreases |lines|
  {
    if lines != [] {
      SnapshotsIndex(inv, lines[1..]);
      forall i | 1 <= i < |lines|
        ensures Snapshots(inv, lines)[i] == Snapshots(inv, lines[1..])[i - 1]
      {
      }
    }
  }

  /** There is one `out`/`sale` movement per cart line, in cart order, referring to the bill number. */
  lemma {:induction false} SaleMovementsAt(merchantId: string, billNumber: string, lines: seq<CartLine>)
    ensures |SaleMovements(merchantId, billNumber, lines)| == |lines|
    ensures forall i :: 0 <= i < |lines| ==>
      SaleMovements(merchantId, billNumber, lines)[i]
        == StockMovement(merchantId, lines[i].itemId, Out, lines[i].quantity, SaleRef, Some(billNumber))
    decreases |lines|
  {
    if lines != [] {
      SaleMovementsAt(merchantId, billNumber, lines[1..]);
      forall i | 1 <= i < |lines|
        ensures SaleMovements(merchantId, billNumber, lines)[i] == SaleMovements(merchantId, billNumber, lines[1..])[i - 1]
      {
      }
    }
  }

  /**
   * A failed bill reports the first cart line that fails its checks, naming it
   * as not found or short of stock; a duplicate bill number is reported only
   * when every line passes.
   */
  lemma CreateBillError(s: Store, merchantId: string, req: BillRequest, billNumber: string)
    requires CreateBill(s, merchantId, req, billNumber).1.Failure?
    ensures
      var e := CreateBill(s, merchantId, req, billNumber).1.error;
      if Feasible(s.inventory, merchantId, req.lines) then
        e == DuplicateBillNumber(billNumber)
      else
        exists k :: FirstBadLine(s.inventory, merchantId, req.lines, k) && e == LineError(s.inventory, merchantId, req.lines[k])
  {
    var start := Tally(s.inventory, [], [], 0.0, 0.0);
    ProcessLinesSucceeds(start, merchantId, billNumber, req.lines);
    if !Feasible(s.inventory, merchantId, req.lines) {
      ProcessLinesFirstError(start, merchantId, billNumber, req.lines);
    }
  }

  /** With no negative stock before a bill, there is none after it, whatever the cart repeats. */
  lemma CreateBillKeepsStockNonNegative(s: Store, merchantId: string, req: BillRequest, billNumber: string)
    requires StockNonNegative(s.inventory)
    ensures StockNonNegative(CreateBill(s, merchantId, req, billNumber).0.inventory)
  {
    var start := Tally(s.inventory, [], [], 0.0, 0.0);
    if ProcessLines(start, merchantId, billNumber, req.lines).Success? {
      ProcessLinesKeepsStock(start, merchantId, billNumber, req.lines);
    }
  }

  /** A bill changes stock levels only: the keying of the inventory by id and by (merchant, name) survives it. */
  lemma CreateBillKeepsKeys(s: Store, merchantId: string, req: BillRequest, billNumber: string)
    requires WellKeyed(s.inventory) && NameKeyed(s.inventory)
    ensures WellKeyed(CreateBill(s, merchantId, req, billNumber).0.inventory)
    ensures NameKeyed(CreateBill(s, merchantId, req, billNumber).0.inventory)
  {
    if CreateBill(s, merchantId, req, billNumber).1.Success? {
      CreateBillStock(s, merchantId, req, billNumber);
    }
    var inv := CreateBill(s, merchantId, req, billNumber).0.inventory;
    assert forall id :: id in inv ==>
      && id in s.inventory
      && inv[id].itemId == s.inventory[id].itemId
      && inv[id].merchantId == s.inventory[id].merchantId
      && inv[id].name == s.inventory[id].name;
  }

  /**
   * The loop over the lines as posted. A line without an item id throws at
   * its SELECT; a line without a quantity passes the stock test (a comparison
   * with `undefined` is false) and throws at its UPDATE, once its item has
   * been found.
   */
  function ProcessBody(t: Tally, merchantId: string, billNumber: string, lines: seq<LineBody>): Result<Tally, BillError>
    decreases |lines|
  {
    if lines == [] then Success(t)
    else if lines[0].itemId.None? then Failure(MalformedRequest)
    else if !Owns(t.inventory, merchantId, lines[0].itemId.value) then Failure(ItemNotFound(lines[0].name))
    else if lines[0].quantity.None? then Failure(MalformedRequest)
    else if t.inventory[lines[0].itemId.value].quantity < lines[0].quantity.value then
      Failure(InsufficientStock(lines[0].name))
    else ProcessBody(Step(t, merchantId, billNumber, LineOf(lines[0])), merchantId, billNumber, lines[1..])
  }

  /** On lines that all carry an id and a quantity, the loop as posted is the loop over the cart. */
  lemma {:induction false} ProcessBodyTyped(t: Tally, merchantId: string, billNumber: string, lines: seq<LineBody>)
    requires AllTyped(lines)
    ensures ProcessBody(t, merchantId, billNumber, lines) == ProcessLines(t, merchantId, billNumber, LinesOf(lines))
    decreases |lines|
  {
    if lines != [] {
      var c := LinesOf(lines);
      assert c[0] == LineOf(lines[0]);
      assert c[1..] == LinesOf(lines[1..]);
      var id := lines[0].itemId.value;
      if Owns(t.inventory, merchantId, id) && t.inventory[id].quantity >= lines[0].quantity.value {
        ProcessBodyTyped(Step(t, merchantId, billNumber, LineOf(lines[0])), merchantId, billNumber, lines[1..]);
      }
    }
  }

  /** A line without an id or a quantity makes the loop fail, at that line or at an earlier one. */
  lemma {:induction false} ProcessBodyUntypedFails(t: Tally, merchantId: string, billNumber: string, lines: seq<LineBody>)
    requires !AllTyped(lines)
    ensures ProcessBody(t, merchantId, billNumber, lines).Failure?
    decreases |lines|
  {
    if LineTyped(lines[0]) {
      var id := lines[0].itemId.value;
      if Owns(t.inventory, merchantId, id) && t.inventory[id].quantity >= lines[0].quantity.value {
        assert !AllTyped(lines[1..]) by {
          var k :| 0 <= k < |lines| && !LineTyped(lines[k]);
          assert lines[1..][k - 1] == lines[k];
        }
        ProcessBodyUntypedFails(Step(t, merchantId, billNumber, LineOf(lines[0])), merchantId, billNumber, lines[1..]);
      }
    }
  }

  /**
   * The handler on the body as posted: a missing `items` throws before
   * anything is read, a line without an id or a quantity throws in the loop,
   * and a well-typed body is billed by `CreateBill`. Every throw rolls the
   * transaction back.
   */
  function CreateBillFromBody(s: Store, merchantId: string, body: BillBody, billNumber: string): (r: (Store, Result<Bill, BillError>))
    ensures r.1.Failure? ==> r.0 == s
    ensures r.1.Success? <==>
      && WellTyped(body)
      && Feasible(s.inventory, merchantId, LinesOf(body.items.value))
      && !BillNumberTaken(s.bills, billNumber)
    ensures WellTyped(body) ==> r == CreateBill(s, merchantId, RequestOf(body), billNumber)
    ensures body.items.None? ==> r == (s, Failure(MalformedRequest))
  {
    if body.items.None? then (s, Failure(MalformedRequest))
    else if AllTyped(body.items.value) then CreateBill(s, merchantId, RequestOf(body), billNumber)
    else
      var start := Tally(s.inventory, [], [], 0.0, 0.0);
      ProcessBodyUntypedFails(start, merchantId, billNumber, body.items.value);
      (s, Failure(ProcessBody(start, merchantId, billNumber, body.items.value).error))
  }

  /** A line without a quantity whose item the merchant owns makes the bill fail, however much stock there is. */
  lemma MissingQuantityFails(s: Store, merchantId: string, body: BillBody, billNumber: string)
    requires body.items.Some? && |body.items.value| == 1
    requires body.items.value[0].itemId.Some? && body.items.value[0].quantity.None?
    requires Owns(s.inventory, merchantId, body.items.value[0].itemId.value)
    ensures CreateBillFromBody(s, merchantId, body, billNumber) == (s, Failure(MalformedRequest))
  {
  }

  /** A tablet in stock 10 at 100 with 18 per cent tax; two sold without discount make 200 + 36 = 236 and leave 8. */
  lemma ExampleSingleLine()
    ensures
      var inv := map["A" := Item("m1", "A", "Tablet A", Tablets, 10, 100.0, 18.0, "", "")];
      var r := CreateBill(Store(inv, [], []), "m1", BillRequest([CartLine("A", "Tablet A", 2)], None, None, None), "m1-1");
      && r.1.Success?
      && r.1.value.subtotal == 200.0 && r.1.value.totalGst == 36.0
      && r.1.value.discountAmount == 0.0 && r.1.value.finalAmount == 236.0
      && "A" in r.0.inventory && r.0.inventory["A"].quantity == 8
      && r.1.value.customerName == WalkInCustomer
  {
    var inv := map["A" := Item("m1", "A", "Tablet A", Tablets, 10, 100.0, 18.0, "", "")];
    var lines := [CartLine("A", "Tablet A", 2)];
    assert lines[..0] == [];
    assert LineOk(inv, "m1", lines, 0);
    CreateBillStock(Store(inv, [], []), "m1", BillRequest(lines, None, None, None), "m1-1");
    CreateBillContents(Store(inv, [], []), "m1", BillRequest(lines, None, None, None), "m1-1");
    assert Snapshots(inv, lines) == [BillItem("A", "Tablet A", 2, 100.0, 18.0, 200.0, 36.0)];
  }

  /**
   * Two lines of 2 against a stock of 3: each fits the stock alone, but the
   * second is checked against what the first left, so the bill fails and
   * nothing changes.
   */
  lemma ExampleRepeatedItem()
    ensures
      var inv := map["B" := Item("m1", "B", "Syrup B", Syrups, 3, 50.0, 12.0, "", "")];
      var s := Store(inv, [], []);
      var r := CreateBill(s, "m1", BillRequest([CartLine("B", "Syrup B", 2), CartLine("B", "Syrup B", 2)], None, None, None), "m1-2");
      r == (s, Failure(InsufficientStock("Syrup B")))
  {
  }
}
