/**
 * Supplier purchases and payments of the server (`POST /api/purchases`,
 * `POST /api/payments`): purchase totals at a flat 18 per cent tax, and the
 * application of a payment to a purchase's paid amount, balance and status.
 */
module Purchases {
  import opened Wrappers

  /**
   * A field of a JSON request body as the handler reads it: absent (the
   * JavaScript `undefined`), `null`, or a value. The database driver refuses
   * to bind `undefined`, and a NOT NULL column refuses `null`.
   */
  datatype BodyField<T> = Absent | Null | Given(value: T)

  /** A bind parameter the driver accepts: anything but `undefined`. */
  predicate Bindable<T>(f: BodyField<T>) {
    !f.Absent?
  }

  /**
   * One line of `items`. The numeric fields are taken as numbers; the text
   * fields may be missing from the request.
   */
  datatype PurchaseLine = PurchaseLine(
    itemName: BodyField<string>,
    quantity: int,
    unitPrice: real,
    totalPrice: real,
    batchNumber: BodyField<string>,
    expiryDate: BodyField<string>)

  /** The `purchase_items` insert succeeds: `item_name` is NOT NULL, batch and expiry are nullable. */
  predicate LineInsertable(l: PurchaseLine) {
    l.itemName.Given? && Bindable(l.batchNumber) && Bindable(l.expiryDate)
  }

  /** The body of `POST /api/purchases`. */
  datatype PurchaseRequest = PurchaseRequest(
    supplierId: BodyField<string>,
    invoiceNumber: BodyField<string>,
    purchaseDate: BodyField<string>,
    dueDate: BodyField<string>,
    items: BodyField<seq<PurchaseLine>>,
    notes: BodyField<string>)

  /**
   * Every bind of the handler is accepted: `items` is a list (else
   * `forEach` throws), the NOT NULL `supplier_id` and `purchase_date` are
   * given, the nullable columns are at least bound, and every line inserts.
   */
  predicate WellFormed(req: PurchaseRequest) {
    && req.supplierId.Given?
    && Bindable(req.invoiceNumber)
    && req.purchaseDate.Given?
    && Bindable(req.dueDate)
    && Bindable(req.notes)
    && req.items.Given?
    && forall i :: 0 <= i < |req.items.value| ==> LineInsertable(req.items.value[i])
  }

  /** The `status` enum of the purchases table. */
  datatype PurchaseStatus = Pending | Partial | Paid | Overdue

  datatype Purchase = Purchase(
    merchantId: string,
    purchaseId: string,
    supplierId: string,
    subtotal: real,
    gstAmount: real,
    totalAmount: real,
    paidAmount: real,
    balanceDue: real,
    status: PurchaseStatus,
    items: seq<PurchaseLine>)

  /** The purchases table, keyed by `purchase_id` (UNIQUE). */
  type Purchases = map<string, Purchase>

  /** Purchases are taxed at a flat rate whatever their items. */
  const PurchaseGstPercent: real := 18.0

  function SumTotalPrice(lines: seq<PurchaseLine>): real {
    if lines == [] then 0.0 else lines[0].totalPrice + SumTotalPrice(lines[1..])
  }

  /** The tax as the handler accumulates it, line by line. */
  function SumPurchaseGst(lines: seq<PurchaseLine>): real {
    if lines == [] then 0.0 else lines[0].totalPrice * PurchaseGstPercent / 100.0 + SumPurchaseGst(lines[1..])
  }

  /** Accumulating the tax per line gives 18 per cent of the subtotal. */
  lemma {:induction false} PurchaseGstIsFlat(lines: seq<PurchaseLine>)
    ensures SumPurchaseGst(lines) == SumTotalPrice(lines) * 18.0 / 100.0
    decreases |lines|
  {
    if lines != [] {
      PurchaseGstIsFlat(lines[1..]);
    }
  }

  /**
   * The transaction is rolled back: a bind is refused, a NOT NULL column gets
   * `null`, `items` is not a list, the supplier foreign key or the UNIQUE
   * purchase id is violated.
   */
  datatype PurchaseError = PurchaseRejected

  /**
   * Records a purchase under `purchaseId` (generated from the clock and a
   * random suffix). The subtotal is the sum of the lines' stated totals, the
   * tax is 18 per cent of it, nothing is paid and the whole total is due.
   * The purchase and its lines are inserted in one transaction, so a line
   * that cannot be inserted aborts the whole purchase.
   */
  function RecordPurchase(purchases: Purchases, suppliers: set<string>, merchantId: string,
                          purchaseId: string, req: PurchaseRequest): (r: Result<Purchases, PurchaseError>)
    ensures r.Failure? <==>
      || !WellFormed(req)
      || req.supplierId.value !in suppliers
      || purchaseId in purchases
    ensures r.Success? ==>
      && r.value.Keys == purchases.Keys + {purchaseId}
      && (forall id :: id in purchases ==> r.value[id] == purchases[id])
      && var p := r.value[purchaseId];
      && p.merchantId == merchantId && p.purchaseId == purchaseId && p.supplierId == req.supplierId.value
      && p.items == req.items.value
      && p.subtotal == SumTotalPrice(req.items.value)
      && p.gstAmount == p.subtotal * 18.0 / 100.0
      && p.totalAmount == p.subtotal * 118.0 / 100.0
      && p.paidAmount == 0.0
      && p.balanceDue == p.totalAmount
      && p.status == Pending
  {
    if !WellFormed(req) || req.supplierId.value !in suppliers || purchaseId in purchases then Failure(PurchaseRejected)
    else
      var lines := req.items.value;
      PurchaseGstIsFlat(lines);
      var subtotal := SumTotalPrice(lines);
      var gstAmount := SumPurchaseGst(lines);
      var total := subtotal + gstAmount;
      Success(purchases[purchaseId := Purchase(merchantId, purchaseId, req.supplierId.value, subtotal, gstAmount, total,
                                               0.0, total, Pending, lines)])
  }

  /** One line lacking its batch number (absent, not `null`) aborts the purchase, however valid the rest. */
  lemma LineWithoutBatchAborts(purchases: Purchases, suppliers: set<string>, merchantId: string,
                               purchaseId: string, req: PurchaseRequest, i: nat)
    requires req.items.Given? && i < |req.items.value|
    requires req.items.value[i].batchNumber.Absent?
    ensures RecordPurchase(purchases, suppliers, merchantId, purchaseId, req).Failure?
  {
    assert !LineInsertable(req.items.value[i]);
  }

  /** What has been paid plus what is still due makes the total. */
  predicate Balanced(p: Purchase) {
    p.paidAmount + p.balanceDue == p.totalAmount
  }

  /** The CASE of the payment update: paid once the total is reached, partial once anything is paid. */
  function StatusFor(paid: real, total: real): PurchaseStatus {
    if paid >= total then Paid else if paid > 0.0 then Partial else Pending
  }

  /**
   * The payment UPDATE as MySQL executes it: the assignments of a
   * single-table UPDATE run left to right, so the balance and status
   * expressions read `paid_amount` already raised by the first assignment
   * and add the amount a second time.
   */
  function SettleAsWritten(p: Purchase, amount: real): (r: Purchase)
    ensures r.paidAmount == p.paidAmount + amount
    ensures r.balanceDue == p.totalAmount - p.paidAmount - 2.0 * amount
    ensures r.status == StatusFor(p.paidAmount + 2.0 * amount, p.totalAmount)
    ensures r == p.(paidAmount := r.paidAmount, balanceDue := r.balanceDue, status := r.status)
  {
    var paid := p.paidAmount + amount;
    var balance := p.totalAmount - (paid + amount);
    var status := StatusFor(paid + amount, p.totalAmount);
    p.(paidAmount := paid, balanceDue := balance, status := status)
  }

  /** As written, any non-zero payment leaves a balanced purchase unbalanced. */
  lemma SettleAsWrittenUnbalances(p: Purchase, amount: real)
    requires Balanced(p)
    ensures Balanced(SettleAsWritten(p, amount)) <==> amount == 0.0
  {
  }

  /** A 60 payment on an unpaid total of 100: the balance becomes -20 and the purchase is marked paid. */
  lemma SettleAsWrittenExample()
    ensures
      var p := Purchase("m1", "P1", "S1", 100.0, 0.0, 100.0, 0.0, 100.0, Pending, []);
      var r := SettleAsWritten(p, 60.0);
      r.paidAmount == 60.0 && r.balanceDue == -20.0 && r.status == Paid
  {
  }

  /** The update as evidently intended: balance and status follow the new paid amount. */
  function SettleIntended(p: Purchase, amount: real): (r: Purchase)
    ensures r.paidAmount == p.paidAmount + amount
    ensures Balanced(p) ==> Balanced(r)
    ensures r.status == Paid <==> r.balanceDue <= 0.0
    ensures r.status == Partial <==> r.balanceDue > 0.0 && r.paidAmount > 0.0
    ensures r == p.(paidAmount := r.paidAmount, balanceDue := r.balanceDue, status := r.status)
  {
    var paid := p.paidAmount + amount;
    p.(paidAmount := paid, balanceDue := p.totalAmount - paid, status := StatusFor(paid, p.totalAmount))
  }

  /** The same 60 payment, settled as intended: 40 remains due and the purchase is partly paid. */
  lemma SettleIntendedExample()
    ensures
      var p := Purchase("m1", "P1", "S1", 100.0, 0.0, 100.0, 0.0, 100.0, Pending, []);
      var r := SettleIntended(p, 60.0);
      r.paidAmount == 60.0 && r.balanceDue == 40.0 && r.status == Partial
  {
    var p := Purchase("m1", "P1", "S1", 100.0, 0.0, 100.0, 0.0, 100.0, Pending, []);
    assert SettleIntended(p, 60.0) == p.(paidAmount := 60.0, balanceDue := 40.0, status := StatusFor(60.0, 100.0));
  }

  /** The `payment_method` enum. */
  datatype PaymentMethod = Cash | BankTransfer | Cheque | Upi | Card

  /** A validated payment body; an optional field missing from the body is `None`. */
  datatype PaymentRequest = PaymentRequest(
    supplierId: string,
    purchaseId: Option<string>,
    amount: real,
    paymentMethod: PaymentMethod,
    referenceNumber: Option<string>,
    notes: Option<string>)

  /** A `supplier_payments` row. */
  datatype Payment = Payment(
    merchantId: string,
    paymentId: string,
    supplierId: string,
    purchaseId: Option<string>,
    amount: real,
    paymentMethod: PaymentMethod,
    referenceNumber: Option<string>,
    notes: Option<string>)

  datatype Ledger = Ledger(purchases: Purchases, payments: seq<Payment>)

  /**
   * The transaction is rolled back: the payment insert violates a foreign key
   * (supplier, purchase) or the UNIQUE payment id, or is handed an absent
   * reference number or notes, which the driver refuses to bind.
   */
  datatype PaymentError = PaymentRejected

  /** A missing, empty or `"null"` purchase id is stored as NULL: the payment is not tied to a purchase. */
  function NormalizePurchaseId(id: Option<string>): (r: Option<string>)
    ensures r.None? <==> id.None? || id.value == "" || id.value == "null"
    ensures r.Some? ==> r == id
  {
    if id.None? || id.value == "" || id.value == "null" then None else id
  }

  predicate PaymentIdTaken(payments: seq<Payment>, paymentId: string) {
    exists i :: 0 <= i < |payments| && payments[i].paymentId == paymentId
  }

  /** Which reading of the payment UPDATE settles the purchase. */
  datatype Settlement = AsWritten | Intended

  function Settle(how: Settlement, p: Purchase, amount: real): (r: Purchase)
    ensures r.paidAmount == p.paidAmount + amount
    ensures how == Intended && Balanced(p) ==> Balanced(r)
  {
    match how
    case AsWritten => SettleAsWritten(p, amount)
    case Intended => SettleIntended(p, amount)
  }

  /**
   * Records a payment under `paymentId` (generated from the clock and a random
   * suffix) and, when it names a purchase, settles that purchase; the handler
   * itself is `ApplyPayment(AsWritten, …)`. The purchase is found by id
   * alone, whatever its merchant.
   */
  function ApplyPayment(how: Settlement, l: Ledger, suppliers: set<string>, merchantId: string, paymentId: string,
                        req: PaymentRequest): (r: Result<Ledger, PaymentError>)
    ensures
      var pid := NormalizePurchaseId(req.purchaseId);
      r.Failure? <==> (req.supplierId !in suppliers || (pid.Some? && pid.value !in l.purchases)
                       || PaymentIdTaken(l.payments, paymentId)
                       || req.referenceNumber.None? || req.notes.None?)
    ensures r.Success? ==>
      r.value.payments == l.payments + [Payment(merchantId, paymentId, req.supplierId, NormalizePurchaseId(req.purchaseId),
                                                req.amount, req.paymentMethod, req.referenceNumber, req.notes)]
    ensures r.Success? && NormalizePurchaseId(req.purchaseId).None? ==> r.value.purchases == l.purchases
    ensures r.Success? && NormalizePurchaseId(req.purchaseId).Some? ==>
      var id := req.purchaseId.value;
      && r.value.purchases.Keys == l.purchases.Keys
      && (forall other :: other in l.purchases && other != id ==> r.value.purchases[other] == l.purchases[other])
      && r.value.purchases[id].paidAmount == l.purchases[id].paidAmount + req.amount
      && r.value.purchases[id] == Settle(how, l.purchases[id], req.amount)
  {
    var pid := NormalizePurchaseId(req.purchaseId);
    if || req.supplierId !in suppliers || (pid.Some? && pid.value !in l.purchases) || PaymentIdTaken(l.payments, paymentId)
       || req.referenceNumber.None? || req.notes.None?
    then
      Failure(PaymentRejected)
    else
      var payment := Payment(merchantId, paymentId, req.supplierId, pid, req.amount, req.paymentMethod, req.referenceNumber, req.notes);
      var purchases := if pid.Some? then l.purchases[pid.value := Settle(how, l.purchases[pid.value], req.amount)] else l.purchases;
      Success(Ledger(purchases, l.payments + [payment]))
  }

  /** Every purchase's paid amount and balance add up to its total. */
  predicate AllBalanced(ps: Purchases) {
    forall id :: id in ps ==> Balanced(ps[id])
  }

  /** Settled as intended, payments keep every purchase balanced. */
  lemma ApplyPaymentIntendedKeepsBalanced(l: Ledger, suppliers: set<string>, merchantId: string, paymentId: string,
                                          req: PaymentRequest)
    requires AllBalanced(l.purchases)
    ensures var r := ApplyPayment(Intended, l, suppliers, merchantId, paymentId, req);
      r.Success? ==> AllBalanced(r.value.purchases)
  {
  }

  /** Settled as written, a non-zero payment against a balanced purchase unbalances it. */
  lemma ApplyPaymentAsWrittenUnbalances(l: Ledger, suppliers: set<string>, merchantId: string, paymentId: string,
                                        req: PaymentRequest)
    requires NormalizePurchaseId(req.purchaseId).Some?
    requires req.purchaseId.value in l.purchases && Balanced(l.purchases[req.purchaseId.value])
    requires req.amount != 0.0
    ensures var r := ApplyPayment(AsWritten, l, suppliers, merchantId, paymentId, req);
      r.Success? ==> !AllBalanced(r.value.purchases)
  {
    var r := ApplyPayment(AsWritten, l, suppliers, merchantId, paymentId, req);
    if r.Success? {
      var id := req.purchaseId.value;
      SettleAsWrittenUnbalances(l.purchases[id], req.amount);
      assert !Balanced(r.value.purchases[id]);
    }
  }

  /** A purchase just recorded is balanced; intended settlements keep it so, the update as written does not. */
  lemma RecordedPurchaseBalanced(purchases: Purchases, suppliers: set<string>, merchantId: string,
                                 purchaseId: string, req: PurchaseRequest, amount: real)
    requires RecordPurchase(purchases, suppliers, merchantId, purchaseId, req).Success?
    ensures
      var p := RecordPurchase(purchases, suppliers, merchantId, purchaseId, req).value[purchaseId];
      && Balanced(p)
      && Balanced(SettleIntended(p, amount))
      && (Balanced(SettleAsWritten(p, amount)) <==> amount == 0.0)
  {
  }
}
