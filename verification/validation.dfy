/**
 * The request validators for a manual inventory item and a supplier payment.
 * Each field runs its chain in order: the `trim` sanitiser, then every
 * validator (all of them run, so one field can report several errors), then
 * `sanitizeInput`. A request with any error is answered 400 and reaches no
 * handler; an accepted one reaches it with the sanitised values.
 */
module Validation {
  import opened Wrappers
  import opened Text
  import opened Sanitize
  import Inventory
  import Purchases

  /**
   * A numeric body field as `isInt`/`isFloat` see it: absent, present but not
   * a number, or a number. Reading number syntax out of text is not modelled.
   */
  datatype NumField = Absent | Malformed | Num(v: real)

  /** The character classes of the patterns the validators match. */
  datatype Pattern =
    | ItemName      // [a-zA-Z0-9\s\-().]
    | BatchNumber   // [a-zA-Z0-9\-]
    | Manufacturer  // [a-zA-Z0-9\s\-&.,]

  predicate InClass(p: Pattern, c: char) {
    match p
    case ItemName => IsAsciiAlnum(c) || IsJsSpace(c) || c == '-' || c == '(' || c == ')' || c == '.'
    case BatchNumber => IsAsciiAlnum(c) || c == '-'
    case Manufacturer => IsAsciiAlnum(c) || IsJsSpace(c) || c == '-' || c == '&' || c == '.' || c == ','
  }

  /** `^[class]+$`: a non-empty string of class characters, scanned from the front. */
  function Matches(p: Pattern, s: string): (r: bool)
    ensures r <==> s != [] && forall i :: 0 <= i < |s| ==> InClass(p, s[i])
  {
    if s == [] then false
    else if !InClass(p, s[0]) then false
    else if |s| == 1 then true
    else
      var rest := Matches(p, s[1..]);
      assert forall i :: 1 <= i < |s| ==> s[i] == s[1..][i - 1];
      rest
  }

  // ---------------------------------------------------------------- inventory

  /** The fields of `POST /api/inventory/manual` that the validator reads. */
  datatype InventoryBody = InventoryBody(
    name: Option<string>,
    category: Option<string>,
    quantity: NumField,
    price: NumField,
    gstRate: NumField,
    batchNumber: Option<string>,
    manufacturer: Option<string>)

  datatype InventoryError =
    | NameRequired | NameLength | NameChars
    | CategoryRequired | CategoryInvalid
    | QuantityInvalid | PriceInvalid | GstRateInvalid
    | BatchNumberInvalid | ManufacturerInvalid

  /** A missing field reads as the empty string. */
  function FieldText(v: Option<string>): string {
    v.GetOr("")
  }

  predicate IsWhole(v: real) {
    v == v.Floor as real
  }

  predicate QuantityOk(q: NumField) {
    q.Num? && IsWhole(q.v) && q.v >= 0.0
  }

  predicate PriceOk(p: NumField) {
    p.Num? && p.v >= 0.0
  }

  /** `optional()` skips only an absent field. */
  predicate GstRateOk(g: NumField) {
    g.Absent? || (g.Num? && 0.0 <= g.v <= 100.0)
  }

  predicate OptionalMatches(p: Pattern, v: Option<string>) {
    v.None? || Matches(p, Trim(v.value))
  }

  /** The outcome of every validator of the inventory chains. */
  datatype InventoryChecks = InventoryChecks(
    nameEmpty: bool, nameLengthOk: bool, nameCharsOk: bool,
    categoryEmpty: bool, categoryOk: bool,
    quantityOk: bool, priceOk: bool, gstRateOk: bool,
    batchNumberOk: bool, manufacturerOk: bool)

  function CheckInventory(b: InventoryBody): InventoryChecks {
    var name := Trim(FieldText(b.name));
    var category := Trim(FieldText(b.category));
    InventoryChecks(
      name == [], 2 <= ValidatorLength(name) <= 255, Matches(ItemName, name),
      category == [], Inventory.ParseCategory(category).Some?,
      QuantityOk(b.quantity), PriceOk(b.price), GstRateOk(b.gstRate),
      OptionalMatches(BatchNumber, b.batchNumber), OptionalMatches(Manufacturer, b.manufacturer))
  }

  /** Every validator's error, in the order the chains run. */
  const InventoryChain: seq<InventoryError> := [
    NameRequired, NameLength, NameChars, CategoryRequired, CategoryInvalid,
    QuantityInvalid, PriceInvalid, GstRateInvalid, BatchNumberInvalid, ManufacturerInvalid]

  /** Whether the validator behind error `e` failed. */
  predicate Fails(c: InventoryChecks, e: InventoryError) {
    match e
    case NameRequired => c.nameEmpty
    case NameLength => !c.nameLengthOk
    case NameChars => !c.nameCharsOk
    case CategoryRequired => c.categoryEmpty
    case CategoryInvalid => !c.categoryOk
    case QuantityInvalid => !c.quantityOk
    case PriceInvalid => !c.priceOk
    case GstRateInvalid => !c.gstRateOk
    case BatchNumberInvalid => !c.batchNumberOk
    case ManufacturerInvalid => !c.manufacturerOk
  }

  /** The errors of `chain` whose validators failed, in chain order. */
  function Failed(c: InventoryChecks, chain: seq<InventoryError>): seq<InventoryError> {
    if chain == [] then [] else (if Fails(c, chain[0]) then [chain[0]] else []) + Failed(c, chain[1..])
  }

  lemma {:induction false} FailedMembers(c: InventoryChecks, chain: seq<InventoryError>, e: InventoryError)
    ensures e in Failed(c, chain) <==> e in chain && Fails(c, e)
    decreases |chain|
  {
    if chain != [] {
      FailedMembers(c, chain[1..], e);
      assert chain == [chain[0]] + chain[1..];
    }
  }

  /** The failed validators' errors, in chain order. */
  function ChecksErrors(c: InventoryChecks): seq<InventoryError> {
    Failed(c, InventoryChain)
  }

  function InventoryErrors(b: InventoryBody): seq<InventoryError> {
    ChecksErrors(CheckInventory(b))
  }

  /** A trimmed name whose `isLength` is below 2 is reported too short by the inventory chain. */
  lemma ShortNameReported(b: InventoryBody)
    requires ValidatorLength(Trim(FieldText(b.name))) < 2
    ensures NameLength in InventoryErrors(b)
  {
    FailedMembers(CheckInventory(b), InventoryChain, NameLength);
  }

  /**
   * A one-letter name with an emoji selector is reported too short by the
   * inventory chain, though it holds two code points.
   */
  lemma SelectorNameTooShort()
    ensures
      var b := InventoryBody(Some("a\U{FE0F}"), Some("general"), NumField.Num(1.0), NumField.Num(1.0),
                             NumField.Absent, None, None);
      NameLength in InventoryErrors(b)
  {
    var b := InventoryBody(Some("a\U{FE0F}"), Some("general"), NumField.Num(1.0), NumField.Num(1.0),
                           NumField.Absent, None, None);
    ValidatorLengthSelectorExample();
    TrimOfTrimmed("a\U{FE0F}");
    ShortNameReported(b);
  }

  /** An optional text field after `trim` and `sanitizeInput`. */
  function SanitizeOptional(v: Option<string>): Option<string> {
    if v.None? then None else Some(SanitizeString(Trim(v.value)))
  }

  /** What the chains demand of an inventory body, field by field. */
  ghost predicate InventoryAcceptable(b: InventoryBody) {
    var name := Trim(FieldText(b.name));
    && 2 <= ValidatorLength(name) <= 255
    && (forall i :: 0 <= i < |name| ==> InClass(ItemName, name[i]))
    && (exists c: Inventory.Category :: Inventory.CategoryName(c) == Trim(FieldText(b.category)))
    && b.quantity.Num? && b.quantity.v >= 0.0 && b.quantity.v == b.quantity.v.Floor as real
    && b.price.Num? && b.price.v >= 0.0
    && (b.gstRate.Absent? || (b.gstRate.Num? && 0.0 <= b.gstRate.v <= 100.0))
    && (b.batchNumber.Some? ==> (Trim(b.batchNumber.value) != []
          && forall i :: 0 <= i < |Trim(b.batchNumber.value)| ==> InClass(BatchNumber, Trim(b.batchNumber.value)[i])))
    && (b.manufacturer.Some? ==> (Trim(b.manufacturer.value) != []
          && forall i :: 0 <= i < |Trim(b.manufacturer.value)| ==> InClass(Manufacturer, Trim(b.manufacturer.value)[i])))
  }

  /** Each error is reported exactly when its own validator fails. */
  lemma ChecksErrorsListed(c: InventoryChecks)
    ensures forall e :: e in ChecksErrors(c) <==> Fails(c, e)
  {
    forall e
      ensures e in ChecksErrors(c) <==> Fails(c, e)
    {
      FailedMembers(c, InventoryChain, e);
      assert e in InventoryChain by {
        match e
        case NameRequired => assert InventoryChain[0] == e;
        case NameLength => assert InventoryChain[1] == e;
        case NameChars => assert InventoryChain[2] == e;
        case CategoryRequired => assert InventoryChain[3] == e;
        case CategoryInvalid => assert InventoryChain[4] == e;
        case QuantityInvalid => assert InventoryChain[5] == e;
        case PriceInvalid => assert InventoryChain[6] == e;
        case GstRateInvalid => assert InventoryChain[7] == e;
        case BatchNumberInvalid => assert InventoryChain[8] == e;
        case ManufacturerInvalid => assert InventoryChain[9] == e;
      }
    }
  }

  /** No error is reported exactly when every validator passes. */
  lemma ChecksErrorsEmpty(c: InventoryChecks)
    ensures ChecksErrors(c) == [] <==>
      && !c.nameEmpty && c.nameLengthOk && c.nameCharsOk && !c.categoryEmpty && c.categoryOk
      && c.quantityOk && c.priceOk && c.gstRateOk && c.batchNumberOk && c.manufacturerOk
  {
    ChecksErrorsListed(c);
    var errs := ChecksErrors(c);
    if errs != [] {
      assert errs[0] in errs;
    }
    assert Fails(c, NameRequired) ==> NameRequired in errs;
    assert Fails(c, NameLength) ==> NameLength in errs;
    assert Fails(c, NameChars) ==> NameChars in errs;
    assert Fails(c, CategoryRequired) ==> CategoryRequired in errs;
    assert Fails(c, CategoryInvalid) ==> CategoryInvalid in errs;
    assert Fails(c, QuantityInvalid) ==> QuantityInvalid in errs;
    assert Fails(c, PriceInvalid) ==> PriceInvalid in errs;
    assert Fails(c, GstRateInvalid) ==> GstRateInvalid in errs;
    assert Fails(c, BatchNumberInvalid) ==> BatchNumberInvalid in errs;
    assert Fails(c, ManufacturerInvalid) ==> ManufacturerInvalid in errs;
  }

  /** Each inventory error is reported exactly when its own check fails. */
  lemma InventoryErrorsListed(b: InventoryBody)
    ensures forall e :: e in InventoryErrors(b) <==> Fails(CheckInventory(b), e)
  {
    ChecksErrorsListed(CheckInventory(b));
  }

  /** The chains report no error exactly when the body is acceptable. */
  lemma InventoryErrorsEmpty(b: InventoryBody)
    ensures InventoryErrors(b) == [] <==> InventoryAcceptable(b)
  {
    var c := CheckInventory(b);
    ChecksErrorsEmpty(c);
    var name := Trim(FieldText(b.name));
    assert c.nameCharsOk <==> Matches(ItemName, name);
    assert c.categoryOk <==> Inventory.ParseCategory(Trim(FieldText(b.category))).Some?;
  }

  /** The item the handler receives from an accepted body: the trimmed and sanitised values. */
  function AcceptedItem(b: InventoryBody): (r: Inventory.ManualItem)
    requires InventoryAcceptable(b)
    ensures r.name == Trim(FieldText(b.name))
    ensures r.category.Some? && Inventory.CategoryName(r.category.value) == Trim(FieldText(b.category))
    ensures r.quantity as real == b.quantity.v
    ensures r.price == b.price.v
    ensures r.gstRate.Some? <==> b.gstRate.Num?
    ensures b.gstRate.Num? ==> r.gstRate.value == b.gstRate.v
  {
    var name := Trim(FieldText(b.name));
    var category := Trim(FieldText(b.category));
    assert Inventory.ParseCategory(category).Some?;
    TrimOfTrimmed(name);
    SanitizeAccepted(ItemName, name);
    Inventory.ManualItem(
      SanitizeString(name),
      Inventory.ParseCategory(category),
      b.quantity.v.Floor,
      b.price.v,
      if b.gstRate.Num? then Some(b.gstRate.v) else None,
      SanitizeOptional(b.batchNumber),
      SanitizeOptional(b.manufacturer))
  }

  /**
   * The inventory validator: the item the handler receives, or the errors in
   * chain order.
   */
  function ValidateInventoryItem(b: InventoryBody): (r: Result<Inventory.ManualItem, seq<InventoryError>>)
    ensures r.Success? <==> InventoryAcceptable(b)
    ensures r.Failure? <==> InventoryErrors(b) != []
    ensures r.Failure? ==> r.error == InventoryErrors(b)
    ensures r.Success? ==>
      && r.value.name == Trim(FieldText(b.name))
      && r.value.category.Some?
      && Inventory.CategoryName(r.value.category.value) == Trim(FieldText(b.category))
      && r.value.quantity as real == b.quantity.v
      && r.value.price == b.price.v
      && (r.value.gstRate.Some? <==> b.gstRate.Num?)
      && (b.gstRate.Num? ==> r.value.gstRate.value == b.gstRate.v)
      && r.value.batchNumber == SanitizeOptional(b.batchNumber)
      && r.value.manufacturer == SanitizeOptional(b.manufacturer)
  {
    InventoryErrorsEmpty(b);
    var errors := InventoryErrors(b);
    if errors != [] then Failure(errors) else Success(AcceptedItem(b))
  }

  /** No pattern admits `<`, and only the manufacturer's admits an escaped character (`&`). */
  lemma ClassChars(p: Pattern, t: string)
    requires forall i :: 0 <= i < |t| ==> InClass(p, t[i])
    ensures '<' !in t
    ensures p != Manufacturer ==> forall i :: 0 <= i < |t| ==> !Special(t[i])
    ensures forall i :: 0 <= i < |t| ==> t[i] == '&' || !Special(t[i])
  {
    forall i | 0 <= i < |t|
      ensures t[i] != '<' && (t[i] == '&' || !Special(t[i])) && (p != Manufacturer ==> !Special(t[i]))
    {
      assert InClass(p, t[i]);
    }
  }

  /** An accepted item name or batch number is left exactly as it is by `sanitizeInput`. */
  lemma SanitizeAccepted(p: Pattern, t: string)
    requires p != Manufacturer
    requires Trim(t) == t
    requires forall i :: 0 <= i < |t| ==> InClass(p, t[i])
    ensures SanitizeString(t) == t
  {
    ClassChars(p, t);
    assert Trim(t) == t;
    SanitizePlainText(t);
    EscapePlain(t);
  }

  /**
   * An accepted manufacturer reaches the table escaped: it holds no tag, and
   * it changes exactly when it holds an `&`.
   */
  lemma SanitizeAcceptedManufacturer(s: string)
    requires Matches(Manufacturer, Trim(s))
    ensures SanitizeString(Trim(s)) == Escape(Trim(s))
    ensures SanitizeString(Trim(s)) == Trim(s) <==> '&' !in Trim(s)
  {
    var t := Trim(s);
    ClassChars(Manufacturer, t);
    SanitizePlainText(t);
    EscapeChangesAmpersand(t);
  }

  /** Of a text whose only special character is `&`, escaping changes it exactly when it holds one. */
  lemma EscapeChangesAmpersand(t: string)
    requires forall i :: 0 <= i < |t| ==> t[i] == '&' || !Special(t[i])
    ensures Escape(t) == t <==> '&' !in t
  {
    EscapeUnchanged(t);
    if '&' in t {
      var i :| 0 <= i < |t| && t[i] == '&';
      assert Special(t[i]);
    }
  }

  /**
   * The add form starts with an empty batch number and manufacturer and posts
   * them as they are; `optional()` does not skip a present empty string, so
   * such an item is rejected.
   */
  lemma EmptyBatchNumberRejected(b: InventoryBody)
    requires b.batchNumber == Some("")
    ensures ValidateInventoryItem(b).Failure?
    ensures BatchNumberInvalid in InventoryErrors(b)
  {
    EmptyFieldFails(BatchNumber);
    BatchNumberFailure(CheckInventory(b));
  }

  /** A present empty optional field fails its pattern. */
  lemma EmptyFieldFails(p: Pattern)
    ensures !OptionalMatches(p, Some(""))
  {
    TrimOfTrimmed("");
  }

  /** A failing batch-number check is reported. */
  lemma BatchNumberFailure(c: InventoryChecks)
    requires !c.batchNumberOk
    ensures BatchNumberInvalid in ChecksErrors(c)
  {
    ChecksErrorsListed(c);
  }

  /** `optional({ values: 'falsy' })`'s reading of an optional text field: an empty one counts as absent. */
  function SkipEmpty(v: Option<string>): (r: Option<string>)
    ensures r.None? <==> v.None? || v.value == ""
    ensures r.Some? ==> r == v
  {
    if v == Some("") then None else v
  }

  /**
   * The validator as evidently intended: an empty batch number or
   * manufacturer is skipped like a missing one, which the handler's
   * `batchNumber || ''` then stores as the empty string.
   */
  function ValidateInventoryItemIntended(b: InventoryBody): (r: Result<Inventory.ManualItem, seq<InventoryError>>)
    ensures r.Success? <==> InventoryAcceptable(b.(batchNumber := SkipEmpty(b.batchNumber),
                                                   manufacturer := SkipEmpty(b.manufacturer)))
    ensures r.Success? && b.batchNumber == Some("") ==> r.value.batchNumber.GetOr("") == ""
    ensures r.Success? && b.manufacturer == Some("") ==> r.value.manufacturer.GetOr("") == ""
  {
    ValidateInventoryItem(b.(batchNumber := SkipEmpty(b.batchNumber), manufacturer := SkipEmpty(b.manufacturer)))
  }

  /**
   * The body the add form posts when batch number and manufacturer are left
   * blank: rejected as written, accepted as intended whenever the other
   * fields are acceptable.
   */
  lemma BlankOptionalsAcceptedAsIntended(b: InventoryBody)
    requires b.batchNumber == Some("") && b.manufacturer == Some("")
    requires InventoryAcceptable(b.(batchNumber := None, manufacturer := None))
    ensures ValidateInventoryItem(b).Failure?
    ensures ValidateInventoryItemIntended(b).Success?
  {
    EmptyBatchNumberRejected(b);
  }

  // ------------------------------------------------------------------ payment

  /** The fields of `POST /api/payments` that the validator reads. */
  datatype PaymentBody = PaymentBody(
    supplierId: Option<string>,
    purchaseId: Option<string>,
    amount: NumField,
    paymentDateIsDate: bool,
    paymentMethod: Option<string>,
    referenceNumber: Option<string>,
    notes: Option<string>)

  datatype PaymentFieldError = SupplierRequired | AmountInvalid | PaymentDateInvalid | PaymentMethodInvalid

  const MinimumAmount: real := 0.01

  /** `isIn` on the `payment_method` enum's spellings; the value is not trimmed. */
  function ParsePaymentMethod(s: string): (r: Option<Purchases.PaymentMethod>)
    ensures r.Some? <==> s in {"cash", "bank_transfer", "cheque", "upi", "card"}
  {
    if s == "cash" then Some(Purchases.Cash)
    else if s == "bank_transfer" then Some(Purchases.BankTransfer)
    else if s == "cheque" then Some(Purchases.Cheque)
    else if s == "upi" then Some(Purchases.Upi)
    else if s == "card" then Some(Purchases.Card)
    else None
  }

  predicate AmountOk(a: NumField) {
    a.Num? && a.v >= MinimumAmount
  }

  function PaymentErrors(b: PaymentBody): seq<PaymentFieldError> {
    (if Trim(FieldText(b.supplierId)) == [] then [SupplierRequired] else [])
    + (if AmountOk(b.amount) then [] else [AmountInvalid])
    + (if b.paymentDateIsDate then [] else [PaymentDateInvalid])
    + (if ParsePaymentMethod(FieldText(b.paymentMethod)).Some? then [] else [PaymentMethodInvalid])
  }

  /**
   * The payment validator. Whether `paymentDate` is a date is given as a flag;
   * the date itself is not part of the model.
   */
  function ValidatePayment(b: PaymentBody): (r: Result<Purchases.PaymentRequest, seq<PaymentFieldError>>)
    ensures r.Success? <==>
      && Trim(FieldText(b.supplierId)) != []
      && b.amount.Num? && b.amount.v >= 0.01
      && b.paymentDateIsDate
      && FieldText(b.paymentMethod) in {"cash", "bank_transfer", "cheque", "upi", "card"}
    ensures r.Failure? ==> r.error != []
    ensures r.Success? ==>
      && b.supplierId.Some? && r.value.supplierId == Trim(b.supplierId.value)
      && r.value.purchaseId == b.purchaseId
      && r.value.amount == b.amount.v
      && Some(r.value.paymentMethod) == ParsePaymentMethod(FieldText(b.paymentMethod))
      && r.value.referenceNumber == SanitizeOptional(b.referenceNumber)
      && r.value.notes == SanitizeOptional(b.notes)
  {
    var errors := PaymentErrors(b);
    if errors != [] then Failure(errors)
    else
      Success(Purchases.PaymentRequest(
        Trim(FieldText(b.supplierId)),
        b.purchaseId,
        b.amount.v,
        ParsePaymentMethod(FieldText(b.paymentMethod)).value,
        SanitizeOptional(b.referenceNumber),
        SanitizeOptional(b.notes)))
  }
}
