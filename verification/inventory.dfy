/**
 * The inventory table and the manual "add item" upsert of the server
 * (`POST /api/inventory/manual`).
 */
module Inventory {
  import opened Wrappers

  /** The six values of the `category` column's enum. */
  datatype Category = Tablets | Syrups | Injections | Capsules | Ointments | General

  /** The lower-case spelling the schema, the API and the forms use. */
  function CategoryName(c: Category): string {
    match c
    case Tablets => "tablets"
    case Syrups => "syrups"
    case Injections => "injections"
    case Capsules => "capsules"
    case Ointments => "ointments"
    case General => "general"
  }

  /** Reads a category spelling; anything but the six exact names is rejected. */
  function ParseCategory(s: string): (r: Option<Category>)
    ensures r.Some? ==> CategoryName(r.value) == s
    ensures r.None? ==> forall c: Category :: CategoryName(c) != s
  {
    if s == "tablets" then Some(Tablets)
    else if s == "syrups" then Some(Syrups)
    else if s == "injections" then Some(Injections)
    else if s == "capsules" then Some(Capsules)
    else if s == "ointments" then Some(Ointments)
    else if s == "general" then Some(General)
    else None
  }

  /** Parsing inverts spelling. */
  lemma ParseCategoryName(c: Category)
    ensures ParseCategory(CategoryName(c)) == Some(c)
  {
  }

  /** One row of the inventory table; money and rates are exact decimals. */
  datatype Item = Item(
    merchantId: string,
    itemId: string,
    name: string,
    category: Category,
    quantity: int,
    price: real,
    gstRate: real,
    batchNumber: string,
    manufacturer: string)

  /**
   * The inventory table of all merchants, keyed by `item_id`, which the
   * schema declares UNIQUE across the whole table.
   */
  type Inventory = map<string, Item>

  /** Every row is stored under its own `item_id`. */
  ghost predicate WellKeyed(inv: Inventory) {
    forall id :: id in inv ==> inv[id].itemId == id
  }

  predicate Named(item: Item, merchantId: string, name: string) {
    item.merchantId == merchantId && item.name == name
  }

  /**
   * At most one row per (merchant, name). The schema does not enforce it, but
   * both writers of new rows (the manual add and the spreadsheet import) insert
   * only when no row of that merchant has that name.
   */
  ghost predicate NameKeyed(inv: Inventory) {
    forall a, b :: a in inv && b in inv && Named(inv[a], inv[b].merchantId, inv[b].name) ==> a == b
  }

  /** The item `id` exists and belongs to `merchantId`. */
  predicate Owns(inv: Inventory, merchantId: string, id: string) {
    id in inv && inv[id].merchantId == merchantId
  }

  /** Every stock level is non-negative. */
  ghost predicate StockNonNegative(inv: Inventory) {
    forall id :: id in inv ==> inv[id].quantity >= 0
  }

  /** The row the lookup `WHERE merchant_id = ? AND name = ?` finds, if any. */
  function FindByName(inv: Inventory, merchantId: string, name: string): (r: Option<string>)
    requires NameKeyed(inv)
    ensures r.Some? ==> r.value in inv && Named(inv[r.value], merchantId, name)
    ensures r.None? ==> forall id :: id in inv ==> !Named(inv[id], merchantId, name)
  {
    if exists id :: id in inv && Named(inv[id], merchantId, name) then
      var id :| id in inv && Named(inv[id], merchantId, name);
      Some(id)
    else
      None
  }

  /** The body of a manual add after validation: `parseInt`/`parseFloat` already applied. */
  datatype ManualItem = ManualItem(
    name: string,
    category: Option<Category>,
    quantity: int,
    price: real,
    gstRate: Option<real>,
    batchNumber: Option<string>,
    manufacturer: Option<string>)

  datatype AddError = DuplicateItemId(itemId: string)

  const DefaultGstRate: real := 18.0

  /** Which reading of the rate fallback the manual add stores. */
  datatype RateFallback = AsWritten | Intended

  /**
   * The rate stored by the manual add. As written, `parseFloat(gstRate) || 18`
   * replaces a missing (NaN) rate and also a rate of zero, which is falsy, by
   * 18; as intended, only a missing rate falls back to 18, so the form's
   * "0% (Exempt)" choice is kept.
   */
  function EffectiveGstRate(how: RateFallback, gstRate: Option<real>): (r: real)
    ensures gstRate.None? ==> r == DefaultGstRate
    ensures gstRate.Some? && gstRate.value != 0.0 ==> r == gstRate.value
    ensures gstRate == Some(0.0) ==> r == (if how == Intended then 0.0 else DefaultGstRate)
  {
    match how
    case AsWritten => if gstRate.Some? && gstRate.value != 0.0 then gstRate.value else DefaultGstRate
    case Intended => gstRate.GetOr(DefaultGstRate)
  }

  /**
   * The manual add: when the merchant already has an item of that name its
   * stock grows by the quantity and its price and rate are overwritten;
   * otherwise a new row is inserted under `freshId` (generated from the clock
   * and a random suffix), which fails on a clash with an existing `item_id`.
   * The handler itself is `ManualAdd(AsWritten, …)`.
   */
  function ManualAdd(how: RateFallback, inv: Inventory, merchantId: string, form: ManualItem, freshId: string): (r: Result<Inventory, AddError>)
    requires NameKeyed(inv)
    ensures forall id :: id in inv && Named(inv[id], merchantId, form.name) ==>
      && r.Success?
      && r.value.Keys == inv.Keys
      && r.value[id].quantity == inv[id].quantity + form.quantity
      && r.value[id].price == form.price
      && r.value[id].gstRate == EffectiveGstRate(how, form.gstRate)
      && r.value[id] == inv[id].(quantity := r.value[id].quantity, price := r.value[id].price, gstRate := r.value[id].gstRate)
      && forall other :: other in inv && other != id ==> r.value[other] == inv[other]
    ensures (forall id :: id in inv ==> !Named(inv[id], merchantId, form.name)) ==>
      if freshId in inv then
        r == Failure(DuplicateItemId(freshId))
      else
        && r.Success?
        && r.value.Keys == inv.Keys + {freshId}
        && r.value[freshId] == Item(merchantId, freshId, form.name, form.category.GetOr(General),
                                    form.quantity, form.price, EffectiveGstRate(how, form.gstRate),
                                    form.batchNumber.GetOr(""), form.manufacturer.GetOr(""))
        && forall other :: other in inv ==> r.value[other] == inv[other]
  {
    match FindByName(inv, merchantId, form.name)
    case Some(id) =>
      var item := inv[id];
      var updated := item.(quantity := item.quantity + form.quantity, price := form.price,
                           gstRate := EffectiveGstRate(how, form.gstRate));
      Success(inv[id := updated])
    case None =>
      if freshId in inv then
        Failure(DuplicateItemId(freshId))
      else
        var item := Item(merchantId, freshId, form.name, form.category.GetOr(General),
                         form.quantity, form.price, EffectiveGstRate(how, form.gstRate),
                         form.batchNumber.GetOr(""), form.manufacturer.GetOr(""));
        Success(inv[freshId := item])
  }

  /** The manual add keeps at most one row per (merchant, name), and every row under its own id. */
  lemma ManualAddKeepsKeying(how: RateFallback, inv: Inventory, merchantId: string, form: ManualItem, freshId: string)
    requires NameKeyed(inv)
    requires ManualAdd(how, inv, merchantId, form, freshId).Success?
    ensures NameKeyed(ManualAdd(how, inv, merchantId, form, freshId).value)
    ensures WellKeyed(inv) ==> WellKeyed(ManualAdd(how, inv, merchantId, form, freshId).value)
  {
    var r := ManualAdd(how, inv, merchantId, form, freshId).value;
    match FindByName(inv, merchantId, form.name)
    case Some(id) =>
      assert forall a :: a in r ==> r[a].merchantId == inv[a].merchantId && r[a].name == inv[a].name;
    case None =>
  }

  /** A rate of zero, like a missing one, is stored as 18 per cent. */
  lemma ZeroGstStoredAsDefault(inv: Inventory, merchantId: string, form: ManualItem, freshId: string)
    requires NameKeyed(inv)
    requires form.gstRate == None || form.gstRate == Some(0.0)
    requires ManualAdd(AsWritten, inv, merchantId, form, freshId).Success?
    ensures exists id :: id in ManualAdd(AsWritten, inv, merchantId, form, freshId).value
                         && Named(ManualAdd(AsWritten, inv, merchantId, form, freshId).value[id], merchantId, form.name)
                         && ManualAdd(AsWritten, inv, merchantId, form, freshId).value[id].gstRate == 18.0
  {
    var r := ManualAdd(AsWritten, inv, merchantId, form, freshId).value;
    match FindByName(inv, merchantId, form.name)
    case Some(id) =>
      assert id in r && Named(r[id], merchantId, form.name) && r[id].gstRate == 18.0;
    case None =>
      assert freshId in r && Named(r[freshId], merchantId, form.name) && r[freshId].gstRate == 18.0;
  }

  /** As intended, a rate of zero is stored as zero. */
  lemma ZeroGstKeptAsIntended(inv: Inventory, merchantId: string, form: ManualItem, freshId: string)
    requires NameKeyed(inv)
    requires form.gstRate == Some(0.0)
    requires ManualAdd(Intended, inv, merchantId, form, freshId).Success?
    ensures exists id :: id in ManualAdd(Intended, inv, merchantId, form, freshId).value
                         && Named(ManualAdd(Intended, inv, merchantId, form, freshId).value[id], merchantId, form.name)
                         && ManualAdd(Intended, inv, merchantId, form, freshId).value[id].gstRate == 0.0
  {
    var r := ManualAdd(Intended, inv, merchantId, form, freshId).value;
    match FindByName(inv, merchantId, form.name)
    case Some(id) =>
      assert id in r && Named(r[id], merchantId, form.name) && r[id].gstRate == 0.0;
    case None =>
      assert freshId in r && Named(r[freshId], merchantId, form.name) && r[freshId].gstRate == 0.0;
  }
}
