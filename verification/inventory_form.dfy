/**
 * The inventory screen of the client: the filter on the "add item" form's
 * name field, and the grouping of the fetched items by category.
 */
module InventoryForm {
  import opened Wrappers
  import opened Text
  import opened Inventory
  import Validation

  datatype AddField = Name | CategoryField | Quantity | Price | GstRate | BatchNumber | Manufacturer

  /** The add form's state: the text of each input. */
  type AddForm = map<AddField, string>

  const InitialAddForm: AddForm := map[
    Name := "", CategoryField := "general", Quantity := "", Price := "",
    GstRate := "18", BatchNumber := "", Manufacturer := ""]

  predicate NameChar(c: char) {
    IsAsciiAlnum(c) || IsJsSpace(c)
  }

  /** `/^[A-Za-z0-9\s]+$/.test(value) || value === ""`, scanned from the front. */
  function NameAccepted(v: string): (r: bool)
    ensures r <==> forall i :: 0 <= i < |v| ==> NameChar(v[i])
  {
    if v == [] then true
    else
      var rest := NameAccepted(v[1..]);
      assert forall i :: 1 <= i < |v| ==> v[i] == v[1..][i - 1];
      NameChar(v[0]) && rest
  }

  /**
   * `handleInputChange`: a name holding any other character is refused and
   * the form stays as it is; every other change stores the value verbatim.
   */
  function HandleInputChange(form: AddForm, k: AddField, value: string): (r: AddForm)
    ensures k == Name && (exists i :: 0 <= i < |value| && !NameChar(value[i])) ==> r == form
    ensures k != Name || (forall i :: 0 <= i < |value| ==> NameChar(value[i])) ==>
      && k in r && r[k] == value
      && r.Keys == form.Keys + {k}
      && forall other :: other in form && other != k ==> r[other] == form[other]
  {
    if k == Name && !NameAccepted(value) then form else form[k := value]
  }

  /** The name input never holds a character outside letters, digits and whitespace. */
  ghost predicate NameClean(form: AddForm) {
    Name in form ==> forall i :: 0 <= i < |form[Name]| ==> NameChar(form[Name][i])
  }

  /** Changes keep the name input clean, whatever is typed into any field. */
  lemma HandleInputChangeKeepsName(form: AddForm, k: AddField, value: string)
    requires NameClean(form)
    ensures NameClean(HandleInputChange(form, k, value))
  {
  }

  /**
   * A name typed through the filter passes the server's character check once
   * trimmed, provided something is left: the filter's class lies inside the
   * validator's.
   */
  lemma TypedNamePassesServerCharacters(form: AddForm)
    requires NameClean(form) && Name in form
    requires Trim(form[Name]) != []
    ensures Validation.Matches(Validation.ItemName, Trim(form[Name]))
  {
    var v := form[Name];
    var a, b := TrimSlice(v);
    forall i | 0 <= i < |Trim(v)| ensures Validation.InClass(Validation.ItemName, Trim(v)[i]) {
      assert Trim(v)[i] == v[a + i];
      assert NameChar(v[a + i]);
    }
  }

  // --------------------------------------------------------------- grouping

  /** One category's items, under the category key. */
  datatype Bucket = Bucket(category: Category, items: seq<Item>)

  /** The items of one category, in inventory order. */
  function OfCategory(items: seq<Item>, c: Category): seq<Item> {
    if items == [] then []
    else OfCategory(items[..|items| - 1], c) + (if items[|items| - 1].category == c then [items[|items| - 1]] else [])
  }

  /** The bucket for `c`, if there is one. */
  function BucketOf(buckets: seq<Bucket>, c: Category): (r: Option<nat>)
    ensures r.Some? ==> r.value < |buckets| && buckets[r.value].category == c
    ensures r.None? ==> forall j :: 0 <= j < |buckets| ==> buckets[j].category != c
  {
    if buckets == [] then None
    else if buckets[0].category == c then Some(0)
    else match BucketOf(buckets[1..], c)
      case None => None
      case Some(j) => Some(j + 1)
  }

  /** One step of the `reduce`: push onto the item's bucket, opening it at the end when new. */
  function Push(buckets: seq<Bucket>, item: Item): seq<Bucket> {
    match BucketOf(buckets, item.category)
    case None => buckets + [Bucket(item.category, [item])]
    case Some(j) => buckets[j := buckets[j].(items := buckets[j].items + [item])]
  }

  /** `groupedInventory`: the `reduce` over the inventory, keyed in order of first appearance. */
  function Grouped(items: seq<Item>): seq<Bucket> {
    if items == [] then [] else Push(Grouped(items[..|items| - 1]), items[|items| - 1])
  }

  /** Each bucket holds exactly its category's items, in inventory order. */
  ghost predicate Matching(buckets: seq<Bucket>, items: seq<Item>) {
    forall j :: 0 <= j < |buckets| ==> buckets[j].items == OfCategory(items, buckets[j].category)
  }

  /** No bucket is empty, and no two buckets share a category. */
  ghost predicate Distinct(buckets: seq<Bucket>) {
    && (forall j :: 0 <= j < |buckets| ==> buckets[j].items != [])
    && (forall j, j' :: 0 <= j < j' < |buckets| ==> buckets[j].category != buckets[j'].category)
  }

  /** Every item finds a bucket for its category. */
  ghost predicate Covers(buckets: seq<Bucket>, items: seq<Item>) {
    forall i :: 0 <= i < |items| ==> BucketOf(buckets, items[i].category).Some?
  }

  /** What the grouping promises about its buckets. */
  ghost predicate GroupsOf(buckets: seq<Bucket>, items: seq<Item>) {
    Matching(buckets, items) && Distinct(buckets) && Covers(buckets, items)
  }

  function TotalSize(buckets: seq<Bucket>): nat {
    if buckets == [] then 0 else |buckets[0].items| + TotalSize(buckets[1..])
  }

  lemma {:induction false} TotalSizeAppend(buckets: seq<Bucket>, b: Bucket)
    ensures TotalSize(buckets + [b]) == TotalSize(buckets) + |b.items|
    decreases |buckets|
  {
    if buckets == [] {
      assert TotalSize([b]) == |b.items| + TotalSize([]);
    } else {
      assert (buckets + [b])[1..] == buckets[1..] + [b];
      TotalSizeAppend(buckets[1..], b);
    }
  }

  lemma {:induction false} TotalSizeUpdate(buckets: seq<Bucket>, j: nat, b: Bucket)
    requires j < |buckets|
    ensures TotalSize(buckets[j := b]) == TotalSize(buckets) - |buckets[j].items| + |b.items|
    decreases |buckets|
  {
    if j > 0 {
      assert buckets[j := b][1..] == buckets[1..][j - 1 := b];
      TotalSizeUpdate(buckets[1..], j - 1, b);
    }
  }

  /** Pushing an item of a category not seen before opens its bucket at the end. */
  lemma {:induction false} PushNew(before: seq<Bucket>, init: seq<Item>, x: Item)
    requires GroupsOf(before, init) && TotalSize(before) == |init|
    requires BucketOf(before, x.category).None?
    ensures GroupsOf(Push(before, x), init + [x]) && TotalSize(Push(before, x)) == |init| + 1
  {
    var b := Bucket(x.category, [x]);
    assert Push(before, x) == before + [b];
    TotalSizeAppend(before, b);
    PushNewContents(before, init, x);
    PushNewDistinct(before, x);
    PushCovers(before, before + [b], init, x, |before|);
  }

  /** The new bucket holds just the item, and the old buckets gain nothing. */
  lemma {:induction false} PushNewContents(before: seq<Bucket>, init: seq<Item>, x: Item)
    requires Matching(before, init) && Covers(before, init)
    requires BucketOf(before, x.category).None?
    ensures Matching(before + [Bucket(x.category, [x])], init + [x])
  {
    var items := init + [x];
    var after := before + [Bucket(x.category, [x])];
    assert items[..|items| - 1] == init;
    forall i | 0 <= i < |init| ensures init[i].category != x.category {
      assert BucketOf(before, init[i].category).Some?;
    }
    OfCategoryAbsent(init, x.category);
    forall j | 0 <= j < |after| ensures after[j].items == OfCategory(items, after[j].category) {
      assert OfCategory(items, after[j].category)
          == OfCategory(init, after[j].category) + (if x.category == after[j].category then [x] else []);
    }
  }

  /** A new category's bucket is non-empty and unlike the others. */
  lemma {:induction false} PushNewDistinct(before: seq<Bucket>, x: Item)
    requires Distinct(before)
    requires BucketOf(before, x.category).None?
    ensures Distinct(before + [Bucket(x.category, [x])])
  {
    var after := before + [Bucket(x.category, [x])];
    forall j, j' | 0 <= j < j' < |after| ensures after[j].category != after[j'].category {
      assert after[j] == before[j];
      if j' < |before| {
        assert after[j'] == before[j'];
      }
    }
  }

  /** Pushing an item of a category seen before appends it to that bucket. */
  lemma {:induction false} PushOld(before: seq<Bucket>, init: seq<Item>, x: Item)
    requires GroupsOf(before, init) && TotalSize(before) == |init|
    requires BucketOf(before, x.category).Some?
    ensures GroupsOf(Push(before, x), init + [x]) && TotalSize(Push(before, x)) == |init| + 1
  {
    var k := BucketOf(before, x.category).value;
    var after := before[k := before[k].(items := before[k].items + [x])];
    assert Push(before, x) == after;
    TotalSizeUpdate(before, k, after[k]);
    PushOldContents(before, init, x, k);
    PushOldDistinct(before, x, k);
    PushCovers(before, after, init, x, k);
  }

  /** The item's bucket gains it at the end, and the other buckets gain nothing. */
  lemma {:induction false} PushOldContents(before: seq<Bucket>, init: seq<Item>, x: Item, k: nat)
    requires Matching(before, init) && Distinct(before)
    requires k < |before| && before[k].category == x.category
    ensures Matching(before[k := before[k].(items := before[k].items + [x])], init + [x])
  {
    var items := init + [x];
    var after := before[k := before[k].(items := before[k].items + [x])];
    assert items[..|items| - 1] == init;
    forall j | 0 <= j < |after| ensures after[j].items == OfCategory(items, after[j].category) {
      if j != k {
        assert before[j].category != before[k].category by {
          if j < k {} else {}
        }
      }
      assert OfCategory(items, after[j].category)
          == OfCategory(init, after[j].category) + (if x.category == after[j].category then [x] else []);
    }
  }

  /** Growing a bucket keeps it non-empty and keeps the categories apart. */
  lemma {:induction false} PushOldDistinct(before: seq<Bucket>, x: Item, k: nat)
    requires Distinct(before)
    requires k < |before|
    ensures Distinct(before[k := before[k].(items := before[k].items + [x])])
  {
    var after := before[k := before[k].(items := before[k].items + [x])];
    assert forall j :: 0 <= j < |after| ==> after[j].category == before[j].category;
  }

  /** A push keeps every bucket's category and has one for the new item, so every item still finds its bucket. */
  lemma {:induction false} PushCovers(before: seq<Bucket>, after: seq<Bucket>, init: seq<Item>, x: Item, m: nat)
    requires Covers(before, init)
    requires |before| <= |after| && forall j :: 0 <= j < |before| ==> after[j].category == before[j].category
    requires m < |after| && after[m].category == x.category
    ensures Covers(after, init + [x])
  {
    var items := init + [x];
    forall i | 0 <= i < |items| ensures BucketOf(after, items[i].category).Some? {
      if i < |init| {
        var j := BucketOf(before, init[i].category).value;
        assert after[j].category == items[i].category;
      } else {
        assert after[m].category == items[i].category;
      }
    }
  }

  /**
   * Grouping puts every item in exactly its category's bucket, in inventory
   * order; no bucket is empty, no category has two, and the bucket sizes add
   * up to the number of items.
   */
  lemma {:induction false} GroupedIsPartition(items: seq<Item>)
    ensures GroupsOf(Grouped(items), items)
    ensures TotalSize(Grouped(items)) == |items|
    decreases |items|
  {
    if items != [] {
      var init := items[..|items| - 1];
      GroupedIsPartition(init);
      assert items == init + [items[|items| - 1]];
      GroupedStep(init, items[|items| - 1]);
    }
  }

  /** One more item keeps the grouping's promises. */
  lemma {:induction false} GroupedStep(init: seq<Item>, x: Item)
    requires GroupsOf(Grouped(init), init) && TotalSize(Grouped(init)) == |init|
    ensures GroupsOf(Grouped(init + [x]), init + [x]) && TotalSize(Grouped(init + [x])) == |init| + 1
  {
    var items := init + [x];
    assert items[..|items| - 1] == init;
    var g := Grouped(init);
    if BucketOf(g, x.category).None? {
      PushNew(g, init, x);
    } else {
      PushOld(g, init, x);
    }
  }

  /** A category no item has collects nothing. */
  lemma {:induction false} OfCategoryAbsent(items: seq<Item>, c: Category)
    requires forall i :: 0 <= i < |items| ==> items[i].category != c
    ensures OfCategory(items, c) == []
    decreases |items|
  {
    if items != [] {
      OfCategoryAbsent(items[..|items| - 1], c);
    }
  }
}
