/**
 * The second inventory page: the same item filter, the filtered items grouped
 * by category (`groupedItems`), the add-item form without an expiration date,
 * and the two stock dialogs with their guards and previews.
 */
module GroupedStoragePage {
  import opened Wrappers
  import opened Seqs
  import opened Storage
  import StoragePage
  import Auth

  /** One entry of the `groups` record: a category and its items in filter order. */
  datatype Group = Group(category: Category, items: seq<StorageItem>)

  /** The items of one category. */
  function InCategory(c: Category): StorageItem -> bool {
    (item: StorageItem) => item.category == c
  }

  /** The position of the group for `c`, if there is one. */
  function GroupIndex(groups: seq<Group>, c: Category): (r: Option<nat>)
    ensures r.None? <==> forall g :: 0 <= g < |groups| ==> groups[g].category != c
    ensures r.Some? ==> r.value < |groups| && groups[r.value].category == c
    ensures r.Some? ==> forall g :: 0 <= g < r.value ==> groups[g].category != c
  {
    if groups == [] then None
    else if groups[0].category == c then Some(0)
    else match GroupIndex(groups[1..], c)
      case None => None
      case Some(g) => Some(g + 1)
  }

  /** The number of items over all groups. */
  ghost function TotalSize(groups: seq<Group>): nat {
    if groups == [] then 0 else |groups[0].items| + TotalSize(groups[1..])
  }

  lemma {:induction false} TotalSizeAppend(groups: seq<Group>, x: Group)
    ensures TotalSize(groups + [x]) == TotalSize(groups) + |x.items|
  {
    if groups != [] {
      assert (groups + [x])[1..] == groups[1..] + [x];
      TotalSizeAppend(groups[1..], x);
    }
  }

  lemma {:induction false} TotalSizeUpdate(groups: seq<Group>, g: nat, x: Group)
    requires g < |groups|
    ensures TotalSize(groups[g := x]) == TotalSize(groups) - |groups[g].items| + |x.items|
  {
    if g > 0 {
      assert groups[g := x][1..] == groups[1..][g - 1 := x];
      TotalSizeUpdate(groups[1..], g - 1, x);
    }
  }

  /** Each group holds exactly the items of its category, in their original order. */
  ghost predicate ExactGroups(groups: seq<Group>, processed: seq<StorageItem>) {
    forall g :: 0 <= g < |groups| ==> groups[g].items == Filter(InCategory(groups[g].category), processed)
  }

  /** No category has two groups. */
  ghost predicate DistinctGroups(groups: seq<Group>) {
    forall g, h :: 0 <= g < h < |groups| ==> groups[g].category != groups[h].category
  }

  /** Every item's category has a group. */
  ghost predicate Covers(groups: seq<Group>, processed: seq<StorageItem>) {
    forall k :: 0 <= k < |processed| ==> GroupIndex(groups, processed[k].category).Some?
  }

  /**
   * `groups` partitions `processed` by category: exact groups, none of them
   * empty, one per category, every item's category present, and the group
   * sizes adding up to the number of items.
   */
  ghost predicate Partitions(groups: seq<Group>, processed: seq<StorageItem>) {
    && ExactGroups(groups, processed)
    && (forall g :: 0 <= g < |groups| ==> groups[g].items != [])
    && DistinctGroups(groups)
    && Covers(groups, processed)
    && TotalSize(groups) == |processed|
  }

  lemma ExactAfterOpen(groups: seq<Group>, processed: seq<StorageItem>, item: StorageItem)
    requires ExactGroups(groups, processed) && Covers(groups, processed)
    requires GroupIndex(groups, item.category).None?
    ensures ExactGroups(groups + [Group(item.category, [item])], processed + [item])
  {
    var after := groups + [Group(item.category, [item])];
    forall g | 0 <= g < |after|
      ensures after[g].items == Filter(InCategory(after[g].category), processed + [item])
    {
      FilterSnoc(InCategory(after[g].category), processed, item);
      if g == |groups| {
        forall k | 0 <= k < |processed| ensures !InCategory(item.category)(processed[k]) {
          assert GroupIndex(groups, processed[k].category).Some?;
        }
        FilterNone(InCategory(item.category), processed);
      }
    }
  }

  lemma CoversAfterOpen(groups: seq<Group>, processed: seq<StorageItem>, item: StorageItem)
    requires Covers(groups, processed)
    ensures Covers(groups + [Group(item.category, [item])], processed + [item])
  {
    var after := groups + [Group(item.category, [item])];
    forall k | 0 <= k < |processed| + 1 ensures GroupIndex(after, (processed + [item])[k].category).Some? {
      if k < |processed| {
        var h := GroupIndex(groups, processed[k].category).value;
        assert after[h].category == processed[k].category;
      } else {
        assert after[|groups|].category == item.category;
      }
    }
  }

  /** The first item of a category opens a new group at the end. */
  lemma OpenGroupKeepsPartition(groups: seq<Group>, processed: seq<StorageItem>, item: StorageItem)
    requires Partitions(groups, processed) && GroupIndex(groups, item.category).None?
    ensures Partitions(groups + [Group(item.category, [item])], processed + [item])
  {
    ExactAfterOpen(groups, processed, item);
    CoversAfterOpen(groups, processed, item);
    TotalSizeAppend(groups, Group(item.category, [item]));
  }

  lemma ExactAfterPush(groups: seq<Group>, processed: seq<StorageItem>, item: StorageItem, g: nat)
    requires ExactGroups(groups, processed) && DistinctGroups(groups)
    requires g < |groups| && groups[g].category == item.category
    ensures ExactGroups(groups[g := Group(item.category, groups[g].items + [item])], processed + [item])
  {
    var after := groups[g := Group(item.category, groups[g].items + [item])];
    forall h | 0 <= h < |after|
      ensures after[h].items == Filter(InCategory(after[h].category), processed + [item])
    {
      var p := InCategory(groups[h].category);
      assert groups[h].items == Filter(p, processed);
      FilterSnoc(p, processed, item);
      if h == g {
        assert p(item);
        assert after[h].items == groups[h].items + [item];
      } else {
        assert !p(item);
        assert after[h] == groups[h];
      }
    }
  }

  lemma DistinctAfterPush(groups: seq<Group>, item: StorageItem, g: nat)
    requires DistinctGroups(groups) && g < |groups| && groups[g].category == item.category
    ensures DistinctGroups(groups[g := Group(item.category, groups[g].items + [item])])
  {
  }

  lemma CoversAfterPush(groups: seq<Group>, processed: seq<StorageItem>, item: StorageItem, g: nat)
    requires Covers(groups, processed) && g < |groups| && groups[g].category == item.category
    ensures Covers(groups[g := Group(item.category, groups[g].items + [item])], processed + [item])
  {
    var after := groups[g := Group(item.category, groups[g].items + [item])];
    forall k | 0 <= k < |processed| + 1 ensures GroupIndex(after, (processed + [item])[k].category).Some? {
      if k < |processed| {
        var h := GroupIndex(groups, processed[k].category).value;
        assert after[h].category == processed[k].category;
      } else {
        assert after[g].category == item.category;
      }
    }
  }

  /** A later item of a category is pushed onto that category's group. */
  lemma PushKeepsPartition(groups: seq<Group>, processed: seq<StorageItem>, item: StorageItem, g: nat)
    requires Partitions(groups, processed) && GroupIndex(groups, item.category) == Some(g)
    ensures Partitions(groups[g := Group(item.category, groups[g].items + [item])], processed + [item])
  {
    ExactAfterPush(groups, processed, item, g);
    CoversAfterPush(groups, processed, item, g);
    DistinctAfterPush(groups, item, g);
    TotalSizeUpdate(groups, g, Group(item.category, groups[g].items + [item]));
  }

  lemma PrefixGrows(items: seq<StorageItem>, i: int)
    requires 0 <= i < |items|
    ensures items[..i + 1] == items[..i] + [items[i]]
  {
  }

  /**
   * `groupedItems`: the `reduce` that pushes each item onto the list of its
   * category, creating the list on first sight. Groups appear in the order
   * their categories first occur, as the record's keys do.
   */
  method GroupItems(items: seq<StorageItem>) returns (groups: seq<Group>)
    ensures Partitions(groups, items)
  {
    groups := [];
    var i := 0;
    ghost var processed: seq<StorageItem> := [];
    while i < |items|
      invariant 0 <= i <= |items| && processed == items[..i]
      invariant Partitions(groups, processed)
    {
      var item := items[i];
      var found := GroupIndex(groups, item.category);
      if found.None? {
        OpenGroupKeepsPartition(groups, processed, item);
        groups := groups + [Group(item.category, [item])];
      } else {
        var g := found.value;
        PushKeepsPartition(groups, processed, item, g);
        groups := groups[g := Group(item.category, groups[g].items + [item])];
      }
      PrefixGrows(items, i);
      processed := processed + [item];
      i := i + 1;
    }
    assert processed == items;
  }

  /** Each item is in the group of its own category and in no other group. */
  lemma ItemInOwnGroupOnly(items: seq<StorageItem>, groups: seq<Group>, k: int, g: int)
    requires Partitions(groups, items)
    requires 0 <= k < |items| && 0 <= g < |groups|
    ensures items[k] in groups[g].items <==> items[k].category == groups[g].category
  {
    if items[k] in groups[g].items {
      var j :| 0 <= j < |groups[g].items| && groups[g].items[j] == items[k];
      assert InCategory(groups[g].category)(groups[g].items[j]);
    }
  }

  /** The page's grouped view: the filtered items, grouped by category. */
  method GroupedView(items: seq<StorageItem>, searchTerm: string, categoryFilter: string) returns (groups: seq<Group>)
    ensures Partitions(groups, StoragePage.FilteredItems(items, searchTerm, categoryFilter))
  {
    var filtered := StoragePage.FilteredItems(items, searchTerm, categoryFilter);
    groups := GroupItems(filtered);
  }

  /** Groups that are all non-empty and hold no items in total: there are none. */
  lemma NoItemsNoGroups(groups: seq<Group>)
    requires forall g :: 0 <= g < |groups| ==> groups[g].items != []
    requires TotalSize(groups) == 0
    ensures groups == []
  {
  }

  /** With one category selected, the view is that category's single group holding the whole filtered list, or nothing. */
  lemma SelectedCategoryGivesOneGroup(items: seq<StorageItem>, searchTerm: string, c: Category, groups: seq<Group>)
    requires Partitions(groups, StoragePage.FilteredItems(items, searchTerm, CategoryName(c)))
    ensures groups == [] || groups == [Group(c, StoragePage.FilteredItems(items, searchTerm, CategoryName(c)))]
  {
    var filtered := StoragePage.FilteredItems(items, searchTerm, CategoryName(c));
    forall k | 0 <= k < |filtered| ensures filtered[k].category == c {
      CategoryNameInjective(filtered[k].category, c);
    }
    OneCategoryOneGroup(filtered, c, groups);
  }

  /** Items that all have category `c` form no group or the single group of `c`. */
  lemma OneCategoryOneGroup(filtered: seq<StorageItem>, c: Category, groups: seq<Group>)
    requires forall k :: 0 <= k < |filtered| ==> filtered[k].category == c
    requires Partitions(groups, filtered)
    ensures groups == [] || groups == [Group(c, filtered)]
  {
    if groups != [] {
      FirstGroupHoldsAll(filtered, c, groups);
      assert TotalSize(groups) == |groups[0].items| + TotalSize(groups[1..]);
      NoItemsNoGroups(groups[1..]);
      assert groups == [groups[0]] + groups[1..];
    }
  }

  /** When every item has category `c`, the first group is that category's and holds every item. */
  lemma FirstGroupHoldsAll(filtered: seq<StorageItem>, c: Category, groups: seq<Group>)
    requires forall k :: 0 <= k < |filtered| ==> filtered[k].category == c
    requires groups != [] && groups[0].items != []
    requires ExactGroups(groups, filtered)
    ensures groups[0] == Group(c, filtered)
  {
    FilterAll(InCategory(c), filtered);
    var first := groups[0].items[0];
    assert InCategory(groups[0].category)(first);
    SubsequenceMembers(groups[0].items, filtered, first);
  }

  lemma CategoryNameInjective(a: Category, b: Category)
    requires CategoryName(a) == CategoryName(b)
    ensures a == b
  {
  }

  /** The add-item form of this page: no expiration date. */
  datatype AddForm = AddForm(name: string, category: Category, quantity: int, unit: Unit, location: string)

  /** `handleAddItem`: the `addItem` call made, if any; the item has no expiration date. */
  function HandleAddItem(form: AddForm, user: Option<Auth.User>): (r: Option<NewItem>)
    ensures r.Some? <==> form.name != "" && form.location != ""
    ensures r.Some? ==>
      && r.value.name == form.name && r.value.category == form.category
      && r.value.quantity == form.quantity && r.value.unit == form.unit
      && r.value.location == form.location && r.value.expirationDate.None?
      && r.value.addedBy == StoragePage.AddedBy(user)
  {
    if form.name == "" || form.location == "" then None
    else Some(NewItem(form.name, form.category, form.quantity, form.unit, form.location, None, StoragePage.AddedBy(user)))
  }

  /** An `increaseQuantity` or `decreaseQuantity` call: item id, amount and who. */
  datatype QuantityCall = QuantityCall(id: string, amount: int, who: string)

  /**
   * The guard `handleAddSubmit` and `handleTakeSubmit` share: with a selected
   * item and a positive amount, the handler calls `increaseQuantity` or
   * `decreaseQuantity` respectively, for that item and credited to the user.
   * The take handler does not compare the amount with the stock.
   */
  function QuantitySubmit(selected: Option<StorageItem>, amount: int, user: Option<Auth.User>): (r: Option<QuantityCall>)
    ensures r.Some? <==> selected.Some? && amount > 0
    ensures r.Some? ==> r.value == QuantityCall(selected.value.id, amount, StoragePage.AddedBy(user))
  {
    if selected.None? || amount <= 0 then None
    else Some(QuantityCall(selected.value.id, amount, StoragePage.AddedBy(user)))
  }

  /** `selectedItem?.quantity || 0`. */
  function SelectedQuantity(selected: Option<StorageItem>): (r: int)
    ensures selected.None? ==> r == 0
    ensures selected.Some? ==> r == selected.value.quantity
  {
    if selected.Some? then selected.value.quantity else 0
  }

  /** The "New quantity will be" line of the add dialog. */
  function AddPreview(selected: Option<StorageItem>, addAmount: int): (r: int)
    ensures selected.None? ==> r == addAmount
    ensures selected.Some? ==> r - addAmount == selected.value.quantity
  {
    SelectedQuantity(selected) + addAmount
  }

  /** The "New quantity will be" line of the take dialog: `Math.max(0, quantity - takeAmount)`. */
  function TakePreview(selected: Option<StorageItem>, takeAmount: int): (r: int)
    ensures r >= 0
    ensures r == DecreasedQuantity(SelectedQuantity(selected), takeAmount)
  {
    var q := SelectedQuantity(selected) - takeAmount;
    if q < 0 then 0 else q
  }

  /** The Take button is disabled for a non-positive amount or one above the stock. */
  function TakeDisabled(selected: Option<StorageItem>, takeAmount: int): (r: bool)
    ensures !r <==> 0 < takeAmount <= SelectedQuantity(selected)
  {
    takeAmount <= 0 || takeAmount > SelectedQuantity(selected)
  }

  /** When the Take button is enabled, the preview needs no clamp: it is the stock minus the amount. */
  lemma EnabledTakeIsExact(selected: Option<StorageItem>, takeAmount: int)
    requires !TakeDisabled(selected, takeAmount)
    ensures TakePreview(selected, takeAmount) == SelectedQuantity(selected) - takeAmount
    ensures TakePreview(selected, takeAmount) < SelectedQuantity(selected)
  {
  }

  /**
   * The previews announce what the store then sets, when the selected item is
   * the store's first item with its id.
   */
  lemma PreviewsMatchStore(s: Snapshot, item: StorageItem, amount: int, who: string, now: int)
    requires FindById(s.items, item.id) == Some(item)
    ensures var k := IndexOfId(s.items, item.id).value;
      && IncreaseStep(s, item.id, amount, who, now).items[k].quantity == AddPreview(Some(item), amount)
      && DecreaseStep(s, item.id, amount, who, now).items[k].quantity == TakePreview(Some(item), amount)
  {
  }

  /** `getCategoryTitle`: the heading of a known category; any other text is its own heading. */
  function CategoryTitle(category: string): (r: string)
    ensures (forall c: Category :: CategoryName(c) != category) ==> r == category
    ensures forall c: Category :: CategoryName(c) == category ==> r != category && r != ""
  {
    match category
    case "produce" => assert CategoryName(Produce) == category; "Produce"
    case "meat" => assert CategoryName(Meat) == category; "Meat"
    case "dairy" => assert CategoryName(Dairy) == category; "Dairy"
    case "dry-goods" => assert CategoryName(DryGoods) == category; "Dry Goods"
    case "frozen" => assert CategoryName(Frozen) == category; "Frozen"
    case "beverages" => assert CategoryName(Beverages) == category; "Beverages"
    case _ => category
  }

  /** Different categories get different headings, so no two groups share one. */
  lemma CategoryTitlesDistinct(a: Category, b: Category)
    requires a != b
    ensures CategoryTitle(CategoryName(a)) != CategoryTitle(CategoryName(b))
  {
  }
}
