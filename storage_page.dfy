/**
 * The derived views and the add-item guard of the inventory page: the filtered
 * item list, the "expiring soon" rule and the summary counts.
 */
module StoragePage {
  import opened Wrappers
  import opened Seqs
  import opened Text
  import opened Dates
  import opened Storage
  import Auth

  /** The item filter: the lower-cased name contains the lower-cased term, and the category is selected. */
  function ItemMatches(item: StorageItem, searchTerm: string, categoryFilter: string): (r: bool)
    ensures r ==> Contains(ToLower(item.name), ToLower(searchTerm))
    ensures searchTerm == "" ==> (r <==> categoryFilter == "all" || CategoryName(item.category) == categoryFilter)
  {
    ContainsEmpty(ToLower(item.name));
    && Contains(ToLower(item.name), ToLower(searchTerm))
    && (categoryFilter == "all" || CategoryName(item.category) == categoryFilter)
  }

  /** The `filter` callback of `filteredItems`. */
  function ItemFilter(searchTerm: string, categoryFilter: string): StorageItem -> bool {
    (item: StorageItem) => ItemMatches(item, searchTerm, categoryFilter)
  }

  /** `filteredItems`: the items passing the search and the category filter, in inventory order. */
  function FilteredItems(items: seq<StorageItem>, searchTerm: string, categoryFilter: string): (r: seq<StorageItem>)
    ensures |r| <= |items|
    ensures IsSubsequence(r, items)
    ensures forall k :: 0 <= k < |r| ==> ItemMatches(r[k], searchTerm, categoryFilter)
    ensures forall k :: 0 <= k < |items| ==> ItemMatches(items[k], searchTerm, categoryFilter) ==> items[k] in r
    ensures forall x :: multiset(r)[x] == if ItemMatches(x, searchTerm, categoryFilter) then multiset(items)[x] else 0
  {
    FilterCounts(ItemFilter(searchTerm, categoryFilter), items);
    Filter(ItemFilter(searchTerm, categoryFilter), items)
  }

  /** The empty search with category `"all"` shows the whole inventory. */
  lemma DefaultFilterShowsAll(items: seq<StorageItem>)
    ensures FilteredItems(items, "", "all") == items
  {
    forall k | 0 <= k < |items| ensures ItemMatches(items[k], "", "all") {
      ContainsEmpty(ToLower(items[k].name));
    }
    FilterAll(ItemFilter("", "all"), items);
  }

  /** A category that is not one of the six names selects nothing. */
  lemma UnknownCategoryShowsNothing(items: seq<StorageItem>, searchTerm: string, categoryFilter: string)
    requires categoryFilter != "all"
    requires forall c: Category :: CategoryName(c) != categoryFilter
    ensures FilteredItems(items, searchTerm, categoryFilter) == []
  {
    FilterNone(ItemFilter(searchTerm, categoryFilter), items);
  }

  /** The name the page passes as `addedBy`: `user?.name || "Unknown"`. */
  function AddedBy(user: Option<Auth.User>): (r: string)
    ensures r != ""
    ensures user.Some? && user.value.name != "" ==> r == user.value.name
    ensures user.None? || user.value.name == "" ==> r == "Unknown"
  {
    OrElse(if user.Some? then user.value.name else "", "Unknown")
  }

  /** The add-item form; the expiration date is the text of a date input. */
  datatype AddForm = AddForm(name: string, category: Category, quantity: int, unit: Unit,
                             location: string, expirationDate: string)

  /**
   * `handleAddItem`: the `addItem` call made, if any. `dateOf` is what
   * `new Date(text).getTime()` gives for the stored text (`None` for an
   * invalid date).
   */
  function HandleAddItem(form: AddForm, user: Option<Auth.User>, dateOf: string -> Option<int>): (r: Option<NewItem>)
    ensures r.Some? <==> form.name != "" && form.location != "" && form.expirationDate != ""
    ensures r.Some? ==>
      && r.value.name == form.name && r.value.category == form.category
      && r.value.quantity == form.quantity && r.value.unit == form.unit
      && r.value.location == form.location && r.value.expirationDate == dateOf(form.expirationDate)
      && r.value.addedBy == AddedBy(user)
  {
    if form.name == "" || form.location == "" || form.expirationDate == "" then None
    else Some(NewItem(form.name, form.category, form.quantity, form.unit, form.location,
                      dateOf(form.expirationDate), AddedBy(user)))
  }

  /** A submitted form ends up as the last item of the inventory, credited to the user. */
  lemma SubmittedFormIsStored(s: Snapshot, form: AddForm, user: Auth.User, dateOf: string -> Option<int>, now: int)
    requires form.name != "" && form.location != "" && form.expirationDate != "" && user.name != ""
    ensures HandleAddItem(form, Some(user), dateOf).Some?
    ensures var after := AddItemStep(s, HandleAddItem(form, Some(user), dateOf).value, now);
      && after.items[|s.items|].name == form.name
      && after.items[|s.items|].location == form.location
      && after.items[|s.items|].addedBy == user.name
      && after.activities[0].employeeName == user.name
  {
  }

  /**
   * `isExpiringSoon`: at most three days, rounded up, remain before the
   * expiration date; a date already past counts, an invalid date does not.
   */
  function IsExpiringSoon(expirationDate: Option<int>, now: int): (r: bool)
    ensures r <==> expirationDate.Some? && expirationDate.value - now <= 3 * MsPerDay
  {
    match expirationDate
    case None => false
    case Some(exp) => DiffDays(exp, now) <= 3
  }

  /** Expired items are among those expiring soon. */
  lemma ExpiredIsExpiringSoon(exp: int, now: int)
    requires exp <= now
    ensures IsExpiringSoon(Some(exp), now)
  {
  }

  /** The `filter` callback of the "Expiring Soon" card. */
  function ExpiresSoon(now: int): StorageItem -> bool {
    (item: StorageItem) => IsExpiringSoon(item.expirationDate, now)
  }

  /** The "Expiring Soon" card: how many items expire within three days. */
  function ExpiringCount(items: seq<StorageItem>, now: int): (r: nat)
    ensures r <= |items|
    ensures r == |Filter(ExpiresSoon(now), items)|
  {
    |Filter(ExpiresSoon(now), items)|
  }

  /** An item with no valid expiration date is never counted as expiring. */
  lemma UndatedItemsNotExpiring(items: seq<StorageItem>, now: int)
    requires forall k :: 0 <= k < |items| ==> items[k].expirationDate.None?
    ensures ExpiringCount(items, now) == 0
  {
    FilterNone(ExpiresSoon(now), items);
  }

  /** `new Set(items.map(item => item.category))`. */
  function Categories(items: seq<StorageItem>): (r: set<Category>)
    ensures forall c :: c in r <==> exists k :: 0 <= k < |items| && items[k].category == c
  {
    set k | 0 <= k < |items| :: items[k].category
  }

  const AllCategories: set<Category> := {Produce, Meat, Dairy, DryGoods, Frozen, Beverages}

  /** The "Categories" card: the number of distinct categories in the inventory. */
  function CategoryCount(items: seq<StorageItem>): (r: nat)
    ensures r <= |items|
    ensures r <= 6
    ensures r == 0 <==> items == []
  {
    CategorySetBounds(items);
    |Categories(items)|
  }

  /** There are at most as many categories as items, and at most the six the enumeration has. */
  lemma {:induction false} CategorySetBounds(items: seq<StorageItem>)
    ensures |Categories(items)| <= |items|
    ensures |Categories(items)| <= 6
    ensures |Categories(items)| == 0 <==> items == []
  {
    assert Categories(items) <= AllCategories by {
      forall c | c in Categories(items) ensures c in AllCategories {
        match c
        case Produce => case Meat => case Dairy => case DryGoods => case Frozen => case Beverages =>
      }
    }
    assert |AllCategories| == 6;
    SubsetSize(Categories(items), AllCategories);
    if items != [] {
      CategorySetBounds(items[1..]);
      assert Categories(items) == {items[0].category} + Categories(items[1..]) by {
        forall c ensures c in Categories(items) <==> c in {items[0].category} + Categories(items[1..]) {
          if c in Categories(items) && c != items[0].category {
            var k :| 0 <= k < |items| && items[k].category == c;
            assert items[1..][k - 1] == items[k];
          }
          if c in Categories(items[1..]) {
            var k :| 0 <= k < |items[1..]| && items[1..][k].category == c;
            assert items[k + 1] == items[1..][k];
          }
        }
      }
      assert items[0].category in Categories(items);
    }
  }

  /** A subset is no larger than its superset. */
  lemma SubsetSize<T>(a: set<T>, b: set<T>)
    requires a <= b
    ensures |a| <= |b|
  {
    assert b == a + (b - a);
  }
}
