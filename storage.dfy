/**
 * The inventory and activity store (`StorageProvider`): two lists, `items` and
 * a newest-first `activities` log, six operations that replace them, the
 * one-time initialisation from local storage and the rule that decides when
 * the lists are written back.
 *
 * Each operation's list update is a pure step on a `Snapshot` of the two
 * lists, as the source builds its new lists with spread, `map`, `filter` and
 * `find`; the `StorageProvider` class applies a step and then runs the two
 * save rules. Clock readings are the `now` parameter (milliseconds); an id is
 * the decimal text of a clock reading, as `Date.now().toString()` makes it.
 */
module Storage {
  import opened Wrappers
  import opened Seqs
  import opened Text
  import Browser

  datatype Category = Produce | Meat | Dairy | DryGoods | Frozen | Beverages

  function CategoryName(c: Category): string {
    match c
    case Produce => "produce"
    case Meat => "meat"
    case Dairy => "dairy"
    case DryGoods => "dry-goods"
    case Frozen => "frozen"
    case Beverages => "beverages"
  }

  datatype Unit = Lbs | Kg | Pieces | Gallons | Liters | Boxes | Cases

  function UnitName(u: Unit): string {
    match u
    case Lbs => "lbs"
    case Kg => "kg"
    case Pieces => "pieces"
    case Gallons => "gallons"
    case Liters => "liters"
    case Boxes => "boxes"
    case Cases => "cases"
  }

  datatype Action = Added | Updated | Removed | Moved

  function ActionName(a: Action): string {
    match a
    case Added => "added"
    case Updated => "updated"
    case Removed => "removed"
    case Moved => "moved"
  }

  /** One inventory record. Dates are milliseconds; a missing or unparseable expiration date is `None`. */
  datatype StorageItem = StorageItem(
    id: string,
    name: string,
    category: Category,
    quantity: int,
    unit: Unit,
    location: string,
    expirationDate: Option<int>,
    addedBy: string,
    addedAt: int,
    lastUpdated: int)

  /** One audit record of the activity feed. */
  datatype ActivityLog = ActivityLog(
    id: string,
    action: Action,
    itemName: string,
    details: string,
    employeeName: string,
    timestamp: int)

  /** The argument of `addItem`: an item without its id and timestamps. */
  datatype NewItem = NewItem(
    name: string,
    category: Category,
    quantity: int,
    unit: Unit,
    location: string,
    expirationDate: Option<int>,
    addedBy: string)

  /** The argument of `addActivity`: an entry without its id and timestamp. */
  datatype NewActivity = NewActivity(action: Action, itemName: string, details: string, employeeName: string)

  /** `Partial<StorageItem>`: a field that is `None` is absent from the update. */
  datatype ItemUpdates = ItemUpdates(
    id: Option<string>,
    name: Option<string>,
    category: Option<Category>,
    quantity: Option<int>,
    unit: Option<Unit>,
    location: Option<string>,
    expirationDate: Option<int>,
    addedBy: Option<string>,
    addedAt: Option<int>,
    lastUpdated: Option<int>)

  /** What the store writes under its two local-storage keys. */
  datatype Document = ItemList(items: seq<StorageItem>) | ActivityList(activities: seq<ActivityLog>)

  const ItemsKey: string := "restaurant-storage-items"
  const ActivitiesKey: string := "restaurant-storage-activities"

  /** The seed inventory used when local storage holds no items. */
  const MockItems: seq<StorageItem> := [
    StorageItem("1", "Fresh Tomatoes", Produce, 25, Lbs, "Walk-in Cooler A", Some(1736640000000),
                "Jane Employee", 1736073000000, 1736073000000),
    StorageItem("2", "Ground Beef", Meat, 15, Lbs, "Freezer B", Some(1736899200000),
                "John Manager", 1736000400000, 1736000400000),
    StorageItem("3", "Whole Milk", Dairy, 8, Gallons, "Walk-in Cooler A", Some(1736467200000),
                "Jane Employee", 1735895700000, 1735895700000)
  ]

  /** The seed activity feed used when local storage holds no activities. */
  const MockActivities: seq<ActivityLog> := [
    ActivityLog("1", Added, "Fresh Tomatoes", "Added 25 lbs to Walk-in Cooler A", "Jane Employee", 1736073000000),
    ActivityLog("2", Updated, "Ground Beef", "Updated quantity from 20 lbs to 15 lbs", "John Manager", 1736009100000)
  ]

  // ---------------------------------------------------------------------------
  // Local storage

  /** The item list read back from local storage, `[]` when there is none. */
  function LoadItems(ls: Browser.LocalStorage<Document>): (r: seq<StorageItem>)
    ensures ItemsKey in ls.slots && ls.slots[ItemsKey].Json? && ls.slots[ItemsKey].value.ItemList? ==>
      r == ls.slots[ItemsKey].value.items
    ensures ItemsKey !in ls.slots || !ls.slots[ItemsKey].Json? ==> r == []
  {
    match Browser.Load(ls, ItemsKey, ItemList([]))
    case ItemList(xs) => xs
    case ActivityList(_) => []
  }

  /** The activity list read back from local storage, `[]` when there is none. */
  function LoadActivities(ls: Browser.LocalStorage<Document>): (r: seq<ActivityLog>)
    ensures ActivitiesKey in ls.slots && ls.slots[ActivitiesKey].Json? && ls.slots[ActivitiesKey].value.ActivityList? ==>
      r == ls.slots[ActivitiesKey].value.activities
    ensures ActivitiesKey !in ls.slots || !ls.slots[ActivitiesKey].Json? ==> r == []
  {
    match Browser.Load(ls, ActivitiesKey, ActivityList([]))
    case ActivityList(xs) => xs
    case ItemList(_) => []
  }

  /**
   * The two save effects: each list is written only once the store is
   * initialised and only while the list is non-empty.
   */
  function Persisted(ls: Browser.LocalStorage<Document>, initialized: bool,
                     items: seq<StorageItem>, activities: seq<ActivityLog>): (r: Browser.LocalStorage<Document>)
    ensures r.full == ls.full
    ensures initialized && !ls.full && |items| > 0 ==> LoadItems(r) == items
    ensures initialized && !ls.full && |activities| > 0 ==> LoadActivities(r) == activities
    ensures !(initialized && |items| > 0) ==> LoadItems(r) == LoadItems(ls)
    ensures !(initialized && |activities| > 0) ==> LoadActivities(r) == LoadActivities(ls)
    ensures !initialized || ls.full ==> r == ls
  {
    var afterItems := if initialized && |items| > 0 then Browser.Save(ls, ItemsKey, ItemList(items)) else ls;
    if initialized && |activities| > 0 then Browser.Save(afterItems, ActivitiesKey, ActivityList(activities))
    else afterItems
  }

  /** The items the store starts with: the stored list, or the seed when that is empty. */
  function InitialItems(ls: Browser.LocalStorage<Document>): (r: seq<StorageItem>)
    ensures |r| > 0
    ensures |LoadItems(ls)| > 0 ==> r == LoadItems(ls)
    ensures |LoadItems(ls)| == 0 ==> r == MockItems
  {
    var stored := LoadItems(ls);
    if |stored| == 0 then MockItems else stored
  }

  /** The activities the store starts with: the stored list, or the seed when that is empty. */
  function InitialActivities(ls: Browser.LocalStorage<Document>): (r: seq<ActivityLog>)
    ensures |r| > 0
    ensures |LoadActivities(ls)| > 0 ==> r == LoadActivities(ls)
    ensures |LoadActivities(ls)| == 0 ==> r == MockActivities
  {
    var stored := LoadActivities(ls);
    if |stored| == 0 then MockActivities else stored
  }

  /** Local storage after the initialisation wrote the seed lists back for the empty keys. */
  function Seeded(ls: Browser.LocalStorage<Document>): (r: Browser.LocalStorage<Document>)
    ensures ls.full ==> r == ls
    ensures !ls.full ==> LoadItems(r) == InitialItems(ls) && LoadActivities(r) == InitialActivities(ls)
    ensures r.full == ls.full
    ensures forall k :: k != ItemsKey && k != ActivitiesKey ==> (k in r.slots <==> k in ls.slots)
    ensures forall k :: k != ItemsKey && k != ActivitiesKey && k in r.slots ==> r.slots[k] == ls.slots[k]
  {
    var afterItems := if |LoadItems(ls)| == 0 then Browser.Save(ls, ItemsKey, ItemList(MockItems)) else ls;
    if |LoadActivities(afterItems)| == 0 then Browser.Save(afterItems, ActivitiesKey, ActivityList(MockActivities))
    else afterItems
  }

  /** A key that is missing, blank or unparseable loads as the empty list, so the seed data is used. */
  lemma UnreadableStorageSeedsMocks(ls: Browser.LocalStorage<Document>)
    requires ItemsKey !in ls.slots || !ls.slots[ItemsKey].Json?
    requires ActivitiesKey !in ls.slots || !ls.slots[ActivitiesKey].Json?
    ensures InitialItems(ls) == MockItems && InitialActivities(ls) == MockActivities
    ensures !ls.full ==> LoadItems(Seeded(ls)) == MockItems && LoadActivities(Seeded(ls)) == MockActivities
  {
    assert LoadItems(ls) == [];
    assert LoadActivities(ls) == [];
    var afterItems := Browser.Save(ls, ItemsKey, ItemList(MockItems));
    assert LoadActivities(afterItems) == [];
  }

  // ---------------------------------------------------------------------------
  // List helpers

  /** The position of the item that `items.find(i => i.id === id)` returns: the first one holding `id`. */
  function IndexOfId(items: seq<StorageItem>, id: string): (r: Option<nat>)
    ensures r.None? <==> forall k :: 0 <= k < |items| ==> items[k].id != id
    ensures r.Some? ==> r.value < |items| && items[r.value].id == id
    ensures r.Some? ==> forall j :: 0 <= j < r.value ==> items[j].id != id
  {
    if items == [] then None
    else if items[0].id == id then Some(0)
    else match IndexOfId(items[1..], id)
      case None => None
      case Some(k) => Some(k + 1)
  }

  /** `items.find(i => i.id === id)`. */
  function FindById(items: seq<StorageItem>, id: string): (r: Option<StorageItem>)
    ensures r.None? <==> forall k :: 0 <= k < |items| ==> items[k].id != id
    ensures r.Some? ==> r.value.id == id && r.value in items
    ensures r.Some? ==> exists k :: 0 <= k < |items| && items[k] == r.value && forall j :: 0 <= j < k ==> items[j].id != id
  {
    match IndexOfId(items, id)
    case None => None
    case Some(k) => Some(items[k])
  }

  /** Two lists with the same ids position by position find an id at the same place. */
  lemma {:induction false} IndexOfIdSameIds(a: seq<StorageItem>, b: seq<StorageItem>, id: string)
    requires |a| == |b| && forall k :: 0 <= k < |a| ==> a[k].id == b[k].id
    ensures IndexOfId(a, id) == IndexOfId(b, id)
  {
    if a != [] && a[0].id != id {
      IndexOfIdSameIds(a[1..], b[1..], id);
    }
  }

  /** The `filter` callback of `removeItem`. */
  function KeepsOtherIds(id: string): StorageItem -> bool {
    (i: StorageItem) => i.id != id
  }

  /** The item `addItem` creates from its argument. */
  function Created(fields: NewItem, now: int): StorageItem {
    StorageItem(IntToString(now), fields.name, fields.category, fields.quantity, fields.unit,
                fields.location, fields.expirationDate, fields.addedBy, now, now)
  }

  /** `item` carries every field of `fields`. */
  predicate Carries(item: StorageItem, fields: NewItem) {
    && item.name == fields.name && item.category == fields.category
    && item.quantity == fields.quantity && item.unit == fields.unit
    && item.location == fields.location && item.expirationDate == fields.expirationDate
    && item.addedBy == fields.addedBy
  }

  /** `{ ...item, ...updates, lastUpdated: now }`. */
  function Merge(item: StorageItem, u: ItemUpdates, now: int): (r: StorageItem)
    ensures r.lastUpdated == now
    ensures u == NoUpdates ==> r == item.(lastUpdated := now)
    ensures r.id == if u.id.Some? then u.id.value else item.id
    ensures r.name == if u.name.Some? then u.name.value else item.name
    ensures r.category == if u.category.Some? then u.category.value else item.category
    ensures r.quantity == if u.quantity.Some? then u.quantity.value else item.quantity
    ensures r.unit == if u.unit.Some? then u.unit.value else item.unit
    ensures r.location == if u.location.Some? then u.location.value else item.location
    ensures r.expirationDate == if u.expirationDate.Some? then u.expirationDate else item.expirationDate
    ensures r.addedBy == if u.addedBy.Some? then u.addedBy.value else item.addedBy
    ensures r.addedAt == if u.addedAt.Some? then u.addedAt.value else item.addedAt
  {
    StorageItem(u.id.GetOr(item.id), u.name.GetOr(item.name), u.category.GetOr(item.category),
                u.quantity.GetOr(item.quantity), u.unit.GetOr(item.unit), u.location.GetOr(item.location),
                if u.expirationDate.Some? then u.expirationDate else item.expirationDate,
                u.addedBy.GetOr(item.addedBy), u.addedAt.GetOr(item.addedAt), now)
  }

  /** The update that sets no field. */
  const NoUpdates := ItemUpdates(None, None, None, None, None, None, None, None, None, None)

  /** Spreading the same update twice gives what spreading it once gives. */
  lemma MergeIdempotent(item: StorageItem, u: ItemUpdates, now: int)
    ensures Merge(Merge(item, u, now), u, now) == Merge(item, u, now)
  {
  }

  /** The `map` callback of `updateItem`. */
  function MergeWhereId(id: string, u: ItemUpdates, now: int): StorageItem -> StorageItem {
    (i: StorageItem) => if i.id == id then Merge(i, u, now) else i
  }

  /** The `map` callback of `increaseQuantity` and `decreaseQuantity`. */
  function SetQuantityWhereId(id: string, q: int, now: int): StorageItem -> StorageItem {
    (i: StorageItem) => if i.id == id then i.(quantity := q, lastUpdated := now) else i
  }

  /** `Math.max(0, quantity - amount)`: the decrease clamps at zero. */
  function DecreasedQuantity(quantity: int, amount: int): (r: int)
    ensures r >= 0 && r >= quantity - amount
    ensures r == quantity - amount || r == 0
  {
    if quantity - amount < 0 then 0 else quantity - amount
  }

  /** The details text of a quantity change: `{verb} {amount} {unit} ({before} → {after})`. */
  function QuantityDetails(verb: string, amount: int, unit: Unit, before: int, after: int): (r: string)
    ensures var head := verb + " " + IntToString(amount) + " " + UnitName(unit) + " (";
      |head| <= |r| && r[..|head|] == head
    ensures var tail := IntToString(before) + " \U{2192} " + IntToString(after) + ")";
      |tail| <= |r| && r[|r| - |tail|..] == tail
  {
    var head := verb + " " + IntToString(amount) + " " + UnitName(unit) + " (";
    var tail := IntToString(before) + " \U{2192} " + IntToString(after) + ")";
    assert (head + tail)[..|head|] == head && (head + tail)[|head|..] == tail;
    head + tail
  }

  // ---------------------------------------------------------------------------
  // The six operations as steps on the two lists

  datatype Snapshot = Snapshot(items: seq<StorageItem>, activities: seq<ActivityLog>)

  /** `addItem`: append the new item and prepend one `added` entry. */
  function AddItemStep(s: Snapshot, fields: NewItem, now: int): (r: Snapshot)
    ensures |r.items| == |s.items| + 1 && r.items[..|s.items|] == s.items
    ensures var item := r.items[|s.items|];
      && Carries(item, fields) && item.id == IntToString(now)
      && item.addedAt == now && item.lastUpdated == now
    ensures |r.activities| == |s.activities| + 1 && r.activities[1..] == s.activities
    ensures var entry := r.activities[0];
      && entry.action == Added && entry.itemName == fields.name
      && entry.details == "Added " + IntToString(fields.quantity) + " " + UnitName(fields.unit) + " to " + fields.location
      && entry.employeeName == fields.addedBy && entry.id == IntToString(now + 1) && entry.timestamp == now
  {
    var item := Created(fields, now);
    var entry := ActivityLog(IntToString(now + 1), Added, item.name,
                             "Added " + IntToString(item.quantity) + " " + UnitName(item.unit) + " to " + item.location,
                             fields.addedBy, now);
    assert (s.items + [item])[..|s.items|] == s.items;
    Snapshot(s.items + [item], [entry] + s.activities)
  }

  /** `removeItem`: drop every item with `id`; log one `removed` entry when one existed. */
  function RemoveItemStep(s: Snapshot, id: string, now: int): (r: Snapshot)
    ensures FindById(s.items, id).None? ==> r == s
    ensures IsSubsequence(r.items, s.items)
    ensures forall k :: 0 <= k < |r.items| ==> r.items[k].id != id
    ensures forall k :: 0 <= k < |s.items| && s.items[k].id != id ==> s.items[k] in r.items
    ensures forall x :: multiset(r.items)[x] == if x.id != id then multiset(s.items)[x] else 0
    ensures FindById(s.items, id).Some? ==>
      var item := FindById(s.items, id).value;
      && |r.items| < |s.items|
      && |r.activities| == |s.activities| + 1 && r.activities[1..] == s.activities
      && r.activities[0].action == Removed && r.activities[0].itemName == item.name
      && r.activities[0].details == "Removed " + IntToString(item.quantity) + " " + UnitName(item.unit) + " from " + item.location
      && r.activities[0].employeeName == "Current User"
      && r.activities[0].id == IntToString(now) && r.activities[0].timestamp == now
  {
    var kept := Filter(KeepsOtherIds(id), s.items);
    FilterCounts(KeepsOtherIds(id), s.items);
    match IndexOfId(s.items, id)
    case None =>
      FilterAll(KeepsOtherIds(id), s.items);
      Snapshot(kept, s.activities)
    case Some(k) =>
      FilterDrops(KeepsOtherIds(id), s.items, k);
      var item := s.items[k];
      var entry := ActivityLog(IntToString(now), Removed, item.name,
                               "Removed " + IntToString(item.quantity) + " " + UnitName(item.unit) + " from " + item.location,
                               "Current User", now);
      Snapshot(kept, [entry] + s.activities)
  }

  /**
   * After `updateItem` merges the update, the entry is logged only if an item
   * with the old id is still there: the id existed and the update kept it.
   */
  ghost predicate UpdateIsLogged(items: seq<StorageItem>, id: string, u: ItemUpdates) {
    (exists k :: 0 <= k < |items| && items[k].id == id) && (u.id.None? || u.id == Some(id))
  }

  /** `updateItem`: merge `u` into every item with `id`; log one `updated` entry if the id survives. */
  function UpdateItemStep(s: Snapshot, id: string, u: ItemUpdates, now: int): (r: Snapshot)
    ensures |r.items| == |s.items|
    ensures forall k :: 0 <= k < |s.items| ==>
      r.items[k] == if s.items[k].id == id then Merge(s.items[k], u, now) else s.items[k]
    ensures !UpdateIsLogged(s.items, id, u) ==> r.activities == s.activities
    ensures UpdateIsLogged(s.items, id, u) ==>
      && |r.activities| == |s.activities| + 1 && r.activities[1..] == s.activities
      && r.activities[0].action == Updated
      && r.activities[0].itemName == u.name.GetOr(FindById(s.items, id).value.name)
      && r.activities[0].details == "Updated item details"
      && r.activities[0].employeeName == OrElse(u.addedBy.GetOr(""), "Unknown")
      && r.activities[0].id == IntToString(now) && r.activities[0].timestamp == now
  {
    var merged := Map(MergeWhereId(id, u, now), s.items);
    match FindById(merged, id)
    case None => Snapshot(merged, s.activities)
    case Some(item) =>
      assert item.name == u.name.GetOr(FindById(s.items, id).value.name) by {
        if u.id.None? || u.id == Some(id) {
          IndexOfIdSameIds(merged, s.items, id);
        }
      }
      var entry := ActivityLog(IntToString(now), Updated, item.name, "Updated item details",
                               OrElse(u.addedBy.GetOr(""), "Unknown"), now);
      Snapshot(merged, [entry] + s.activities)
  }

  /** `addActivity`: prepend the given entry with a fresh id and timestamp. */
  function AddActivityStep(s: Snapshot, a: NewActivity, now: int): (r: Snapshot)
    ensures r.items == s.items
    ensures |r.activities| == |s.activities| + 1 && r.activities[1..] == s.activities
    ensures r.activities[0].action == a.action && r.activities[0].itemName == a.itemName
    ensures r.activities[0].details == a.details && r.activities[0].employeeName == a.employeeName
    ensures r.activities[0].id == IntToString(now) && r.activities[0].timestamp == now
  {
    Snapshot(s.items, [ActivityLog(IntToString(now), a.action, a.itemName, a.details, a.employeeName, now)] + s.activities)
  }

  /**
   * `increaseQuantity`: every item with `id` gets the first such item's
   * quantity plus `amount`; one `updated` entry records the change.
   */
  function IncreaseStep(s: Snapshot, id: string, amount: int, who: string, now: int): (r: Snapshot)
    ensures FindById(s.items, id).None? ==> r == s
    ensures FindById(s.items, id).Some? ==>
      var item := FindById(s.items, id).value;
      var after := item.quantity + amount;
      && |r.items| == |s.items|
      && (forall k :: 0 <= k < |s.items| ==>
            r.items[k] == if s.items[k].id == id then s.items[k].(quantity := after, lastUpdated := now) else s.items[k])
      && r.activities == [ActivityLog(IntToString(now), Updated, item.name,
                                      QuantityDetails("Added", amount, item.unit, item.quantity, after), who, now)]
                         + s.activities
  {
    match FindById(s.items, id)
    case None => s
    case Some(item) =>
      var after := item.quantity + amount;
      var entry := ActivityLog(IntToString(now), Updated, item.name,
                               QuantityDetails("Added", amount, item.unit, item.quantity, after), who, now);
      Snapshot(Map(SetQuantityWhereId(id, after, now), s.items), [entry] + s.activities)
  }

  /**
   * `decreaseQuantity`: every item with `id` gets the first such item's
   * quantity minus `amount`, clamped at zero; the entry records the requested
   * amount even when the clamp applied.
   */
  function DecreaseStep(s: Snapshot, id: string, amount: int, who: string, now: int): (r: Snapshot)
    ensures FindById(s.items, id).None? ==> r == s
    ensures FindById(s.items, id).Some? ==>
      var item := FindById(s.items, id).value;
      var after := if item.quantity - amount < 0 then 0 else item.quantity - amount;
      && |r.items| == |s.items|
      && (forall k :: 0 <= k < |s.items| && s.items[k].id == id ==> r.items[k].quantity >= 0)
      && (forall k :: 0 <= k < |s.items| ==>
            r.items[k] == if s.items[k].id == id then s.items[k].(quantity := after, lastUpdated := now) else s.items[k])
      && r.activities == [ActivityLog(IntToString(now), Updated, item.name,
                                      QuantityDetails("Took", amount, item.unit, item.quantity, after), who, now)]
                         + s.activities
  {
    match FindById(s.items, id)
    case None => s
    case Some(item) =>
      var after := DecreasedQuantity(item.quantity, amount);
      var entry := ActivityLog(IntToString(now), Updated, item.name,
                               QuantityDetails("Took", amount, item.unit, item.quantity, after), who, now);
      Snapshot(Map(SetQuantityWhereId(id, after, now), s.items), [entry] + s.activities)
  }

  // ---------------------------------------------------------------------------
  // Properties relating the steps

  /**
   * Increasing and then decreasing by the same non-negative amount restores the
   * quantity of a non-negative item; only `lastUpdated` differs afterwards.
   */
  lemma IncreaseThenDecreaseRestores(s: Snapshot, id: string, amount: int, who: string, t1: int, t2: int)
    requires FindById(s.items, id).Some?
    requires amount >= 0 && FindById(s.items, id).value.quantity >= 0
    ensures var q := FindById(s.items, id).value.quantity;
      var r := DecreaseStep(IncreaseStep(s, id, amount, who, t1), id, amount, who, t2);
      && |r.items| == |s.items|
      && forall k :: 0 <= k < |s.items| ==>
           r.items[k] == if s.items[k].id == id then s.items[k].(quantity := q, lastUpdated := t2) else s.items[k]
  {
    var k0 := IndexOfId(s.items, id).value;
    var mid := IncreaseStep(s, id, amount, who, t1);
    IndexOfIdSameIds(mid.items, s.items, id);
    assert FindById(mid.items, id).value == mid.items[k0];
  }

  /** With unique ids, increasing then decreasing by the same amount gives back the same quantities. */
  lemma IncreaseThenDecreaseQuantities(s: Snapshot, id: string, amount: int, who: string, t1: int, t2: int)
    requires forall j, k :: 0 <= j < k < |s.items| ==> s.items[j].id != s.items[k].id
    requires amount >= 0 && NonNegative(s.items)
    ensures var r := DecreaseStep(IncreaseStep(s, id, amount, who, t1), id, amount, who, t2);
      |r.items| == |s.items| && forall k :: 0 <= k < |s.items| ==> r.items[k].quantity == s.items[k].quantity
  {
    if FindById(s.items, id).Some? {
      var k0 := IndexOfId(s.items, id).value;
      IncreaseThenDecreaseRestores(s, id, amount, who, t1, t2);
      var r := DecreaseStep(IncreaseStep(s, id, amount, who, t1), id, amount, who, t2);
      forall k | 0 <= k < |s.items| ensures r.items[k].quantity == s.items[k].quantity {
        if s.items[k].id == id {
          assert k == k0;
        }
      }
    }
  }

  /** Removing the id `addItem` just assigned undoes the addition, when no earlier item had that id. */
  lemma RemoveUndoesAdd(s: Snapshot, fields: NewItem, now: int, later: int)
    requires forall k :: 0 <= k < |s.items| ==> s.items[k].id != IntToString(now)
    ensures RemoveItemStep(AddItemStep(s, fields, now), IntToString(now), later).items == s.items
  {
    var p := KeepsOtherIds(IntToString(now));
    var added := AddItemStep(s, fields, now);
    assert added.items == s.items + [Created(fields, now)];
    FilterSnoc(p, s.items, Created(fields, now));
    FilterAll(p, s.items);
  }

  /** Items added at two different instants get different ids. */
  lemma AddedIdsDiffer(s1: Snapshot, f1: NewItem, t1: int, s2: Snapshot, f2: NewItem, t2: int)
    requires t1 != t2
    ensures AddItemStep(s1, f1, t1).items[|s1.items|].id != AddItemStep(s2, f2, t2).items[|s2.items|].id
  {
    IntToStringInjective(t1, t2);
  }

  /** No quantity is negative. */
  ghost predicate NonNegative(items: seq<StorageItem>) {
    forall k :: 0 <= k < |items| ==> items[k].quantity >= 0
  }

  /** A decrease never leaves a negative quantity behind. */
  lemma DecreaseKeepsNonNegative(s: Snapshot, id: string, amount: int, who: string, now: int)
    requires NonNegative(s.items)
    ensures NonNegative(DecreaseStep(s, id, amount, who, now).items)
  {
    var r := DecreaseStep(s, id, amount, who, now);
    forall k | 0 <= k < |r.items| ensures r.items[k].quantity >= 0 {
    }
  }

  /** An increase by a non-negative amount keeps quantities non-negative. */
  lemma IncreaseKeepsNonNegative(s: Snapshot, id: string, amount: int, who: string, now: int)
    requires NonNegative(s.items) && amount >= 0
    ensures NonNegative(IncreaseStep(s, id, amount, who, now).items)
  {
    var r := IncreaseStep(s, id, amount, who, now);
    forall k | 0 <= k < |r.items| ensures r.items[k].quantity >= 0 {
    }
  }

  /** Removing items keeps quantities non-negative. */
  lemma RemoveKeepsNonNegative(s: Snapshot, id: string, now: int)
    requires NonNegative(s.items)
    ensures NonNegative(RemoveItemStep(s, id, now).items)
  {
    var removed := RemoveItemStep(s, id, now).items;
    forall k | 0 <= k < |removed| ensures removed[k].quantity >= 0 {
      SubsequenceMembers(removed, s.items, removed[k]);
    }
  }

  // ---------------------------------------------------------------------------
  // The provider

  /** Local storage mirrors each non-empty list. */
  ghost predicate Mirrors(ls: Browser.LocalStorage<Document>, items: seq<StorageItem>, activities: seq<ActivityLog>) {
    && (|items| > 0 ==> LoadItems(ls) == items)
    && (|activities| > 0 ==> LoadActivities(ls) == activities)
  }

  class StorageProvider {
    var items: seq<StorageItem>
    var activities: seq<ActivityLog>
    var isInitialized: bool
    /** The part of the browser's local storage this provider reads and writes. */
    var local: Browser.LocalStorage<Document>

    /** Once initialised, a reload reads back every non-empty list (when writes succeed). */
    ghost predicate MirrorsWhenInitialized()
      reads this
    {
      isInitialized && !local.full ==> Mirrors(local, items, activities)
    }

    /** The two lists as a value. */
    function Current(): Snapshot
      reads this
    {
      Snapshot(items, activities)
    }

    /** The provider's first render: empty lists, not yet initialised. */
    constructor (browser: Browser.LocalStorage<Document>)
      ensures MirrorsWhenInitialized()
      ensures items == [] && activities == [] && !isInitialized && local == browser
    {
      items, activities, isInitialized, local := [], [], false, browser;
    }

    /** The two save effects, run at the end of every step. */
    method SaveEffects()
      modifies this`local
      ensures local == Persisted(old(local), isInitialized, items, activities)
      ensures MirrorsWhenInitialized()
    {
      local := Persisted(local, isInitialized, items, activities);
    }

    /** The mount effect: load both lists, seed and write back the empty ones, then mark initialised. */
    method Initialize()
      modifies this
      ensures isInitialized && MirrorsWhenInitialized()
      ensures items == InitialItems(old(local))
      ensures activities == InitialActivities(old(local))
      ensures local == Persisted(Seeded(old(local)), true, items, activities)
    {
      var storedItems := LoadItems(local);
      if |storedItems| == 0 {
        items := MockItems;
        local := Browser.Save(local, ItemsKey, ItemList(MockItems));
      } else {
        items := storedItems;
      }
      var storedActivities := LoadActivities(local);
      if |storedActivities| == 0 {
        activities := MockActivities;
        local := Browser.Save(local, ActivitiesKey, ActivityList(MockActivities));
      } else {
        activities := storedActivities;
      }
      isInitialized := true;
      SaveEffects();
    }

    /** `addItem`, then the save rules. */
    method AddItem(fields: NewItem, now: int)
      modifies this
      ensures Current() == AddItemStep(old(Current()), fields, now)
      ensures isInitialized == old(isInitialized) && MirrorsWhenInitialized()
      ensures local == Persisted(old(local), isInitialized, items, activities)
    {
      var next := AddItemStep(Current(), fields, now);
      items, activities := next.items, next.activities;
      SaveEffects();
    }

    /** `updateItem`, then the save rules. */
    method UpdateItem(id: string, updates: ItemUpdates, now: int)
      modifies this
      ensures Current() == UpdateItemStep(old(Current()), id, updates, now)
      ensures isInitialized == old(isInitialized) && MirrorsWhenInitialized()
      ensures local == Persisted(old(local), isInitialized, items, activities)
    {
      var next := UpdateItemStep(Current(), id, updates, now);
      items, activities := next.items, next.activities;
      SaveEffects();
    }

    /** `removeItem`, then the save rules. */
    method RemoveItem(id: string, now: int)
      modifies this
      ensures Current() == RemoveItemStep(old(Current()), id, now)
      ensures isInitialized == old(isInitialized) && MirrorsWhenInitialized()
      ensures local == Persisted(old(local), isInitialized, items, activities)
    {
      var next := RemoveItemStep(Current(), id, now);
      items, activities := next.items, next.activities;
      SaveEffects();
    }

    /** `addActivity`, then the save rules. */
    method AddActivity(entry: NewActivity, now: int)
      modifies this
      ensures Current() == AddActivityStep(old(Current()), entry, now)
      ensures isInitialized == old(isInitialized) && MirrorsWhenInitialized()
      ensures local == Persisted(old(local), isInitialized, items, activities)
    {
      var next := AddActivityStep(Current(), entry, now);
      items, activities := next.items, next.activities;
      SaveEffects();
    }

    /** `increaseQuantity`, then the save rules. */
    method IncreaseQuantity(id: string, amount: int, employeeName: string, now: int)
      modifies this
      ensures Current() == IncreaseStep(old(Current()), id, amount, employeeName, now)
      ensures isInitialized == old(isInitialized) && MirrorsWhenInitialized()
      ensures local == Persisted(old(local), isInitialized, items, activities)
    {
      var next := IncreaseStep(Current(), id, amount, employeeName, now);
      items, activities := next.items, next.activities;
      SaveEffects();
    }

    /** `decreaseQuantity`, then the save rules. */
    method DecreaseQuantity(id: string, amount: int, employeeName: string, now: int)
      modifies this
      ensures Current() == DecreaseStep(old(Current()), id, amount, employeeName, now)
      ensures isInitialized == old(isInitialized) && MirrorsWhenInitialized()
      ensures local == Persisted(old(local), isInitialized, items, activities)
    {
      var next := DecreaseStep(Current(), id, amount, employeeName, now);
      items, activities := next.items, next.activities;
      SaveEffects();
    }
  }

  /**
   * Removing the last item is never written back: the stored list still holds
   * the items that were there before, so a reload shows them again.
   */
  lemma EmptiedListIsNotWritten(ls: Browser.LocalStorage<Document>, s: Snapshot, id: string, now: int)
    requires Mirrors(ls, s.items, s.activities) && s.items != [] && !ls.full
    requires |RemoveItemStep(s, id, now).items| == 0
    ensures var r := RemoveItemStep(s, id, now);
      InitialItems(Persisted(ls, true, r.items, r.activities)) == s.items
  {
  }
}
