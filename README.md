# Restaurant storage: a Dafny model

This project models the browser-side core of a restaurant inventory app. The
app is written in TypeScript with React and Next.js. The model covers five parts:

- **The inventory and activity store** (`StorageProvider`). It holds the
  `items` list and a newest-first `activities` log. Its six operations are
  `addItem`, `updateItem`, `removeItem`, `addActivity`, `increaseQuantity` and
  `decreaseQuantity`. It also has a one-time initialisation from local storage,
  which seeds mock data, and two save rules that write the lists back.
- **The session holder** (`AuthProvider`). It holds a credential list, the
  current user and an `isLoading` flag. Its operations are the mount check,
  `login`, `register` and `logout`.
- **The activity page**: the search, action and date filters; the
  relative-time bucket of each entry; the statistics; and the per-action counts.
- **The two inventory pages**:
  - the item filter;
  - the add-item guards;
  - the "expiring soon" rule and the summary counts;
  - grouping by category;
  - the stock dialogs' guards and previews;
  - the category headings.
- **The request guard** (`middleware`). It either lets a request through or
  redirects it to `/login`.

## How the model is built

- **Store.** Each store operation is a pure step function on a `Snapshot` of
  the two lists, because the source builds each new list with spread, `map`,
  `filter` and `find`. The class `Storage.StorageProvider` applies a step and
  then runs the two save rules.
- **Session holder.** `Auth.AuthProvider` is a class whose methods update
  its fields in place, as the source's `register` pushes onto the module-level
  `mockUsers` array.
- **Local storage** is a map from keys to slots (`Browser.LocalStorage`).
  - A slot holds parsed JSON, a blank string, or text that `JSON.parse`
    rejects.
  - A `full` flag stands for a store whose writes throw.
- **Time** is passed in as `now`, in milliseconds.
  - Every date is an integer of milliseconds.
  - An id is the decimal text of a clock reading, as `Date.now().toString()`
    makes it.
- **`groupedItems`** is a method with a loop, because the source's `reduce`
  pushes into an accumulator record. Groups come out in the order their
  categories first occur, which is the order of the record's keys.

### Behaviour of the code that the model keeps

- **Session holder errors.** `my-app/lib/auth.tsx:46-53` has no `try`/`catch`
  around `JSON.parse`, and `login` and `register` call `setItem` unguarded.
  - A stored user that `JSON.parse` rejects makes the mount check throw, and
    `isLoading` then stays true (`Auth.AuthProvider.Mount`).
  - A `setItem` that throws rejects the promise of `login` or `register`
    (`Outcome.Rejected`). The current user has already been set by then.
- **Taking more than is in stock.** `handleTakeSubmit`
  (`restaurant-storage-2/app/storage/page.tsx:141-149`) returns early only
  when no item is selected or the amount is not positive. It refuses nothing
  beyond that. Only the disabled Take button refuses larger amounts, and the
  store then clamps the quantity at zero
  (`GroupedStoragePage.QuantitySubmit`, `GroupedStoragePage.TakeDisabled`).

## Model

| member | source | states |
|---|---|---|
| Storage.StorageProvider.Initialize | my-app/lib/storage.tsx:139-166 | Each list is the stored one when that is non-empty and the mock list otherwise; an empty key is written back with the mock list; the store is then initialised and local storage mirrors both lists |
| Storage.StorageProvider.SaveEffects | my-app/lib/storage.tsx:168-184 | Local storage becomes the result of the two save rules, and mirrors the lists once initialised |
| Storage.Persisted | my-app/lib/storage.tsx:168-184 | A list is written only when the store is initialised and the list is non-empty; when writes fail, local storage is left exactly as it was; a list that is not written keeps its stored value |
| Storage.EmptiedListIsNotWritten | my-app/lib/storage.tsx:169 | When storage mirrors the lists and the last item is removed, a reload starts from the items that were there before the removal |
| Storage.InitialItems | my-app/lib/storage.tsx:141-153 | The starting items are never empty: the stored list if it has items, else the mock items |
| Storage.InitialActivities | my-app/lib/storage.tsx:142-160 | The starting activities are never empty: the stored list if it has entries, else the mock entries |
| Storage.UnreadableStorageSeedsMocks | my-app/lib/storage.tsx:112-122 | A missing, blank or unparseable key loads the fallback, so the store starts from the mock data and writes it back |
| Browser.Load | my-app/lib/storage.tsx:112-122 | A parsed slot gives its value; a missing key, the empty string or text that does not parse gives the fallback |
| Browser.SetItem | my-app/lib/auth.tsx:60 | `setItem` fails exactly when the store is full; otherwise only the key changes, to the written value |
| Browser.RemoveItem | my-app/lib/auth.tsx:89 | The key is gone and every other key keeps its slot |
| Storage.LoadItems | my-app/lib/storage.tsx:141 | The stored item list when the items key holds one; the empty list for a missing, blank or unparseable key |
| Storage.LoadActivities | my-app/lib/storage.tsx:142-145 | The stored activity list when the activities key holds one; the empty list for a missing, blank or unparseable key |
| Storage.Seeded | my-app/lib/storage.tsx:147-160 | When writes succeed, local storage afterwards reads back the lists the store starts with; when they fail it is unchanged; keys other than the two lists are untouched |
| Browser.Save | my-app/lib/storage.tsx:124-132 | A save writes the data under its key and touches no other key; when the write throws, the error is swallowed and nothing changes |
| Browser.SaveLoadRoundTrip | my-app/lib/storage.tsx:112-132 | A successful save followed by a load of the same key gives back the saved data |
| Browser.LoadOtherKey | my-app/lib/storage.tsx:112-132 | Saving under one key does not change what another key loads |
| Storage.StorageProvider.constructor | my-app/lib/storage.tsx:135-137 | The provider starts with no items, no activities, not initialised, over the given local storage |
| Storage.QuantityDetails | my-app/lib/storage.tsx:278 | The details text of a quantity change starts with the verb, the amount and the unit, and ends with "({before} → {after})" |
| Storage.IndexOfId | my-app/lib/storage.tsx:220 | The position of the first item with the id, or none exactly when no item has it |
| Storage.FindById | my-app/lib/storage.tsx:220 | The first item with the id, or none exactly when no item has it |
| Storage.Merge | my-app/lib/storage.tsx:214 | Each field the update sets takes the update's value and each field it leaves out keeps the item's; `lastUpdated` is `now` even when the update sets it; an empty update only refreshes `lastUpdated` |
| Storage.MergeIdempotent | my-app/lib/storage.tsx:214 | Merging the same update twice gives what merging it once gives |
| Storage.AddItemStep | my-app/lib/storage.tsx:186-205 | Appends exactly one item that carries the given fields, has the id `now` and `addedAt == lastUpdated == now`, and keeps every earlier item; prepends one `added` entry "Added {quantity} {unit} to {location}" by `addedBy` |
| Storage.StorageProvider.AddItem | my-app/lib/storage.tsx:186-207 | The lists become `AddItemStep` of the old lists and the save rules run |
| Storage.RemoveItemStep | my-app/lib/storage.tsx:238-253 | An unknown id changes nothing; otherwise every item with the id is gone, every other item is kept in order with all its copies, and one `removed` entry "Removed {q} {unit} from {location}" by "Current User" is prepended |
| Storage.StorageProvider.RemoveItem | my-app/lib/storage.tsx:238-254 | The lists become `RemoveItemStep` of the old lists and the save rules run |
| Storage.UpdateItemStep | my-app/lib/storage.tsx:209-234 | Each item with the id is merged with the update and gets `lastUpdated = now`, and the others are unchanged; one "Updated item details" entry by `addedBy`, or by "Unknown", is logged exactly when the id exists and the update does not change it |
| Storage.StorageProvider.UpdateItem | my-app/lib/storage.tsx:209-236 | The lists become `UpdateItemStep` of the old lists and the save rules run |
| Storage.AddActivityStep | my-app/lib/storage.tsx:256-265 | Prepends the given entry with id and timestamp `now`; the items are unchanged |
| Storage.StorageProvider.AddActivity | my-app/lib/storage.tsx:256-266 | The lists become `AddActivityStep` of the old lists and the save rules run |
| Storage.IncreaseStep | my-app/lib/storage.tsx:268-297 | An unknown id changes nothing; otherwise each item with the id gets the old quantity plus the amount, the others are unchanged, and one entry "Added {amount} {unit} ({old} → {new})" is logged |
| Storage.StorageProvider.IncreaseQuantity | my-app/lib/storage.tsx:268-298 | The lists become `IncreaseStep` of the old lists and the save rules run |
| Storage.DecreasedQuantity | my-app/lib/storage.tsx:305 | The new quantity is never negative: the old quantity minus the amount, or zero when that would be negative |
| Storage.DecreaseStep | my-app/lib/storage.tsx:300-329 | An unknown id changes nothing; otherwise each item with the id gets the clamped quantity, the others are unchanged, and the entry "Took {amount} {unit} ({old} → {new})" records the requested amount even when the clamp applied |
| Storage.StorageProvider.DecreaseQuantity | my-app/lib/storage.tsx:300-330 | The lists become `DecreaseStep` of the old lists and the save rules run |
| Storage.IncreaseThenDecreaseRestores | my-app/lib/storage.tsx:273-305 | Increasing and then decreasing a non-negative item by the same non-negative amount restores its quantity |
| Storage.IncreaseThenDecreaseQuantities | my-app/lib/storage.tsx:273-305 | With unique ids and non-negative quantities, increase then decrease by the same amount leaves every quantity as it was |
| Storage.RemoveUndoesAdd | my-app/lib/storage.tsx:190-252 | Removing the id that `addItem` just assigned gives back the original item list |
| Storage.AddedIdsDiffer | my-app/lib/storage.tsx:190 | Items added at different instants get different ids |
| Storage.DecreaseKeepsNonNegative | my-app/lib/storage.tsx:305-324 | A decrease keeps all quantities non-negative |
| Storage.IncreaseKeepsNonNegative | my-app/lib/storage.tsx:273-292 | An increase by a non-negative amount keeps all quantities non-negative |
| Storage.RemoveKeepsNonNegative | my-app/lib/storage.tsx:252 | Removing items keeps all quantities non-negative |
| Auth.FindLogin | my-app/lib/auth.tsx:56 | The first credential matching both email and password, or none exactly when no credential matches |
| Auth.MockUsersDistinct | my-app/lib/auth.tsx:25-40 | The seed credentials have distinct emails |
| Auth.ManagerCanLogIn | my-app/lib/auth.tsx:25-40 | The manager's seed credential logs in as a manager |
| Auth.AuthProvider.constructor | my-app/lib/auth.tsx:43-44 | The provider starts with the seed credentials, no user, and `isLoading` true |
| Auth.AuthProvider.Mount | my-app/lib/auth.tsx:46-53 | A stored user becomes current and loading ends; a missing or blank entry keeps the user; an unparseable entry throws and loading does not end |
| Auth.AuthProvider.Login | my-app/lib/auth.tsx:55-64 | With no match, the result is false and nothing changes; with a match, the first match without its password becomes the user and is written to storage, and the result is true, or the promise rejects when the write throws |
| Auth.AuthProvider.Register | my-app/lib/auth.tsx:66-85 | A known email gives false and changes nothing; otherwise exactly one `employee` credential with the given email, password and name is appended and becomes the user; emails stay pairwise distinct |
| Auth.RegisterKeepsEmailsDistinct | my-app/lib/auth.tsx:68-80 | Appending a credential whose email is new keeps the emails pairwise distinct |
| Auth.LoginAfterRegister | my-app/lib/auth.tsx:56-80 | After a successful registration, the same email and password log in as the new credential |
| Auth.AuthProvider.Logout | my-app/lib/auth.tsx:87-90 | There is no current user, and the stored entry is removed |
| Auth.RegisterLogoutLogin | my-app/lib/auth.tsx:55-90 | A session that registers, logs out and logs back in ends logged in as the new employee |
| ActivityPage.FilteredActivities | my-app/app/activity/page.tsx:18-47 | The shown entries are a subsequence of the feed, in order, and no more than the total; an entry is shown exactly when it passes the search, action and date filters, with all its copies |
| ActivityPage.MatchesSearch | my-app/app/activity/page.tsx:19-22 | The empty term matches every entry; a match means the lower-cased term occurs in one of the three fields |
| ActivityPage.MatchesAction | my-app/app/activity/page.tsx:24 | "all" matches every entry; any other filter matches only entries whose action has that name, so an unknown name matches nothing |
| ActivityPage.SearchIsSubstring | my-app/app/activity/page.tsx:19-22 | An entry passes the search exactly when the lower-cased term occurs at some position in the lower-cased item name, employee name or details |
| ActivityPage.SearchIgnoresCase | my-app/app/activity/page.tsx:19-22 | A term and its lower-case form select the same entries |
| ActivityPage.DefaultQueryShowsAll | my-app/app/activity/page.tsx:18-47 | The empty term with "all" in both selects shows the whole feed |
| ActivityPage.MatchesDate | my-app/app/activity/page.tsx:26-44 | "today", "week" and "month" pass exactly the entries at most 1, 7 and 30 days old (the rounded-up day difference), and any other filter passes everything |
| Dates.CeilDiv | my-app/app/activity/page.tsx:31 | `Math.ceil(x / d)`, bounded on both sides |
| Dates.DiffDays | my-app/app/activity/page.tsx:30-31 | The rounded-up day difference is at most `k` exactly when the instants are at most `k` days apart |
| ActivityPage.DateBucketsNest | my-app/app/activity/page.tsx:26-44 | Today's entries are among this week's, which are among this month's, which are among all |
| ActivityPage.FormatTimestamp | my-app/app/activity/page.tsx:79-98 | The label is minutes below an hour, hours below a day, "Yesterday" for one whole day, days below a week, and otherwise the date; each count is the whole number of units elapsed |
| ActivityPage.GetActivityStats | my-app/app/activity/page.tsx:100-119 | `total` is the feed's length, and `thisWeek` counts the entries at most seven days old, so it is at most `total` |
| ActivityPage.WeekStatMatchesWeekFilter | my-app/app/activity/page.tsx:107-112 | The "this week" card equals the count the feed shows with only the week filter |
| ActivityPage.ActionCount | my-app/app/activity/page.tsx:280 | A per-action count is at most the total, and zero exactly when no entry has that action |
| ActivityPage.ActionCountsSum | my-app/app/activity/page.tsx:279-280 | The four per-action counts add up to the feed's length |
| ActivityPage.ActionCountMatchesActionFilter | my-app/app/activity/page.tsx:24 | A per-action count equals what the feed shows when filtered by that action alone |
| StoragePage.ItemMatches | my-app/app/storage/page.tsx:41-43 | A match means the lower-cased name contains the lower-cased term; with an empty term, an item matches exactly when the filter is "all" or its category |
| StoragePage.FilteredItems | my-app/app/storage/page.tsx:40-44 | The shown items are a subsequence of the inventory; an item is shown, with all its copies, exactly when its lower-cased name contains the lower-cased term and the filter is "all" or its category |
| StoragePage.DefaultFilterShowsAll | my-app/app/storage/page.tsx:40-44 | The empty term with "all" shows exactly the inventory |
| StoragePage.UnknownCategoryShowsNothing | my-app/app/storage/page.tsx:42 | A category filter that names no category shows nothing |
| StoragePage.AddedBy | my-app/app/storage/page.tsx:51 | The user's name when there is a user with a non-empty name, else "Unknown" |
| StoragePage.HandleAddItem | my-app/app/storage/page.tsx:46-52 | `addItem` is called exactly when name, location and expiration date are all non-empty, with the form's fields and `addedBy` from the user |
| StoragePage.SubmittedFormIsStored | my-app/app/storage/page.tsx:46-52 | A submitted form becomes the last item, credited to the user in both the item and its entry |
| StoragePage.IsExpiringSoon | my-app/app/storage/page.tsx:77-83 | True exactly when the date is valid and at most three days ahead (rounded up), which includes dates already past |
| StoragePage.ExpiredIsExpiringSoon | my-app/app/storage/page.tsx:77-83 | An expired item counts as expiring soon |
| StoragePage.ExpiringCount | my-app/app/storage/page.tsx:236 | The expiring count is at most the number of items |
| StoragePage.UndatedItemsNotExpiring | my-app/app/storage/page.tsx:77-83 | Items without a valid date are never counted as expiring |
| StoragePage.Categories | my-app/app/storage/page.tsx:247 | The set holds exactly the categories some item has |
| StoragePage.CategoryCount | my-app/app/storage/page.tsx:247 | The "Categories" card is at most the number of items and at most six, and zero exactly for an empty inventory |
| GroupedStoragePage.GroupIndex | restaurant-storage-2/app/storage/page.tsx:70-73 | The position of the first group for the category, or none exactly when no group has it |
| GroupedStoragePage.GroupItems | restaurant-storage-2/app/storage/page.tsx:68-75 | The groups partition the items by category: each group holds exactly its category's items in order, no group is empty, no category has two groups, every item's category has a group, and the sizes sum to the item count |
| GroupedStoragePage.OpenGroupKeepsPartition | restaurant-storage-2/app/storage/page.tsx:70-72 | Opening a group for the first item of a category keeps the partition |
| GroupedStoragePage.PushKeepsPartition | restaurant-storage-2/app/storage/page.tsx:73 | Pushing an item onto its category's group keeps the partition |
| GroupedStoragePage.ItemInOwnGroupOnly | restaurant-storage-2/app/storage/page.tsx:68-75 | An item is in a group exactly when the group is for its category |
| GroupedStoragePage.GroupedView | restaurant-storage-2/app/storage/page.tsx:59-75 | The groups partition the filtered items, which follow the same filter rule as the other page |
| GroupedStoragePage.SelectedCategoryGivesOneGroup | restaurant-storage-2/app/storage/page.tsx:59-75 | With one category selected, the view is empty or is that category's single group holding the whole filtered list |
| GroupedStoragePage.OneCategoryOneGroup | restaurant-storage-2/app/storage/page.tsx:68-75 | Items that all have one category form no group or that category's single group holding them all |
| GroupedStoragePage.HandleAddItem | restaurant-storage-2/app/storage/page.tsx:77-83 | `addItem` is called exactly when name and location are non-empty; the item has no expiration date |
| GroupedStoragePage.QuantitySubmit | restaurant-storage-2/app/storage/page.tsx:133-149 | `handleAddSubmit` and `handleTakeSubmit` call the store exactly when an item is selected and the amount is positive, for that item and credited to the user; an amount above the stock is not refused here |
| GroupedStoragePage.TakeDisabled | restaurant-storage-2/app/storage/page.tsx:523-525 | The Take button is enabled exactly for an amount from 1 to the selected stock |
| GroupedStoragePage.SelectedQuantity | restaurant-storage-2/app/storage/page.tsx:448 | The selected item's quantity, or zero when nothing is selected |
| GroupedStoragePage.AddPreview | restaurant-storage-2/app/storage/page.tsx:448 | The add preview is the selected quantity plus the amount, or the amount alone with no item selected |
| GroupedStoragePage.TakePreview | restaurant-storage-2/app/storage/page.tsx:503 | The take preview is never negative, and is the quantity the store's clamped decrease sets |
| GroupedStoragePage.EnabledTakeIsExact | restaurant-storage-2/app/storage/page.tsx:503-525 | When Take is enabled, the preview needs no clamp: it is the stock minus the amount |
| GroupedStoragePage.PreviewsMatchStore | restaurant-storage-2/app/storage/page.tsx:448-503 | Both previews announce the quantity the store then sets for the selected item |
| GroupedStoragePage.CategoryTitle | restaurant-storage-2/app/storage/page.tsx:109-119 | A known category gets a non-empty heading of its own; any other text is returned unchanged |
| GroupedStoragePage.CategoryTitlesDistinct | restaurant-storage-2/app/storage/page.tsx:109-119 | Different categories get different headings |
| Middleware.IsProtectedRoute | middleware.ts:9-12 | A path is protected exactly when it starts with one of the protected routes |
| Middleware.IsFromAuth | middleware.ts:20-21 | True exactly when there is a referer that contains "/login" or "/register" |
| Middleware.Decide | middleware.ts:4-33 | An unprotected path passes; a protected path passes exactly when it comes from an auth page; a redirect carries the requested path |
| Middleware.RedirectsExactly | middleware.ts:14-28 | A redirect happens exactly for a protected path without an auth referer |
| Middleware.ProtectionExtends | middleware.ts:12 | Any extension of a protected path is protected: it is a plain prefix test |
| Middleware.StorageFooIsProtected | middleware.ts:12 | `/storagefoo` is protected |
| Middleware.PublicPagesPass | middleware.ts:14-32 | `/`, `/login` and `/register` always pass |
| Middleware.UnmatchedPathsAreNotProtected | middleware.ts:35-45 | The paths the matcher excludes are never protected, so excluding them changes no decision |
| Text.ContainsIffOccurs | my-app/app/activity/page.tsx:20-22 | `includes` holds exactly when the term occurs at some position |
| Seqs.FilterCounts | my-app/lib/storage.tsx:252 | A filter keeps every copy of an element that passes and no copy of one that fails |
| Text.ToLower | my-app/app/activity/page.tsx:20-22 | Lower-casing keeps the length and lower-cases each character in place |
| Text.ToLowerIdempotent | my-app/app/activity/page.tsx:20-22 | Lower-casing an already lower-cased text changes nothing |
| Text.OrElse | my-app/lib/storage.tsx:227 | `s || fallback` is `s` or the fallback, and the fallback exactly when `s` is empty or already the fallback |
| Text.IntToStringRoundTrip | my-app/lib/storage.tsx:190 | The decimal text of a number parses back to that number |

## Left out

- Rendering, styling helpers (`getCategoryColor`, icons), dialogs and form
  widget state. These are user interface only.
- React context, hooks and re-rendering.
  - Each store operation is one atomic step. When `updateItem` looks up its
    entry, the step uses the already merged list.
  - The 100 ms save debounce and its `clearTimeout` coalescing are timing
    only. The save rules run at the end of every step instead.
- The server-side guard (`typeof window === "undefined"`) in the load and save
  helpers. The model always runs in the browser.
- One browser store shared by both providers. Each provider holds its own
  `Browser.LocalStorage`, one for the two store lists and one for the user
  entry. The browser's single key space and single quota are therefore
  split in two: a full store for one provider says nothing about the other.
- A `getItem` that throws, as it does when storage is disabled. The store
  would fall back to the mock data, and the session mount would throw.
  `Browser.LocalStorage.full` stands only for a `setItem` that throws.
- `JSON.parse` and `JSON.stringify`, and the shape of parsed data.
  - A slot holds either a parsed document or text that does not parse.
  - Parsed JSON of the wrong shape is left out. In the model, a stored
    document of the wrong kind reads as an empty list, so the mock data is
    used. In the source, a parsed `{}` has no `length`, fails the `=== 0` test
    and becomes the list, and a parsed `null` makes the `length` read throw.
    For the session, wrong-shape data is not modelled.
  - `console.error` is dropped.
- Date parsing and locale formatting.
  - Dates are integers of milliseconds.
  - An unparseable expiration date is `None`, so it never counts as expiring.
  - The absolute date text (`toLocaleDateString`) and the "N minutes ago"
    wording are not modelled; `ActivityPage.FormatTimestamp` returns which
    bucket applies and its count.
  - Timestamps are stored as milliseconds, not as ISO text.
- The "today" statistic of the activity page
  (`my-app/app/activity/page.tsx:101-105`). It compares `toDateString()` in
  the local time zone.
- Floating-point quantities and amounts. `Number(...)` of form text can give
  fractions or `NaN`; quantities and amounts are integers here.
- `toLowerCase` beyond ASCII. `Text.ToLower` folds only `A`-`Z`.
- One clock reading per operation. Where the source calls `Date.now()` and
  `new Date()` more than once in an operation, all calls read the same `now`.
  `addItem`'s entry id is `now + 1`, as in the source.
- Storage.StorageProvider: the provider's list operations are stated through
  the `Snapshot` step functions. A caller therefore sees the lists after all
  of the operation's nested `setItems`/`setActivities` updaters have run.
- Auth.AuthProvider: each provider has its own copy of the seed credentials.
  In the source, all providers in one page share the module-level `mockUsers`
  array.
- GroupedStoragePage.CategoryTitle: inherited object keys such as
  `"constructor"` would look up a function in the source. They are treated as
  unknown categories here.
- `next/navigation` routing, `NextResponse` and `URL` construction, and the
  query-string encoding of the redirect. `Middleware.Decision` carries the
  path as given.
- my-app/components/protected-layout.tsx is not part of this model. It is a
  UI component whose redirect lives in a router effect.
- restaurant-storage-2/app/page.tsx is not part of this model. It is a static
  landing page.
- my-app/middleware.ts is not part of this model. It passes every request
  through.
- The source's two app copies disagree about `expirationDate`: one page
  always sets it, the other never does. It is optional in the model, rather
  than merging the two behaviours.
