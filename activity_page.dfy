/**
 * The derived views of the activity page: the filtered feed (search, action
 * and relative-date filters), the relative-time bucket each entry shows, the
 * summary statistics and the per-action counts. All of them are recomputed
 * from the store's `activities` list and the current time `now` (milliseconds).
 */
module ActivityPage {
  import opened Seqs
  import opened Text
  import opened Storage
  import opened Dates

  /** The search: the lower-cased term occurs in the lower-cased item name, employee name or details. */
  function MatchesSearch(a: ActivityLog, searchTerm: string): (r: bool)
    ensures searchTerm == "" ==> r
    ensures r ==> exists f :: f in {a.itemName, a.employeeName, a.details} && Contains(ToLower(f), ToLower(searchTerm))
  {
    if searchTerm == "" then ContainsEmpty(ToLower(a.itemName)); true
    else
    || Contains(ToLower(a.itemName), ToLower(searchTerm))
    || Contains(ToLower(a.employeeName), ToLower(searchTerm))
    || Contains(ToLower(a.details), ToLower(searchTerm))
  }

  /** The action filter: `"all"`, or the exact name of the entry's action. */
  function MatchesAction(a: ActivityLog, actionFilter: string): (r: bool)
    ensures actionFilter == "all" ==> r
    ensures actionFilter != "all" && r ==> actionFilter in {"added", "updated", "removed", "moved"}
    ensures actionFilter != "all" && r ==> ActionName(a.action) == actionFilter
  {
    actionFilter == "all" || ActionName(a.action) == actionFilter
  }

  /** The date filter: `"today"`, `"week"` and `"month"` bound the day difference; anything else passes. */
  function MatchesDate(a: ActivityLog, dateFilter: string, now: int): (r: bool)
    ensures dateFilter == "today" ==> (r <==> now - a.timestamp <= MsPerDay)
    ensures dateFilter == "week" ==> (r <==> now - a.timestamp <= 7 * MsPerDay)
    ensures dateFilter == "month" ==> (r <==> now - a.timestamp <= 30 * MsPerDay)
    ensures dateFilter !in {"today", "week", "month"} ==> r
  {
    if dateFilter == "all" then true
    else
      var diffDays := DiffDays(now, a.timestamp);
      if dateFilter == "today" then diffDays <= 1
      else if dateFilter == "week" then diffDays <= 7
      else if dateFilter == "month" then diffDays <= 30
      else true
  }

  /** The three controls of the page. */
  datatype ActivityQuery = ActivityQuery(searchTerm: string, actionFilter: string, dateFilter: string)

  /** The `filter` callback of `filteredActivities`. */
  function ActivityMatches(q: ActivityQuery, now: int): ActivityLog -> bool {
    (a: ActivityLog) => MatchesSearch(a, q.searchTerm) && MatchesAction(a, q.actionFilter) && MatchesDate(a, q.dateFilter, now)
  }

  /** `filteredActivities`: the entries that pass all three filters, in feed order. */
  function FilteredActivities(activities: seq<ActivityLog>, q: ActivityQuery, now: int): (r: seq<ActivityLog>)
    ensures |r| <= |activities|
    ensures IsSubsequence(r, activities)
    ensures forall k :: 0 <= k < |r| ==>
      MatchesSearch(r[k], q.searchTerm) && MatchesAction(r[k], q.actionFilter) && MatchesDate(r[k], q.dateFilter, now)
    ensures forall k :: 0 <= k < |activities| ==>
      (MatchesSearch(activities[k], q.searchTerm) && MatchesAction(activities[k], q.actionFilter)
       && MatchesDate(activities[k], q.dateFilter, now)) ==> activities[k] in r
    ensures forall x :: multiset(r)[x] == if ActivityMatches(q, now)(x) then multiset(activities)[x] else 0
  {
    FilterCounts(ActivityMatches(q, now), activities);
    Filter(ActivityMatches(q, now), activities)
  }

  /** The search is a substring test: some field contains the term at some position, ignoring case. */
  lemma SearchIsSubstring(a: ActivityLog, searchTerm: string)
    ensures MatchesSearch(a, searchTerm) ==>
      exists i :: || OccursAt(ToLower(a.itemName), ToLower(searchTerm), i)
                  || OccursAt(ToLower(a.employeeName), ToLower(searchTerm), i)
                  || OccursAt(ToLower(a.details), ToLower(searchTerm), i)
    ensures (exists i :: || OccursAt(ToLower(a.itemName), ToLower(searchTerm), i)
                         || OccursAt(ToLower(a.employeeName), ToLower(searchTerm), i)
                         || OccursAt(ToLower(a.details), ToLower(searchTerm), i))
      ==> MatchesSearch(a, searchTerm)
  {
    ContainsIffOccurs(ToLower(a.itemName), ToLower(searchTerm));
    ContainsIffOccurs(ToLower(a.employeeName), ToLower(searchTerm));
    ContainsIffOccurs(ToLower(a.details), ToLower(searchTerm));
  }

  /** Searching for a term and for its lower-case form select the same entries. */
  lemma SearchIgnoresCase(a: ActivityLog, searchTerm: string)
    ensures MatchesSearch(a, searchTerm) == MatchesSearch(a, ToLower(searchTerm))
  {
    ToLowerIdempotent(searchTerm);
  }

  /** With the empty search and `"all"` in both selects, the whole feed is shown. */
  lemma DefaultQueryShowsAll(activities: seq<ActivityLog>, now: int)
    ensures FilteredActivities(activities, ActivityQuery("", "all", "all"), now) == activities
  {
    var p := ActivityMatches(ActivityQuery("", "all", "all"), now);
    forall k | 0 <= k < |activities| ensures p(activities[k]) {
      ContainsEmpty(ToLower(activities[k].itemName));
    }
    FilterAll(p, activities);
  }

  /** The date buckets nest: today's entries are among this week's, which are among this month's. */
  lemma DateBucketsNest(activities: seq<ActivityLog>, searchTerm: string, actionFilter: string, now: int)
    ensures IsSubsequence(FilteredActivities(activities, ActivityQuery(searchTerm, actionFilter, "today"), now),
                          FilteredActivities(activities, ActivityQuery(searchTerm, actionFilter, "week"), now))
    ensures IsSubsequence(FilteredActivities(activities, ActivityQuery(searchTerm, actionFilter, "week"), now),
                          FilteredActivities(activities, ActivityQuery(searchTerm, actionFilter, "month"), now))
    ensures IsSubsequence(FilteredActivities(activities, ActivityQuery(searchTerm, actionFilter, "month"), now),
                          FilteredActivities(activities, ActivityQuery(searchTerm, actionFilter, "all"), now))
  {
    var today := ActivityMatches(ActivityQuery(searchTerm, actionFilter, "today"), now);
    var week := ActivityMatches(ActivityQuery(searchTerm, actionFilter, "week"), now);
    var month := ActivityMatches(ActivityQuery(searchTerm, actionFilter, "month"), now);
    var all := ActivityMatches(ActivityQuery(searchTerm, actionFilter, "all"), now);
    FilterMonotone(today, week, activities);
    FilterMonotone(week, month, activities);
    FilterMonotone(month, all, activities);
  }

  /** What `formatTimestamp` shows: the first bucket that applies, in this order. */
  datatype Relative = MinutesAgo(minutes: int) | HoursAgo(hours: int) | Yesterday | DaysAgo(days: int) | OnDate(timestamp: int)

  /**
   * `formatTimestamp`: whole minutes below an hour, whole hours below a day,
   * "Yesterday" for one whole day, whole days below a week, else the date.
   */
  function FormatTimestamp(timestamp: int, now: int): (r: Relative)
    ensures var diff := now - timestamp;
      && (r.MinutesAgo? <==> diff < MsPerHour)
      && (r.HoursAgo? <==> MsPerHour <= diff < MsPerDay)
      && (r.Yesterday? <==> MsPerDay <= diff < 2 * MsPerDay)
      && (r.DaysAgo? <==> 2 * MsPerDay <= diff < 7 * MsPerDay)
      && (r.OnDate? <==> 7 * MsPerDay <= diff)
    ensures r.MinutesAgo? ==> r.minutes * MsPerMinute <= now - timestamp < (r.minutes + 1) * MsPerMinute
    ensures r.HoursAgo? ==> 1 <= r.hours < 24 && r.hours * MsPerHour <= now - timestamp < (r.hours + 1) * MsPerHour
    ensures r.DaysAgo? ==> 2 <= r.days < 7 && r.days * MsPerDay <= now - timestamp < (r.days + 1) * MsPerDay
    ensures r.OnDate? ==> r.timestamp == timestamp
  {
    var diffTime := now - timestamp;
    var diffDays := diffTime / MsPerDay;
    var diffHours := diffTime / MsPerHour;
    var diffMinutes := diffTime / MsPerMinute;
    if diffMinutes < 60 then MinutesAgo(diffMinutes)
    else if diffHours < 24 then HoursAgo(diffHours)
    else if diffDays == 1 then Yesterday
    else if diffDays < 7 then DaysAgo(diffDays)
    else OnDate(timestamp)
  }

  /** The statistics cards the page derives directly from the feed. */
  datatype ActivityStats = ActivityStats(total: int, thisWeek: int)

  /** The `filter` callback of the "this week" statistic. */
  function WithinWeek(now: int): ActivityLog -> bool {
    (a: ActivityLog) => DiffDays(now, a.timestamp) <= 7
  }

  /** `getActivityStats`: every entry, and those at most seven days old. */
  function GetActivityStats(activities: seq<ActivityLog>, now: int): (r: ActivityStats)
    ensures r.total == |activities|
    ensures 0 <= r.thisWeek <= r.total
    ensures r.thisWeek == |Filter(WithinWeek(now), activities)|
  {
    ActivityStats(|activities|, |Filter(WithinWeek(now), activities)|)
  }

  /** The "this week" card counts what the feed shows with the week filter and no other filter. */
  lemma WeekStatMatchesWeekFilter(activities: seq<ActivityLog>, now: int)
    ensures GetActivityStats(activities, now).thisWeek
         == |FilteredActivities(activities, ActivityQuery("", "all", "week"), now)|
  {
    var p := ActivityMatches(ActivityQuery("", "all", "week"), now);
    forall k | 0 <= k < |activities| ensures WithinWeek(now)(activities[k]) <==> p(activities[k]) {
      ContainsEmpty(ToLower(activities[k].itemName));
    }
    FilterAgree(WithinWeek(now), p, activities);
  }

  /** The `filter` callback of one per-action count. */
  function HasAction(action: Action): ActivityLog -> bool {
    (a: ActivityLog) => a.action == action
  }

  /** The count the summary shows for one action. */
  function ActionCount(activities: seq<ActivityLog>, action: Action): (r: nat)
    ensures r <= |activities|
    ensures r == 0 <==> forall k :: 0 <= k < |activities| ==> activities[k].action != action
  {
    var kept := Filter(HasAction(action), activities);
    if kept == [] then 0
    else
      assert HasAction(action)(kept[0]);
      SubsequenceMembers(kept, activities, kept[0]);
      |kept|
  }

  /** Every entry has one of the four actions, so the four counts add up to the feed's length. */
  lemma {:induction false} ActionCountsSum(activities: seq<ActivityLog>)
    ensures ActionCount(activities, Added) + ActionCount(activities, Updated)
          + ActionCount(activities, Removed) + ActionCount(activities, Moved) == |activities|
  {
    if activities != [] {
      ActionCountsSum(activities[1..]);
      ActionCountStep(activities, Added);
      ActionCountStep(activities, Updated);
      ActionCountStep(activities, Removed);
      ActionCountStep(activities, Moved);
    }
  }

  /** Counting one action: the first entry contributes one when it has that action. */
  lemma ActionCountStep(activities: seq<ActivityLog>, action: Action)
    requires activities != []
    ensures ActionCount(activities, action)
         == (if activities[0].action == action then 1 else 0) + ActionCount(activities[1..], action)
  {
  }

  /** A per-action count equals what the feed shows when filtered by that action alone. */
  lemma ActionCountMatchesActionFilter(activities: seq<ActivityLog>, action: Action, now: int)
    ensures ActionCount(activities, action)
         == |FilteredActivities(activities, ActivityQuery("", ActionName(action), "all"), now)|
  {
    var p := ActivityMatches(ActivityQuery("", ActionName(action), "all"), now);
    forall k | 0 <= k < |activities| ensures HasAction(action)(activities[k]) <==> p(activities[k]) {
      ContainsEmpty(ToLower(activities[k].itemName));
      assert ActionName(activities[k].action) == ActionName(action) ==> activities[k].action == action;
    }
    FilterAgree(HasAction(action), p, activities);
  }
}
