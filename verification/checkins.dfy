/** The mood-history route: the caller's entries of the last `days` days,
    newest first, with their count, mean, current streak of consecutive days
    with an entry, and per-day groups in date order.  Days are whole numbers
    (milliseconds divided by the length of a day). */
module CheckIns {
  import opened Common
  import opened Seqs
  import opened Sorting
  import opened Users
  import opened Auth

  const DAY_MS: int := 24 * 60 * 60 * 1000

  datatype MoodEntry = MoodEntry(
    id: string, userId: string, moodScore: int, notes: Option<string>, location: Option<string>, timestamp: int)

  /** The calendar day a timestamp falls on. */
  function DayOf(t: int): int {
    t / DAY_MS
  }

  /** Some entry falls on day `d`: `moodEntries.some(...)` for one day. */
  predicate HasEntryOn(entries: seq<MoodEntry>, d: int) {
    exists i :: 0 <= i < |entries| && DayOf(entries[i].timestamp) == d
  }

  /** Day `today - k` has an entry. */
  predicate HasEntryDaysBack(entries: seq<MoodEntry>, today: int, k: int) {
    HasEntryOn(entries, today - k)
  }

  // ---- streak ----

  /** The streak loop: count back from `today` while each day has an entry,
      but never past `days` days. */
  method Streak(entries: seq<MoodEntry>, today: int, days: int) returns (streak: nat)
    ensures streak <= days || streak == 0
    ensures forall k :: 0 <= k < streak ==> HasEntryDaysBack(entries, today, k)
    ensures streak < days ==> !HasEntryOn(entries, today - streak)
    ensures days > 0 && !HasEntryOn(entries, today) ==> streak == 0
  {
    streak := 0;
    while streak < days
      invariant streak <= days || streak == 0
      invariant forall k :: 0 <= k < streak ==> HasEntryDaysBack(entries, today, k)
      decreases days - streak
    {
      var found := false;
      var i := 0;
      while i < |entries|
        invariant 0 <= i <= |entries|
        invariant found <==> exists j :: 0 <= j < i && DayOf(entries[j].timestamp) == today - streak
      {
        if DayOf(entries[i].timestamp) == today - streak {
          found := true;
        }
        i := i + 1;
      }
      if found {
        streak := streak + 1;
      } else {
        break;
      }
    }
    if streak > 0 {
      assert HasEntryDaysBack(entries, today, 0);
    }
  }

  // ---- per-day groups ----

  /** The entries of one day: how many, and the sum of their scores. */
  datatype DayGroup = DayGroup(day: int, entryCount: nat, scoreSum: int)

  predicate StrictlyIncreasing(gs: seq<DayGroup>) {
    forall i, j :: 0 <= i < j < |gs| ==> gs[i].day < gs[j].day
  }

  function TotalCount(gs: seq<DayGroup>): nat {
    if gs == [] then 0 else gs[0].entryCount + TotalCount(gs[1..])
  }

  /** The number of entries on day `d`. */
  function EntriesOn(entries: seq<MoodEntry>, d: int): nat {
    if entries == [] then 0 else (if DayOf(entries[0].timestamp) == d then 1 else 0) + EntriesOn(entries[1..], d)
  }

  /** The count the groups record for day `d` (0 without a group). */
  function GroupCount(gs: seq<DayGroup>, d: int): nat {
    if gs == [] then 0 else (if gs[0].day == d then gs[0].entryCount else 0) + GroupCount(gs[1..], d)
  }

  /** The sum of the scores of day `d`. */
  function SumOn(entries: seq<MoodEntry>, d: int): int {
    if entries == [] then 0
    else (if DayOf(entries[0].timestamp) == d then entries[0].moodScore else 0) + SumOn(entries[1..], d)
  }

  /** The score sum the groups record for day `d` (0 without a group). */
  function GroupSum(gs: seq<DayGroup>, d: int): int {
    if gs == [] then 0 else (if gs[0].day == d then gs[0].scoreSum else 0) + GroupSum(gs[1..], d)
  }

  predicate NoEmptyGroup(gs: seq<DayGroup>) {
    forall i :: 0 <= i < |gs| ==> gs[i].entryCount > 0
  }

  /** `r` is `gs` with one more entry of score `score` on day `d`: still in
      date order, one more entry in total, day `d` counting one more entry
      and `score` more, every other day unchanged, and no group left empty. */
  ghost predicate AddsEntry(gs: seq<DayGroup>, r: seq<DayGroup>, d: int, score: int) {
    && StrictlyIncreasing(r)
    && TotalCount(r) == TotalCount(gs) + 1
    && (forall e :: GroupCount(r, e) == GroupCount(gs, e) + (if e == d then 1 else 0))
    && (forall e :: GroupSum(r, e) == GroupSum(gs, e) + (if e == d then score else 0))
    && (NoEmptyGroup(gs) ==> NoEmptyGroup(r))
  }

  /** Adds one score of day `d`, keeping the groups in date order. */
  function AddEntry(gs: seq<DayGroup>, d: int, score: int): (r: seq<DayGroup>)
    requires StrictlyIncreasing(gs)
    ensures AddsEntry(gs, r, d, score)
    ensures |r| > 0 && (r[0].day == d || (gs != [] && r[0].day == gs[0].day))
    decreases |gs|
  {
    if gs == [] || d < gs[0].day then
      NewDayFirst(gs, d, score);
      [DayGroup(d, 1, score)] + gs
    else if gs[0].day == d then
      BumpHead(gs, score);
      [gs[0].(entryCount := gs[0].entryCount + 1, scoreSum := gs[0].scoreSum + score)] + gs[1..]
    else
      var rest := AddEntry(gs[1..], d, score);
      KeepHead(gs, rest, d, score);
      [gs[0]] + rest
  }

  /** The case of AddEntry where day `d` comes before every group. */
  lemma NewDayFirst(gs: seq<DayGroup>, d: int, score: int)
    requires StrictlyIncreasing(gs)
    requires gs != [] ==> d < gs[0].day
    ensures AddsEntry(gs, [DayGroup(d, 1, score)] + gs, d, score)
  {
    NoGroupBefore(gs, d);
    ConsCounts(DayGroup(d, 1, score), gs);
    ConsNoEmpty(DayGroup(d, 1, score), gs);
    ConsOrdered(DayGroup(d, 1, score), gs);
  }

  /** The case of AddEntry where the first group is day `d`'s own. */
  lemma BumpHead(gs: seq<DayGroup>, score: int)
    requires gs != [] && StrictlyIncreasing(gs)
    ensures var g := gs[0].(entryCount := gs[0].entryCount + 1, scoreSum := gs[0].scoreSum + score);
      AddsEntry(gs, [g] + gs[1..], gs[0].day, score)
  {
    var g := gs[0].(entryCount := gs[0].entryCount + 1, scoreSum := gs[0].scoreSum + score);
    ConsCounts(g, gs[1..]);
    ConsNoEmpty(g, gs[1..]);
    ConsOrdered(g, gs[1..]);
  }

  /** The recursive case of AddEntry: a head before the new day is kept in
      front of the extended tail. */
  lemma KeepHead(gs: seq<DayGroup>, rest: seq<DayGroup>, d: int, score: int)
    requires gs != [] && gs[0].day < d && StrictlyIncreasing(gs)
    requires |rest| > 0 && (rest[0].day == d || (|gs| > 1 && rest[0].day == gs[1].day))
    requires AddsEntry(gs[1..], rest, d, score)
    ensures AddsEntry(gs, [gs[0]] + rest, d, score)
  {
    ConsCounts(gs[0], rest);
    ConsNoEmpty(gs[0], rest);
    ConsOrdered(gs[0], rest);
  }

  /** Putting a non-empty group in front keeps every group non-empty. */
  lemma ConsNoEmpty(g: DayGroup, rest: seq<DayGroup>)
    ensures g.entryCount > 0 && NoEmptyGroup(rest) ==> NoEmptyGroup([g] + rest)
  {
    if g.entryCount > 0 && NoEmptyGroup(rest) {
      forall i | 1 <= i < |rest| + 1 ensures ([g] + rest)[i].entryCount > 0 {
        assert ([g] + rest)[i] == rest[i - 1];
      }
    }
  }

  /** A group placed before an ordered list whose first day is later keeps it ordered. */
  lemma ConsOrdered(g: DayGroup, rest: seq<DayGroup>)
    requires StrictlyIncreasing(rest)
    requires rest != [] ==> g.day < rest[0].day
    ensures StrictlyIncreasing([g] + rest)
  {
    var r := [g] + rest;
    forall i | 1 <= i < |r| ensures g.day < r[i].day {
      assert r[i] == rest[i - 1];
      assert rest[0].day <= rest[i - 1].day;
    }
  }

  /** The counts of a group list headed by `g`. */
  lemma ConsCounts(g: DayGroup, rest: seq<DayGroup>)
    ensures TotalCount([g] + rest) == g.entryCount + TotalCount(rest)
    ensures forall e :: GroupCount([g] + rest, e) == (if g.day == e then g.entryCount else 0) + GroupCount(rest, e)
    ensures forall e :: GroupSum([g] + rest, e) == (if g.day == e then g.scoreSum else 0) + GroupSum(rest, e)
  {
    assert ([g] + rest)[1..] == rest;
  }

  lemma NoGroupBefore(gs: seq<DayGroup>, d: int)
    requires StrictlyIncreasing(gs)
    requires gs != [] ==> d < gs[0].day
    ensures GroupCount(gs, d) == 0 && GroupSum(gs, d) == 0
    decreases |gs|
  {
    if gs != [] {
      NoGroupBefore(gs[1..], d);
    }
  }

  /** `moodEntries.reduce(...)` into per-day groups, then sorted by date. */
  function GroupByDay(entries: seq<MoodEntry>): (r: seq<DayGroup>)
    ensures StrictlyIncreasing(r)
    ensures NoEmptyGroup(r)
  {
    if entries == [] then [] else AddEntry(GroupByDay(entries[1..]), DayOf(entries[0].timestamp), entries[0].moodScore)
  }

  /** Every entry is counted in exactly one group: the group counts add up to
      the number of entries, and each day's count and score sum are that
      day's entries and their scores. */
  lemma {:induction false} GroupsCountEveryEntry(entries: seq<MoodEntry>)
    ensures TotalCount(GroupByDay(entries)) == |entries|
    ensures forall d :: GroupCount(GroupByDay(entries), d) == EntriesOn(entries, d)
    ensures forall d :: GroupSum(GroupByDay(entries), d) == SumOn(entries, d)
  {
    if entries != [] {
      GroupsCountEveryEntry(entries[1..]);
    }
  }

  /** In date order, a group is the only one of its day. */
  lemma {:induction false} GroupIsItsDay(gs: seq<DayGroup>, i: int)
    requires StrictlyIncreasing(gs) && 0 <= i < |gs|
    ensures GroupCount(gs, gs[i].day) == gs[i].entryCount
    ensures GroupSum(gs, gs[i].day) == gs[i].scoreSum
  {
    if i == 0 {
      NoGroupBefore(gs[1..], gs[0].day);
    } else {
      assert gs[i] == gs[1..][i - 1];
      GroupIsItsDay(gs[1..], i - 1);
    }
  }

  /** Each reported day holds at least one entry, and its count and score sum
      are exactly that day's entries, so `scoreSum / entryCount` is the mean
      mood of the day. */
  lemma DailyGroupIsMeanOfDay(entries: seq<MoodEntry>, i: int)
    requires 0 <= i < |GroupByDay(entries)|
    ensures var g := GroupByDay(entries)[i];
      && g.entryCount > 0
      && g.entryCount == EntriesOn(entries, g.day)
      && g.scoreSum == SumOn(entries, g.day)
  {
    GroupsCountEveryEntry(entries);
    GroupIsItsDay(GroupByDay(entries), i);
  }

  // ---- the route ----

  datatype HistoryReport = HistoryReport(
    history: seq<MoodEntry>, totalEntries: nat, averageMood: real, streak: nat, period: int, dailyAverages: seq<DayGroup>)

  predicate NewerEntryFirst(a: MoodEntry, b: MoodEntry) {
    a.timestamp >= b.timestamp
  }

  function SumScores(entries: seq<MoodEntry>): int {
    if entries == [] then 0 else entries[0].moodScore + SumScores(entries[1..])
  }

  /** The caller's entries since `days` days before `now`. */
  predicate InWindow(caller: User, days: int, now: int, e: MoodEntry) {
    e.userId == caller.id && e.timestamp >= now - days * DAY_MS
  }

  /** The caller's entries in the window, newest first. */
  function WindowEntries(caller: User, entries: seq<MoodEntry>, days: int, now: int): (h: seq<MoodEntry>)
    ensures multiset(h) == multiset(Filter(entries, (e: MoodEntry) => InWindow(caller, days, now, e)))
    ensures forall i, j :: 0 <= i < j < |h| ==> h[i].timestamp >= h[j].timestamp
  {
    var mine := Filter(entries, (e: MoodEntry) => InWindow(caller, days, now, e));
    assert TotalPreorder(NewerEntryFirst);
    SortBySorted(mine, NewerEntryFirst);
    SortBy(mine, NewerEntryFirst)
  }

  method GetHistory(caller: Result<User, AuthError>, entries: seq<MoodEntry>, days: int, now: int)
    returns (r: Reply<HistoryReport>)
    ensures caller.Failure? ==> r == UserGateReply(caller.error)
    ensures caller.Success? ==> r.Ok? && r.status == OK
    ensures r.Ok? ==>
      var h := r.value;
      && h.history == WindowEntries(caller.value, entries, days, now)
      && h.totalEntries == |h.history|
      && (h.totalEntries == 0 ==> h.averageMood == 0.0)
      && (h.totalEntries > 0 ==> h.averageMood == SumScores(h.history) as real / h.totalEntries as real)
      && h.period == days
      && (h.streak <= days || h.streak == 0)
      && (forall k :: 0 <= k < h.streak ==> HasEntryDaysBack(h.history, DayOf(now), k))
      && (h.streak < days ==> !HasEntryOn(h.history, DayOf(now) - h.streak))
      && StrictlyIncreasing(h.dailyAverages)
      && TotalCount(h.dailyAverages) == h.totalEntries
      && (forall d :: GroupCount(h.dailyAverages, d) == EntriesOn(h.history, d))
      && (forall d :: GroupSum(h.dailyAverages, d) == SumOn(h.history, d))
      && NoEmptyGroup(h.dailyAverages)
  {
    if caller.Failure? {
      return UserGateReply(caller.error);
    }
    var history := WindowEntries(caller.value, entries, days, now);
    var total := |history|;
    var average := if total > 0 then SumScores(history) as real / total as real else 0.0;
    var streak := Streak(history, DayOf(now), days);
    var groups := GroupByDay(history);
    GroupsCountEveryEntry(history);
    return Ok(OK, HistoryReport(history, total, average, streak, days, groups));
  }
}
