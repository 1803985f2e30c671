/** The admin crisis-intervention console: the query it sends, the priority
    badge colour, the "time ago" label, the Resolve/Reopen choice and the
    contact buttons.  The clock is a parameter. */
module CrisisWorkflow {
  import opened Common
  import opened Text
  import opened JsonValues
  import opened Users
  import opened Auth
  import opened Validations
  import opened Priority
  import opened Redaction
  import opened CrisisAlerts

  // ---- the listing query ----

  const CONSOLE_PAGE: int := 1
  const CONSOLE_LIMIT: int := 50

  /** The `status` query parameter for the selected tab: "all" sends none. */
  function StatusParam(selected: string): (r: Option<string>)
    ensures r.None? <==> selected == "all"
    ensures r.Some? ==> r.value == selected
  {
    if selected == "all" then None else Some(selected)
  }

  /** The tab the console selects is the filter the server applies. */
  lemma SelectedTabFilter(selected: string)
    ensures ParseStatusFilter(StatusParam(selected))
         == if selected == "active" then ActiveOnly
            else if selected == "resolved" then ResolvedOnly
            else AllAlerts
  {
  }

  /** What the console shows for a tab: the first 50 listed alerts, and on the
      "active" tab only unresolved ones. */
  lemma ConsoleShowsSelectedTab(admin: User, alerts: seq<Alert>, users: seq<User>, selected: string, now: int)
    ensures var r := ListAlerts(Success(admin), alerts, users, StatusParam(selected), CONSOLE_PAGE, CONSOLE_LIMIT, now);
      && r.Ok?
      && |r.value.alerts| <= CONSOLE_LIMIT
      && (selected == "active" ==> forall i :: 0 <= i < |r.value.alerts| ==> !r.value.alerts[i].isResolved)
      && (selected == "resolved" ==> forall i :: 0 <= i < |r.value.alerts| ==> r.value.alerts[i].isResolved)
  {
    SelectedTabFilter(selected);
  }

  // ---- the priority badge ----

  const GRAY_BADGE: string := "bg-gray-500 text-white"

  /** `getPriorityColor`: a colour for each known priority name, gray otherwise. */
  function PriorityColor(priority: string): (r: string)
    ensures r != GRAY_BADGE <==> priority in {"critical", "high", "medium", "low"}
  {
    match priority
    case "critical" => "bg-red-600 text-white"
    case "high" => "bg-red-500 text-white"
    case "medium" => "bg-yellow-500 text-white"
    case "low" => "bg-green-500 text-white"
    case _ => GRAY_BADGE
  }

  /** Every priority the server sends gets its own colour, never the gray default. */
  lemma PriorityColorsDistinct(p: Priority, q: Priority)
    ensures PriorityColor(PriorityName(p)) != GRAY_BADGE
    ensures PriorityColor(PriorityName(p)) == PriorityColor(PriorityName(q)) <==> p == q
  {
  }

  // ---- the "time ago" label ----

  const MINUTE_MS: int := 60 * 1000
  const HOUR_MS: int := 60 * MINUTE_MS

  /** The largest whole unit of an elapsed time. */
  datatype Elapsed = DaysAgo(days: int) | HoursAgo(hours: int) | MinutesAgo(minutes: int)

  /** Whole minutes, then whole hours of those, then whole days of those,
      each by `Math.floor`; the first non-zero positive unit from the top wins. */
  function TimeElapsed(elapsed: int): (r: Elapsed)
    ensures r.DaysAgo? <==> elapsed >= DAY_MS
    ensures r.HoursAgo? <==> HOUR_MS <= elapsed < DAY_MS
    ensures r.DaysAgo? ==> r.days == elapsed / DAY_MS && r.days >= 1
    ensures r.HoursAgo? ==> r.hours == elapsed / HOUR_MS && 1 <= r.hours < 24
    ensures r.MinutesAgo? ==> r.minutes == elapsed / MINUTE_MS && r.minutes < 60
    ensures r.MinutesAgo? && elapsed >= 0 ==> r.minutes >= 0
  {
    var minutes := elapsed / MINUTE_MS;
    var hours := minutes / 60;
    var days := hours / 24;
    if days > 0 then DaysAgo(days)
    else if hours > 0 then HoursAgo(hours)
    else MinutesAgo(minutes)
  }

  function ElapsedLabel(e: Elapsed): string {
    match e
    case DaysAgo(d) => IntToString(d) + "d ago"
    case HoursAgo(h) => IntToString(h) + "h ago"
    case MinutesAgo(m) => IntToString(m) + "m ago"
  }

  /** `getTimeElapsed(timestamp)` at time `now`. */
  function GetTimeElapsed(now: int, timestamp: int): string {
    ElapsedLabel(TimeElapsed(now - timestamp))
  }

  /** The label reads back: its number, before the five-character unit
      suffix, is the whole count of the unit it names. */
  lemma {:induction false} LabelReadsBack(now: int, timestamp: int)
    ensures |GetTimeElapsed(now, timestamp)| > 5
    ensures var e := now - timestamp;
      var text := GetTimeElapsed(now, timestamp);
      var digits := text[..|text| - 5];
      && (forall i :: 0 <= i < |digits| ==> IsDigit(digits[i]) || (i == 0 && digits[0] == '-'))
      && SignedValue(digits) == (if e >= DAY_MS then e / DAY_MS else if e >= HOUR_MS then e / HOUR_MS else e / MINUTE_MS)
      && text[|text| - 5..] == (if e >= DAY_MS then "d ago" else if e >= HOUR_MS then "h ago" else "m ago")
  {
    var e := now - timestamp;
    var t := TimeElapsed(e);
    var n := match t case DaysAgo(d) => d case HoursAgo(h) => h case MinutesAgo(m) => m;
    var suffix := match t case DaysAgo(_) => "d ago" case HoursAgo(_) => "h ago" case MinutesAgo(_) => "m ago";
    var text := GetTimeElapsed(now, timestamp);
    assert text == IntToString(n) + suffix;
    assert text[..|text| - 5] == IntToString(n);
    assert text[|text| - 5..] == suffix;
    IntToStringValue(n);
    var digits := IntToString(n);
    if n < 0 {
      assert digits[1..] == NatToString(-n);
    }
  }

  // ---- resolve / reopen ----

  datatype AlertAction = Resolve | Reopen

  /** A resolved alert offers Reopen; an active one offers Resolve. */
  function ActionFor(isResolved: bool): (a: AlertAction)
    ensures a == Reopen <==> isResolved
  {
    if isResolved then Reopen else Resolve
  }

  /** `handleResolveAlert` / `handleReopenAlert`: the update request they send. */
  function ActionBody(alertId: string, a: AlertAction): (b: Json)
    ensures b == UpdateBody(alertId, a == Resolve)
  {
    match a
    case Resolve => UpdateBody(alertId, true)
    case Reopen => UpdateBody(alertId, false)
  }

  /** Pressing the button the console offers for a stored alert flips that
      alert's state and nothing else, and the store stays consistent. */
  lemma {:induction false} OfferedActionFlipsAlert(admin: User, alerts: seq<Alert>, users: seq<User>, k: nat, now: int, t: int)
    requires StoreInvariant(alerts) && k < |alerts| && IsUuid(alerts[k].id)
    ensures var v := ViewOf(alerts[k], users, now);
      var r := UpdateAlert(Success(admin), Some(ActionBody(v.id, ActionFor(v.isResolved))), alerts, t);
      && r.reply.Ok?
      && |r.store| == |alerts|
      && r.store[k].isResolved == !alerts[k].isResolved
      && (forall i :: 0 <= i < |alerts| && i != k ==> r.store[i] == alerts[i])
      && StoreInvariant(r.store)
  {
    var v := ViewOf(alerts[k], users, now);
    var body := ActionBody(v.id, ActionFor(v.isResolved));
    var r := UpdateAlert(Success(admin), Some(body), alerts, t);
    assert body.fields["alertId"].s == alerts[k].id;
    assert FindAlert(alerts, alerts[k].id).Some?;
    UpdateKeepsInvariant(Success(admin), Some(body), alerts, t);
  }

  // ---- contact buttons ----

  datatype ContactButtons = ContactButtons(mail: bool, call: bool)

  /** `reporter?.canContact && (reporter?.email && <Contact/>) <Call/>`; an
      empty email string is falsy. */
  function ContactButtonsFor(reporter: ReporterView): (b: ContactButtons)
    ensures b.mail ==> b.call
    ensures b.call <==> reporter.canContact
    ensures b.mail <==> reporter.canContact && Given(reporter.email)
  {
    ContactButtons(reporter.canContact && Given(reporter.email), reporter.canContact)
  }

  /** Through the reporter redaction: Call shows exactly for a linked reporter
      with a non-zero level below 50, Contact exactly for a non-zero level
      below 30 and a non-empty email. */
  lemma ContactFollowsAnonymity(user: Option<User>)
    ensures var b := ContactButtonsFor(RedactReporter(user));
      && (b.call <==> user.Some? && user.value.anonymityLevel != 0 && user.value.anonymityLevel < 50)
      && (b.mail <==> user.Some? && user.value.anonymityLevel != 0 && user.value.anonymityLevel < 30
                      && user.value.email != "")
  {
  }
}
