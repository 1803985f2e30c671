/** The admin crisis-alert route: the listing (GET) with its status filter,
    ordering, pagination, reporter redaction and statistics, and the
    resolve/reopen update (PATCH). */
module CrisisAlerts {
  import opened Common
  import opened Seqs
  import opened Sorting
  import opened Paging
  import opened JsonValues
  import opened Users
  import opened Auth
  import opened Validations
  import opened Priority
  import opened Redaction

  /** A stored crisis alert; times are milliseconds. */
  datatype Alert = Alert(
    id: string,
    userId: Option<string>,
    areaOfConcern: string,
    description: Option<string>,
    timestamp: int,
    isResolved: bool,
    resolvedAt: Option<int>)

  /** The store invariant: an alert carries a resolution time exactly when it
      is resolved. */
  predicate Consistent(a: Alert) {
    a.isResolved <==> a.resolvedAt.Some?
  }

  predicate AlertIdsUnique(alerts: seq<Alert>) {
    forall i, j :: 0 <= i < j < |alerts| ==> alerts[i].id != alerts[j].id
  }

  predicate StoreInvariant(alerts: seq<Alert>) {
    AlertIdsUnique(alerts) && forall i :: 0 <= i < |alerts| ==> Consistent(alerts[i])
  }

  const DAY_MS: int := 24 * 60 * 60 * 1000

  // ---- GET ----

  datatype StatusFilter = AllAlerts | ActiveOnly | ResolvedOnly

  /** The `status` query parameter: "resolved" and "active" select, anything
      else (or nothing) keeps every alert. */
  function ParseStatusFilter(status: Option<string>): (r: StatusFilter)
    ensures r == ResolvedOnly <==> status == Some("resolved")
    ensures r == ActiveOnly <==> status == Some("active")
  {
    if status == Some("resolved") then ResolvedOnly
    else if status == Some("active") then ActiveOnly
    else AllAlerts
  }

  predicate Selected(f: StatusFilter, a: Alert) {
    match f
    case AllAlerts => true
    case ActiveOnly => !a.isResolved
    case ResolvedOnly => a.isResolved
  }

  /** `orderBy: [{ isResolved: 'asc' }, { timestamp: 'desc' }]`. */
  predicate AlertBefore(a: Alert, b: Alert) {
    if a.isResolved != b.isResolved then !a.isResolved else a.timestamp >= b.timestamp
  }

  lemma AlertBeforeIsTotalPreorder()
    ensures TotalPreorder(AlertBefore)
  {
  }

  datatype AlertView = AlertView(
    id: string,
    areaOfConcern: string,
    description: Option<string>,
    timestamp: int,
    isResolved: bool,
    resolvedAt: Option<int>,
    reporter: ReporterView,
    priority: Priority,
    timeElapsed: int)

  /** The reporting user, through the alert's optional `user` relation. */
  function ReporterOf(a: Alert, users: seq<User>): Option<User> {
    if a.userId.None? then None else FindUser(users, a.userId.value)
  }

  /** One alert as the admin listing shows it: the alert's own fields, the
      reporter redacted by anonymity level, the derived priority and the age. */
  function ViewOf(a: Alert, users: seq<User>, now: int): (v: AlertView)
    ensures v.id == a.id && v.isResolved == a.isResolved && v.timestamp == a.timestamp
    ensures v.areaOfConcern == a.areaOfConcern && v.description == a.description && v.resolvedAt == a.resolvedAt
    ensures v.reporter == RedactReporter(ReporterOf(a, users))
    ensures v.priority == DeterminePriority(a.areaOfConcern, a.description)
    ensures v.timeElapsed == now - a.timestamp
  {
    AlertView(a.id, a.areaOfConcern, a.description, a.timestamp, a.isResolved, a.resolvedAt,
              RedactReporter(ReporterOf(a, users)), DeterminePriority(a.areaOfConcern, a.description),
              now - a.timestamp)
  }

  datatype Pagination = Pagination(page: int, limit: int, totalCount: nat, totalPages: nat)

  datatype AlertStats = AlertStats(total: nat, active: nat, resolved: nat, last24Hours: nat)

  datatype AlertListing = AlertListing(alerts: seq<AlertView>, pagination: Pagination, statistics: AlertStats)

  /** The selected alerts in listing order. */
  function Ordered(alerts: seq<Alert>, f: StatusFilter): seq<Alert> {
    SortBy(Filter(alerts, (a: Alert) => Selected(f, a)), AlertBefore)
  }

  function Statistics(alerts: seq<Alert>, totalCount: nat, now: int): (r: AlertStats)
    ensures r.total == totalCount
    ensures r.active == Count(alerts, (a: Alert) => !a.isResolved)
    ensures r.resolved == Count(alerts, (a: Alert) => a.isResolved)
    ensures r.active + r.resolved == |alerts|
    ensures r.last24Hours == Count(alerts, (a: Alert) => a.timestamp >= now - DAY_MS)
    ensures r.last24Hours <= |alerts|
  {
    CountComplement(alerts, (a: Alert) => !a.isResolved, (a: Alert) => a.isResolved);
    AlertStats(totalCount,
               Count(alerts, (a: Alert) => !a.isResolved),
               Count(alerts, (a: Alert) => a.isResolved),
               Count(alerts, (a: Alert) => a.timestamp >= now - DAY_MS))
  }

  /** The page of the selected alerts, in listing order, as admins see them. */
  function ListedViews(alerts: seq<Alert>, users: seq<User>, f: StatusFilter, page: int, limit: int, now: int)
    : (v: seq<AlertView>)
    requires page >= 1 && limit >= 1
    ensures |v| <= limit
    ensures forall i :: 0 <= i < |v| ==> if v[i].isResolved then f != ActiveOnly else f != ResolvedOnly
    ensures forall i, j :: 0 <= i < j < |v| ==>
      && (!v[i].isResolved || v[j].isResolved)
      && (v[i].isResolved == v[j].isResolved ==> v[i].timestamp >= v[j].timestamp)
    ensures |v| == |Page(Ordered(alerts, f), page, limit)|
    ensures forall i :: 0 <= i < |v| ==> v[i] == ViewOf(Page(Ordered(alerts, f), page, limit)[i], users, now)
  {
    var shown := Page(Ordered(alerts, f), page, limit);
    ShownSelectedAndSorted(alerts, f, page, limit);
    Map(shown, (a: Alert) => ViewOf(a, users, now))
  }

  lemma ShownSelectedAndSorted(alerts: seq<Alert>, f: StatusFilter, page: int, limit: int)
    requires page >= 1 && limit >= 1
    ensures var shown := Page(Ordered(alerts, f), page, limit);
      && (forall i :: 0 <= i < |shown| ==> Selected(f, shown[i]))
      && Sorted(shown, AlertBefore)
  {
    OrderedSorted(alerts, f);
    OrderedSelected(alerts, f);
    PageOfSorted(Ordered(alerts, f), page, limit, AlertBefore);
    var shown := Page(Ordered(alerts, f), page, limit);
    assert forall i :: 0 <= i < |shown| ==> shown[i] in shown;
  }

  lemma OrderedSorted(alerts: seq<Alert>, f: StatusFilter)
    ensures Sorted(Ordered(alerts, f), AlertBefore)
  {
    AlertBeforeIsTotalPreorder();
    SortBySorted(Filter(alerts, (a: Alert) => Selected(f, a)), AlertBefore);
  }

  function ListAlerts(
    admin: Result<User, AuthError>,
    alerts: seq<Alert>,
    users: seq<User>,
    status: Option<string>,
    page: int,
    limit: int,
    now: int): (r: Reply<AlertListing>)
    requires page >= 1 && limit >= 1
    ensures admin.Failure? ==> r == AuthReply(admin.error)
    ensures admin.Success? ==> r.Ok? && r.status == OK
    ensures r.Ok? ==>
      var f := ParseStatusFilter(status);
      var l := r.value;
      && l.pagination == Pagination(page, limit, Count(alerts, (a: Alert) => Selected(f, a)),
                                    CeilDiv(Count(alerts, (a: Alert) => Selected(f, a)), limit))
      && l.statistics.total == l.pagination.totalCount
      && l.statistics.active == Count(alerts, (a: Alert) => !a.isResolved)
      && l.statistics.resolved == Count(alerts, (a: Alert) => a.isResolved)
      && l.statistics.last24Hours == Count(alerts, (a: Alert) => a.timestamp >= now - DAY_MS)
      && l.alerts == ListedViews(alerts, users, f, page, limit, now)
  {
    match admin
    case Failure(e) => AuthReply(e)
    case Success(_) =>
      var f := ParseStatusFilter(status);
      var total := Count(alerts, (a: Alert) => Selected(f, a));
      Ok(OK, AlertListing(ListedViews(alerts, users, f, page, limit, now),
                          Pagination(page, limit, total, CeilDiv(total, limit)), Statistics(alerts, total, now)))
  }

  lemma OrderedSelected(alerts: seq<Alert>, f: StatusFilter)
    ensures forall a :: a in Ordered(alerts, f) ==> a in alerts && Selected(f, a)
  {
    SortByMembers(Filter(alerts, (a: Alert) => Selected(f, a)), AlertBefore);
  }

  /** Every selected alert is listed: it is shown, redacted, on some page
      within `totalPages`. */
  lemma EverySelectedAlertIsListed(
    admin: User, alerts: seq<Alert>, users: seq<User>, status: Option<string>, limit: int, now: int, a: Alert)
    requires limit >= 1
    requires a in alerts && Selected(ParseStatusFilter(status), a)
    ensures exists page :: (1 <= page <= CeilDiv(Count(alerts, (x: Alert) => Selected(ParseStatusFilter(status), x)), limit)
      && ViewOf(a, users, now) in ListAlerts(Success(admin), alerts, users, status, page, limit, now).value.alerts)
  {
    var f := ParseStatusFilter(status);
    var page, k := ListedOnSomePage(alerts, (x: Alert) => Selected(f, x), AlertBefore, limit, a);
    ViewListed(alerts, users, f, page, limit, now, k);
    assert ListAlerts(Success(admin), alerts, users, status, page, limit, now).value.alerts
        == ListedViews(alerts, users, f, page, limit, now);
  }

  /** Every alert of the listing shows its reporter as the anonymity level
      allows: the name hidden above 50, the email only below 30,
      contact only below 50 (level 0 counts as no level), and no
      identity at all for an alert without a reporter.  Its priority is the
      classification of its own text. */
  lemma ListedReportersRedacted(admin: User, alerts: seq<Alert>, users: seq<User>, status: Option<string>,
                                page: int, limit: int, now: int)
    requires page >= 1 && limit >= 1
    ensures var v := ListAlerts(Success(admin), alerts, users, status, page, limit, now).value.alerts;
      var shown := Page(Ordered(alerts, ParseStatusFilter(status)), page, limit);
      && |v| == |shown|
      && forall i :: 0 <= i < |v| ==>
        var u := ReporterOf(shown[i], users);
        && v[i].id == shown[i].id
        && (u.None? ==> v[i].reporter == ReporterView(None, ANONYMOUS, None, false))
        && (u.Some? && u.value.anonymityLevel > 50 ==> v[i].reporter.name == ANONYMOUS_STUDENT)
        && (v[i].reporter.email.Some? <==> u.Some? && u.value.anonymityLevel != 0 && u.value.anonymityLevel < 30)
        && (v[i].reporter.canContact <==> u.Some? && u.value.anonymityLevel != 0 && u.value.anonymityLevel < 50)
        && v[i].priority == DeterminePriority(shown[i].areaOfConcern, shown[i].description)
  {
    var f := ParseStatusFilter(status);
    var v := ListAlerts(Success(admin), alerts, users, status, page, limit, now).value.alerts;
    var shown := Page(Ordered(alerts, f), page, limit);
    assert v == ListedViews(alerts, users, f, page, limit, now);
    forall i | 0 <= i < |v|
      ensures var u := ReporterOf(shown[i], users);
        && v[i].id == shown[i].id
        && (u.None? ==> v[i].reporter == ReporterView(None, ANONYMOUS, None, false))
        && (u.Some? && u.value.anonymityLevel > 50 ==> v[i].reporter.name == ANONYMOUS_STUDENT)
        && (v[i].reporter.email.Some? <==> u.Some? && u.value.anonymityLevel != 0 && u.value.anonymityLevel < 30)
        && (v[i].reporter.canContact <==> u.Some? && u.value.anonymityLevel != 0 && u.value.anonymityLevel < 50)
        && v[i].priority == DeterminePriority(shown[i].areaOfConcern, shown[i].description)
    {
      ViewRedacted(shown[i], users, now);
    }
  }

  lemma ViewRedacted(a: Alert, users: seq<User>, now: int)
    ensures var u := ReporterOf(a, users);
      var v := ViewOf(a, users, now);
      && v.id == a.id
      && (u.None? ==> v.reporter == ReporterView(None, ANONYMOUS, None, false))
      && (u.Some? && u.value.anonymityLevel > 50 ==> v.reporter.name == ANONYMOUS_STUDENT)
      && (v.reporter.email.Some? <==> u.Some? && u.value.anonymityLevel != 0 && u.value.anonymityLevel < 30)
      && (v.reporter.canContact <==> u.Some? && u.value.anonymityLevel != 0 && u.value.anonymityLevel < 50)
      && v.priority == DeterminePriority(a.areaOfConcern, a.description)
  {
  }

  /** One more alert raises `last24Hours` by one exactly when it was
      reported within the last day. */
  lemma RecentCountOfAppended(alerts: seq<Alert>, a: Alert, total: nat, now: int)
    ensures Statistics(alerts + [a], total, now).last24Hours ==
      Statistics(alerts, total, now).last24Hours + (if a.timestamp >= now - DAY_MS then 1 else 0)
    ensures Statistics(alerts + [a], total, now).active ==
      Statistics(alerts, total, now).active + (if a.isResolved then 0 else 1)
  {
    FilterConcat(alerts, [a], (x: Alert) => x.timestamp >= now - DAY_MS);
    FilterConcat(alerts, [a], (x: Alert) => !x.isResolved);
  }

  lemma ViewListed(alerts: seq<Alert>, users: seq<User>, f: StatusFilter, page: int, limit: int, now: int, k: int)
    requires page >= 1 && limit >= 1
    requires 0 <= k < |Page(Ordered(alerts, f), page, limit)|
    ensures ViewOf(Page(Ordered(alerts, f), page, limit)[k], users, now) in ListedViews(alerts, users, f, page, limit, now)
  {
    var v := ListedViews(alerts, users, f, page, limit, now);
    assert v[k] == ViewOf(Page(Ordered(alerts, f), page, limit)[k], users, now);
  }

  /** The status filter and the statistics agree: an "active" listing counts
      the active alerts, a "resolved" one the resolved alerts, and an
      unfiltered one all of them. */
  lemma {:induction false} TotalMatchesStatistics(admin: User, alerts: seq<Alert>, users: seq<User>, status: Option<string>, page: int, limit: int, now: int)
    requires page >= 1 && limit >= 1
    ensures var s := ListAlerts(Success(admin), alerts, users, status, page, limit, now).value.statistics;
      && (status == Some("active") ==> s.total == s.active)
      && (status == Some("resolved") ==> s.total == s.resolved)
      && (status != Some("active") && status != Some("resolved") ==> s.total == s.active + s.resolved)
  {
    var f := ParseStatusFilter(status);
    match f
    case ActiveOnly => FilterSame(alerts, (a: Alert) => Selected(f, a), (a: Alert) => !a.isResolved);
    case ResolvedOnly => FilterSame(alerts, (a: Alert) => Selected(f, a), (a: Alert) => a.isResolved);
    case AllAlerts => FilterAll(alerts, (a: Alert) => Selected(f, a));
  }

  // ---- PATCH ----

  /** `updateAlertSchema`. */
  predicate UpdateValid(body: Json) {
    && body.JObj?
    && IsUuidValue(Get(body, "alertId"))
    && Get(body, "isResolved").Some? && Get(body, "isResolved").value.JBool?
    && OptionalString(Get(body, "resolvedBy"))
  }

  /** The body the admin console sends to resolve or reopen. */
  function UpdateBody(alertId: string, isResolved: bool): (b: Json)
    ensures UpdateValid(b) <==> IsUuid(alertId)
  {
    JObj(map["alertId" := JStr(alertId), "isResolved" := JBool(isResolved)])
  }

  /** Resolves (stamping `now`) or reopens (clearing the stamp) every alert with the id. */
  function SetResolved(alerts: seq<Alert>, id: string, isResolved: bool, now: int): (r: seq<Alert>)
    ensures |r| == |alerts|
    ensures forall i :: 0 <= i < |alerts| && alerts[i].id != id ==> r[i] == alerts[i]
    ensures forall i :: 0 <= i < |alerts| && alerts[i].id == id ==>
      r[i] == alerts[i].(isResolved := isResolved, resolvedAt := if isResolved then Some(now) else None)
  {
    UpdateWhere(alerts, (a: Alert) => a.id == id,
                (a: Alert) => a.(isResolved := isResolved, resolvedAt := if isResolved then Some(now) else None))
  }

  /** The alert with the id, if any: `findUnique`. */
  function FindAlert(alerts: seq<Alert>, id: string): (r: Option<nat>)
    ensures r.Some? ==> r.value < |alerts| && alerts[r.value].id == id
    ensures r.None? <==> forall i :: 0 <= i < |alerts| ==> alerts[i].id != id
  {
    FindFirst(alerts, (a: Alert) => a.id == id)
  }

  datatype ResolvedView = ResolvedView(
    id: string, areaOfConcern: string, description: Option<string>,
    isResolved: bool, resolvedAt: Option<int>, resolvedBy: string)

  datatype UpdateReply = UpdateReply(message: string, alert: ResolvedView)

  /** `body` is None when the request body is not JSON. */
  function UpdateAlert(admin: Result<User, AuthError>, body: Option<Json>, alerts: seq<Alert>, now: int)
    : (r: Outcome<UpdateReply, seq<Alert>>)
    ensures admin.Failure? ==> r.reply == AuthReply(admin.error)
    ensures admin.Success? && body.None? ==> r.reply == InternalError()
    ensures admin.Success? && body.Some? && !UpdateValid(body.value) ==> r.reply.Error? && r.reply.status == BAD_REQUEST
    ensures r.reply.Error? ==> r.store == alerts
    ensures r.reply.Ok? <==> admin.Success? && body.Some? && UpdateValid(body.value)
                             && FindAlert(alerts, body.value.fields["alertId"].s).Some?
    ensures r.reply.Ok? ==>
      var id := body.value.fields["alertId"].s;
      var flag := body.value.fields["isResolved"].b;
      && r.store == SetResolved(alerts, id, flag, now)
      && r.reply.status == OK
      && r.reply.value.alert.id == id
      && r.reply.value.alert.isResolved == flag
      && r.reply.value.alert.resolvedAt == (if flag then Some(now) else None)
      && r.reply.value.alert.resolvedBy == admin.value.fullName
      && r.reply.value.message == (if flag then "Crisis alert resolved successfully" else "Crisis alert reopened successfully")
  {
    if admin.Failure? then Outcome(AuthReply(admin.error), alerts)
    else if body.None? then Outcome(InternalError(), alerts)
    else if !UpdateValid(body.value) then Outcome(Error(BAD_REQUEST, "Validation failed"), alerts)
    else
      var id := body.value.fields["alertId"].s;
      var flag := body.value.fields["isResolved"].b;
      match FindAlert(alerts, id)
      case None => Outcome(Error(NOT_FOUND, "Crisis alert not found"), alerts)
      case Some(k) =>
        var store := SetResolved(alerts, id, flag, now);
        var u := store[k];
        Outcome(Ok(OK, UpdateReply(
          if flag then "Crisis alert resolved successfully" else "Crisis alert reopened successfully",
          ResolvedView(u.id, u.areaOfConcern, u.description, u.isResolved, u.resolvedAt, admin.value.fullName))),
          store)
  }

  /** An unknown alert id is a 404 and changes nothing. */
  lemma UnknownAlertIsNotFound(admin: User, id: string, flag: bool, alerts: seq<Alert>, now: int)
    requires IsUuid(id) && forall i :: 0 <= i < |alerts| ==> alerts[i].id != id
    ensures UpdateAlert(Success(admin), Some(UpdateBody(id, flag)), alerts, now)
            == Outcome(Error(NOT_FOUND, "Crisis alert not found"), alerts)
  {
  }

  /** Every update keeps the store invariant, whatever the request. */
  lemma UpdateKeepsInvariant(admin: Result<User, AuthError>, body: Option<Json>, alerts: seq<Alert>, now: int)
    requires StoreInvariant(alerts)
    ensures StoreInvariant(UpdateAlert(admin, body, alerts, now).store)
  {
    var r := UpdateAlert(admin, body, alerts, now);
    if r.reply.Ok? {
      assert forall i :: 0 <= i < |alerts| ==> r.store[i].id == alerts[i].id;
    }
  }

  /** Reopening an alert that is already active leaves the store as it was. */
  lemma ReopenActiveIsNoOp(admin: User, id: string, alerts: seq<Alert>, now: int)
    requires StoreInvariant(alerts) && IsUuid(id)
    requires forall i :: 0 <= i < |alerts| && alerts[i].id == id ==> !alerts[i].isResolved
    ensures UpdateAlert(Success(admin), Some(UpdateBody(id, false)), alerts, now).store == alerts
  {
    var r := UpdateAlert(Success(admin), Some(UpdateBody(id, false)), alerts, now);
    if r.reply.Ok? {
      assert forall i :: 0 <= i < |alerts| ==> r.store[i] == alerts[i];
    }
  }

  /** Resolving an active alert and then reopening it restores the store. */
  lemma ResolveThenReopen(admin: User, id: string, alerts: seq<Alert>, t1: int, t2: int)
    requires StoreInvariant(alerts) && IsUuid(id)
    requires forall i :: 0 <= i < |alerts| && alerts[i].id == id ==> !alerts[i].isResolved
    ensures var s1 := UpdateAlert(Success(admin), Some(UpdateBody(id, true)), alerts, t1).store;
            UpdateAlert(Success(admin), Some(UpdateBody(id, false)), s1, t2).store == alerts
  {
    var body := UpdateBody(id, true);
    assert body.fields["alertId"].s == id && body.fields["isResolved"].b;
    var r1 := UpdateAlert(Success(admin), Some(body), alerts, t1);
    if r1.reply.Ok? {
      var s1 := SetResolved(alerts, id, true, t1);
      assert forall i :: 0 <= i < |s1| ==> s1[i].id == alerts[i].id;
      assert FindAlert(s1, id).Some?;
      ResolvedThenReopened(alerts, id, t1, t2);
    } else {
      assert FindAlert(alerts, id).None?;
      assert FindAlert(r1.store, id).None?;
    }
  }

  /** Stamping then clearing the alerts with the id restores them, when they were active. */
  lemma ResolvedThenReopened(alerts: seq<Alert>, id: string, t1: int, t2: int)
    requires StoreInvariant(alerts)
    requires forall i :: 0 <= i < |alerts| && alerts[i].id == id ==> !alerts[i].isResolved
    ensures SetResolved(SetResolved(alerts, id, true, t1), id, false, t2) == alerts
  {
    var s1 := SetResolved(alerts, id, true, t1);
    var s2 := SetResolved(s1, id, false, t2);
    forall i | 0 <= i < |alerts| ensures s2[i] == alerts[i] {
      if alerts[i].id == id {
        assert Consistent(alerts[i]);
        assert s1[i].id == id;
      } else {
        assert s1[i] == alerts[i];
      }
    }
  }

  /** A resolved alert in a consistent store says when it was resolved, and an
      alert reopened by the update carries no resolution time. */
  lemma UpdatedAlertConsistent(admin: User, body: Json, alerts: seq<Alert>, now: int)
    ensures var r := UpdateAlert(Success(admin), Some(body), alerts, now);
      r.reply.Ok? ==> (r.reply.value.alert.isResolved <==> r.reply.value.alert.resolvedAt.Some?)
  {
  }
}
