/** The crisis-alert submission route: validate, store the alert, then send
    one real-time notification to every active admin.  The socket transport
    is not modelled; a notification is a record of who it is addressed to and
    what it carries. */
module CrisisIngest {
  import opened Common
  import opened Seqs
  import opened JsonValues
  import opened Users
  import opened Auth
  import opened Validations
  import opened Redaction
  import opened CrisisAlerts

  const CRISIS_EVENT: string := "crisis-alert"

  /** The payload of the `crisis-alert` event. */
  datatype AlertNotice = AlertNotice(
    id: string, areaOfConcern: string, description: Option<string>, timestamp: int, reporter: string)

  datatype Notification = Notification(to: string, event: string, notice: AlertNotice)

  /** The 201 body: the alert without any reporter identity. */
  datatype Receipt = Receipt(
    message: string, id: string, areaOfConcern: string, description: Option<string>, timestamp: int, isResolved: bool)

  /** What a submission leaves behind: the alert store and the notifications sent. */
  datatype Effects = Effects(alerts: seq<Alert>, sent: seq<Notification>)

  predicate IsActiveAdmin(u: User) {
    u.userType == Admin && u.isActive
  }

  /** `admins.forEach(admin => emitToUser(admin.id, 'crisis-alert', notice))`. */
  function NotifyAll(admins: seq<User>, notice: AlertNotice): (r: seq<Notification>)
    ensures |r| == |admins|
    ensures forall i :: 0 <= i < |r| ==> r[i] == Notification(admins[i].id, CRISIS_EVENT, notice)
  {
    if admins == [] then [] else [Notification(admins[0].id, CRISIS_EVENT, notice)] + NotifyAll(admins[1..], notice)
  }

  /** `user` is the outcome of the authentication gate, `body` the parsed
      request body (None when it is not JSON), `newId` and `now` the id and
      timestamp the database assigns. */
  function SubmitAlert(
    user: Result<User, AuthError>,
    body: Option<Json>,
    newId: string,
    now: int,
    users: seq<User>,
    alerts: seq<Alert>): (r: Outcome<Receipt, Effects>)
    ensures user.Failure? ==> r.reply == UserGateReply(user.error)
    ensures r.reply.Error? ==> r.store == Effects(alerts, [])
    ensures user.Success? && body.Some? && ParseCrisisAlert(body.value).None? ==>
      r.reply.Error? && r.reply.status == BAD_REQUEST
    ensures r.reply.Ok? <==>
      user.Success? && body.Some? && ParseCrisisAlert(body.value).Some?
      && forall i :: 0 <= i < |alerts| ==> alerts[i].id != newId
    ensures r.reply.Ok? ==>
      var input := ParseCrisisAlert(body.value).value;
      var created := Alert(newId, Some(user.value.id), input.areaOfConcern, input.description, now, false, None);
      && r.reply.status == CREATED
      && r.store.alerts == alerts + [created]
      && r.reply.value == Receipt(RECEIPT_MESSAGE, newId, input.areaOfConcern, input.description, now, false)
      && r.store.sent == NotifyAll(Filter(users, IsActiveAdmin),
                                   AlertNotice(newId, input.areaOfConcern, input.description, now, ReporterName(Some(user.value))))
  {
    if user.Failure? then Outcome(UserGateReply(user.error), Effects(alerts, []))
    else if body.None? then Outcome(InternalError(), Effects(alerts, []))
    else match ParseCrisisAlert(body.value)
      case None => Outcome(Error(BAD_REQUEST, "Validation failed"), Effects(alerts, []))
      case Some(input) =>
        if exists i :: 0 <= i < |alerts| && alerts[i].id == newId then Outcome(InternalError(), Effects(alerts, []))
        else
          var created := Alert(newId, Some(user.value.id), input.areaOfConcern, input.description, now, false, None);
          var notice := AlertNotice(created.id, created.areaOfConcern, created.description, created.timestamp,
                                    ReporterName(Some(user.value)));
          Outcome(Ok(CREATED, Receipt(RECEIPT_MESSAGE, created.id, created.areaOfConcern, created.description,
                                      created.timestamp, created.isResolved)),
                  Effects(alerts + [created], NotifyAll(Filter(users, IsActiveAdmin), notice)))
  }

  const RECEIPT_MESSAGE: string := "Crisis alert submitted successfully. Appropriate personnel have been notified."

  /** A stored alert starts active and keeps the store invariant. */
  lemma SubmitKeepsInvariant(user: Result<User, AuthError>, body: Option<Json>, newId: string, now: int,
                             users: seq<User>, alerts: seq<Alert>)
    requires StoreInvariant(alerts)
    ensures StoreInvariant(SubmitAlert(user, body, newId, now, users, alerts).store.alerts)
  {
  }

  /** A submitted alert shows up in the admin statistics at once: it is
      active and reported within the last day. */
  lemma SubmittedAlertIsActiveAndRecent(user: User, body: Json, newId: string, now: int, users: seq<User>,
                                        alerts: seq<Alert>, total: nat)
    requires ParseCrisisAlert(body).Some? && forall i :: 0 <= i < |alerts| ==> alerts[i].id != newId
    ensures var after := SubmitAlert(Success(user), Some(body), newId, now, users, alerts).store.alerts;
      && Statistics(after, total, now).active == Statistics(alerts, total, now).active + 1
      && Statistics(after, total, now).last24Hours == Statistics(alerts, total, now).last24Hours + 1
  {
    var input := ParseCrisisAlert(body).value;
    var created := Alert(newId, Some(user.id), input.areaOfConcern, input.description, now, false, None);
    RecentCountOfAppended(alerts, created, total, now);
  }

  /** Every active admin gets exactly one notification and nobody else gets any. */
  lemma EachActiveAdminNotifiedOnce(user: User, body: Json, newId: string, now: int, users: seq<User>, alerts: seq<Alert>, k: nat)
    requires UniqueIds(users) && k < |users|
    ensures var r := SubmitAlert(Success(user), Some(body), newId, now, users, alerts);
      r.reply.Ok? ==> Count(r.store.sent, (n: Notification) => n.to == users[k].id) == if IsActiveAdmin(users[k]) then 1 else 0
  {
    var r := SubmitAlert(Success(user), Some(body), newId, now, users, alerts);
    var id := users[k].id;
    if r.reply.Ok? {
      var admins := Filter(users, IsActiveAdmin);
      var input := ParseCrisisAlert(body).value;
      var notice := AlertNotice(newId, input.areaOfConcern, input.description, now, ReporterName(Some(user)));
      assert r.store.sent == NotifyAll(admins, notice);
      var toId := (n: Notification) => n.to == id;
      var byId := (u: User) => u.id == id;
      var both := (u: User) => IsActiveAdmin(u) && u.id == id;
      NotifiedCount(admins, notice, id, toId, byId);
      FilterFilter(users, IsActiveAdmin, byId, both);
      UniqueIdCount(users, k, IsActiveAdmin, both);
    }
  }

  lemma {:induction false} NotifiedCount(admins: seq<User>, notice: AlertNotice, id: string,
                                         toId: Notification -> bool, byId: User -> bool)
    requires forall n :: toId(n) == (n.to == id)
    requires forall u :: byId(u) == (u.id == id)
    ensures Count(NotifyAll(admins, notice), toId) == Count(admins, byId)
    decreases |admins|
  {
    if admins != [] {
      NotifiedCount(admins[1..], notice, id, toId, byId);
      assert NotifyAll(admins, notice)[1..] == NotifyAll(admins[1..], notice);
    }
  }

  /** With unique ids, exactly the user at `k` has its id, so `p` and "has that
      id" hold together once or never. */
  lemma {:induction false} UniqueIdCount(users: seq<User>, k: nat, p: User -> bool, both: User -> bool)
    requires UniqueIds(users) && k < |users|
    requires forall u :: both(u) == (p(u) && u.id == users[k].id)
    ensures Count(users, both) == if p(users[k]) then 1 else 0
    decreases |users|
  {
    var id := users[k].id;
    if k == 0 {
      assert forall i :: 0 <= i < |users[1..]| ==> users[1..][i].id != id;
      NoneCounted(users[1..], both);
    } else {
      assert users[1..][k - 1] == users[k];
      assert users[0].id != id;
      UniqueIdCount(users[1..], k - 1, p, both);
    }
  }

  lemma {:induction false} NoneCounted<T>(s: seq<T>, p: T -> bool)
    requires forall i :: 0 <= i < |s| ==> !p(s[i])
    ensures Count(s, p) == 0
    decreases |s|
  {
    if s != [] {
      NoneCounted(s[1..], p);
    }
  }

  /** A notification goes only to an active admin of the user table. */
  lemma OnlyActiveAdminsNotified(user: User, body: Json, newId: string, now: int, users: seq<User>, alerts: seq<Alert>)
    ensures var sent := SubmitAlert(Success(user), Some(body), newId, now, users, alerts).store.sent;
      forall i :: 0 <= i < |sent| ==> exists u :: u in users && IsActiveAdmin(u) && sent[i].to == u.id
  {
    var r := SubmitAlert(Success(user), Some(body), newId, now, users, alerts);
    if r.reply.Ok? {
      var admins := Filter(users, IsActiveAdmin);
      forall i | 0 <= i < |r.store.sent| ensures exists u :: u in users && IsActiveAdmin(u) && r.store.sent[i].to == u.id {
        assert r.store.sent[i].to == admins[i].id;
      }
    }
  }

  /** The notification repeats the stored alert's content and hides the
      reporter's name when the reporter asked for more than 50 anonymity. */
  lemma NoticeMatchesStoredAlert(user: User, body: Json, newId: string, now: int, users: seq<User>, alerts: seq<Alert>)
    ensures var r := SubmitAlert(Success(user), Some(body), newId, now, users, alerts);
      forall i :: 0 <= i < |r.store.sent| ==>
        var n := r.store.sent[i].notice;
        var a := r.store.alerts[|r.store.alerts| - 1];
        && n.id == a.id && n.areaOfConcern == a.areaOfConcern && n.description == a.description && n.timestamp == a.timestamp
        && (user.anonymityLevel > 50 ==> n.reporter == ANONYMOUS_STUDENT)
  {
  }
}
