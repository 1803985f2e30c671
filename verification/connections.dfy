/** The connections route: a student's request for a mentor (POST) and the
    caller-scoped listing of connections (GET). */
module Connections {
  import opened Common
  import opened Seqs
  import opened Sorting
  import opened Paging
  import opened JsonValues
  import opened Users
  import opened Auth
  import opened Validations
  import opened Redaction
  import opened Mentors

  const PENDING: string := "pending"

  datatype Connection = Connection(
    id: string, studentId: string, mentorId: string, status: string, createdAt: int, updatedAt: int)

  /** At most one connection per (student, mentor) pair. */
  predicate OnePerPair(cs: seq<Connection>) {
    forall i, j :: 0 <= i < j < |cs| ==> (cs[i].studentId, cs[i].mentorId) != (cs[j].studentId, cs[j].mentorId)
  }

  /** `findFirst({ where: { studentId, mentorId } })`. */
  function FindPair(cs: seq<Connection>, studentId: string, mentorId: string): (r: Option<nat>)
    ensures r.Some? ==> r.value < |cs| && cs[r.value].studentId == studentId && cs[r.value].mentorId == mentorId
    ensures r.None? <==> forall i :: 0 <= i < |cs| ==> cs[i].studentId != studentId || cs[i].mentorId != mentorId
  {
    FindFirst(cs, (c: Connection) => c.studentId == studentId && c.mentorId == mentorId)
  }

  // ---- POST ----

  /** A person's public fields as the creation reply includes them. */
  datatype Contact = Contact(id: string, fullName: string, email: string)

  datatype Created = Created(message: string, connection: Connection, student: Contact, mentor: Contact)

  /** Why a mentor cannot be asked, in the order the handler checks. */
  datatype MentorCheck = Bookable(mentor: User) | NotFound | NotAccepting

  /** `findFirst({ where: { id, userType: 'mentor', isActive: true } })` with its
      profile, then the availability test. */
  function CheckMentor(users: seq<User>, profiles: seq<MentorProfile>, mentorId: string): (r: MentorCheck)
    ensures r.Bookable? ==> r.mentor in users && r.mentor.id == mentorId
    ensures r.NotFound? <==>
      var u := FindUser(users, mentorId);
      u.None? || u.value.userType != Mentor || !u.value.isActive || FindProfile(profiles, mentorId).None?
    ensures r.NotAccepting? ==> !profiles[FindProfile(profiles, mentorId).value].isAvailable
    ensures r.Bookable? ==> FindProfile(profiles, mentorId).Some? && profiles[FindProfile(profiles, mentorId).value].isAvailable
  {
    match FindUser(users, mentorId)
    case None => NotFound
    case Some(u) =>
      if u.userType != Mentor || !u.isActive then NotFound
      else match FindProfile(profiles, mentorId)
        case None => NotFound
        case Some(k) => if !profiles[k].isAvailable then NotAccepting else Bookable(u)
  }

  /** POST. `caller` is the outcome of the authentication gate, `body` the
      parsed request body (None when it is not JSON). */
  function RequestConnection(
    caller: Result<User, AuthError>,
    body: Option<Json>,
    users: seq<User>,
    profiles: seq<MentorProfile>,
    cs: seq<Connection>,
    newId: string,
    now: int): (r: Outcome<Created, seq<Connection>>)
    ensures caller.Failure? ==> r.reply == UserGateReply(caller.error)
    ensures caller.Success? && body.Some? && caller.value.userType != Student ==>
      r.reply.Error? && r.reply.status == FORBIDDEN
    ensures caller.Success? && body.Some? && caller.value.userType == Student && ParseConnectionRequest(body.value).None? ==>
      r.reply.Error? && r.reply.status == BAD_REQUEST
    ensures caller.Success? && body.None? ==> r.reply == InternalError()
    ensures caller.Success? && body.Some? && caller.value.userType == Student && ParseConnectionRequest(body.value).Some? ==>
      var mentorId := ParseConnectionRequest(body.value).value;
      var check := CheckMentor(users, profiles, mentorId);
      && (check.NotFound? ==> r.reply == Error(NOT_FOUND, "Mentor not found or not available"))
      && (check.NotAccepting? ==> r.reply == Error(BAD_REQUEST, "Mentor is currently not accepting new connections"))
      && (check.Bookable? && FindPair(cs, caller.value.id, mentorId).Some? ==>
            r.reply == Error(CONFLICT, "Connection already exists"))
      && (check.Bookable? && FindPair(cs, caller.value.id, mentorId).None? && (exists i :: 0 <= i < |cs| && cs[i].id == newId) ==>
            r.reply == InternalError())
    ensures r.reply.Ok? <==>
      && caller.Success? && body.Some? && caller.value.userType == Student
      && ParseConnectionRequest(body.value).Some?
      && CheckMentor(users, profiles, ParseConnectionRequest(body.value).value).Bookable?
      && FindPair(cs, caller.value.id, ParseConnectionRequest(body.value).value).None?
      && forall i :: 0 <= i < |cs| ==> cs[i].id != newId
    ensures r.reply.Error? ==> r.store == cs
    ensures r.reply.Ok? ==>
      && caller.Success? && caller.value.userType == Student && body.Some?
      && ParseConnectionRequest(body.value).Some?
      && var mentorId := ParseConnectionRequest(body.value).value;
      && CheckMentor(users, profiles, mentorId).Bookable?
      && FindPair(cs, caller.value.id, mentorId).None?
      && r.reply.status == CREATED
      && r.reply.value.connection == Connection(newId, caller.value.id, mentorId, PENDING, now, now)
      && r.store == cs + [r.reply.value.connection]
      && r.reply.value.student == Contact(caller.value.id, caller.value.fullName, caller.value.email)
      && var mentor := CheckMentor(users, profiles, mentorId).mentor;
      && r.reply.value.mentor == Contact(mentor.id, mentor.fullName, mentor.email)
  {
    if caller.Failure? then Outcome(UserGateReply(caller.error), cs)
    else if body.None? then Outcome(InternalError(), cs)
    else if caller.value.userType != Student then
      Outcome(Error(FORBIDDEN, "Only students can request mentor connections"), cs)
    else match ParseConnectionRequest(body.value)
      case None => Outcome(Error(BAD_REQUEST, "Validation failed"), cs)
      case Some(mentorId) =>
        match CheckMentor(users, profiles, mentorId)
        case NotFound => Outcome(Error(NOT_FOUND, "Mentor not found or not available"), cs)
        case NotAccepting => Outcome(Error(BAD_REQUEST, "Mentor is currently not accepting new connections"), cs)
        case Bookable(mentor) =>
          if FindPair(cs, caller.value.id, mentorId).Some? then Outcome(Error(CONFLICT, "Connection already exists"), cs)
          else if exists i :: 0 <= i < |cs| && cs[i].id == newId then Outcome(InternalError(), cs)
          else
            var c := Connection(newId, caller.value.id, mentorId, PENDING, now, now);
            var student := caller.value;
            Outcome(Ok(CREATED, Created("Connection request sent successfully", c,
                                        Contact(student.id, student.fullName, student.email),
                                        Contact(mentor.id, mentor.fullName, mentor.email))),
                    cs + [c])
  }

  /** A second request for the same pair is refused with 409, so the store keeps
      at most one connection per pair. */
  lemma RequestKeepsOnePerPair(caller: Result<User, AuthError>, body: Option<Json>, users: seq<User>,
                               profiles: seq<MentorProfile>, cs: seq<Connection>, newId: string, now: int)
    requires OnePerPair(cs)
    ensures OnePerPair(RequestConnection(caller, body, users, profiles, cs, newId, now).store)
  {
  }

  /** Asking again for a pair that already exists is a conflict. */
  lemma RepeatedRequestConflicts(student: User, body: Json, users: seq<User>, profiles: seq<MentorProfile>,
                                 cs: seq<Connection>, newId: string, now: int, id2: string, later: int)
    requires RequestConnection(Success(student), Some(body), users, profiles, cs, newId, now).reply.Ok?
    ensures var cs1 := RequestConnection(Success(student), Some(body), users, profiles, cs, newId, now).store;
            var r2 := RequestConnection(Success(student), Some(body), users, profiles, cs1, id2, later).reply;
            r2.Error? && r2.status == CONFLICT
  {
    var mentorId := ParseConnectionRequest(body).value;
    var cs1 := RequestConnection(Success(student), Some(body), users, profiles, cs, newId, now).store;
    assert cs1[|cs|].studentId == student.id && cs1[|cs|].mentorId == mentorId;
  }

  // ---- GET ----

  /** Which connections a caller may see. */
  predicate InScope(caller: User, c: Connection) {
    match caller.userType
    case Student => c.studentId == caller.id
    case Mentor => c.mentorId == caller.id
    case Admin => true
  }

  /** Scope, plus `status` when the parameter is present and non-empty. */
  predicate Listed(caller: User, status: Option<string>, c: Connection) {
    InScope(caller, c) && (Given(status) ==> c.status == status.value)
  }

  /** `orderBy: { createdAt: 'desc' }`. */
  predicate NewerFirst(a: Connection, b: Connection) {
    a.createdAt >= b.createdAt
  }

  /** Every connection's parties are stored users. */
  predicate ConnectionsLinked(cs: seq<Connection>, users: seq<User>) {
    forall i :: 0 <= i < |cs| ==> FindUser(users, cs[i].studentId).Some? && FindUser(users, cs[i].mentorId).Some?
  }

  /** The mentor's profile fields the listing includes. */
  datatype ProfileSummary = ProfileSummary(department: string, year: string, specialties: seq<string>, rating: real)

  datatype ConnectionView = ConnectionView(
    id: string, status: string, createdAt: int, updatedAt: int,
    student: PartyView, mentor: PartyView, mentorProfile: Option<ProfileSummary>)

  /** The profile fields of `mentorProfile` that the listing passes on. */
  function SummaryOf(p: MentorProfile): ProfileSummary {
    ProfileSummary(p.department, p.year, p.specialties, p.rating)
  }

  /** One listed connection: both parties redacted by their own anonymous
      name, and the mentor's profile when the mentor has one. */
  function ConnectionViewOf(c: Connection, users: seq<User>, profiles: seq<MentorProfile>): (v: ConnectionView)
    requires FindUser(users, c.studentId).Some? && FindUser(users, c.mentorId).Some?
    ensures v.id == c.id && v.status == c.status && v.createdAt == c.createdAt && v.updatedAt == c.updatedAt
    ensures v.student == RedactParty(FindUser(users, c.studentId).value, ANONYMOUS_STUDENT)
    ensures v.mentor == RedactParty(FindUser(users, c.mentorId).value, ANONYMOUS_MENTOR)
    ensures v.mentorProfile.None? <==> forall k :: 0 <= k < |profiles| ==> profiles[k].userId != c.mentorId
    ensures v.mentorProfile.Some? ==>
      exists k :: 0 <= k < |profiles| && profiles[k].userId == c.mentorId && v.mentorProfile.value == SummaryOf(profiles[k])
    ensures ProfileOwnersUnique(profiles) ==>
      forall k :: 0 <= k < |profiles| && profiles[k].userId == c.mentorId ==> v.mentorProfile == Some(SummaryOf(profiles[k]))
  {
    var p := FindProfile(profiles, c.mentorId);
    ConnectionView(c.id, c.status, c.createdAt, c.updatedAt,
                   RedactParty(FindUser(users, c.studentId).value, ANONYMOUS_STUDENT),
                   RedactParty(FindUser(users, c.mentorId).value, ANONYMOUS_MENTOR),
                   if p.None? then None else Some(SummaryOf(profiles[p.value])))
  }

  function Visible(cs: seq<Connection>, caller: User, status: Option<string>): seq<Connection> {
    SortBy(Filter(cs, (c: Connection) => Listed(caller, status, c)), NewerFirst)
  }

  lemma VisibleProperties(cs: seq<Connection>, caller: User, status: Option<string>, page: int, limit: int, users: seq<User>)
    requires page >= 1 && limit >= 1
    requires ConnectionsLinked(cs, users)
    ensures var shown := Page(Visible(cs, caller, status), page, limit);
      && (forall i :: 0 <= i < |shown| ==> Listed(caller, status, shown[i]) && shown[i] in cs)
      && (forall i, j :: 0 <= i < j < |shown| ==> NewerFirst(shown[i], shown[j]))
  {
    var sel := Filter(cs, (c: Connection) => Listed(caller, status, c));
    SortByMembers(sel, NewerFirst);
    assert TotalPreorder(NewerFirst);
    SortBySorted(sel, NewerFirst);
    PageOfSorted(Visible(cs, caller, status), page, limit, NewerFirst);
    var shown := Page(Visible(cs, caller, status), page, limit);
    assert forall i :: 0 <= i < |shown| ==> shown[i] in shown;
  }

  /** The requested page of visible connections, newest first. */
  function Shown(cs: seq<Connection>, caller: User, status: Option<string>, page: int, limit: int): seq<Connection>
    requires page >= 1 && limit >= 1
  {
    Page(Visible(cs, caller, status), page, limit)
  }

  function ConnectionViews(cs: seq<Connection>, caller: User, status: Option<string>, page: int, limit: int,
                           users: seq<User>, profiles: seq<MentorProfile>): (v: seq<ConnectionView>)
    requires page >= 1 && limit >= 1
    requires ConnectionsLinked(cs, users)
    ensures |v| == |Shown(cs, caller, status, page, limit)| <= limit
    ensures forall i :: 0 <= i < |v| ==>
      var c := Shown(cs, caller, status, page, limit)[i];
      && c in cs && Listed(caller, status, c)
      && FindUser(users, c.studentId).Some? && FindUser(users, c.mentorId).Some?
      && v[i] == ConnectionViewOf(c, users, profiles)
    ensures forall i, j :: 0 <= i < j < |v| ==> v[i].createdAt >= v[j].createdAt
  {
    var shown := Shown(cs, caller, status, page, limit);
    VisibleProperties(cs, caller, status, page, limit, users);
    LinkedMembers(cs, users, shown);
    seq(|shown|, i requires 0 <= i < |shown| => ConnectionViewOf(shown[i], users, profiles))
  }

  lemma LinkedMembers(cs: seq<Connection>, users: seq<User>, shown: seq<Connection>)
    requires ConnectionsLinked(cs, users)
    requires forall i :: 0 <= i < |shown| ==> shown[i] in cs
    ensures forall i :: 0 <= i < |shown| ==> FindUser(users, shown[i].studentId).Some? && FindUser(users, shown[i].mentorId).Some?
  {
    forall i | 0 <= i < |shown|
      ensures FindUser(users, shown[i].studentId).Some? && FindUser(users, shown[i].mentorId).Some?
    {
      var k :| 0 <= k < |cs| && cs[k] == shown[i];
    }
  }

  datatype ConnectionPage = ConnectionPage(connections: seq<ConnectionView>, page: int, limit: int, totalCount: nat, totalPages: nat)

  /** GET. */
  function ListConnections(caller: Result<User, AuthError>, status: Option<string>, page: int, limit: int,
                           cs: seq<Connection>, users: seq<User>, profiles: seq<MentorProfile>): (r: Reply<ConnectionPage>)
    requires page >= 1 && limit >= 1
    requires ConnectionsLinked(cs, users)
    ensures caller.Failure? ==> r == UserGateReply(caller.error)
    ensures caller.Success? ==>
      && r.Ok? && r.status == OK
      && r.value.connections == ConnectionViews(cs, caller.value, status, page, limit, users, profiles)
      && r.value.totalCount == Count(cs, (c: Connection) => Listed(caller.value, status, c))
      && r.value.totalPages == CeilDiv(r.value.totalCount, limit)
  {
    match caller
    case Failure(e) => UserGateReply(e)
    case Success(u) =>
      var total := Count(cs, (c: Connection) => Listed(u, status, c));
      Ok(OK, ConnectionPage(ConnectionViews(cs, u, status, page, limit, users, profiles), page, limit, total, CeilDiv(total, limit)))
  }

  /** A student sees only connections it is the student of, and a mentor only
      those it is the mentor of. */
  lemma ListingRespectsScope(caller: User, status: Option<string>, page: int, limit: int,
                             cs: seq<Connection>, users: seq<User>, profiles: seq<MentorProfile>, i: int)
    requires page >= 1 && limit >= 1
    requires ConnectionsLinked(cs, users)
    requires 0 <= i < |ListConnections(Success(caller), status, page, limit, cs, users, profiles).value.connections|
    ensures var v := ListConnections(Success(caller), status, page, limit, cs, users, profiles).value.connections[i];
      && (caller.userType == Student ==> v.student.id == caller.id)
      && (caller.userType == Mentor ==> v.mentor.id == caller.id)
      && (Given(status) ==> v.status == status.value)
  {
    var c := Shown(cs, caller, status, page, limit)[i];
    assert c in cs && Listed(caller, status, c);
  }

  /** Paging reaches everything: each connection in the caller's scope and
      status appears on some page up to `totalPages`. */
  lemma EveryScopedConnectionIsListed(caller: User, status: Option<string>, limit: int,
                                      cs: seq<Connection>, users: seq<User>, profiles: seq<MentorProfile>, x: Connection)
    requires limit >= 1
    requires ConnectionsLinked(cs, users)
    requires x in cs && Listed(caller, status, x)
    ensures exists page ::
      && 1 <= page <= ListConnections(Success(caller), status, page, limit, cs, users, profiles).value.totalPages
      && x in Shown(cs, caller, status, page, limit)
      && ConnectionViewOf(x, users, profiles) in ListConnections(Success(caller), status, page, limit, cs, users, profiles).value.connections
  {
    var page, k := ListedOnSomePage(cs, (c: Connection) => Listed(caller, status, c), NewerFirst, limit, x);
    assert Shown(cs, caller, status, page, limit)[k] == x;
    ShownIsListed(caller, status, page, limit, cs, users, profiles, k);
    assert 1 <= page <= ListConnections(Success(caller), status, page, limit, cs, users, profiles).value.totalPages;
  }

  /** The view of the `k`-th shown connection is on the listed page. */
  lemma ShownIsListed(caller: User, status: Option<string>, page: int, limit: int,
                      cs: seq<Connection>, users: seq<User>, profiles: seq<MentorProfile>, k: int)
    requires page >= 1 && limit >= 1
    requires ConnectionsLinked(cs, users)
    requires 0 <= k < |Shown(cs, caller, status, page, limit)|
    ensures var x := Shown(cs, caller, status, page, limit)[k];
      && x in Shown(cs, caller, status, page, limit)
      && FindUser(users, x.studentId).Some? && FindUser(users, x.mentorId).Some?
      && ConnectionViewOf(x, users, profiles) in ListConnections(Success(caller), status, page, limit, cs, users, profiles).value.connections
  {
    var v := ConnectionViews(cs, caller, status, page, limit, users, profiles);
    assert v[k] in v;
  }
}
