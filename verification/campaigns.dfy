/** The awareness-campaign route: admins create (POST) and update (PATCH)
    campaigns; every signed-in user lists them (GET), but only admins see a
    campaign's reach and the campaign statistics. */
module Campaigns {
  import opened Common
  import opened Text
  import opened Seqs
  import opened Sorting
  import opened Paging
  import opened JsonValues
  import opened Users
  import opened Auth
  import opened Validations

  /** A stored campaign; `date` and `createdAt` are milliseconds since the epoch. */
  datatype Campaign = Campaign(
    id: string, title: string, date: int, department: string, description: Option<string>,
    status: CampaignStatus, reach: int, createdAt: int)

  /** `findUnique({ where: { id } })`, as an index into the store. */
  function FindCampaign(cs: seq<Campaign>, id: string): (r: Option<nat>)
    ensures r.Some? ==> r.value < |cs| && cs[r.value].id == id
    ensures r.None? <==> forall i :: 0 <= i < |cs| ==> cs[i].id != id
  {
    FindFirst(cs, (c: Campaign) => c.id == id)
  }

  predicate IdsUnique(cs: seq<Campaign>) {
    forall i, j :: 0 <= i < j < |cs| ==> cs[i].id != cs[j].id
  }

  datatype Saved = Saved(message: string, campaign: Campaign)

  // ---- POST ----

  /** What the database fills in on create: the id, the creation time, the
      reach column's default. */
  datatype Assigned = Assigned(id: string, createdAt: int, reach: int)

  /** `caller` is the outcome of the admin gate; `toDate` is `new Date(date)`
      on a string the schema accepted as an ISO date-time. */
  function CreateCampaign(caller: Result<User, AuthError>, body: Option<Json>, f: Formats, toDate: string -> int,
                          row: Assigned, cs: seq<Campaign>): (r: Outcome<Saved, seq<Campaign>>)
    ensures caller.Failure? ==> r.reply == AuthReply(caller.error)
    ensures r.reply.Error? ==> r.store == cs
    ensures caller.Success? && body.Some? && ParseCampaign(body.value, f).None? ==>
      r.reply == Error(BAD_REQUEST, "Validation failed")
    ensures r.reply.Ok? <==>
      caller.Success? && body.Some? && ParseCampaign(body.value, f).Some? && FindCampaign(cs, row.id).None?
    ensures r.reply.Ok? ==>
      var input := ParseCampaign(body.value, f).value;
      var c := r.reply.value.campaign;
      && r.reply.status == CREATED && r.reply.value.message == "Campaign created successfully"
      && r.store == cs + [c]
      && c.id == row.id && c.title == input.title && c.department == input.department
      && c.description == input.description && c.date == toDate(input.date)
      && (Get(body.value, "status").None? ==> c.status == Draft)
      && (Get(body.value, "status").Some? ==> Get(body.value, "status") == Some(JStr(CampaignStatusName(c.status))))
  {
    if caller.Failure? then Outcome(AuthReply(caller.error), cs)
    else if body.None? then Outcome(InternalError(), cs)
    else match ParseCampaign(body.value, f)
      case None => Outcome(Error(BAD_REQUEST, "Validation failed"), cs)
      case Some(input) =>
        if FindCampaign(cs, row.id).Some? then Outcome(InternalError(), cs)
        else
          var c := Campaign(row.id, input.title, toDate(input.date), input.department, input.description,
                            input.status, row.reach, row.createdAt);
          Outcome(Ok(CREATED, Saved("Campaign created successfully", c)), cs + [c])
  }

  /** A signed-in user who is not an admin is refused with 403, whatever the
      body, and nothing is stored. */
  lemma NonAdminCannotCreate(header: Option<string>, verifyToken: string -> Option<Payload>, users: seq<User>,
                             body: Option<Json>, f: Formats, toDate: string -> int, row: Assigned, cs: seq<Campaign>)
    requires GetAuthenticatedUser(header, verifyToken, users).Success?
    requires GetAuthenticatedUser(header, verifyToken, users).value.userType != Admin
    ensures var r := CreateCampaign(GetAuthenticatedAdmin(header, verifyToken, users), body, f, toDate, row, cs);
      r.reply == Error(FORBIDDEN, "Admin access required") && r.store == cs
  {
  }

  // ---- GET ----

  datatype CampaignQuery = CampaignQuery(status: Option<string>, department: Option<string>, page: int, limit: int)

  /** A given status must name a stored enum value; any other string makes
      the database query fail. */
  predicate StatusUsable(q: CampaignQuery) {
    Given(q.status) ==> ParseCampaignStatus(q.status.value).Some?
  }

  /** Exact status match and case-insensitive department containment, each
      applied only when its parameter is given. */
  predicate MatchesQuery(q: CampaignQuery, c: Campaign) {
    && (Given(q.status) ==> CampaignStatusName(c.status) == q.status.value)
    && (Given(q.department) ==> ContainsInsensitive(c.department, q.department.value))
  }

  /** `orderBy: [{ status: 'asc' }, { date: 'desc' }]`; `rank` is the position
      of a status in the database's enum declaration. */
  predicate CampaignBefore(rank: CampaignStatus -> int, a: Campaign, b: Campaign) {
    rank(a.status) < rank(b.status) || (rank(a.status) == rank(b.status) && a.date >= b.date)
  }

  function Order(rank: CampaignStatus -> int): (Campaign, Campaign) -> bool {
    (a: Campaign, b: Campaign) => CampaignBefore(rank, a, b)
  }

  lemma OrderIsTotalPreorder(rank: CampaignStatus -> int)
    ensures TotalPreorder(Order(rank))
  {
  }

  /** A campaign as the listing shows it: `reach` only for admins. */
  datatype CampaignView = CampaignView(
    id: string, title: string, date: int, department: string, description: Option<string>,
    status: CampaignStatus, reach: Option<int>, createdAt: int)

  function ViewOf(c: Campaign, isAdmin: bool): (v: CampaignView)
    ensures v.reach.Some? <==> isAdmin
    ensures isAdmin ==> v.reach == Some(c.reach)
    ensures v.id == c.id && v.title == c.title && v.date == c.date && v.department == c.department
            && v.description == c.description && v.status == c.status && v.createdAt == c.createdAt
  {
    CampaignView(c.id, c.title, c.date, c.department, c.description, c.status,
                 if isAdmin then Some(c.reach) else None, c.createdAt)
  }

  /** All matching campaigns, in listing order. */
  function Ordered(cs: seq<Campaign>, q: CampaignQuery, rank: CampaignStatus -> int): seq<Campaign> {
    SortBy(Filter(cs, (c: Campaign) => MatchesQuery(q, c)), Order(rank))
  }

  /** The requested page of matching campaigns. */
  function Shown(cs: seq<Campaign>, q: CampaignQuery, rank: CampaignStatus -> int): seq<Campaign>
    requires q.page >= 1 && q.limit >= 1
  {
    Page(Ordered(cs, q, rank), q.page, q.limit)
  }

  lemma ShownProperties(cs: seq<Campaign>, q: CampaignQuery, rank: CampaignStatus -> int)
    requires q.page >= 1 && q.limit >= 1
    ensures var shown := Shown(cs, q, rank);
      && (forall i :: 0 <= i < |shown| ==> MatchesQuery(q, shown[i]) && shown[i] in cs)
      && (forall i, j :: 0 <= i < j < |shown| ==> CampaignBefore(rank, shown[i], shown[j]))
  {
    OrderIsTotalPreorder(rank);
    ListingPage(cs, (c: Campaign) => MatchesQuery(q, c), Order(rank), q.page, q.limit);
    var shown := Shown(cs, q, rank);
    forall i, j | 0 <= i < j < |shown| ensures CampaignBefore(rank, shown[i], shown[j]) {
      assert Order(rank)(shown[i], shown[j]);
    }
  }

  /** The views of one page: only matching campaigns, in status-rank order and
      newest first within a status, with the reach withheld from non-admins. */
  function ListedViews(cs: seq<Campaign>, q: CampaignQuery, rank: CampaignStatus -> int, isAdmin: bool)
    : (v: seq<CampaignView>)
    requires q.page >= 1 && q.limit >= 1
    ensures |v| == |Shown(cs, q, rank)| <= q.limit
    ensures forall i :: 0 <= i < |v| ==>
      && v[i] == ViewOf(Shown(cs, q, rank)[i], isAdmin)
      && Shown(cs, q, rank)[i] in cs
      && (Given(q.status) ==> CampaignStatusName(v[i].status) == q.status.value)
      && (Given(q.department) ==> ContainsInsensitive(v[i].department, q.department.value))
      && (v[i].reach.Some? <==> isAdmin)
    ensures forall i, j :: 0 <= i < j < |v| ==>
      rank(v[i].status) < rank(v[j].status) || (rank(v[i].status) == rank(v[j].status) && v[i].date >= v[j].date)
  {
    ShownProperties(cs, q, rank);
    var shown := Shown(cs, q, rank);
    seq(|shown|, i requires 0 <= i < |shown| => ViewOf(shown[i], isAdmin))
  }

  /** The number of campaigns with status `s` (`count({ where: { status } })`). */
  function CountStatus(cs: seq<Campaign>, s: CampaignStatus): (n: nat)
    ensures n <= |cs|
    ensures n == 0 <==> forall i :: 0 <= i < |cs| ==> cs[i].status != s
    ensures n == |Filter(cs, (c: Campaign) => c.status == s)|
  {
    if cs == [] then 0 else (if cs[0].status == s then 1 else 0) + CountStatus(cs[1..], s)
  }

  /** The summed reach of some campaigns. */
  function SumReach(cs: seq<Campaign>): int {
    if cs == [] then 0 else cs[0].reach + SumReach(cs[1..])
  }

  /** The summed reach of the completed campaigns (`_sum.reach || 0`: the
      sum over no rows is null, which reads as 0). */
  function CompletedReach(cs: seq<Campaign>): (r: int)
    ensures (forall i :: 0 <= i < |cs| ==> cs[i].reach >= 0) ==> r >= 0
    ensures (forall i :: 0 <= i < |cs| ==> cs[i].status != Completed) ==> r == 0
  {
    if cs == [] then 0 else (if cs[0].status == Completed then cs[0].reach else 0) + CompletedReach(cs[1..])
  }

  /** The reach in the statistics is the reach of the completed campaigns
      summed: the rows the aggregate selects, added up. */
  lemma {:induction false} CompletedReachIsSum(cs: seq<Campaign>)
    ensures CompletedReach(cs) == SumReach(Filter(cs, (c: Campaign) => c.status == Completed))
    decreases |cs|
  {
    if cs != [] {
      var done := (c: Campaign) => c.status == Completed;
      CompletedReachIsSum(cs[1..]);
      var tail := Filter(cs[1..], done);
      if done(cs[0]) {
        assert Filter(cs, done) == [cs[0]] + tail;
        assert ([cs[0]] + tail)[1..] == tail;
      } else {
        assert Filter(cs, done) == tail;
      }
    }
  }

  datatype CampaignStats = CampaignStats(
    total: nat, active: nat, scheduled: nat, completed: nat, draft: nat, totalReach: int)

  /** The admin statistics: `total` is the filtered count, the per-status
      counts and the reach are over every campaign. */
  function Statistics(cs: seq<Campaign>, totalCount: nat): (r: CampaignStats)
    ensures r.total == totalCount
    ensures r.active == CountStatus(cs, Active) && r.scheduled == CountStatus(cs, Scheduled)
    ensures r.completed == CountStatus(cs, Completed) && r.draft == CountStatus(cs, Draft)
    ensures r.totalReach == CompletedReach(cs) == SumReach(Filter(cs, (c: Campaign) => c.status == Completed))
    ensures r.active + r.scheduled + r.completed + r.draft == |cs|
    ensures r.completed == 0 ==> r.totalReach == 0
  {
    StatusCountsAddUp(cs);
    CompletedReachIsSum(cs);
    CampaignStats(totalCount, CountStatus(cs, Active), CountStatus(cs, Scheduled), CountStatus(cs, Completed),
                  CountStatus(cs, Draft), CompletedReach(cs))
  }

  lemma {:induction false} StatusCountsAddUp(cs: seq<Campaign>)
    ensures CountStatus(cs, Active) + CountStatus(cs, Scheduled) + CountStatus(cs, Completed) + CountStatus(cs, Draft) == |cs|
    decreases |cs|
  {
    if cs != [] {
      StatusCountsAddUp(cs[1..]);
    }
  }

  datatype CampaignListing = CampaignListing(
    campaigns: seq<CampaignView>, page: int, limit: int, totalCount: nat, totalPages: nat,
    statistics: Option<CampaignStats>, status: Option<string>, department: Option<string>)

  /** `caller` is the outcome of the authentication gate. */
  function ListCampaigns(caller: Result<User, AuthError>, cs: seq<Campaign>, q: CampaignQuery, rank: CampaignStatus -> int)
    : (r: Reply<CampaignListing>)
    requires q.page >= 1 && q.limit >= 1
    ensures caller.Failure? ==> r == UserGateReply(caller.error)
    ensures caller.Success? && !StatusUsable(q) ==> r == InternalError()
    ensures r.Ok? <==> caller.Success? && StatusUsable(q)
    ensures r.Ok? ==>
      var isAdmin := caller.value.userType == Admin;
      && r.status == OK
      && r.value.campaigns == ListedViews(cs, q, rank, isAdmin)
      && r.value.totalCount == Count(cs, (c: Campaign) => MatchesQuery(q, c))
      && r.value.totalPages == CeilDiv(r.value.totalCount, q.limit)
      && (r.value.statistics.Some? <==> isAdmin)
      && (isAdmin ==> r.value.statistics == Some(Statistics(cs, r.value.totalCount)))
      && r.value.status == q.status && r.value.department == q.department
  {
    if caller.Failure? then UserGateReply(caller.error)
    else if !StatusUsable(q) then InternalError()
    else
      var isAdmin := caller.value.userType == Admin;
      var total := Count(cs, (c: Campaign) => MatchesQuery(q, c));
      Ok(OK, CampaignListing(ListedViews(cs, q, rank, isAdmin), q.page, q.limit, total, CeilDiv(total, q.limit),
                             if isAdmin then Some(Statistics(cs, total)) else None, q.status, q.department))
  }

  /** A caller who is not an admin sees neither any reach nor the statistics. */
  lemma ReachHiddenFromNonAdmins(caller: User, cs: seq<Campaign>, q: CampaignQuery, rank: CampaignStatus -> int)
    requires q.page >= 1 && q.limit >= 1
    requires caller.userType != Admin
    ensures var r := ListCampaigns(Success(caller), cs, q, rank);
      r.Ok? ==> r.value.statistics.None? && forall i :: 0 <= i < |r.value.campaigns| ==> r.value.campaigns[i].reach.None?
  {
  }

  /** Unfiltered, an admin's total is the sum of the four status counts. */
  lemma UnfilteredTotalIsStatusSum(caller: User, cs: seq<Campaign>, page: int, limit: int, rank: CampaignStatus -> int)
    requires page >= 1 && limit >= 1
    requires caller.userType == Admin
    ensures var s := ListCampaigns(Success(caller), cs, CampaignQuery(None, None, page, limit), rank).value.statistics.value;
      s.total == s.active + s.scheduled + s.completed + s.draft
  {
    FilterAll(cs, (c: Campaign) => MatchesQuery(CampaignQuery(None, None, page, limit), c));
  }

  // ---- PATCH ----

  /** The update data after the date conversion: `date` is taken out of the
      fields and converted when it is truthy. */
  datatype CampaignUpdate = CampaignUpdate(fields: map<string, Json>, date: Option<int>)

  /** `if (updateData.date) updateData.date = new Date(updateData.date)`;
      `toDate` yields None for an invalid date, which the database rejects. */
  function UpdateData(body: Json, toDate: Json -> Option<int>): (r: Option<CampaignUpdate>)
    requires body.JObj?
    ensures r.Some? ==> "campaignId" !in r.value.fields
    ensures r.Some? ==> (r.value.date.Some? <==> Truthy(Get(body, "date")))
    ensures r.Some? && r.value.date.Some? ==> "date" !in r.value.fields && toDate(body.fields["date"]) == r.value.date
    ensures r.Some? ==> forall k :: k in r.value.fields <==> k in body.fields && k != "campaignId" && (k != "date" || r.value.date.None?)
    ensures r.None? <==> Truthy(Get(body, "date")) && toDate(body.fields["date"]).None?
  {
    var rest := Rest(body, "campaignId");
    if Truthy(Get(body, "date")) then
      match toDate(body.fields["date"])
      case None => None
      case Some(t) => Some(CampaignUpdate(rest - {"date"}, Some(t)))
    else Some(CampaignUpdate(rest, None))
  }

  /** `apply` is the database update: the updated row, or None when the
      database rejects the data. */
  function UpdateCampaign(caller: Result<User, AuthError>, body: Option<Json>, cs: seq<Campaign>,
                          toDate: Json -> Option<int>, apply: (Campaign, CampaignUpdate) -> Option<Campaign>)
    : (r: Outcome<Saved, seq<Campaign>>)
    ensures caller.Failure? ==> r.reply == AuthReply(caller.error)
    ensures r.reply.Error? ==> r.store == cs
    ensures caller.Success? && body.Some? && !body.value.JNull? && !Truthy(Get(body.value, "campaignId")) ==>
      r.reply == Error(BAD_REQUEST, "Campaign ID is required")
    ensures caller.Success? && body.Some? && Get(body.value, "campaignId").Some?
            && Get(body.value, "campaignId").value.JStr? && Get(body.value, "campaignId").value.s != ""
            && FindCampaign(cs, Get(body.value, "campaignId").value.s).None? ==>
      r.reply == Error(NOT_FOUND, "Campaign not found")
    ensures caller.Success? && (body.None? || body.value.JNull?) ==> r.reply == InternalError()
    ensures caller.Success? && body.Some? && Truthy(Get(body.value, "campaignId")) && !Get(body.value, "campaignId").value.JStr? ==>
      r.reply == InternalError()
    ensures r.reply.Ok? <==>
      && caller.Success? && body.Some?
      && var id := Get(body.value, "campaignId");
      && id.Some? && id.value.JStr? && id.value.s != ""
      && FindCampaign(cs, id.value.s).Some?
      && UpdateData(body.value, toDate).Some?
      && apply(cs[FindCampaign(cs, id.value.s).value], UpdateData(body.value, toDate).value).Some?
    ensures caller.Success? && body.Some? && Get(body.value, "campaignId").Some? && Get(body.value, "campaignId").value.JStr?
            && Get(body.value, "campaignId").value.s != "" && FindCampaign(cs, Get(body.value, "campaignId").value.s).Some?
            && (UpdateData(body.value, toDate).None? || apply(cs[FindCampaign(cs, Get(body.value, "campaignId").value.s).value], UpdateData(body.value, toDate).value).None?) ==>
      r.reply == InternalError()
    ensures r.reply.Ok? ==>
      && caller.Success? && body.Some? && Get(body.value, "campaignId").Some? && Get(body.value, "campaignId").value.JStr?
      && FindCampaign(cs, Get(body.value, "campaignId").value.s).Some?
      && UpdateData(body.value, toDate).Some?
      && var k := FindCampaign(cs, Get(body.value, "campaignId").value.s).value;
      && r.reply.status == OK && r.reply.value.message == "Campaign updated successfully"
      && apply(cs[k], UpdateData(body.value, toDate).value) == Some(r.reply.value.campaign)
      && |r.store| == |cs| && r.store[k] == r.reply.value.campaign
      && forall i :: 0 <= i < |cs| && i != k ==> r.store[i] == cs[i]
  {
    if caller.Failure? then Outcome(AuthReply(caller.error), cs)
    else if body.None? || body.value.JNull? then Outcome(InternalError(), cs)
    else
      var id := Get(body.value, "campaignId");
      if !Truthy(id) then Outcome(Error(BAD_REQUEST, "Campaign ID is required"), cs)
      else if !id.value.JStr? then Outcome(InternalError(), cs)
      else match FindCampaign(cs, id.value.s)
        case None => Outcome(Error(NOT_FOUND, "Campaign not found"), cs)
        case Some(k) =>
          match UpdateData(body.value, toDate)
          case None => Outcome(InternalError(), cs)
          case Some(data) =>
            match apply(cs[k], data)
            case None => Outcome(InternalError(), cs)
            case Some(u) => Outcome(Ok(OK, Saved("Campaign updated successfully", u)), cs[k := u])
  }

  /** When the database keeps a row's id, updating keeps campaign ids unique. */
  lemma UpdateKeepsIdsUnique(caller: Result<User, AuthError>, body: Option<Json>, cs: seq<Campaign>,
                             toDate: Json -> Option<int>, apply: (Campaign, CampaignUpdate) -> Option<Campaign>)
    requires IdsUnique(cs)
    requires forall c, d :: apply(c, d).Some? ==> apply(c, d).value.id == c.id
    ensures IdsUnique(UpdateCampaign(caller, body, cs, toDate, apply).store)
  {
  }

  /** Updating an unknown id answers 404 and changes nothing, whatever the
      update function would do. */
  lemma UnknownCampaignNotFound(caller: User, id: string, fields: map<string, Json>, cs: seq<Campaign>,
                                toDate: Json -> Option<int>, apply: (Campaign, CampaignUpdate) -> Option<Campaign>)
    requires id != "" && FindCampaign(cs, id).None?
    ensures var body := JObj(fields["campaignId" := JStr(id)]);
      UpdateCampaign(Success(caller), Some(body), cs, toDate, apply) == Outcome(Error(NOT_FOUND, "Campaign not found"), cs)
  {
  }
}
