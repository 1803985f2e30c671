/** Mentor profiles and the mentor directory (GET of the mentors route):
    availability, department and specialty filters, rating order,
    pagination and name redaction. */
module Mentors {
  import opened Common
  import opened Text
  import opened Seqs
  import opened Sorting
  import opened Paging
  import opened Users
  import opened Auth
  import opened Redaction

  /** A stored mentor profile; `userId` is unique among profiles. */
  datatype MentorProfile = MentorProfile(
    id: string,
    userId: string,
    department: string,
    year: string,
    specialties: seq<string>,
    bio: Option<string>,
    isAvailable: bool,
    rating: real,
    createdAt: int)

  /** `findUnique({ where: { userId } })`, as an index into the profiles. */
  function FindProfile(profiles: seq<MentorProfile>, userId: string): (r: Option<nat>)
    ensures r.Some? ==> r.value < |profiles| && profiles[r.value].userId == userId
    ensures r.None? <==> forall i :: 0 <= i < |profiles| ==> profiles[i].userId != userId
  {
    FindFirst(profiles, (p: MentorProfile) => p.userId == userId)
  }

  predicate ProfileOwnersUnique(profiles: seq<MentorProfile>) {
    forall i, j :: 0 <= i < j < |profiles| ==> profiles[i].userId != profiles[j].userId
  }

  /** Every profile belongs to a stored user. */
  predicate ProfilesLinked(profiles: seq<MentorProfile>, users: seq<User>) {
    forall i :: 0 <= i < |profiles| ==> FindUser(users, profiles[i].userId).Some?
  }

  // ---- query ----

  datatype DirectoryQuery = DirectoryQuery(
    department: Option<string>, specialty: Option<string>, available: Option<string>, page: int, limit: int)

  /** `available === 'false' ? false : true`. */
  function WantedAvailability(available: Option<string>): (r: bool)
    ensures !r <==> available == Some("false")
  {
    available != Some("false")
  }

  predicate MatchesQuery(q: DirectoryQuery, p: MentorProfile) {
    && p.isAvailable == WantedAvailability(q.available)
    && (Given(q.department) ==> ContainsInsensitive(p.department, q.department.value))
    && (Given(q.specialty) ==> q.specialty.value in p.specialties)
  }

  /** `orderBy: [{ rating: 'desc' }, { createdAt: 'desc' }]`. */
  predicate ProfileBefore(a: MentorProfile, b: MentorProfile) {
    a.rating > b.rating || (a.rating == b.rating && a.createdAt >= b.createdAt)
  }

  lemma ProfileBeforeIsTotalPreorder()
    ensures TotalPreorder(ProfileBefore)
  {
  }

  // ---- view ----

  datatype MentorUserView = MentorUserView(id: string, fullName: string, anonymityLevel: int)

  datatype MentorView = MentorView(
    id: string, department: string, year: string, specialties: seq<string>, bio: Option<string>,
    isAvailable: bool, rating: real, createdAt: int, user: MentorUserView)

  /** The directory entry of a profile whose owner is `u`. */
  function MentorViewOf(p: MentorProfile, u: User): (v: MentorView)
    ensures v.user.fullName == if u.anonymityLevel > 70 then ANONYMOUS_MENTOR else u.fullName
    ensures v.user.fullName == RedactParty(u, ANONYMOUS_MENTOR).fullName
    ensures v.user.id == u.id && v.user.anonymityLevel == u.anonymityLevel
    ensures v.id == p.id && v.department == p.department && v.year == p.year && v.specialties == p.specialties
            && v.bio == p.bio && v.isAvailable == p.isAvailable && v.rating == p.rating && v.createdAt == p.createdAt
  {
    MentorView(p.id, p.department, p.year, p.specialties, p.bio, p.isAvailable, p.rating, p.createdAt,
               MentorUserView(u.id, if u.anonymityLevel > 70 then ANONYMOUS_MENTOR else u.fullName, u.anonymityLevel))
  }

  function OwnerOf(p: MentorProfile, users: seq<User>): User
    requires FindUser(users, p.userId).Some?
  {
    FindUser(users, p.userId).value
  }

  datatype DirectoryPage = DirectoryPage(mentors: seq<MentorView>, page: int, limit: int, totalCount: nat, totalPages: nat)

  function Matching(profiles: seq<MentorProfile>, q: DirectoryQuery): seq<MentorProfile> {
    SortBy(Filter(profiles, (p: MentorProfile) => MatchesQuery(q, p)), ProfileBefore)
  }

  function ViewsOf(shown: seq<MentorProfile>, users: seq<User>): (v: seq<MentorView>)
    requires forall i :: 0 <= i < |shown| ==> FindUser(users, shown[i].userId).Some?
    ensures |v| == |shown|
    ensures forall i :: 0 <= i < |shown| ==> v[i] == MentorViewOf(shown[i], OwnerOf(shown[i], users))
  {
    seq(|shown|, i requires 0 <= i < |shown| => MentorViewOf(shown[i], OwnerOf(shown[i], users)))
  }

  /** The requested page of matching profiles, in directory order. */
  function Shown(profiles: seq<MentorProfile>, q: DirectoryQuery): seq<MentorProfile>
    requires q.page >= 1 && q.limit >= 1
  {
    Page(Matching(profiles, q), q.page, q.limit)
  }

  lemma ShownProperties(profiles: seq<MentorProfile>, q: DirectoryQuery, users: seq<User>)
    requires q.page >= 1 && q.limit >= 1
    requires ProfilesLinked(profiles, users)
    ensures var shown := Shown(profiles, q);
      && (forall i :: 0 <= i < |shown| ==> MatchesQuery(q, shown[i]) && FindUser(users, shown[i].userId).Some?)
      && (forall i, j :: 0 <= i < j < |shown| ==> ProfileBefore(shown[i], shown[j]))
  {
    ProfileBeforeIsTotalPreorder();
    ListingPage(profiles, (p: MentorProfile) => MatchesQuery(q, p), ProfileBefore, q.page, q.limit);
    var shown := Shown(profiles, q);
    forall i | 0 <= i < |shown| ensures FindUser(users, shown[i].userId).Some? {
      LinkedHasOwner(profiles, users, shown[i]);
    }
    forall i, j | 0 <= i < j < |shown| ensures ProfileBefore(shown[i], shown[j]) {
      assert Sorted(shown, ProfileBefore);
    }
  }

  /** The directory entries of one page: only matching mentors, best rated
      first, names hidden above level 70. */
  function DirectoryViews(profiles: seq<MentorProfile>, q: DirectoryQuery, users: seq<User>): (v: seq<MentorView>)
    requires q.page >= 1 && q.limit >= 1
    requires ProfilesLinked(profiles, users)
    ensures |v| == |Shown(profiles, q)| <= q.limit
    ensures forall i :: 0 <= i < |v| ==>
      && v[i].isAvailable == WantedAvailability(q.available)
      && (Given(q.specialty) ==> q.specialty.value in v[i].specialties)
      && (Given(q.department) ==> ContainsInsensitive(v[i].department, q.department.value))
      && FindUser(users, Shown(profiles, q)[i].userId).Some?
      && v[i].user.fullName == if v[i].user.anonymityLevel > 70 then ANONYMOUS_MENTOR
                               else FindUser(users, Shown(profiles, q)[i].userId).value.fullName
    ensures forall i, j :: 0 <= i < j < |v| ==> v[i].rating >= v[j].rating
  {
    ShownProperties(profiles, q, users);
    ViewsOf(Shown(profiles, q), users)
  }

  /** The mentor directory. `caller` is the outcome of the authentication gate. */
  function ListMentors(caller: Result<User, AuthError>, q: DirectoryQuery, profiles: seq<MentorProfile>, users: seq<User>)
    : (r: Reply<DirectoryPage>)
    requires q.page >= 1 && q.limit >= 1
    requires ProfilesLinked(profiles, users)
    ensures caller.Failure? ==> r == UserGateReply(caller.error)
    ensures caller.Success? ==> r.Ok? && r.status == OK
    ensures r.Ok? ==>
      && r.value.mentors == DirectoryViews(profiles, q, users)
      && r.value.totalCount == Count(profiles, (p: MentorProfile) => MatchesQuery(q, p))
      && r.value.totalPages == CeilDiv(r.value.totalCount, q.limit)
  {
    if caller.Failure? then UserGateReply(caller.error)
    else
      var total := Count(profiles, (p: MentorProfile) => MatchesQuery(q, p));
      Ok(OK, DirectoryPage(DirectoryViews(profiles, q, users), q.page, q.limit, total, CeilDiv(total, q.limit)))
  }

  lemma MatchingSelectedAndSorted(profiles: seq<MentorProfile>, q: DirectoryQuery, users: seq<User>)
    requires ProfilesLinked(profiles, users)
    ensures forall p :: p in Matching(profiles, q) ==> MatchesQuery(q, p) && FindUser(users, p.userId).Some?
    ensures Sorted(Matching(profiles, q), ProfileBefore)
  {
    var sel := Filter(profiles, (p: MentorProfile) => MatchesQuery(q, p));
    SortByMembers(sel, ProfileBefore);
    ProfileBeforeIsTotalPreorder();
    SortBySorted(sel, ProfileBefore);
    forall p | p in Matching(profiles, q) ensures MatchesQuery(q, p) && FindUser(users, p.userId).Some? {
      assert p in sel;
      LinkedHasOwner(profiles, users, p);
    }
  }

  lemma LinkedHasOwner(profiles: seq<MentorProfile>, users: seq<User>, p: MentorProfile)
    requires ProfilesLinked(profiles, users) && p in profiles
    ensures FindUser(users, p.userId).Some?
  {
    var i :| 0 <= i < |profiles| && profiles[i] == p;
  }

  /** Without an `available` parameter only available mentors are listed;
      "false" lists only unavailable ones; any other value behaves as absent. */
  lemma AvailabilityDefault(q: DirectoryQuery, p: MentorProfile)
    ensures q.available.None? ==> (MatchesQuery(q, p) ==> p.isAvailable)
    ensures q.available == Some("false") ==> (MatchesQuery(q, p) ==> !p.isAvailable)
    ensures q.available != Some("false") ==> MatchesQuery(q, p) == MatchesQuery(q.(available := None), p)
  {
  }

  /** The department filter ignores letter case on either side. */
  lemma {:induction false} DepartmentFilterIgnoresCase(q: DirectoryQuery, p: MentorProfile)
    requires Given(q.department)
    ensures MatchesQuery(q, p) == MatchesQuery(q.(department := Some(Lower(q.department.value))), p)
  {
    LowerIdempotent(q.department.value);
    assert Lower(q.department.value) != [] by {
      assert |Lower(q.department.value)| == |q.department.value|;
    }
  }
}
