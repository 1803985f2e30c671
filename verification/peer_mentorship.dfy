/** The student's peer-mentorship page: the mentor directory request, the
    search/department filter over its result, the displayed mentor name, the
    state of the student's connection with each mentor, the Connect button
    and the connection counters. */
module PeerMentorship {
  import opened Common
  import opened Text
  import opened Seqs
  import opened Users
  import opened Auth
  import opened Redaction
  import opened Mentors
  import opened Connections
  import opened MentorHome

  // ---- the directory request ----

  const DIRECTORY_LIMIT: int := 20

  /** `getMentors({ department: selectedDepartment || undefined, page: 1, limit: 20 })`. */
  function DirectoryRequest(department: string): (q: DirectoryQuery)
    ensures q.department.None? <==> department == ""
    ensures q.department.Some? ==> q.department.value == department
    ensures q.specialty.None? && q.available.None? && q.page == 1 && q.limit == DIRECTORY_LIMIT
  {
    DirectoryQuery(if department == "" then None else Some(department), None, None, 1, DIRECTORY_LIMIT)
  }

  /** The page never sends an availability parameter, so the server lists
      available mentors only, at most 20 of them, from the chosen department. */
  lemma DirectoryShowsAvailableMentors(profiles: seq<MentorProfile>, users: seq<User>, department: string)
    requires ProfilesLinked(profiles, users)
    ensures var v := DirectoryViews(profiles, DirectoryRequest(department), users);
      && |v| <= DIRECTORY_LIMIT
      && forall i :: 0 <= i < |v| ==> v[i].isAvailable && (department != "" ==> ContainsInsensitive(v[i].department, department))
  {
  }

  // ---- the page filter ----

  /** An empty search matches; otherwise the shown name or some specialty
      contains it, ignoring case. */
  predicate MatchesSearch(m: MentorView, search: string) {
    || search == ""
    || ContainsInsensitive(m.user.fullName, search)
    || exists i :: 0 <= i < |m.specialties| && ContainsInsensitive(m.specialties[i], search)
  }

  predicate MatchesDepartment(m: MentorView, department: string) {
    department == "" || ContainsInsensitive(m.department, department)
  }

  /** `filteredMentors`. */
  function FilteredMentors(mentors: seq<MentorView>, search: string, department: string): (r: seq<MentorView>)
    ensures forall m :: m in r <==> m in mentors && MatchesSearch(m, search) && MatchesDepartment(m, department)
    ensures IsSubsequence(r, mentors)
  {
    FilterIsSubsequence(mentors, (m: MentorView) => MatchesSearch(m, search) && MatchesDepartment(m, department));
    Filter(mentors, (m: MentorView) => MatchesSearch(m, search) && MatchesDepartment(m, department))
  }

  /** Clearing both filters shows the whole directory page. */
  lemma ClearedFiltersShowAll(mentors: seq<MentorView>)
    ensures FilteredMentors(mentors, "", "") == mentors
  {
    FilterAll(mentors, (m: MentorView) => MatchesSearch(m, "") && MatchesDepartment(m, ""));
  }

  /** A mentor hidden above level 70 cannot be found by name: the name the
      search sees is "Anonymous Mentor", so only a search contained in that
      (or in a specialty) finds them. */
  lemma HiddenMentorNotFoundByName(p: MentorProfile, u: User, search: string)
    requires u.anonymityLevel > 70
    requires forall i :: 0 <= i < |p.specialties| ==> !ContainsInsensitive(p.specialties[i], search)
    ensures MatchesSearch(MentorViewOf(p, u), search) <==> search == "" || ContainsInsensitive(ANONYMOUS_MENTOR, search)
  {
  }

  // ---- one mentor card ----

  /** The card's heading. */
  function DisplayName(m: MentorView): (r: string)
    ensures m.user.anonymityLevel > 70 ==> r == ANONYMOUS_MENTOR
  {
    if m.user.anonymityLevel > 70 then ANONYMOUS_MENTOR else m.user.fullName
  }

  /** The page applies the server's own threshold again, so the heading is
      the name the server already redacted. */
  lemma DisplayNameIsServerRedaction(p: MentorProfile, u: User)
    ensures DisplayName(MentorViewOf(p, u)) == RedactParty(u, ANONYMOUS_MENTOR).fullName
    ensures DisplayName(MentorViewOf(p, u)) == (if u.anonymityLevel > 70 then ANONYMOUS_MENTOR else u.fullName)
  {
  }

  /** The student's connection with a mentor as the card reads it. */
  datatype ConnectionState = ConnectionState(isConnected: bool, isPending: bool)

  /** `connections.find(c => c.mentor.id === mentorId)` and its status. */
  function ConnectionStateOf(connections: seq<ConnectionView>, mentorId: string): (r: ConnectionState)
    ensures !(r.isConnected && r.isPending)
    ensures var k := FindFirst(connections, (c: ConnectionView) => c.mentor.id == mentorId);
      && (r.isConnected <==> k.Some? && connections[k.value].status == ACCEPTED)
      && (r.isPending <==> k.Some? && connections[k.value].status == PENDING)
  {
    match FindFirst(connections, (c: ConnectionView) => c.mentor.id == mentorId)
    case None => ConnectionState(false, false)
    case Some(k) => ConnectionState(connections[k].status == ACCEPTED, connections[k].status == PENDING)
  }

  /** What the card offers: Chat to a connected mentor, otherwise Connect,
      which is disabled while a request is pending or in flight or while the
      mentor is busy. */
  datatype CardAction = Chat | Connect(enabled: bool)

  function CardActionFor(m: MentorView, connections: seq<ConnectionView>, requestInFlight: bool): (r: CardAction)
    ensures r.Chat? <==> ConnectionStateOf(connections, m.user.id).isConnected
    ensures r.Connect? ==>
      (r.enabled <==> (!ConnectionStateOf(connections, m.user.id).isPending && m.isAvailable && !requestInFlight))
  {
    var s := ConnectionStateOf(connections, m.user.id);
    if s.isConnected then Chat else Connect(!s.isPending && m.isAvailable && !requestInFlight)
  }

  /** An enabled Connect button means the student has no accepted or
      pending connection (as first listed) with that mentor. */
  lemma EnabledConnectMeansNoOpenConnection(m: MentorView, connections: seq<ConnectionView>, requestInFlight: bool)
    requires CardActionFor(m, connections, requestInFlight) == Connect(true)
    ensures forall k ::
      (&& 0 <= k < |connections| && connections[k].mentor.id == m.user.id
       && (forall j :: 0 <= j < k ==> connections[j].mentor.id != m.user.id))
      ==> connections[k].status != ACCEPTED && connections[k].status != PENDING
  {
  }

  // ---- the counters ----

  /** "Active Mentors", "Total Connections" and "Pending Requests". */
  datatype Counters = Counters(active: nat, total: nat, pending: nat)

  function CountersOf(connections: seq<ConnectionView>): (r: Counters)
    ensures r.active == |ActiveConnections(connections)| && r.pending == |PendingConnections(connections)|
    ensures r.total == |connections|
    ensures r.active + r.pending <= r.total
  {
    TabsPartition(connections);
    Counters(Count(connections, (c: ConnectionView) => c.status == ACCEPTED), |connections|,
             Count(connections, (c: ConnectionView) => c.status == PENDING))
  }

  /** A card marked connected is backed by a connection the "Active Mentors"
      counter counts, and a pending card by one "Pending Requests" counts. */
  lemma CardStateIsCounted(connections: seq<ConnectionView>, mentorId: string)
    ensures var s := ConnectionStateOf(connections, mentorId);
      && (s.isConnected ==> exists c :: c in ActiveConnections(connections) && c.mentor.id == mentorId)
      && (s.isPending ==> exists c :: c in PendingConnections(connections) && c.mentor.id == mentorId)
  {
    var k := FindFirst(connections, (c: ConnectionView) => c.mentor.id == mentorId);
    if k.Some? {
      assert connections[k.value] in connections;
    }
  }
}
