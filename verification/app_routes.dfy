/** The client's routing: the query retry policy, the dashboard each role
    is sent to, and what the sign-in, sign-up, dashboard and role pages show
    for a session. */
module AppRoutes {
  import opened Common
  import opened Users
  import opened AuthSession

  // ---- the retry policy ----

  const MAX_FAILURES: int := 3

  /** `retry(failureCount, error)`: never after a 401 or 403 response,
      otherwise while fewer than three failures are counted.  `status` is
      the response status, None when the request got no response. */
  function Retry(failureCount: int, status: Option<int>): (r: bool)
    ensures status == Some(401) || status == Some(403) ==> !r
    ensures status != Some(401) && status != Some(403) ==> (r <==> failureCount < MAX_FAILURES)
  {
    if status == Some(401) || status == Some(403) then false
    else failureCount < MAX_FAILURES
  }

  /** The number of attempts made when successive attempts fail with the
      given statuses, the policy being asked after each failure with the
      count of failures before it, starting from `count`.  Running out of
      statuses is a success. */
  function Attempts(statuses: seq<Option<int>>, count: nat): nat
  {
    if statuses == [] then 0
    else if Retry(count, statuses[0]) then 1 + Attempts(statuses[1..], count + 1)
    else 1
  }

  /** However the attempts fail, a query starting from no failures is tried
      at most four times, and an authentication failure ends it at once. */
  lemma {:induction false} AttemptsBounded(statuses: seq<Option<int>>, count: nat)
    ensures Attempts(statuses, count) <= if count <= MAX_FAILURES then MAX_FAILURES - count + 1 else 1
    ensures statuses != [] && (statuses[0] == Some(401) || statuses[0] == Some(403)) ==> Attempts(statuses, count) == 1
    decreases statuses
  {
    if statuses != [] && Retry(count, statuses[0]) {
      AttemptsBounded(statuses[1..], count + 1);
    }
  }

  /** Four network failures in a row use up the policy: the query is tried
      exactly four times. */
  lemma {:induction false} FourAttemptsOnRepeatedFailure(statuses: seq<Option<int>>)
    requires |statuses| >= 4
    requires forall i :: 0 <= i < |statuses| ==> statuses[i] != Some(401) && statuses[i] != Some(403)
    ensures Attempts(statuses, 0) == 4
  {
    var s := statuses;
    assert Attempts(s[3..], 3) == 1;
    assert Attempts(s[2..], 2) == 1 + Attempts(s[2..][1..], 3);
    assert s[2..][1..] == s[3..];
    assert Attempts(s[1..], 1) == 1 + Attempts(s[1..][1..], 2);
    assert s[1..][1..] == s[2..];
    assert Attempts(s, 0) == 1 + Attempts(s[1..], 1);
  }

  // ---- role dashboards ----

  /** The dashboard a user is sent to: admins to /admin, mentors to /mentor,
      anyone else (no user included) to /student. */
  function HomePath(user: Option<User>): (p: string)
    ensures p == "/admin" <==> user.Some? && user.value.userType == Admin
    ensures p == "/mentor" <==> user.Some? && user.value.userType == Mentor
    ensures p == "/student" <==> user.None? || user.value.userType == Student
  {
    assert "/admin"[1] == 'a' && "/mentor"[1] == 'm' && "/student"[1] == 's';
    match user
    case Some(u) =>
      (match u.userType
       case Admin => "/admin"
       case Mentor => "/mentor"
       case Student => "/student")
    case None => "/student"
  }

  /** The role each dashboard's route requires. */
  function DashboardRole(path: string): (r: Option<UserType>)
    ensures r.Some? <==> path in {"/admin", "/mentor", "/student"}
  {
    match path
    case "/admin" => Some(Admin)
    case "/mentor" => Some(Mentor)
    case "/student" => Some(Student)
    case _ => None
  }

  // ---- the pages ----

  datatype View = Loading | Show | Redirect(to: string)

  /** `/login` and `/register`: the form for a signed-out visitor, otherwise
      a redirect to the user's dashboard; nothing but the spinner while the
      session loads. */
  function SignInPage(s: Session): (v: View)
    ensures v == Loading <==> s.loading
    ensures v == Show <==> !s.loading && !IsAuthenticated(s)
    ensures v.Redirect? ==> IsAuthenticated(s) && v.to == HomePath(s.user)
  {
    if s.loading then Loading
    else if !IsAuthenticated(s) then Show
    else Redirect(HomePath(s.user))
  }

  /** `/dashboard`: the user's dashboard when signed in, else `/login`. */
  function DashboardPage(s: Session): (v: View)
    ensures v == Loading <==> s.loading
    ensures !s.loading ==> v.Redirect?
    ensures !s.loading ==> (v.to == "/login" <==> !IsAuthenticated(s))
    ensures !s.loading && IsAuthenticated(s) ==> v.to == HomePath(s.user)
  {
    if s.loading then Loading
    else if IsAuthenticated(s) then Redirect(HomePath(s.user))
    else Redirect("/login")
  }

  /** A signed-in user sent away from the sign-in page, or from /dashboard,
      lands on a dashboard whose gate lets them in. */
  lemma RedirectLandsOnOwnDashboard(s: Session)
    requires !s.loading && IsAuthenticated(s)
    ensures SignInPage(s).Redirect? && DashboardPage(s) == SignInPage(s)
    ensures ProtectedRoute(s, true, DashboardRole(SignInPage(s).to)) == Children
  {
  }

  /** The other dashboards turn a signed-in user away. */
  lemma OtherDashboardsDenied(s: Session, path: string)
    requires !s.loading && IsAuthenticated(s)
    requires DashboardRole(path).Some? && path != HomePath(s.user)
    ensures ProtectedRoute(s, true, DashboardRole(path)) == AccessDenied
  {
  }

  /** A signed-out visitor of /dashboard is sent to the sign-in page, which
      then shows the form. */
  lemma SignedOutGoesToLogin(s: Session)
    requires !s.loading && !IsAuthenticated(s)
    ensures DashboardPage(s) == Redirect("/login")
    ensures SignInPage(s) == Show
  {
  }
}
