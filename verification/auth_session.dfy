/** The client's authentication context: the signed-in user and token, the
    copies kept in local storage, the derived flags, the transitions that
    change them, and the protected-route gate.  The network calls behind a
    transition are parameters: their outcome is given. */
module AuthSession {
  import opened Common
  import opened Users

  /** The context's state together with the two local-storage entries
      (`auth_token`, `user_data`); None is an absent entry or a null value. */
  datatype Session = Session(
    user: Option<User>,
    token: Option<string>,
    loading: bool,
    storedToken: Option<string>,
    storedUser: Option<User>)

  /** The state on mount, before the stored entries are read. */
  function Mounted(storedToken: Option<string>, storedUser: Option<User>): (s: Session)
    ensures s.user.None? && s.token.None? && s.loading
  {
    Session(None, None, true, storedToken, storedUser)
  }

  // ---- derived flags ----

  /** A string is truthy when present and non-empty. */
  predicate Truthy(v: Option<string>) {
    v.Some? && v.value != ""
  }

  /** `!!user && !!token`: a user object is always truthy, an empty token is not. */
  predicate IsAuthenticated(s: Session) {
    s.user.Some? && Truthy(s.token)
  }

  predicate IsAdmin(s: Session) {
    s.user.Some? && s.user.value.userType == Admin
  }

  predicate IsStudent(s: Session) {
    s.user.Some? && s.user.value.userType == Student
  }

  predicate IsMentor(s: Session) {
    s.user.Some? && s.user.value.userType == Mentor
  }

  /** At most one role flag is set, and exactly one whenever there is a
      user; the flags do not look at the token. */
  lemma RoleFlagsExclusive(s: Session)
    ensures !(IsAdmin(s) && IsStudent(s)) && !(IsAdmin(s) && IsMentor(s)) && !(IsStudent(s) && IsMentor(s))
    ensures s.user.Some? <==> IsAdmin(s) || IsStudent(s) || IsMentor(s)
  {
  }

  // ---- the stored copy ----

  /** What the context holds is also in storage, so a reload finds it. */
  predicate Persisted(s: Session) {
    && (s.user.Some? ==> s.storedUser == s.user)
    && (s.token.Some? ==> s.storedToken == s.token)
  }

  // ---- transitions ----

  /** The first effect: with both stored entries truthy, adopt them and ask
      the server for the current user; `current` is its answer (None when the
      request or the parse of the stored user fails), on failure both entries
      and both fields are cleared.  Loading ends either way. */
  function InitAuth(s: Session, current: Option<User>): (r: Session)
    ensures !r.loading
    ensures Truthy(s.storedToken) && s.storedUser.Some? && current.Some? ==>
      r == Session(current, s.storedToken, false, s.storedToken, current)
    ensures Truthy(s.storedToken) && s.storedUser.Some? && current.None? ==>
      r == Session(None, None, false, None, None)
    ensures !(Truthy(s.storedToken) && s.storedUser.Some?) ==> r == s.(loading := false)
  {
    if Truthy(s.storedToken) && s.storedUser.Some? then
      match current
      case Some(u) => Session(Some(u), s.storedToken, false, s.storedToken, Some(u))
      case None => Session(None, None, false, None, None)
    else s.(loading := false)
  }

  /** A successful `login` or `register`: the returned user and token are
      adopted and stored.  A failed one rethrows and changes nothing. */
  function SignIn(s: Session, answer: Option<(User, string)>): (r: Session)
    ensures answer.None? ==> r == s
    ensures answer.Some? ==> r.user == Some(answer.value.0) && r.token == Some(answer.value.1)
    ensures answer.Some? ==> r.storedUser == r.user && r.storedToken == r.token && r.loading == s.loading
  {
    match answer
    case None => s
    case Some((u, t)) => Session(Some(u), Some(t), s.loading, Some(t), Some(u))
  }

  /** `logout`: both fields and both stored entries are cleared. */
  function Logout(s: Session): (r: Session)
    ensures r.user.None? && r.token.None? && r.storedUser.None? && r.storedToken.None?
    ensures r.loading == s.loading
  {
    Session(None, None, s.loading, None, None)
  }

  /** `updateUser`: the user is replaced in the context and in storage; the token is kept. */
  function UpdateUser(s: Session, u: User): (r: Session)
    ensures r.user == Some(u) && r.storedUser == Some(u)
    ensures r.token == s.token && r.storedToken == s.storedToken && r.loading == s.loading
  {
    s.(user := Some(u), storedUser := Some(u))
  }

  /** Every transition keeps the stored copy in step with the context, and
      the mounted state starts in step. */
  lemma TransitionsKeepPersisted(s: Session, current: Option<User>, answer: Option<(User, string)>, u: User)
    requires Persisted(s)
    ensures Persisted(InitAuth(s, current))
    ensures Persisted(SignIn(s, answer))
    ensures Persisted(Logout(s))
    ensures Persisted(UpdateUser(s, u))
    ensures forall t, v :: Persisted(Mounted(t, v))
  {
  }

  /** Logging out and a failed revalidation both leave nobody signed in and
      nothing for a reload to restore. */
  lemma SignedOutStates(s: Session)
    requires Truthy(s.storedToken) && s.storedUser.Some?
    ensures !IsAuthenticated(Logout(s)) && Logout(s).storedToken.None? && Logout(s).storedUser.None?
    ensures var r := InitAuth(s, None);
      !IsAuthenticated(r) && r.user.None? && r.token.None? && r.storedToken.None? && r.storedUser.None?
  {
  }

  /** A successful revalidation signs the stored user's current record in
      with the stored token. */
  lemma RevalidationSignsIn(s: Session, current: User)
    requires Truthy(s.storedToken) && s.storedUser.Some?
    ensures IsAuthenticated(InitAuth(s, Some(current)))
    ensures InitAuth(s, Some(current)).user == Some(current)
  {
  }

  /** A reload after signing in restores the same user and token when the
      server still knows the user; a reload after logging out restores nobody. */
  lemma ReloadRestores(s: Session, u: User, t: string)
    requires t != ""
    ensures var after := SignIn(s, Some((u, t)));
      var reloaded := InitAuth(Mounted(after.storedToken, after.storedUser), Some(u));
      reloaded.user == Some(u) && reloaded.token == Some(t) && IsAuthenticated(reloaded)
    ensures var out := Logout(s);
      var reloaded := InitAuth(Mounted(out.storedToken, out.storedUser), Some(u));
      reloaded.user.None? && reloaded.token.None?
  {
  }

  // ---- the protected-route gate ----

  datatype Gate = Spinner | AuthenticationRequired | AccessDenied | Children

  /** `ProtectedRoute`: the spinner while loading, then the sign-in notice
      when a user is required and absent, then the denial when a role is
      required and the user's type differs (an absent user differs from
      every role), and otherwise the page. */
  function ProtectedRoute(s: Session, requireAuth: bool, requiredRole: Option<UserType>): (g: Gate)
    ensures g == Spinner <==> s.loading
    ensures g == AuthenticationRequired <==> !s.loading && requireAuth && s.user.None?
    ensures g == AccessDenied <==>
      && !s.loading && !(requireAuth && s.user.None?)
      && requiredRole.Some? && (s.user.None? || s.user.value.userType != requiredRole.value)
  {
    if s.loading then Spinner
    else if requireAuth && s.user.None? then AuthenticationRequired
    else if requiredRole.Some? && (s.user.None? || s.user.value.userType != requiredRole.value) then AccessDenied
    else Children
  }

  /** The page renders exactly when loading is over, a required user is
      present and a required role is the user's type.  The gate reads only
      the user, never the token. */
  lemma GateAdmitsIff(s: Session, requireAuth: bool, requiredRole: Option<UserType>)
    ensures ProtectedRoute(s, requireAuth, requiredRole) == Children <==>
      && !s.loading
      && (requireAuth ==> s.user.Some?)
      && (requiredRole.Some? ==> s.user.Some? && s.user.value.userType == requiredRole.value)
  {
  }

  /** After logging out, no role-protected page renders. */
  lemma LoggedOutSeesNoProtectedPage(s: Session, requireAuth: bool, role: UserType)
    requires !s.loading
    ensures ProtectedRoute(Logout(s), requireAuth, Some(role)) != Children
    ensures requireAuth ==> ProtectedRoute(Logout(s), requireAuth, Some(role)) == AuthenticationRequired
  {
  }
}
