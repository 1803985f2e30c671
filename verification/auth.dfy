/** The bearer-token gate in front of every protected handler.  Token
    verification (a JWT library call that also needs the signing secret) is a
    parameter: it yields the token's payload or nothing when it throws. */
module Auth {
  import opened Common
  import opened Text
  import opened Users

  /** The claims a token carries. */
  datatype Payload = Payload(userId: string, email: string, userType: string)

  /** The two error messages the handlers distinguish. */
  datatype AuthError = AuthenticationFailed | AdminAccessRequired

  const BEARER: string := "Bearer "

  /** The token part of an `authorization` header: the header with its first
      seven characters removed. */
  function TokenOf(header: string): string
    requires StartsWith(header, BEARER)
  {
    header[|BEARER|..]
  }

  /** `getAuthenticatedUser`: every internal failure is reported as the single
      error "Authentication failed". */
  function GetAuthenticatedUser(
    header: Option<string>,
    verifyToken: string -> Option<Payload>,
    users: seq<User>): (r: Result<User, AuthError>)
    ensures r.Failure? ==> r.error == AuthenticationFailed
    ensures r.Success? <==>
      && header.Some? && StartsWith(header.value, BEARER)
      && verifyToken(TokenOf(header.value)).Some?
      && FindUser(users, verifyToken(TokenOf(header.value)).value.userId).Some?
      && FindUser(users, verifyToken(TokenOf(header.value)).value.userId).value.isActive
    ensures r.Success? ==> r.value in users && r.value.isActive
  {
    if header.None? || !StartsWith(header.value, BEARER) then Failure(AuthenticationFailed)
    else
      match verifyToken(TokenOf(header.value))
      case None => Failure(AuthenticationFailed)
      case Some(payload) =>
        match FindUser(users, payload.userId)
        case None => Failure(AuthenticationFailed)
        case Some(user) => if user.isActive then Success(user) else Failure(AuthenticationFailed)
  }

  /** `getAuthenticatedAdmin`: authenticate, then demand the admin role. */
  function GetAuthenticatedAdmin(
    header: Option<string>,
    verifyToken: string -> Option<Payload>,
    users: seq<User>): (r: Result<User, AuthError>)
    ensures var u := GetAuthenticatedUser(header, verifyToken, users);
      && (u.Failure? ==> r == u)
      && (u.Success? && u.value.userType != Admin ==> r == Failure(AdminAccessRequired))
      && (u.Success? && u.value.userType == Admin ==> r == u)
  {
    match GetAuthenticatedUser(header, verifyToken, users)
    case Failure(e) => Failure(e)
    case Success(user) => if user.userType != Admin then Failure(AdminAccessRequired) else Success(user)
  }

  /** Only the part of the header after "Bearer " reaches token verification:
      two verifiers that agree on it authenticate the same way. */
  lemma OnlyTokenIsVerified(t: string, v1: string -> Option<Payload>, v2: string -> Option<Payload>, users: seq<User>)
    requires v1(t) == v2(t)
    ensures GetAuthenticatedUser(Some(BEARER + t), v1, users) == GetAuthenticatedUser(Some(BEARER + t), v2, users)
  {
    assert StartsWith(BEARER + t, BEARER);
    assert TokenOf(BEARER + t) == t;
  }

  /** Without a header that starts with "Bearer ", no verifier and no user table
      lets a request through. */
  lemma NoBearerNoAccess(header: Option<string>, verifyToken: string -> Option<Payload>, users: seq<User>)
    requires header.None? || !StartsWith(header.value, BEARER)
    ensures GetAuthenticatedUser(header, verifyToken, users) == Failure(AuthenticationFailed)
    ensures GetAuthenticatedAdmin(header, verifyToken, users) == Failure(AuthenticationFailed)
  {
  }

  /** A valid token for an inactive or unknown user is refused, the same as a bad token. */
  lemma InactiveUserRefused(t: string, verifyToken: string -> Option<Payload>, users: seq<User>)
    requires verifyToken(t).Some?
    requires var u := FindUser(users, verifyToken(t).value.userId); u.None? || !u.value.isActive
    ensures GetAuthenticatedUser(Some(BEARER + t), verifyToken, users) == Failure(AuthenticationFailed)
  {
    assert StartsWith(BEARER + t, BEARER);
    assert TokenOf(BEARER + t) == t;
  }

  /** How a handler answers an authentication failure. */
  function AuthReply<T>(e: AuthError): (r: Reply<T>)
    ensures r.Error?
    ensures r.status == (if e == AuthenticationFailed then UNAUTHORIZED else FORBIDDEN)
  {
    match e
    case AuthenticationFailed => Error(UNAUTHORIZED, "Unauthorized")
    case AdminAccessRequired => Error(FORBIDDEN, "Admin access required")
  }

  /** How a handler that only authenticates (and catches nothing else by
      name) answers a failure: "Authentication failed" is 401, anything else 500. */
  function UserGateReply<T>(e: AuthError): (r: Reply<T>)
    ensures r.Error?
    ensures r.status == (if e == AuthenticationFailed then UNAUTHORIZED else INTERNAL_ERROR)
  {
    match e
    case AuthenticationFailed => Error(UNAUTHORIZED, "Unauthorized")
    case AdminAccessRequired => InternalError()
  }
}
