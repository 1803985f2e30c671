/** The registration route: validate, refuse a known email, hash the
    password, create the user and sign a token for them.  Hashing and token
    signing are library calls; they are parameters here, and signing yields
    None when it throws (no signing secret configured). */
module Registration {
  import opened Common
  import opened Text
  import opened JsonValues
  import opened Users
  import opened Auth
  import opened Validations

  /** What the database fills in on create. */
  datatype NewRow = NewRow(id: string, createdAt: int, isActive: bool)

  /** The 201 body: the account (never the password hash) and the token. */
  datatype Registered = Registered(message: string, user: Account, createdAt: int, token: string)

  /** `findUnique({ where: { email } })`. */
  predicate EmailTaken(users: seq<User>, email: string) {
    exists i :: 0 <= i < |users| && users[i].email == email
  }

  predicate EmailsUnique(users: seq<User>) {
    forall i, j :: 0 <= i < j < |users| ==> users[i].email != users[j].email
  }

  /** The claims signed into a user's token. */
  function PayloadOf(a: Account): (p: Payload)
    ensures p.userId == a.id && p.email == a.email && p.userType == UserTypeName(a.userType)
  {
    Payload(a.id, a.email, UserTypeName(a.userType))
  }

  /** The user a valid registration body creates. */
  function NewUser(input: RegisterInput, hash: string -> string, row: NewRow): (u: User)
    ensures u.id == row.id && u.email == input.email && u.passwordHash == hash(input.password)
    ensures u.fullName == input.fullName && u.userType == input.userType
    ensures u.anonymityLevel == input.anonymityLevel && u.isActive == row.isActive
  {
    User(row.id, input.email, hash(input.password), input.fullName, input.userType, input.anonymityLevel, row.isActive)
  }

  /** POST.  `body` is None when the request body is not JSON. */
  function Register(body: Option<Json>, f: Formats, users: seq<User>, hash: string -> string,
                    sign: Payload -> Option<string>, row: NewRow): (r: Outcome<Registered, seq<User>>)
    ensures body.None? ==> r == Outcome(InternalError(), users)
    ensures body.Some? && ParseRegister(body.value, f).None? ==> r == Outcome(Error(BAD_REQUEST, "Validation failed"), users)
    ensures body.Some? && ParseRegister(body.value, f).Some? && EmailTaken(users, ParseRegister(body.value, f).value.email) ==>
      r == Outcome(Error(CONFLICT, "User with this email already exists"), users)
    ensures r.reply.Ok? <==>
      && body.Some? && ParseRegister(body.value, f).Some?
      && !EmailTaken(users, ParseRegister(body.value, f).value.email)
      && !HasUser(users, row.id)
      && sign(PayloadOf(AccountOf(NewUser(ParseRegister(body.value, f).value, hash, row)))).Some?
    ensures r.store != users ==>
      && body.Some? && ParseRegister(body.value, f).Some?
      && r.store == users + [NewUser(ParseRegister(body.value, f).value, hash, row)]
    ensures r.reply.Ok? ==>
      var created := NewUser(ParseRegister(body.value, f).value, hash, row);
      && r.reply.status == CREATED && r.reply.value.message == "User registered successfully"
      && r.store == users + [created]
      && r.reply.value.user == AccountOf(created)
      && r.reply.value.createdAt == row.createdAt
      && sign(PayloadOf(r.reply.value.user)) == Some(r.reply.value.token)
  {
    if body.None? then Outcome(InternalError(), users)
    else match ParseRegister(body.value, f)
      case None => Outcome(Error(BAD_REQUEST, "Validation failed"), users)
      case Some(input) =>
        if EmailTaken(users, input.email) then Outcome(Error(CONFLICT, "User with this email already exists"), users)
        else if HasUser(users, row.id) then Outcome(InternalError(), users)
        else
          var created := NewUser(input, hash, row);
          var account := AccountOf(created);
          match sign(PayloadOf(account))
          case None => Outcome(InternalError(), users + [created])
          case Some(token) =>
            Outcome(Ok(CREATED, Registered("User registered successfully", account, row.createdAt, token)), users + [created])
  }

  /** When signing throws the user is already stored, yet the reply is 500. */
  lemma SigningFailureKeepsUser(body: Json, f: Formats, users: seq<User>, hash: string -> string,
                                sign: Payload -> Option<string>, row: NewRow)
    requires ParseRegister(body, f).Some? && !EmailTaken(users, ParseRegister(body, f).value.email)
    requires !HasUser(users, row.id)
    requires forall p :: sign(p).None?
    ensures var r := Register(Some(body), f, users, hash, sign, row);
      r.reply == InternalError() && |r.store| == |users| + 1 && r.store[|users|].email == ParseRegister(body, f).value.email
  {
  }

  /** Registration keeps emails and ids unique. */
  lemma RegisterKeepsUnique(body: Option<Json>, f: Formats, users: seq<User>, hash: string -> string,
                            sign: Payload -> Option<string>, row: NewRow)
    requires EmailsUnique(users) && UniqueIds(users)
    ensures var s := Register(body, f, users, hash, sign, row).store;
      EmailsUnique(s) && UniqueIds(s)
  {
  }

  /** The token handed out authenticates the new user: a verifier that
      returns the signed claims for that token lets the bearer in as the
      created user, when the account starts active. */
  lemma TokenAuthenticatesNewUser(body: Json, f: Formats, users: seq<User>, hash: string -> string,
                                  sign: Payload -> Option<string>, row: NewRow, verifyToken: string -> Option<Payload>)
    requires UniqueIds(users) && row.isActive
    requires Register(Some(body), f, users, hash, sign, row).reply.Ok?
    requires var r := Register(Some(body), f, users, hash, sign, row);
      verifyToken(r.reply.value.token) == Some(PayloadOf(r.reply.value.user))
    ensures var r := Register(Some(body), f, users, hash, sign, row);
      && GetAuthenticatedUser(Some(BEARER + r.reply.value.token), verifyToken, r.store).Success?
      && AccountOf(GetAuthenticatedUser(Some(BEARER + r.reply.value.token), verifyToken, r.store).value) == r.reply.value.user
  {
    var r := Register(Some(body), f, users, hash, sign, row);
    var t := r.reply.value.token;
    var created := NewUser(ParseRegister(body, f).value, hash, row);
    assert StartsWith(BEARER + t, BEARER);
    assert TokenOf(BEARER + t) == t;
    assert UniqueIds(r.store);
    FindUserUnique(r.store, |users|);
  }
}
