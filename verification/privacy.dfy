/** The privacy route: a signed-in user sets their own anonymity level and
    nothing else. */
module Privacy {
  import opened Common
  import opened JsonValues
  import opened Users
  import opened Auth
  import opened Validations

  /** The 200 body: the updated account and the update time. */
  datatype PrivacyReply = PrivacyReply(message: string, user: Account, updatedAt: int)

  const PRIVACY_MESSAGE: string := "Privacy settings updated successfully"

  /** PATCH.  `caller` is the outcome of the authentication gate, `body` the
      parsed request body (None when it is not JSON), `now` the update time. */
  function UpdatePrivacy(caller: Result<User, AuthError>, body: Option<Json>, users: seq<User>, now: int)
    : (r: Outcome<PrivacyReply, seq<User>>)
    ensures caller.Failure? ==> r.reply == UserGateReply(caller.error)
    ensures r.reply.Error? ==> r.store == users
    ensures caller.Success? && body.Some? && ParsePrivacy(body.value).None? ==>
      r.reply == Error(BAD_REQUEST, "Validation failed")
    ensures r.reply.Ok? <==>
      caller.Success? && body.Some? && ParsePrivacy(body.value).Some? && IndexOfUser(users, caller.value.id).Some?
    ensures r.reply.Ok? ==>
      var level := ParsePrivacy(body.value).value;
      var k := IndexOfUser(users, caller.value.id).value;
      && r.reply.status == OK && r.reply.value.message == PRIVACY_MESSAGE
      && 0 <= level <= 100
      && |r.store| == |users|
      && r.store[k] == users[k].(anonymityLevel := level)
      && (forall i :: 0 <= i < |users| && i != k ==> r.store[i] == users[i])
      && r.reply.value.user == AccountOf(r.store[k])
      && r.reply.value.user.anonymityLevel == level
  {
    if caller.Failure? then Outcome(UserGateReply(caller.error), users)
    else if body.None? then Outcome(InternalError(), users)
    else match ParsePrivacy(body.value)
      case None => Outcome(Error(BAD_REQUEST, "Validation failed"), users)
      case Some(level) =>
        match IndexOfUser(users, caller.value.id)
        case None => Outcome(InternalError(), users)
        case Some(k) =>
          var updated := users[k].(anonymityLevel := level);
          Outcome(Ok(OK, PrivacyReply(PRIVACY_MESSAGE, AccountOf(updated), now)), users[k := updated])
  }

  /** A signed-in caller is always in the table, so a valid update succeeds. */
  lemma ValidUpdateSucceeds(header: Option<string>, verifyToken: string -> Option<Payload>, users: seq<User>,
                            body: Json, now: int)
    requires GetAuthenticatedUser(header, verifyToken, users).Success?
    requires ParsePrivacy(body).Some?
    ensures UpdatePrivacy(GetAuthenticatedUser(header, verifyToken, users), Some(body), users, now).reply.Ok?
  {
    var u := GetAuthenticatedUser(header, verifyToken, users).value;
    var i :| 0 <= i < |users| && users[i] == u;
  }

  /** A level outside 0..100 is refused and nothing is written. */
  lemma OutOfRangeRefused(caller: User, level: int, users: seq<User>, now: int)
    requires level < 0 || level > 100
    ensures var r := UpdatePrivacy(Success(caller), Some(JObj(map["anonymityLevel" := JNum(level)])), users, now);
      r.reply == Error(BAD_REQUEST, "Validation failed") && r.store == users
  {
  }

  /** Sending the same level twice leaves the table as one update does. */
  lemma UpdateIdempotent(caller: User, body: Json, users: seq<User>, now: int, later: int)
    ensures var once := UpdatePrivacy(Success(caller), Some(body), users, now).store;
      UpdatePrivacy(Success(caller), Some(body), once, later).store == once
  {
    var once := UpdatePrivacy(Success(caller), Some(body), users, now).store;
    if IndexOfUser(users, caller.id).Some? && ParsePrivacy(body).Some? {
      assert IndexOfUser(once, caller.id) == IndexOfUser(users, caller.id) by {
        IndexAfterUpdate(users, once, caller.id);
      }
    }
  }

  /** Changing fields other than the id does not move a user in the table. */
  lemma {:induction false} IndexAfterUpdate(users: seq<User>, users': seq<User>, id: string)
    requires |users'| == |users|
    requires forall i :: 0 <= i < |users| ==> users'[i].id == users[i].id
    ensures IndexOfUser(users', id) == IndexOfUser(users, id)
    decreases |users|
  {
    if users != [] && users[0].id != id {
      IndexAfterUpdate(users[1..], users'[1..], id);
    }
  }

  /** Only the anonymity level changes: every user keeps their id, email,
      name, role, activity and password hash. */
  lemma OnlyAnonymityChanges(caller: User, body: Json, users: seq<User>, now: int)
    ensures var s := UpdatePrivacy(Success(caller), Some(body), users, now).store;
      && |s| == |users|
      && forall i :: 0 <= i < |users| ==> s[i].(anonymityLevel := users[i].anonymityLevel) == users[i]
  {
  }
}
