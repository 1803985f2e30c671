/** The mentor-profile route: create-once (POST) for mentors and admins, and
    partial update (PATCH) of the caller's existing profile. */
module MentorProfileRoute {
  import opened Common
  import opened JsonValues
  import opened Users
  import opened Auth
  import opened Validations
  import opened Mentors

  /** The created or updated profile with its owner's public fields. */
  datatype ProfileReply = ProfileReply(message: string, profile: MentorProfile, ownerName: string, ownerEmail: string)

  /** The column defaults the database gives a new profile. */
  datatype ProfileDefaults = ProfileDefaults(isAvailable: bool, rating: real)

  predicate MayCreateProfile(u: User) {
    u.userType == Mentor || u.userType == Admin
  }

  /** POST.  `body` is None when the request body is not JSON; `newId` and
      `now` are what the database assigns. */
  function CreateProfile(
    caller: Result<User, AuthError>,
    body: Option<Json>,
    profiles: seq<MentorProfile>,
    newId: string,
    now: int,
    defaults: ProfileDefaults): (r: Outcome<ProfileReply, seq<MentorProfile>>)
    ensures caller.Failure? ==> r.reply == UserGateReply(caller.error)
    ensures caller.Success? && !MayCreateProfile(caller.value) ==> r.reply.Error? && r.reply.status == FORBIDDEN
    ensures caller.Success? && MayCreateProfile(caller.value) && body.Some? && ParseProfile(body.value).None? ==>
      r.reply.Error? && r.reply.status == BAD_REQUEST
    ensures caller.Success? && MayCreateProfile(caller.value) && body.Some? && ParseProfile(body.value).Some?
            && FindProfile(profiles, caller.value.id).Some? ==>
      r.reply.Error? && r.reply.status == CONFLICT
    ensures caller.Success? && MayCreateProfile(caller.value) && body.None? ==> r.reply == InternalError()
    ensures caller.Success? && MayCreateProfile(caller.value) && body.Some? && ParseProfile(body.value).Some?
            && FindProfile(profiles, caller.value.id).None? && (exists i :: 0 <= i < |profiles| && profiles[i].id == newId) ==>
      r.reply == InternalError()
    ensures r.reply.Ok? <==>
      && caller.Success? && MayCreateProfile(caller.value)
      && body.Some? && ParseProfile(body.value).Some?
      && FindProfile(profiles, caller.value.id).None?
      && forall i :: 0 <= i < |profiles| ==> profiles[i].id != newId
    ensures r.reply.Error? ==> r.store == profiles
    ensures r.reply.Ok? ==>
      && caller.Success? && MayCreateProfile(caller.value)
      && body.Some? && ParseProfile(body.value).Some?
      && FindProfile(profiles, caller.value.id).None?
      && var input := ParseProfile(body.value).value;
      && r.reply.status == CREATED
      && r.reply.value.profile == MentorProfile(newId, caller.value.id, input.department, input.year, input.specialties,
                                                input.bio, defaults.isAvailable, defaults.rating, now)
      && r.store == profiles + [r.reply.value.profile]
  {
    if caller.Failure? then Outcome(UserGateReply(caller.error), profiles)
    else if !MayCreateProfile(caller.value) then Outcome(Error(FORBIDDEN, "Only mentors can create mentor profiles"), profiles)
    else if body.None? then Outcome(InternalError(), profiles)
    else match ParseProfile(body.value)
      case None => Outcome(Error(BAD_REQUEST, "Validation failed"), profiles)
      case Some(input) =>
        if FindProfile(profiles, caller.value.id).Some? then
          Outcome(Error(CONFLICT, "Mentor profile already exists. Use PATCH to update."), profiles)
        else if exists i :: 0 <= i < |profiles| && profiles[i].id == newId then Outcome(InternalError(), profiles)
        else
          var p := MentorProfile(newId, caller.value.id, input.department, input.year, input.specialties,
                                 input.bio, defaults.isAvailable, defaults.rating, now);
          Outcome(Ok(CREATED, ProfileReply("Mentor profile created successfully", p, caller.value.fullName, caller.value.email)),
                  profiles + [p])
  }

  /** Creating profiles never gives a user a second one. */
  lemma CreateKeepsOwnersUnique(caller: Result<User, AuthError>, body: Option<Json>, profiles: seq<MentorProfile>,
                                newId: string, now: int, defaults: ProfileDefaults)
    requires ProfileOwnersUnique(profiles)
    ensures ProfileOwnersUnique(CreateProfile(caller, body, profiles, newId, now, defaults).store)
  {
  }

  /** The fields a partial update supplies, written over the stored profile. */
  function ApplyPatch(p: MentorProfile, patch: ProfilePatch): (r: MentorProfile)
    ensures r.id == p.id && r.userId == p.userId && r.isAvailable == p.isAvailable
            && r.rating == p.rating && r.createdAt == p.createdAt
    ensures r.department == patch.department.GetOr(p.department)
    ensures r.year == patch.year.GetOr(p.year)
    ensures r.specialties == patch.specialties.GetOr(p.specialties)
    ensures r.bio == if patch.bio.Some? then patch.bio else p.bio
  {
    p.(department := patch.department.GetOr(p.department),
       year := patch.year.GetOr(p.year),
       specialties := patch.specialties.GetOr(p.specialties),
       bio := if patch.bio.Some? then patch.bio else p.bio)
  }

  /** PATCH: no role check; the caller's own profile must exist. */
  function UpdateProfile(caller: Result<User, AuthError>, body: Option<Json>, profiles: seq<MentorProfile>)
    : (r: Outcome<ProfileReply, seq<MentorProfile>>)
    ensures caller.Failure? ==> r.reply == UserGateReply(caller.error)
    ensures caller.Success? && body.Some? && ParseProfilePatch(body.value).None? ==>
      r.reply.Error? && r.reply.status == BAD_REQUEST
    ensures caller.Success? && body.Some? && ParseProfilePatch(body.value).Some? && FindProfile(profiles, caller.value.id).None? ==>
      r.reply.Error? && r.reply.status == NOT_FOUND
    ensures caller.Success? && body.None? ==> r.reply == InternalError()
    ensures r.reply.Ok? <==>
      && caller.Success? && body.Some? && ParseProfilePatch(body.value).Some?
      && FindProfile(profiles, caller.value.id).Some?
    ensures r.reply.Error? ==> r.store == profiles
    ensures r.reply.Ok? ==>
      && caller.Success? && body.Some? && ParseProfilePatch(body.value).Some?
      && FindProfile(profiles, caller.value.id).Some?
      && var k := FindProfile(profiles, caller.value.id).value;
      && r.reply.status == OK
      && r.store == profiles[k := ApplyPatch(profiles[k], ParseProfilePatch(body.value).value)]
      && r.reply.value.profile == r.store[k]
  {
    if caller.Failure? then Outcome(UserGateReply(caller.error), profiles)
    else if body.None? then Outcome(InternalError(), profiles)
    else match ParseProfilePatch(body.value)
      case None => Outcome(Error(BAD_REQUEST, "Validation failed"), profiles)
      case Some(patch) =>
        match FindProfile(profiles, caller.value.id)
        case None => Outcome(Error(NOT_FOUND, "Mentor profile not found"), profiles)
        case Some(k) =>
          var updated := ApplyPatch(profiles[k], patch);
          Outcome(Ok(OK, ProfileReply("Mentor profile updated successfully", updated, caller.value.fullName, caller.value.email)),
                  profiles[k := updated])
  }

  /** An update that supplies no field leaves the profile as it was. */
  lemma EmptyPatchChangesNothing(caller: User, profiles: seq<MentorProfile>)
    ensures UpdateProfile(Success(caller), Some(JObj(map[])), profiles).store == profiles
  {
    var r := UpdateProfile(Success(caller), Some(JObj(map[])), profiles);
    if r.reply.Ok? {
      var k := FindProfile(profiles, caller.id).value;
      assert ApplyPatch(profiles[k], ParseProfilePatch(JObj(map[])).value) == profiles[k];
    }
  }

  /** The update looks only at who the caller is, not at the caller's role:
      a student with a profile may change it just like a mentor. */
  lemma UpdateIgnoresRole(caller: User, t: UserType, body: Option<Json>, profiles: seq<MentorProfile>)
    ensures UpdateProfile(Success(caller.(userType := t)), body, profiles).store == UpdateProfile(Success(caller), body, profiles).store
  {
  }

  /** Updating keeps one profile per user. */
  lemma UpdateKeepsOwnersUnique(caller: Result<User, AuthError>, body: Option<Json>, profiles: seq<MentorProfile>)
    requires ProfileOwnersUnique(profiles)
    ensures ProfileOwnersUnique(UpdateProfile(caller, body, profiles).store)
  {
  }
}
