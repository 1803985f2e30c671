/** How the handlers hide a person's identity according to the person's
    anonymity level.  The crisis-alert views test the level with JavaScript
    truthiness first (`level && level > 50`), so a level of 0 behaves as
    "no level" there; the connection and mentor views compare directly. */
module Redaction {
  import opened Common
  import opened Users

  const ANONYMOUS: string := "Anonymous"
  const ANONYMOUS_STUDENT: string := "Anonymous Student"
  const ANONYMOUS_MENTOR: string := "Anonymous Mentor"

  // ---- crisis-alert reporter ----

  /** The reporter block of an alert in the admin listing.  `canContact` is
      the truthiness of `level && level < 50`. */
  datatype ReporterView = ReporterView(id: Option<string>, name: string, email: Option<string>, canContact: bool)

  /** `user?.anonymityLevel && user.anonymityLevel > 50 ? 'Anonymous Student' : user?.fullName || 'Anonymous'`;
      also the `reporter` string of the admin notification. */
  function ReporterName(user: Option<User>): (r: string)
    ensures user.Some? && user.value.anonymityLevel > 50 ==> r == ANONYMOUS_STUDENT
    ensures user.Some? && user.value.anonymityLevel <= 50 ==>
      r == (if user.value.fullName != "" then user.value.fullName else ANONYMOUS)
    ensures user.None? ==> r == ANONYMOUS
  {
    if user.Some? && user.value.anonymityLevel != 0 && user.value.anonymityLevel > 50 then ANONYMOUS_STUDENT
    else if user.Some? && user.value.fullName != "" then user.value.fullName
    else ANONYMOUS
  }

  function RedactReporter(user: Option<User>): (r: ReporterView)
    ensures r.name == ReporterName(user)
    ensures r.id == (if user.Some? && user.value.id != "" then Some(user.value.id) else None)
    ensures r.email.Some? <==> user.Some? && user.value.anonymityLevel != 0 && user.value.anonymityLevel < 30
    ensures r.email.Some? ==> r.email.value == user.value.email
    ensures r.canContact <==> user.Some? && user.value.anonymityLevel != 0 && user.value.anonymityLevel < 50
  {
    match user
    case None => ReporterView(None, ANONYMOUS, None, false)
    case Some(u) =>
      var level := u.anonymityLevel;
      ReporterView(
        if u.id != "" then Some(u.id) else None,
        ReporterName(user),
        if level != 0 && level < 30 then Some(u.email) else None,
        level != 0 && level < 50)
  }

  /** The reporter's email reaches the admin only with contact allowed. */
  lemma EmailImpliesContact(user: Option<User>)
    ensures RedactReporter(user).email.Some? ==> RedactReporter(user).canContact
  {
  }

  /** Away from level 0 the reporter view follows the reference threshold
      rule: name hidden above 50, email shown below 30, contact below 50. */
  lemma ReporterFollowsThresholds(u: User)
    requires u.anonymityLevel != 0 && u.fullName != ""
    ensures var r := RedactReporter(Some(u));
      && (r.name == ANONYMOUS_STUDENT || r.name == u.fullName)
      && (u.anonymityLevel > 50 ==> r.name == ANONYMOUS_STUDENT)
      && (u.anonymityLevel <= 50 ==> r.name == u.fullName)
      && (r.email.Some? <==> u.anonymityLevel < 30)
      && (r.canContact <==> u.anonymityLevel < 50)
  {
  }

  /** At level 0, the most open setting, the reporter's name is shown but the
      email and contact permission are withheld, unlike at level 1. */
  lemma LevelZeroWithholdsContact(u: User)
    requires u.anonymityLevel == 0
    ensures RedactReporter(Some(u)).email.None? && !RedactReporter(Some(u)).canContact
    ensures RedactReporter(Some(u.(anonymityLevel := 1))).email == Some(u.email)
    ensures RedactReporter(Some(u.(anonymityLevel := 1))).canContact
    ensures ReporterName(Some(u)) == ReporterName(Some(u.(anonymityLevel := 1)))
  {
  }

  // ---- connection parties and mentor listings ----

  /** A person as the connection listing shows them. */
  datatype PartyView = PartyView(id: string, fullName: string, email: Option<string>, anonymityLevel: int)

  /** `fullName: level > 70 ? anonymousName : fullName`, `email: level < 30 ? email : null`. */
  function RedactParty(u: User, anonymousName: string): (r: PartyView)
    ensures r.id == u.id && r.anonymityLevel == u.anonymityLevel
    ensures r.fullName == if u.anonymityLevel > 70 then anonymousName else u.fullName
    ensures r.email == if u.anonymityLevel < 30 then Some(u.email) else None
  {
    PartyView(u.id, if u.anonymityLevel > 70 then anonymousName else u.fullName,
              if u.anonymityLevel < 30 then Some(u.email) else None, u.anonymityLevel)
  }

  /** Raising one's anonymity level never reveals more: a name hidden at a
      lower level stays hidden, an email shown at a higher level was shown. */
  lemma PartyViewMonotone(u: User, higher: int, anonymousName: string)
    requires u.anonymityLevel <= higher
    ensures var lo := RedactParty(u, anonymousName);
            var hi := RedactParty(u.(anonymityLevel := higher), anonymousName);
      && (lo.fullName == anonymousName && u.fullName != anonymousName ==> hi.fullName == anonymousName)
      && (hi.email.Some? ==> lo.email == hi.email)
  {
  }

  /** The 30-70 band shows neither the email nor hides the name. */
  lemma PartyViewBands(u: User, anonymousName: string)
    requires u.fullName != anonymousName
    ensures var v := RedactParty(u, anonymousName);
      && (v.email.Some? ==> v.fullName == u.fullName)
      && (30 <= u.anonymityLevel <= 70 <==> v.email.None? && v.fullName == u.fullName)
  {
  }
}
