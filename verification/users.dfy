/** The user table as the handlers see it through the database client. */
module Users {
  import opened Common

  datatype UserType = Student | Mentor | Admin

  datatype User = User(
    id: string,
    email: string,
    passwordHash: string,
    fullName: string,
    userType: UserType,
    anonymityLevel: int,
    isActive: bool)

  /** The names the database enum and the request schemas use. */
  function UserTypeName(t: UserType): string {
    match t
    case Student => "student"
    case Mentor => "mentor"
    case Admin => "admin"
  }

  function ParseUserType(s: string): (r: Option<UserType>)
    ensures r.Some? ==> UserTypeName(r.value) == s
  {
    if s == "student" then Some(Student)
    else if s == "mentor" then Some(Mentor)
    else if s == "admin" then Some(Admin)
    else None
  }

  lemma UserTypeRoundTrip(t: UserType)
    ensures ParseUserType(UserTypeName(t)) == Some(t)
  {
  }

  /** `findUnique({ where: { id } })`. */
  function FindUser(users: seq<User>, id: string): (r: Option<User>)
    ensures r.Some? ==> r.value in users && r.value.id == id
    ensures r.None? <==> forall i :: 0 <= i < |users| ==> users[i].id != id
  {
    if users == [] then None
    else if users[0].id == id then Some(users[0])
    else FindUser(users[1..], id)
  }

  predicate UniqueIds(users: seq<User>) {
    forall i, j :: 0 <= i < j < |users| ==> users[i].id != users[j].id
  }

  predicate HasUser(users: seq<User>, id: string) {
    exists i :: 0 <= i < |users| && users[i].id == id
  }

  /** With unique ids, a user in the table is the one found by its id. */
  lemma FindUserUnique(users: seq<User>, k: nat)
    requires UniqueIds(users) && k < |users|
    ensures FindUser(users, users[k].id) == Some(users[k])
  {
    var r := FindUser(users, users[k].id);
    var m :| 0 <= m < |users| && users[m] == r.value;
  }

  /** The columns a handler selects when it returns a user: everything but
      the password hash. */
  datatype Account = Account(
    id: string, email: string, fullName: string, userType: UserType, anonymityLevel: int, isActive: bool)

  function AccountOf(u: User): (a: Account)
    ensures a.id == u.id && a.email == u.email && a.fullName == u.fullName
    ensures a.userType == u.userType && a.anonymityLevel == u.anonymityLevel && a.isActive == u.isActive
  {
    Account(u.id, u.email, u.fullName, u.userType, u.anonymityLevel, u.isActive)
  }

  /** `findUnique({ where: { id } })`, as an index into the table. */
  function IndexOfUser(users: seq<User>, id: string): (r: Option<nat>)
    ensures r.Some? ==> r.value < |users| && users[r.value].id == id
    ensures r.None? <==> forall i :: 0 <= i < |users| ==> users[i].id != id
  {
    if users == [] then None
    else if users[0].id == id then Some(0)
    else match IndexOfUser(users[1..], id)
      case None => None
      case Some(i) => Some(i + 1)
  }
}
