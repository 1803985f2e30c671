/** The request schemas of lib/validations.ts as parsers from a JSON body to
    typed input.  A parser yields None exactly when `safeParse` fails.  The
    email, URL and date-time formats are regular expressions of the schema
    library; they are parameters here. */
module Validations {
  import opened Common
  import opened JsonValues
  import opened Users
  import opened Seqs

  datatype Formats = Formats(
    isEmail: string -> bool,
    isUrl: string -> bool,
    isDateTime: string -> bool)

  // ---- primitives over one property read (None = `undefined`) ----

  predicate IsString(v: Option<Json>) {
    v.Some? && v.value.JStr?
  }

  /** `z.string().min(lo)` (and `.max(hi)` when given). */
  predicate StringLength(v: Option<Json>, lo: int, hi: Option<int>) {
    IsString(v) && lo <= |v.value.s| && (hi.None? || |v.value.s| <= hi.value)
  }

  /** `z.string().optional()`: absent, or a string (`null` is refused). */
  predicate OptionalString(v: Option<Json>) {
    v.None? || IsString(v)
  }

  function OptionalStringValue(v: Option<Json>): Option<string>
    requires OptionalString(v)
  {
    if v.None? then None else Some(v.value.s)
  }

  /** An optional field of the parsed input holds the body's string when the
      body has the property, and nothing when it does not. */
  predicate Carries(v: Option<Json>, x: Option<string>) {
    match x
    case None => v.None?
    case Some(s) => v == Some(JStr(s))
  }

  /** The property a client sends for an optional string: left out when None. */
  function OptionalField(key: string, x: Option<string>): (m: map<string, Json>)
    ensures x.None? ==> m == map[]
    ensures x.Some? ==> m == map[key := JStr(x.value)]
  {
    if x.None? then map[] else map[key := JStr(x.value)]
  }

  /** `z.number().min(lo).max(hi)`. */
  predicate NumberIn(v: Option<Json>, lo: int, hi: int) {
    v.Some? && v.value.JNum? && lo <= v.value.n <= hi
  }

  predicate IsHexDigit(c: char) {
    ('0' <= c <= '9') || ('a' <= c <= 'f') || ('A' <= c <= 'F')
  }

  /** `z.string().uuid()`: 8-4-4-4-12 hexadecimal digits separated by hyphens. */
  predicate IsUuid(s: string) {
    && |s| == 36
    && (forall i :: 0 <= i < 36 ==> if i in {8, 13, 18, 23} then s[i] == '-' else IsHexDigit(s[i]))
  }

  predicate IsUuidValue(v: Option<Json>) {
    IsString(v) && IsUuid(v.value.s)
  }

  // ---- registerSchema ----

  datatype RegisterInput = RegisterInput(
    email: string, password: string, fullName: string, userType: UserType, anonymityLevel: int)

  const DEFAULT_ANONYMITY: int := 50

  predicate RegisterValid(body: Json, f: Formats) {
    && body.JObj?
    && IsString(Get(body, "email")) && f.isEmail(Get(body, "email").value.s)
    && StringLength(Get(body, "password"), 8, None)
    && StringLength(Get(body, "fullName"), 2, None)
    && IsString(Get(body, "userType")) && ParseUserType(Get(body, "userType").value.s).Some?
    && (Get(body, "anonymityLevel").None? || NumberIn(Get(body, "anonymityLevel"), 0, 100))
  }

  function ParseRegister(body: Json, f: Formats): (r: Option<RegisterInput>)
    ensures r.Some? <==> RegisterValid(body, f)
    ensures r.Some? ==>
      && r.value.email == Get(body, "email").value.s
      && r.value.password == Get(body, "password").value.s
      && r.value.fullName == Get(body, "fullName").value.s
      && UserTypeName(r.value.userType) == Get(body, "userType").value.s
      && r.value.anonymityLevel == (if Get(body, "anonymityLevel").None? then DEFAULT_ANONYMITY else Get(body, "anonymityLevel").value.n)
      && 0 <= r.value.anonymityLevel <= 100
  {
    if !RegisterValid(body, f) then None
    else
      var level := Get(body, "anonymityLevel");
      Some(RegisterInput(
        Get(body, "email").value.s,
        Get(body, "password").value.s,
        Get(body, "fullName").value.s,
        ParseUserType(Get(body, "userType").value.s).value,
        if level.None? then DEFAULT_ANONYMITY else level.value.n))
  }

  /** The body a client sends for a registration. */
  function RegisterBody(x: RegisterInput): Json {
    JObj(map[
      "email" := JStr(x.email), "password" := JStr(x.password), "fullName" := JStr(x.fullName),
      "userType" := JStr(UserTypeName(x.userType)), "anonymityLevel" := JNum(x.anonymityLevel)])
  }

  /** A registration within the schema's bounds parses back to itself. */
  lemma RegisterRoundTrip(x: RegisterInput, f: Formats)
    requires f.isEmail(x.email) && |x.password| >= 8 && |x.fullName| >= 2
    requires 0 <= x.anonymityLevel <= 100
    ensures ParseRegister(RegisterBody(x), f) == Some(x)
  {
    UserTypeRoundTrip(x.userType);
  }

  /** An omitted anonymity level registers as 50. */
  lemma RegisterDefaultsAnonymity(body: Json, f: Formats)
    requires RegisterValid(body, f) && "anonymityLevel" !in body.fields
    ensures ParseRegister(body, f).Some? && ParseRegister(body, f).value.anonymityLevel == 50
  {
  }

  // ---- loginSchema ----

  datatype LoginInput = LoginInput(email: string, password: string)

  function ParseLogin(body: Json, f: Formats): (r: Option<LoginInput>)
    ensures r.Some? <==> body.JObj? && IsString(Get(body, "email")) && f.isEmail(Get(body, "email").value.s)
                         && StringLength(Get(body, "password"), 1, None)
    ensures r.Some? ==> r.value == LoginInput(Get(body, "email").value.s, Get(body, "password").value.s)
  {
    var e := Get(body, "email");
    var p := Get(body, "password");
    if body.JObj? && IsString(e) && f.isEmail(e.value.s) && StringLength(p, 1, None)
    then Some(LoginInput(e.value.s, p.value.s))
    else None
  }

  // ---- updatePrivacySchema ----

  /** The anonymity level a privacy update asks for. */
  function ParsePrivacy(body: Json): (r: Option<int>)
    ensures r.Some? <==> body.JObj? && NumberIn(Get(body, "anonymityLevel"), 0, 100)
    ensures r.Some? ==> 0 <= r.value <= 100 && Get(body, "anonymityLevel") == Some(JNum(r.value))
  {
    var v := Get(body, "anonymityLevel");
    if body.JObj? && NumberIn(v, 0, 100) then Some(v.value.n) else None
  }

  // ---- moodEntrySchema ----

  datatype MoodInput = MoodInput(moodScore: int, notes: Option<string>, location: Option<string>)

  function ParseMood(body: Json): (r: Option<MoodInput>)
    ensures r.Some? <==> body.JObj? && NumberIn(Get(body, "moodScore"), 1, 5)
                         && OptionalString(Get(body, "notes")) && OptionalString(Get(body, "location"))
    ensures r.Some? ==> 1 <= r.value.moodScore <= 5 && Get(body, "moodScore") == Some(JNum(r.value.moodScore))
    ensures r.Some? ==> Carries(Get(body, "notes"), r.value.notes) && Carries(Get(body, "location"), r.value.location)
  {
    var score := Get(body, "moodScore");
    var notes := Get(body, "notes");
    var location := Get(body, "location");
    if body.JObj? && NumberIn(score, 1, 5) && OptionalString(notes) && OptionalString(location)
    then Some(MoodInput(score.value.n, OptionalStringValue(notes), OptionalStringValue(location)))
    else None
  }

  /** The body the mood form sends. */
  function MoodBody(x: MoodInput): Json {
    JObj(map["moodScore" := JNum(x.moodScore)] + OptionalField("notes", x.notes) + OptionalField("location", x.location))
  }

  /** A mood entry within the schema's bounds parses back to itself. */
  lemma MoodRoundTrip(x: MoodInput)
    requires 1 <= x.moodScore <= 5
    ensures ParseMood(MoodBody(x)) == Some(x)
  {
    var b := MoodBody(x);
    assert Get(b, "moodScore") == Some(JNum(x.moodScore));
    assert x.notes.Some? ==> Get(b, "notes") == Some(JStr(x.notes.value));
    assert x.notes.None? ==> "notes" !in b.fields;
    assert x.location.Some? ==> Get(b, "location") == Some(JStr(x.location.value));
    assert x.location.None? ==> "location" !in b.fields;
  }

  // ---- chatMessageSchema ----

  const MAX_MESSAGE: int := 1000

  function ParseChatMessage(body: Json): (r: Option<string>)
    ensures r.Some? <==> body.JObj? && StringLength(Get(body, "text"), 1, Some(MAX_MESSAGE))
    ensures r.Some? ==> 1 <= |r.value| <= 1000 && Get(body, "text") == Some(JStr(r.value))
  {
    var t := Get(body, "text");
    if body.JObj? && StringLength(t, 1, Some(MAX_MESSAGE)) then Some(t.value.s) else None
  }

  // ---- mentorProfileSchema and its .partial() ----

  datatype ProfileInput = ProfileInput(department: string, year: string, specialties: seq<string>, bio: Option<string>)

  /** `z.array(z.string()).min(1)`. */
  predicate StringArray(v: Option<Json>, minLength: nat) {
    && v.Some? && v.value.JArr? && |v.value.items| >= minLength
    && forall i :: 0 <= i < |v.value.items| ==> v.value.items[i].JStr?
  }

  function StringsOf(items: seq<Json>): (r: seq<string>)
    requires forall i :: 0 <= i < |items| ==> items[i].JStr?
    ensures |r| == |items| && forall i :: 0 <= i < |items| ==> r[i] == items[i].s
  {
    seq(|items|, i requires 0 <= i < |items| => items[i].s)
  }

  /** Reading the strings out of a string array and wrapping them again gives the array back. */
  lemma StringsOfRoundTrip(items: seq<Json>)
    requires forall i :: 0 <= i < |items| ==> items[i].JStr?
    ensures Map(StringsOf(items), (t: string) => JStr(t)) == items
  {
  }

  predicate ProfileValid(body: Json) {
    && body.JObj?
    && StringLength(Get(body, "department"), 1, None)
    && StringLength(Get(body, "year"), 1, None)
    && StringArray(Get(body, "specialties"), 1)
    && OptionalString(Get(body, "bio"))
  }

  function ParseProfile(body: Json): (r: Option<ProfileInput>)
    ensures r.Some? <==> ProfileValid(body)
    ensures r.Some? ==> r.value.department != [] && r.value.year != [] && |r.value.specialties| >= 1
    ensures r.Some? ==>
      && Get(body, "department") == Some(JStr(r.value.department))
      && Get(body, "year") == Some(JStr(r.value.year))
      && Get(body, "specialties") == Some(JArr(Map(r.value.specialties, (t: string) => JStr(t))))
      && Carries(Get(body, "bio"), r.value.bio)
  {
    if !ProfileValid(body) then None
    else
      StringsOfRoundTrip(Get(body, "specialties").value.items);
      Some(ProfileInput(
      Get(body, "department").value.s,
      Get(body, "year").value.s,
      StringsOf(Get(body, "specialties").value.items),
      OptionalStringValue(Get(body, "bio"))))
  }

  /** The body of a full profile. */
  function ProfileBody(x: ProfileInput): Json {
    JObj(map[
      "department" := JStr(x.department), "year" := JStr(x.year),
      "specialties" := JArr(Map(x.specialties, (t: string) => JStr(t)))] + OptionalField("bio", x.bio))
  }

  /** A profile with a department, a year and a specialty parses back to itself. */
  lemma ProfileRoundTrip(x: ProfileInput)
    requires x.department != [] && x.year != [] && |x.specialties| >= 1
    ensures ParseProfile(ProfileBody(x)) == Some(x)
  {
    var b := ProfileBody(x);
    var items := Map(x.specialties, (t: string) => JStr(t));
    assert Get(b, "specialties") == Some(JArr(items));
    assert StringsOf(items) == x.specialties;
    assert x.bio.Some? ==> Get(b, "bio") == Some(JStr(x.bio.value));
    assert x.bio.None? ==> "bio" !in b.fields;
  }

  /** The fields a partial profile update supplies; None = not supplied. */
  datatype ProfilePatch = ProfilePatch(
    department: Option<string>, year: Option<string>, specialties: Option<seq<string>>, bio: Option<string>)

  /** `.partial()`: every field may be left out, but a supplied one must be valid. */
  predicate ProfilePatchValid(body: Json) {
    && body.JObj?
    && (Get(body, "department").None? || StringLength(Get(body, "department"), 1, None))
    && (Get(body, "year").None? || StringLength(Get(body, "year"), 1, None))
    && (Get(body, "specialties").None? || StringArray(Get(body, "specialties"), 1))
    && OptionalString(Get(body, "bio"))
  }

  function ParseProfilePatch(body: Json): (r: Option<ProfilePatch>)
    ensures r.Some? <==> ProfilePatchValid(body)
    ensures r.Some? ==>
      && (r.value.department.Some? <==> "department" in body.fields)
      && (r.value.year.Some? <==> "year" in body.fields)
      && (r.value.specialties.Some? <==> "specialties" in body.fields)
      && (r.value.bio.Some? <==> "bio" in body.fields)
      && (r.value.department.Some? ==> r.value.department.value != [])
      && (r.value.year.Some? ==> r.value.year.value != [])
      && (r.value.specialties.Some? ==> |r.value.specialties.value| >= 1)
    ensures r.Some? ==>
      && Carries(Get(body, "department"), r.value.department)
      && Carries(Get(body, "year"), r.value.year)
      && (r.value.specialties.Some? ==>
            Get(body, "specialties") == Some(JArr(Map(r.value.specialties.value, (t: string) => JStr(t)))))
      && Carries(Get(body, "bio"), r.value.bio)
  {
    if !ProfilePatchValid(body) then None
    else
      var sp := Get(body, "specialties");
      assert sp.Some? ==> Map(StringsOf(sp.value.items), (t: string) => JStr(t)) == sp.value.items by {
        if sp.Some? { StringsOfRoundTrip(sp.value.items); }
      }
      Some(ProfilePatch(
        OptionalStringValue(Get(body, "department")),
        OptionalStringValue(Get(body, "year")),
        if sp.None? then None else Some(StringsOf(sp.value.items)),
        OptionalStringValue(Get(body, "bio"))))
  }

  /** Every full profile body is also a valid partial update. */
  lemma ProfileIsPatch(body: Json)
    requires ProfileValid(body)
    ensures ProfilePatchValid(body)
  {
  }

  // ---- connectionRequestSchema ----

  function ParseConnectionRequest(body: Json): (r: Option<string>)
    ensures r.Some? <==> body.JObj? && IsUuidValue(Get(body, "mentorId"))
    ensures r.Some? ==> IsUuid(r.value) && Get(body, "mentorId") == Some(JStr(r.value))
  {
    var m := Get(body, "mentorId");
    if body.JObj? && IsUuidValue(m) then Some(m.value.s) else None
  }

  // ---- crisisAlertSchema ----

  datatype CrisisInput = CrisisInput(areaOfConcern: string, description: Option<string>)

  function ParseCrisisAlert(body: Json): (r: Option<CrisisInput>)
    ensures r.Some? <==> body.JObj? && StringLength(Get(body, "areaOfConcern"), 1, None)
                         && OptionalString(Get(body, "description"))
    ensures r.Some? ==> r.value.areaOfConcern != [] && Get(body, "areaOfConcern") == Some(JStr(r.value.areaOfConcern))
    ensures r.Some? ==> (r.value.description.Some? <==> "description" in body.fields)
    ensures r.Some? ==> Carries(Get(body, "description"), r.value.description)
  {
    var a := Get(body, "areaOfConcern");
    var d := Get(body, "description");
    if body.JObj? && StringLength(a, 1, None) && OptionalString(d)
    then Some(CrisisInput(a.value.s, OptionalStringValue(d)))
    else None
  }

  /** The body the crisis form sends. */
  function CrisisBody(x: CrisisInput): Json {
    if x.description.None? then JObj(map["areaOfConcern" := JStr(x.areaOfConcern)])
    else JObj(map["areaOfConcern" := JStr(x.areaOfConcern), "description" := JStr(x.description.value)])
  }

  lemma CrisisRoundTrip(x: CrisisInput)
    requires x.areaOfConcern != []
    ensures ParseCrisisAlert(CrisisBody(x)) == Some(x)
  {
  }

  // ---- campaignSchema ----

  datatype CampaignStatus = Draft | Scheduled | Active | Completed

  function CampaignStatusName(s: CampaignStatus): string {
    match s
    case Draft => "draft"
    case Scheduled => "scheduled"
    case Active => "active"
    case Completed => "completed"
  }

  function ParseCampaignStatus(s: string): (r: Option<CampaignStatus>)
    ensures r.Some? <==> s in {"draft", "scheduled", "active", "completed"}
    ensures r.Some? ==> CampaignStatusName(r.value) == s
  {
    if s == "draft" then Some(Draft)
    else if s == "scheduled" then Some(Scheduled)
    else if s == "active" then Some(Active)
    else if s == "completed" then Some(Completed)
    else None
  }

  datatype CampaignInput = CampaignInput(
    title: string, date: string, department: string, description: Option<string>, status: CampaignStatus)

  predicate CampaignValid(body: Json, f: Formats) {
    && body.JObj?
    && StringLength(Get(body, "title"), 1, None)
    && IsString(Get(body, "date")) && f.isDateTime(Get(body, "date").value.s)
    && StringLength(Get(body, "department"), 1, None)
    && OptionalString(Get(body, "description"))
    && (Get(body, "status").None? || (IsString(Get(body, "status")) && ParseCampaignStatus(Get(body, "status").value.s).Some?))
  }

  function ParseCampaign(body: Json, f: Formats): (r: Option<CampaignInput>)
    ensures r.Some? <==> CampaignValid(body, f)
    ensures r.Some? && Get(body, "status").None? ==> r.value.status == Draft
    ensures r.Some? && Get(body, "status").Some? ==> Get(body, "status") == Some(JStr(CampaignStatusName(r.value.status)))
    ensures r.Some? ==>
      && r.value.title != [] && Get(body, "title") == Some(JStr(r.value.title))
      && f.isDateTime(r.value.date) && Get(body, "date") == Some(JStr(r.value.date))
      && r.value.department != [] && Get(body, "department") == Some(JStr(r.value.department))
      && Carries(Get(body, "description"), r.value.description)
  {
    if !CampaignValid(body, f) then None
    else
      var st := Get(body, "status");
      Some(CampaignInput(
        Get(body, "title").value.s,
        Get(body, "date").value.s,
        Get(body, "department").value.s,
        OptionalStringValue(Get(body, "description")),
        if st.None? then Draft else ParseCampaignStatus(st.value.s).value))
  }

  /** The body the campaign form sends; the status is always given. */
  function CampaignBody(x: CampaignInput): Json {
    JObj(map[
      "title" := JStr(x.title), "date" := JStr(x.date), "department" := JStr(x.department),
      "status" := JStr(CampaignStatusName(x.status))] + OptionalField("description", x.description))
  }

  /** A campaign with a title, a date-time and a department parses back to itself. */
  lemma CampaignRoundTrip(x: CampaignInput, f: Formats)
    requires x.title != [] && x.department != [] && f.isDateTime(x.date)
    ensures ParseCampaign(CampaignBody(x), f) == Some(x)
  {
    var b := CampaignBody(x);
    assert Get(b, "status") == Some(JStr(CampaignStatusName(x.status)));
    assert ParseCampaignStatus(CampaignStatusName(x.status)) == Some(x.status) by {
      match x.status
      case Draft =>
      case Scheduled => assert "scheduled"[0] == 's' && "draft"[0] == 'd';
      case Active => assert "active"[0] == 'a';
      case Completed => assert "completed"[0] == 'c';
    }
    assert x.description.Some? ==> Get(b, "description") == Some(JStr(x.description.value));
    assert x.description.None? ==> "description" !in b.fields;
  }

  // ---- resourceSchema ----

  datatype ResourceInput = ResourceInput(
    title: string, description: Option<string>, url: Option<string>, category: string, isPublic: bool)

  predicate ResourceValid(body: Json, f: Formats) {
    && body.JObj?
    && StringLength(Get(body, "title"), 1, None)
    && OptionalString(Get(body, "description"))
    && (Get(body, "url").None? || (IsString(Get(body, "url")) && f.isUrl(Get(body, "url").value.s)))
    && StringLength(Get(body, "category"), 1, None)
    && (Get(body, "isPublic").None? || Get(body, "isPublic").value.JBool?)
  }

  function ParseResource(body: Json, f: Formats): (r: Option<ResourceInput>)
    ensures r.Some? <==> ResourceValid(body, f)
    ensures r.Some? ==> r.value.isPublic == (Get(body, "isPublic").None? || Get(body, "isPublic").value.b)
    ensures r.Some? ==>
      && r.value.title != [] && Get(body, "title") == Some(JStr(r.value.title))
      && r.value.category != [] && Get(body, "category") == Some(JStr(r.value.category))
      && Carries(Get(body, "description"), r.value.description)
      && Carries(Get(body, "url"), r.value.url)
      && (r.value.url.Some? ==> f.isUrl(r.value.url.value))
  {
    if !ResourceValid(body, f) then None
    else
      var p := Get(body, "isPublic");
      Some(ResourceInput(
        Get(body, "title").value.s,
        OptionalStringValue(Get(body, "description")),
        OptionalStringValue(Get(body, "url")),
        Get(body, "category").value.s,
        if p.None? then true else p.value.b))
  }

  /** The body the resource form sends; `isPublic` is always given. */
  function ResourceBody(x: ResourceInput): Json {
    JObj(map["title" := JStr(x.title), "category" := JStr(x.category), "isPublic" := JBool(x.isPublic)]
         + OptionalField("description", x.description) + OptionalField("url", x.url))
  }

  /** A resource with a title, a category and a well-formed URL, if any, parses back to itself. */
  lemma ResourceRoundTrip(x: ResourceInput, f: Formats)
    requires x.title != [] && x.category != []
    requires x.url.Some? ==> f.isUrl(x.url.value)
    ensures ParseResource(ResourceBody(x), f) == Some(x)
  {
    var b := ResourceBody(x);
    assert Get(b, "isPublic") == Some(JBool(x.isPublic));
    assert x.description.Some? ==> Get(b, "description") == Some(JStr(x.description.value));
    assert x.description.None? ==> "description" !in b.fields;
    assert x.url.Some? ==> Get(b, "url") == Some(JStr(x.url.value));
    assert x.url.None? ==> "url" !in b.fields;
  }
}
