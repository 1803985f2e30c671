/** The mentor dashboard: editing the profile draft (the specialty list and
    the save guard), the choice between creating and updating the profile,
    and the split of the mentor's connections into requests and active ones. */
module MentorHome {
  import opened Common
  import opened Text
  import opened Seqs
  import opened JsonValues
  import opened Users
  import opened Auth
  import opened Validations
  import opened Mentors
  import opened MentorProfileRoute
  import opened Connections

  /** The profile form; the bio box holds "" when empty. */
  datatype ProfileDraft = ProfileDraft(department: string, year: string, specialties: seq<string>, bio: string)

  // ---- the specialty list ----

  /** The specialty list together with the text of the "new specialty" box. */
  datatype SpecialtyEditor = SpecialtyEditor(specialties: seq<string>, box: string)

  /** `addSpecialty`: the trimmed box text joins the list, and the box is
      cleared, when it is neither blank nor already listed. */
  function AddSpecialty(e: SpecialtyEditor): (r: SpecialtyEditor)
    ensures var t := Trim(e.box);
      && (t != "" && t !in e.specialties ==> r.specialties == e.specialties + [t] && r.box == "")
      && (t == "" || t in e.specialties ==> r == e)
  {
    var t := Trim(e.box);
    if t != "" && t !in e.specialties then SpecialtyEditor(e.specialties + [t], "") else e
  }

  /** `removeSpecialty`: drop every copy of `s`, keeping the rest in order. */
  function RemoveSpecialty(specialties: seq<string>, s: string): (r: seq<string>)
    ensures s !in r
    ensures forall x :: x in r <==> x in specialties && x != s
    ensures IsSubsequence(r, specialties)
  {
    FilterIsSubsequence(specialties, (x: string) => x != s);
    Filter(specialties, (x: string) => x != s)
  }

  /** Adding keeps the list free of duplicates, and only ever adds trimmed,
      non-blank entries. */
  lemma AddKeepsListClean(e: SpecialtyEditor)
    requires NoDuplicates(e.specialties)
    requires forall i :: 0 <= i < |e.specialties| ==> e.specialties[i] != "" && e.specialties[i] == Trim(e.specialties[i])
    ensures var r := AddSpecialty(e).specialties;
      && NoDuplicates(r)
      && forall i :: 0 <= i < |r| ==> r[i] != "" && r[i] == Trim(r[i])
  {
    var t := Trim(e.box);
    if t != "" && t !in e.specialties {
      TrimTrimmed(e.box);
      AppendKeepsClean(e.specialties, t);
    }
  }

  /** Appending a new, trimmed, non-blank entry to a clean list keeps it clean. */
  lemma AppendKeepsClean(xs: seq<string>, t: string)
    requires NoDuplicates(xs) && t !in xs && t != "" && Trim(t) == t
    requires forall i :: 0 <= i < |xs| ==> xs[i] != "" && xs[i] == Trim(xs[i])
    ensures var r := xs + [t];
      && NoDuplicates(r)
      && forall i :: 0 <= i < |r| ==> r[i] != "" && r[i] == Trim(r[i])
  {
    var r := xs + [t];
    forall i, j | 0 <= i < j < |r| ensures r[i] != r[j] {
      assert r[i] == xs[i];
      if j < |xs| {
        assert r[j] == xs[j];
      } else {
        assert xs[i] in xs;
      }
    }
    forall i | 0 <= i < |r| ensures r[i] != "" && r[i] == Trim(r[i]) {
      if i < |xs| {
        assert r[i] == xs[i];
      }
    }
  }

  /** Trimming a trimmed string changes nothing. */
  lemma TrimTrimmed(s: string)
    ensures Trim(Trim(s)) == Trim(s)
  {
    var t := Trim(s);
    if t != [] {
      assert !IsSpace(t[0]) && !IsSpace(t[|t| - 1]);
      assert TrimStart(t) == t;
      assert TrimEnd(t) == t;
    } else {
      assert TrimEnd(TrimStart(t)) == [];
    }
  }

  /** Removing a specialty right after adding it gives back the list. */
  lemma {:induction false} AddThenRemove(e: SpecialtyEditor)
    requires Trim(e.box) != "" && Trim(e.box) !in e.specialties
    ensures RemoveSpecialty(AddSpecialty(e).specialties, Trim(e.box)) == e.specialties
  {
    var t := Trim(e.box);
    var keep := (x: string) => x != t;
    FilterConcat(e.specialties, [t], keep);
    FilterAll(e.specialties, keep);
    assert Filter([t], keep) == [];
  }

  // ---- saving the profile ----

  /** What pressing Save does. */
  datatype SaveAction = Blocked | CreateRequest(body: Json) | UpdateRequest(body: Json)

  /** The request body the form sends. */
  function DraftBody(d: ProfileDraft): (b: Json)
    ensures b.JObj? && b.fields.Keys == {"department", "year", "specialties", "bio"}
  {
    JObj(map[
      "department" := JStr(d.department),
      "year" := JStr(d.year),
      "specialties" := JArr(Map(d.specialties, (s: string) => JStr(s))),
      "bio" := JStr(d.bio)])
  }

  /** `handleSaveProfile`: refuse a draft without department, year or
      specialty; otherwise update when the mentor already has a profile and
      create one when not. */
  function SaveProfile(d: ProfileDraft, hasProfile: bool): (r: SaveAction)
    ensures r.Blocked? <==> d.department == "" || d.year == "" || d.specialties == []
    ensures r.UpdateRequest? <==> !r.Blocked? && hasProfile
    ensures !r.Blocked? ==> r.body == DraftBody(d)
  {
    if d.department == "" || d.year == "" || d.specialties == [] then Blocked
    else if hasProfile then UpdateRequest(DraftBody(d))
    else CreateRequest(DraftBody(d))
  }

  /** The page's guard is exactly the server's profile schema: a draft is
      sent precisely when the server would accept it. */
  lemma SaveGuardMatchesSchema(d: ProfileDraft, hasProfile: bool)
    ensures !SaveProfile(d, hasProfile).Blocked? <==> ProfileValid(DraftBody(d))
    ensures !SaveProfile(d, hasProfile).Blocked? ==> ProfilePatchValid(DraftBody(d))
  {
    var b := DraftBody(d);
    assert Get(b, "specialties") == Some(JArr(Map(d.specialties, (s: string) => JStr(s))));
  }

  /** A sent update stores the draft: the mentor's profile then holds the
      draft's department, year, specialties and bio. */
  lemma {:induction false} SentUpdateStoresDraft(mentor: User, d: ProfileDraft, profiles: seq<MentorProfile>)
    requires SaveProfile(d, true).UpdateRequest? && FindProfile(profiles, mentor.id).Some?
    ensures var r := UpdateProfile(Success(mentor), Some(SaveProfile(d, true).body), profiles);
      var k := FindProfile(profiles, mentor.id).value;
      && r.reply.Ok?
      && r.store[k].department == d.department && r.store[k].year == d.year
      && r.store[k].specialties == d.specialties && r.store[k].bio == Some(d.bio)
  {
    var b := DraftBody(d);
    SaveGuardMatchesSchema(d, true);
    var items := Map(d.specialties, (s: string) => JStr(s));
    assert Get(b, "specialties") == Some(JArr(items));
    assert StringsOf(items) == d.specialties;
  }

  /** A sent create for a mentor without a profile stores a new profile with
      the draft's fields. */
  lemma {:induction false} SentCreateStoresDraft(mentor: User, d: ProfileDraft, profiles: seq<MentorProfile>,
                                                 newId: string, now: int, defaults: ProfileDefaults)
    requires mentor.userType == Mentor
    requires SaveProfile(d, false).CreateRequest? && FindProfile(profiles, mentor.id).None?
    requires forall i :: 0 <= i < |profiles| ==> profiles[i].id != newId
    ensures var r := CreateProfile(Success(mentor), Some(SaveProfile(d, false).body), profiles, newId, now, defaults);
      && r.reply.Ok?
      && r.reply.value.profile.department == d.department && r.reply.value.profile.year == d.year
      && r.reply.value.profile.specialties == d.specialties && r.reply.value.profile.bio == Some(d.bio)
  {
    var b := DraftBody(d);
    SaveGuardMatchesSchema(d, false);
    var items := Map(d.specialties, (s: string) => JStr(s));
    assert Get(b, "specialties") == Some(JArr(items));
    assert StringsOf(items) == d.specialties;
  }

  // ---- the connection tabs ----

  const ACCEPTED: string := "accepted"

  /** `pendingConnections` and `activeConnections`. */
  function PendingConnections(cs: seq<ConnectionView>): (r: seq<ConnectionView>)
    ensures forall c :: c in r <==> c in cs && c.status == PENDING
  {
    Filter(cs, (c: ConnectionView) => c.status == PENDING)
  }

  function ActiveConnections(cs: seq<ConnectionView>): (r: seq<ConnectionView>)
    ensures forall c :: c in r <==> c in cs && c.status == ACCEPTED
  {
    Filter(cs, (c: ConnectionView) => c.status == ACCEPTED)
  }

  /** The two tabs never share a connection and together hold at most the
      whole list; each keeps the list's order. */
  lemma {:induction false} TabsPartition(cs: seq<ConnectionView>)
    ensures forall c :: !(c in PendingConnections(cs) && c in ActiveConnections(cs))
    ensures |PendingConnections(cs)| + |ActiveConnections(cs)| <= |cs|
    ensures IsSubsequence(PendingConnections(cs), cs) && IsSubsequence(ActiveConnections(cs), cs)
  {
    var pending := (c: ConnectionView) => c.status == PENDING;
    var active := (c: ConnectionView) => c.status == ACCEPTED;
    var notPending := (c: ConnectionView) => c.status != PENDING;
    CountComplement(cs, pending, notPending);
    FilterFilter(cs, notPending, active, active);
    assert |Filter(Filter(cs, notPending), active)| <= |Filter(cs, notPending)|;
    FilterIsSubsequence(cs, pending);
    FilterIsSubsequence(cs, active);
  }
}
