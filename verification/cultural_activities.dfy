/** The cultural-wellness activities page: active campaigns turned into
    activity cards, the keyword classification of a card's type and of its
    "cultural" flag, and the page's search/category filter.  The random
    enrolment, rating and tag picks of a card are not modelled: tags are a
    parameter. */
module CulturalActivities {
  import opened Common
  import opened Text
  import opened Seqs
  import opened Users
  import opened Auth
  import opened Validations
  import opened Priority
  import opened Campaigns

  datatype ActivityType = Workshop | Celebration | Meditation | Art | Music | Yoga

  function ActivityTypeName(t: ActivityType): string {
    match t
    case Workshop => "workshop"
    case Celebration => "celebration"
    case Meditation => "meditation"
    case Art => "art"
    case Music => "music"
    case Yoga => "yoga"
  }

  const YOGA_WORDS: seq<string> := ["yoga", "meditation"]
  const MUSIC_WORDS: seq<string> := ["music", "classical"]
  const ART_WORDS: seq<string> := ["art", "paint", "craft"]
  const CELEBRATION_WORDS: seq<string> := ["celebration", "festival"]
  const WORKSHOP_WORDS: seq<string> := ["workshop", "seminar"]

  /** `getActivityType`: the first keyword class found in the lower-cased
      title and description (a missing description counts as empty) decides;
      with none, the type is meditation. */
  function ActivityTypeOf(title: string, description: Option<string>): (r: ActivityType)
    ensures var c := Content(title, description);
      && (r == Yoga <==> ContainsAny(c, YOGA_WORDS))
      && (r == Music <==> !ContainsAny(c, YOGA_WORDS) && ContainsAny(c, MUSIC_WORDS))
      && (r == Art <==> !ContainsAny(c, YOGA_WORDS) && !ContainsAny(c, MUSIC_WORDS) && ContainsAny(c, ART_WORDS))
      && (r == Celebration <==> !ContainsAny(c, YOGA_WORDS) && !ContainsAny(c, MUSIC_WORDS) && !ContainsAny(c, ART_WORDS)
                                && ContainsAny(c, CELEBRATION_WORDS))
      && (r == Workshop <==> !ContainsAny(c, YOGA_WORDS) && !ContainsAny(c, MUSIC_WORDS) && !ContainsAny(c, ART_WORDS)
                             && !ContainsAny(c, CELEBRATION_WORDS) && ContainsAny(c, WORKSHOP_WORDS))
  {
    var c := Content(title, description);
    if ContainsAny(c, YOGA_WORDS) then Yoga
    else if ContainsAny(c, MUSIC_WORDS) then Music
    else if ContainsAny(c, ART_WORDS) then Art
    else if ContainsAny(c, CELEBRATION_WORDS) then Celebration
    else if ContainsAny(c, WORKSHOP_WORDS) then Workshop
    else Meditation
  }

  /** A title that mentions yoga, in any case, makes a yoga activity whatever
      else the title or description says. */
  lemma {:induction false} YogaTitleWins(title: string, description: Option<string>)
    requires Contains(Lower(title), "yoga")
    ensures ActivityTypeOf(title, description) == Yoga
  {
    var rest := " " + description.GetOr("");
    LowerConcat(title, rest);
    assert Content(title, description) == Lower(title) + Lower(rest);
    ContainsAppend(Lower(title), Lower(rest), "yoga");
    assert Contains(Content(title, description), YOGA_WORDS[0]);
  }

  const CULTURAL_KEYWORDS: seq<string> := [
    "indian", "classical", "traditional", "cultural", "heritage", "bharat", "sanskrit",
    "ayurveda", "yoga", "meditation", "pranayama", "mantra", "spiritual"]

  /** `isCulturalActivity`. */
  function IsCulturalActivity(title: string, description: Option<string>): (r: bool)
    ensures r <==> exists k :: 0 <= k < |CULTURAL_KEYWORDS| && Contains(Content(title, description), CULTURAL_KEYWORDS[k])
  {
    ContainsAny(Content(title, description), CULTURAL_KEYWORDS)
  }

  /** Both yoga keywords are cultural keywords, so every yoga activity is
      cultural, and so is every music activity found through "classical". */
  lemma YogaIsCultural(title: string, description: Option<string>)
    ensures ActivityTypeOf(title, description) == Yoga ==> IsCulturalActivity(title, description)
    ensures Contains(Content(title, description), "classical") ==> IsCulturalActivity(title, description)
  {
    var c := Content(title, description);
    if ActivityTypeOf(title, description) == Yoga {
      if Contains(c, "yoga") {
        assert Contains(c, CULTURAL_KEYWORDS[8]);
      } else {
        assert Contains(c, YOGA_WORDS[1]);
        assert Contains(c, CULTURAL_KEYWORDS[9]);
      }
    }
    if Contains(c, "classical") {
      assert Contains(c, CULTURAL_KEYWORDS[1]);
    }
  }

  // ---- cards ----

  const DEFAULT_DESCRIPTION: string := "Join us for this enriching cultural wellness experience."

  /** An activity card; the fixed time, capacity, instructor and difficulty
      and the random enrolment and rating are not kept. */
  datatype Activity = Activity(
    id: string,
    title: string,
    description: string,
    activityType: ActivityType,
    cultural: bool,
    department: string,
    tags: seq<string>,
    status: CampaignStatus)

  /** The card for a listed campaign, with its picked tags. */
  function ActivityOf(c: CampaignView, tags: seq<string>): (a: Activity)
    ensures a.id == c.id && a.title == c.title && a.department == c.department && a.status == c.status
    ensures a.description == if Given(c.description) then c.description.value else DEFAULT_DESCRIPTION
    ensures a.activityType == ActivityTypeOf(c.title, c.description)
    ensures a.cultural == IsCulturalActivity(c.title, c.description)
  {
    Activity(c.id, c.title, if Given(c.description) then c.description.value else DEFAULT_DESCRIPTION,
             ActivityTypeOf(c.title, c.description), IsCulturalActivity(c.title, c.description),
             c.department, tags, c.status)
  }

  const ALL_CATEGORIES: string := "all"

  /** The campaign query behind the page: active campaigns, narrowed to the
      selected category's department unless "all" is selected, with the
      server's default page and page size. */
  function ActivitiesQuery(selected: string): (q: CampaignQuery)
    ensures q.status == Some("active")
    ensures q.department.None? <==> selected == ALL_CATEGORIES
    ensures q.department.Some? ==> q.department.value == selected
    ensures q.page == 1 && q.limit == 10
  {
    CampaignQuery(Some("active"), if selected == ALL_CATEGORIES then None else Some(selected), 1, 10)
  }

  /** The cards of a successful listing; `tags` picks each card's tags. */
  function Activities(listing: seq<CampaignView>, tags: CampaignView -> seq<string>): (r: seq<Activity>)
    ensures |r| == |listing|
    ensures forall i :: 0 <= i < |r| ==> r[i] == ActivityOf(listing[i], tags(listing[i]))
  {
    Map(listing, (c: CampaignView) => ActivityOf(c, tags(c)))
  }

  /** Every card the page shows comes from an active campaign of the selected
      department (matched ignoring case), whoever is looking. */
  lemma {:induction false} CardsAreActiveAndInCategory(
    caller: User, cs: seq<Campaign>, selected: string, rank: CampaignStatus -> int, tags: CampaignView -> seq<string>)
    ensures var r := ListCampaigns(Success(caller), cs, ActivitiesQuery(selected), rank);
      && r.Ok?
      && var cards := Activities(r.value.campaigns, tags);
      && (forall i :: 0 <= i < |cards| ==> cards[i].status == Active)
      && (selected != ALL_CATEGORIES && selected != "" ==>
            forall i :: 0 <= i < |cards| ==> ContainsInsensitive(cards[i].department, selected))
  {
    var q := ActivitiesQuery(selected);
    assert StatusUsable(q);
    var r := ListCampaigns(Success(caller), cs, q, rank);
    var views := r.value.campaigns;
    assert views == ListedViews(cs, q, rank, caller.userType == Admin);
    assert forall i :: 0 <= i < |views| ==> CampaignStatusName(views[i].status) == "active";
    assert selected != ALL_CATEGORIES && selected != "" ==>
      forall i :: 0 <= i < |views| ==> ContainsInsensitive(views[i].department, selected);
    CardsFollowViews(views, tags, selected);
  }

  /** Cards inherit their campaign's status and department. */
  lemma CardsFollowViews(views: seq<CampaignView>, tags: CampaignView -> seq<string>, selected: string)
    requires forall i :: 0 <= i < |views| ==> CampaignStatusName(views[i].status) == "active"
    requires selected != ALL_CATEGORIES && selected != "" ==>
      forall i :: 0 <= i < |views| ==> ContainsInsensitive(views[i].department, selected)
    ensures var cards := Activities(views, tags);
      && (forall i :: 0 <= i < |cards| ==> cards[i].status == Active)
      && (selected != ALL_CATEGORIES && selected != "" ==>
            forall i :: 0 <= i < |cards| ==> ContainsInsensitive(cards[i].department, selected))
  {
    var cards := Activities(views, tags);
    forall i | 0 <= i < |cards| ensures cards[i].status == Active {
      ActiveByName(views[i].status);
    }
  }

  /** Only the active status is named "active". */
  lemma ActiveByName(s: CampaignStatus)
    requires CampaignStatusName(s) == "active"
    ensures s == Active
  {
    assert "draft"[0] == 'd' && "scheduled"[0] == 's' && "completed"[0] == 'c' && "active"[0] == 'a';
  }

  // ---- the page filter ----

  /** Title, description or some tag contains the search, ignoring case. */
  predicate MatchesSearch(a: Activity, search: string) {
    || ContainsInsensitive(a.title, search)
    || ContainsInsensitive(a.description, search)
    || exists i :: 0 <= i < |a.tags| && ContainsInsensitive(a.tags[i], search)
  }

  /** "all", or the department contains the category's first word, or the
      type's name is the lower-cased category with its first blank removed. */
  predicate MatchesCategory(a: Activity, selected: string) {
    || selected == ALL_CATEGORIES
    || Contains(a.department, FirstWord(selected))
    || ActivityTypeName(a.activityType) == RemoveFirstBlank(Lower(selected))
  }

  /** For a two-word category such as "Yoga Classes" the type clause compares
      the type's name with both words lower-cased and run together
      ("yogaclasses"), while the department clause looks for the first word. */
  lemma TwoWordCategory(a: Activity, first: string, second: string)
    requires first != [] && ' ' !in first
    ensures var selected := first + " " + second;
      MatchesCategory(a, selected) <==>
        || selected == ALL_CATEGORIES
        || Contains(a.department, first)
        || ActivityTypeName(a.activityType) == Lower(first) + Lower(second)
  {
    SqueezedTwoWords(first, second);
    FirstWordOfTwo(first, second);
  }

  lemma {:induction false} SqueezedTwoWords(first: string, second: string)
    requires ' ' !in first
    ensures RemoveFirstBlank(Lower(first + " " + second)) == Lower(first) + Lower(second)
  {
    var selected := first + " " + second;
    assert selected == first + (" " + second);
    LowerConcat(first, " " + second);
    LowerConcat(" ", second);
    assert Lower(selected) == Lower(first) + " " + Lower(second);
    assert ' ' !in Lower(first) by {
      forall i | 0 <= i < |first| ensures Lower(first)[i] != ' ' {
        assert first[i] != ' ';
      }
    }
    RemoveFirstBlankJoins(Lower(first), Lower(second));
  }

  lemma {:induction false} FirstWordOfTwo(first: string, second: string)
    requires ' ' !in first
    ensures FirstWord(first + " " + second) == first
    decreases |first|
  {
    if first != [] {
      assert (first + " " + second)[1..] == first[1..] + " " + second;
      FirstWordOfTwo(first[1..], second);
    }
  }

  /** `filteredActivities`. */
  function FilteredActivities(cards: seq<Activity>, search: string, selected: string): (r: seq<Activity>)
    ensures forall a :: a in r <==> a in cards && MatchesSearch(a, search) && MatchesCategory(a, selected)
    ensures IsSubsequence(r, cards)
  {
    FilterIsSubsequence(cards, (a: Activity) => MatchesSearch(a, search) && MatchesCategory(a, selected));
    Filter(cards, (a: Activity) => MatchesSearch(a, search) && MatchesCategory(a, selected))
  }

  /** With an empty search and "all" selected, every card is shown. */
  lemma {:induction false} EmptySearchShowsAll(cards: seq<Activity>)
    ensures FilteredActivities(cards, "", ALL_CATEGORIES) == cards
  {
    forall i | 0 <= i < |cards| ensures MatchesSearch(cards[i], "") {
      ContainsEmpty(Lower(cards[i].title));
    }
    FilterAll(cards, (a: Activity) => MatchesSearch(a, "") && MatchesCategory(a, ALL_CATEGORIES));
  }
}
