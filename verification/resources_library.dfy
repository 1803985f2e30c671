/** The admin resources-library page: the search/category/bookmark filter
    over the page's resource list and the bookmark toggle. */
module ResourcesLibrary {
  import opened Common
  import opened Text
  import opened Seqs

  /** A library entry; only the fields the filter and the toggle read are
      named, the rest of the card is `details`. */
  datatype LibraryResource = LibraryResource(
    id: string,
    title: string,
    description: string,
    category: string,
    tags: seq<string>,
    details: string,
    bookmarked: bool)

  const ALL_CATEGORIES: string := "all"

  /** The page's filter controls. */
  datatype LibraryFilter = LibraryFilter(search: string, category: string, bookmarkedOnly: bool)

  /** Title, description or some tag contains the search, ignoring case. */
  predicate MatchesSearch(r: LibraryResource, search: string) {
    || ContainsInsensitive(r.title, search)
    || ContainsInsensitive(r.description, search)
    || exists i :: 0 <= i < |r.tags| && ContainsInsensitive(r.tags[i], search)
  }

  predicate MatchesCategory(r: LibraryResource, category: string) {
    category == ALL_CATEGORIES || r.category == category
  }

  predicate MatchesBookmark(r: LibraryResource, bookmarkedOnly: bool) {
    !bookmarkedOnly || r.bookmarked
  }

  predicate Kept(f: LibraryFilter, r: LibraryResource) {
    MatchesSearch(r, f.search) && MatchesCategory(r, f.category) && MatchesBookmark(r, f.bookmarkedOnly)
  }

  /** `filteredResources`. */
  function FilteredResources(list: seq<LibraryResource>, f: LibraryFilter): (r: seq<LibraryResource>)
    ensures |r| <= |list|
    ensures forall x :: x in r <==> x in list && Kept(f, x)
  {
    Filter(list, (x: LibraryResource) => Kept(f, x))
  }

  /** The filtered list keeps the page's order: it is the list with some entries dropped. */
  lemma FilteredIsSubsequence(list: seq<LibraryResource>, f: LibraryFilter)
    ensures IsSubsequence(FilteredResources(list, f), list)
  {
    FilterIsSubsequence(list, (x: LibraryResource) => Kept(f, x));
  }

  /** The initial controls (empty search, every category, bookmarks off) keep every resource. */
  lemma {:induction false} DefaultFilterKeepsAll(list: seq<LibraryResource>)
    ensures FilteredResources(list, LibraryFilter("", ALL_CATEGORIES, false)) == list
  {
    var f := LibraryFilter("", ALL_CATEGORIES, false);
    forall i | 0 <= i < |list| ensures Kept(f, list[i]) {
      ContainsEmpty(Lower(list[i].title));
    }
    FilterAll(list, (x: LibraryResource) => Kept(f, x));
  }

  /** `toggleBookmark(resourceId)`: flip `bookmarked` on the entries with the id. */
  function ToggleBookmark(list: seq<LibraryResource>, id: string): (r: seq<LibraryResource>)
    ensures |r| == |list|
    ensures forall i :: 0 <= i < |list| ==> r[i] == list[i].(bookmarked := r[i].bookmarked)
    ensures forall i :: 0 <= i < |list| ==> (r[i].bookmarked != list[i].bookmarked <==> list[i].id == id)
  {
    UpdateWhere(list, (x: LibraryResource) => x.id == id, (x: LibraryResource) => x.(bookmarked := !x.bookmarked))
  }

  /** Toggling the same id twice gives back the list. */
  lemma ToggleTwice(list: seq<LibraryResource>, id: string)
    ensures ToggleBookmark(ToggleBookmark(list, id), id) == list
  {
    var twice := ToggleBookmark(ToggleBookmark(list, id), id);
    assert forall i :: 0 <= i < |list| ==> twice[i] == list[i];
  }

  /** Toggles commute. */
  lemma TogglesCommute(list: seq<LibraryResource>, a: string, b: string)
    ensures ToggleBookmark(ToggleBookmark(list, a), b) == ToggleBookmark(ToggleBookmark(list, b), a)
  {
    var ab := ToggleBookmark(ToggleBookmark(list, a), b);
    var ba := ToggleBookmark(ToggleBookmark(list, b), a);
    assert forall i :: 0 <= i < |list| ==> ab[i] == ba[i];
  }

  /** With "bookmarked only" on, toggling an entry that matches the search
      and category shows it exactly when it was not bookmarked before. */
  lemma ToggleShowsInBookmarks(list: seq<LibraryResource>, f: LibraryFilter, k: nat)
    requires k < |list| && f.bookmarkedOnly
    requires MatchesSearch(list[k], f.search) && MatchesCategory(list[k], f.category)
    ensures var t := ToggleBookmark(list, list[k].id);
      t[k] in FilteredResources(t, f) <==> !list[k].bookmarked
  {
  }
}
