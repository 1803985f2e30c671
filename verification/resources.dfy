/** The resource library route: admins create, update and delete resources
    (POST, PATCH, DELETE); every signed-in user lists them (GET), and
    everybody but an admin sees only the public ones. */
module Resources {
  import opened Common
  import opened Text
  import opened Seqs
  import opened Sorting
  import opened Paging
  import opened JsonValues
  import opened Users
  import opened Auth
  import opened Validations

  datatype Resource = Resource(
    id: string, title: string, description: Option<string>, url: Option<string>, category: string, isPublic: bool)

  predicate IdsUnique(rs: seq<Resource>) {
    forall i, j :: 0 <= i < j < |rs| ==> rs[i].id != rs[j].id
  }

  /** `findUnique({ where: { id } })`, as an index into the store. */
  function FindResource(rs: seq<Resource>, id: string): (r: Option<nat>)
    ensures r.Some? ==> r.value < |rs| && rs[r.value].id == id
    ensures r.None? <==> forall i :: 0 <= i < |rs| ==> rs[i].id != id
  {
    FindFirst(rs, (x: Resource) => x.id == id)
  }

  // ---- POST ----

  datatype Saved = Saved(message: string, resource: Resource)

  const CREATED_MESSAGE: string := "Resource created successfully"

  /** `caller` is the outcome of the admin gate, `body` the parsed request body
      (None when it is not JSON), `newId` the id the database assigns. */
  function CreateResource(caller: Result<User, AuthError>, body: Option<Json>, f: Formats, newId: string, rs: seq<Resource>)
    : (r: Outcome<Saved, seq<Resource>>)
    ensures caller.Failure? ==> r.reply == AuthReply(caller.error)
    ensures r.reply.Error? ==> r.store == rs
    ensures caller.Success? && body.Some? && ParseResource(body.value, f).None? ==>
      r.reply == Error(BAD_REQUEST, "Validation failed")
    ensures r.reply.Ok? <==>
      caller.Success? && body.Some? && ParseResource(body.value, f).Some? && FindResource(rs, newId).None?
    ensures r.reply.Ok? ==>
      var input := ParseResource(body.value, f).value;
      var x := r.reply.value.resource;
      && r.reply.status == CREATED && r.reply.value.message == CREATED_MESSAGE
      && r.store == rs + [x]
      && x.id == newId && x.title == input.title && x.description == input.description
      && x.url == input.url && x.category == input.category
      && x.isPublic == (Get(body.value, "isPublic").None? || Get(body.value, "isPublic").value.b)
  {
    if caller.Failure? then Outcome(AuthReply(caller.error), rs)
    else if body.None? then Outcome(InternalError(), rs)
    else match ParseResource(body.value, f)
      case None => Outcome(Error(BAD_REQUEST, "Validation failed"), rs)
      case Some(input) =>
        if FindResource(rs, newId).Some? then Outcome(InternalError(), rs)
        else
          var x := Resource(newId, input.title, input.description, input.url, input.category, input.isPublic);
          Outcome(Ok(CREATED, Saved(CREATED_MESSAGE, x)), rs + [x])
  }

  lemma CreateKeepsIdsUnique(caller: Result<User, AuthError>, body: Option<Json>, f: Formats, newId: string, rs: seq<Resource>)
    requires IdsUnique(rs)
    ensures IdsUnique(CreateResource(caller, body, f, newId, rs).store)
  {
  }

  // ---- GET ----

  /** Non-admins see only public resources. */
  predicate VisibleTo(caller: User, x: Resource) {
    caller.userType == Admin || x.isPublic
  }

  /** Visible, and of a matching category when a non-empty `category` is given. */
  predicate Listed(caller: User, category: Option<string>, x: Resource) {
    VisibleTo(caller, x) && (Given(category) ==> ContainsInsensitive(x.category, category.value))
  }

  /** `orderBy: [{ category: 'asc' }, { title: 'asc' }]`, with both columns
      compared as under a binary collation. */
  predicate ResourceBefore(a: Resource, b: Resource) {
    || (a.category != b.category && LexLe(a.category, b.category))
    || (a.category == b.category && LexLe(a.title, b.title))
  }

  lemma ResourceBeforeIsTotalPreorder()
    ensures TotalPreorder(ResourceBefore)
  {
    forall a: Resource, b: Resource ensures ResourceBefore(a, b) || ResourceBefore(b, a) {
      LexLeTotal(a.category, b.category);
      LexLeTotal(a.title, b.title);
    }
    forall a: Resource, b: Resource, c: Resource | ResourceBefore(a, b) && ResourceBefore(b, c)
      ensures ResourceBefore(a, c)
    {
      if a.category == b.category && b.category == c.category {
        LexLeTransitive(a.title, b.title, c.title);
      } else if a.category != b.category && b.category != c.category {
        LexLeTransitive(a.category, b.category, c.category);
        if a.category == c.category {
          LexLeAntisymmetric(b.category, c.category);
        }
      }
    }
  }

  /** The resources in one category, in listing order. */
  function OfCategory(s: seq<Resource>, c: string): (r: seq<Resource>)
    ensures |r| <= |s|
    ensures forall i :: 0 <= i < |r| ==> r[i].category == c && r[i] in s
    ensures forall i :: 0 <= i < |s| && s[i].category == c ==> s[i] in r
  {
    if s == [] then []
    else
      var last := s[|s| - 1];
      assert forall x :: x in s <==> x in s[..|s| - 1] || x == last by {
        assert s == s[..|s| - 1] + [last];
      }
      OfCategory(s[..|s| - 1], c) + (if last.category == c then [last] else [])
  }

  datatype CategoryGroup = CategoryGroup(category: string, resources: seq<Resource>)

  /** The property names every plain object inherits from `Object.prototype`.
      Reading one from the `{}` that collects the groups gives a truthy value,
      so no `[]` is installed for it and the `push` that follows throws. */
  predicate InheritedKey(c: string) {
    c in {"constructor", "toString", "toLocaleString", "valueOf", "hasOwnProperty", "isPrototypeOf",
          "propertyIsEnumerable", "__proto__", "__defineGetter__", "__defineSetter__",
          "__lookupGetter__", "__lookupSetter__"}
  }

  /** Grouping the page throws when some resource on it has such a category. */
  predicate GroupingThrows(s: seq<Resource>) {
    exists k :: 0 <= k < |s| && InheritedKey(s[k].category)
  }

  predicate HasGroup(g: seq<CategoryGroup>, c: string) {
    exists i :: 0 <= i < |g| && g[i].category == c
  }

  /** One step of the `forEach` that builds `resourcesByCategory`: push onto the
      category's list, creating the list the first time the category is met. */
  function AddToGroups(g: seq<CategoryGroup>, x: Resource): seq<CategoryGroup> {
    match FindFirst(g, (h: CategoryGroup) => h.category == x.category)
    case Some(i) => g[i := CategoryGroup(g[i].category, g[i].resources + [x])]
    case None => g + [CategoryGroup(x.category, [x])]
  }

  /** `resourcesByCategory`: one group per category, each category once, every
      resource in the group of its category and in no other, in listing order. */
  function GroupByCategory(s: seq<Resource>): (g: seq<CategoryGroup>)
    ensures forall i, j :: 0 <= i < j < |g| ==> g[i].category != g[j].category
    ensures forall i :: 0 <= i < |g| ==> g[i].resources == OfCategory(s, g[i].category) && g[i].resources != []
    ensures forall k :: 0 <= k < |s| ==> HasGroup(g, s[k].category)
  {
    if s == [] then []
    else
      var p := s[..|s| - 1];
      var x := s[|s| - 1];
      assert s == p + [x];
      var g := GroupByCategory(p);
      match FindFirst(g, (h: CategoryGroup) => h.category == x.category)
      case Some(i) =>
        AddToExisting(p, x, g, i);
        AddToGroups(g, x)
      case None =>
        AddNew(p, x, g);
        AddToGroups(g, x)
  }

  /** The groups of `p`, as `GroupByCategory` promises them. */
  predicate GroupsOf(p: seq<Resource>, g: seq<CategoryGroup>) {
    && (forall i, j :: 0 <= i < j < |g| ==> g[i].category != g[j].category)
    && (forall i :: 0 <= i < |g| ==> g[i].resources == OfCategory(p, g[i].category) && g[i].resources != [])
    && (forall k :: 0 <= k < |p| ==> HasGroup(g, p[k].category))
  }

  lemma OfCategorySnoc(p: seq<Resource>, x: Resource, c: string)
    ensures OfCategory(p + [x], c) == OfCategory(p, c) + (if x.category == c then [x] else [])
  {
    assert (p + [x])[..|p|] == p;
  }

  lemma {:induction false} NoneOfCategory(p: seq<Resource>, c: string)
    requires forall k :: 0 <= k < |p| ==> p[k].category != c
    ensures OfCategory(p, c) == []
    decreases |p|
  {
    if p != [] {
      NoneOfCategory(p[..|p| - 1], c);
    }
  }

  /** A resource whose category already has a group joins the end of it. */
  lemma AddToExisting(p: seq<Resource>, x: Resource, g: seq<CategoryGroup>, i: nat)
    requires GroupsOf(p, g)
    requires i < |g| && g[i].category == x.category
    ensures GroupsOf(p + [x], AddToGroups(g, x))
  {
    var g' := g[i := CategoryGroup(g[i].category, g[i].resources + [x])];
    assert FindFirst(g, (h: CategoryGroup) => h.category == x.category) == Some(i);
    assert AddToGroups(g, x) == g';
    GroupsExtended(p, x, g, g', i);
  }

  /** A resource of a new category opens a group of its own at the end. */
  lemma AddNew(p: seq<Resource>, x: Resource, g: seq<CategoryGroup>)
    requires GroupsOf(p, g)
    requires forall i :: 0 <= i < |g| ==> g[i].category != x.category
    ensures GroupsOf(p + [x], AddToGroups(g, x))
  {
    var g' := g + [CategoryGroup(x.category, [x])];
    assert AddToGroups(g, x) == g';
    forall k | 0 <= k < |p| ensures p[k].category != x.category {
      assert HasGroup(g, p[k].category);
    }
    NoneOfCategory(p, x.category);
    forall j, k | 0 <= j < k < |g'| ensures g'[j].category != g'[k].category {
      if k == |g| {
        assert g'[j] == g[j];
      } else {
        assert g'[j] == g[j] && g'[k] == g[k];
      }
    }
    forall j | 0 <= j < |g'| ensures
      g'[j].resources == OfCategory(p, g'[j].category) + (if x.category == g'[j].category then [x] else [])
    {
      if j < |g| {
        assert g'[j] == g[j];
      } else {
        assert g'[j] == CategoryGroup(x.category, [x]);
      }
    }
    GroupsExtended(p, x, g, g', |g|);
  }

  /** The step shared by both cases: `g'` keeps the categories of `g` in
      place, has a group for `x`'s category at `i`, and every group of `g'`
      is what `p + [x]` puts in it. */
  lemma GroupsExtended(p: seq<Resource>, x: Resource, g: seq<CategoryGroup>, g': seq<CategoryGroup>, i: nat)
    requires GroupsOf(p, g)
    requires |g| <= |g'| && i < |g'| && g'[i].category == x.category
    requires forall j :: 0 <= j < |g| ==> g'[j].category == g[j].category
    requires forall j :: |g| <= j < |g'| ==> g'[j].category == x.category
    requires forall j, k :: 0 <= j < k < |g'| ==> g'[j].category != g'[k].category
    requires forall j :: 0 <= j < |g'| ==>
      g'[j].resources == OfCategory(p, g'[j].category) + (if x.category == g'[j].category then [x] else [])
    ensures GroupsOf(p + [x], g')
  {
    var s := p + [x];
    forall j | 0 <= j < |g'| ensures g'[j].resources == OfCategory(s, g'[j].category) && g'[j].resources != [] {
      var c := g'[j].category;
      OfCategorySnoc(p, x, c);
      if x.category != c {
        assert j < |g| && c == g[j].category;
        assert g'[j].resources == g[j].resources;
      } else {
        assert g'[j].resources == OfCategory(p, c) + [x];
      }
    }
    forall k | 0 <= k < |s| ensures HasGroup(g', s[k].category) {
      if k < |p| {
        assert s[k] == p[k];
        var j :| 0 <= j < |g| && g[j].category == p[k].category;
        assert g'[j].category == s[k].category;
      } else {
        assert g'[i].category == s[k].category;
      }
    }
  }

  /** `categories`: the distinct categories of the resources the caller may
      see, sorted; it ignores the category filter and the page. */
  function AvailableCategories(rs: seq<Resource>, caller: User): (r: seq<string>)
    ensures NoDuplicates(r)
    ensures Sorted(r, LexLe)
    ensures forall c :: c in r <==> exists i :: 0 <= i < |rs| && VisibleTo(caller, rs[i]) && rs[i].category == c
  {
    var names := CategoryNames(rs, caller);
    var r := SortBy(names, LexLe);
    PermutationKeepsNoDuplicates(names, r);
    LexLeIsTotalPreorder();
    SortBySorted(names, LexLe);
    SortByMembers(names, LexLe);
    r
  }

  /** The distinct categories of the visible resources, in store order. */
  function CategoryNames(rs: seq<Resource>, caller: User): (r: seq<string>)
    ensures NoDuplicates(r)
    ensures forall c :: c in r <==> exists i :: 0 <= i < |rs| && VisibleTo(caller, rs[i]) && rs[i].category == c
  {
    var all := VisibleCategoryList(rs, caller);
    forall c ensures c in all <==> exists i :: 0 <= i < |rs| && VisibleTo(caller, rs[i]) && rs[i].category == c {
      if c in all {
        CategoryFromStore(rs, caller, c);
      }
      if exists i :: 0 <= i < |rs| && VisibleTo(caller, rs[i]) && rs[i].category == c {
        var i :| 0 <= i < |rs| && VisibleTo(caller, rs[i]) && rs[i].category == c;
        CategoryInList(rs, caller, i);
      }
    }
    Distinct(all)
  }

  /** The categories of the visible resources, repeats included, in store order. */
  function VisibleCategoryList(rs: seq<Resource>, caller: User): seq<string> {
    Map(Filter(rs, (x: Resource) => VisibleTo(caller, x)), (x: Resource) => x.category)
  }

  lemma CategoryFromStore(rs: seq<Resource>, caller: User, c: string)
    requires c in VisibleCategoryList(rs, caller)
    ensures exists i :: 0 <= i < |rs| && VisibleTo(caller, rs[i]) && rs[i].category == c
  {
    var visible := Filter(rs, (x: Resource) => VisibleTo(caller, x));
    var all := VisibleCategoryList(rs, caller);
    var j :| 0 <= j < |all| && all[j] == c;
    assert visible[j] in visible;
    var i :| 0 <= i < |rs| && rs[i] == visible[j];
  }

  lemma CategoryInList(rs: seq<Resource>, caller: User, i: int)
    requires 0 <= i < |rs| && VisibleTo(caller, rs[i])
    ensures rs[i].category in VisibleCategoryList(rs, caller)
  {
    var visible := Filter(rs, (x: Resource) => VisibleTo(caller, x));
    assert rs[i] in visible;
    var j :| 0 <= j < |visible| && visible[j] == rs[i];
    assert VisibleCategoryList(rs, caller)[j] == rs[i].category;
  }

  lemma LexLeIsTotalPreorder()
    ensures TotalPreorder(LexLe)
  {
    forall a, b ensures LexLe(a, b) || LexLe(b, a) {
      LexLeTotal(a, b);
    }
    forall a, b, c | LexLe(a, b) && LexLe(b, c) ensures LexLe(a, c) {
      LexLeTransitive(a, b, c);
    }
  }

  /** All listed resources, in listing order. */
  function Ordered(rs: seq<Resource>, caller: User, category: Option<string>): seq<Resource> {
    SortBy(Filter(rs, (x: Resource) => Listed(caller, category, x)), ResourceBefore)
  }

  /** The requested page of the listing: only resources the caller may see and
      that match the category, ordered by category and then title. */
  function ListedResources(rs: seq<Resource>, caller: User, category: Option<string>, page: int, limit: int)
    : (v: seq<Resource>)
    requires page >= 1 && limit >= 1
    ensures |v| <= limit
    ensures forall i :: 0 <= i < |v| ==> v[i] in rs && Listed(caller, category, v[i])
    ensures forall i, j :: 0 <= i < j < |v| ==> ResourceBefore(v[i], v[j])
  {
    var sel := Filter(rs, (x: Resource) => Listed(caller, category, x));
    SortByMembers(sel, ResourceBefore);
    ResourceBeforeIsTotalPreorder();
    SortBySorted(sel, ResourceBefore);
    PageOfSorted(Ordered(rs, caller, category), page, limit, ResourceBefore);
    var v := Page(Ordered(rs, caller, category), page, limit);
    assert forall i :: 0 <= i < |v| ==> v[i] in v;
    v
  }

  datatype ResourceListing = ResourceListing(
    resources: seq<Resource>,
    byCategory: seq<CategoryGroup>,
    categories: seq<string>,
    page: int, limit: int, totalCount: nat, totalPages: nat,
    category: Option<string>)

  /** `caller` is the outcome of the authentication gate. */
  function ListResources(caller: Result<User, AuthError>, rs: seq<Resource>, category: Option<string>, page: int, limit: int)
    : (r: Reply<ResourceListing>)
    requires page >= 1 && limit >= 1
    ensures caller.Failure? ==> r == UserGateReply(caller.error)
    ensures caller.Success? && GroupingThrows(ListedResources(rs, caller.value, category, page, limit)) ==>
      r == InternalError()
    ensures caller.Success? && !GroupingThrows(ListedResources(rs, caller.value, category, page, limit)) ==>
      r.Ok? && r.status == OK
    ensures r.Ok? ==>
      && r.value.resources == ListedResources(rs, caller.value, category, page, limit)
      && r.value.byCategory == GroupByCategory(r.value.resources)
      && r.value.categories == AvailableCategories(rs, caller.value)
      && r.value.totalCount == Count(rs, (x: Resource) => Listed(caller.value, category, x))
      && r.value.totalPages == CeilDiv(r.value.totalCount, limit)
      && r.value.page == page && r.value.limit == limit && r.value.category == category
  {
    if caller.Failure? then UserGateReply(caller.error)
    else
      var listed := ListedResources(rs, caller.value, category, page, limit);
      if GroupingThrows(listed) then InternalError()
      else
      var total := Count(rs, (x: Resource) => Listed(caller.value, category, x));
      Ok(OK, ResourceListing(listed, GroupByCategory(listed), AvailableCategories(rs, caller.value),
                             page, limit, total, CeilDiv(total, limit), category))
  }

  /** A caller who is not an admin never sees a private resource, neither in
      the page, nor in the groups, nor through a category name. */
  lemma PrivateHiddenFromNonAdmins(caller: User, rs: seq<Resource>, category: Option<string>, page: int, limit: int)
    requires page >= 1 && limit >= 1
    requires caller.userType != Admin
    ensures var r := ListResources(Success(caller), rs, category, page, limit);
      r.Ok? ==> var l := r.value;
      && (forall i :: 0 <= i < |l.resources| ==> l.resources[i].isPublic)
      && (forall i, k :: 0 <= i < |l.byCategory| && 0 <= k < |l.byCategory[i].resources| ==> l.byCategory[i].resources[k].isPublic)
      && (forall c :: c in l.categories ==> exists i :: 0 <= i < |rs| && rs[i].isPublic && rs[i].category == c)
  {
    var r := ListResources(Success(caller), rs, category, page, limit);
    if r.Error? { return; }
    var l := r.value;
    var v := ListedResources(rs, caller, category, page, limit);
    assert l.resources == v && l.byCategory == GroupByCategory(v);
    assert l.categories == AvailableCategories(rs, caller);
    ListedArePublic(caller, rs, category, page, limit);
    GroupsArePublic(v);
    CategoriesArePublic(caller, rs);
  }

  lemma ListedArePublic(caller: User, rs: seq<Resource>, category: Option<string>, page: int, limit: int)
    requires page >= 1 && limit >= 1 && caller.userType != Admin
    ensures var v := ListedResources(rs, caller, category, page, limit);
      forall i :: 0 <= i < |v| ==> v[i].isPublic
  {
    var v := ListedResources(rs, caller, category, page, limit);
    forall i | 0 <= i < |v| ensures v[i].isPublic {
      assert Listed(caller, category, v[i]);
    }
  }

  lemma GroupsArePublic(v: seq<Resource>)
    requires forall i :: 0 <= i < |v| ==> v[i].isPublic
    ensures var g := GroupByCategory(v);
      forall i, k :: 0 <= i < |g| && 0 <= k < |g[i].resources| ==> g[i].resources[k].isPublic
  {
    var g := GroupByCategory(v);
    forall i, k | 0 <= i < |g| && 0 <= k < |g[i].resources| ensures g[i].resources[k].isPublic {
      GroupedAreListed(v, i, k);
      var j :| 0 <= j < |v| && v[j] == g[i].resources[k];
    }
  }

  lemma CategoriesArePublic(caller: User, rs: seq<Resource>)
    requires caller.userType != Admin
    ensures forall c :: c in AvailableCategories(rs, caller) ==> exists i :: 0 <= i < |rs| && rs[i].isPublic && rs[i].category == c
  {
    forall c | c in AvailableCategories(rs, caller)
      ensures exists i :: 0 <= i < |rs| && rs[i].isPublic && rs[i].category == c
    {
      var i :| 0 <= i < |rs| && VisibleTo(caller, rs[i]) && rs[i].category == c;
    }
  }

  /** A grouped resource comes from the grouped list. */
  lemma GroupedAreListed(s: seq<Resource>, i: int, k: int)
    requires 0 <= i < |GroupByCategory(s)| && 0 <= k < |GroupByCategory(s)[i].resources|
    ensures GroupByCategory(s)[i].resources[k] in s
  {
  }

  /** Every resource that matches shows up on some page within `totalPages`. */
  lemma EveryListedResourceIsOnSomePage(caller: User, rs: seq<Resource>, category: Option<string>, limit: int, x: Resource)
    requires limit >= 1
    requires x in rs && Listed(caller, category, x)
    ensures exists page :: (1 <= page <= CeilDiv(Count(rs, (y: Resource) => Listed(caller, category, y)), limit)
      && x in ListedResources(rs, caller, category, page, limit))
  {
    var page, k := ListedOnSomePage(rs, (y: Resource) => Listed(caller, category, y), ResourceBefore, limit, x);
    var shown := Page(Ordered(rs, caller, category), page, limit);
    assert shown[k] == x;
    assert ListedResources(rs, caller, category, page, limit) == shown;
  }

  /** A visible resource filed under "constructor" on the requested page
      turns the whole listing into a 500. */
  lemma InheritedCategoryFailsListing(caller: User, x: Resource, limit: int)
    requires limit >= 1 && x.isPublic && x.category == "constructor"
    ensures ListResources(Success(caller), [x], None, 1, limit) == InternalError()
  {
    var v := ListedResources([x], caller, None, 1, limit);
    assert Filter([x], (y: Resource) => Listed(caller, None, y)) == [x];
    assert Ordered([x], caller, None) == [x];
    assert v == [x];
    assert InheritedKey(v[0].category);
  }

  /** An admin without a category filter counts every resource. */
  lemma AdminCountsEverything(caller: User, rs: seq<Resource>, page: int, limit: int)
    requires page >= 1 && limit >= 1
    requires caller.userType == Admin
    ensures Count(rs, (x: Resource) => Listed(caller, None, x)) == |rs|
    ensures ListResources(Success(caller), rs, None, page, limit).Ok? ==>
      ListResources(Success(caller), rs, None, page, limit).value.totalCount == |rs|
  {
    FilterAll(rs, (x: Resource) => Listed(caller, None, x));
  }

  // ---- PATCH ----

  const UPDATED_MESSAGE: string := "Resource updated successfully"

  /** `apply` is the database update with the remaining body properties: it
      yields the updated row, or None when the database rejects the data. */
  function UpdateResource(caller: Result<User, AuthError>, body: Option<Json>, rs: seq<Resource>,
                          apply: (Resource, map<string, Json>) -> Option<Resource>)
    : (r: Outcome<Saved, seq<Resource>>)
    ensures caller.Failure? ==> r.reply == AuthReply(caller.error)
    ensures r.reply.Error? ==> r.store == rs
    ensures caller.Success? && body.Some? && !body.value.JNull? && !Truthy(Get(body.value, "resourceId")) ==>
      r.reply == Error(BAD_REQUEST, "Resource ID is required")
    ensures caller.Success? && body.Some? && Get(body.value, "resourceId").Some?
            && Get(body.value, "resourceId").value.JStr? && Get(body.value, "resourceId").value.s != ""
            && FindResource(rs, Get(body.value, "resourceId").value.s).None? ==>
      r.reply == Error(NOT_FOUND, "Resource not found")
    ensures caller.Success? && (body.None? || body.value.JNull?) ==> r.reply == InternalError()
    ensures caller.Success? && body.Some? && Truthy(Get(body.value, "resourceId")) && !Get(body.value, "resourceId").value.JStr? ==>
      r.reply == InternalError()
    ensures r.reply.Ok? <==>
      && caller.Success? && body.Some?
      && var id := Get(body.value, "resourceId");
      && id.Some? && id.value.JStr? && id.value.s != ""
      && FindResource(rs, id.value.s).Some?
      && apply(rs[FindResource(rs, id.value.s).value], Rest(body.value, "resourceId")).Some?
    ensures caller.Success? && body.Some? && Get(body.value, "resourceId").Some? && Get(body.value, "resourceId").value.JStr?
            && Get(body.value, "resourceId").value.s != "" && FindResource(rs, Get(body.value, "resourceId").value.s).Some?
            && apply(rs[FindResource(rs, Get(body.value, "resourceId").value.s).value], Rest(body.value, "resourceId")).None? ==>
      r.reply == InternalError()
    ensures r.reply.Ok? ==>
      && caller.Success? && body.Some? && Get(body.value, "resourceId").Some? && Get(body.value, "resourceId").value.JStr?
      && FindResource(rs, Get(body.value, "resourceId").value.s).Some?
      && var k := FindResource(rs, Get(body.value, "resourceId").value.s).value;
      && r.reply.status == OK && r.reply.value.message == UPDATED_MESSAGE
      && apply(rs[k], Rest(body.value, "resourceId")) == Some(r.reply.value.resource)
      && |r.store| == |rs| && r.store[k] == r.reply.value.resource
      && forall i :: 0 <= i < |rs| && i != k ==> r.store[i] == rs[i]
  {
    if caller.Failure? then Outcome(AuthReply(caller.error), rs)
    else if body.None? || body.value.JNull? then Outcome(InternalError(), rs)
    else
      var id := Get(body.value, "resourceId");
      if !Truthy(id) then Outcome(Error(BAD_REQUEST, "Resource ID is required"), rs)
      else if !id.value.JStr? then Outcome(InternalError(), rs)
      else match FindResource(rs, id.value.s)
        case None => Outcome(Error(NOT_FOUND, "Resource not found"), rs)
        case Some(k) =>
          match apply(rs[k], Rest(body.value, "resourceId"))
          case None => Outcome(InternalError(), rs)
          case Some(u) => Outcome(Ok(OK, Saved(UPDATED_MESSAGE, u)), rs[k := u])
  }

  /** The update data never carries `resourceId` itself. */
  lemma UpdateDataOmitsResourceId(body: Json)
    requires body.JObj?
    ensures "resourceId" !in Rest(body, "resourceId")
    ensures forall k :: k in body.fields && k != "resourceId" ==> k in Rest(body, "resourceId")
  {
  }

  /** When the database keeps a row's id, updating keeps resource ids unique. */
  lemma UpdateKeepsIdsUnique(caller: Result<User, AuthError>, body: Option<Json>, rs: seq<Resource>,
                             apply: (Resource, map<string, Json>) -> Option<Resource>)
    requires IdsUnique(rs)
    requires forall x, m :: apply(x, m).Some? ==> apply(x, m).value.id == x.id
    ensures IdsUnique(UpdateResource(caller, body, rs, apply).store)
  {
  }

  // ---- DELETE ----

  const DELETED_MESSAGE: string := "Resource deleted successfully"

  /** `resourceId` is the query string parameter. */
  function DeleteResource(caller: Result<User, AuthError>, resourceId: Option<string>, rs: seq<Resource>)
    : (r: Outcome<string, seq<Resource>>)
    ensures caller.Failure? ==> r.reply == AuthReply(caller.error)
    ensures r.reply.Error? ==> r.store == rs
    ensures caller.Success? && !Given(resourceId) ==> r.reply == Error(BAD_REQUEST, "Resource ID is required")
    ensures caller.Success? && Given(resourceId) && FindResource(rs, resourceId.value).None? ==>
      r.reply == Error(NOT_FOUND, "Resource not found")
    ensures r.reply.Ok? <==> caller.Success? && Given(resourceId) && FindResource(rs, resourceId.value).Some?
    ensures r.reply.Ok? ==>
      && r.reply == Ok(OK, DELETED_MESSAGE)
      && |r.store| == |rs| - 1
      && forall x :: x in rs && x.id != resourceId.value ==> x in r.store
  {
    if caller.Failure? then Outcome(AuthReply(caller.error), rs)
    else if !Given(resourceId) then Outcome(Error(BAD_REQUEST, "Resource ID is required"), rs)
    else match FindResource(rs, resourceId.value)
      case None => Outcome(Error(NOT_FOUND, "Resource not found"), rs)
      case Some(k) =>
        assert rs == rs[..k] + [rs[k]] + rs[k + 1..];
        Outcome(Ok(OK, DELETED_MESSAGE), rs[..k] + rs[k + 1..])
  }

  /** With unique ids a deletion removes exactly the resource with that id:
      what is left is the store filtered by "has another id". */
  lemma {:induction false} DeleteRemovesOnlyTarget(caller: User, id: string, rs: seq<Resource>)
    requires IdsUnique(rs)
    requires DeleteResource(Success(caller), Some(id), rs).reply.Ok?
    ensures DeleteResource(Success(caller), Some(id), rs).store == Filter(rs, (x: Resource) => x.id != id)
  {
    var k := FindResource(rs, id).value;
    var other := (x: Resource) => x.id != id;
    DeleteStore(caller, id, rs);
    FilterRemovesOne(rs, k, other);
  }

  lemma DeleteStore(caller: User, id: string, rs: seq<Resource>)
    requires DeleteResource(Success(caller), Some(id), rs).reply.Ok?
    ensures FindResource(rs, id).Some?
    ensures var k := FindResource(rs, id).value;
      DeleteResource(Success(caller), Some(id), rs).store == rs[..k] + rs[k + 1..]
  {
  }
}
