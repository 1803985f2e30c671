/** Offset pagination as the listing endpoints do it: `skip: (page - 1) * limit`,
    `take: limit`, and `totalPages: Math.ceil(totalCount / limit)`. */
module Paging {
  import opened Sorting
  import opened Seqs

  function Offset(page: int, limit: int): int {
    (page - 1) * limit
  }

  /** The `page`-th window of `limit` items of `s` (pages count from 1). */
  function Page<T>(s: seq<T>, page: int, limit: int): (r: seq<T>)
    requires page >= 1 && limit >= 1
    ensures |r| <= limit
    ensures Offset(page, limit) >= |s| ==> r == []
    ensures Offset(page, limit) < |s| ==> |r| == if |s| - Offset(page, limit) < limit then |s| - Offset(page, limit) else limit
    ensures forall i :: 0 <= i < |r| ==> Offset(page, limit) + i < |s| && r[i] == s[Offset(page, limit) + i]
  {
    MulNonNeg(page - 1, limit);
    Window(s, Offset(page, limit), limit)
  }

  /** At most `limit` items of `s` from position `start` on. */
  function Window<T>(s: seq<T>, start: nat, limit: nat): (r: seq<T>)
    ensures |r| <= limit
    ensures start >= |s| ==> r == []
    ensures start < |s| ==> |r| == if |s| - start < limit then |s| - start else limit
    ensures forall i :: 0 <= i < |r| ==> start + i < |s| && r[i] == s[start + i]
  {
    if start >= |s| then []
    else if |s| - start < limit then s[start..]
    else s[start..start + limit]
  }

  /** A page of an ordered listing is itself ordered, and holds only items of the listing. */
  lemma PageOfSorted<T>(s: seq<T>, page: int, limit: int, le: (T, T) -> bool)
    requires page >= 1 && limit >= 1
    requires Sorted(s, le)
    ensures Sorted(Page(s, page, limit), le)
    ensures forall x :: x in Page(s, page, limit) ==> x in s
  {
    var r := Page(s, page, limit);
    forall i, j | 0 <= i < j < |r| ensures le(r[i], r[j]) {
      assert r[i] == s[Offset(page, limit) + i] && r[j] == s[Offset(page, limit) + j];
    }
  }

  /** The page of a filtered, sorted listing holds only kept items of the
      source, in order. */
  lemma ListingPage<T(!new)>(s: seq<T>, keep: T -> bool, le: (T, T) -> bool, page: int, limit: int)
    requires page >= 1 && limit >= 1
    requires TotalPreorder(le)
    ensures var shown := Page(SortBy(Filter(s, keep), le), page, limit);
      && (forall i :: 0 <= i < |shown| ==> keep(shown[i]) && shown[i] in s)
      && Sorted(shown, le)
  {
    var sel := Filter(s, keep);
    var ord := SortBy(sel, le);
    SortByMembers(sel, le);
    SortBySorted(sel, le);
    PageOfSorted(ord, page, limit, le);
    var shown := Page(ord, page, limit);
    forall i | 0 <= i < |shown| ensures keep(shown[i]) && shown[i] in s {
      assert shown[i] in shown;
      assert shown[i] in sel;
    }
  }

  lemma MulNonNeg(a: int, b: int)
    requires a >= 0 && b >= 0
    ensures a * b >= 0
  {
  }

  /** `Math.ceil(n / d)` for a count `n` and a positive page size `d`: the least
      number of pages of `d` items that hold `n` items. */
  function CeilDiv(n: nat, d: int): (r: nat)
    requires d >= 1
    ensures r * d >= n
    ensures r == 0 || (r - 1) * d < n
  {
    if n % d == 0 then n / d else n / d + 1
  }

  /** Every item of a listing shows up on page `i / limit + 1`, at position
      `i % limit`, and that page is within `totalPages`. */
  lemma ItemOnItsPage<T>(s: seq<T>, limit: int, i: int)
    requires limit >= 1 && 0 <= i < |s|
    ensures 1 <= i / limit + 1 <= CeilDiv(|s|, limit)
    ensures var p := Page(s, i / limit + 1, limit);
      i % limit < |p| && p[i % limit] == s[i]
  {
    var q := i / limit;
    var m := i % limit;
    assert i == q * limit + m;
    assert Offset(q + 1, limit) == q * limit;
    var c := CeilDiv(|s|, limit);
    assert q + 1 <= c by {
      if c < q + 1 {
        assert c * limit <= q * limit by { MulMono(c, q, limit); }
        assert false;
      }
    }
  }

  /** An item kept by a listing's filter appears on some page within
      `totalPages`, at a known position. */
  lemma ListedOnSomePage<T>(s: seq<T>, keep: T -> bool, le: (T, T) -> bool, limit: int, x: T)
      returns (page: int, k: int)
    requires limit >= 1 && x in s && keep(x)
    ensures 1 <= page <= CeilDiv(|Filter(s, keep)|, limit)
    ensures var shown := Page(SortBy(Filter(s, keep), le), page, limit);
      0 <= k < |shown| && shown[k] == x
  {
    var sel := Filter(s, keep);
    var ordered := SortBy(sel, le);
    assert x in sel;
    SortByMembers(sel, le);
    assert x in ordered;
    var i :| 0 <= i < |ordered| && ordered[i] == x;
    ItemOnItsPage(ordered, limit, i);
    page := i / limit + 1;
    k := i % limit;
  }

  lemma MulMono(a: int, b: int, k: int)
    requires a <= b && k >= 0
    ensures a * k <= b * k
  {
  }
}
