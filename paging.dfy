/** The paging rule shared by the todo listing and the admin view:
    newest first, `take ITEMS_PER_PAGE`, `skip (page - 1) * ITEMS_PER_PAGE`,
    `totalPages = ceil(count / ITEMS_PER_PAGE)`. */
module Paging {
  import opened Schema
  import opened Helpers

  /** Number of rows a page skips. */
  function Skip(page: int): int
  {
    (page - 1) * ITEMS_PER_PAGE
  }

  /** The page-th window of at most ITEMS_PER_PAGE items. */
  function PageOf<T>(items: seq<T>, page: int): (r: seq<T>)
    requires page >= 1
    ensures |r| <= ITEMS_PER_PAGE
    ensures Skip(page) >= |items| ==> r == []
    ensures Skip(page) < |items| ==> |r| == if |items| - Skip(page) < ITEMS_PER_PAGE then |items| - Skip(page) else ITEMS_PER_PAGE
    ensures forall k :: 0 <= k < |r| ==> Skip(page) + k < |items| && r[k] == items[Skip(page) + k]
  {
    var skip := Skip(page);
    if skip >= |items| then []
    else if |items| - skip < ITEMS_PER_PAGE then items[skip..]
    else items[skip..skip + ITEMS_PER_PAGE]
  }

  /** `Math.ceil(count / ITEMS_PER_PAGE)` for a row count. */
  function TotalPages(count: nat): (r: nat)
    ensures count == 0 <==> r == 0
    ensures r * ITEMS_PER_PAGE >= count
    ensures r > 0 ==> (r - 1) * ITEMS_PER_PAGE < count
  {
    (count + ITEMS_PER_PAGE - 1) / ITEMS_PER_PAGE
  }

  /** For every page number from 1 on, the page holds items exactly when it
      is one of the `totalPages` pages reported beside it. */
  lemma PageNonEmptyIff<T>(items: seq<T>, page: int)
    requires page >= 1
    ensures PageOf(items, page) != [] <==> page <= TotalPages(|items|)
  {
    var n := TotalPages(|items|);
    if page <= n {
      assert Skip(page) <= (n - 1) * ITEMS_PER_PAGE;
    } else {
      assert Skip(page) >= n * ITEMS_PER_PAGE;
    }
  }

  /** Newest first: `orderBy: { createdAt: "desc" }`. */
  predicate NewestFirstOrdered(ts: seq<Todo>)
  {
    forall i, j :: 0 <= i < j < |ts| ==> ts[i].createdAt >= ts[j].createdAt
  }

  /** Places `t` in a newest-first sequence, after the todos strictly newer than it. */
  function Insert(t: Todo, ts: seq<Todo>): (r: seq<Todo>)
    requires NewestFirstOrdered(ts)
    ensures |r| == |ts| + 1
    ensures NewestFirstOrdered(r)
    ensures multiset(r) == multiset(ts) + multiset{t}
    ensures r[0] == t || (ts != [] && r[0] == ts[0])
    decreases |ts|
  {
    if ts == [] || t.createdAt >= ts[0].createdAt then
      [t] + ts
    else
      var rest := Insert(t, ts[1..]);
      assert ts == [ts[0]] + ts[1..];
      assert rest[0].createdAt <= ts[0].createdAt;
      assert forall k :: 0 <= k < |rest| ==> rest[k].createdAt <= rest[0].createdAt;
      [ts[0]] + rest
  }

  /** The todos ordered by creation time, newest first (ties keep no particular order,
      as the database promises none). */
  function NewestFirst(ts: seq<Todo>): (r: seq<Todo>)
    ensures NewestFirstOrdered(r)
    ensures multiset(r) == multiset(ts)
    decreases |ts|
  {
    if ts == [] then []
    else
      assert ts == [ts[0]] + ts[1..];
      Insert(ts[0], NewestFirst(ts[1..]))
  }

  /** A page of a newest-first listing is itself newest first, holds only listed
      todos, and is non-empty exactly when its number is at most `totalPages`. */
  lemma NewestFirstPage(items: seq<Todo>, page: int)
    requires page >= 1
    ensures var r := PageOf(NewestFirst(items), page);
            NewestFirstOrdered(r) &&
            (forall t :: t in r ==> t in items) &&
            (r != [] <==> page <= TotalPages(|items|))
  {
    var ordered := NewestFirst(items);
    var r := PageOf(ordered, page);
    assert |ordered| == |items| by {
      assert |multiset(ordered)| == |multiset(items)|;
    }
    PageNonEmptyIff(ordered, page);
    forall i, j | 0 <= i < j < |r| ensures r[i].createdAt >= r[j].createdAt {
      assert r[i] == ordered[Skip(page) + i] && r[j] == ordered[Skip(page) + j];
    }
    forall t | t in r ensures t in items {
      var k :| 0 <= k < |r| && r[k] == t;
      assert t in multiset(ordered);
    }
  }
}
