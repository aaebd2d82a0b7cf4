/**
 * The `posts` and `users` tables of the community board, and the relational
 * operations the service's queries are built from: WHERE (a filter), ORDER BY
 * (a sort), LIMIT/OFFSET (a slice) and the page count of a listing.
 */
module Posts {

  import opened Wrappers

  type PostId = int
  type UserId = int
  /** `created_at` / `updated_at`: opaque, totally ordered instants. */
  type Timestamp = int

  /** One row of `posts`. */
  datatype Post = Post(
    id: PostId,
    userId: UserId,
    title: string,
    content: string,
    category: string,
    views: int,
    likes: int,
    createdAt: Timestamp,
    updatedAt: Timestamp)

  /** One row of `users`, as far as the service reads it. */
  datatype User = User(id: UserId, username: string, avatarUrl: string)

  /** The three `ORDER BY` clauses of the listing query. */
  datatype Order = Latest | Popular | MostViewed

  /** No two rows share an id (the primary key of `posts`). */
  ghost predicate UniqueIds(posts: seq<Post>)
  {
    forall i, j :: 0 <= i < j < |posts| ==> posts[i].id != posts[j].id
  }

  /** The position of the first row with the given id (`WHERE id = $1`). */
  function IndexOf(posts: seq<Post>, id: PostId): (r: Option<nat>)
    ensures r.Some? ==> r.value < |posts| && posts[r.value].id == id
    ensures r.Some? ==> forall k :: 0 <= k < r.value ==> posts[k].id != id
    ensures r.None? <==> forall k :: 0 <= k < |posts| ==> posts[k].id != id
  {
    if posts == [] then None
    else if posts[0].id == id then Some(0)
    else
      var r := IndexOf(posts[1..], id);
      if r.Some? then Some(r.value + 1) else None
  }

  /** With unique ids, the row found is the only one carrying that id. */
  lemma IndexOfUnique(posts: seq<Post>, id: PostId, k: int)
    requires UniqueIds(posts)
    requires 0 <= k < |posts| && posts[k].id == id
    ensures IndexOf(posts, id) == Some(k)
  {
  }

  // ---------------------------------------------------------------- WHERE

  /** The rows of `s` that satisfy `f`, in table order. */
  function Filter<T>(s: seq<T>, f: T -> bool): (r: seq<T>)
    ensures |r| <= |s|
    ensures forall k :: 0 <= k < |r| ==> f(r[k])
  {
    if s == [] then []
    else if f(s[0]) then [s[0]] + Filter(s[1..], f)
    else Filter(s[1..], f)
  }

  /** The filter selects exactly the rows of `s` that satisfy `f`. */
  lemma {:induction false} FilterMembers<T>(s: seq<T>, f: T -> bool, x: T)
    ensures x in Filter(s, f) <==> x in s && f(x)
  {
    if s != [] {
      FilterMembers(s[1..], f, x);
      assert x in s <==> x == s[0] || x in s[1..];
    }
  }

  /** The filter keeps the whole table exactly when every row satisfies the predicate. */
  lemma {:induction false} FilterAll<T>(s: seq<T>, f: T -> bool)
    ensures Filter(s, f) == s <==> forall k :: 0 <= k < |s| ==> f(s[k])
    ensures |Filter(s, f)| == |s| <==> forall k :: 0 <= k < |s| ==> f(s[k])
  {
    if s != [] {
      FilterAll(s[1..], f);
      if f(s[0]) {
        assert forall k :: 1 <= k < |s| ==> s[k] == s[1..][k - 1];
        assert Filter(s, f) == [s[0]] + Filter(s[1..], f);
        if forall k :: 0 <= k < |s[1..]| ==> f(s[1..][k]) {
          assert s == [s[0]] + s[1..];
        }
      }
    }
  }

  /** Two predicates that agree on every row of `s` select the same rows. */
  lemma {:induction false} FilterAgreeing<T>(s: seq<T>, f: T -> bool, g: T -> bool)
    requires forall k :: 0 <= k < |s| ==> f(s[k]) == g(s[k])
    ensures Filter(s, f) == Filter(s, g)
  {
    if s != [] {
      FilterAgreeing(s[1..], f, g);
    }
  }

  // ---------------------------------------------------------------- ORDER BY

  /**
   * `a` may come before `b` in the given order: `created_at DESC`;
   * `likes DESC, views DESC`; `views DESC`.
   */
  predicate Precedes(a: Post, b: Post, o: Order)
  {
    match o
    case Latest => a.createdAt >= b.createdAt
    case Popular => a.likes > b.likes || (a.likes == b.likes && a.views >= b.views)
    case MostViewed => a.views >= b.views
  }

  predicate SortedBy(s: seq<Post>, o: Order)
  {
    forall i, j :: 0 <= i < j < |s| ==> Precedes(s[i], s[j], o)
  }

  /** No later row may also precede an earlier one: the sort keys have no ties. */
  predicate NoTies(s: seq<Post>, o: Order)
  {
    forall i, j :: 0 <= i < j < |s| ==> !Precedes(s[j], s[i], o)
  }

  /** A row that may precede every row of a sorted sequence can be put in front of it. */
  lemma PrependSorted(h: Post, t: seq<Post>, o: Order)
    requires SortedBy(t, o)
    requires forall y :: y in t ==> Precedes(h, y, o)
    ensures SortedBy([h] + t, o)
  {
    var s := [h] + t;
    forall i, j | 0 <= i < j < |s| ensures Precedes(s[i], s[j], o) {
      if i > 0 {
        assert s[i] == t[i - 1] && s[j] == t[j - 1];
      } else {
        assert s[j] in t;
      }
    }
  }

  /** Places `x` in front of the first row it may precede. */
  function Insert(x: Post, s: seq<Post>, o: Order): (r: seq<Post>)
    requires SortedBy(s, o)
    ensures SortedBy(r, o)
    ensures multiset(r) == multiset(s) + multiset{x}
  {
    if s == [] then [x]
    else if Precedes(x, s[0], o) then
      PrependSorted(x, s, o);
      [x] + s
    else
      var rest := Insert(x, s[1..], o);
      assert s == [s[0]] + s[1..];
      assert forall y :: y in rest ==> Precedes(s[0], y, o) by {
        forall y | y in rest ensures Precedes(s[0], y, o) {
          assert y in multiset(rest);
          if y != x {
            assert y in multiset(s[1..]);
            var k :| 0 <= k < |s[1..]| && s[1..][k] == y;
            assert s[k + 1] == y;
          }
        }
      }
      PrependSorted(s[0], rest, o);
      [s[0]] + rest
  }

  /**
   * `ORDER BY`: the rows reordered so that each may precede every later one.
   * The datastore leaves the order of ties open; this insertion sort keeps
   * them in table order. Facts about paging that depend on the position of
   * a row assume `NoTies`.
   */
  function SortBy(s: seq<Post>, o: Order): (r: seq<Post>)
    ensures SortedBy(r, o)
    ensures multiset(r) == multiset(s)
    ensures |r| == |s|
  {
    if s == [] then []
    else
      assert s == [s[0]] + s[1..];
      var r := Insert(s[0], SortBy(s[1..], o), o);
      assert |r| == |multiset(r)|;
      r
  }

  /** Sorting only reorders: a property of every input row is one of every output row. */
  lemma SortByKeeps(s: seq<Post>, o: Order, f: Post -> bool)
    requires forall k :: 0 <= k < |s| ==> f(s[k])
    ensures forall k :: 0 <= k < |SortBy(s, o)| ==> f(SortBy(s, o)[k])
  {
    var r := SortBy(s, o);
    forall k | 0 <= k < |r| ensures f(r[k]) {
      assert r[k] in multiset(s);
      var j :| 0 <= j < |s| && s[j] == r[k];
    }
  }

  lemma SortByMembers(s: seq<Post>, o: Order, x: Post)
    ensures x in SortBy(s, o) <==> x in s
  {
    assert x in SortBy(s, o) <==> x in multiset(SortBy(s, o));
  }

  // ---------------------------------------------------------------- LIMIT / OFFSET

  function Min(a: int, b: int): (m: int)
  {
    if a <= b then a else b
  }

  /** `LIMIT limit OFFSET offset`: at most `limit` rows, starting at row `offset`. */
  function Window<T>(s: seq<T>, offset: nat, limit: nat): (r: seq<T>)
    ensures |r| == if offset <= |s| then Min(limit, |s| - offset) else 0
    ensures forall k :: 0 <= k < |r| ==> offset + k < |s| && r[k] == s[offset + k]
  {
    if |s| <= offset then [] else s[offset..Min(offset + limit, |s|)]
  }

  /** `(page - 1) * limit`: the OFFSET of page `page`, never negative for a page from 1 and a limit from 0. */
  function PageOffset(page: int, limit: int): (o: int)
    ensures page >= 1 && limit >= 0 ==> o >= 0
  {
    (page - 1) * limit
  }

  // ---------------------------------------------------------------- page count

  /** `Math.ceil(n / d)`: the least number of pages of `d` rows that hold `n` rows. */
  function CeilDiv(n: nat, d: nat): (r: nat)
    requires d > 0
    ensures r * d >= n
    ensures r > 0 ==> (r - 1) * d < n
  {
    var q := (n + d - 1) / d;
    var m := (n + d - 1) % d;
    assert n + d - 1 == q * d + m && 0 <= m < d;
    assert (q - 1) * d == q * d - d;
    q
  }

  /** Row `k` is item `k % d` of page `k / d + 1`. */
  lemma RowWithinPage(k: nat, d: nat)
    requires d > 0
    ensures PageOffset(k / d + 1, d) + k % d == k
    ensures 0 <= k % d < d
  {
    QuotientBounds(k, d);
  }

  /** More rows never need fewer pages. */
  lemma CeilDivMonotone(n: nat, m: nat, d: nat)
    requires d > 0 && n <= m
    ensures CeilDiv(n, d) <= CeilDiv(m, d)
  {
    var r, t := CeilDiv(n, d), CeilDiv(m, d);
    if t < r {
      assert (r - 1) * d < t * d;
      FactorLess(r - 1, t, d);
    }
  }

  /** No page is counted for an empty result: `Math.ceil(0 / d)` is 0, not 1. */
  lemma {:induction false} CeilDivZeroIffEmpty(n: nat, d: nat)
    requires d > 0
    ensures CeilDiv(n, d) == 0 <==> n == 0
  {
    var r := CeilDiv(n, d);
    if r == 0 { assert r * d == 0; }
  }

  /** Row `k` of a result lies on page `k / d + 1`, and that page exists. */
  lemma {:induction false} RowOnExistingPage(n: nat, d: nat, k: nat)
    requires d > 0 && k < n
    ensures 1 <= k / d + 1 <= CeilDiv(n, d)
    ensures (k / d) * d <= k < (k / d) * d + d
  {
    var r := CeilDiv(n, d);
    var q := k / d;
    QuotientBounds(k, d);
    assert q * d < r * d;
    FactorLess(q, r, d);
  }

  lemma QuotientBounds(k: nat, d: nat)
    requires d > 0
    ensures (k / d) * d <= k < (k / d) * d + d
  {
    assert k == (k / d) * d + k % d;
  }

  lemma FactorLess(a: int, b: int, d: int)
    requires d > 0 && a * d < b * d
    ensures a < b
  {
    assert (b - a) * d == b * d - a * d;
  }
}
