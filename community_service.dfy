/**
 * The server-side community board service (`CommunityService`): listing,
 * search, detail view with its view counter, and the owner-guarded create,
 * update and delete of posts.  The relational store is an in-memory table:
 * a sequence of `posts` rows and a `users` map keyed by user id.
 */
module CommunityService {

  import opened Wrappers
  import opened Text
  import opened Posts

  /** The category value meaning "no category filter". */
  const AllCategories: string := "전체"
  /** `content.substring(0, 200)`. */
  const ExcerptLength: nat := 200
  const Ellipsis: string := "..."
  /** A post is hot above these counts. */
  const HotViews: int := 1000
  const HotLikes: int := 100
  /** `searchPosts` always pages by 20. */
  const SearchPageSize: nat := 20

  /** The errors the service raises; the first two carry `statusCode` 404 and 403. */
  datatype ServiceError = NotFound | Forbidden | StorageError

  function StatusCode(e: ServiceError): (code: Option<int>)
    ensures code.Some? <==> e != StorageError
    ensures e == NotFound ==> code == Some(404)
    ensures e == Forbidden ==> code == Some(403)
  {
    match e
    case NotFound => Some(404)
    case Forbidden => Some(403)
    case StorageError => None
  }

  datatype Author = Author(id: UserId, username: string, avatar: string)
  datatype Stats = Stats(views: int, likes: int, comments: int)

  /** One element of `getPosts(...).posts`. */
  datatype ListItem = ListItem(
    id: PostId, title: string, category: string, excerpt: string,
    author: Author, createdAt: Timestamp, stats: Stats, isHot: bool)

  datatype SearchStats = SearchStats(views: int, likes: int)

  /** One element of `searchPosts(...).posts`: the author is the user name alone. */
  datatype SearchItem = SearchItem(
    id: PostId, title: string, category: string, excerpt: string,
    author: string, stats: SearchStats, createdAt: Timestamp)

  datatype PageInfo = PageInfo(currentPage: int, totalPages: nat, totalItems: nat)
  datatype PostPage<T> = PostPage(posts: seq<T>, pagination: PageInfo)

  /** The result of `getPostById`. */
  datatype PostDetail = PostDetail(
    id: PostId, title: string, content: string, category: string,
    author: Author, stats: Stats, createdAt: Timestamp, updatedAt: Timestamp)

  /** `RETURNING id, title, category, created_at` of `createPost`. */
  datatype Created = Created(id: PostId, title: string, category: string, createdAt: Timestamp)
  /** `RETURNING id, title, category, updated_at` of `updatePost`. */
  datatype Updated = Updated(id: PostId, title: string, category: string, updatedAt: Timestamp)

  // ---------------------------------------------------------------- projection

  /** The listing preview: the first 200 characters, always followed by "...". */
  function Excerpt(content: string): (r: string)
    ensures |r| == Min(|content|, ExcerptLength) + |Ellipsis|
    ensures r[..|r| - |Ellipsis|] == content[..Min(|content|, ExcerptLength)]
    ensures r[|r| - |Ellipsis|..] == Ellipsis
  {
    content[..Min(|content|, ExcerptLength)] + Ellipsis
  }

  /** Content that fits in the excerpt is kept whole, and the marker is still added. */
  lemma ShortContentExcerpt(content: string)
    requires |content| <= ExcerptLength
    ensures Excerpt(content) == content + Ellipsis
  {
  }

  /** Hot above 1000 views or above 100 likes: a post is cold exactly when it has at most both. */
  function IsHot(views: int, likes: int): (hot: bool)
    ensures !hot <==> views <= HotViews && likes <= HotLikes
  {
    views > HotViews || likes > HotLikes
  }

  /** Hotness is monotone: more views or likes never make a hot post cool. */
  lemma HotIsMonotone(v: int, l: int, v': int, l': int)
    requires IsHot(v, l) && v <= v' && l <= l'
    ensures IsHot(v', l')
  {
  }

  /** A row of the listing query (the post joined with its author) as the client receives it. */
  function Project(p: Post, u: User): (r: ListItem)
    ensures r.id == p.id && r.title == p.title && r.category == p.category && r.createdAt == p.createdAt
    ensures r.author == Author(p.userId, u.username, u.avatarUrl)
    ensures r.excerpt == Excerpt(p.content)
    ensures r.stats == Stats(p.views, p.likes, 0)
    ensures r.isHot <==> p.views > 1000 || p.likes > 100
  {
    ListItem(p.id, p.title, p.category, Excerpt(p.content),
             Author(p.userId, u.username, u.avatarUrl), p.createdAt,
             Stats(p.views, p.likes, 0), IsHot(p.views, p.likes))
  }

  function ProjectSearch(p: Post, u: User): (r: SearchItem)
    ensures r.id == p.id && r.title == p.title && r.category == p.category && r.createdAt == p.createdAt
    ensures r.author == u.username
    ensures r.excerpt == Excerpt(p.content)
    ensures r.stats == SearchStats(p.views, p.likes)
  {
    SearchItem(p.id, p.title, p.category, Excerpt(p.content), u.username,
               SearchStats(p.views, p.likes), p.createdAt)
  }

  // ---------------------------------------------------------------- listing

  /** `sort` names: "popular", "views"; any other value means newest first. */
  function OrderOf(sort: string): (o: Order)
    ensures o == Popular <==> sort == "popular"
    ensures o == MostViewed <==> sort == "views"
  {
    if sort == "popular" then Popular
    else if sort == "views" then MostViewed
    else Latest
  }

  /**
   * The category predicate shared by the count query and the listing query:
   * `WHERE p.category = $3`, present only when a category other than "전체" is asked for.
   */
  function Admits(p: Post, category: string): (admitted: bool)
    ensures category == AllCategories ==> admitted
    ensures category != AllCategories ==> (admitted <==> p.category == category)
  {
    category == AllCategories || p.category == category
  }

  function AdmittedBy(category: string): (f: Post -> bool)
  {
    p => Admits(p, category)
  }

  /** The listing query's rows: the inner join with `users` plus the category predicate. */
  function ListedBy(users: map<UserId, User>, category: string): (f: Post -> bool)
  {
    (p: Post) => p.userId in users && Admits(p, category)
  }

  /** `SELECT COUNT(*) FROM posts [WHERE category = $1]`: no join with `users`. */
  function CountAdmitted(posts: seq<Post>, category: string): (n: nat)
    ensures n <= |posts|
    ensures category == AllCategories ==> n == |posts|
    ensures n == |posts| <==> forall k :: 0 <= k < |posts| ==> Admits(posts[k], category)
  {
    FilterAll(posts, AdmittedBy(category));
    |Filter(posts, AdmittedBy(category))|
  }

  /** The full, ordered result of the listing query before `LIMIT`/`OFFSET`. */
  function ListingRows(posts: seq<Post>, users: map<UserId, User>, category: string, sort: string): (r: seq<Post>)
    ensures SortedBy(r, OrderOf(sort))
    ensures forall k :: 0 <= k < |r| ==> r[k].userId in users && Admits(r[k], category)
    ensures |r| == |Filter(posts, ListedBy(users, category))|
  {
    var f := Filter(posts, ListedBy(users, category));
    SortByKeeps(f, OrderOf(sort), ListedBy(users, category));
    SortBy(f, OrderOf(sort))
  }

  /** The listing holds exactly the posts whose author exists and whose category is admitted. */
  lemma ListingRowsMembers(posts: seq<Post>, users: map<UserId, User>, category: string, sort: string, p: Post)
    ensures p in ListingRows(posts, users, category, sort) <==>
            p in posts && p.userId in users && Admits(p, category)
  {
    var f := Filter(posts, ListedBy(users, category));
    SortByMembers(f, OrderOf(sort), p);
    FilterMembers(posts, ListedBy(users, category), p);
  }

  /**
   * `items` is the page of `rows` that `LIMIT limit OFFSET offset` selects:
   * as many rows as remain after `offset`, at most `limit`, in order, each
   * projected with its author.
   */
  predicate IsListingPage(items: seq<ListItem>, rows: seq<Post>, users: map<UserId, User>, offset: nat, limit: nat)
  {
    && |items| == (if offset <= |rows| then Min(limit, |rows| - offset) else 0)
    && forall k :: 0 <= k < |items| ==>
         offset + k < |rows| && rows[offset + k].userId in users &&
         items[k] == Project(rows[offset + k], users[rows[offset + k].userId])
  }

  /** As `IsListingPage`, with the fields the search result shows. */
  predicate IsSearchPage(items: seq<SearchItem>, rows: seq<Post>, users: map<UserId, User>, offset: nat, limit: nat)
  {
    && |items| == (if offset <= |rows| then Min(limit, |rows| - offset) else 0)
    && forall k :: 0 <= k < |items| ==>
         offset + k < |rows| && rows[offset + k].userId in users &&
         items[k] == ProjectSearch(rows[offset + k], users[rows[offset + k].userId])
  }

  /** `LIMIT limit OFFSET offset` over joined rows, each projected for the client. */
  function ListingPage(rows: seq<Post>, users: map<UserId, User>, offset: nat, limit: nat): (r: seq<ListItem>)
    requires forall k :: 0 <= k < |rows| ==> rows[k].userId in users
    ensures IsListingPage(r, rows, users, offset, limit)
  {
    var w := Window(rows, offset, limit);
    seq(|w|, k requires 0 <= k < |w| => Project(w[k], users[w[k].userId]))
  }

  function SearchPage(rows: seq<Post>, users: map<UserId, User>, offset: nat, limit: nat): (r: seq<SearchItem>)
    requires forall k :: 0 <= k < |rows| ==> rows[k].userId in users
    ensures IsSearchPage(r, rows, users, offset, limit)
  {
    var w := Window(rows, offset, limit);
    seq(|w|, k requires 0 <= k < |w| => ProjectSearch(w[k], users[w[k].userId]))
  }

  /**
   * `getPosts(page, limit, category, sort)`.  A page below 1 or a negative
   * limit gives a negative OFFSET or LIMIT, which the datastore rejects.
   */
  function GetPosts(posts: seq<Post>, users: map<UserId, User>, page: int := 1, limit: int := 20,
                    category: string := AllCategories, sort: string := "latest"): (r: Result<PostPage<ListItem>, ServiceError>)
    requires limit != 0
    ensures r.Err? <==> page < 1 || limit < 0
    ensures r.Err? ==> r.error == StorageError
    ensures r.Ok? ==>
      && IsListingPage(r.value.posts, ListingRows(posts, users, category, sort), users, PageOffset(page, limit), limit)
      && r.value.pagination == PageInfo(page, CeilDiv(CountAdmitted(posts, category), limit),
                                        CountAdmitted(posts, category))
  {
    if page < 1 || limit < 0 then Err(StorageError)
    else
      var totalItems := CountAdmitted(posts, category);
      Ok(PostPage(ListingPage(ListingRows(posts, users, category, sort), users, PageOffset(page, limit), limit),
                  PageInfo(page, CeilDiv(totalItems, limit), totalItems)))
  }

  /**
   * With every argument left at its default, `getPosts()` answers the first
   * 20 listed rows (the posts whose author exists), newest first, and counts
   * every post.
   */
  lemma DefaultListingIsFirstPage(posts: seq<Post>, users: map<UserId, User>)
    ensures var r := GetPosts(posts, users);
      && r.Ok?
      && r.value.pagination.currentPage == 1
      && r.value.pagination.totalItems == |posts|
      && |r.value.posts| <= 20
      && IsListingPage(r.value.posts, ListingRows(posts, users, AllCategories, "latest"), users, 0, 20)
  {
  }

  /** A filter that selects no more rows than another selects no more, and strictly fewer if it drops one. */
  lemma {:induction false} FilterNarrower(s: seq<Post>, f: Post -> bool, g: Post -> bool)
    requires forall k :: 0 <= k < |s| ==> f(s[k]) ==> g(s[k])
    ensures |Filter(s, f)| <= |Filter(s, g)|
    ensures (exists k :: 0 <= k < |s| && g(s[k]) && !f(s[k])) ==> |Filter(s, f)| < |Filter(s, g)|
  {
    if s != [] {
      FilterNarrower(s[1..], f, g);
      if exists k :: 0 <= k < |s| && g(s[k]) && !f(s[k]) {
        var k :| 0 <= k < |s| && g(s[k]) && !f(s[k]);
        if k > 0 {
          assert s[1..][k - 1] == s[k];
        }
      }
    }
  }

  /**
   * `totalItems` is the length of the listing exactly when every admitted
   * post's author exists: the count query has no join with `users`.
   */
  lemma CountMatchesListing(posts: seq<Post>, users: map<UserId, User>, category: string, sort: string)
    ensures CountAdmitted(posts, category) == |ListingRows(posts, users, category, sort)| <==>
            forall k :: 0 <= k < |posts| && Admits(posts[k], category) ==> posts[k].userId in users
  {
    if forall k :: 0 <= k < |posts| && Admits(posts[k], category) ==> posts[k].userId in users {
      FilterAgreeing(posts, ListedBy(users, category), AdmittedBy(category));
    } else {
      var k :| 0 <= k < |posts| && Admits(posts[k], category) && posts[k].userId !in users;
      OrphanCountedNotListed(posts, users, category, sort, k);
    }
  }

  /** An admitted post whose author row is missing is counted in `totalItems` yet never listed. */
  lemma OrphanCountedNotListed(posts: seq<Post>, users: map<UserId, User>, category: string, sort: string, k: int)
    requires 0 <= k < |posts| && posts[k].userId !in users && Admits(posts[k], category)
    ensures |ListingRows(posts, users, category, sort)| < CountAdmitted(posts, category)
  {
    FilterNarrower(posts, ListedBy(users, category), AdmittedBy(category));
  }

  /**
   * Paging covers the listing: row `k` of the ordered result is item
   * `k % limit` of page `k / limit + 1`, and that page is within `totalPages`.
   * This needs the listed rows to have no ties in the sort keys: the
   * datastore may order tied rows differently in each `LIMIT`/`OFFSET` query.
   */
  lemma EveryRowOnItsPage(posts: seq<Post>, users: map<UserId, User>, limit: int,
                          category: string, sort: string, k: int)
    requires limit > 0
    requires NoTies(ListingRows(posts, users, category, sort), OrderOf(sort))
    requires 0 <= k < |ListingRows(posts, users, category, sort)|
    ensures var rows := ListingRows(posts, users, category, sort);
            var r := GetPosts(posts, users, k / limit + 1, limit, category, sort);
            && r.Ok? && 1 <= k / limit + 1 <= r.value.pagination.totalPages
            && k % limit < |r.value.posts|
            && r.value.posts[k % limit] == Project(rows[k], users[rows[k].userId])
  {
    var rows := ListingRows(posts, users, category, sort);
    var count := CountAdmitted(posts, category);
    assert |rows| <= count by {
      FilterNarrower(posts, ListedBy(users, category), AdmittedBy(category));
    }
    assert 1 <= k / limit + 1 <= CeilDiv(count, limit) by {
      RowOnExistingPage(|rows|, limit, k);
      CeilDivMonotone(|rows|, count, limit);
    }
    var r := GetPosts(posts, users, k / limit + 1, limit, category, sort);
    assert r.Ok? && r.value.pagination.totalPages == CeilDiv(count, limit);
    PageHoldsRow(r.value.posts, rows, users, limit, k);
  }

  /** A page of the listing holds row `k` as its item `k % limit`. */
  lemma PageHoldsRow(items: seq<ListItem>, rows: seq<Post>, users: map<UserId, User>, limit: nat, k: nat)
    requires limit > 0 && k < |rows|
    requires IsListingPage(items, rows, users, PageOffset(k / limit + 1, limit), limit)
    ensures k % limit < |items| && rows[k].userId in users
    ensures items[k % limit] == Project(rows[k], users[rows[k].userId])
  {
    RowWithinPage(k, limit);
    var o := PageOffset(k / limit + 1, limit);
    var i := k % limit;
    assert i < Min(limit, |rows| - o);
    var item := items[i];
    assert item == Project(rows[o + i], users[rows[o + i].userId]);
  }

  /** An empty listing has no pages at all: `totalPages` is 0, not 1. */
  lemma EmptyListingHasNoPages(posts: seq<Post>, users: map<UserId, User>, page: int, limit: int,
                               category: string, sort: string)
    requires limit > 0 && page >= 1
    requires CountAdmitted(posts, category) == 0
    ensures GetPosts(posts, users, page, limit, category, sort).value.posts == []
    ensures GetPosts(posts, users, page, limit, category, sort).value.pagination.totalPages == 0
  {
    CeilDivZeroIffEmpty(0, limit);
    FilterNarrower(posts, ListedBy(users, category), AdmittedBy(category));
    assert |ListingRows(posts, users, category, sort)| == 0;
    var r := GetPosts(posts, users, page, limit, category, sort);
    assert |r.value.posts| == 0;
  }

  // ---------------------------------------------------------------- search

  /** `title ILIKE '%keyword%' OR content ILIKE '%keyword%'`. */
  function Matches(p: Post, keyword: string): (m: bool)
    ensures m <==> ((exists i :: OccursAt(LowerString(p.title), LowerString(keyword), i))
                    || (exists i :: OccursAt(LowerString(p.content), LowerString(keyword), i)))
  {
    ContainsIgnoreCase(p.title, keyword) || ContainsIgnoreCase(p.content, keyword)
  }

  /** The case of the keyword does not matter. */
  lemma KeywordCaseIgnored(p: Post, keyword: string)
    ensures Matches(p, LowerString(keyword)) <==> Matches(p, keyword)
  {
    LowerStringIdempotent(keyword);
  }

  /** An empty keyword (the pattern `%%`) matches every post. */
  lemma EmptyKeywordMatchesAll(p: Post)
    ensures Matches(p, "")
  {
    ContainsEmpty(LowerString(p.title));
  }

  function MatchedBy(keyword: string): (f: Post -> bool)
  {
    p => Matches(p, keyword)
  }

  function SearchedBy(users: map<UserId, User>, keyword: string): (f: Post -> bool)
  {
    (p: Post) => p.userId in users && Matches(p, keyword)
  }

  function SearchRows(posts: seq<Post>, users: map<UserId, User>, keyword: string): (r: seq<Post>)
    ensures SortedBy(r, Latest)
    ensures forall k :: 0 <= k < |r| ==> r[k].userId in users && Matches(r[k], keyword)
    ensures |r| == |Filter(posts, SearchedBy(users, keyword))|
  {
    var f := Filter(posts, SearchedBy(users, keyword));
    SortByKeeps(f, Latest, SearchedBy(users, keyword));
    SortBy(f, Latest)
  }

  /** Search finds exactly the posts, with an existing author, that match the keyword. */
  lemma SearchRowsMembers(posts: seq<Post>, users: map<UserId, User>, keyword: string, p: Post)
    ensures p in SearchRows(posts, users, keyword) <==> p in posts && p.userId in users && Matches(p, keyword)
  {
    var f := Filter(posts, SearchedBy(users, keyword));
    SortByMembers(f, Latest, p);
    FilterMembers(posts, SearchedBy(users, keyword), p);
  }

  /**
   * The search count query has no join with `users` either: its count is the
   * number of found rows exactly when every matching post's author exists,
   * and a matching post without an author row is counted but never found.
   */
  lemma SearchCountMatchesRows(posts: seq<Post>, users: map<UserId, User>, keyword: string)
    ensures |Filter(posts, MatchedBy(keyword))| == |SearchRows(posts, users, keyword)| <==>
            forall k :: 0 <= k < |posts| && Matches(posts[k], keyword) ==> posts[k].userId in users
  {
    if forall k :: 0 <= k < |posts| && Matches(posts[k], keyword) ==> posts[k].userId in users {
      FilterAgreeing(posts, SearchedBy(users, keyword), MatchedBy(keyword));
    } else {
      var k :| 0 <= k < |posts| && Matches(posts[k], keyword) && posts[k].userId !in users;
      assert MatchedBy(keyword)(posts[k]) && !SearchedBy(users, keyword)(posts[k]);
      FilterNarrower(posts, SearchedBy(users, keyword), MatchedBy(keyword));
    }
  }

  /** `searchPosts(keyword, page)`: newest first, 20 per page. */
  function SearchPosts(posts: seq<Post>, users: map<UserId, User>, keyword: string, page: int := 1)
    : (r: Result<PostPage<SearchItem>, ServiceError>)
    ensures r.Err? <==> page < 1
    ensures r.Err? ==> r.error == StorageError
    ensures r.Ok? ==>
      && IsSearchPage(r.value.posts, SearchRows(posts, users, keyword), users,
                      PageOffset(page, SearchPageSize), SearchPageSize)
      && |r.value.posts| <= SearchPageSize
      && (forall i, j :: 0 <= i < j < |r.value.posts| ==> r.value.posts[i].createdAt >= r.value.posts[j].createdAt)
      && r.value.pagination.currentPage == page
      && r.value.pagination.totalItems == |Filter(posts, MatchedBy(keyword))|
      && r.value.pagination.totalPages == CeilDiv(r.value.pagination.totalItems, SearchPageSize)
  {
    if page < 1 then Err(StorageError)
    else
      var offset := PageOffset(page, SearchPageSize);
      var rows := SearchRows(posts, users, keyword);
      var items := SearchPage(rows, users, offset, SearchPageSize);
      assert forall i, j :: 0 <= i < j < |items| ==> items[i].createdAt >= items[j].createdAt by {
        forall i, j | 0 <= i < j < |items| ensures items[i].createdAt >= items[j].createdAt {
          assert Precedes(rows[offset + i], rows[offset + j], Latest);
        }
      }
      var totalItems := |Filter(posts, MatchedBy(keyword))|;
      Ok(PostPage(items, PageInfo(page, CeilDiv(totalItems, SearchPageSize), totalItems)))
  }

  // ---------------------------------------------------------------- ownership guard

  /**
   * The check shared by `updatePost` and `deletePost`: the position of the
   * post, or 404 when no row has that id, or 403 when its owner is not the caller.
   */
  function Authorize(posts: seq<Post>, postId: PostId, callerId: UserId): (r: Result<nat, ServiceError>)
    ensures r.Ok? ==> r.value < |posts| && posts[r.value].id == postId && posts[r.value].userId == callerId
    ensures r == Err(NotFound) <==> forall k :: 0 <= k < |posts| ==> posts[k].id != postId
    ensures UniqueIds(posts) ==>
      (r == Err(Forbidden) <==> exists k :: 0 <= k < |posts| && posts[k].id == postId && posts[k].userId != callerId)
    ensures r.Err? ==> r.error != StorageError
  {
    match IndexOf(posts, postId)
    case None => Err(NotFound)
    case Some(i) => if posts[i].userId != callerId then Err(Forbidden) else Ok(i)
  }

  // ---------------------------------------------------------------- table edits

  /** `UPDATE posts SET views = views + 1 WHERE id = $1`. */
  function BumpViews(posts: seq<Post>, id: PostId): (r: seq<Post>)
    ensures |r| == |posts|
    ensures forall k :: 0 <= k < |posts| ==>
      r[k] == if posts[k].id == id then posts[k].(views := posts[k].views + 1) else posts[k]
  {
    seq(|posts|, k requires 0 <= k < |posts| =>
      if posts[k].id == id then posts[k].(views := posts[k].views + 1) else posts[k])
  }

  function TotalViews(posts: seq<Post>): (total: int)
  {
    if posts == [] then 0 else posts[0].views + TotalViews(posts[1..])
  }

  /** A detail view adds exactly one view to the whole table, or none when the id is absent. */
  lemma {:induction false} BumpViewsAddsOne(posts: seq<Post>, id: PostId)
    requires UniqueIds(posts)
    ensures TotalViews(BumpViews(posts, id)) ==
            TotalViews(posts) + (if IndexOf(posts, id).Some? then 1 else 0)
  {
    if posts != [] {
      var t := posts[1..];
      assert UniqueIds(t) by {
        forall i, j | 0 <= i < j < |t| ensures t[i].id != t[j].id {
          assert t[i] == posts[i + 1] && t[j] == posts[j + 1];
        }
      }
      BumpViewsAddsOne(t, id);
      var r := BumpViews(posts, id);
      assert r[1..] == BumpViews(t, id) by {
        var b := BumpViews(t, id);
        assert |r[1..]| == |b|;
        forall k | 0 <= k < |b| ensures r[1..][k] == b[k] {
          assert r[1..][k] == r[k + 1] && t[k] == posts[k + 1];
        }
      }
      assert TotalViews(r) == r[0].views + TotalViews(r[1..]);
      if posts[0].id == id {
        assert IndexOf(t, id).None? by {
          forall k | 0 <= k < |t| ensures t[k].id != id {
            assert t[k] == posts[k + 1];
          }
        }
      } else {
        assert IndexOf(posts, id).Some? == IndexOf(t, id).Some?;
      }
    }
  }

  /** `DELETE FROM posts WHERE id = $1` once the row is known to be at `i`. */
  function RemoveAt(posts: seq<Post>, i: nat): (r: seq<Post>)
    requires i < |posts|
    ensures |r| == |posts| - 1
    ensures forall k :: 0 <= k < |r| ==> r[k] == if k < i then posts[k] else posts[k + 1]
  {
    posts[..i] + posts[i + 1..]
  }

  /** Deleting the row at `i` removes exactly the post with that id and keeps ids unique. */
  lemma DeleteRemovesExactly(posts: seq<Post>, i: nat)
    requires UniqueIds(posts) && i < |posts|
    ensures UniqueIds(RemoveAt(posts, i))
    ensures forall q :: q in RemoveAt(posts, i) <==> q in posts && q.id != posts[i].id
  {
    forall q ensures q in RemoveAt(posts, i) <==> q in posts && q.id != posts[i].id {
      RemovedRow(posts, i, q);
    }
  }

  lemma RemovedRow(posts: seq<Post>, i: nat, q: Post)
    requires UniqueIds(posts) && i < |posts|
    ensures q in RemoveAt(posts, i) <==> q in posts && q.id != posts[i].id
  {
    var r := RemoveAt(posts, i);
    if q in r {
      var k :| 0 <= k < |r| && r[k] == q;
      var j := if k < i then k else k + 1;
      assert posts[j] == q && j != i;
    }
    if q in posts && q.id != posts[i].id {
      var k :| 0 <= k < |posts| && posts[k] == q;
      assert k != i;
      var j := if k < i then k else k - 1;
      assert r[j] == q;
    }
  }

  /** The datastore: the `posts` table, the `users` table and the next serial id. */
  class PostStore {
    var posts: seq<Post>
    var users: map<UserId, User>
    var nextId: PostId

    ghost predicate Valid()
      reads this
    {
      UniqueIds(posts) && forall k :: 0 <= k < |posts| ==> posts[k].id < nextId
    }

    constructor (users: map<UserId, User>)
      ensures Valid()
      ensures posts == [] && this.users == users
    {
      posts := [];
      this.users := users;
      nextId := 1;
    }

    /**
     * `getPostById(id)`: the view counter is bumped first, then the row is
     * read back joined with its author; no such row is a 404.
     */
    method GetPostById(id: PostId) returns (r: Result<PostDetail, ServiceError>)
      requires Valid()
      modifies this
      ensures Valid() && users == old(users) && nextId == old(nextId)
      ensures posts == BumpViews(old(posts), id)
      ensures r.Err? ==> r.error == NotFound
      ensures r.Ok? <==> exists k :: 0 <= k < |posts| && posts[k].id == id && posts[k].userId in users
      ensures r.Ok? ==>
        var i := IndexOf(old(posts), id).value;
        var p := old(posts)[i];
        && r.value.stats == Stats(p.views + 1, p.likes, 0)
        && r.value == PostDetail(p.id, p.title, p.content, p.category,
                                 Author(p.userId, users[p.userId].username, users[p.userId].avatarUrl),
                                 Stats(p.views + 1, p.likes, 0), p.createdAt, p.updatedAt)
    {
      posts := BumpViews(posts, id);
      match IndexOf(posts, id)
      case None =>
        r := Err(NotFound);
      case Some(i) =>
        var p := posts[i];
        if p.userId !in users {
          forall k | 0 <= k < |posts| && posts[k].id == id ensures k == i {
            IndexOfUnique(posts, id, k);
          }
          r := Err(NotFound);
        } else {
          assert posts[i].id == id && posts[i].userId in users;
          assert IndexOf(old(posts), id) == Some(i);
          var u := users[p.userId];
          r := Ok(PostDetail(p.id, p.title, p.content, p.category,
                             Author(p.userId, u.username, u.avatarUrl),
                             Stats(p.views, p.likes, 0), p.createdAt, p.updatedAt));
        }
    }

    /** `createPost(userId, data)`: appends a row owned by the caller with the next serial id. */
    method CreatePost(userId: UserId, title: string, content: string, category: string, now: Timestamp)
      returns (r: Created)
      requires Valid()
      modifies this
      ensures Valid() && users == old(users) && nextId == old(nextId) + 1
      ensures posts == old(posts) + [Post(old(nextId), userId, title, content, category, 0, 0, now, now)]
      ensures r == Created(old(nextId), title, category, now)
    {
      var p := Post(nextId, userId, title, content, category, 0, 0, now, now);
      posts := posts + [p];
      r := Created(nextId, title, category, now);
      nextId := nextId + 1;
    }

    /**
     * `updatePost(postId, userId, data)`: after the ownership check, replaces
     * title, content and category and stamps `updated_at`; every other field
     * and every other row stays as it was.
     */
    method UpdatePost(postId: PostId, userId: UserId, title: string, content: string,
                      category: string, now: Timestamp)
      returns (r: Result<Updated, ServiceError>)
      requires Valid()
      modifies this
      ensures Valid() && users == old(users) && nextId == old(nextId)
      ensures r.Err? <==> Authorize(old(posts), postId, userId).Err?
      ensures r.Err? ==> r.error == Authorize(old(posts), postId, userId).error && posts == old(posts)
      ensures r.Ok? ==>
        var i := Authorize(old(posts), postId, userId).value;
        && posts == old(posts)[i := old(posts)[i].(title := title, content := content,
                                                    category := category, updatedAt := now)]
        && r.value == Updated(postId, title, category, now)
    {
      var guard := Authorize(posts, postId, userId);
      if guard.Err? {
        return Err(guard.error);
      }
      var i := guard.value;
      posts := posts[i := posts[i].(title := title, content := content, category := category, updatedAt := now)];
      r := Ok(Updated(postId, title, category, now));
    }

    /** `deletePost(postId, userId)`: after the ownership check, removes exactly that row. */
    method DeletePost(postId: PostId, userId: UserId) returns (r: Result<(), ServiceError>)
      requires Valid()
      modifies this
      ensures Valid() && users == old(users) && nextId == old(nextId)
      ensures r.Err? <==> Authorize(old(posts), postId, userId).Err?
      ensures r.Err? ==> r.error == Authorize(old(posts), postId, userId).error && posts == old(posts)
      ensures r.Ok? ==> posts == RemoveAt(old(posts), Authorize(old(posts), postId, userId).value)
      ensures r.Ok? ==> forall q :: q in posts <==> q in old(posts) && q.id != postId
    {
      var guard := Authorize(posts, postId, userId);
      if guard.Err? {
        return Err(guard.error);
      }
      var i := guard.value;
      DeleteRemovesExactly(posts, i);
      posts := RemoveAt(posts, i);
      r := Ok(());
    }
  }
}
