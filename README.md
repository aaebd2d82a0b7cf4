# Community board and download page, modelled in Dafny

This project models the core of a game portal's community board and its
download page:

- the server's `CommunityService`, which lists posts with paging, category
  filter and three sort orders, searches them by keyword, shows one post
  while bumping its view counter, and creates, updates and deletes posts
  behind an owner check (404 for a missing post, 403 for another user's);
- the browser's `CommunityManager`, which holds the board, search text and
  page being shown, guards the listing request with a loading flag, numbers
  the listed rows and draws the pagination bar;
- the browser's `DownloadManager`, which guesses the visitor's platform from
  the user agent, keeps the FAQ accordion to one open item, and refuses a
  second download while one is in progress.

The database is a value: a sequence of `posts` rows and a map of `users`.
The queries are functions over it. `WHERE` is `Filter`, `ORDER BY` is
`SortBy`, `LIMIT`/`OFFSET` is `Window`, and the join with `users` is a
lookup in the map. The operations that write to the table are methods of
the `PostStore` class. Each method's new table is tied to a function of
the old one (`BumpViews`, `RemoveAt`, a single-row update or an append).
The two browser classes become classes whose fields are the page state.
Rendered HTML becomes abstract values: a `Token` per element of the
pagination bar, a `ListView` for the post list, an `Effect` for what a
download click makes the browser do. Responses from the server come in as
parameters (`LoadOutcome`, `StartReply`). Timestamps are integers, and the
current time is a parameter.

Files: `wrappers.dfy` (Option, Result), `text.dfy` (lower-casing, substring
test, `trim`), `posts.dfy` (rows and the query building blocks),
`community_service.dfy`, `community_page.dfy`, `download.dfy`.

Two behaviours of the code are worth knowing:

- `totalPages` is `Math.ceil(totalItems / limit)`, which is 0 for an empty
  result. `EmptyListingHasNoPages` proves the 0.
- The count queries of `getPosts` and `searchPosts` do not join with
  `users`, while the listing queries do. The count of `getPosts` equals the
  number of listed rows exactly when every admitted post's author exists
  (`CountMatchesListing`); an admitted post without an author row is counted
  but never listed (`OrphanCountedNotListed`). The count of `searchPosts`
  equals the number of found rows exactly when every matching post's author
  exists (`SearchCountMatchesRows`).

## Model

| member | source | states |
|---|---|---|
| Text.LowerString | assets/js/download.js:55 | `toLowerCase`: same length, each character lower-cased (ASCII letters moved by 32, all else kept) |
| Text.Trim | assets/js/ommunity.js:82 | `trim()`: the result is a slice of the input with only whitespace outside it, and it neither starts nor ends with whitespace |
| Posts.IndexOf | ra_backend_community_service.js:140-143 | `WHERE id = $1`: a found position holds the id and no earlier row does; nothing is found exactly when no row has the id |
| Posts.IndexOfUnique | ra_backend_community_service.js:140-143 | with unique ids, any row carrying the id is the one found |
| Posts.Filter | ra_backend_community_service.js:11-14 | `WHERE`: no more rows than the table, each satisfying the predicate |
| Posts.FilterMembers | ra_backend_community_service.js:11-14 | `WHERE` keeps exactly the table rows that satisfy the predicate |
| Posts.FilterAll | ra_backend_community_service.js:25-28 | `WHERE` keeps the whole table, and counts every row, exactly when every row satisfies the predicate |
| Posts.FilterAgreeing | ra_backend_community_service.js:25-28 | two predicates that agree on every row select the same rows |
| Posts.Insert | ra_backend_community_service.js:17-22 | inserting into sorted rows keeps them sorted and adds exactly that row |
| Posts.SortBy | ra_backend_community_service.js:17-22 | `ORDER BY`: the result is sorted in the order and is a permutation of the input |
| Posts.SortByKeeps | ra_backend_community_service.js:17-22 | a property of every input row holds for every sorted row |
| Posts.SortByMembers | ra_backend_community_service.js:17-22 | sorting neither adds nor drops a row |
| Posts.Window | ra_backend_community_service.js:41 | `LIMIT l OFFSET o`: `min(l, n - o)` rows (none past the end), row `k` being table row `o + k` |
| Posts.PageOffset | ra_backend_community_service.js:5 | the offset of a page from 1 with a limit from 0 is never negative |
| Posts.CeilDiv | ra_backend_community_service.js:70 | `Math.ceil(n / d)`: the least page count whose pages hold all `n` rows |
| Posts.CeilDivMonotone | ra_backend_community_service.js:70 | more rows never give fewer pages |
| Posts.CeilDivZeroIffEmpty | ra_backend_community_service.js:70 | the page count is 0 exactly when there are no rows |
| Posts.RowWithinPage | ra_backend_community_service.js:5 | row `k` lies at position `k % d` after the offset of page `k / d + 1` |
| Posts.RowOnExistingPage | ra_backend_community_service.js:70 | row `k` of `n` lies on page `k / d + 1`, which is within the page count |
| CommunityService.StatusCode | ra_backend_community_service.js:145-155 | a missing post is 404 and a foreign one 403; storage errors carry no status |
| CommunityService.Excerpt | ra_backend_community_service.js:51 | the first 200 characters (or all of a shorter content) followed by "..." |
| CommunityService.ShortContentExcerpt | ra_backend_community_service.js:51 | content of at most 200 characters is kept whole and "..." is still appended |
| CommunityService.IsHot | ra_backend_community_service.js:63 | a post is cold exactly when it has at most 1000 views and at most 100 likes |
| CommunityService.HotIsMonotone | ra_backend_community_service.js:63 | more views or likes never turn a hot post cold |
| CommunityService.Project | ra_backend_community_service.js:47-64 | a listed item: the post's fields, the post's `user_id` as author id (the join makes it equal to `u.id`), the author's name and avatar, comments 0, hot iff views > 1000 or likes > 100 |
| CommunityService.ProjectSearch | ra_backend_community_service.js:220-231 | a search item: the post's fields, the author's name, views and likes |
| CommunityService.OrderOf | ra_backend_community_service.js:17-22 | "popular" and "views" select their orders; any other value is newest first |
| CommunityService.Admits | ra_backend_community_service.js:11-14 | "전체" admits every post; any other category admits exactly the posts of that category |
| CommunityService.CountAdmitted | ra_backend_community_service.js:24-30 | the unjoined count: at most the table size, the whole table for "전체", and the whole table exactly when every post is admitted |
| CommunityService.ListingRows | ra_backend_community_service.js:33-40 | the joined, filtered rows in the requested order, each with an existing author and an admitted category |
| CommunityService.ListingRowsMembers | ra_backend_community_service.js:33-40 | a post is listed iff it is in the table, its author exists and its category is admitted |
| CommunityService.ListingPage | ra_backend_community_service.js:41-64 | the rows `LIMIT`/`OFFSET` select, each projected with its author |
| CommunityService.SearchPage | ra_backend_community_service.js:206-231 | as `ListingPage`, with the search item's fields |
| CommunityService.GetPosts | ra_backend_community_service.js:4-73 | a page below 1 or a negative limit is a storage error; otherwise the items are the projected rows `offset ..` of the ordered listing and the pagination is (page, ceil(count / limit), count) |
| CommunityService.DefaultListingIsFirstPage | ra_backend_community_service.js:4 | with the defaults (page 1, limit 20, "전체", "latest"), the first 20 listed rows (the posts whose author exists) newest first, with every post counted |
| CommunityService.CountMatchesListing | ra_backend_community_service.js:24-44 | `totalItems` equals the number of listed rows exactly when every admitted post's author exists |
| CommunityService.OrphanCountedNotListed | ra_backend_community_service.js:24-44 | an admitted post whose author row is missing makes `totalItems` exceed the listed rows |
| CommunityService.EveryRowOnItsPage | ra_backend_community_service.js:4-73 | when the listed rows have no ties in the sort keys, every listed row appears, projected, as item `k % limit` of page `k / limit + 1`, and that page is within `totalPages` |
| CommunityService.PageHoldsRow | ra_backend_community_service.js:41 | a page whose offset is that of page `k / limit + 1` holds row `k`, projected, as its item `k % limit` |
| CommunityService.EmptyListingHasNoPages | ra_backend_community_service.js:66-73 | with nothing to count, every page is empty and `totalPages` is 0 |
| CommunityService.Matches | ra_backend_community_service.js:204-214 | `title ILIKE '%k%' OR content ILIKE '%k%'`: the lower-cased keyword occurs in the lower-cased title or content |
| CommunityService.KeywordCaseIgnored | ra_backend_community_service.js:204 | `ILIKE`: a keyword matches the same posts as its lower-cased form |
| CommunityService.EmptyKeywordMatchesAll | ra_backend_community_service.js:209 | the empty keyword matches every post |
| CommunityService.SearchRows | ra_backend_community_service.js:198-205 | the joined rows whose title or content contains the keyword case-insensitively, newest first |
| CommunityService.SearchRowsMembers | ra_backend_community_service.js:198-205 | a post is found iff it is in the table, its author exists and it matches |
| CommunityService.SearchCountMatchesRows | ra_backend_community_service.js:198-217 | the unjoined search count equals the number of found rows exactly when every matching post's author exists |
| CommunityService.SearchPosts | ra_backend_community_service.js:193-238 | a page below 1 is a storage error; otherwise at most 20 items, newest first, taken from the matching rows at the page's offset, with the unjoined match count and its page count |
| CommunityService.Authorize | ra_backend_community_service.js:140-155 | 404 iff no row has the id; with unique ids, 403 iff the row's owner is not the caller; otherwise the position of the caller's row |
| CommunityService.BumpViews | ra_backend_community_service.js:78 | the row with the id gains one view; every other row is unchanged |
| CommunityService.BumpViewsAddsOne | ra_backend_community_service.js:78 | with unique ids, one detail view adds exactly one view to the table, or none when the id is absent |
| CommunityService.RemoveAt | ra_backend_community_service.js:190 | the rows before and after the removed one, in order |
| CommunityService.DeleteRemovesExactly | ra_backend_community_service.js:170-191 | deleting keeps ids unique and removes exactly the post with that id |
| CommunityService.RemovedRow | ra_backend_community_service.js:190 | a row survives the delete iff it was in the table under another id |
| CommunityService.PostStore.GetPostById | ra_backend_community_service.js:76-118 | the table is the old one with the view bumped; 404 iff no row with the id has an existing author; otherwise the detail of that row with views + 1 and comments 0 |
| CommunityService.PostStore.CreatePost | ra_backend_community_service.js:120-136 | exactly one row is appended, owned by the caller, with the next id and zero views and likes; the reply echoes id, title, category and time |
| CommunityService.PostStore.UpdatePost | ra_backend_community_service.js:138-168 | 404 or 403 with the table unchanged; otherwise only the caller's row changes, in title, content, category and update time |
| CommunityService.PostStore.DeletePost | ra_backend_community_service.js:170-191 | 404 or 403 with the table unchanged; otherwise exactly the post with that id is gone |
| CommunityPage.StartPage | assets/js/ommunity.js:235 | `Math.max(1, currentPage - 2)`: at least both, and equal to one of them |
| CommunityPage.EndPage | assets/js/ommunity.js:236 | `Math.min(totalPages, currentPage + 2)`: at most both, and equal to one of them |
| CommunityPage.ButtonsAt | assets/js/ommunity.js:245-250 | the numbered buttons `lo .. hi`, the one for the current page active |
| CommunityPage.RenderPagination | assets/js/ommunity.js:217-266 | nothing for a missing descriptor or at most one page; otherwise previous arrow, first page and gap, window, gap and last page, next arrow |
| CommunityPage.AppendLeading | assets/js/ommunity.js:238-243 | the first-page button when the window starts after page 1, and a gap when it starts after page 2 |
| CommunityPage.AppendButtons | assets/js/ommunity.js:245-250 | the loop appends exactly the buttons of the window |
| CommunityPage.AppendTrailing | assets/js/ommunity.js:252-257 | a gap when the window ends before the last page but one, and the last-page button when it ends before the last page |
| CommunityPage.PrevAndNext | assets/js/ommunity.js:228-263 | the bar opens with the previous arrow (disabled on page 1) and closes with the next arrow (disabled on the last page), with only buttons and gaps between |
| CommunityPage.StripParts | assets/js/ommunity.js:234-257 | the strip is the leading part, the window of buttons and the trailing part, position by position |
| CommunityPage.StripEnds | assets/js/ommunity.js:234-257 | the strip starts with page 1 and ends with the last page |
| CommunityPage.StripConsecutive | assets/js/ommunity.js:245-250 | two neighbouring buttons are consecutive pages |
| CommunityPage.StripGaps | assets/js/ommunity.js:238-257 | a gap lies between two buttons and stands exactly where pages are skipped |
| CommunityPage.StripButtons | assets/js/ommunity.js:234-257 | only the current page's button is active, and only the first, the last and pages within two of the current one are shown |
| CommunityPage.StripCoversWindow | assets/js/ommunity.js:235-250 | every page within two of the current one has a button |
| CommunityPage.PostNumber | assets/js/ommunity.js:158 | on a page from 1, the row at index `i` is numbered at least `i + 1` |
| CommunityPage.PostNumbersContinue | assets/js/ommunity.js:158 | the last row of a page is followed by the first row of the next page |
| CommunityPage.PostNumberInjective | assets/js/ommunity.js:158 | no two rows of any pages share a number |
| CommunityPage.RowNumbers | assets/js/ommunity.js:157-158 | one number per shown row, in order |
| CommunityPage.BoardName | assets/js/ommunity.js:317-327 | a known board's label; the default label exactly for every other board |
| CommunityPage.RequestFor | assets/js/ommunity.js:114-119 | page, limit 15 and search as held; the "all" board is sent as the empty board |
| CommunityPage.CommunityManager.constructor | assets/js/ommunity.js:2-8 | page 1, board "all", no search, not loading |
| CommunityPage.CommunityManager.LoadPosts | assets/js/ommunity.js:107-121 | while loading, no request and no change; otherwise the flag is raised, the spinner shown and the request built from the state |
| CommunityPage.CommunityManager.FinishLoad | assets/js/ommunity.js:123-134 | rows numbered for the page, the empty state (search or not) or an error; the bar redrawn from the response; the flag always cleared |
| CommunityPage.CommunityManager.HandleBoardChange | assets/js/ommunity.js:68-78 | the board is set and the page reset to 1; a load is then attempted: the request and the spinner when idle, nothing (list kept) while loading; the flag is up and the pagination bar is untouched |
| CommunityPage.CommunityManager.HandleSearch | assets/js/ommunity.js:80-85 | the trimmed search text is kept and the page reset to 1; a load is then attempted: the request and the spinner when idle, nothing (list kept) while loading; the flag is up and the pagination bar is untouched |
| CommunityPage.CommunityManager.HandlePageChange | assets/js/ommunity.js:87-91 | the page is set; a load is then attempted: the request and the spinner when idle, nothing (list kept) while loading; the flag is up and the pagination bar is untouched |
| Download.DetectPlatform | assets/js/download.js:54-64 | Mac iff the lower-cased agent contains "mac"; Android iff not that but "android"; iOS iff neither but "iphone" or "ipad" |
| Download.DefaultIsWindows | assets/js/download.js:56-64 | an agent with none of the markers is recommended Windows |
| Download.IPhoneDetectedAsMac | assets/js/download.js:58-64 | an iPhone Safari agent contains "iphone" and is still classified Mac |
| Download.DetectPlatformIntended | assets/js/download.js:58-64 | iOS iff the agent names an iPhone or iPad; otherwise the same decision as the code |
| Download.IntendedRecognisesIPhone | assets/js/download.js:58-64 | the iPhone Safari agent is classified iOS |
| Download.RecommendedPlatform | assets/js/download.js:54-89 | the key stored on the main button's `data-platform` always has a download link and a file name; it is "mac", "android", "ios" or "windows" by the markers in the order the code tests them |
| Download.IPhoneButtonOffersMac | assets/js/download.js:58-89 | the main button of the iPhone Safari agent offers the Mac download |
| Download.Toggled | assets/js/download.js:274-286 | the clicked item flips and every other item is closed |
| Download.AccordionAtMostOneOpen | assets/js/download.js:274-286 | after a toggle at most one item is open: the clicked one, exactly when it was closed |
| Download.ToggleFAQ | assets/js/download.js:274-286 | the open flags become those of the toggle specification |
| Download.Lookup | assets/js/download.js:177-189 | a platform's link or file name when the table has it, none otherwise |
| Download.DownloadManager.constructor | assets/js/download.js:2-6 | no progress and not downloading |
| Download.DownloadManager.StartDownload | assets/js/download.js:159-173 | the flag is raised, the modal opened and the file fetched |
| Download.DownloadManager.StartDirectDownload | assets/js/download.js:175-200 | Android and iOS open their store link and leave the flag as it was; other platforms download the table's file and raise the flag |
| Download.DownloadManager.HandlePlatformDownload | assets/js/download.js:130-157 | while downloading: an alert and nothing else; a granted start downloads the given file; a refused one alerts; an unreachable server falls back to the direct download |
| Download.DownloadManager.HandleMainDownload | assets/js/download.js:125-128 | as `HandlePlatformDownload` for the button's platform, Windows when it has none: busy alert, granted file, refused alert, or the direct download of that platform |
| Download.DownloadManager.CloseDownloadModal | assets/js/download.js:222-230 | the modal is closed, the flag cleared and the progress reset |

## Left out

- SQL text, the database driver and `parseInt` of the count are not modelled: each query is a function over the two tables.
- `ILIKE` wildcards inside the keyword (`%` and `_`) and its default escape character (the backslash) are not modelled: the keyword is matched as plain text.
- Case folding covers ASCII letters only: Unicode case mapping in `toLowerCase` and `ILIKE` is not modelled.
- Strings are sequences of code points, so `substring(0, 200)` counting UTF-16 units is not modelled.
- Concurrency is not modelled. This covers two clients bumping the same view counter, the gap between the owner check and the write in update and delete, and a second click while the download-start request is awaited, before `isDownloading` is set.
- `NOW()` and the creation timestamp are a `now` parameter. `isNewPost` depends on the clock and is left out.
- The schema is not part of this model. `CreatePost` assumes the defaults: views and likes 0, creation and update time equal to `now`, and the next serial id.
- User ids are compared as values. JavaScript type coercion between a string id and a numeric `user_id` is not modelled.
- Posts.SortBy: tied rows are put in table order in every query, while the datastore may order them differently in each query (none of `created_at`, `likes, views` or `views` is unique, and every new post ties at 0 likes and 0 views), so paging over ties can skip or repeat a row; `EveryRowOnItsPage` therefore assumes the listed rows have no ties.
- CommunityService.GetPosts: requires a limit other than 0, because `Math.ceil(n / 0)` is not an integer.
- The DOM, `escapeHtml`, `showLoading` markup, `formatTimeAgo` and `formatNumber` become abstract views and tokens.
- `window.scrollTo` and `alert` texts are not modelled. An alert is an `Effect` without its message.
- `APIClient` is not modelled: the server's reply is a parameter. `trackDownload`, `loadDownloadStats`, `updateDownloadStats`, `loadPopularPosts` and `renderPopularPosts` are not modelled for the same reason.
- Timers are not modelled: the progress simulation, the close after 3 s on a store redirect and the close after completion.
- `showDownloadModal` titles and messages are not modelled: the modal is one flag.
- `detectUserPlatform`'s badge and button text are not modelled. The key it stores in `data-platform` is (`RecommendedPlatform`); `HandleMainDownload` takes the button's platform as a parameter, so a button the page has not yet marked can also be modelled.
- Download.DownloadManager.StartDownload: assumes the modal elements exist, so opening the modal always succeeds.
- CommunityPage.BoardName: JavaScript prototype keys such as "constructor" in the label table are not modelled; only the six listed boards have labels.
- `init`, `setupEventListeners`, `handleWritePost` and `openPost` are not modelled: they only wire events, navigate or log. A page number from a button is given to `HandlePageChange` already parsed.
- `server.js` and the news routes are not part of this model.

## Findings

| source | as written | input that shows it | evidently intended | confidence | as-written member | corrected member |
|---|---|---|---|---|---|---|
| assets/js/download.js:58-64 | "mac" is tested before "iphone" and "ipad" | the iPhone Safari agent `Mozilla/5.0 (iPhone; CPU iPhone OS 17_5 like Mac OS X)`, whose "like Mac OS X" contains "mac" | an iPhone or iPad is recommended the iOS download | high, not executed | Download.IPhoneDetectedAsMac | Download.IntendedRecognisesIPhone |
