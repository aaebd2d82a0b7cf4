/**
 * The community board page in the browser (`CommunityManager`): which board,
 * search and page are shown, the loading guard around the listing request,
 * the numbering of listed posts, the board labels, and the pagination strip.
 * Rendered HTML is modelled as abstract tokens and views.
 */
module CommunityPage {

  import opened Wrappers
  import opened Text

  /** The page size the browser asks for and numbers rows by. */
  const PageSize: nat := 15
  /** The label of a board that has no name of its own. */
  const DefaultBoardLabel: string := "일반"

  // ---------------------------------------------------------------- pagination strip

  /** One element of the pagination bar. */
  datatype Token =
    | Prev(target: int, disabled: bool)
    | PageButton(page: int, active: bool)
    | Ellipsis
    | Next(target: int, disabled: bool)

  /** The `pagination` object of a listing response, as far as the bar reads it. */
  datatype PaginationView = PaginationView(currentPage: int, totalPages: int)

  /** `Math.max(1, currentPage - 2)`: the first numbered button. */
  function StartPage(current: int): (s: int)
    ensures s >= 1 && s >= current - 2
    ensures s == 1 || s == current - 2
  {
    if current - 2 > 1 then current - 2 else 1
  }

  /** `Math.min(totalPages, currentPage + 2)`: the last numbered button. */
  function EndPage(current: int, total: int): (e: int)
    ensures e <= total && e <= current + 2
    ensures e == total || e == current + 2
  {
    if current + 2 < total then current + 2 else total
  }

  /** The numbered buttons `lo .. hi`, the one equal to `current` marked active. */
  function Buttons(lo: int, hi: int, current: int): (r: seq<Token>)
    decreases hi - lo
  {
    if hi < lo then [] else Buttons(lo, hi - 1, current) + [PageButton(hi, hi == current)]
  }

  lemma {:induction false} ButtonsAt(lo: int, hi: int, current: int)
    ensures |Buttons(lo, hi, current)| == if hi < lo then 0 else hi - lo + 1
    ensures forall k :: 0 <= k < |Buttons(lo, hi, current)| ==>
      Buttons(lo, hi, current)[k] == PageButton(lo + k, lo + k == current)
    decreases hi - lo
  {
    if lo <= hi {
      ButtonsAt(lo, hi - 1, current);
    }
  }

  /** The first-page button and the gap after it. */
  function Leading(start: int): (r: seq<Token>)
  {
    if start > 1 then [PageButton(1, false)] + (if start > 2 then [Ellipsis] else []) else []
  }

  /** The gap before the last-page button and that button. */
  function Trailing(end: int, total: int): (r: seq<Token>)
  {
    if end < total then (if end < total - 1 then [Ellipsis] else []) + [PageButton(total, false)] else []
  }

  /** Everything between the previous and the next buttons. */
  function Strip(current: int, total: int): (r: seq<Token>)
  {
    var start := StartPage(current);
    var end := EndPage(current, total);
    Leading(start) + Buttons(start, end, current) + Trailing(end, total)
  }

  /** The bar `renderPagination` draws for a listing with more than one page. */
  function PaginationTokens(current: int, total: int): (r: seq<Token>)
  {
    [Prev(current - 1, current == 1)] + Strip(current, total) + [Next(current + 1, current == total)]
  }

  /**
   * `renderPagination(pagination)`: nothing for a missing descriptor or a
   * single page; otherwise the bar, the numbered buttons appended one by one.
   */
  method RenderPagination(pagination: Option<PaginationView>) returns (tokens: seq<Token>)
    ensures pagination.None? || pagination.value.totalPages <= 1 ==> tokens == []
    ensures pagination.Some? && pagination.value.totalPages > 1 ==>
      tokens == PaginationTokens(pagination.value.currentPage, pagination.value.totalPages)
  {
    if pagination.None? || pagination.value.totalPages <= 1 {
      return [];
    }
    var current := pagination.value.currentPage;
    var total := pagination.value.totalPages;
    var start := StartPage(current);
    var end := EndPage(current, total);
    var bar := AppendLeading([Prev(current - 1, current == 1)], start);
    bar := AppendButtons(bar, start, end, current);
    bar := AppendTrailing(bar, end, total);
    assert bar == [Prev(current - 1, current == 1)] + Strip(current, total);
    tokens := bar + [Next(current + 1, current == total)];
  }

  /** The first-page button and, when pages are skipped after it, an ellipsis. */
  method AppendLeading(bar: seq<Token>, start: int) returns (tokens: seq<Token>)
    ensures tokens == bar + Leading(start)
  {
    tokens := bar;
    if start > 1 {
      tokens := tokens + [PageButton(1, false)];
      if start > 2 {
        tokens := tokens + [Ellipsis];
      }
    }
  }

  /** An ellipsis when pages are skipped before the last page, and the last-page button. */
  method AppendTrailing(bar: seq<Token>, end: int, total: int) returns (tokens: seq<Token>)
    ensures tokens == bar + Trailing(end, total)
  {
    tokens := bar;
    if end < total {
      if end < total - 1 {
        tokens := tokens + [Ellipsis];
      }
      tokens := tokens + [PageButton(total, false)];
    }
  }

  /** The `for` loop of `renderPagination`: appends the buttons `start .. end` to the bar. */
  method AppendButtons(bar: seq<Token>, start: int, end: int, current: int) returns (tokens: seq<Token>)
    ensures tokens == bar + Buttons(start, end, current)
  {
    tokens := bar;
    var i := start;
    while i <= end
      invariant start <= i && (i <= end + 1 || i == start)
      invariant tokens == bar + Buttons(start, i - 1, current)
    {
      assert Buttons(start, i, current) == Buttons(start, i - 1, current) + [PageButton(i, i == current)];
      tokens := tokens + [PageButton(i, i == current)];
      i := i + 1;
    }
    if i == start {
      assert Buttons(start, end, current) == [] == Buttons(start, i - 1, current);
    }
  }

  /** A bar with more than one page: the previous button first, the next button last. */
  lemma PrevAndNext(current: int, total: int)
    ensures var t := PaginationTokens(current, total);
      && t[0] == Prev(current - 1, current == 1)
      && t[|t| - 1] == Next(current + 1, current == total)
      && forall k :: 0 < k < |t| - 1 ==> t[k].PageButton? || t[k].Ellipsis?
  {
    var start := StartPage(current);
    var end := EndPage(current, total);
    ButtonsAt(start, end, current);
    var t := PaginationTokens(current, total);
    var m := Strip(current, total);
    assert t == [Prev(current - 1, current == 1)] + m + [Next(current + 1, current == total)];
    forall k | 0 < k < |t| - 1 ensures t[k].PageButton? || t[k].Ellipsis? {
      assert t[k] == m[k - 1];
    }
  }

  /** Some button of the strip leads to page `p`. */
  predicate Shows(m: seq<Token>, p: int)
  {
    exists k :: 0 <= k < |m| && m[k].PageButton? && m[k].page == p
  }

  /** The strip is the leading part, the window of buttons and the trailing part, token by token. */
  lemma StripParts(current: int, total: int)
    requires 1 <= current <= total
    ensures var start := StartPage(current);
      var end := EndPage(current, total);
      var l := Leading(start);
      var m := Strip(current, total);
      && start <= current <= end
      && |l| == (if start > 2 then 2 else if start > 1 then 1 else 0)
      && |m| == |l| + (end - start + 1) + |Trailing(end, total)|
      && (forall k :: 0 <= k < |l| ==> m[k] == l[k])
      && (forall k :: |l| <= k < |l| + (end - start + 1) ==>
            m[k] == PageButton(start + k - |l|, start + k - |l| == current))
      && (forall k :: |l| + (end - start + 1) <= k < |m| ==> m[k] == Trailing(end, total)[k - |l| - (end - start + 1)])
  {
    var start := StartPage(current);
    var end := EndPage(current, total);
    ButtonsAt(start, end, current);
    var l := Leading(start);
    var b := Buttons(start, end, current);
    var m := Strip(current, total);
    assert m == l + b + Trailing(end, total);
    forall k | |l| <= k < |l| + |b|
      ensures m[k] == PageButton(start + k - |l|, start + k - |l| == current)
    {
      assert m[k] == b[k - |l|];
    }
  }

  /** The strip starts at page 1 and ends at page `total`, and holds only buttons and gaps. */
  lemma StripEnds(current: int, total: int)
    requires 2 <= total && 1 <= current <= total
    ensures var m := Strip(current, total);
      && |m| >= 2
      && m[0] == PageButton(1, current == 1)
      && m[|m| - 1] == PageButton(total, current == total)
      && (forall k :: 0 <= k < |m| ==> m[k].PageButton? || m[k].Ellipsis?)
  {
    StripParts(current, total);
  }

  /** Two neighbouring buttons are consecutive pages. */
  lemma StripConsecutive(current: int, total: int)
    requires 1 <= current <= total
    ensures var m := Strip(current, total);
      forall k :: 0 <= k < |m| - 1 && m[k].PageButton? && m[k + 1].PageButton? ==>
        m[k + 1].page == m[k].page + 1
  {
    StripParts(current, total);
  }

  /** An ellipsis stands between two buttons and exactly where pages are skipped. */
  lemma StripGaps(current: int, total: int)
    requires 1 <= current <= total
    ensures var m := Strip(current, total);
      forall k :: 0 <= k < |m| && m[k].Ellipsis? ==>
        0 < k < |m| - 1 && m[k - 1].PageButton? && m[k + 1].PageButton? &&
        m[k + 1].page >= m[k - 1].page + 2
  {
    StripParts(current, total);
  }

  /** Only the current page is active; the pages shown are the first, the last and the window. */
  lemma StripButtons(current: int, total: int)
    requires 1 <= current <= total
    ensures var m := Strip(current, total);
      forall k :: 0 <= k < |m| && m[k].PageButton? ==>
        (m[k].active <==> m[k].page == current) &&
        (m[k].page == 1 || m[k].page == total ||
         StartPage(current) <= m[k].page <= EndPage(current, total))
  {
    StripParts(current, total);
  }

  /** Every page within two of the current one has its button. */
  lemma StripCoversWindow(current: int, total: int)
    requires 1 <= current <= total
    ensures forall p :: StartPage(current) <= p <= EndPage(current, total) ==> Shows(Strip(current, total), p)
  {
    StripParts(current, total);
    var start := StartPage(current);
    var m := Strip(current, total);
    var l := Leading(start);
    forall p | start <= p <= EndPage(current, total) ensures Shows(m, p) {
      assert m[|l| + p - start].page == p;
    }
  }

  // ---------------------------------------------------------------- post list

  /** The number shown beside the `index`-th post of page `page`. */
  function PostNumber(page: int, index: nat): (n: int)
    ensures page >= 1 ==> n >= index + 1
  {
    (page - 1) * PageSize + index + 1
  }

  /** Numbering continues across pages: the last row of a page is followed by the first of the next. */
  lemma PostNumbersContinue(page: int)
    ensures PostNumber(page, PageSize - 1) + 1 == PostNumber(page + 1, 0)
  {
  }

  /** Every row of every page gets its own number. */
  lemma {:induction false} PostNumberInjective(p: int, i: nat, q: int, j: nat)
    requires i < PageSize && j < PageSize
    requires PostNumber(p, i) == PostNumber(q, j)
    ensures p == q && i == j
  {
    assert (p - q) * PageSize == j - i;
  }

  /** The numbers of the `count` rows shown on page `page`. */
  function RowNumbers(page: int, count: nat): (r: seq<int>)
    ensures |r| == count
    ensures forall i :: 0 <= i < count ==> r[i] == PostNumber(page, i)
  {
    seq(count, i requires 0 <= i < count => PostNumber(page, i))
  }

  /** The board tags and their labels. */
  const BoardLabels: map<string, string> := map[
    "free" := "자유",
    "qna" := "Q&A",
    "strategy" := "공략",
    "guild" := "길드",
    "trade" := "거래",
    "screenshot" := "스크린샷"]

  /** `getBoardName(board)`: a known board's label, the generic label for any other. */
  function BoardName(board: string): (name: string)
    ensures board in BoardLabels ==> name == BoardLabels[board]
    ensures name == DefaultBoardLabel <==> board !in BoardLabels
  {
    if board in BoardLabels then BoardLabels[board] else DefaultBoardLabel
  }

  // ---------------------------------------------------------------- page state

  /** The query string of a listing request. */
  datatype Request = Request(page: int, limit: nat, board: string, search: string)

  /** The parameters `loadPosts` sends: the "all" board is sent as the empty string. */
  function RequestFor(page: int, board: string, search: string): (r: Request)
    ensures r.page == page && r.limit == PageSize && r.search == search
    ensures board == "all" ==> r.board == ""
    ensures board != "all" ==> r.board == board
  {
    Request(page, PageSize, if board == "all" then "" else board, search)
  }

  /** What the listing request brought back. */
  datatype LoadOutcome =
    | Loaded(rowCount: nat, pagination: Option<PaginationView>)  // `success`; rows missing count as 0
    | Refused                                               // a response without `success`
    | NetworkFailure                                        // the request threw

  /** What the post list area shows. */
  datatype ListView =
    | Initial
    | Loading
    | Rows(numbers: seq<int>)
    | EmptyState(searching: bool)
    | ErrorState(network: bool)

  class CommunityManager {
    var currentPage: int
    var currentBoard: string
    var currentSearch: string
    var isLoading: bool
    var postList: ListView
    var paginationBar: seq<Token>

    constructor ()
      ensures currentPage == 1 && currentBoard == "all" && currentSearch == "" && !isLoading
      ensures postList == Initial && paginationBar == []
    {
      currentPage := 1;
      currentBoard := "all";
      currentSearch := "";
      isLoading := false;
      postList := Initial;
      paginationBar := [];
    }

    /**
     * The start of `loadPosts`: nothing at all while a load is in flight;
     * otherwise raise the flag, show the spinner and issue the request built
     * from the current state.
     */
    method LoadPosts() returns (request: Option<Request>)
      modifies this
      ensures currentPage == old(currentPage) && currentBoard == old(currentBoard)
      ensures currentSearch == old(currentSearch) && paginationBar == old(paginationBar)
      ensures old(isLoading) ==> request == None && postList == old(postList)
      ensures !old(isLoading) ==>
        request == Some(RequestFor(currentPage, currentBoard, currentSearch)) && postList == Loading
      ensures isLoading
    {
      if isLoading {
        return None;
      }
      isLoading := true;
      postList := Loading;
      request := Some(RequestFor(currentPage, currentBoard, currentSearch));
    }

    /**
     * The end of `loadPosts` once its request settles: show rows, the empty
     * state or an error, redraw the bar from the response, and always clear
     * the loading flag.
     */
    method FinishLoad(outcome: LoadOutcome)
      requires isLoading
      modifies this
      ensures !isLoading
      ensures currentPage == old(currentPage) && currentBoard == old(currentBoard)
      ensures currentSearch == old(currentSearch)
      ensures outcome.Loaded? && outcome.rowCount > 0 ==>
        postList == Rows(RowNumbers(currentPage, outcome.rowCount))
      ensures outcome.Loaded? && outcome.rowCount == 0 ==> postList == EmptyState(currentSearch != "")
      ensures outcome.Loaded? && (outcome.pagination.None? || outcome.pagination.value.totalPages <= 1) ==>
        paginationBar == []
      ensures outcome.Loaded? && outcome.pagination.Some? && outcome.pagination.value.totalPages > 1 ==>
        paginationBar == PaginationTokens(outcome.pagination.value.currentPage,
                                          outcome.pagination.value.totalPages)
      ensures !outcome.Loaded? ==>
        postList == ErrorState(outcome.NetworkFailure?) && paginationBar == old(paginationBar)
    {
      match outcome {
        case Loaded(rowCount, pagination) =>
          if rowCount == 0 {
            postList := EmptyState(currentSearch != "");
          } else {
            postList := Rows(RowNumbers(currentPage, rowCount));
          }
          paginationBar := RenderPagination(pagination);
        case Refused =>
          postList := ErrorState(false);
        case NetworkFailure =>
          postList := ErrorState(true);
      }
      isLoading := false;
    }

    /** `handleBoardChange(board)`: switch board, back to page 1, reload. */
    method HandleBoardChange(board: string) returns (request: Option<Request>)
      modifies this
      ensures currentBoard == board && currentPage == 1 && currentSearch == old(currentSearch)
      ensures isLoading
      ensures postList == if old(isLoading) then old(postList) else Loading
      ensures paginationBar == old(paginationBar)
      ensures request == if old(isLoading) then None else Some(RequestFor(1, board, currentSearch))
    {
      currentBoard := board;
      currentPage := 1;
      request := LoadPosts();
    }

    /** `handleSearch()`: take the trimmed search box, back to page 1, reload. */
    method HandleSearch(searchBox: string) returns (request: Option<Request>)
      modifies this
      ensures currentSearch == Trim(searchBox) && currentPage == 1 && currentBoard == old(currentBoard)
      ensures isLoading
      ensures postList == if old(isLoading) then old(postList) else Loading
      ensures paginationBar == old(paginationBar)
      ensures request == if old(isLoading) then None else Some(RequestFor(1, currentBoard, Trim(searchBox)))
    {
      currentSearch := Trim(searchBox);
      currentPage := 1;
      request := LoadPosts();
    }

    /** `handlePageChange(page)`: go to the given page and reload. */
    method HandlePageChange(page: int) returns (request: Option<Request>)
      modifies this
      ensures currentPage == page && currentBoard == old(currentBoard) && currentSearch == old(currentSearch)
      ensures isLoading
      ensures postList == if old(isLoading) then old(postList) else Loading
      ensures paginationBar == old(paginationBar)
      ensures request == if old(isLoading) then None else Some(RequestFor(page, currentBoard, currentSearch))
    {
      currentPage := page;
      request := LoadPosts();
    }
  }
}
