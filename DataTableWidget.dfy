/** The searchable, paginated table of posts and its spreadsheet export:
    a four-field case-insensitive filter, pages of five, a sliding window of
    at most five page numbers, a page cursor that search resets and that
    next/previous keep in range, and the rows handed to the spreadsheet
    writer for the whole filtered list or for the current page. */
module DataTableWidget {
  import opened JsNumber
  import opened JsString
  import opened JsArray
  import opened Posts

  datatype Option<T> = None | Some(value: T)

  /** `itemsPerPage`. */
  const ItemsPerPage: nat := 5
  /** Only the first 100 fetched posts are kept for the table. */
  const MaxTablePosts: nat := 100
  /** `totalVisiblePages`. */
  const VisiblePageCount: nat := 5

  // Search

  /** The search test: the lower-cased query occurs in the lower-cased
      title, the lower-cased body, or the decimal text of `userId` or `id`. */
  function Matches(post: Post, searchQuery: string): (b: bool)
    ensures b <==> ContainsQuery(post, searchQuery)
  {
    var query := ToLowerCase(searchQuery);
    IncludesIsSubstring(ToLowerCase(post.title), query);
    IncludesIsSubstring(ToLowerCase(post.body), query);
    IncludesIsSubstring(NatToString(post.userId), query);
    IncludesIsSubstring(NatToString(post.id), query);
    || Includes(ToLowerCase(post.title), query)
    || Includes(ToLowerCase(post.body), query)
    || Includes(NatToString(post.userId), query)
    || Includes(NatToString(post.id), query)
  }

  /** `filteredPosts`: exactly the posts that match, and no others. */
  function FilterPosts(posts: seq<Post>, searchQuery: string): (filtered: seq<Post>)
    ensures |filtered| <= |posts|
    ensures forall p :: p in filtered <==> p in posts && Matches(p, searchQuery)
  {
    Filter(posts, (p: Post) => Matches(p, searchQuery))
  }

  /** The search criterion stated with substring occurrence instead of the scan. */
  ghost predicate ContainsQuery(post: Post, searchQuery: string) {
    var query := ToLowerCase(searchQuery);
    || IsSubstring(query, ToLowerCase(post.title))
    || IsSubstring(query, ToLowerCase(post.body))
    || IsSubstring(query, NatToString(post.userId))
    || IsSubstring(query, NatToString(post.id))
  }

  /** The filter keeps the posts in their original order, keeps every copy of
      a post that contains the query in one of its four fields, and drops
      every copy of a post that does not. */
  lemma FilterPostsSpec(posts: seq<Post>, searchQuery: string, post: Post)
    ensures IsSubsequence(FilterPosts(posts, searchQuery), posts)
    ensures multiset(FilterPosts(posts, searchQuery))[post] ==
            if ContainsQuery(post, searchQuery) then multiset(posts)[post] else 0
  {
    FilterIsSubsequence(posts, (p: Post) => Matches(p, searchQuery));
    FilterMultiplicity(posts, (p: Post) => Matches(p, searchQuery), post);
  }

  /** Lower-casing leaves a query of digits as typed, so searching for the
      digits of a post's id finds that post. */
  lemma DigitSearchFindsId(posts: seq<Post>, searchQuery: string, j: nat)
    requires j < |posts| && AllDigits(searchQuery)
    requires IsSubstring(searchQuery, NatToString(posts[j].id))
    ensures posts[j] in FilterPosts(posts, searchQuery)
  {
    ToLowerCaseOfDigits(searchQuery);
  }

  /** An empty search shows every post, in order. */
  lemma EmptySearchKeepsAll(posts: seq<Post>)
    ensures FilterPosts(posts, "") == posts
  {
    forall i | 0 <= i < |posts| ensures Matches(posts[i], "") {
      assert ToLowerCase("") == "";
    }
    FilterKeepsAll(posts, (p: Post) => Matches(p, ""));
  }

  /** The search ignores the case of the query. */
  lemma SearchIgnoresCase(posts: seq<Post>, searchQuery: string)
    ensures FilterPosts(posts, searchQuery) == FilterPosts(posts, ToLowerCase(searchQuery))
  {
    ToLowerCaseIdempotent(searchQuery);
    FilterCongruent(posts, (p: Post) => Matches(p, searchQuery), (p: Post) => Matches(p, ToLowerCase(searchQuery)));
  }

  /** Posts whose titles and bodies differ only in letter case, searched
      with queries that differ only in letter case, match alike. */
  lemma MatchesIgnoresCase(post: Post, post': Post, searchQuery: string, searchQuery': string)
    requires post.userId == post'.userId && post.id == post'.id
    requires SameUpToCase(post.title, post'.title) && SameUpToCase(post.body, post'.body)
    requires SameUpToCase(searchQuery, searchQuery')
    ensures Matches(post, searchQuery) == Matches(post', searchQuery')
  {
    ToLowerCaseOfSameUpToCase(post.title, post'.title);
    ToLowerCaseOfSameUpToCase(post.body, post'.body);
    ToLowerCaseOfSameUpToCase(searchQuery, searchQuery');
  }

  // Pages

  /** `Math.ceil(filteredPosts.length / itemsPerPage)`. */
  function TotalPagesFor(filteredCount: nat): (totalPages: nat)
    ensures totalPages == 0 <==> filteredCount == 0
    ensures (totalPages - 1) * ItemsPerPage < filteredCount <= totalPages * ItemsPerPage
  {
    CeilDiv(filteredCount, ItemsPerPage)
  }

  /** `currentItems`: `filteredPosts.slice((currentPage - 1) * 5, currentPage * 5)`.
      At most five posts; from page 1 on, the run that starts at position
      (currentPage - 1)·5; page 0 is empty (a negative page counts from the
      end, as `slice` does). */
  function PageSlice(filtered: seq<Post>, currentPage: int): (items: seq<Post>)
    ensures |items| <= ItemsPerPage
    ensures currentPage >= 1 ==> forall k :: 0 <= k < |items| ==>
      (currentPage - 1) * ItemsPerPage + k < |filtered| && items[k] == filtered[(currentPage - 1) * ItemsPerPage + k]
    ensures currentPage == 0 ==> items == []
  {
    Slice(filtered, (currentPage - 1) * ItemsPerPage, currentPage * ItemsPerPage)
  }

  /** Every page before the last is full; the last holds the remainder; page
      p shows the posts at positions (p-1)·5 onwards. */
  lemma PageSizes(filtered: seq<Post>, currentPage: int)
    requires 1 <= currentPage <= TotalPagesFor(|filtered|)
    ensures var totalPages := TotalPagesFor(|filtered|);
            var items := PageSlice(filtered, currentPage);
            && |items| == (if currentPage < totalPages then ItemsPerPage
                           else |filtered| - (totalPages - 1) * ItemsPerPage)
            && forall k :: 0 <= k < |items| ==> items[k] == filtered[(currentPage - 1) * ItemsPerPage + k]
  {
  }

  /** A page past the last shows nothing. */
  lemma PageBeyondLastIsEmpty(filtered: seq<Post>, currentPage: int)
    requires currentPage > TotalPagesFor(|filtered|)
    ensures PageSlice(filtered, currentPage) == []
  {
  }

  /** The pages cover the filtered list: the post at position j is entry
      j mod 5 of page j / 5 + 1, which is a page that exists. */
  lemma EveryPostOnItsPage(filtered: seq<Post>, j: nat)
    requires j < |filtered|
    ensures var page := j / ItemsPerPage + 1;
            && 1 <= page <= TotalPagesFor(|filtered|)
            && j % ItemsPerPage < |PageSlice(filtered, page)|
            && PageSlice(filtered, page)[j % ItemsPerPage] == filtered[j]
  {
  }

  /** Twelve matching posts make three pages, the last one holding two. */
  lemma TwelvePostsMakeThreePages(filtered: seq<Post>)
    requires |filtered| == 12
    ensures TotalPagesFor(12) == 3
    ensures |PageSlice(filtered, 3)| == 2
  {
    CeilDivUnique(12, ItemsPerPage, 3);
  }

  // Page numbers

  /** `pageNumbers`: 1, 2, …, totalPages, pushed one at a time. */
  method PageNumbers(totalPages: nat) returns (pageNumbers: seq<int>)
    ensures |pageNumbers| == totalPages
    ensures forall k :: 0 <= k < totalPages ==> pageNumbers[k] == k + 1
  {
    pageNumbers := [];
    for i := 1 to totalPages + 1
      invariant |pageNumbers| == i - 1
      invariant forall k :: 0 <= k < i - 1 ==> pageNumbers[k] == k + 1
    {
      pageNumbers := pageNumbers + [i];
    }
  }

  /** The first page number shown: two before the current page, pulled back
      so that the window does not run past the last page, and never below 1. */
  function WindowStart(currentPage: int, totalPages: nat): int {
    Max(1, Min(currentPage - VisiblePageCount / 2, totalPages - VisiblePageCount + 1))
  }

  /** The page numbers shown: a run of min(5, totalPages) consecutive numbers. */
  function VisibleRange(currentPage: int, totalPages: nat): seq<int> {
    seq(Min(VisiblePageCount, totalPages), k => WindowStart(currentPage, totalPages) + k)
  }

  /** `getVisiblePageNumbers()`. */
  method GetVisiblePageNumbers(pageNumbers: seq<int>, currentPage: int, totalPages: nat) returns (visible: seq<int>)
    requires |pageNumbers| == totalPages
    requires forall k :: 0 <= k < totalPages ==> pageNumbers[k] == k + 1
    ensures visible == VisibleRange(currentPage, totalPages)
  {
    var startPage := Max(1, currentPage - VisiblePageCount / 2);
    var endPage := Min(totalPages, startPage + VisiblePageCount - 1);
    if endPage - startPage + 1 < VisiblePageCount {
      startPage := Max(1, endPage - VisiblePageCount + 1);
    }
    visible := Slice(pageNumbers, startPage - 1, endPage);
  }

  /** The window is a contiguous ascending run inside 1..totalPages, of
      length min(5, totalPages), so empty when there are no pages. */
  lemma VisibleRangeShape(currentPage: int, totalPages: nat)
    ensures var r := VisibleRange(currentPage, totalPages);
            && |r| == Min(VisiblePageCount, totalPages)
            && (totalPages == 0 ==> r == [])
            && (forall k :: 0 <= k < |r| ==> 1 <= r[k] <= totalPages)
            && (forall k :: 0 < k < |r| ==> r[k] == r[k - 1] + 1)
  {
  }

  /** A current page between 1 and totalPages is among the numbers shown,
      and sits in the middle slot when there are at least two pages on each
      side of it. */
  lemma VisibleRangeHasCurrent(currentPage: int, totalPages: nat)
    requires 1 <= currentPage <= totalPages
    ensures currentPage in VisibleRange(currentPage, totalPages)
    ensures 3 <= currentPage <= totalPages - 2 ==> VisibleRange(currentPage, totalPages)[2] == currentPage
  {
    var r := VisibleRange(currentPage, totalPages);
    assert r[currentPage - WindowStart(currentPage, totalPages)] == currentPage;
  }

  // Export

  /** One spreadsheet row; `page` is present only in the current-page export. */
  datatype ExportRow = ExportRow(no: int, userId: nat, postId: nat, title: string, content: string, page: Option<string>)

  /** The row's column headers, in the order the spreadsheet shows them. */
  function Columns(row: ExportRow): seq<string> {
    ["No", "User ID", "Post ID", "Title", "Content"] + (if row.page.Some? then ["Page"] else [])
  }

  /** Column widths (in characters) for the full export. */
  const FullExportWidths: seq<nat> := [5, 8, 8, 40, 50]
  /** Column widths (in characters) for the current-page export. */
  const PageExportWidths: seq<nat> := [5, 8, 8, 40, 50, 8]

  /** The post a row was made from. */
  function PostOf(row: ExportRow): Post {
    Post(row.userId, row.postId, row.title, row.content)
  }

  /** The row for `post` numbered `no`. */
  function RowFor(post: Post, no: int, page: Option<string>): (row: ExportRow)
    ensures PostOf(row) == post && row.no == no && row.page == page
  {
    ExportRow(no, post.userId, post.id, post.title, post.body, page)
  }

  /** The full export: one row per filtered post, in order, numbered from 1,
      each with the five columns that the five widths size. */
  function FullExportRows(filtered: seq<Post>): (rows: seq<ExportRow>)
    ensures |rows| == |filtered|
    ensures forall i :: 0 <= i < |rows| ==>
      && PostOf(rows[i]) == filtered[i]
      && rows[i].no == i + 1
      && |Columns(rows[i])| == |FullExportWidths|
  {
    seq(|filtered|, i requires 0 <= i < |filtered| => RowFor(filtered[i], i + 1, None))
  }

  /** The text of the `Page` column: "Page " and then the page number,
      which reads back as that number. */
  function PageLabel(currentPage: int): (text: string)
    ensures |text| > 5 && text[..5] == "Page "
    ensures currentPage >= 0 ==> AllDigits(text[5..]) && ParseDigits(text[5..]) == currentPage
  {
    ParseNatToString(if currentPage >= 0 then currentPage else 0);
    assert currentPage >= 0 ==> ("Page " + IntToString(currentPage))[5..] == NatToString(currentPage);
    "Page " + IntToString(currentPage)
  }

  /** The current-page export: one row per post on the page, numbered from
      (page-1)·5 + 1, each with the `Page` column and six columns that the
      six widths size. */
  function PageExportRows(filtered: seq<Post>, currentPage: int): (rows: seq<ExportRow>)
    ensures var items := PageSlice(filtered, currentPage);
            && |rows| == |items|
            && forall i :: 0 <= i < |rows| ==>
              && PostOf(rows[i]) == items[i]
              && rows[i].no == (currentPage - 1) * ItemsPerPage + i + 1
              && rows[i].page == Some(PageLabel(currentPage))
              && |Columns(rows[i])| == |PageExportWidths|
  {
    var items := PageSlice(filtered, currentPage);
    seq(|items|, i requires 0 <= i < |items| =>
      RowFor(items[i], (currentPage - 1) * ItemsPerPage + i + 1, Some(PageLabel(currentPage))))
  }

  /** `user_posts_page_<page>.xlsx`: the page number between the fixed
      prefix and the extension, reading back as that number. */
  function PageExportFileName(currentPage: int): (name: string)
    ensures |name| > 21 && name[..16] == "user_posts_page_" && name[|name| - 5..] == ".xlsx"
    ensures currentPage >= 0 ==>
      AllDigits(name[16..|name| - 5]) && ParseDigits(name[16..|name| - 5]) == currentPage
  {
    var name := "user_posts_page_" + IntToString(currentPage) + ".xlsx";
    ParseNatToString(if currentPage >= 0 then currentPage else 0);
    assert name[16..|name| - 5] == IntToString(currentPage);
    name
  }

  /** Different pages are saved under different file names. */
  lemma PageExportFileNamesDistinct(page: int, other: int)
    requires PageExportFileName(page) == PageExportFileName(other)
    ensures page == other
  {
    var a, b := PageExportFileName(page), PageExportFileName(other);
    assert a[16..|a| - 5] == IntToString(page);
    assert b[16..|b| - 5] == IntToString(other);
    IntToStringInjective(page, other);
  }

  /** A page's rows are the full export's rows for the same posts, with the
      same numbers, plus the `Page` column. */
  lemma PageExportAgreesWithFull(filtered: seq<Post>, currentPage: int)
    requires 1 <= currentPage <= TotalPagesFor(|filtered|)
    ensures var pageRows := PageExportRows(filtered, currentPage);
            var fullRows := FullExportRows(filtered);
            forall i :: 0 <= i < |pageRows| ==>
              && (currentPage - 1) * ItemsPerPage + i < |fullRows|
              && pageRows[i].no == fullRows[(currentPage - 1) * ItemsPerPage + i].no
              && PostOf(pageRows[i]) == PostOf(fullRows[(currentPage - 1) * ItemsPerPage + i])
  {
    PageSizes(filtered, currentPage);
  }

  /** With twelve matching posts, page 2 exports rows 6 to 10 marked
      "Page 2", and the full export numbers the rows 1 to 12 without a
      `Page` column. */
  lemma ExportOfTwelvePosts(filtered: seq<Post>)
    requires |filtered| == 12
    ensures var rows := PageExportRows(filtered, 2);
            && |rows| == 5
            && (forall i :: 0 <= i < 5 ==> rows[i].no == 6 + i && rows[i].page == Some("Page 2"))
            && PageExportFileName(2) == "user_posts_page_2.xlsx"
    ensures var rows := FullExportRows(filtered);
            && |rows| == 12
            && (forall i :: 0 <= i < 12 ==> rows[i].no == i + 1 && rows[i].page.None?)
  {
    assert IntToString(2) == "2";
    assert PageLabel(2) == "Page 2";
    var full := FullExportRows(filtered);
    forall i | 0 <= i < 12 ensures full[i].page.None? {
      assert |Columns(full[i])| == 5;
    }
  }

  // The widget's state

  /** The table's state: the fetched posts, the search box, and the page cursor. */
  class PostsTable {
    var posts: seq<Post>
    var searchQuery: string
    var currentPage: int

    constructor ()
      ensures posts == [] && searchQuery == "" && currentPage == 1
    {
      posts := [];
      searchQuery := "";
      currentPage := 1;
    }

    /** The fetched list arrives: only its first 100 posts are kept. */
    method SetPosts(data: seq<Post>)
      modifies this
      ensures posts == data[..Min(MaxTablePosts, |data|)]
      ensures searchQuery == old(searchQuery) && currentPage == old(currentPage)
    {
      posts := Slice(data, 0, MaxTablePosts);
      assert posts == data[..Min(MaxTablePosts, |data|)];
    }

    /** The posts the search keeps. */
    function Filtered(): (filtered: seq<Post>)
      reads this
      ensures forall p :: p in filtered <==> p in posts && Matches(p, searchQuery)
    {
      FilterPosts(posts, searchQuery)
    }

    /** The fewest pages of five that hold the filtered posts. */
    function TotalPages(): (totalPages: nat)
      reads this
      ensures totalPages == 0 <==> |Filtered()| == 0
      ensures (totalPages - 1) * ItemsPerPage < |Filtered()| <= totalPages * ItemsPerPage
    {
      TotalPagesFor(|Filtered()|)
    }

    /** The posts on the current page, in filtered order. */
    function CurrentItems(): (items: seq<Post>)
      reads this
      ensures |items| <= ItemsPerPage
      ensures currentPage >= 1 ==> forall k :: 0 <= k < |items| ==>
        (currentPage - 1) * ItemsPerPage + k < |Filtered()| &&
        items[k] == Filtered()[(currentPage - 1) * ItemsPerPage + k]
    {
      PageSlice(Filtered(), currentPage)
    }

    /** The cursor is on a page that exists, or on page 1 when there are none. */
    ghost predicate CursorInRange()
      reads this
    {
      1 <= currentPage <= Max(1, TotalPages())
    }

    /** While the cursor is in range and something matches, the page shown is not empty. */
    lemma CursorShowsPosts()
      requires CursorInRange() && TotalPages() >= 1
      ensures 1 <= |CurrentItems()| <= ItemsPerPage
    {
      PageSizes(Filtered(), currentPage);
    }

    /** `handleSearchChange`: a new query always goes back to page 1. */
    method HandleSearchChange(query: string)
      modifies this
      ensures searchQuery == query && currentPage == 1 && posts == old(posts)
      ensures CursorInRange()
    {
      searchQuery := query;
      currentPage := 1;
    }

    /** `nextPage`: one page on, unless already on or past the last page. */
    method NextPage()
      modifies this
      ensures posts == old(posts) && searchQuery == old(searchQuery)
      ensures currentPage == if old(currentPage) < TotalPages() then old(currentPage) + 1 else old(currentPage)
      ensures old(CursorInRange()) ==> CursorInRange()
    {
      if currentPage < TotalPages() {
        currentPage := currentPage + 1;
      }
    }

    /** `prevPage`: one page back, unless already on or before page 1. */
    method PrevPage()
      modifies this
      ensures posts == old(posts) && searchQuery == old(searchQuery)
      ensures currentPage == if old(currentPage) > 1 then old(currentPage) - 1 else old(currentPage)
      ensures old(CursorInRange()) ==> CursorInRange()
    {
      if currentPage > 1 {
        currentPage := currentPage - 1;
      }
    }

    /** `paginate(number)`: jump to a page; the buttons only offer the
        numbers of the visible window, and every one of those is in range. */
    method Paginate(pageNumber: int)
      modifies this
      ensures posts == old(posts) && searchQuery == old(searchQuery) && currentPage == pageNumber
      ensures pageNumber in VisibleRange(old(currentPage), TotalPages()) ==> CursorInRange()
    {
      VisibleRangeShape(currentPage, TotalPages());
      currentPage := pageNumber;
    }

    /** The page-number buttons for the current state. */
    method VisiblePageNumbers() returns (visible: seq<int>)
      ensures visible == VisibleRange(currentPage, TotalPages())
    {
      var pageNumbers := PageNumbers(TotalPages());
      visible := GetVisiblePageNumbers(pageNumbers, currentPage, TotalPages());
    }

    /** `exportToExcel`: the rows and widths handed to the spreadsheet writer. */
    method ExportToExcel() returns (rows: seq<ExportRow>, widths: seq<nat>)
      ensures rows == FullExportRows(Filtered()) && widths == FullExportWidths
    {
      rows := FullExportRows(Filtered());
      widths := FullExportWidths;
    }

    /** `exportCurrentPageToExcel`: the page's rows, widths and file name. */
    method ExportCurrentPageToExcel() returns (rows: seq<ExportRow>, widths: seq<nat>, fileName: string)
      ensures rows == PageExportRows(Filtered(), currentPage)
      ensures widths == PageExportWidths && fileName == PageExportFileName(currentPage)
    {
      rows := PageExportRows(Filtered(), currentPage);
      widths := PageExportWidths;
      fileName := PageExportFileName(currentPage);
    }
  }
}
