# Dashboard widgets: data derivation, modelled in Dafny

This project models the data logic of three widgets of a browser dashboard.
Each widget works on a list of post records `{userId, id, title, body}`:

- **The data table** (`DataTableWidget`) has several parts:
  - A search box filters the posts. The lower-cased query must occur in the lower-cased title, the lower-cased body, or the decimal text of `userId` or `id`.
  - The filtered list is cut into pages of 5. `totalPages` is the ceiling of n/5.
  - A page cursor moves with next/previous. A new search resets it to page 1.
  - The page buttons show a sliding window of at most 5 page numbers.
  - Two exports produce spreadsheet rows. One covers the whole filtered list, numbered from 1. The other covers the current page, numbered from (page−1)·5+1 and with a `Page` column. Each export has its own column widths, and the page export has its own file name.
- **The line chart** (`Chart2Widget`) picks out the posts of users 1 and 2 and counts them. For each of these users it builds a cumulative series. The series has a point every `step = ceil(n/maxPoints)` posts. A closing point is added when needed, so the series always ends at n.
- **The bar chart** (`Chart1Widget`) tallies posts per `userId` in a dictionary that is updated in place. It then reads the dictionary out as parallel `labels` ("User <id>") and `data` (counts).

Supporting modules model the JavaScript built-ins the widgets use:

- `JsNumber`: `Math.ceil` of a division, `Math.max` and `Math.min`, and the decimal `toString` with a parse-back round trip.
- `JsString`: `toLowerCase` and `includes`.
- `JsArray`: `filter`, `slice` (with its clamping and its negative indices) and a sum.
- `Posts`: the record type and the per-user count.

Each source file is modelled in the same form as the code:

- Code that builds values with expressions is modelled as functions.
- The loops are modelled as methods with loop invariants: the `pageNumbers` loop, the stride loop of `createCumulativeData`, the `forEach` tally, and the reading-out of `Object.keys`.
- The table's mutable `currentPage` and `searchQuery` live in a class, `PostsTable`, whose methods say exactly what they change.

Three behaviours of the code that are easy to misread:

- **Bar-chart order.** Bars come in ascending id order, not first-seen order. The code reads the tally out with `Object.keys` / `Object.values`, which list array-index keys (ids below 2^32−1) in ascending numeric order (OrdinaryOwnPropertyKeys, section 10.1.11.1 of ECMA-262).
- **`paginate`.** `paginate(n)` is not guarded; only next/previous are. It stays in range because its only caller is the buttons of the visible window (src/components/DataTableWidget.js:338). `PostsTable.Paginate` states exactly that.
- **Visible window.** The window contains the current page whenever 1 ≤ currentPage ≤ totalPages. `VisibleRangeHasCurrent` proves this.

## Model

| member | source | states |
|---|---|---|
| `DataTableWidget.Matches` | src/components/DataTableWidget.js:36-42 | the `includes`-based test holds exactly when the lower-cased query is a substring of the lower-cased title, the lower-cased body, or the decimal text of userId or id |
| `DataTableWidget.FilterPosts` | src/components/DataTableWidget.js:35-43 | `filteredPosts` is no longer than `posts`, and a post is in it exactly when it is in `posts` and matches the query |
| `DataTableWidget.DigitSearchFindsId` | src/components/DataTableWidget.js:36-41 | a query of digits is not changed by lower-casing, so a post whose id text contains it is in the filtered list |
| `DataTableWidget.FilterPostsSpec` | src/components/DataTableWidget.js:35-43 | the filtered list is an order-preserving subsequence of the posts; a post is kept (with all its copies) exactly when the lower-cased query is a substring of its lower-cased title, lower-cased body, or decimal userId or id, and dropped otherwise |
| `DataTableWidget.EmptySearchKeepsAll` | src/components/DataTableWidget.js:35-43 | an empty query keeps every post in its original order |
| `DataTableWidget.SearchIgnoresCase` | src/components/DataTableWidget.js:36 | searching for a query and for its lower-cased form give the same list |
| `JsString.ToLowerCase` | src/components/DataTableWidget.js:36-39 | `toLowerCase` keeps the length, turns each 'A'..'Z' into the matching 'a'..'z', and leaves every other character as it is (ASCII letters only) |
| `JsString.ToLowerCaseOfSameUpToCase` | src/components/DataTableWidget.js:36-39 | two strings that differ only in the case of ASCII letters lower-case to the same string |
| `DataTableWidget.MatchesIgnoresCase` | src/components/DataTableWidget.js:36-42 | posts whose titles and bodies differ only in letter case, searched with queries that differ only in letter case, match alike |
| `JsString.Includes` | src/components/DataTableWidget.js:38-41 | `includes` finds every prefix of the haystack, the empty needle among them, and never a needle longer than the haystack |
| `JsString.IncludesIsSubstring` | src/components/DataTableWidget.js:38-41 | the `includes` scan answers true exactly when the needle occurs at some position of the haystack |
| `JsString.ToLowerCaseIdempotent` | src/components/DataTableWidget.js:36-39 | lower-casing twice is the same as lower-casing once |
| `JsString.ToLowerCaseOfDigits` | src/components/DataTableWidget.js:40-41 | lower-casing leaves a string of decimal digits unchanged |
| `JsArray.Filter` | src/components/DataTableWidget.js:35 | `filter` returns no more elements than it is given; every element it returns is a kept element of the input, and every kept element of the input is returned |
| `JsArray.FilterIsSubsequence` | src/components/DataTableWidget.js:35 | `filter` keeps the original order |
| `JsArray.FilterMultiplicity` | src/components/DataTableWidget.js:35 | `filter` keeps every copy of a kept value and no copy of a dropped one |
| `DataTableWidget.TotalPagesFor` | src/components/DataTableWidget.js:127 | `totalPages` is the least page count whose pages of 5 cover the filtered list: (t−1)·5 < n ≤ t·5, and it is 0 exactly when nothing matches |
| `JsNumber.CeilDiv` | src/components/DataTableWidget.js:127 | `Math.ceil(a / b)` on whole numbers is the r with (r−1)·b < a ≤ r·b |
| `JsNumber.CeilDivUnique` | src/components/DataTableWidget.js:127 | helper: the covering property (r−1)·b < a ≤ r·b has only one solution, so a loop bound that has it is the ceiling |
| `JsArray.Slice` | src/components/DataTableWidget.js:126 | `slice(start, end)`: a negative index counts from the end (len + k, floored at 0), a non-negative one is capped at len; the result is the run from the clamped start to the clamped end, empty when the end is not after the start |
| `DataTableWidget.PageSlice` | src/components/DataTableWidget.js:124-126 | `currentItems` holds at most 5 posts; from page 1 on, item k is filtered post (currentPage−1)·5+k; page 0 is empty |
| `DataTableWidget.PageSizes` | src/components/DataTableWidget.js:124-127 | for 1 ≤ p ≤ totalPages the page has 5 items before the last page and n − (totalPages−1)·5 on it, and item k is filtered post (p−1)·5+k |
| `DataTableWidget.PageBeyondLastIsEmpty` | src/components/DataTableWidget.js:124-126 | a page number past the last page shows no posts |
| `DataTableWidget.EveryPostOnItsPage` | src/components/DataTableWidget.js:124-127 | the post at position j is entry j mod 5 of page j/5+1, and that page exists |
| `DataTableWidget.TwelvePostsMakeThreePages` | src/components/DataTableWidget.js:124-127 | 12 matching posts make 3 pages and page 3 holds 2 of them |
| `DataTableWidget.PageNumbers` | src/components/DataTableWidget.js:141-144 | the loop produces 1, 2, …, totalPages |
| `DataTableWidget.GetVisiblePageNumbers` | src/components/DataTableWidget.js:146-156 | the window computed by reassigning `startPage` and slicing `pageNumbers` is the run of min(5, totalPages) numbers starting at max(1, min(currentPage−2, totalPages−4)) |
| `DataTableWidget.VisibleRangeShape` | src/components/DataTableWidget.js:146-156 | the window is a contiguous ascending run within 1..totalPages of length min(5, totalPages), and empty when there are no pages |
| `DataTableWidget.VisibleRangeHasCurrent` | src/components/DataTableWidget.js:146-156 | when 1 ≤ currentPage ≤ totalPages the window contains currentPage, in the middle slot when there are at least two pages on each side of it (3 ≤ currentPage ≤ totalPages−2) |
| `DataTableWidget.FullExportRows` | src/components/DataTableWidget.js:51-64 | one row per filtered post in the same order, numbered 1..n, carrying that post's fields, with the five columns No, User ID, Post ID, Title, Content that the five widths 5, 8, 8, 40, 50 size |
| `DataTableWidget.PageExportRows` | src/components/DataTableWidget.js:91-111 | one row per post of the current page, numbered (p−1)·5+i+1, carrying that post's fields and `Page` = "Page p", with six columns that the six widths size |
| `DataTableWidget.PageExportAgreesWithFull` | src/components/DataTableWidget.js:91-103 | each page-export row has the same number and post as the full-export row at the same overall position |
| `DataTableWidget.PageLabel` | src/components/DataTableWidget.js:102 | the `Page` column reads "Page " followed by the page number's digits, which read back as the page number |
| `DataTableWidget.PageExportFileName` | src/components/DataTableWidget.js:114 | the file name is `user_posts_page_`, the page number's digits (reading back as the page number), and `.xlsx` |
| `DataTableWidget.PageExportFileNamesDistinct` | src/components/DataTableWidget.js:114 | different pages are written to different `user_posts_page_<p>.xlsx` file names |
| `JsNumber.NatToString` | src/components/DataTableWidget.js:40-41 | `toString()` of a whole number is a non-empty string of digits with no leading zero |
| `JsNumber.IntToString` | src/components/DataTableWidget.js:114 | a template literal's text of an integer is non-empty and starts with '-' exactly when the integer is negative |
| `JsNumber.IntToStringInjective` | src/components/DataTableWidget.js:114 | different integers have different decimal texts |
| `JsNumber.ParseNatToString` | src/components/DataTableWidget.js:40-41 | reading back the decimal text of a whole number gives the number |
| `DataTableWidget.ExportOfTwelvePosts` | src/components/DataTableWidget.js:51-114 | with 12 filtered posts, page 2 exports rows numbered 6..10 marked "Page 2" into `user_posts_page_2.xlsx`, and the full export numbers the rows 1..12 without a Page column |
| `DataTableWidget.PostsTable.constructor` | src/components/DataTableWidget.js:5-10 | the table starts with no posts, an empty query and page 1 |
| `DataTableWidget.PostsTable.SetPosts` | src/components/DataTableWidget.js:18 | only the first 100 fetched posts are kept; the query and the page are unchanged |
| `DataTableWidget.PostsTable.Filtered` | src/components/DataTableWidget.js:35-43 | for the current state, a post is filtered exactly when it is in `posts` and matches `searchQuery` |
| `DataTableWidget.PostsTable.TotalPages` | src/components/DataTableWidget.js:127 | for the current state, `totalPages` is the fewest pages of 5 that hold the filtered posts, and 0 exactly when none match |
| `DataTableWidget.PostsTable.CurrentItems` | src/components/DataTableWidget.js:124-126 | for the current state, at most 5 posts, and from page 1 on the filtered posts from position (currentPage−1)·5 |
| `DataTableWidget.PostsTable.CursorShowsPosts` | src/components/DataTableWidget.js:124-127 | while the cursor is in range and something matches, the page shown holds between 1 and 5 posts |
| `DataTableWidget.PostsTable.HandleSearchChange` | src/components/DataTableWidget.js:29-33 | a new query is stored and the page goes back to 1, which is always in range |
| `DataTableWidget.PostsTable.NextPage` | src/components/DataTableWidget.js:130-134 | adds exactly 1 when currentPage < totalPages and otherwise changes nothing; keeps the cursor within [1, max(1, totalPages)] |
| `DataTableWidget.PostsTable.PrevPage` | src/components/DataTableWidget.js:135-139 | subtracts exactly 1 when currentPage > 1 and otherwise changes nothing; keeps the cursor within [1, max(1, totalPages)] |
| `DataTableWidget.PostsTable.Paginate` | src/components/DataTableWidget.js:129 | sets the page to the number given; a number taken from the visible window leaves the cursor in range |
| `DataTableWidget.PostsTable.VisiblePageNumbers` | src/components/DataTableWidget.js:141-156 | the page buttons shown for the current state are the visible window |
| `DataTableWidget.PostsTable.ExportToExcel` | src/components/DataTableWidget.js:47-65 | the full export hands over the full-export rows of the filtered posts and the five widths |
| `DataTableWidget.PostsTable.ExportCurrentPageToExcel` | src/components/DataTableWidget.js:87-114 | the page export hands over the rows of the current page, the six widths and the page's file name |
| `Chart2Widget.PostsOfUser` | src/components/Chart2Widget.js:35-36 | a post is in `userNPosts` exactly when it is in `posts` with that userId, and there are as many as the user has |
| `Chart2Widget.PostsOfUserSpec` | src/components/Chart2Widget.js:35-36 | `user1Posts` / `user2Posts` keep the original order and every post of that user, hold nothing else, and have as many posts as the user has |
| `Chart2Widget.ComputeUserStats` | src/components/Chart2Widget.js:38-41 | `userStats.user1` / `user2` are the number of posts of users 1 and 2 |
| `Chart2Widget.PointAt` | src/components/Chart2Widget.js:48-51 | the point pushed for position i counts y = i+1 posts |
| `Chart2Widget.PointLabelReadsBack` | src/components/Chart2Widget.js:48-51 | the point's label is "Post " followed by digits that read back as its count y |
| `Chart2Widget.SampleStep` | src/components/Chart2Widget.js:45 | the step is ceil(n/maxPoints): (step−1)·maxPoints < n ≤ step·maxPoints, so at least 1 exactly when there are posts, and 0 for none |
| `Chart2Widget.CreateCumulativeData` | src/components/Chart2Widget.js:43-65 | the stride loop and the tail correction produce exactly the closed-form series |
| `Chart2Widget.BuildLineChart` | src/components/Chart2Widget.js:35-68 | the stats count users 1 and 2, and each dataset is the series of that user's post count with the default cap of 10 |
| `Chart2Widget.SeriesOfNoPosts` | src/components/Chart2Widget.js:43-54 | no posts give an empty series |
| `Chart2Widget.SeriesParts` | src/components/Chart2Widget.js:45-62 | a non-empty series is the ceil(n/step) stride points at positions k·step, plus the closing point for post n exactly when the last stride point is below n |
| `Chart2Widget.StridePositions` | src/components/Chart2Widget.js:47-52 | a position i < n is a stride point exactly when i mod step = 0 |
| `Chart2Widget.SeriesLabels` | src/components/Chart2Widget.js:47-60 | every point has 1 ≤ y ≤ n and label "Post y" |
| `Chart2Widget.SeriesIncreasing` | src/components/Chart2Widget.js:47-62 | the y values strictly increase, so the final value is never repeated |
| `Chart2Widget.SeriesEnds` | src/components/Chart2Widget.js:45-62 | a non-empty series has between 1 and maxPoints+1 points, starts at y = 1 and ends at y = n |
| `Chart2Widget.SeriesOfTwentyThree` | src/components/Chart2Widget.js:43-62 | 23 posts with cap 10 give step 3 and 9 points, the last two being 22 and 23 |
| `Chart2Widget.MultipleMod` | src/components/Chart2Widget.js:47 | helper for `StridePositions`: k·step leaves remainder 0 and divides back to k |
| `Posts.FilterByUserCount` | src/components/Chart2Widget.js:35-41 | filtering by a user id keeps as many posts as that user has |
| `Chart1Widget.CountPostsPerUser` | src/components/Chart1Widget.js:32-35 | the dictionary has one key per distinct userId, whose value is that user's number of posts |
| `Posts.CountUserPositive` | src/components/Chart1Widget.js:32-35 | a user has at least one post exactly when their id occurs in the list |
| `Posts.CountUserAppend` | src/components/Chart1Widget.js:33-34 | counting one more post adds 1 to its user's tally and nothing to the others |
| `Chart1Widget.LeastElement` | src/components/Chart1Widget.js:37 | every non-empty set of ids has a least one, so keys can be listed in ascending order |
| `Chart1Widget.ObjectKeys` | src/components/Chart1Widget.js:37 | `Object.keys` lists every key of the dictionary once, in ascending numeric order |
| `Chart1Widget.ObjectValues` | src/components/Chart1Widget.js:38 | `Object.values` gives the count of each key, in the same order |
| `Chart1Widget.Labels` | src/components/Chart1Widget.js:41 | label k is "User " followed by key k |
| `Chart1Widget.OccurrencesOfAscending` | src/components/Chart1Widget.js:37 | in an ascending key list each id occurs at most once |
| `Chart1Widget.SumOfCounts` | src/components/Chart1Widget.js:32-38 | the counts over all distinct user ids add up to the number of posts |
| `Chart1Widget.BuildBarChart` | src/components/Chart1Widget.js:32-45 | `labels` and `data` have equal length; there is one bar per distinct userId in ascending order; bar k is labelled "User <id>" and its height is that user's post count, at least 1; the heights add up to the number of posts; no posts give no bars |

## Left out

- Fetching, JSON decoding, `async`/`useEffect`, and the `loading` / `exportLoading` flags are I/O and UI state. Each widget receives its posts as a `seq<Post>` parameter. The table applies its 100-post cap in `PostsTable.SetPosts`.
- The calls into the spreadsheet library are foreign code: creating the workbook, converting the rows to a sheet, appending the sheet, and writing the file. The row-height hints and sheet names go with them. Only the rows, the width lists and the page-export file name are modelled.
- The timestamp in the full-export file name reads the wall clock, so it is not modelled.
- `alert`, `console.error` and the try/catch around the exports are side effects that carry no data.
- JSX rendering, CSS, the Chart.js options and registration, the 80-character body preview, and the ellipsis shown after the page buttons are presentation only.
- The map widget (Leaflet, geocoding over the network, floating-point coordinates), the sidebar and the app shell are rendering and navigation only. They are not part of this model.
- Concurrent fetches, whose results overwrite each other in arrival order, are not modelled; each model call sees one fixed list.
- JsString.ToLowerCase: lower-cases ASCII letters only. JavaScript's `toLowerCase` also maps non-ASCII letters, so the model's search can differ from the browser's on non-ASCII text.
- Chart2Widget.CreateCumulativeData: requires `maxPoints >= 1`. The widget always passes the default 10. For other values the JavaScript behaves as follows, and the model does not cover it. An empty list always gives `[]`: `0 / maxPoints` is 0, −0 or NaN, so the loop does not run and the tail check is skipped. For a non-empty list, 0 makes the step Infinity, so only the first point and the closing point are produced. A negative value makes the step 0 or negative, so the loop never ends.
- Posts.Post: ids are natural numbers of any size. The upstream records carry ids 1–100, so JavaScript's non-integer and negative numbers are not modelled, and neither are large ids. Two facts in the model depend on ids being small. `Chart1Widget.ObjectKeys` lists keys in ascending order, which JavaScript does only for ids below 2^32−1; larger keys come out in insertion order. `JsNumber.NatToString` gives plain decimal text, which JavaScript gives only for ids below 10^21; from there on it uses exponent form such as "1e+21".
