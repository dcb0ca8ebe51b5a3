# Movie search pagination, modelled in Dafny

The NavChallenge app has a movie search screen, `SearchViewController`. Typing into its search bar sends a text search to a remote movie database. The screen accumulates the pages of results client-side and asks for the next page when the last result scrolls into view. This project models that search-and-pagination state machine as pure functions over an immutable `Session`, and proves what each transition does.

- `options.dfy`: `Option`, Swift's optional.
- `swift_int.dfy`: the 64-bit range of Swift's `Int`. `resultsLoadPage += 1` traps at `Int.max`, so that bound matters.
- `search_session.dfy`: module `SearchSession`.
  - `Session` holds the four fields `results`, `resultsLoadPage` (`loadPage`), `resultsPageCount` (`pageCount`) and `query`.
  - Transitions: reset, request parameters, sending a page request, applying a response, applying a failure, the load-more guard and the text-change handler.
  - Empty-state classification: `Classify`.
- `search_trace.dfy`: module `SearchTrace`. A run is a sequence of events (text change, cell displayed, response, failure) applied in order. The properties proved here span several events.

`Movie` is a type parameter and is never inspected. A response is modelled after JSON decoding:
- `Decoded(movies, page, totalPages)` records each of the three keys, or its absence (`None`) when the key is missing or has the wrong type.
- `DecodeError` is a body the JSON parser rejects, which lands in the `catch` at lines 105-107.

### Behaviour worth knowing

These are facts about `NavChallenge/SearchViewController.swift`. The model reproduces each one.
- The page counter is incremented at line 80, before the request is sent. Neither the failure closure (lines 112-115) nor the `catch` (lines 105-107) rolls it back. A retry after a failure therefore asks for the page after the one that failed (`RetryAfterFailureSkipsPage`). If the failed page was the last one, it is not requested again for that query as long as only scrolls and failures follow and no earlier request is still in flight (`FailedLastPageIsLost`). A late response for an earlier page sets the counter back and revives it (`LateResponseRevivesLastPage`).
- A response without a `page` key keeps the incremented counter (lines 96-101, `ResponseAfterRequest`).
- Nothing stops a second request while one is in flight. Showing the last cell twice before a response arrives sends two requests, for the next two pages (line 185, `NoGuardAgainstSecondRequest`). Responses are applied to whatever session is current when they arrive.
- The text-change handler reads the search bar's own `text` (line 212), which may be nil, not its `searchText` argument. The model's input is therefore an `Option<string>`.
- Server page numbers are not checked (line 100). After a first page that reports page -1 and no page count, showing the last cell requests page 0 (`NegativeServerPageRequestsPageZero`). The guard never fires with a page count of 0 only while reported pages are non-negative (`CounterStaysNonNegative`).

## Model

| member | source | states |
|---|---|---|
| SearchSession.Initial | NavChallenge/SearchViewController.swift:12-15 | the screen starts with no results, both page counters 0 and an empty query |
| SearchSession.SearchParameters | NavChallenge/SearchViewController.swift:62-70 | a request carries exactly the keys `api_key`, `query` and `page`; `query` is the session's query and `page` the session's current page counter |
| SearchSession.Reset | NavChallenge/SearchViewController.swift:72-76 | reset empties the results and sets both page counters to 0; the query is left as it was |
| SearchSession.IssueRequest | NavChallenge/SearchViewController.swift:78-84 | sending a request increments the counter first and asks for the incremented page; results, page count and query are untouched; it traps exactly when the counter is already `Int.max` |
| SearchSession.ApplyResponse | NavChallenge/SearchViewController.swift:85-111 | a success appends the page's movies after the existing results in server order, with no dedup; a missing `results` key appends nothing; `page` and `total_pages` overwrite the counters only when present; the query never changes |
| SearchSession.ApplyFailure | NavChallenge/SearchViewController.swift:112-115 | a transport failure changes nothing, so the counter keeps the increment made when the request was sent |
| SearchSession.LoadMore | NavChallenge/SearchViewController.swift:182-188 | through the guard `ShouldLoadMore` (line 185), a request is sent iff the displayed item is the last result and the counter is below the page count; that request is the one the load-next-page request side issues, and it never traps; otherwise nothing changes |
| SearchSession.TextChange | NavChallenge/SearchViewController.swift:208-221 | for nil or empty bar text the session is back to the initial state with no request; for non-empty text the results are empty, the query is the text, and exactly one request is sent, for page 1 with that query |
| SearchSession.Classify | NavChallenge/SearchViewController.swift:121-134 | the grid when there are results; otherwise the "start your search" prompt when the query is empty and the "no results" message when it is not |
| SearchSession.ResetIdempotent | NavChallenge/SearchViewController.swift:72-76 | resetting twice is resetting once, and resetting the initial state gives the initial state |
| SearchSession.FirstRequestAfterReset | NavChallenge/SearchViewController.swift:62-84 | the first request after a reset is for page 1 with the session's query |
| SearchSession.DecodeErrorIsAllAbsent | NavChallenge/SearchViewController.swift:88-109 | a body that fails JSON decoding acts as a success with all three keys absent, and leaves the session exactly as it was |
| SearchSession.ResponseAfterRequest | NavChallenge/SearchViewController.swift:78-115 | after one request, a decode error or a transport failure leaves results and page count as before and the counter one higher; any response without `page`, whatever its movies and `total_pages`, keeps the incremented counter and appends its movies |
| SearchSession.LoadMoreOnlyAtLastItem | NavChallenge/SearchViewController.swift:185 | for any index that is not the last result and any key, the guard is false, and displaying that cell sends no request and leaves the session unchanged |
| SearchSession.LoadMoreNeedsPageCount | NavChallenge/SearchViewController.swift:185 | with a non-negative counter, the guard never fires while the page count is 0 |
| SearchSession.LoadMoreNeverOverflows | NavChallenge/SearchViewController.swift:80 | whenever the guard fires, the counter increment cannot trap, and the request asks for the counter plus one |
| SearchSession.TextChangeForgetsSession | NavChallenge/SearchViewController.swift:208-221 | the outcome of a text change depends only on the bar's text, not on the previous session |
| SearchSession.EmptyStateAfterTextChange | NavChallenge/SearchViewController.swift:121-134 | clearing the bar shows the "start your search" prompt; with a non-empty query, an empty first page or a failed first request shows the "no results" message |
| SearchTrace.Run | NavChallenge/SearchViewController.swift:78-117 | a run sends at most one request per event, and every request carries exactly the three parameters and the application's key |
| SearchTrace.AppendOnlyWithinQuery | NavChallenge/SearchViewController.swift:108-109 | across any run without a text change, the final results are the initial results followed by every successful page in arrival order; the query is unchanged and every request is for it |
| SearchTrace.StuckAtPageCount | NavChallenge/SearchViewController.swift:185 | once the counter has reached the page count, scrolling and failures send no request and change nothing |
| SearchTrace.RetryAfterFailureSkipsPage | NavChallenge/SearchViewController.swift:78-115 | load more, fail, load more: the two requests ask for pages p+1 and p+2, so page p+1 is skipped |
| SearchTrace.NoGuardAgainstSecondRequest | NavChallenge/SearchViewController.swift:185 | showing the last cell twice with no response in between sends two requests, for pages p+1 and p+2, and leaves the counter at p+2 |
| SearchTrace.FailedLastPageIsLost | NavChallenge/SearchViewController.swift:112-115 | when the request for the last page fails and no earlier request is in flight, no later scroll or failure requests anything for that query |
| SearchTrace.LateResponseRevivesLastPage | NavChallenge/SearchViewController.swift:96-101 | with requests for pages 1 and 2 in flight, a failure of the second followed by the late page-1 response sets the counter back to 1, and the next last-cell display asks for page 2 again |
| SearchTrace.CounterStaysNonNegative | NavChallenge/SearchViewController.swift:96-101 | if the server never reports a negative page, the counter stays non-negative, and the guard never fires while the page count is 0 |
| SearchTrace.NegativeServerPageRequestsPageZero | NavChallenge/SearchViewController.swift:96-101 | from the initial state, typing "x", then a first page that reports page -1 and no total, then showing its only cell, sends a second request, for page 0, while the page count is still 0 |
| SearchTrace.NoPromptWhileQuerying | NavChallenge/SearchViewController.swift:121-134 | with a non-empty query and no text change, whatever responses and failures arrive, the "start your search" prompt is never shown; the grid is shown iff the initial results plus the pages received are non-empty |
| SearchTrace.DuneExample | NavChallenge/SearchViewController.swift:78-111 | typing "dune", getting a first page [A,B] of 3, scrolling to B and getting page [C] gives results [A,B,C], counter 2 and page count 3; the requests are for pages 1 and 2; the guard fires at index 2 and not at index 0 |

## Left out

- The HTTP client call, the request URL and JSON serialisation are network I/O. A response enters the model already decoded into `Response`, and a transport failure enters as an event with no data.
- Swift's `as? Int` and `as? NSArray` conversions are not modelled. A key whose value has the wrong type counts as absent, which is the `if let` behaviour. Under the Swift 2 bridging the file is written for, `as? Int` accepts any `NSNumber`, including `1.5` or `true`, and truncates it, so such a `page` arrives as `Some(1)`. `Decoded` represents that value; the conversion itself is outside the model.
- The callbacks' crash paths are left out because they are traps, not behaviour: the `as!` cast of each result entry (line 92), `operation.responseData!` (line 89), `operation!` in the failure closure (line 113), and `json.objectForKey` on a body whose top-level JSON value is not an object (lines 89-90; `.AllowFragments` accepts `[]`, `1`, `"x"` or `null`). Swift's `Int` is taken to be 64 bits wide; nothing in the source fixes its width.
- Cancelling in-flight operations on a text change is left out because it is concurrency. A run may therefore deliver a response for an older query after the text changed, and the model appends it, as the callback would if it were not cancelled.
- The API key is a build-time constant outside these files, so it is a parameter.
- Rendering is left out, including the reload, the fade animations and the alpha values. `Classify` keeps only which of the three views is shown.
- Cell sizing is floating-point geometry and is left out.
- Also left out as presentation: keyboard insets, navigation-bar toggling, search-bar chrome, image loading and caching, the segue to the detail view, and the cell class, which has no logic.
- The internals of `Movie` are not part of this model; it is a type parameter.
- Reporting a failure to the user (`handleHttpFailure`) is not part of this model. `ApplyFailure` covers only its effect on the session, which is none.
