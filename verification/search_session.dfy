/** The incremental search-and-pagination state of the movie search screen.

    The screen keeps four pieces of state: the movies accumulated so far for
    the current query, the page counter (`resultsLoadPage`), the server's page
    count (`resultsPageCount`) and the query text. Every transition of the
    screen is a pure function from one `Session` to the next. `Movie` is a type
    parameter: the model never looks inside a movie. */
module SearchSession {
  import opened Options
  import opened SwiftInt

  datatype Session<Movie> = Session(
    results: seq<Movie>,
    loadPage: Int64,
    pageCount: Int64,
    query: string
  )

  /** The state the screen starts in: no results, no pages, no query. */
  function Initial<Movie>(): (r: Session<Movie>)
    ensures |r.results| == 0 && r.query == ""
    ensures r.loadPage == 0 && r.pageCount == 0
  {
    Session([], 0, 0, "")
  }

  // ---------------------------------------------------------------------------
  // Request parameters
  // ---------------------------------------------------------------------------

  /** A request parameter value: the query and the key are strings, the page
      is an integer. */
  datatype ParamValue = Text(text: string) | Number(number: Int64)

  type Params = map<string, ParamValue>

  /** The parameters of one search request, built from the session at the
      moment the request is sent. `apiKey` is the application's credential,
      a build-time constant outside this model. */
  function SearchParameters<Movie>(s: Session<Movie>, apiKey: string): (p: Params)
    ensures p.Keys == {"api_key", "query", "page"}
    ensures p["api_key"] == Text(apiKey)
    ensures p["query"] == Text(s.query)
    ensures p["page"] == Number(s.loadPage)
  {
    map["api_key" := Text(apiKey), "query" := Text(s.query), "page" := Number(s.loadPage)]
  }

  // ---------------------------------------------------------------------------
  // Transitions
  // ---------------------------------------------------------------------------

  /** Forget the results and both page counters; the query is kept. */
  function Reset<Movie>(s: Session<Movie>): (r: Session<Movie>)
    ensures r.results == [] && r.loadPage == 0 && r.pageCount == 0
    ensures r.query == s.query
  {
    s.(results := [], loadPage := 0, pageCount := 0)
  }

  /** The outcome of sending a page request: the counter is incremented first
      and the request asks for the incremented page. Swift's `+= 1` traps when
      the counter is already `Int.max`; that is `Overflow`. */
  datatype Issue<Movie> = Issued(next: Session<Movie>, params: Params) | Overflow

  function IssueRequest<Movie>(s: Session<Movie>, apiKey: string): (r: Issue<Movie>)
    ensures r.Overflow? <==> s.loadPage == MaxInt
    ensures r.Issued? ==>
      && r.next.loadPage == s.loadPage + 1
      && r.next.results == s.results
      && r.next.pageCount == s.pageCount
      && r.next.query == s.query
      && r.params.Keys == {"api_key", "query", "page"}
      && r.params["page"] == Number(s.loadPage + 1)
      && r.params["query"] == Text(s.query)
      && r.params["api_key"] == Text(apiKey)
  {
    if s.loadPage == MaxInt then Overflow
    else
      var next := s.(loadPage := s.loadPage + 1);
      Issued(next, SearchParameters(next, apiKey))
  }

  /** What the success callback makes of the response body. `Decoded` holds
      the three keys the callback looks for, each absent when the key is
      missing or has the wrong type; `DecodeError` is a body the JSON parser
      rejects (the `catch` branch). Bodies that parse but then make the
      callback trap are not modelled. */
  datatype Response<Movie> =
    | Decoded(movies: Option<seq<Movie>>, page: Option<Int64>, totalPages: Option<Int64>)
    | DecodeError

  /** The movies a response contributes, in the order the server sent them. */
  function PageMovies<Movie>(resp: Response<Movie>): seq<Movie>
  {
    match resp
    case Decoded(movies, _, _) => movies.GetOr([])
    case DecodeError => []
  }

  /** Apply a successful HTTP response to the session current at the time it
      arrives: append the page, and let the server overwrite the page counter
      and the page count when it reports them. */
  function ApplyResponse<Movie>(s: Session<Movie>, resp: Response<Movie>): (r: Session<Movie>)
    ensures r.results == s.results + PageMovies(resp)
    ensures |r.results| == |s.results| + |PageMovies(resp)|
    ensures r.query == s.query
    ensures resp.Decoded? && resp.page.Some? ==> r.loadPage == resp.page.value
    ensures !(resp.Decoded? && resp.page.Some?) ==> r.loadPage == s.loadPage
    ensures resp.Decoded? && resp.totalPages.Some? ==> r.pageCount == resp.totalPages.value
    ensures !(resp.Decoded? && resp.totalPages.Some?) ==> r.pageCount == s.pageCount
  {
    match resp
    case DecodeError => s
    case Decoded(movies, page, totalPages) =>
      Session(s.results + movies.GetOr([]), page.GetOr(s.loadPage),
              totalPages.GetOr(s.pageCount), s.query)
  }

  /** Apply a transport failure: the callback only reports it. In particular
      the page counter keeps the increment made when the request was sent. */
  function ApplyFailure<Movie>(s: Session<Movie>): (r: Session<Movie>)
    ensures r.results == s.results && r.pageCount == s.pageCount && r.query == s.query
    ensures r.loadPage == s.loadPage
  {
    s
  }

  /** The load-more guard, asked for every cell about to be shown: fetch the
      next page when the cell is the last result and the server has more. */
  predicate ShouldLoadMore<Movie>(s: Session<Movie>, item: nat)
  {
    item == |s.results| - 1 && s.loadPage < s.pageCount
  }

  /** A transition that may send a request. */
  datatype Reaction<Movie> = Reaction(next: Session<Movie>, request: Option<Params>)

  /** A cell at `item` is about to be displayed. */
  function LoadMore<Movie>(s: Session<Movie>, item: nat, apiKey: string): (r: Reaction<Movie>)
    ensures r.request.Some? <==> item + 1 == |s.results| && s.loadPage < s.pageCount
    ensures r.request.None? ==> r.next == s
    ensures r.request.Some? ==> IssueRequest(s, apiKey) == Issued(r.next, r.request.value)
  {
    if !ShouldLoadMore(s, item) then Reaction(s, None)
    else
      match IssueRequest(s, apiKey)
      case Issued(next, params) => Reaction(next, Some(params))
      case Overflow => assert false; Reaction(s, None)
  }

  /** The search bar's text changed. The handler reads the bar's own text,
      which may be nil: it resets the session, clears the query, and when the
      text is non-empty adopts it as the query and requests the first page. */
  function TextChange<Movie>(s: Session<Movie>, barText: Option<string>, apiKey: string): (r: Reaction<Movie>)
    ensures r.next.results == [] && r.next.pageCount == 0
    ensures r.request.Some? <==> barText.Some? && barText.value != ""
    ensures r.request.None? ==> r.next == Initial()
    ensures r.request.Some? ==>
      && r.next.query == barText.value
      && r.next.loadPage == 1
      && r.request.value.Keys == {"api_key", "query", "page"}
      && r.request.value["page"] == Number(1)
      && r.request.value["query"] == Text(barText.value)
      && r.request.value["api_key"] == Text(apiKey)
  {
    var cleared := Reset(s).(query := "");
    if barText.Some? && barText.value != "" then
      match IssueRequest(cleared.(query := barText.value), apiKey)
      case Issued(next, params) => Reaction(next, Some(params))
      case Overflow => assert false; Reaction(cleared, None)
    else
      Reaction(cleared, None)
  }

  // ---------------------------------------------------------------------------
  // Empty-state classification
  // ---------------------------------------------------------------------------

  /** What the screen shows after a result-count refresh: the grid when there
      are results; otherwise the empty-state view, with the "start your search"
      prompt when there is no query and the "no results" message when there is. */
  datatype Display = ResultsGrid | StartSearchPrompt | NoResultsMessage

  function Classify<Movie>(s: Session<Movie>): (d: Display)
    ensures d == ResultsGrid <==> |s.results| > 0
    ensures d == StartSearchPrompt <==> |s.results| == 0 && s.query == ""
    ensures d == NoResultsMessage <==> |s.results| == 0 && s.query != ""
  {
    if |s.results| == 0 then
      if s.query == "" then StartSearchPrompt else NoResultsMessage
    else ResultsGrid
  }

  // ---------------------------------------------------------------------------
  // Properties
  // ---------------------------------------------------------------------------

  /** Resetting twice is resetting once, and the initial state is reset. */
  lemma ResetIdempotent<Movie>(s: Session<Movie>)
    ensures Reset(Reset(s)) == Reset(s)
    ensures Reset(Initial<Movie>()) == Initial()
  {
  }

  /** After a reset the first request asks for page 1. */
  lemma FirstRequestAfterReset<Movie>(s: Session<Movie>, apiKey: string)
    ensures IssueRequest(Reset(s), apiKey).Issued?
    ensures IssueRequest(Reset(s), apiKey).params["page"] == Number(1)
    ensures IssueRequest(Reset(s), apiKey).params["query"] == Text(s.query)
  {
  }

  /** A decode error is a success whose three keys are all absent, and it
      changes nothing: not the results, not the page count, and not the page
      counter, which keeps the value incremented when the request was sent. */
  lemma DecodeErrorIsAllAbsent<Movie>(s: Session<Movie>)
    ensures ApplyResponse(s, DecodeError) == ApplyResponse(s, Decoded(None, None, None))
    ensures ApplyResponse(s, DecodeError) == s
  {
  }

  /** One page load from `s`, whatever comes back: the counter is incremented
      when the request is sent and only a response that reports `page` moves
      it again. A decode error and a transport failure both leave the results
      and the page count as they were and the counter one past where it was. */
  lemma ResponseAfterRequest<Movie>(s: Session<Movie>, apiKey: string, movies: Option<seq<Movie>>, total: Option<Int64>)
    requires s.loadPage < MaxInt
    ensures var n := IssueRequest(s, apiKey).next;
      && ApplyResponse(n, DecodeError) == s.(loadPage := s.loadPage + 1)
      && ApplyFailure(n) == s.(loadPage := s.loadPage + 1)
      && ApplyResponse(n, Decoded(movies, None, total)).loadPage == s.loadPage + 1
      && ApplyResponse(n, Decoded(movies, None, total)).results == s.results + movies.GetOr([])
  {
  }

  /** It never fires for any index but the last, and never on an empty grid. */
  lemma LoadMoreOnlyAtLastItem<Movie>(s: Session<Movie>, item: nat, apiKey: string)
    requires item + 1 != |s.results|
    ensures !ShouldLoadMore(s, item)
    ensures LoadMore(s, item, apiKey) == Reaction(s, None)
  {
  }

  /** With a non-negative page counter it never fires while the page count is
      0, so a session whose server never reported `total_pages` stops after the
      first page. */
  lemma LoadMoreNeedsPageCount<Movie>(s: Session<Movie>, item: nat)
    requires s.loadPage >= 0 && s.pageCount == 0
    ensures !ShouldLoadMore(s, item)
  {
  }

  /** The increment made by the load-more guard cannot trap: the guard implies
      the counter is below a page count, hence below `Int.max`. */
  lemma LoadMoreNeverOverflows<Movie>(s: Session<Movie>, item: nat, apiKey: string)
    requires ShouldLoadMore(s, item)
    ensures IssueRequest(s, apiKey).Issued?
    ensures IssueRequest(s, apiKey).params["page"] == Number(s.loadPage + 1)
  {
  }

  /** A text change forgets everything about the previous session: its
      outcome depends on the bar's text alone. */
  lemma TextChangeForgetsSession<Movie>(s: Session<Movie>, t: Session<Movie>, barText: Option<string>, apiKey: string)
    ensures TextChange(s, barText, apiKey) == TextChange(t, barText, apiKey)
  {
  }

  /** Clearing the bar (empty or nil text) shows the "start your search"
      prompt; a new query whose first page brings no movies shows the
      "no results" message, and so does a new query whose first request fails. */
  lemma EmptyStateAfterTextChange<Movie>(s: Session<Movie>, text: string, apiKey: string, resp: Response<Movie>)
    requires PageMovies(resp) == []
    ensures Classify(TextChange(s, None, apiKey).next) == StartSearchPrompt
    ensures Classify(TextChange(s, Some(""), apiKey).next) == StartSearchPrompt
    ensures text != "" ==> Classify(ApplyResponse(TextChange(s, Some(text), apiKey).next, resp)) == NoResultsMessage
    ensures text != "" ==> Classify(ApplyFailure(TextChange(s, Some(text), apiKey).next)) == NoResultsMessage
  {
  }
}
