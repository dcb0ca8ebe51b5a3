/** Runs of the search screen: a sequence of events (text changes, cells
    about to be displayed, responses and failures arriving) applied one after
    another, collecting the requests the screen sends. Responses are applied
    to whatever session is current when they arrive, as the callbacks do. */
module SearchTrace {
  import opened Options
  import opened SearchSession

  datatype Event<Movie> =
    | TextChanged(barText: Option<string>)
    | WillDisplay(item: nat)
    | Succeeded(response: Response<Movie>)
    | Failed

  /** One event's effect on the session. */
  function Step<Movie>(s: Session<Movie>, e: Event<Movie>, apiKey: string): Reaction<Movie>
  {
    match e
    case TextChanged(barText) => TextChange(s, barText, apiKey)
    case WillDisplay(item) => LoadMore(s, item, apiKey)
    case Succeeded(resp) => Reaction(ApplyResponse(s, resp), None)
    case Failed => Reaction(ApplyFailure(s), None)
  }

  function Sent(o: Option<Params>): seq<Params>
  {
    match o
    case Some(p) => [p]
    case None => []
  }

  datatype Outcome<Movie> = Outcome(final: Session<Movie>, requests: seq<Params>)

  /** Apply `events` in order from `s`. Every request sent carries exactly the
      three search parameters and the application's key. */
  function Run<Movie>(s: Session<Movie>, events: seq<Event<Movie>>, apiKey: string): (r: Outcome<Movie>)
    ensures |r.requests| <= |events|
    ensures forall j | 0 <= j < |r.requests| ::
      r.requests[j].Keys == {"api_key", "query", "page"} && r.requests[j]["api_key"] == Text(apiKey)
    decreases |events|
  {
    if events == [] then Outcome(s, [])
    else
      var step := Step(s, events[0], apiKey);
      var rest := Run(step.next, events[1..], apiKey);
      Outcome(rest.final, Sent(step.request) + rest.requests)
  }

  /** The movies the successful responses among `events` bring, in order. */
  function Appended<Movie>(events: seq<Event<Movie>>): seq<Movie>
    decreases |events|
  {
    if events == [] then []
    else
      (if events[0].Succeeded? then PageMovies(events[0].response) else [])
        + Appended(events[1..])
  }

  predicate NoTextChange<Movie>(events: seq<Event<Movie>>)
  {
    forall i | 0 <= i < |events| :: !events[i].TextChanged?
  }

  /** Within one query the results only grow: every successful page is
      appended in the order it arrives, with nothing removed, reordered or
      deduplicated, and every request sent is for that query. */
  lemma {:induction false} AppendOnlyWithinQuery<Movie>(s: Session<Movie>, events: seq<Event<Movie>>, apiKey: string)
    requires NoTextChange(events)
    ensures Run(s, events, apiKey).final.results == s.results + Appended(events)
    ensures Run(s, events, apiKey).final.query == s.query
    ensures forall j | 0 <= j < |Run(s, events, apiKey).requests| ::
      Run(s, events, apiKey).requests[j]["query"] == Text(s.query)
    decreases |events|
  {
    if events != [] {
      var step := Step(s, events[0], apiKey);
      var tail := events[1..];
      assert NoTextChange(tail) by {
        forall i | 0 <= i < |tail| ensures !tail[i].TextChanged? {
          assert tail[i] == events[i + 1];
        }
      }
      AppendOnlyWithinQuery(step.next, tail, apiKey);
      var page := if events[0].Succeeded? then PageMovies(events[0].response) else [];
      assert step.next.results == s.results + page;
      assert step.next.query == s.query;
      assert Appended(events) == page + Appended(tail);
      assert s.results + page + Appended(tail) == s.results + (page + Appended(tail));
    }
  }

  /** Events that neither change the query nor bring a response. */
  predicate OnlyScrollsAndFailures<Movie>(events: seq<Event<Movie>>)
  {
    forall i | 0 <= i < |events| :: events[i].WillDisplay? || events[i].Failed?
  }

  /** Once the page counter has reached the page count, scrolling and failures
      never send another request and change nothing: only a new query or a
      late response can restart loading. */
  lemma {:induction false} StuckAtPageCount<Movie>(s: Session<Movie>, events: seq<Event<Movie>>, apiKey: string)
    requires s.loadPage >= s.pageCount
    requires OnlyScrollsAndFailures(events)
    ensures Run(s, events, apiKey).requests == []
    ensures Run(s, events, apiKey).final == s
    decreases |events|
  {
    if events != [] {
      var tail := events[1..];
      assert OnlyScrollsAndFailures(tail) by {
        forall i | 0 <= i < |tail| ensures tail[i].WillDisplay? || tail[i].Failed? {
          assert tail[i] == events[i + 1];
        }
      }
      assert Step(s, events[0], apiKey) == Reaction(s, None);
      StuckAtPageCount(s, tail, apiKey);
    }
  }

  /** A failed request is not rolled back: the retry asks for the page after
      the one that failed, so that page is never loaded. */
  lemma RetryAfterFailureSkipsPage<Movie>(s: Session<Movie>, apiKey: string)
    requires |s.results| > 0 && s.loadPage + 1 < s.pageCount
    ensures var last := |s.results| - 1;
      var r := Run(s, [WillDisplay(last), Failed, WillDisplay(last)], apiKey);
      && |r.requests| == 2
      && r.requests[0]["page"] == Number(s.loadPage + 1)
      && r.requests[1]["page"] == Number(s.loadPage + 2)
      && r.final.results == s.results
  {
    var last := |s.results| - 1;
    var s1 := s.(loadPage := s.loadPage + 1);
    var s2 := s1.(loadPage := s.loadPage + 2);
    var events := [WillDisplay(last), Failed, WillDisplay(last)];
    assert Step(s, events[0], apiKey).next == s1;
    assert Step(s1, events[1], apiKey).next == s1;
    assert Step(s1, events[2], apiKey).next == s2;
    assert Run(s2, events[3..], apiKey) == Outcome(s2, []);
    assert events[2..][1..] == events[3..];
    assert events[1..][1..] == events[2..];
    assert Run(s1, events[2..], apiKey).requests == [SearchParameters(s2, apiKey)];
    assert Run(s1, events[1..], apiKey).requests == [SearchParameters(s2, apiKey)];
  }

  /** Nothing stops a second request while the first is in flight: showing
      the last cell twice before any response arrives sends two requests, for
      the next two pages. */
  lemma NoGuardAgainstSecondRequest<Movie>(s: Session<Movie>, apiKey: string)
    requires |s.results| > 0 && s.loadPage + 2 <= s.pageCount
    ensures var last := |s.results| - 1;
      var r := Run(s, [WillDisplay(last), WillDisplay(last)], apiKey);
      && |r.requests| == 2
      && r.requests[0]["page"] == Number(s.loadPage + 1)
      && r.requests[1]["page"] == Number(s.loadPage + 2)
      && r.final == s.(loadPage := s.loadPage + 2)
  {
    var last := |s.results| - 1;
    var s1 := s.(loadPage := s.loadPage + 1);
    var s2 := s.(loadPage := s.loadPage + 2);
    var events := [WillDisplay(last), WillDisplay(last)];
    assert Step(s, events[0], apiKey) == Reaction(s1, Some(SearchParameters(s1, apiKey)));
    assert Step(s1, events[1], apiKey) == Reaction(s2, Some(SearchParameters(s2, apiKey)));
    assert events[1..][1..] == [];
    assert Run(s1, events[1..], apiKey) == Outcome(s2, [SearchParameters(s2, apiKey)]);
  }

  /** When the request for the last page fails and only scrolls and failures
      follow, with no earlier request still in flight, the guard never fires
      again for this query: the last page is lost until the text changes or a
      late response moves the counter back (`LateResponseRevivesLastPage`). */
  lemma FailedLastPageIsLost<Movie>(s: Session<Movie>, apiKey: string, more: seq<Event<Movie>>)
    requires |s.results| > 0 && s.loadPage + 1 == s.pageCount
    requires OnlyScrollsAndFailures(more)
    ensures var r := Run(s, [WillDisplay(|s.results| - 1), Failed], apiKey);
      && r.requests == [SearchParameters(r.final, apiKey)]
      && r.final.loadPage == s.pageCount
      && Run(r.final, more, apiKey).requests == []
  {
    var events := [WillDisplay(|s.results| - 1), Failed];
    var s1 := s.(loadPage := s.loadPage + 1);
    assert Step(s, events[0], apiKey) == Reaction(s1, Some(SearchParameters(s1, apiKey)));
    assert events[1..][1..] == [];
    assert Step(s1, events[1], apiKey) == Reaction(s1, None);
    assert Run(s1, events[1..], apiKey) == Outcome(s1, []);
    StuckAtPageCount(s1, more, apiKey);
  }

  /** A late response can undo the loss: with requests for pages 1 and 2 in
      flight, the page-2 request fails, then the page-1 response arrives and
      sets the counter back to 1, so showing the new last cell asks for page 2
      again. */
  lemma LateResponseRevivesLastPage<Movie>(m: Movie, n: Movie, apiKey: string)
    ensures var r := Run(Session([m], 0, 2, "q"), [
        WillDisplay(0), WillDisplay(0), Failed,
        Succeeded(Decoded(Some([n]), Some(1), Some(2))),
        WillDisplay(1)
      ], apiKey);
      && |r.requests| == 3
      && r.requests[0]["page"] == Number(1)
      && r.requests[1]["page"] == Number(2)
      && r.requests[2]["page"] == Number(2)
      && r.requests[2]["query"] == Text("q")
      && r.final == Session([m, n], 2, 2, "q")
  {
    var events := [
      WillDisplay(0), WillDisplay(0), Failed,
      Succeeded(Decoded(Some([n]), Some(1), Some(2))),
      WillDisplay(1)
    ];
    var s0 := Session([m], 0, 2, "q");
    var s1 := Session([m], 1, 2, "q");
    var s2 := Session([m], 2, 2, "q");
    var s3 := Session([m, n], 1, 2, "q");
    var s4 := Session([m, n], 2, 2, "q");
    assert Step(s0, events[0], apiKey) == Reaction(s1, Some(SearchParameters(s1, apiKey)));
    assert Step(s1, events[1], apiKey) == Reaction(s2, Some(SearchParameters(s2, apiKey)));
    assert Step(s2, events[2], apiKey) == Reaction(s2, None);
    assert Step(s2, events[3], apiKey) == Reaction(s3, None);
    assert Step(s3, events[4], apiKey) == Reaction(s4, Some(SearchParameters(s4, apiKey)));
    assert events[1..][1..] == events[2..];
    assert events[2..][1..] == events[3..];
    assert events[3..][1..] == events[4..];
    assert events[4..][1..] == [];
    assert Run(s3, events[4..], apiKey) == Outcome(s4, [SearchParameters(s4, apiKey)]);
    assert Run(s2, events[3..], apiKey) == Outcome(s4, [SearchParameters(s4, apiKey)]);
    assert Run(s2, events[2..], apiKey) == Outcome(s4, [SearchParameters(s4, apiKey)]);
    assert Run(s1, events[1..], apiKey) == Outcome(s4, [SearchParameters(s2, apiKey), SearchParameters(s4, apiKey)]);
  }

  /** Responses whose `page`, when present, is not negative. */
  predicate ServerPagesNonNegative<Movie>(events: seq<Event<Movie>>)
  {
    forall i | 0 <= i < |events| ::
      (events[i].Succeeded? && events[i].response.Decoded? && events[i].response.page.Some?) ==>
        events[i].response.page.value >= 0
  }

  /** As long as the server never reports a negative page, the page counter
      stays non-negative, so the load-more guard never fires before the server
      has reported a page count. */
  lemma {:induction false} CounterStaysNonNegative<Movie>(s: Session<Movie>, events: seq<Event<Movie>>, apiKey: string)
    requires s.loadPage >= 0
    requires ServerPagesNonNegative(events)
    ensures Run(s, events, apiKey).final.loadPage >= 0
    ensures Run(s, events, apiKey).final.pageCount == 0 ==>
      forall item: nat :: !ShouldLoadMore(Run(s, events, apiKey).final, item)
    decreases |events|
  {
    if events != [] {
      var tail := events[1..];
      assert ServerPagesNonNegative(tail) by {
        forall i | 0 <= i < |tail|
          ensures (tail[i].Succeeded? && tail[i].response.Decoded? && tail[i].response.page.Some?) ==>
            tail[i].response.page.value >= 0
        {
          assert tail[i] == events[i + 1];
        }
      }
      var step := Step(s, events[0], apiKey);
      assert step.next.loadPage >= 0;
      CounterStaysNonNegative(step.next, tail, apiKey);
    }
  }

  /** The counter is not checked against the server: after a first page that
      reports page -1 and no page count, showing the last cell sends a second
      request, for page 0, although the page count is still 0. */
  lemma NegativeServerPageRequestsPageZero<Movie>(m: Movie, apiKey: string)
    ensures var r := Run(Initial(), [
        TextChanged(Some("x")),
        Succeeded(Decoded(Some([m]), Some(-1), None)),
        WillDisplay(0)
      ], apiKey);
      && r.final.pageCount == 0
      && |r.requests| == 2
      && r.requests[0]["page"] == Number(1)
      && r.requests[1]["page"] == Number(0)
  {
    var events := [
      TextChanged(Some("x")),
      Succeeded(Decoded(Some([m]), Some(-1), None)),
      WillDisplay(0)
    ];
    var s1 := Session([], 1, 0, "x");
    var s2 := Session([m], -1, 0, "x");
    var s3 := Session([m], 0, 0, "x");
    assert Step(Initial(), events[0], apiKey) == Reaction(s1, Some(SearchParameters(s1, apiKey)));
    assert Step(s1, events[1], apiKey) == Reaction(s2, None);
    assert Step(s2, events[2], apiKey) == Reaction(s3, Some(SearchParameters(s3, apiKey)));
    assert events[1..][1..] == events[2..];
    assert events[2..][1..] == [];
    assert Run(s2, events[2..], apiKey) == Outcome(s3, [SearchParameters(s3, apiKey)]);
    assert Run(s1, events[1..], apiKey) == Outcome(s3, [SearchParameters(s3, apiKey)]);
  }

  /** While a query is active the "start your search" prompt never shows,
      whatever responses and failures arrive: the screen shows the grid
      exactly when the initial results plus the pages received are non-empty,
      and the "no results" message otherwise. */
  lemma NoPromptWhileQuerying<Movie>(s: Session<Movie>, events: seq<Event<Movie>>, apiKey: string)
    requires s.query != "" && NoTextChange(events)
    ensures Classify(Run(s, events, apiKey).final) != StartSearchPrompt
    ensures Classify(Run(s, events, apiKey).final) == ResultsGrid <==> |s.results| + |Appended(events)| > 0
  {
    AppendOnlyWithinQuery(s, events, apiKey);
  }

  /** A worked session: typing "dune", a first page of two movies out of
      three pages, scrolling to the last movie, and a second page of one. */
  lemma DuneExample<Movie>(a: Movie, b: Movie, c: Movie, apiKey: string)
    ensures var r := Run(Initial(), [
        TextChanged(Some("dune")),
        Succeeded(Decoded(Some([a, b]), Some(1), Some(3))),
        WillDisplay(1),
        Succeeded(Decoded(Some([c]), Some(2), Some(3)))
      ], apiKey);
      && r.final == Session([a, b, c], 2, 3, "dune")
      && |r.requests| == 2
      && r.requests[0]["page"] == Number(1) && r.requests[0]["query"] == Text("dune")
      && r.requests[1]["page"] == Number(2) && r.requests[1]["query"] == Text("dune")
      && ShouldLoadMore(r.final, 2) && !ShouldLoadMore(r.final, 0)
  {
    var events := [
      TextChanged(Some("dune")),
      Succeeded(Decoded(Some([a, b]), Some(1), Some(3))),
      WillDisplay(1),
      Succeeded(Decoded(Some([c]), Some(2), Some(3)))
    ];
    var s1 := Session([], 1, 0, "dune");
    var s2 := Session([a, b], 1, 3, "dune");
    var s3 := Session([a, b], 2, 3, "dune");
    var s4 := Session([a, b, c], 2, 3, "dune");
    assert Step(Initial(), events[0], apiKey) == Reaction(s1, Some(SearchParameters(s1, apiKey)));
    assert Step(s1, events[1], apiKey) == Reaction(s2, None);
    assert Step(s2, events[2], apiKey) == Reaction(s3, Some(SearchParameters(s3, apiKey)));
    assert Step(s3, events[3], apiKey) == Reaction(s4, None);
    assert events[1..][1..] == events[2..];
    assert events[2..][1..] == events[3..];
    assert events[3..][1..] == [];
    assert Run(s3, events[3..], apiKey) == Outcome(s4, []);
    assert Run(s2, events[2..], apiKey) == Outcome(s4, [SearchParameters(s3, apiKey)]);
    assert Run(s1, events[1..], apiKey) == Outcome(s4, [SearchParameters(s3, apiKey)]);
  }
}
