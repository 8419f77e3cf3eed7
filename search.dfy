/**
 * The search screen: a debounced query. Every change of the query cancels
 * the pending timer and arms a new one; when a timer fires, a query longer
 * than two UTF-16 code units is sent to the search endpoint, a shorter one
 * clears the results. Time is abstract: the timer firing is an event.
 */
module Search {
  import opened Wrappers
  import opened Movies
  import opened Strings
  import opened Tmdb

  const NoMoviesFound := "No movies found"
  const SearchPrompt := "Search for movies..."

  /** `query.length > 2`, on the untrimmed query. */
  predicate ShouldSearch(query: string)
    ensures ShouldSearch(query) ==> |query| >= 2
  {
    Utf16Length(query) > 2
  }

  /** The text shown when the list is empty. */
  function EmptyMessage(query: string): (r: string)
    ensures r == NoMoviesFound <==> ShouldSearch(query)
    ensures r == SearchPrompt <==> !ShouldSearch(query)
  {
    if ShouldSearch(query) then NoMoviesFound else SearchPrompt
  }

  /**
   * The year under a result: "N/A" when `release_date` is falsy (absent or
   * empty), otherwise the part before its first `-`.
   */
  function ResultYear(releaseDate: Option<string>): (r: string)
    ensures !Truthy(releaseDate) ==> r == "N/A"
    ensures Truthy(releaseDate) ==>
      && r <= releaseDate.value
      && '-' !in r
      && (r == releaseDate.value || releaseDate.value[|r|] == '-')
  {
    if Truthy(releaseDate) then FirstField(releaseDate.value, '-') else "N/A"
  }

  /** What can happen to the screen. */
  datatype Event =
    | Change(q: string)         // the search bar calls `setQuery(q)`
    | Fire                      // the pending timer's delay elapses
    | Respond(o: Outcome<Page>) // the oldest outstanding search request completes

  /**
   * The screen's state. `pending` is the query captured by the armed timer
   * (at most one); `inFlight` are the issued, unanswered searches, oldest
   * first; `requests` is every query sent to `searchMovies`, in order.
   */
  datatype Screen = Screen(
    query: string,
    results: seq<Movie>,
    loading: bool,
    pending: Option<string>,
    inFlight: seq<string>,
    requests: seq<string>)

  /** After mount: the effect has run once for the empty query. */
  const Initial := Screen("", [], false, Some(""), [], [])

  /** The one timer, if armed, belongs to the current query. */
  predicate TimerOnLatest(s: Screen)
  {
    s.pending.Some? ==> s.pending.value == s.query
  }

  /** The state after one event. */
  function Step(s: Screen, e: Event): (r: Screen)
    ensures |s.requests| <= |r.requests| <= |s.requests| + 1
    ensures r.requests[..|s.requests|] == s.requests
    ensures |r.requests| > |s.requests| ==> e.Fire? && s.pending == Some(r.requests[|s.requests|])
  {
    match e
    case Change(q) =>
      // the effect depends on [query]: it re-runs only when the value changes
      if q == s.query then s else s.(query := q, pending := Some(q))
    case Fire =>
      if s.pending.None? then s
      else
        var p := s.pending.value;
        if ShouldSearch(p) then
          s.(pending := None, loading := true, inFlight := s.inFlight + [p], requests := s.requests + [p])
        else
          s.(pending := None, results := [])
    case Respond(o) =>
      if s.inFlight == [] then s
      else s.(inFlight := s.inFlight[1..], results := ListResult(o), loading := false)
  }

  /** The state after a sequence of events. */
  function Run(s: Screen, events: seq<Event>): Screen
    decreases events
  {
    if events == [] then s else Run(Step(s, events[0]), events[1..])
  }

  /** Typing: one change per query value. */
  function Typing(qs: seq<string>): (r: seq<Event>)
    ensures |r| == |qs|
  {
    if qs == [] then [] else [Change(qs[0])] + Typing(qs[1..])
  }

  lemma InitialTimerOnLatest()
    ensures TimerOnLatest(Initial)
  {
  }

  /** Every event keeps the timer on the latest query. */
  lemma StepKeepsTimerOnLatest(s: Screen, e: Event)
    requires TimerOnLatest(s)
    ensures TimerOnLatest(Step(s, e))
  {
  }

  lemma {:induction false} RunKeepsTimerOnLatest(s: Screen, events: seq<Event>)
    requires TimerOnLatest(s)
    ensures TimerOnLatest(Run(s, events))
    decreases events
  {
    if events != [] {
      StepKeepsTimerOnLatest(s, events[0]);
      RunKeepsTimerOnLatest(Step(s, events[0]), events[1..]);
    }
  }

  lemma {:induction false} RunAppend(s: Screen, a: seq<Event>, b: seq<Event>)
    ensures Run(s, a + b) == Run(Run(s, a), b)
    decreases a
  {
    if a == [] {
      assert a + b == b;
    } else {
      assert (a + b)[0] == a[0] && (a + b)[1..] == a[1..] + b;
      RunAppend(Step(s, a[0]), a[1..], b);
    }
  }

  /**
   * A burst of changes issues no request and touches neither the results
   * nor loading; it leaves the last value as the query and, once any value
   * differed from the query, the timer armed for that last value only.
   */
  lemma {:induction false} TypingEffect(s: Screen, qs: seq<string>)
    requires qs != []
    ensures var t := Run(s, Typing(qs));
      && t.query == qs[|qs| - 1]
      && t.requests == s.requests && t.inFlight == s.inFlight
      && t.results == s.results && t.loading == s.loading
      && ((forall i :: 0 <= i < |qs| ==> qs[i] == s.query) ==> t == s)
      && ((exists i :: 0 <= i < |qs| && qs[i] != s.query) ==> t.pending == Some(qs[|qs| - 1]))
    decreases qs
  {
    var s' := Step(s, Change(qs[0]));
    assert Typing(qs)[0] == Change(qs[0]) && Typing(qs)[1..] == Typing(qs[1..]);
    if |qs| > 1 {
      var rest := qs[1..];
      assert forall j :: 0 <= j < |rest| ==> rest[j] == qs[j + 1];
      TypingEffect(s', rest);
      if qs[0] != s.query && forall j :: 0 <= j < |rest| ==> rest[j] == s'.query {
        assert rest[|rest| - 1] == qs[0];
      }
    }
  }

  /**
   * The debounce: after a burst of changes that moves the query, one timer
   * firing issues exactly one request, for the final query, when it is long
   * enough, and otherwise none and clears the results.
   */
  lemma BurstThenFire(s: Screen, qs: seq<string>)
    requires qs != []
    requires exists i :: 0 <= i < |qs| && qs[i] != s.query
    ensures var last, t := qs[|qs| - 1], Run(s, Typing(qs) + [Fire]);
      && t.query == last
      && t.pending == None
      && t.requests == s.requests + (if ShouldSearch(last) then [last] else [])
      && (ShouldSearch(last) ==> t.loading && t.inFlight == s.inFlight + [last])
      && (!ShouldSearch(last) ==> t.results == [] && t.inFlight == s.inFlight)
  {
    TypingEffect(s, qs);
    RunAppend(s, Typing(qs), [Fire]);
    var t := Run(s, Typing(qs));
    assert Run(t, [Fire]) == Step(t, Fire);
  }

  /** A firing issues at most one request, and only for the current query. */
  lemma FireIssuesAtMostOne(s: Screen)
    requires TimerOnLatest(s)
    ensures var t := Step(s, Fire);
      t.requests == s.requests || t.requests == s.requests + [s.query]
    ensures Step(s, Fire).pending == None
  {
  }

  /** A timer fires once: a second firing changes nothing. */
  lemma FireTwice(s: Screen)
    ensures Step(Step(s, Fire), Fire) == Step(s, Fire)
  {
  }

  /** Every query of more than two characters is searched. */
  lemma LongQueryIsSearched(q: string)
    requires |q| > 2
    ensures ShouldSearch(q)
  {
  }

  /** Every request issued so far passed the threshold. */
  predicate RequestsSearchable(s: Screen)
  {
    forall q | q in s.requests :: ShouldSearch(q)
  }

  /** Every event keeps every issued request above the threshold. */
  lemma RequestsPassThreshold(s: Screen, e: Event)
    requires RequestsSearchable(s)
    ensures RequestsSearchable(Step(s, e))
  {
  }

  /** Over any run (from mount, where nothing was sent), no query at or below the threshold reaches `searchMovies`. */
  lemma {:induction false} RunRequestsPassThreshold(s: Screen, events: seq<Event>)
    requires RequestsSearchable(s)
    ensures RequestsSearchable(Run(s, events))
    decreases events
  {
    if events != [] {
      RequestsPassThreshold(s, events[0]);
      RunRequestsPassThreshold(Step(s, events[0]), events[1..]);
    }
  }

  /** The query is not trimmed: three spaces are sent to the search endpoint. */
  lemma SpacesAreSearched()
    ensures ShouldSearch("   ")
  {
  }

  /** Length is counted in UTF-16 code units: two astral characters already pass the threshold. */
  lemma AstralPairIsSearched()
    ensures ShouldSearch("\U{1F3AC}\U{1F3A5}")
  {
  }

  /**
   * `SearchScreen`'s state as component state. Its methods are the events;
   * `Snapshot` is the abstract value they are specified against.
   */
  class SearchScreen {
    var query: string
    var results: seq<Movie>
    var loading: bool
    var pending: Option<string>
    var inFlight: seq<string>
    var requests: seq<string>

    function Snapshot(): Screen
      reads this
    {
      Screen(query, results, loading, pending, inFlight, requests)
    }

    /** Mount: initial state, and the effect arms a timer for the empty query. */
    constructor ()
      ensures Snapshot() == Initial
    {
      query, results, loading := "", [], false;
      inFlight, requests := [], [];
      pending := Some("");
    }

    /** `setQuery(q)`: on a new value, clear the old timer and arm one for `q`. */
    method ChangeQuery(q: string)
      modifies this
      ensures Snapshot() == Step(old(Snapshot()), Change(q))
      ensures q != old(query) ==> pending == Some(q)
    {
      if q != query {
        query := q;
        pending := Some(q);
      }
    }

    /** The pending timer fires: search or clear. */
    method TimerFires()
      modifies this
      ensures Snapshot() == Step(old(Snapshot()), Fire)
    {
      if pending.Some? {
        var p := pending.value;
        pending := None;
        if ShouldSearch(p) {
          PerformSearch(p);
        } else {
          results := [];
        }
      }
    }

    /** `performSearch(text)` up to its `await`: loading on, request issued. */
    method PerformSearch(text: string)
      modifies this
      ensures loading
      ensures inFlight == old(inFlight) + [text] && requests == old(requests) + [text]
      ensures query == old(query) && results == old(results) && pending == old(pending)
    {
      loading := true;
      inFlight := inFlight + [text];
      requests := requests + [text];
    }

    /** `performSearch` after its `await`: results are what `searchMovies` returned, loading off. */
    method SearchResponds(o: Outcome<Page>)
      modifies this
      ensures Snapshot() == Step(old(Snapshot()), Respond(o))
      ensures old(inFlight) != [] ==> results == ListResult(o) && !loading
    {
      if inFlight != [] {
        inFlight := inFlight[1..];
        results := ListResult(o);
        loading := false;
      }
    }
  }
}
