/**
 * The incremental pagination state machine of the incident list screen,
 * stated on values: the screen's state is a `Screen`, and each thing that can
 * happen to it (the mount effect, the list reaching its end, a pull to
 * refresh, the arrival of a page from the API) is a transition function.
 * The class in module Incidents is proved against these functions.
 */
module Pagination {

  datatype Option<T> = None | Some(value: T)

  /** One incident record as the API delivers it. */
  datatype Incident = Incident(id: int, name: string, title: string, value: real)

  /** One page from `GET /incidents`: its records and its `x-total-count` header. */
  datatype Response = Response(data: seq<Incident>, totalCount: int)

  /** The arguments of a `loadIncidents` call that is suspended at its `await`. */
  datatype Request = Request(pageNumber: int, shouldRefresh: bool)

  /**
   * The component state: the five state hooks, plus the two suspended
   * continuations that the `await`s leave behind. `pending` holds the
   * arguments of the `loadIncidents` call waiting for its page, and
   * `awaitingRefresh` says that a `handleRefresh` call waits for that load.
   */
  datatype Screen = Screen(
    incidents: seq<Incident>,
    total: int,
    page: int,
    loading: bool,
    refreshing: bool,
    pending: Option<Request>,
    awaitingRefresh: bool)

  /** What the component can observe happening to it. */
  datatype Event =
    | Mount                    // the `useEffect` with an empty dependency list; it fires
                               // once, on the first render, but as it does exactly what
                               // `EndReached` does, runs are not restricted to one `Mount`
    | EndReached               // FlatList's `onEndReached`
    | PullToRefresh            // FlatList's `onRefresh`
    | Arrive(response: Response)  // the outstanding `api.get` resolves

  /** The state of the hooks when the screen is first rendered. */
  function Initial(): Screen
  {
    Screen([], 0, 1, false, false, None, false)
  }

  /**
   * The states the screen can be in: the loading flag is set exactly while a
   * request is outstanding, and a waiting refresh waits for its own request.
   */
  ghost predicate Valid(s: Screen)
  {
    (s.loading <==> s.pending.Some?) &&
    (s.awaitingRefresh ==> s.pending == Some(Request(1, true)))
  }

  /** The completion guard: the server's total is positive and has been reached exactly. */
  predicate Exhausted(s: Screen)
  {
    s.total > 0 && |s.incidents| == s.total
  }

  /** Whether a `loadIncidents` call gets past both of its guards. */
  predicate CanLoad(s: Screen)
  {
    !s.loading && !Exhausted(s)
  }

  /**
   * The part of `loadIncidents(pageNumber, shouldRefresh)` before its `await`:
   * the in-flight guard, the completion guard, then the loading flag and the
   * request. A blocked call changes nothing; a call that passes changes only
   * the loading flag and the outstanding request.
   */
  function Load(s: Screen, pageNumber: int, shouldRefresh: bool): (r: Screen)
    ensures r.incidents == s.incidents && r.total == s.total && r.page == s.page
    ensures r.refreshing == s.refreshing && r.awaitingRefresh == s.awaitingRefresh
    ensures CanLoad(s) ==> r.loading && r.pending == Some(Request(pageNumber, shouldRefresh))
    ensures !CanLoad(s) ==> r == s
  {
    if s.loading then s
    else if s.total > 0 && |s.incidents| == s.total then s
    else s.(loading := true, pending := Some(Request(pageNumber, shouldRefresh)))
  }

  /**
   * The part of `loadIncidents` after its `await`: the page replaces the list
   * on a refresh and is appended to it otherwise; the total is the response's,
   * the cursor moves past the requested page and the loading flag drops.
   */
  function Complete(s: Screen, response: Response): (r: Screen)
    requires s.pending.Some?
    ensures s.pending.value.shouldRefresh ==> r.incidents == response.data
    ensures !s.pending.value.shouldRefresh ==>
      |r.incidents| == |s.incidents| + |response.data| &&
      r.incidents[..|s.incidents|] == s.incidents &&
      r.incidents[|s.incidents|..] == response.data
    ensures r.total == response.totalCount && r.page == s.pending.value.pageNumber + 1
    ensures !r.loading && r.pending == None
    ensures r.refreshing == s.refreshing && r.awaitingRefresh == s.awaitingRefresh
  {
    var request := s.pending.value;
    s.(incidents := if request.shouldRefresh then response.data else s.incidents + response.data,
       total := response.totalCount,
       page := request.pageNumber + 1,
       loading := false,
       pending := None)
  }

  /**
   * The part of `handleRefresh` up to its `await`: the spinner is switched on
   * and page 1 is loaded with replacement. When that load is blocked it returns
   * at once, and the spinner is switched off again; otherwise the refresh waits.
   */
  function Refresh(s: Screen): (r: Screen)
    ensures r.incidents == s.incidents && r.total == s.total && r.page == s.page
    ensures r.refreshing == CanLoad(s)
    ensures CanLoad(s) ==> r.loading && r.pending == Some(Request(1, true)) && r.awaitingRefresh
    ensures !CanLoad(s) ==> r == s.(refreshing := false)
  {
    var t := Load(s.(refreshing := true), 1, true);
    if CanLoad(s) then t.(awaitingRefresh := true) else t.(refreshing := false)
  }

  /**
   * The outstanding page arrives: the suspended `loadIncidents` finishes and,
   * when a `handleRefresh` waited for it, that one finishes too and switches
   * the spinner off.
   */
  function Resume(s: Screen, response: Response): (r: Screen)
    requires s.pending.Some?
    ensures r.incidents == Complete(s, response).incidents
    ensures r.total == response.totalCount && r.page == s.pending.value.pageNumber + 1
    ensures !r.loading && r.pending == None && !r.awaitingRefresh
    ensures r.refreshing == (s.refreshing && !s.awaitingRefresh)
  {
    var t := Complete(s, response);
    if s.awaitingRefresh then t.(refreshing := false, awaitingRefresh := false) else t
  }

  /**
   * One event. Both the mount effect and `onEndReached` call `loadIncidents()`
   * with its defaults: the current cursor and no refresh. A response can only
   * arrive for an outstanding request; one that does not is ignored.
   */
  function Step(s: Screen, e: Event): Screen
  {
    match e
    case Mount => Load(s, s.page, false)
    case EndReached => Load(s, s.page, false)
    case PullToRefresh => Refresh(s)
    case Arrive(response) => if s.pending.Some? then Resume(s, response) else s
  }

  /** The events in order. */
  function Run(s: Screen, events: seq<Event>): Screen
    decreases |events|
  {
    if events == [] then s else Run(Step(s, events[0]), events[1..])
  }

  /** Events that start work but deliver no page. */
  predicate NoArrivals(events: seq<Event>)
  {
    forall i :: 0 <= i < |events| ==> !events[i].Arrive?
  }

  /** The records of the given pages, in order. */
  function Concat(pages: seq<Response>): seq<Incident>
  {
    if pages == [] then [] else pages[0].data + Concat(pages[1..])
  }

  /** The number of records received in the given pages. */
  function Received(pages: seq<Response>): nat
  {
    if pages == [] then 0 else |pages[0].data| + Received(pages[1..])
  }

  /** Scrolling to the end once per page, each time followed by that page's arrival. */
  function Scrolls(pages: seq<Response>): seq<Event>
  {
    if pages == [] then [] else [EndReached, Arrive(pages[0])] + Scrolls(pages[1..])
  }

  /** The total the screen holds before the scroll for `pages[k]`: its own, then each response's. */
  function TotalBefore(s: Screen, pages: seq<Response>, k: nat): int
    requires k <= |pages|
  {
    if k == 0 then s.total else pages[k - 1].totalCount
  }

  /**
   * No completion guard stops the scrolls of `pages` from state `s`: before
   * the scroll for `pages[k]`, the list holds the old records and those of the
   * first k pages, and that count is not a positive total held at that point.
   */
  predicate Unblocked(s: Screen, pages: seq<Response>)
  {
    forall k :: 0 <= k < |pages| ==>
      !(TotalBefore(s, pages, k) > 0 && |s.incidents| + Received(pages[..k]) == TotalBefore(s, pages, k))
  }

  // ---------------------------------------------------------------------------
  // Single transitions
  // ---------------------------------------------------------------------------

  /** The first render has an empty list, total 0, cursor 1, both flags off; the mount effect asks for page 1. */
  lemma MountRequestsFirstPage()
    ensures Valid(Initial()) && CanLoad(Initial())
    ensures var s := Step(Initial(), Mount);
      s.loading && s.pending == Some(Request(1, false)) && s.incidents == [] && !s.refreshing
  {
  }

  /**
   * While a request is outstanding, every trigger leaves the list, total,
   * cursor and request alone; a refresh pulled meanwhile is blocked and
   * switches the spinner off at once.
   */
  lemma {:induction false} InFlightGuard(s: Screen, events: seq<Event>)
    requires s.loading && NoArrivals(events)
    ensures var t := Run(s, events);
      t.incidents == s.incidents && t.total == s.total && t.page == s.page &&
      t.loading && t.pending == s.pending && t.awaitingRefresh == s.awaitingRefresh
    ensures Run(s, events).refreshing == if PullToRefresh in events then false else s.refreshing
    decreases |events|
  {
    if events != [] {
      assert !events[0].Arrive?;
      InFlightGuard(Step(s, events[0]), events[1..]);
      assert events == [events[0]] + events[1..];
    }
  }

  /**
   * Once the list holds exactly the positive total and nothing is outstanding,
   * no trigger issues a request, not even a refresh; the only trace a refresh
   * leaves is a spinner that is off.
   */
  lemma {:induction false} CompletionGuard(s: Screen, events: seq<Event>)
    requires Exhausted(s) && !s.loading && NoArrivals(events)
    ensures Run(s, events) == s.(refreshing := Run(s, events).refreshing)
    ensures Run(s, events).refreshing == if PullToRefresh in events then false else s.refreshing
    decreases |events|
  {
    if events != [] {
      assert !events[0].Arrive?;
      var t := Step(s, events[0]);
      CompletionGuard(t, events[1..]);
      assert events == [events[0]] + events[1..];
    }
  }

  /** The completion guard compares for equality: a zero total, or a list of any other length, never blocks. */
  lemma GuardNeedsExactTotal(s: Screen)
    requires !s.loading && (s.total <= 0 || |s.incidents| != s.total)
    ensures Step(s, EndReached).pending == Some(Request(s.page, false))
    ensures Step(s, PullToRefresh).pending == Some(Request(1, true))
  {
  }

  /**
   * A second pull during a refresh is stopped by the in-flight guard and
   * switches the spinner off, although the first refresh still waits for its page.
   */
  lemma SecondRefreshClearsSpinner(s: Screen)
    requires CanLoad(s)
    ensures var t := Run(s, [PullToRefresh, PullToRefresh]);
      !t.refreshing && t.loading && t.awaitingRefresh && t.pending == Some(Request(1, true))
  {
  }

  /**
   * A refresh that gets through replaces the list by page 1, whatever the
   * list held before, records the new total, leaves the cursor at 2 and ends
   * with both flags off.
   */
  lemma RefreshReplacesList(s: Screen, response: Response)
    requires CanLoad(s)
    ensures var t := Run(s, [PullToRefresh, Arrive(response)]);
      t.incidents == response.data && t.total == response.totalCount && t.page == 2 &&
      !t.loading && !t.refreshing && t.pending == None
  {
    RunPair(s, PullToRefresh, Arrive(response));
  }

  // ---------------------------------------------------------------------------
  // Runs of events
  // ---------------------------------------------------------------------------

  lemma RunPair(s: Screen, e1: Event, e2: Event)
    ensures Run(s, [e1, e2]) == Step(Step(s, e1), e2)
  {
    calc {
      Run(s, [e1, e2]);
      { assert [e1, e2][1..] == [e2]; }
      Run(Step(s, e1), [e2]);
      { assert [e2][1..] == []; }
      Run(Step(Step(s, e1), e2), []);
    }
  }

  lemma {:induction false} RunAppend(s: Screen, a: seq<Event>, b: seq<Event>)
    ensures Run(s, a + b) == Run(Run(s, a), b)
    decreases |a|
  {
    if a == [] {
      assert a + b == b;
    } else {
      assert (a + b)[0] == a[0] && (a + b)[1..] == a[1..] + b;
      RunAppend(Step(s, a[0]), a[1..], b);
    }
  }

  lemma StepPreservesValid(s: Screen, e: Event)
    requires Valid(s)
    ensures Valid(Step(s, e))
  {
  }

  /** Whatever happens, at most one request is outstanding and the loading flag says whether one is. */
  lemma {:induction false} RunPreservesValid(s: Screen, events: seq<Event>)
    requires Valid(s)
    ensures Valid(Run(s, events))
    decreases |events|
  {
    if events != [] {
      StepPreservesValid(s, events[0]);
      RunPreservesValid(Step(s, events[0]), events[1..]);
    }
  }

  lemma {:induction false} ConcatSize(pages: seq<Response>)
    ensures |Concat(pages)| == Received(pages)
  {
    if pages != [] {
      ConcatSize(pages[1..]);
    }
  }

  /** The records of the first k + 1 pages are those of the first page, then those of the next k. */
  lemma ReceivedPrefix(pages: seq<Response>, k: nat)
    requires k < |pages|
    ensures Received(pages[..k + 1]) == |pages[0].data| + Received(pages[1..][..k])
  {
    assert pages[..k + 1][1..] == pages[1..][..k];
  }

  /** After the scroll for the first page, the rest of the scrolls are still unblocked. */
  lemma UnblockedTail(s: Screen, pages: seq<Response>, u: Screen)
    requires pages != [] && Unblocked(s, pages)
    requires |u.incidents| == |s.incidents| + |pages[0].data| && u.total == pages[0].totalCount
    ensures Unblocked(u, pages[1..])
  {
    forall k | 0 <= k < |pages[1..]|
      ensures !(TotalBefore(u, pages[1..], k) > 0 &&
                |u.incidents| + Received(pages[1..][..k]) == TotalBefore(u, pages[1..], k))
    {
      ReceivedPrefix(pages, k);
      assert TotalBefore(u, pages[1..], k) == TotalBefore(s, pages, k + 1);
    }
  }

  /**
   * Scrolling page after page from an idle screen, while the completion guard
   * does not stop it: the list is the old list followed by every page received,
   * its length grows by the number of records received, the cursor moves one
   * page per response and the last response's total is recorded.
   */
  lemma {:induction false} ScrollAccumulates(s: Screen, pages: seq<Response>)
    requires !s.loading && s.pending == None && !s.awaitingRefresh && Unblocked(s, pages)
    ensures var t := Run(s, Scrolls(pages));
      t.incidents == s.incidents + Concat(pages) &&
      |t.incidents| == |s.incidents| + Received(pages) &&
      t.page == s.page + |pages| &&
      !t.loading && t.pending == None && t.refreshing == s.refreshing &&
      (pages != [] ==> t.total == pages[|pages| - 1].totalCount) &&
      (pages == [] ==> t.total == s.total)
    decreases |pages|
  {
    ConcatSize(pages);
    if pages != [] {
      var once := [EndReached, Arrive(pages[0])];
      var u := Run(s, once);
      assert !Exhausted(s) by {
        assert TotalBefore(s, pages, 0) == s.total && pages[..0] == [];
      }
      RunPair(s, EndReached, Arrive(pages[0]));
      assert u.incidents == s.incidents + pages[0].data;
      assert Scrolls(pages) == once + Scrolls(pages[1..]);
      RunAppend(s, once, Scrolls(pages[1..]));
      UnblockedTail(s, pages, u);
      ScrollAccumulates(u, pages[1..]);
      assert s.incidents + Concat(pages) == u.incidents + Concat(pages[1..]);
      if pages[1..] == [] {
        assert pages[|pages| - 1] == pages[0];
      } else {
        assert pages[1..][|pages[1..]| - 1] == pages[|pages| - 1];
      }
    }
  }

  /**
   * The completion guard compares for equality, so once the list is longer than
   * a positive total it never blocks again while the responses keep that total:
   * every scroll issues its request and the list keeps growing.
   */
  lemma {:induction false} OvershootNeverBlocks(s: Screen, pages: seq<Response>)
    requires !s.loading && s.pending == None && !s.awaitingRefresh
    requires 0 < s.total < |s.incidents|
    requires forall i :: 0 <= i < |pages| ==> pages[i].totalCount == s.total
    ensures Unblocked(s, pages)
    ensures var t := Run(s, Scrolls(pages));
      t.incidents == s.incidents + Concat(pages) && t.page == s.page + |pages| && t.total == s.total
  {
    assert Unblocked(s, pages) by {
      forall k | 0 <= k < |pages|
        ensures TotalBefore(s, pages, k) == s.total
      {
        if k > 0 {
          assert pages[k - 1].totalCount == s.total;
        }
      }
    }
    ScrollAccumulates(s, pages);
  }

  /**
   * A total of 5 delivered in pages of 2, 2 and 1: after the third page the
   * list holds all five records and the next end of list issues no request.
   */
  lemma FiveIncidentsInThreePages(a: Incident, b: Incident, c: Incident, d: Incident, e: Incident)
    ensures var first := Step(Initial(), Mount);
      var p1 := Response([a, b], 5);
      var p2 := Response([c, d], 5);
      var p3 := Response([e], 5);
      var done := Run(first, [Arrive(p1)] + Scrolls([p2, p3]));
      done.incidents == [a, b, c, d, e] && done.page == 4 && Exhausted(done) &&
      Step(done, EndReached) == done
  {
    var first := Step(Initial(), Mount);
    var p1 := Response([a, b], 5);
    var p2 := Response([c, d], 5);
    var p3 := Response([e], 5);
    var s1 := Step(first, Arrive(p1));
    assert s1.incidents == [a, b] && s1.page == 2 && !s1.loading;
    assert Unblocked(s1, [p2, p3]) by {
      assert [p2, p3][..0] == [] && [p2, p3][..1] == [p2];
      assert Received([p2]) == 2;
    }
    ScrollAccumulates(s1, [p2, p3]);
    var done := Run(s1, Scrolls([p2, p3]));
    assert Concat([p2, p3]) == [c, d, e] by {
      assert Concat([p3]) == [e] + Concat([]);
    }
    assert done.incidents == [a, b, c, d, e];
    RunAppend(first, [Arrive(p1)], Scrolls([p2, p3]));
    assert Run(first, [Arrive(p1)]) == s1;
  }
}
