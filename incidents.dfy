/**
 * The `Incidents` screen component as an object whose fields are its state
 * hooks. Each `set…` call of the component is an assignment to a field; the
 * `await` in `loadIncidents` splits that function, and `handleRefresh` which
 * awaits it, into the part before the page arrives and the part after it.
 */
module Incidents {
  import opened Pagination

  class Pager {
    var incidents: seq<Incident>
    var total: int
    var page: int
    var loading: bool
    var refreshing: bool
    /** The arguments of the `loadIncidents` call suspended at its `await`, if any. */
    var pending: Option<Request>
    /** Whether a `handleRefresh` call is suspended waiting for that load. */
    var awaitingRefresh: bool

    /** The component's state as a value of the state machine. */
    function Model(): Screen
      reads this
    {
      Screen(incidents, total, page, loading, refreshing, pending, awaitingRefresh)
    }

    ghost predicate Valid()
      reads this
    {
      Pagination.Valid(Model())
    }

    /** The initial values of the state hooks. */
    constructor ()
      ensures Valid() && Model() == Initial()
      ensures incidents == [] && total == 0 && page == 1 && !loading && !refreshing
    {
      incidents := [];
      total := 0;
      page := 1;
      loading := false;
      refreshing := false;
      pending := None;
      awaitingRefresh := false;
    }

    /**
     * `loadIncidents(pageNumber, shouldRefresh)` up to its `await`: it returns
     * early while a load is outstanding or once the list holds exactly the
     * positive total; otherwise it sets the loading flag and issues the request
     * for `pageNumber`.
     */
    method LoadIncidents(pageNumber: int, shouldRefresh: bool) returns (issued: bool)
      requires Valid()
      modifies this
      ensures Valid() && Model() == Load(old(Model()), pageNumber, shouldRefresh)
      ensures issued <==> !old(loading) && !(old(total) > 0 && |old(incidents)| == old(total))
      ensures !issued ==> Model() == old(Model())
      ensures issued ==> loading && pending == Some(Request(pageNumber, shouldRefresh))
      ensures incidents == old(incidents) && total == old(total) && page == old(page)
      ensures refreshing == old(refreshing) && awaitingRefresh == old(awaitingRefresh)
    {
      if loading {
        return false;
      }
      if total > 0 && |incidents| == total {
        return false;
      }
      loading := true;
      pending := Some(Request(pageNumber, shouldRefresh));
      issued := true;
    }

    /**
     * `loadIncidents` after its `await`: the page replaces the list on a
     * refresh and is appended otherwise; the response's total is recorded, the
     * cursor moves to the page after the one requested, and loading ends.
     * When a `handleRefresh` waits for this load, the invariant is restored
     * only once that refresh resumes too (see `OnResponse`).
     */
    method FinishLoad(response: Response)
      requires Valid() && pending.Some?
      modifies this
      ensures Model() == Complete(old(Model()), response)
      ensures !old(awaitingRefresh) ==> Valid()
      ensures old(pending.value.shouldRefresh) ==> incidents == response.data
      ensures !old(pending.value.shouldRefresh) ==> incidents == old(incidents) + response.data
      ensures total == response.totalCount && page == old(pending.value.pageNumber) + 1
      ensures !loading && pending == None
      ensures refreshing == old(refreshing) && awaitingRefresh == old(awaitingRefresh)
    {
      var request := pending.value;
      incidents := if request.shouldRefresh then response.data else incidents + response.data;
      total := response.totalCount;
      page := request.pageNumber + 1;
      loading := false;
      pending := None;
    }

    /**
     * `handleRefresh` up to its `await`: the spinner goes on and page 1 is
     * loaded with replacement. A load that is blocked returns at once, so the
     * spinner goes off again straight away.
     */
    method HandleRefresh() returns (issued: bool)
      requires Valid()
      modifies this
      ensures Valid() && Model() == Refresh(old(Model()))
      ensures issued <==> CanLoad(old(Model()))
      ensures issued ==> refreshing && awaitingRefresh && pending == Some(Request(1, true))
      ensures !issued ==> !refreshing && pending == old(pending) && loading == old(loading)
      ensures incidents == old(incidents) && total == old(total) && page == old(page)
    {
      refreshing := true;
      issued := LoadIncidents(1, true);
      if issued {
        awaitingRefresh := true;
      } else {
        refreshing := false;
      }
    }

    /** The mount effect: `loadIncidents()` with the current cursor and no refresh. */
    method OnMount() returns (issued: bool)
      requires Valid()
      modifies this
      ensures Valid() && Model() == Step(old(Model()), Mount)
      ensures issued <==> CanLoad(old(Model()))
      ensures issued ==> pending == Some(Request(old(page), false))
    {
      issued := LoadIncidents(page, false);
    }

    /** FlatList's `onEndReached`: `loadIncidents()` with the current cursor and no refresh. */
    method OnEndReached() returns (issued: bool)
      requires Valid()
      modifies this
      ensures Valid() && Model() == Step(old(Model()), EndReached)
      ensures issued <==> CanLoad(old(Model()))
      ensures issued ==> pending == Some(Request(old(page), false))
      ensures !issued ==> Model() == old(Model())
    {
      issued := LoadIncidents(page, false);
    }

    /**
     * The outstanding request resolves: the suspended `loadIncidents` finishes,
     * then the `handleRefresh` that waited for it, if any, switches the spinner off.
     */
    method OnResponse(response: Response)
      requires Valid() && pending.Some?
      modifies this
      ensures Valid() && Model() == Step(old(Model()), Arrive(response))
      ensures !loading && pending == None && !awaitingRefresh
      ensures refreshing == (old(refreshing) && !old(awaitingRefresh))
    {
      var waitingRefresh := awaitingRefresh;
      FinishLoad(response);
      if waitingRefresh {
        refreshing := false;
        awaitingRefresh := false;
      }
    }
  }

  /**
   * A session in which the screen mounts, a refresh is pulled while the first
   * page is still on its way, and the first page arrives: the pull is
   * stopped by the in-flight guard, so no other page is requested, and the
   * list is the first page alone.
   */
  method PullDuringFirstLoad(first: Response) returns (p: Pager)
    ensures p.Valid() && p.incidents == first.data && p.page == 2 && !p.loading && !p.refreshing
  {
    p := new Pager();
    var issued := p.OnMount();
    assert issued;
    issued := p.HandleRefresh();
    assert !issued && !p.refreshing;
    p.OnResponse(first);
  }
}
