/** The sports facade: adapts the events repository to the `Sports` service's requests and
    responses. Unlike the racing facade it has no not-found translation. */
module SportsService {
  import opened Outcomes
  import opened EventModel
  import RacingService

  datatype ListEventsRequest = ListEventsRequest(filter: Option<Filter>, orderBy: string)
  datatype ListEventsResponse = ListEventsResponse(events: seq<Event>)
  datatype GetEventRequest = GetEventRequest(id: Int64)
  /** The response wraps the repository's record pointer, which may be nil. */
  datatype GetEventResponse = GetEventResponse(event: Option<Event>)

  /** `ListEvents`: a repository error is returned unchanged with no response; otherwise the
      response wraps the repository's events, same length, order and fields. */
  function ListEvents(list: (Option<Filter>, string) -> ListReply<Event>,
                      req: ListEventsRequest): (r: Reply<ListEventsResponse>)
    ensures r.err == list(req.filter, req.orderBy).err
    ensures r.value.Some? <==> r.err.None?
    ensures r.value.Some? ==>
              var events := r.value.value.events;
              var items := list(req.filter, req.orderBy).items;
              |events| == |items| && forall i :: 0 <= i < |events| ==> events[i] == items[i]
  {
    var reply := list(req.filter, req.orderBy);
    if reply.err.Some? then Reply(None, reply.err)
    else Reply(Some(ListEventsResponse(reply.items)), None)
  }

  /** `GetEvent`: a repository error is returned unchanged; otherwise whatever the repository
      found, a nil record included, is wrapped with no error. No NotFound is ever made here. */
  function GetEvent(getByID: Int64 -> Reply<Event>, req: GetEventRequest): (r: Reply<GetEventResponse>)
    ensures r.err == getByID(req.id).err
    ensures r.value.Some? <==> r.err.None?
    ensures r.value.Some? ==> r.value.value.event == getByID(req.id).value
  {
    var reply := getByID(req.id);
    if reply.err.Some? then Reply(None, reply.err)
    else Reply(Some(GetEventResponse(reply.value)), None)
  }

  /** `ListEvents` consults the repository only with the request's own filter and ordering. */
  lemma ListEventsPassesRequestThrough(list1: (Option<Filter>, string) -> ListReply<Event>,
                                       list2: (Option<Filter>, string) -> ListReply<Event>,
                                       req: ListEventsRequest)
    requires list1(req.filter, req.orderBy) == list2(req.filter, req.orderBy)
    ensures ListEvents(list1, req) == ListEvents(list2, req)
  {
  }

  /** `GetEvent` consults the repository only with the request's id. */
  lemma GetEventPassesIdThrough(get1: Int64 -> Reply<Event>, get2: Int64 -> Reply<Event>,
                                req: GetEventRequest)
    requires get1(req.id) == get2(req.id)
    ensures GetEvent(get1, req) == GetEvent(get2, req)
  {
  }

  /** The two facades treat an absent record differently: the racing facade reports NotFound,
      the sports facade answers with an empty response and no error. */
  lemma AbsentRecordAsymmetry(getEvent: Int64 -> Reply<Event>,
                              getRace: Int64 -> Reply<RacingService.Race>, id: Int64)
    requires getEvent(id) == Reply(None, None)
    requires getRace(id) == Reply(None, None)
    ensures GetEvent(getEvent, GetEventRequest(id)) == Reply(Some(GetEventResponse(None)), None)
    ensures RacingService.GetRace(getRace, RacingService.GetRaceRequest(id))
              == Reply(None, Some(RacingService.RaceNotFound))
  {
  }
}
