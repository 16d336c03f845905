/** The racing facade: adapts the races repository to the `Racing` service's requests and
    responses. The repository is a parameter; its source is not part of this model. */
module RacingService {
  import opened Outcomes

  /** The `ListRacesRequestFilter` message: the visibility choice, when one is set. */
  datatype RaceFilter = RaceFilter(visible: Option<bool>)

  /** The `racing.Race` message. */
  datatype Race = Race(id: Int64, meetingId: Int64, name: string, number: Int64, visible: bool,
                       advertisedStartTime: Timestamp, status: string)

  datatype ListRacesRequest = ListRacesRequest(filter: Option<RaceFilter>, orderBy: string)
  datatype ListRacesResponse = ListRacesResponse(races: seq<Race>)
  datatype GetRaceRequest = GetRaceRequest(id: Int64)
  datatype GetRaceResponse = GetRaceResponse(race: Race)

  /** The status error `GetRace` returns for an absent race. */
  const RaceNotFound: Error := NotFound("Race not found")

  /** `ListRaces`: a repository error is returned unchanged with no response; otherwise the
      response wraps exactly the repository's races. */
  function ListRaces(list: (Option<RaceFilter>, string) -> ListReply<Race>,
                     req: ListRacesRequest): (r: Reply<ListRacesResponse>)
    ensures r.err == list(req.filter, req.orderBy).err
    ensures r.value.Some? <==> r.err.None?
    ensures r.value.Some? ==> r.value.value.races == list(req.filter, req.orderBy).items
  {
    var reply := list(req.filter, req.orderBy);
    if reply.err.Some? then Reply(None, reply.err)
    else Reply(Some(ListRacesResponse(reply.items)), None)
  }

  /** `GetRace`: a repository error is returned unchanged; a missing race becomes a NotFound
      error; a found race is wrapped as it is. Exactly one of response and error is set. */
  function GetRace(getByID: Int64 -> Reply<Race>, req: GetRaceRequest): (r: Reply<GetRaceResponse>)
    ensures r.value.Some? <==> r.err.None?
    ensures getByID(req.id).err.Some? ==> r.err == getByID(req.id).err
    ensures getByID(req.id).err.None? && getByID(req.id).value.None? ==> r.err == Some(RaceNotFound)
    ensures getByID(req.id).err.None? && getByID(req.id).value.Some? ==>
              r.value == Some(GetRaceResponse(getByID(req.id).value.value))
  {
    var reply := getByID(req.id);
    if reply.err.Some? then Reply(None, reply.err)
    else if reply.value.None? then Reply(None, Some(RaceNotFound))
    else Reply(Some(GetRaceResponse(reply.value.value)), None)
  }

  /** `ListRaces` consults the repository only with the request's own filter and ordering. */
  lemma ListRacesPassesRequestThrough(list1: (Option<RaceFilter>, string) -> ListReply<Race>,
                                      list2: (Option<RaceFilter>, string) -> ListReply<Race>,
                                      req: ListRacesRequest)
    requires list1(req.filter, req.orderBy) == list2(req.filter, req.orderBy)
    ensures ListRaces(list1, req) == ListRaces(list2, req)
  {
  }

  /** `GetRace` consults the repository only with the request's id. */
  lemma GetRacePassesIdThrough(get1: Int64 -> Reply<Race>, get2: Int64 -> Reply<Race>,
                               req: GetRaceRequest)
    requires get1(req.id) == get2(req.id)
    ensures GetRace(get1, req) == GetRace(get2, req)
  {
  }
}
