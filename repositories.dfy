/** The repositories the services read and write, as maps from id to record,
    together with the queries the services issue against them. */
module Repositories {
  import opened Domain

  /** `countByStatusAndEventId`: the ids of the requests for `eventId` in `status`. */
  function IdsByStatusAndEventId(
    requests: map<int, ParticipationRequest>, status: RequestStatus, eventId: int): set<int>
  {
    set id | id in requests.Keys && requests[id].status == status && requests[id].event == eventId
  }

  function CountByStatusAndEventId(
    requests: map<int, ParticipationRequest>, status: RequestStatus, eventId: int): nat
  {
    |IdsByStatusAndEventId(requests, status, eventId)|
  }

  /** `existsByRequesterIdAndEventId`: any request, whatever its status. */
  predicate ExistsByRequesterIdAndEventId(
    requests: map<int, ParticipationRequest>, requesterId: int, eventId: int)
  {
    exists id :: id in requests && requests[id].requester == requesterId && requests[id].event == eventId
  }

  /** The database. Identity columns are modelled by one counter per table. */
  class Database {
    var users: map<int, User>
    var categories: map<int, Category>
    var events: map<int, Event>
    var requests: map<int, ParticipationRequest>
    var compilations: map<int, Compilation>
    var nextEventId: int
    var nextRequestId: int
    var nextCompilationId: int

    /** Every stored record carries its own key, and every key is below its table's counter;
        stored events keep the publication invariant, and compilations refer to stored events
        only (events are never deleted). */
    ghost predicate Valid()
      reads this
    {
      && (forall k :: k in events ==> events[k].id == Some(k) && k < nextEventId)
      && (forall k :: k in events ==> PublicationConsistent(events[k]))
      && (forall k :: k in requests ==> requests[k].id == k && k < nextRequestId)
      && (forall k :: k in compilations ==> compilations[k].id == Some(k) && k < nextCompilationId)
      && (forall k :: k in compilations ==> compilations[k].events <= events.Keys)
    }

    constructor (users: map<int, User>, categories: map<int, Category>)
      ensures Valid()
      ensures this.users == users && this.categories == categories
      ensures events == map[] && requests == map[] && compilations == map[]
    {
      this.users := users;
      this.categories := categories;
      events, requests, compilations := map[], map[], map[];
      nextEventId, nextRequestId, nextCompilationId := 1, 1, 1;
    }
  }
}
