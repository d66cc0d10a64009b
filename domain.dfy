/** Entities, enumerations and exceptions of the event service (the `model`
    packages and the `exception` package), shared by every other module. */
module Domain {

  datatype Option<+T> = None | Some(value: T) {
    /** The contained value, or `default` for None (Java's `getOrDefault`). */
    function GetOr(default: T): T {
      if Some? then value else default
    }
  }

  /** One constructor per exception class the core throws; the messages are not modelled. */
  datatype Error =
    | UserNotFound
    | EventNotFound
    | CategoryNotFound
    | ParticipationRequestNotFound
    | ParticipationRequestAlreadyExists
    | OperationConditionsFailure
    | EventDate
    | CompilationNotFound
    | CompilationAlreadyExists
    | IndexOutOfBounds           // java.lang.IndexOutOfBoundsException from List.get
    | StringIndexOutOfBounds     // java.lang.StringIndexOutOfBoundsException from String.substring
    | NumberFormat               // java.lang.NumberFormatException from Integer.parseInt

  datatype Result<+T> = Ok(value: T) | Err(error: Error)

  /** Time in whole minutes; "now" is always a parameter. */
  type Time = int

  /** Lead times of the event date checks, in minutes. */
  const OwnerLeadTime: int := 120
  const AdminLeadTime: int := 60

  datatype User = User(id: int, name: string)
  datatype Category = Category(id: int, name: string)
  datatype Coordinate = Coordinate(lat: real, lon: real)

  datatype EventState = PENDING | PUBLISHED | CANCELED
  datatype ActionState = SEND_TO_REVIEW | CANCEL_REVIEW | PUBLISH_EVENT | REJECT_EVENT
  datatype RequestStatus = PENDING | CONFIRMED | REJECTED | CANCELED

  /** The event entity. `id` is None until the repository assigns one. */
  datatype Event = Event(
    id: Option<int>,
    initiator: User,
    annotation: string,
    category: Category,
    description: string,
    eventDate: Time,
    lat: real,
    lon: real,
    paid: bool,
    participantLimit: int,
    requestModeration: bool,
    title: string,
    createdOn: Time,
    state: EventState,
    publishedOn: Option<Time>)

  /** Publication invariant: a publication time is recorded exactly for published events. */
  predicate PublicationConsistent(e: Event) {
    e.publishedOn.Some? <==> e.state == EventState.PUBLISHED
  }

  /** A participation request; the event and the requester are referred to by id. */
  datatype ParticipationRequest = ParticipationRequest(
    id: int,
    created: Time,
    event: int,
    requester: int,
    status: RequestStatus)

  /** A compilation of events; the events are referred to by id. */
  datatype Compilation = Compilation(
    id: Option<int>,
    pinned: bool,
    title: string,
    events: set<int>)
}
