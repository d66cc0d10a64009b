/** Conversions between the event entity and its transfer objects
    (EventMapper and the user and category mappers it calls). */
module EventMapper {
  import opened Domain

  /** The body of a create-event call. `requestModeration` may be absent. */
  datatype NewEventDto = NewEventDto(
    annotation: string,
    category: int,
    description: string,
    eventDate: Time,
    location: Coordinate,
    paid: bool,
    participantLimit: int,
    requestModeration: Option<bool>,
    title: string)

  datatype UserShortDto = UserShortDto(id: int, name: string)
  datatype CategoryDto = CategoryDto(id: int, name: string)

  datatype EventShortDto = EventShortDto(
    id: Option<int>,
    initiator: UserShortDto,
    annotation: string,
    category: CategoryDto,
    eventDate: Time,
    paid: bool,
    title: string,
    confirmedRequests: int,
    views: int)

  datatype EventFullDto = EventFullDto(
    id: Option<int>,
    initiator: UserShortDto,
    annotation: string,
    category: CategoryDto,
    description: string,
    eventDate: Time,
    location: Coordinate,
    paid: bool,
    participantLimit: int,
    requestModeration: bool,
    title: string,
    createdOn: Time,
    state: EventState,
    publishedOn: Option<Time>,
    confirmedRequests: int,
    views: int)

  function UserToShortDto(u: User): (r: UserShortDto)
    ensures r.id == u.id && r.name == u.name
  {
    UserShortDto(u.id, u.name)
  }

  function CategoryToCategoryDto(c: Category): (r: CategoryDto)
    ensures r.id == c.id && r.name == c.name
  {
    CategoryDto(c.id, c.name)
  }

  /** The list view of an event: identity, date, price flag and title, with the given counters. */
  function EventToShortDto(e: Event, confirmedRequests: int, hits: int): (r: EventShortDto)
    ensures r.id == e.id && r.eventDate == e.eventDate && r.paid == e.paid && r.title == e.title
    ensures r.annotation == e.annotation
    ensures r.initiator == UserToShortDto(e.initiator) && r.category == CategoryToCategoryDto(e.category)
    ensures r.confirmedRequests == confirmedRequests && r.views == hits
  {
    EventShortDto(
      e.id, UserToShortDto(e.initiator), e.annotation, CategoryToCategoryDto(e.category),
      e.eventDate, e.paid, e.title, confirmedRequests, hits)
  }

  /** The full view of an event: every stored field, with the given counters. */
  function EventToFullDto(e: Event, confirmedRequests: int, hits: int): (r: EventFullDto)
    ensures r.state == e.state && r.publishedOn == e.publishedOn
    ensures r.participantLimit == e.participantLimit && r.requestModeration == e.requestModeration
    ensures r.id == e.id && r.eventDate == e.eventDate && r.createdOn == e.createdOn
    ensures r.location == Coordinate(e.lat, e.lon)
    ensures r.annotation == e.annotation && r.description == e.description
    ensures r.paid == e.paid && r.title == e.title
    ensures r.initiator == UserToShortDto(e.initiator) && r.category == CategoryToCategoryDto(e.category)
    ensures r.confirmedRequests == confirmedRequests && r.views == hits
  {
    EventFullDto(
      e.id, UserToShortDto(e.initiator), e.annotation, CategoryToCategoryDto(e.category),
      e.description, e.eventDate, Coordinate(e.lat, e.lon), e.paid, e.participantLimit,
      e.requestModeration, e.title, e.createdOn, e.state, e.publishedOn, confirmedRequests, hits)
  }

  /** A new, not yet stored event built from a create request. The initiator and the
      category come from the arguments (already looked up), not from the request. */
  function EventFromNewEventDto(dto: NewEventDto, initiator: User, category: Category, now: Time): (r: Event)
    ensures r.id == None
    ensures r.state == EventState.PENDING && r.publishedOn == None && r.createdOn == now
    ensures PublicationConsistent(r)
    ensures r.initiator == initiator && r.category == category
    ensures r.requestModeration <==> dto.requestModeration != Some(false)
    ensures r.annotation == dto.annotation && r.description == dto.description
    ensures r.eventDate == dto.eventDate && r.participantLimit == dto.participantLimit
    ensures r.title == dto.title && r.paid == dto.paid
    ensures r.lat == dto.location.lat && r.lon == dto.location.lon
  {
    Event(
      None,
      initiator,
      dto.annotation,
      category,
      dto.description,
      dto.eventDate,
      dto.location.lat,
      dto.location.lon,
      dto.paid,
      dto.participantLimit,
      dto.requestModeration == None || dto.requestModeration.value,
      dto.title,
      now,
      EventState.PENDING,
      None)
  }

  /** The list view and the full view of one event agree on every field they share. */
  lemma ShortAndFullViewsAgree(e: Event, confirmedRequests: int, hits: int)
    ensures var s, f := EventToShortDto(e, confirmedRequests, hits), EventToFullDto(e, confirmedRequests, hits);
      && s.id == f.id && s.initiator == f.initiator && s.annotation == f.annotation
      && s.category == f.category && s.eventDate == f.eventDate && s.paid == f.paid
      && s.title == f.title && s.confirmedRequests == f.confirmedRequests && s.views == f.views
  {
  }
}
