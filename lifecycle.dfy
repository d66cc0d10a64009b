/** Event creation and the two edit paths, with the moderation state machine
    (EventServiceImpl: addEvent, updateEventByInitiator, updateEventByAdmin, updateEvent). */
module Lifecycle {
  import opened Domain
  import opened Repositories
  import opened EventMapper

  /** The body of an edit call, by the initiator or by an administrator; None stands for null. */
  datatype UpdateEventRequest = UpdateEventRequest(
    annotation: Option<string>,
    category: Option<int>,
    description: Option<string>,
    eventDate: Option<Time>,
    location: Option<Coordinate>,
    paid: Option<bool>,
    participantLimit: Option<int>,
    requestModeration: Option<bool>,
    title: Option<string>,
    stateAction: Option<ActionState>)

  /** The state transitions both edit paths allow: PUBLISHED is terminal, and CANCELED only goes
      back to PENDING (or stays). */
  predicate AllowedTransition(from: EventState, to: EventState) {
    || (from == EventState.PENDING && to == EventState.PENDING)
    || (from == EventState.PENDING && to == EventState.PUBLISHED)
    || (from == EventState.PENDING && to == EventState.CANCELED)
    || (from == EventState.CANCELED && to == EventState.PENDING)
    || (from == EventState.CANCELED && to == EventState.CANCELED)
  }

  /** The private `updateEvent`: every non-null field of the request replaces the event's,
      a given category id must exist, and nothing else changes. */
  function MergeFields(e: Event, p: UpdateEventRequest, categories: map<int, Category>): (r: Result<Event>)
    ensures r.Err? <==> p.category.Some? && p.category.value !in categories
    ensures r.Err? ==> r.error == CategoryNotFound
    ensures r.Ok? ==>
      && r.value.id == e.id && r.value.initiator == e.initiator && r.value.createdOn == e.createdOn
      && r.value.state == e.state && r.value.publishedOn == e.publishedOn && r.value.eventDate == e.eventDate
    ensures r.Ok? ==>
      && r.value.annotation == p.annotation.GetOr(e.annotation)
      && r.value.category == (if p.category.Some? then categories[p.category.value] else e.category)
      && r.value.description == p.description.GetOr(e.description)
      && (r.value.lat, r.value.lon) == (if p.location.Some? then (p.location.value.lat, p.location.value.lon) else (e.lat, e.lon))
      && r.value.paid == p.paid.GetOr(e.paid)
      && r.value.participantLimit == p.participantLimit.GetOr(e.participantLimit)
      && r.value.requestModeration == p.requestModeration.GetOr(e.requestModeration)
      && r.value.title == p.title.GetOr(e.title)
  {
    if p.category.Some? && p.category.value !in categories then Err(CategoryNotFound)
    else
      Ok(e.(
        annotation := p.annotation.GetOr(e.annotation),
        category := if p.category.Some? then categories[p.category.value] else e.category,
        description := p.description.GetOr(e.description),
        lat := if p.location.Some? then p.location.value.lat else e.lat,
        lon := if p.location.Some? then p.location.value.lon else e.lon,
        paid := p.paid.GetOr(e.paid),
        participantLimit := p.participantLimit.GetOr(e.participantLimit),
        requestModeration := p.requestModeration.GetOr(e.requestModeration),
        title := p.title.GetOr(e.title)))
  }

  /** Applying the same edit twice is the same as applying it once. */
  lemma MergeIsIdempotent(e: Event, p: UpdateEventRequest, categories: map<int, Category>)
    requires MergeFields(e, p, categories).Ok?
    ensures MergeFields(MergeFields(e, p, categories).value, p, categories) == MergeFields(e, p, categories)
  {
  }

  /** An edit with no fields leaves the event as it is. */
  lemma EmptyMergeIsIdentity(e: Event, categories: map<int, Category>)
    ensures MergeFields(e, UpdateEventRequest(None, None, None, None, None, None, None, None, None, None), categories) == Ok(e)
  {
  }

  /** The initiator's half of the state machine. */
  function OwnerAction(a: ActionState): (r: Result<EventState>)
    ensures r.Ok? <==> a == ActionState.CANCEL_REVIEW || a == ActionState.SEND_TO_REVIEW
    ensures r.Err? ==> r.error == OperationConditionsFailure
    ensures r.Ok? ==> r.value != EventState.PUBLISHED
    ensures a == ActionState.CANCEL_REVIEW ==> r == Ok(EventState.CANCELED)
    ensures a == ActionState.SEND_TO_REVIEW ==> r == Ok(EventState.PENDING)
  {
    match a
    case CANCEL_REVIEW => Ok(EventState.CANCELED)
    case SEND_TO_REVIEW => Ok(EventState.PENDING)
    case _ => Err(OperationConditionsFailure)
  }

  /** The administrator's half of the state machine. */
  function AdminAction(a: ActionState): (r: Result<EventState>)
    ensures r.Ok? <==> a == ActionState.REJECT_EVENT || a == ActionState.PUBLISH_EVENT
    ensures r.Err? ==> r.error == OperationConditionsFailure
    ensures a == ActionState.REJECT_EVENT ==> r == Ok(EventState.CANCELED)
    ensures a == ActionState.PUBLISH_EVENT ==> r == Ok(EventState.PUBLISHED)
  {
    match a
    case REJECT_EVENT => Ok(EventState.CANCELED)
    case PUBLISH_EVENT => Ok(EventState.PUBLISHED)
    case _ => Err(OperationConditionsFailure)
  }

  /** `addEvent` before the identity is assigned: the date rule is checked before the lookups. */
  function NewEventOutcome(
    users: map<int, User>, categories: map<int, Category>, userId: int, dto: NewEventDto, now: Time
  ): (r: Result<Event>)
    ensures dto.eventDate < now + OwnerLeadTime ==> r == Err(EventDate)
    ensures r.Ok? <==> dto.eventDate >= now + OwnerLeadTime && userId in users && dto.category in categories
    ensures r.Ok? ==> r.value == EventFromNewEventDto(dto, users[userId], categories[dto.category], now)
    ensures r.Ok? ==> r.value.state == EventState.PENDING && PublicationConsistent(r.value)
  {
    if dto.eventDate < now + OwnerLeadTime then Err(EventDate)
    else if userId !in users then Err(UserNotFound)
    else if dto.category !in categories then Err(CategoryNotFound)
    else Ok(EventFromNewEventDto(dto, users[userId], categories[dto.category], now))
  }

  /** `updateEventByInitiator`: the edited event, or the exception, in the order of the source. */
  function OwnerUpdateOutcome(
    users: map<int, User>, events: map<int, Event>, categories: map<int, Category>,
    initiatorId: int, eventId: int, p: UpdateEventRequest, now: Time
  ): (r: Result<Event>)
    ensures initiatorId !in users ==> r == Err(UserNotFound)
    ensures initiatorId in users && (eventId !in events || events[eventId].initiator.id != initiatorId) ==> r == Err(EventNotFound)
    ensures eventId in events && events[eventId].state == EventState.PUBLISHED ==> r.Err?
    ensures p.stateAction == Some(ActionState.PUBLISH_EVENT) || p.stateAction == Some(ActionState.REJECT_EVENT) ==> r.Err?
    ensures r.Ok? ==>
      && eventId in events && events[eventId].initiator.id == initiatorId
      && r.value.state != EventState.PUBLISHED
      && r.value.id == events[eventId].id && r.value.initiator == events[eventId].initiator
      && r.value.createdOn == events[eventId].createdOn && r.value.publishedOn == events[eventId].publishedOn
    ensures r.Ok? ==> match p.eventDate
      case Some(d) => d >= now + OwnerLeadTime && r.value.eventDate == d
      case None => r.value.eventDate == events[eventId].eventDate
    ensures r.Ok? ==> r.value.state == match p.stateAction
      case None => events[eventId].state
      case Some(a) => if a == ActionState.CANCEL_REVIEW then EventState.CANCELED else EventState.PENDING
    ensures r.Ok? <==>
      && initiatorId in users && eventId in events && events[eventId].initiator.id == initiatorId
      && events[eventId].state != EventState.PUBLISHED
      && MergeFields(events[eventId], p, categories).Ok?
      && (p.eventDate.None? || p.eventDate.value >= now + OwnerLeadTime)
      && (p.stateAction.None? || OwnerAction(p.stateAction.value).Ok?)
    ensures (&& initiatorId in users && eventId in events && events[eventId].initiator.id == initiatorId
             && events[eventId].state != EventState.PUBLISHED && MergeFields(events[eventId], p, categories).Err?)
      ==> r == MergeFields(events[eventId], p, categories)
    ensures r.Ok? ==> (r.value ==
      MergeFields(events[eventId], p, categories).value.(eventDate := r.value.eventDate, state := r.value.state))
    ensures (&& initiatorId in users && eventId in events && events[eventId].initiator.id == initiatorId
             && events[eventId].state == EventState.PUBLISHED)
      ==> r == Err(OperationConditionsFailure)
    ensures (&& initiatorId in users && eventId in events && events[eventId].initiator.id == initiatorId
             && events[eventId].state != EventState.PUBLISHED && MergeFields(events[eventId], p, categories).Ok?
             && p.eventDate.Some? && p.eventDate.value < now + OwnerLeadTime)
      ==> r == Err(EventDate)
    ensures (&& initiatorId in users && eventId in events && events[eventId].initiator.id == initiatorId
             && events[eventId].state != EventState.PUBLISHED && MergeFields(events[eventId], p, categories).Ok?
             && (p.eventDate.None? || p.eventDate.value >= now + OwnerLeadTime)
             && (p.stateAction == Some(ActionState.PUBLISH_EVENT) || p.stateAction == Some(ActionState.REJECT_EVENT)))
      ==> r == Err(OperationConditionsFailure)
  {
    if initiatorId !in users then Err(UserNotFound)
    else if eventId !in events || events[eventId].initiator.id != initiatorId then Err(EventNotFound)
    else if events[eventId].state == EventState.PUBLISHED then Err(OperationConditionsFailure)
    else match MergeFields(events[eventId], p, categories)
      case Err(e) => Err(e)
      case Ok(merged) =>
        if p.eventDate.Some? && p.eventDate.value < now + OwnerLeadTime then Err(EventDate)
        else
          var dated := if p.eventDate.Some? then merged.(eventDate := p.eventDate.value) else merged;
          if p.stateAction.None? then Ok(dated)
          else match OwnerAction(p.stateAction.value)
            case Err(e) => Err(e)
            case Ok(s) => Ok(dated.(state := s))
  }

  /** `updateEventByAdmin`: the edited event, or the exception, in the order of the source. */
  function AdminUpdateOutcome(
    events: map<int, Event>, categories: map<int, Category>, eventId: int, p: UpdateEventRequest, now: Time
  ): (r: Result<Event>)
    ensures eventId !in events ==> r == Err(EventNotFound)
    ensures eventId in events && events[eventId].state != EventState.PENDING ==> r == Err(OperationConditionsFailure)
    ensures p.stateAction == Some(ActionState.SEND_TO_REVIEW) || p.stateAction == Some(ActionState.CANCEL_REVIEW) ==> r.Err?
    ensures r.Ok? ==>
      && eventId in events && events[eventId].state == EventState.PENDING
      && r.value.id == events[eventId].id && r.value.initiator == events[eventId].initiator
      && r.value.createdOn == events[eventId].createdOn
    ensures r.Ok? ==> match p.eventDate
      case Some(d) => d >= now + AdminLeadTime && r.value.eventDate == d
      case None => r.value.eventDate == events[eventId].eventDate
    ensures r.Ok? ==> match p.stateAction
      case None => r.value.state == EventState.PENDING && r.value.publishedOn == events[eventId].publishedOn
      case Some(a) =>
        if a == ActionState.PUBLISH_EVENT then r.value.state == EventState.PUBLISHED && r.value.publishedOn == Some(now)
        else r.value.state == EventState.CANCELED && r.value.publishedOn == events[eventId].publishedOn
    ensures r.Ok? <==>
      && eventId in events && events[eventId].state == EventState.PENDING
      && MergeFields(events[eventId], p, categories).Ok?
      && (p.eventDate.None? || p.eventDate.value >= now + AdminLeadTime)
      && (p.stateAction.None? || AdminAction(p.stateAction.value).Ok?)
    ensures (eventId in events && events[eventId].state == EventState.PENDING
             && MergeFields(events[eventId], p, categories).Err?)
      ==> r == MergeFields(events[eventId], p, categories)
    ensures r.Ok? ==> r.value == MergeFields(events[eventId], p, categories).value.(
      eventDate := r.value.eventDate, state := r.value.state, publishedOn := r.value.publishedOn)
    ensures (&& eventId in events && events[eventId].state == EventState.PENDING
             && MergeFields(events[eventId], p, categories).Ok?
             && p.eventDate.Some? && p.eventDate.value < now + AdminLeadTime)
      ==> r == Err(EventDate)
    ensures (&& eventId in events && events[eventId].state == EventState.PENDING
             && MergeFields(events[eventId], p, categories).Ok?
             && (p.eventDate.None? || p.eventDate.value >= now + AdminLeadTime)
             && (p.stateAction == Some(ActionState.SEND_TO_REVIEW) || p.stateAction == Some(ActionState.CANCEL_REVIEW)))
      ==> r == Err(OperationConditionsFailure)
  {
    if eventId !in events then Err(EventNotFound)
    else if events[eventId].state != EventState.PENDING then Err(OperationConditionsFailure)
    else match MergeFields(events[eventId], p, categories)
      case Err(e) => Err(e)
      case Ok(merged) =>
        if p.eventDate.Some? && p.eventDate.value < now + AdminLeadTime then Err(EventDate)
        else
          var dated := if p.eventDate.Some? then merged.(eventDate := p.eventDate.value) else merged;
          if p.stateAction.None? then Ok(dated)
          else match AdminAction(p.stateAction.value)
            case Err(e) => Err(e)
            case Ok(s) =>
              if s == EventState.PUBLISHED then Ok(dated.(state := s, publishedOn := Some(now)))
              else Ok(dated.(state := s))
  }

  /** A published event can be edited by nobody. */
  lemma PublishedEventIsFrozen(
    users: map<int, User>, events: map<int, Event>, categories: map<int, Category>,
    initiatorId: int, eventId: int, p: UpdateEventRequest, q: UpdateEventRequest, now: Time)
    requires eventId in events && events[eventId].state == EventState.PUBLISHED
    ensures OwnerUpdateOutcome(users, events, categories, initiatorId, eventId, p, now).Err?
    ensures AdminUpdateOutcome(events, categories, eventId, q, now).Err?
  {
  }

  /** Every successful edit, by either role, follows the transition table. */
  lemma EditsFollowTransitionTable(
    users: map<int, User>, events: map<int, Event>, categories: map<int, Category>,
    initiatorId: int, eventId: int, p: UpdateEventRequest, now: Time)
    ensures var r := OwnerUpdateOutcome(users, events, categories, initiatorId, eventId, p, now);
      r.Ok? ==> AllowedTransition(events[eventId].state, r.value.state)
    ensures var r := AdminUpdateOutcome(events, categories, eventId, p, now);
      r.Ok? ==> AllowedTransition(events[eventId].state, r.value.state)
  {
  }

  /** Both edit paths keep "publishedOn is set exactly for PUBLISHED". */
  lemma EditsKeepPublicationConsistent(
    users: map<int, User>, events: map<int, Event>, categories: map<int, Category>,
    initiatorId: int, eventId: int, p: UpdateEventRequest, now: Time)
    requires eventId in events && PublicationConsistent(events[eventId])
    ensures var r := OwnerUpdateOutcome(users, events, categories, initiatorId, eventId, p, now);
      r.Ok? ==> PublicationConsistent(r.value)
    ensures var r := AdminUpdateOutcome(events, categories, eventId, p, now);
      r.Ok? ==> PublicationConsistent(r.value)
  {
  }

  class EventService {
    const db: Database

    constructor (db: Database)
      ensures this.db == db
    {
      this.db := db;
    }

    /** `addEvent`: the new event gets the next identity; the answer carries 0 confirmed and 0 views. */
    method AddEvent(userId: int, dto: NewEventDto, now: Time) returns (r: Result<EventFullDto>)
      requires db.Valid()
      modifies db`events, db`nextEventId
      ensures db.Valid()
      ensures match NewEventOutcome(db.users, db.categories, userId, dto, now)
        case Ok(e) =>
          var stored := e.(id := Some(old(db.nextEventId)));
          && r == Ok(EventToFullDto(stored, 0, 0))
          && old(db.nextEventId) !in old(db.events)
          && db.events == old(db.events)[old(db.nextEventId) := stored]
          && db.nextEventId == old(db.nextEventId) + 1
        case Err(err) =>
          r == Err(err) && db.events == old(db.events) && db.nextEventId == old(db.nextEventId)
    {
      if dto.eventDate < now + OwnerLeadTime {
        return Err(EventDate);
      }
      if userId !in db.users {
        return Err(UserNotFound);
      }
      var user := db.users[userId];
      if dto.category !in db.categories {
        return Err(CategoryNotFound);
      }
      var category := db.categories[dto.category];
      var event := EventFromNewEventDto(dto, user, category, now);
      event := event.(id := Some(db.nextEventId));
      db.events := db.events[db.nextEventId := event];
      db.nextEventId := db.nextEventId + 1;
      return Ok(EventToFullDto(event, 0, 0));
    }

    /** The private `updateEvent`, field by field through the setters. */
    method UpdateEvent(event: Event, p: UpdateEventRequest) returns (r: Result<Event>)
      ensures r == MergeFields(event, p, db.categories)
    {
      var e := event;
      if p.annotation.Some? {
        e := e.(annotation := p.annotation.value);
      }
      assert e == event.(annotation := p.annotation.GetOr(event.annotation));
      if p.category.Some? {
        if p.category.value !in db.categories {
          return Err(CategoryNotFound);
        }
        e := e.(category := db.categories[p.category.value]);
      }
      ghost var partial := MergeFields(event, p, db.categories).value;
      assert e == event.(annotation := partial.annotation, category := partial.category);
      if p.description.Some? {
        e := e.(description := p.description.value);
      }
      assert e == event.(annotation := partial.annotation, category := partial.category,
        description := partial.description);
      if p.location.Some? {
        e := e.(lat := p.location.value.lat);
        e := e.(lon := p.location.value.lon);
      }
      assert e == event.(annotation := partial.annotation, category := partial.category,
        description := partial.description, lat := partial.lat, lon := partial.lon);
      if p.paid.Some? {
        e := e.(paid := p.paid.value);
      }
      assert e == event.(annotation := partial.annotation, category := partial.category,
        description := partial.description, lat := partial.lat, lon := partial.lon, paid := partial.paid);
      if p.participantLimit.Some? {
        e := e.(participantLimit := p.participantLimit.value);
      }
      assert e == event.(annotation := partial.annotation, category := partial.category,
        description := partial.description, lat := partial.lat, lon := partial.lon, paid := partial.paid,
        participantLimit := partial.participantLimit);
      if p.requestModeration.Some? {
        e := e.(requestModeration := p.requestModeration.value);
      }
      assert e == partial.(title := event.title);
      if p.title.Some? {
        e := e.(title := p.title.value);
      }
      return Ok(e);
    }

    /** `updateEventByInitiator`. An exception rolls the transaction back, so the store is
        changed only on success. */
    method UpdateEventByInitiator(initiatorId: int, eventId: int, p: UpdateEventRequest, now: Time)
      returns (r: Result<EventFullDto>)
      requires db.Valid()
      modifies db`events
      ensures db.Valid()
      ensures match OwnerUpdateOutcome(db.users, old(db.events), db.categories, initiatorId, eventId, p, now)
        case Ok(e) => r == Ok(EventToFullDto(e, 0, 0)) && db.events == old(db.events)[eventId := e]
        case Err(err) => r == Err(err) && db.events == old(db.events)
    {
      if initiatorId !in db.users {
        return Err(UserNotFound);
      }
      if eventId !in db.events || db.events[eventId].initiator.id != initiatorId {
        return Err(EventNotFound);
      }
      var event := db.events[eventId];
      if event.state == EventState.PUBLISHED {
        return Err(OperationConditionsFailure);
      }
      var merged := UpdateEvent(event, p);
      if merged.Err? {
        return Err(merged.error);
      }
      event := merged.value;
      if p.eventDate.Some? {
        if p.eventDate.value < now + OwnerLeadTime {
          return Err(EventDate);
        }
        event := event.(eventDate := p.eventDate.value);
      }
      if p.stateAction.Some? {
        match p.stateAction.value {
          case CANCEL_REVIEW =>
            event := event.(state := EventState.CANCELED);
          case SEND_TO_REVIEW =>
            event := event.(state := EventState.PENDING);
          case _ =>
            return Err(OperationConditionsFailure);
        }
      }
      db.events := db.events[eventId := event];
      return Ok(EventToFullDto(event, 0, 0));
    }

    /** `updateEventByAdmin`. Publishing records `now` as the publication time. */
    method UpdateEventByAdmin(eventId: int, p: UpdateEventRequest, now: Time) returns (r: Result<EventFullDto>)
      requires db.Valid()
      modifies db`events
      ensures db.Valid()
      ensures match AdminUpdateOutcome(old(db.events), db.categories, eventId, p, now)
        case Ok(e) => r == Ok(EventToFullDto(e, 0, 0)) && db.events == old(db.events)[eventId := e]
        case Err(err) => r == Err(err) && db.events == old(db.events)
    {
      if eventId !in db.events {
        return Err(EventNotFound);
      }
      var event := db.events[eventId];
      if event.state != EventState.PENDING {
        return Err(OperationConditionsFailure);
      }
      var merged := UpdateEvent(event, p);
      if merged.Err? {
        return Err(merged.error);
      }
      event := merged.value;
      if p.eventDate.Some? {
        if p.eventDate.value < now + AdminLeadTime {
          return Err(EventDate);
        }
        event := event.(eventDate := p.eventDate.value);
      }
      if p.stateAction.Some? {
        match p.stateAction.value {
          case REJECT_EVENT =>
            event := event.(state := EventState.CANCELED);
          case PUBLISH_EVENT =>
            event := event.(state := EventState.PUBLISHED);
            event := event.(publishedOn := Some(now));
          case _ =>
            return Err(OperationConditionsFailure);
        }
      }
      db.events := db.events[eventId := event];
      return Ok(EventToFullDto(event, 0, 0));
    }
  }
}
