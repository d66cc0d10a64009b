# Explore With Me: a verified model of the event service's core

Explore With Me is an event-sharing service. Users publish events. Administrators moderate them.
Other users ask to take part. Administrators group events into compilations.
This project models the decision logic of the main service (`ewm-svc`) in Dafny.
It proves that logic against the rules the service promises.

The project has these modules:

- **Domain** (`domain.dfy`) holds the entities as values: users, categories, events, participation
  requests and compilations. It also holds the three enumerations (event state, state action and
  request status), the exceptions as an `Error` datatype, and `Result`/`Option`.
- **Repositories** (`repositories.dfy`) holds the repository queries the services use, over maps
  from id to record. Its `Database` class keeps one map per table and one identity counter per
  table. Its invariant `Valid` says:
  - every record is stored under its own id;
  - stored events keep the publication invariant: `publishedOn` is set exactly for PUBLISHED events;
  - compilations refer to stored events only.
- **EventMapper** (`event_mapper.dfy`) converts between events and their transfer objects.
- **Admission** (`admission.dfy`) models `ParticipationRequestServiceImpl`:
  - creating a participation request under the eligibility rules;
  - cancellation by the requester;
  - batch moderation by the event's initiator.

  Batch moderation is imperative, as in the source:
  - the status loops run in place on an array;
  - the partition into confirmed and rejected lists is a loop;
  - the save is a loop over the processed list.

  Each method is proved equal to a specification function. The lemmas about those functions state
  the capacity rule: the confirmed requests of an event never exceed a positive participant limit.
  Creation, cancellation and moderation each preserve this rule.
- **Lifecycle** (`lifecycle.dfy`) models `EventServiceImpl`:
  - event creation;
  - the initiator's edit and the administrator's edit. Each is a partial "null means unchanged"
    field merge, then the date rule (2 hours for the initiator, 1 hour for the administrator),
    then the state action.

  The lemmas state the event state machine:
  - a published event is frozen;
  - every successful edit follows the transition table;
  - the publication invariant is kept.
- **Curation** (`curation.dfy`) models `CompilationServiceImpl`:
  - creation with defaults, partial update and deletion;
  - how a compilation's event list gets its counts. The view counts come from the statistics
    service through a `/events/<id>` URI: it is formatted on the way out and parsed on the way
    back. The round trip is proved, for every 32-bit id.

Modelling conventions:
- Exceptions become `Err` results.
- Every service method is transactional. An operation that fails therefore leaves the store as it was.
- Time is a whole number of minutes. The current time is a parameter, so "before now plus two hours"
  becomes `date < now + 120`.
- What the database returns in an unspecified order is a parameter whose contents are pinned by a
  predicate. This covers the pending requests of a batch and the iteration order of a compilation's
  event set.
- The statistics service's answer is also a parameter.

Behaviours of the code that the model keeps as written:
- **Negative vacancy.** Suppose the initiator confirms a batch when the event's vacancy
  (`limit - confirmed`) is negative. This happens when an edit lowers the limit below the
  confirmed count. It also happens on any event with a limit of 0 that has a participant,
  because `addParticipationRequest` admits requests to such an event as CONFIRMED. The second
  status loop then starts at a negative index, and the call fails with an
  `IndexOutOfBoundsException`, even for an empty batch (`UnlimitedEventWithParticipantsCannotConfirm`).
- **Unlimited events.** A limit of 0 means "unlimited". Confirming a batch on such an event
  succeeds only while it has no confirmed request. The vacancy is then 0, so every request is
  rejected (`UnlimitedEventConfirmsNobody`). Once the event has a participant, the call fails
  as described above.
- **Overbooked events.** `addParticipationRequest` treats the limit as reached only when the
  confirmed count equals it. Suppose an edit lowers the limit below the confirmed count. The event
  then admits again, and without moderation each new request is CONFIRMED, so the event becomes
  further overbooked (`OverbookedEventStillAdmits`). `AdmissionKeepsCapacity` therefore assumes
  that the event was within its limit beforehand.
- **Cancelled requests.** The duplicate check counts cancelled requests. A user who cancelled
  therefore cannot ask to join the same event again (`CancelledRequestStillBlocks`).
- **Renaming a compilation.** `updateCompilation` never checks title uniqueness itself. A unit
  test expects `CompilationAlreadyExists` on update when the title is taken, but the code makes
  no such check. The model follows the code.

## Model

| member | source | states |
|---|---|---|
| Admission.Moderated | ewm-svc/src/main/java/ru/practicum/ewm/participationrequest/service/ParticipationRequestServiceImpl.java:86-99 | The status loops succeed exactly for target REJECTED, or for CONFIRMED with a non-negative vacancy. CONFIRMED with a negative vacancy fails with IndexOutOfBounds. Any other target fails with OperationConditionsFailure. On success the list keeps its length and its requests, only statuses change, and each ends CONFIRMED or REJECTED. |
| Admission.Confirmed | ewm-svc/src/main/java/ru/practicum/ewm/participationrequest/service/ParticipationRequestServiceImpl.java:101-109 | The confirmed result list holds only CONFIRMED requests and is no longer than the processed list. |
| Admission.Rejected | ewm-svc/src/main/java/ru/practicum/ewm/participationrequest/service/ParticipationRequestServiceImpl.java:101-109 | The rejected result list holds only requests that did not end CONFIRMED and is no longer than the processed list. |
| Admission.PartitionIsComplete | ewm-svc/src/main/java/ru/practicum/ewm/participationrequest/service/ParticipationRequestServiceImpl.java:101-109 | The two result lists hold every processed request exactly once: a multiset partition. |
| Admission.PartitionSplitsAt | ewm-svc/src/main/java/ru/practicum/ewm/participationrequest/service/ParticipationRequestServiceImpl.java:101-109 | A processed list that is CONFIRMED up to position k and not after splits exactly at k, keeping list order. |
| Admission.ModerationConfirmsPrefix | ewm-svc/src/main/java/ru/practicum/ewm/participationrequest/service/ParticipationRequestServiceImpl.java:90-96 | CONFIRMED confirms exactly the first min(vacant, n) loaded requests and rejects the rest. At most `vacant` requests are newly confirmed. |
| Admission.ModerationRejectsAll | ewm-svc/src/main/java/ru/practicum/ewm/participationrequest/service/ParticipationRequestServiceImpl.java:87-89 | REJECTED confirms nobody and rejects every loaded request. |
| Admission.SaveAll | ewm-svc/src/main/java/ru/practicum/ewm/participationrequest/service/ParticipationRequestServiceImpl.java:100 | After `saveAll` every saved request's id is stored, no earlier id is lost, and every new id comes from the saved list. |
| Admission.SaveAllElsewhere | ewm-svc/src/main/java/ru/practicum/ewm/participationrequest/service/ParticipationRequestServiceImpl.java:100 | `saveAll` leaves every request that is not in the saved list untouched. |
| Admission.SaveAllStores | ewm-svc/src/main/java/ru/practicum/ewm/participationrequest/service/ParticipationRequestServiceImpl.java:100 | After `saveAll` of requests with distinct ids, each saved request is what is stored under its id. |
| Admission.SaveAllKeepsKeys | ewm-svc/src/main/java/ru/practicum/ewm/participationrequest/service/ParticipationRequestServiceImpl.java:100 | Saving requests that already exist adds no id and removes none. |
| Admission.SaveAllConfirmedCount | ewm-svc/src/main/java/ru/practicum/ewm/participationrequest/service/ParticipationRequestServiceImpl.java:100 | Saving previously unconfirmed requests of one event raises that event's confirmed count by the number saved as CONFIRMED. Every other event's count stays the same. |
| Admission.ModerationOutcome | ewm-svc/src/main/java/ru/practicum/ewm/participationrequest/service/ParticipationRequestServiceImpl.java:63-79 | The checks, in the source's order: unknown user gives UserNotFound, then unknown event gives EventNotFound. Then a caller who is not the initiator, moderation switched off, and a reached limit each give OperationConditionsFailure, in that order. Past those checks the outcome is the status pass itself. It succeeds exactly when the caller is the initiator, moderation is on, the limit is not already reached, and the status pass succeeds. The result is then `Moderated` of the loaded batch with vacancy `limit - confirmed`. |
| Admission.ModerationKeepsCapacity | ewm-svc/src/main/java/ru/practicum/ewm/participationrequest/service/ParticipationRequestServiceImpl.java:75-100 | A successful batch moderation keeps every event within its positive participant limit. |
| Admission.UnlimitedEventConfirmsNobody | ewm-svc/src/main/java/ru/practicum/ewm/participationrequest/service/ParticipationRequestServiceImpl.java:75-96 | On an event whose limit is 0, a successful CONFIRMED batch confirms nobody and rejects every loaded request. |
| Admission.UnlimitedEventWithParticipantsCannotConfirm | ewm-svc/src/main/java/ru/practicum/ewm/participationrequest/service/ParticipationRequestServiceImpl.java:75-99 | On an event whose limit is 0 that already has a confirmed participant, a CONFIRMED batch by its initiator fails with IndexOutOfBounds, whatever the batch. |
| Admission.ModerationRerunLoadsNothing | ewm-svc/src/main/java/ru/practicum/ewm/participationrequest/service/ParticipationRequestServiceImpl.java:80-100 | After a successful batch, the same pending-request query for the same ids returns nothing. |
| Admission.AdmissionDecision | ewm-svc/src/main/java/ru/practicum/ewm/participationrequest/service/ParticipationRequestServiceImpl.java:130-161 | A duplicate request (any status) gives AlreadyExists. Then an unknown event gives EventNotFound, before an unknown user gives UserNotFound. Then the requester being the initiator, an unpublished event, and a reached limit each give OperationConditionsFailure, in that order. Success holds iff there is no duplicate, the event and the user exist, the requester is not the initiator, the event is PUBLISHED, and the limit is not reached. The new request is PENDING iff moderation is on and the limit is positive, otherwise CONFIRMED. |
| Admission.AdmissionKeepsCapacity | ewm-svc/src/main/java/ru/practicum/ewm/participationrequest/service/ParticipationRequestServiceImpl.java:149-170 | Storing an admitted request keeps every event within its positive limit. |
| Admission.OverbookedEventStillAdmits | ewm-svc/src/main/java/ru/practicum/ewm/participationrequest/service/ParticipationRequestServiceImpl.java:149-161 | On a published event without moderation whose confirmed count already exceeds its positive limit, a new requester is admitted as CONFIRMED, and storing the request raises the confirmed count by one. |
| Admission.CancelOutcome | ewm-svc/src/main/java/ru/practicum/ewm/participationrequest/service/ParticipationRequestServiceImpl.java:177-187 | An unknown request gives ParticipationRequestNotFound. A request of another user gives OperationConditionsFailure. Success holds iff the request belongs to the user. The result is the stored request with status CANCELED. |
| Admission.CancelKeepsCapacity | ewm-svc/src/main/java/ru/practicum/ewm/participationrequest/service/ParticipationRequestServiceImpl.java:176-190 | Cancelling never raises a confirmed count, so every event stays within its limit. |
| Admission.CancelledRequestStillBlocks | ewm-svc/src/main/java/ru/practicum/ewm/participationrequest/service/ParticipationRequestServiceImpl.java:130-134 | After a successful cancellation, a new request by the same user for the same event fails with AlreadyExists. |
| Admission.ApplyStatus | ewm-svc/src/main/java/ru/practicum/ewm/participationrequest/service/ParticipationRequestServiceImpl.java:86-99 | The in-place status loops leave the array equal to `Moderated` of its old contents. On failure they report the same error and leave it unchanged. |
| Admission.Partition | ewm-svc/src/main/java/ru/practicum/ewm/participationrequest/service/ParticipationRequestServiceImpl.java:101-109 | The partition loop returns exactly `Confirmed` and `Rejected` of the processed list. |
| Admission.ParticipationRequestService.UpdateParticipationRequests | ewm-svc/src/main/java/ru/practicum/ewm/participationrequest/service/ParticipationRequestServiceImpl.java:58-115 | The result and new request table follow `ModerationOutcome`. On success it returns the confirmed and rejected lists, and the table is the old one with the processed requests saved. On failure the table is unchanged. |
| Admission.ParticipationRequestService.ProcessBatch | ewm-svc/src/main/java/ru/practicum/ewm/participationrequest/service/ParticipationRequestServiceImpl.java:86-109 | Status loops, save and partition together return `Confirmed`/`Rejected` of `Moderated` and store the processed requests. On failure they store nothing. |
| Admission.ParticipationRequestService.SaveAllRequests | ewm-svc/src/main/java/ru/practicum/ewm/participationrequest/service/ParticipationRequestServiceImpl.java:100 | The save loop leaves the request table equal to `SaveAll` of the old table. |
| Admission.ParticipationRequestService.AddParticipationRequest | ewm-svc/src/main/java/ru/practicum/ewm/participationrequest/service/ParticipationRequestServiceImpl.java:129-173 | Follows `AdmissionDecision`. On success the new request gets a fresh id and is stored, with the creation time, event, requester and decided status. The request id counter advances by one. On failure nothing is stored and the counter is unchanged. |
| Admission.ParticipationRequestService.CancelParticipationRequest | ewm-svc/src/main/java/ru/practicum/ewm/participationrequest/service/ParticipationRequestServiceImpl.java:176-190 | Follows `CancelOutcome`. Only on success is the cancelled request stored in place of the old one. |
| EventMapper.EventToShortDto | ewm-svc/src/main/java/ru/practicum/ewm/event/model/dto/EventMapper.java:15-27 | The short view copies id, annotation, event date, paid flag and title, plus the given confirmed and view counts. Its initiator and category are the mapped DTOs of the event's own. |
| EventMapper.EventToFullDto | ewm-svc/src/main/java/ru/practicum/ewm/event/model/dto/EventMapper.java:29-48 | The full view copies id, annotation, description, paid flag, title, state, publication time, limit, moderation flag, dates and location, plus the given counts. Its initiator and category are the mapped DTOs of the event's own. |
| EventMapper.EventFromNewEventDto | ewm-svc/src/main/java/ru/practicum/ewm/event/model/dto/EventMapper.java:50-68 | A new event has no id yet, is PENDING, is unpublished, was created now and is publication-consistent. It takes the given initiator and category. Moderation is on unless explicitly false. The other fields are copied. |
| EventMapper.ShortAndFullViewsAgree | ewm-svc/src/main/java/ru/practicum/ewm/event/model/dto/EventMapper.java:15-48 | The short and full views of one event agree on every field they share. |
| Lifecycle.MergeFields | ewm-svc/src/main/java/ru/practicum/ewm/event/service/EventServiceImpl.java:305-331 | Fails with CategoryNotFound iff a given category id is unknown. Otherwise every given field replaces the event's and every absent one keeps it. Id, initiator, creation time, state, publication time and date never change. |
| Lifecycle.MergeIsIdempotent | ewm-svc/src/main/java/ru/practicum/ewm/event/service/EventServiceImpl.java:316-330 | Applying the same edit twice equals applying it once. |
| Lifecycle.EmptyMergeIsIdentity | ewm-svc/src/main/java/ru/practicum/ewm/event/service/EventServiceImpl.java:316-330 | An edit with no fields leaves the event unchanged. |
| Lifecycle.OwnerAction | ewm-svc/src/main/java/ru/practicum/ewm/event/service/EventServiceImpl.java:171-185 | The initiator may only CANCEL_REVIEW (to CANCELED) or SEND_TO_REVIEW (to PENDING). Anything else fails with OperationConditionsFailure. The initiator never publishes. |
| Lifecycle.AdminAction | ewm-svc/src/main/java/ru/practicum/ewm/event/service/EventServiceImpl.java:285-300 | The administrator may only REJECT_EVENT (to CANCELED) or PUBLISH_EVENT (to PUBLISHED). Anything else fails with OperationConditionsFailure. |
| Lifecycle.NewEventOutcome | ewm-svc/src/main/java/ru/practicum/ewm/event/service/EventServiceImpl.java:119-129 | A date earlier than now plus two hours fails with EventDate before any lookup. Success holds iff the date is far enough ahead and the user and category exist. The event is then the mapped DTO: PENDING and publication-consistent. |
| Lifecycle.OwnerUpdateOutcome | ewm-svc/src/main/java/ru/practicum/ewm/event/service/EventServiceImpl.java:136-188 | An unknown user gives UserNotFound, then an event the user does not own gives EventNotFound. Then a published event gives OperationConditionsFailure, a date less than two hours ahead gives EventDate, and PUBLISH_EVENT or REJECT_EVENT gives OperationConditionsFailure, in that order. It succeeds exactly when the event is the user's own and not published, the field merge succeeds, a given date is at least now plus two hours, and any action is an initiator's. A failed merge (unknown category) is reported before a date error. On success the event is the merged event with only date and state reset. Identity, initiator, creation and publication times are kept. A given date is taken. The state follows the action or stays. |
| Lifecycle.AdminUpdateOutcome | ewm-svc/src/main/java/ru/practicum/ewm/event/service/EventServiceImpl.java:260-303 | An unknown event gives EventNotFound. A non-PENDING event gives OperationConditionsFailure. After the merge, a date less than one hour ahead gives EventDate, and then SEND_TO_REVIEW or CANCEL_REVIEW gives OperationConditionsFailure. It succeeds exactly when the event is PENDING, the field merge succeeds, a given date is at least now plus one hour, and any action is an administrator's. A failed merge is reported before a date error. On success the event is the merged event with only date, state and publication time reset. A given date is taken. PUBLISH_EVENT publishes with publication time now. REJECT_EVENT cancels. No action keeps it PENDING. |
| Lifecycle.PublishedEventIsFrozen | ewm-svc/src/main/java/ru/practicum/ewm/event/service/EventServiceImpl.java:150-151 | A PUBLISHED event can be edited neither by its initiator nor by an administrator (the admin check is at lines 264-265). |
| Lifecycle.EditsFollowTransitionTable | ewm-svc/src/main/java/ru/practicum/ewm/event/service/EventServiceImpl.java:171-185 | Every successful edit by either role moves along the transition table: PENDING to PENDING, PUBLISHED or CANCELED, and CANCELED to PENDING or CANCELED. Nothing leaves PUBLISHED. |
| Lifecycle.EditsKeepPublicationConsistent | ewm-svc/src/main/java/ru/practicum/ewm/event/service/EventServiceImpl.java:285-300 | Both edits keep "publication time set exactly for PUBLISHED events". |
| Lifecycle.EventService.AddEvent | ewm-svc/src/main/java/ru/practicum/ewm/event/service/EventServiceImpl.java:119-133 | Follows `NewEventOutcome`. On success the event is stored under a fresh id and returned as a full view with 0 confirmed and 0 views, and the event id counter advances by one. On failure nothing is stored and the counter is unchanged. The store invariant is kept. |
| Lifecycle.EventService.UpdateEvent | ewm-svc/src/main/java/ru/practicum/ewm/event/service/EventServiceImpl.java:305-331 | The field-by-field setters produce exactly `MergeFields`. |
| Lifecycle.EventService.UpdateEventByInitiator | ewm-svc/src/main/java/ru/practicum/ewm/event/service/EventServiceImpl.java:136-188 | Follows `OwnerUpdateOutcome`. The edited event is stored only on success. The store invariant is kept. |
| Lifecycle.EventService.UpdateEventByAdmin | ewm-svc/src/main/java/ru/practicum/ewm/event/service/EventServiceImpl.java:260-303 | Follows `AdminUpdateOutcome`. The edited event is stored only on success. The store invariant is kept. |
| Curation.NewCompilationOutcome | ewm-svc/src/main/java/ru/practicum/ewm/compilation/service/CompilationServiceImpl.java:82-97 | Fails with CompilationAlreadyExists iff the title is taken. Otherwise pinned is true only if given as true, a missing id list gives no events, and the events are exactly the stored ones among the given ids. |
| Curation.MergeCompilation | ewm-svc/src/main/java/ru/practicum/ewm/compilation/service/CompilationServiceImpl.java:118-126 | The merge keeps the id. Title and pinned change only when given. The event set is kept when no list is given; otherwise it is the set of stored events among the given ids. Stored-event sets stay stored. |
| Curation.UpdateCompilationOutcome | ewm-svc/src/main/java/ru/practicum/ewm/compilation/service/CompilationServiceImpl.java:110-128 | An unknown compilation gives CompilationNotFound. Otherwise the id is kept, title and pinned change only when given, and the events are kept when no list is given. The result is `MergeCompilation` of the stored compilation. When a list is given, the event set becomes the stored events among the requested ids. |
| Curation.UpdatedEventsAreRequested | ewm-svc/src/main/java/ru/practicum/ewm/compilation/service/CompilationServiceImpl.java:120-126 | When an id list is given, the stored events among those ids become the event set, whichever way the comparison with the current list goes. |
| Curation.DeleteCompilationOutcome | ewm-svc/src/main/java/ru/practicum/ewm/compilation/service/CompilationServiceImpl.java:101-106 | An unknown id gives CompilationNotFound. Otherwise exactly that id is removed and every other compilation is unchanged. |
| Curation.Digits | ewm-svc/src/main/java/ru/practicum/ewm/compilation/service/CompilationServiceImpl.java:140 | An id's decimal form is non-empty ASCII digits without a leading zero. |
| Curation.DigitsRoundTrip | ewm-svc/src/main/java/ru/practicum/ewm/compilation/service/CompilationServiceImpl.java:140-151 | Reading back the decimal digits of a number gives the number. |
| Curation.EventUri | ewm-svc/src/main/java/ru/practicum/ewm/compilation/service/CompilationServiceImpl.java:140 | An event URI starts with the 8 characters `/events/`. |
| Curation.ParseInt | ewm-svc/src/main/java/ru/practicum/ewm/compilation/service/CompilationServiceImpl.java:151 | Parsing succeeds only with a 32-bit result and otherwise fails with NumberFormat. A plain digit string within range parses to its value, and one above the range fails. An empty string or a lone sign fails. A first character that is neither a digit nor a sign fails. A non-digit after the first character fails. After `-`, digits give the negated value when it fits in 32 bits; after `+`, digits give their value when in range. Out-of-range signed values fail. |
| Curation.ParseUriId | ewm-svc/src/main/java/ru/practicum/ewm/compilation/service/CompilationServiceImpl.java:151 | A URI shorter than 8 characters fails with StringIndexOutOfBounds. Every other failure is NumberFormat. |
| Curation.UriRoundTrip | ewm-svc/src/main/java/ru/practicum/ewm/compilation/service/CompilationServiceImpl.java:139-151 | Parsing the id back out of the URI formatted for an event gives that event's id, for every 32-bit id. |
| Curation.StatsUris | ewm-svc/src/main/java/ru/practicum/ewm/compilation/service/CompilationServiceImpl.java:139-141 | One URI per event of the compilation, in iteration order. Every URI of an event with a 32-bit id parses back to that id. |
| Curation.HitsFailOnFirstBadUri | ewm-svc/src/main/java/ru/practicum/ewm/compilation/service/CompilationServiceImpl.java:150-151 | Filling the hits map succeeds iff every URI in the answer parses. Otherwise it fails with the error of the first URI that does not. |
| Curation.HitsFromStats | ewm-svc/src/main/java/ru/practicum/ewm/compilation/service/CompilationServiceImpl.java:150-151 | Building the hits map can only fail with the URI parser's errors: StringIndexOutOfBounds or NumberFormat. |
| Curation.HitsKeys | ewm-svc/src/main/java/ru/practicum/ewm/compilation/service/CompilationServiceImpl.java:150-151 | The hits map has an entry exactly for the ids parsed from the answer. |
| Curation.HitsLastEntryWins | ewm-svc/src/main/java/ru/practicum/ewm/compilation/service/CompilationServiceImpl.java:150-151 | An id's hits are those of the last answer entry naming it. |
| Curation.HitsErrorPersists | ewm-svc/src/main/java/ru/practicum/ewm/compilation/service/CompilationServiceImpl.java:150-151 | Once a prefix of the answer fails to parse, the whole answer fails with the same error. |
| Curation.EarliestPublished | ewm-svc/src/main/java/ru/practicum/ewm/compilation/service/CompilationServiceImpl.java:134-137 | The window start exists iff some event is published. It is the publication time of a published event and no later than any other's. |
| Curation.ShortDtos | ewm-svc/src/main/java/ru/practicum/ewm/compilation/service/CompilationServiceImpl.java:153-171 | One short view per event in iteration order. Each is the mapper's short view of that event, with the counts below. An unpublished event shows 0 confirmed and 0 views. A published one shows its confirmed count and its hits, or 0 when the answer does not mention it. |
| Curation.UnpublishedListIgnoresStats | ewm-svc/src/main/java/ru/practicum/ewm/compilation/service/CompilationServiceImpl.java:134-171 | With no published event the statistics answer is never read. The list cannot fail, and every entry shows 0 and 0. |
| Curation.ViewsOfReportedEvent | ewm-svc/src/main/java/ru/practicum/ewm/compilation/service/CompilationServiceImpl.java:139-164 | Suppose the answer names each requested URI at most once. Then a published event shows the hits reported for its own URI. |
| Curation.ViewsOfUnreportedEvent | ewm-svc/src/main/java/ru/practicum/ewm/compilation/service/CompilationServiceImpl.java:153-164 | Suppose the answer mentions only requested URIs. Then a published event it does not mention shows 0 views. |
| Curation.CompilationService.AddCompilation | ewm-svc/src/main/java/ru/practicum/ewm/compilation/service/CompilationServiceImpl.java:82-97 | Follows `NewCompilationOutcome`. On success the compilation is stored under a fresh id, and the compilation id counter advances by one. On a title clash nothing is stored and the counter is unchanged. The store invariant is kept. |
| Curation.CompilationService.DeleteCompilation | ewm-svc/src/main/java/ru/practicum/ewm/compilation/service/CompilationServiceImpl.java:101-106 | Follows `DeleteCompilationOutcome`: removes exactly that id, or fails and changes nothing. |
| Curation.CompilationService.UpdateCompilation | ewm-svc/src/main/java/ru/practicum/ewm/compilation/service/CompilationServiceImpl.java:110-128 | Follows `UpdateCompilationOutcome`. The merged compilation replaces the stored one on success. On failure nothing changes. The store invariant is kept. |
| Curation.ShortDtoListOutcome | ewm-svc/src/main/java/ru/practicum/ewm/compilation/service/CompilationServiceImpl.java:131-172 | The listing fails exactly when some event is published and some answer URI does not parse, and only with a parse error. On success it is `ShortDtos` of the listed events: with the empty hits map when no event is published, and otherwise with the hits map of the answer. This fixes each published event's confirmed count and views, and gives 0/0 to unpublished ones. |
| Curation.CompilationService.CollectHits | ewm-svc/src/main/java/ru/practicum/ewm/compilation/service/CompilationServiceImpl.java:150-151 | The hits loop computes exactly `HitsFromStats` of the answer. |
| Curation.CompilationService.GetEventShortDtoList | ewm-svc/src/main/java/ru/practicum/ewm/compilation/service/CompilationServiceImpl.java:131-172 | The statistics query is issued iff some event is published. It carries the earliest publication time, now, one URI per event and "unique". The resulting list, or the parse error, is `ShortDtoListOutcome`. |

## Left out

- Listing, paging, searching and the read-side getters of the three services are not modelled. These are `getCompilations`, `getCompilationById`, the event searches, and the requests of a user or an event. The same goes for users, categories and locations beyond lookup by id.
- The statistics service is an HTTP call whose JSON answer is converted by Jackson. The model takes the answer as a parameter and returns the query as a value. Recording hits (`saveHit`) and per-event views (`getViews`) are not modelled.
- Real time is whole minutes, and "now" is a parameter. Calendar arithmetic and clock precision are not modelled.
- Coordinates are reals that are only copied. Floating-point behaviour is not modelled.
- Concurrency between transactions is not modelled: two admissions racing past the limit check are outside the model. A failing call is assumed to roll back whole.
- Log messages and exception message texts are not modelled. Each exception class is a constructor of `Error`.
- Bean validation of request bodies (title and text lengths, a non-negative limit, non-null required fields) is not modelled. `NewEventDto.paid` and `participantLimit` are plain values, although Java allows null there.
- Entities are values, not managed objects. Aliasing between a loaded entity and the stored one is captured only by storing the result.
- Lifecycle.MergeFields: the model does not reject an edit that lowers `participantLimit` below the number already confirmed, and neither does the code. That is how a negative vacancy can arise.
- Curation.NewCompilationOutcome: the title clash stands for the database's unique constraint, which is not part of this model; any other integrity violation on save is not modelled.
- Curation.CompilationService.UpdateCompilation: the unique-title constraint on save is not modelled. Such a clash surfaces as the database's own exception, not as a service error.
- Curation.CompilationService.AddCompilation: the result is the saved compilation. Turning it into a `CompilationDto` with `getEventShortDtoList` is modelled separately by `GetEventShortDtoList`, so a statistics parse error during that step does not roll the creation back in the model. The same holds for `UpdateCompilation`.
- Curation.ParseInt: only ASCII digits are read. Java's `Integer.parseInt` also accepts other Unicode decimal digits.
- Integer ids are unbounded. The 32-bit range of Java's `Integer` appears only where parsing depends on it (the URI round trip). The counts compared with `participantLimit` do not wrap.
