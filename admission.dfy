/** Participation requests: creation under eligibility rules, cancellation by the
    requester, and the capacity-bounded batch moderation by the event's initiator
    (ParticipationRequestServiceImpl). */
module Admission {
  import opened Domain
  import opened Repositories

  type Requests = map<int, ParticipationRequest>

  datatype StatusUpdateRequest = StatusUpdateRequest(requestIds: seq<int>, status: RequestStatus)

  datatype StatusUpdateResult = StatusUpdateResult(
    confirmedRequests: seq<ParticipationRequest>,
    rejectedRequests: seq<ParticipationRequest>)

  function Min(a: int, b: int): int { if a <= b then a else b }

  function CountConfirmed(requests: Requests, eventId: int): nat {
    CountByStatusAndEventId(requests, RequestStatus.CONFIRMED, eventId)
  }

  /** The capacity rule: no event with a positive limit has more confirmed requests than its limit. */
  predicate WithinCapacity(events: map<int, Event>, requests: Requests) {
    forall eventId :: eventId in events && events[eventId].participantLimit > 0 ==>
      CountConfirmed(requests, eventId) <= events[eventId].participantLimit
  }

  /** What `findByIdInAndStatusAndEventId(ids, PENDING, eventId)` returns: each stored PENDING
      request of `eventId` whose id is in `ids`, exactly once, in an order the query does not fix. */
  predicate IsPendingBatch(requests: Requests, ids: seq<int>, eventId: int, loaded: seq<ParticipationRequest>) {
    && (forall i :: 0 <= i < |loaded| ==>
          && loaded[i].id in requests && requests[loaded[i].id] == loaded[i] && loaded[i].id in ids
          && loaded[i].status == RequestStatus.PENDING && loaded[i].event == eventId)
    && (forall i, j :: 0 <= i < j < |loaded| ==> loaded[i].id != loaded[j].id)
    && (forall id ::
          (id in requests && id in ids && requests[id].status == RequestStatus.PENDING && requests[id].event == eventId)
          ==> exists i :: 0 <= i < |loaded| && loaded[i].id == id)
  }

  /** `rs` with every status replaced by `s`. */
  function SetStatus(rs: seq<ParticipationRequest>, s: RequestStatus): (r: seq<ParticipationRequest>)
    ensures |r| == |rs|
    ensures forall i :: 0 <= i < |rs| ==> r[i] == rs[i].(status := s)
  {
    seq(|rs|, i requires 0 <= i < |rs| => rs[i].(status := s))
  }

  /** The status loop of the batch moderation, applied to the loaded requests in list order.
      A target other than REJECTED or CONFIRMED fails. For CONFIRMED, a negative `vacant`
      fails on `requests.get(vacant)` whatever the list holds, because `size > vacant`. */
  function Moderated(rs: seq<ParticipationRequest>, target: RequestStatus, vacant: int): (r: Result<seq<ParticipationRequest>>)
    ensures r.Ok? <==> target == RequestStatus.REJECTED || (target == RequestStatus.CONFIRMED && vacant >= 0)
    ensures r.Err? ==> r.error == if target == RequestStatus.CONFIRMED then IndexOutOfBounds else OperationConditionsFailure
    ensures r.Ok? ==> |r.value| == |rs|
    ensures r.Ok? ==> forall i :: 0 <= i < |rs| ==>
      r.value[i] == rs[i].(status := r.value[i].status)
      && (r.value[i].status == RequestStatus.CONFIRMED || r.value[i].status == RequestStatus.REJECTED)
  {
    if target == RequestStatus.REJECTED then
      Ok(SetStatus(rs, RequestStatus.REJECTED))
    else if target == RequestStatus.CONFIRMED then
      if vacant < 0 then Err(IndexOutOfBounds)
      else Ok(seq(|rs|, i requires 0 <= i < |rs| =>
                rs[i].(status := if i < vacant then RequestStatus.CONFIRMED else RequestStatus.REJECTED)))
    else
      Err(OperationConditionsFailure)
  }

  /** The processed requests that ended CONFIRMED, in list order. */
  function Confirmed(rs: seq<ParticipationRequest>): (r: seq<ParticipationRequest>)
    ensures |r| <= |rs|
    ensures forall i :: 0 <= i < |r| ==> r[i].status == RequestStatus.CONFIRMED
  {
    if rs == [] then []
    else
      var last := rs[|rs| - 1];
      Confirmed(rs[..|rs| - 1]) + (if last.status == RequestStatus.CONFIRMED then [last] else [])
  }

  /** The processed requests that did not end CONFIRMED, in list order. */
  function Rejected(rs: seq<ParticipationRequest>): (r: seq<ParticipationRequest>)
    ensures |r| <= |rs|
    ensures forall i :: 0 <= i < |r| ==> r[i].status != RequestStatus.CONFIRMED
  {
    if rs == [] then []
    else
      var last := rs[|rs| - 1];
      Rejected(rs[..|rs| - 1]) + (if last.status != RequestStatus.CONFIRMED then [last] else [])
  }

  /** The two result lists hold every processed request exactly once. */
  lemma {:induction false} PartitionIsComplete(rs: seq<ParticipationRequest>)
    ensures multiset(Confirmed(rs)) + multiset(Rejected(rs)) == multiset(rs)
    ensures |Confirmed(rs)| + |Rejected(rs)| == |rs|
  {
    if rs != [] {
      var init, last := rs[..|rs| - 1], rs[|rs| - 1];
      PartitionIsComplete(init);
      assert rs == init + [last];
      if last.status == RequestStatus.CONFIRMED {
        assert Confirmed(rs) == Confirmed(init) + [last] && Rejected(rs) == Rejected(init);
      } else {
        assert Confirmed(rs) == Confirmed(init) && Rejected(rs) == Rejected(init) + [last];
      }
    }
  }

  /** A list whose first `k` entries are CONFIRMED and whose others are not splits at `k`. */
  lemma PartitionSplitsAt(out: seq<ParticipationRequest>, k: nat)
    requires k <= |out|
    requires forall i :: 0 <= i < k ==> out[i].status == RequestStatus.CONFIRMED
    requires forall i :: k <= i < |out| ==> out[i].status != RequestStatus.CONFIRMED
    ensures Confirmed(out) == out[..k] && Rejected(out) == out[k..]
  {
    ConfirmedIsPrefix(out, k);
    RejectedIsSuffix(out, k);
  }

  lemma {:induction false} ConfirmedIsPrefix(out: seq<ParticipationRequest>, k: nat)
    requires k <= |out|
    requires forall i :: 0 <= i < k ==> out[i].status == RequestStatus.CONFIRMED
    requires forall i :: k <= i < |out| ==> out[i].status != RequestStatus.CONFIRMED
    ensures Confirmed(out) == out[..k]
  {
    if out != [] {
      var n := |out| - 1;
      var init := out[..n];
      assert forall i :: 0 <= i < n ==> init[i] == out[i];
      if k <= n {
        ConfirmedIsPrefix(init, k);
        assert Confirmed(out) == Confirmed(init);
        assert init[..k] == out[..k];
      } else {
        ConfirmedIsPrefix(init, n);
        assert Confirmed(out) == Confirmed(init) + [out[n]];
        assert out[..k] == init + [out[n]];
      }
    }
  }

  lemma {:induction false} RejectedIsSuffix(out: seq<ParticipationRequest>, k: nat)
    requires k <= |out|
    requires forall i :: 0 <= i < k ==> out[i].status == RequestStatus.CONFIRMED
    requires forall i :: k <= i < |out| ==> out[i].status != RequestStatus.CONFIRMED
    ensures Rejected(out) == out[k..]
  {
    if out != [] {
      var n := |out| - 1;
      var init := out[..n];
      assert forall i :: 0 <= i < n ==> init[i] == out[i];
      if k <= n {
        RejectedIsSuffix(init, k);
        assert Rejected(out) == Rejected(init) + [out[n]];
        assert out[k..] == init[k..] + [out[n]];
      } else {
        RejectedIsSuffix(init, n);
        assert Rejected(out) == Rejected(init);
        assert init[n..] == [];
      }
    }
  }

  /** CONFIRMED confirms exactly the first min(vacant, n) loaded requests in list order and
      rejects the rest; so at most `vacant` requests are newly confirmed. */
  lemma ModerationConfirmsPrefix(rs: seq<ParticipationRequest>, vacant: int)
    requires vacant >= 0
    ensures var out, m := Moderated(rs, RequestStatus.CONFIRMED, vacant).value, Min(vacant, |rs|);
      && Confirmed(out) == SetStatus(rs[..m], RequestStatus.CONFIRMED)
      && Rejected(out) == SetStatus(rs[m..], RequestStatus.REJECTED)
      && |Confirmed(out)| <= vacant
  {
    var out, m := Moderated(rs, RequestStatus.CONFIRMED, vacant).value, Min(vacant, |rs|);
    PartitionSplitsAt(out, m);
  }

  /** REJECTED rejects every loaded request and confirms none. */
  lemma ModerationRejectsAll(rs: seq<ParticipationRequest>, vacant: int)
    ensures var out := Moderated(rs, RequestStatus.REJECTED, vacant).value;
      Confirmed(out) == [] && Rejected(out) == SetStatus(rs, RequestStatus.REJECTED)
  {
    var out := Moderated(rs, RequestStatus.REJECTED, vacant).value;
    PartitionSplitsAt(out, 0);
  }

  /** `saveAll`: each saved request replaces the stored one with its id, in list order. */
  function SaveAll(requests: Requests, saved: seq<ParticipationRequest>): (r: Requests)
    ensures requests.Keys <= r.Keys
    ensures forall i :: 0 <= i < |saved| ==> saved[i].id in r
    ensures forall k :: k in r && k !in requests ==> exists i :: 0 <= i < |saved| && saved[i].id == k
  {
    if saved == [] then requests
    else
      var last := saved[|saved| - 1];
      SaveAll(requests, saved[..|saved| - 1])[last.id := last]
  }

  /** Entries whose id is not saved are untouched. */
  lemma {:induction false} SaveAllElsewhere(requests: Requests, saved: seq<ParticipationRequest>, k: int)
    requires forall i :: 0 <= i < |saved| ==> saved[i].id != k
    ensures k in SaveAll(requests, saved) <==> k in requests
    ensures k in requests ==> SaveAll(requests, saved)[k] == requests[k]
  {
    if saved != [] {
      SaveAllElsewhere(requests, saved[..|saved| - 1], k);
    }
  }

  /** With distinct ids, a saved request is what is stored under its id afterwards. */
  lemma {:induction false} SaveAllStores(requests: Requests, saved: seq<ParticipationRequest>, i: int)
    requires 0 <= i < |saved|
    requires forall a, b :: 0 <= a < b < |saved| ==> saved[a].id != saved[b].id
    ensures saved[i].id in SaveAll(requests, saved) && SaveAll(requests, saved)[saved[i].id] == saved[i]
  {
    var n := |saved| - 1;
    if i < n {
      SaveAllStores(requests, saved[..n], i);
    }
  }

  /** Saving requests that already exist keeps the key set and the key/id agreement. */
  lemma {:induction false} SaveAllKeepsKeys(requests: Requests, saved: seq<ParticipationRequest>)
    requires forall i :: 0 <= i < |saved| ==> saved[i].id in requests
    ensures SaveAll(requests, saved).Keys == requests.Keys
    ensures forall k :: k in SaveAll(requests, saved) ==>
      SaveAll(requests, saved)[k].id == k || (k in requests && SaveAll(requests, saved)[k] == requests[k])
  {
    if saved != [] {
      SaveAllKeepsKeys(requests, saved[..|saved| - 1]);
    }
  }

  /** Saving previously unconfirmed requests of one event raises that event's confirmed count
      by the number of them saved as CONFIRMED, and leaves every other event's count alone. */
  lemma {:induction false} SaveAllConfirmedCount(requests: Requests, saved: seq<ParticipationRequest>, eventId: int, e: int)
    requires forall i :: 0 <= i < |saved| ==>
      saved[i].id in requests && requests[saved[i].id].status != RequestStatus.CONFIRMED && saved[i].event == eventId
    requires forall a, b :: 0 <= a < b < |saved| ==> saved[a].id != saved[b].id
    ensures CountConfirmed(SaveAll(requests, saved), e) ==
      CountConfirmed(requests, e) + (if e == eventId then |Confirmed(saved)| else 0)
  {
    if saved != [] {
      var n := |saved| - 1;
      var init, x := saved[..n], saved[n];
      SaveAllConfirmedCount(requests, init, eventId, e);
      var before := SaveAll(requests, init);
      assert SaveAll(requests, saved) == before[x.id := x];
      SaveAllElsewhere(requests, init, x.id);
      var old_ids := IdsByStatusAndEventId(before, RequestStatus.CONFIRMED, e);
      var new_ids := IdsByStatusAndEventId(before[x.id := x], RequestStatus.CONFIRMED, e);
      assert x.id !in old_ids;
      if x.status == RequestStatus.CONFIRMED && x.event == e {
        assert new_ids == old_ids + {x.id};
      } else {
        assert new_ids == old_ids;
      }
    }
  }

  /** The whole batch moderation outcome on the stored state: the processed requests with
      their final statuses, or the exception, checked in the order of the source. */
  function ModerationOutcome(
    users: map<int, User>, events: map<int, Event>, requests: Requests,
    initiatorId: int, eventId: int, target: RequestStatus, loaded: seq<ParticipationRequest>
  ): (r: Result<seq<ParticipationRequest>>)
    ensures initiatorId !in users ==> r == Err(UserNotFound)
    ensures initiatorId in users && eventId !in events ==> r == Err(EventNotFound)
    ensures r.Ok? ==> eventId in events && events[eventId].initiator.id == initiatorId && events[eventId].requestModeration
    ensures r.Ok? ==> var limit := events[eventId].participantLimit;
      !(limit > 0 && limit == CountConfirmed(requests, eventId))
    ensures r.Ok? ==> |r.value| == |loaded|
    ensures r.Ok? <==>
      && initiatorId in users && eventId in events
      && events[eventId].initiator.id == initiatorId && events[eventId].requestModeration
      && !(events[eventId].participantLimit > 0 && events[eventId].participantLimit == CountConfirmed(requests, eventId))
      && Moderated(loaded, target, events[eventId].participantLimit - CountConfirmed(requests, eventId)).Ok?
    ensures r.Ok? ==> r == Moderated(loaded, target, events[eventId].participantLimit - CountConfirmed(requests, eventId))
    ensures (initiatorId in users && eventId in events && events[eventId].initiator.id != initiatorId)
      ==> r == Err(OperationConditionsFailure)
    ensures (&& initiatorId in users && eventId in events && events[eventId].initiator.id == initiatorId
             && !events[eventId].requestModeration)
      ==> r == Err(OperationConditionsFailure)
    ensures (&& initiatorId in users && eventId in events && events[eventId].initiator.id == initiatorId
             && events[eventId].requestModeration
             && events[eventId].participantLimit > 0 && events[eventId].participantLimit == CountConfirmed(requests, eventId))
      ==> r == Err(OperationConditionsFailure)
    ensures (&& initiatorId in users && eventId in events && events[eventId].initiator.id == initiatorId
             && events[eventId].requestModeration
             && !(events[eventId].participantLimit > 0 && events[eventId].participantLimit == CountConfirmed(requests, eventId)))
      ==> r == Moderated(loaded, target, events[eventId].participantLimit - CountConfirmed(requests, eventId))
  {
    if initiatorId !in users then Err(UserNotFound)
    else if eventId !in events then Err(EventNotFound)
    else
      var event := events[eventId];
      if event.initiator.id != initiatorId then Err(OperationConditionsFailure)
      else if !event.requestModeration then Err(OperationConditionsFailure)
      else
        var limit := event.participantLimit;
        var vacant := limit - CountConfirmed(requests, eventId);
        if limit > 0 && vacant == 0 then Err(OperationConditionsFailure)
        else Moderated(loaded, target, vacant)
  }

  /** A successful batch moderation keeps every event within its limit. */
  lemma ModerationKeepsCapacity(
    users: map<int, User>, events: map<int, Event>, requests: Requests,
    initiatorId: int, eventId: int, ids: seq<int>, target: RequestStatus, loaded: seq<ParticipationRequest>)
    requires IsPendingBatch(requests, ids, eventId, loaded)
    requires WithinCapacity(events, requests)
    requires ModerationOutcome(users, events, requests, initiatorId, eventId, target, loaded).Ok?
    ensures WithinCapacity(events, SaveAll(requests, ModerationOutcome(users, events, requests, initiatorId, eventId, target, loaded).value))
  {
    var out := ModerationOutcome(users, events, requests, initiatorId, eventId, target, loaded).value;
    var limit := events[eventId].participantLimit;
    var vacant := limit - CountConfirmed(requests, eventId);
    assert out == Moderated(loaded, target, vacant).value;
    if target == RequestStatus.CONFIRMED {
      ModerationConfirmsPrefix(loaded, vacant);
    } else {
      ModerationRejectsAll(loaded, vacant);
    }
    forall e | e in events && events[e].participantLimit > 0
      ensures CountConfirmed(SaveAll(requests, out), e) <= events[e].participantLimit
    {
      SaveAllConfirmedCount(requests, out, eventId, e);
    }
  }

  /** On an event whose limit is 0 ("unlimited"), a confirming batch that succeeds confirms
      nobody: success needs a vacancy of at least 0, which here means no confirmed request yet,
      and that vacancy of 0 rejects every loaded request. */
  lemma UnlimitedEventConfirmsNobody(
    users: map<int, User>, events: map<int, Event>, requests: Requests,
    initiatorId: int, eventId: int, loaded: seq<ParticipationRequest>)
    requires ModerationOutcome(users, events, requests, initiatorId, eventId, RequestStatus.CONFIRMED, loaded).Ok?
    requires events[eventId].participantLimit == 0
    ensures var out := ModerationOutcome(users, events, requests, initiatorId, eventId, RequestStatus.CONFIRMED, loaded).value;
      Confirmed(out) == [] && Rejected(out) == SetStatus(loaded, RequestStatus.REJECTED)
  {
    var vacant := 0 - CountConfirmed(requests, eventId);
    assert vacant == 0;
    ModerationConfirmsPrefix(loaded, 0);
  }

  /** On an event whose limit is 0 that already has a participant (every request to it is
      admitted CONFIRMED), the vacancy is negative, so confirming any batch, even an empty one,
      fails with IndexOutOfBounds once the earlier checks pass. */
  lemma UnlimitedEventWithParticipantsCannotConfirm(
    users: map<int, User>, events: map<int, Event>, requests: Requests,
    initiatorId: int, eventId: int, loaded: seq<ParticipationRequest>)
    requires initiatorId in users && eventId in events
    requires events[eventId].initiator.id == initiatorId && events[eventId].requestModeration
    requires events[eventId].participantLimit == 0 && CountConfirmed(requests, eventId) > 0
    ensures ModerationOutcome(users, events, requests, initiatorId, eventId, RequestStatus.CONFIRMED, loaded)
      == Err(IndexOutOfBounds)
  {
    assert 0 - CountConfirmed(requests, eventId) < 0;
  }

  /** Running the same batch again finds nothing to process: every request of the batch has
      left PENDING, so the repeated query is empty and a repeated success returns two empty lists. */
  lemma ModerationRerunLoadsNothing(
    users: map<int, User>, events: map<int, Event>, requests: Requests,
    initiatorId: int, eventId: int, ids: seq<int>, target: RequestStatus,
    loaded: seq<ParticipationRequest>, reloaded: seq<ParticipationRequest>)
    requires IsPendingBatch(requests, ids, eventId, loaded)
    requires ModerationOutcome(users, events, requests, initiatorId, eventId, target, loaded).Ok?
    requires IsPendingBatch(
      SaveAll(requests, ModerationOutcome(users, events, requests, initiatorId, eventId, target, loaded).value),
      ids, eventId, reloaded)
    ensures reloaded == []
  {
    var out := ModerationOutcome(users, events, requests, initiatorId, eventId, target, loaded).value;
    var after := SaveAll(requests, out);
    if reloaded != [] {
      var id := reloaded[0].id;
      assert id in after && after[id].status == RequestStatus.PENDING;
      if i :| 0 <= i < |out| && out[i].id == id {
        SaveAllStores(requests, out, i);
      } else {
        SaveAllElsewhere(requests, out, id);
      }
      assert false;
    }
  }

  /** The checks of `addParticipationRequest` in the order of the source, and the initial status. */
  function AdmissionDecision(
    users: map<int, User>, events: map<int, Event>, requests: Requests, requesterId: int, eventId: int
  ): (r: Result<RequestStatus>)
    ensures ExistsByRequesterIdAndEventId(requests, requesterId, eventId) ==> r == Err(ParticipationRequestAlreadyExists)
    ensures r.Ok? <==>
      && !ExistsByRequesterIdAndEventId(requests, requesterId, eventId)
      && eventId in events && requesterId in users
      && events[eventId].initiator.id != requesterId
      && events[eventId].state == EventState.PUBLISHED
      && !(events[eventId].participantLimit > 0 && CountConfirmed(requests, eventId) == events[eventId].participantLimit)
    ensures r.Ok? ==> (r.value == RequestStatus.PENDING <==>
      events[eventId].requestModeration && events[eventId].participantLimit > 0)
    ensures r.Ok? ==> r.value == RequestStatus.PENDING || r.value == RequestStatus.CONFIRMED
    ensures (!ExistsByRequesterIdAndEventId(requests, requesterId, eventId) && eventId !in events)
      ==> r == Err(EventNotFound)
    ensures (!ExistsByRequesterIdAndEventId(requests, requesterId, eventId) && eventId in events && requesterId !in users)
      ==> r == Err(UserNotFound)
    ensures (&& !ExistsByRequesterIdAndEventId(requests, requesterId, eventId) && eventId in events && requesterId in users
             && events[eventId].initiator.id == requesterId)
      ==> r == Err(OperationConditionsFailure)
    ensures (&& !ExistsByRequesterIdAndEventId(requests, requesterId, eventId) && eventId in events && requesterId in users
             && events[eventId].initiator.id != requesterId && events[eventId].state != EventState.PUBLISHED)
      ==> r == Err(OperationConditionsFailure)
    ensures (&& !ExistsByRequesterIdAndEventId(requests, requesterId, eventId) && eventId in events && requesterId in users
             && events[eventId].initiator.id != requesterId && events[eventId].state == EventState.PUBLISHED
             && events[eventId].participantLimit > 0 && CountConfirmed(requests, eventId) == events[eventId].participantLimit)
      ==> r == Err(OperationConditionsFailure)
  {
    if ExistsByRequesterIdAndEventId(requests, requesterId, eventId) then Err(ParticipationRequestAlreadyExists)
    else if eventId !in events then Err(EventNotFound)
    else if requesterId !in users then Err(UserNotFound)
    else
      var event := events[eventId];
      if event.initiator.id == requesterId then Err(OperationConditionsFailure)
      else if event.state != EventState.PUBLISHED then Err(OperationConditionsFailure)
      else
        var limit := event.participantLimit;
        if limit > 0 && CountConfirmed(requests, eventId) == limit then Err(OperationConditionsFailure)
        else Ok(if event.requestModeration && limit > 0 then RequestStatus.PENDING else RequestStatus.CONFIRMED)
  }

  /** Storing an admitted request keeps every event within its limit. */
  lemma AdmissionKeepsCapacity(
    users: map<int, User>, events: map<int, Event>, requests: Requests,
    requesterId: int, eventId: int, newId: int, now: Time)
    requires WithinCapacity(events, requests)
    requires newId !in requests
    requires AdmissionDecision(users, events, requests, requesterId, eventId).Ok?
    ensures var status := AdmissionDecision(users, events, requests, requesterId, eventId).value;
      WithinCapacity(events, requests[newId := ParticipationRequest(newId, now, eventId, requesterId, status)])
  {
    var status := AdmissionDecision(users, events, requests, requesterId, eventId).value;
    var x := ParticipationRequest(newId, now, eventId, requesterId, status);
    forall e | e in events && events[e].participantLimit > 0
      ensures CountConfirmed(requests[newId := x], e) <= events[e].participantLimit
    {
      var old_ids := IdsByStatusAndEventId(requests, RequestStatus.CONFIRMED, e);
      var new_ids := IdsByStatusAndEventId(requests[newId := x], RequestStatus.CONFIRMED, e);
      if status == RequestStatus.CONFIRMED && e == eventId {
        assert new_ids == old_ids + {newId};
      } else {
        assert new_ids == old_ids;
      }
    }
  }

  /** The limit test is an equality, so an event whose limit was lowered below its confirmed
      count admits again: without moderation the request is CONFIRMED and the event is
      overbooked by one more. */
  lemma OverbookedEventStillAdmits(
    users: map<int, User>, events: map<int, Event>, requests: Requests,
    requesterId: int, eventId: int, newId: int, now: Time)
    requires !ExistsByRequesterIdAndEventId(requests, requesterId, eventId)
    requires eventId in events && requesterId in users
    requires events[eventId].initiator.id != requesterId && events[eventId].state == EventState.PUBLISHED
    requires !events[eventId].requestModeration
    requires 0 < events[eventId].participantLimit < CountConfirmed(requests, eventId)
    requires newId !in requests
    ensures AdmissionDecision(users, events, requests, requesterId, eventId) == Ok(RequestStatus.CONFIRMED)
    ensures var x := ParticipationRequest(newId, now, eventId, requesterId, RequestStatus.CONFIRMED);
      CountConfirmed(requests[newId := x], eventId) == CountConfirmed(requests, eventId) + 1
  {
    var x := ParticipationRequest(newId, now, eventId, requesterId, RequestStatus.CONFIRMED);
    var old_ids := IdsByStatusAndEventId(requests, RequestStatus.CONFIRMED, eventId);
    var new_ids := IdsByStatusAndEventId(requests[newId := x], RequestStatus.CONFIRMED, eventId);
    assert new_ids == old_ids + {newId};
  }

  /** The checks of `cancelParticipationRequest` and the cancelled request. */
  function CancelOutcome(requests: Requests, userId: int, requestId: int): (r: Result<ParticipationRequest>)
    ensures requestId !in requests ==> r == Err(ParticipationRequestNotFound)
    ensures r.Ok? <==> requestId in requests && requests[requestId].requester == userId
    ensures r.Ok? ==> r.value == requests[requestId].(status := RequestStatus.CANCELED)
    ensures (requestId in requests && requests[requestId].requester != userId) ==> r == Err(OperationConditionsFailure)
  {
    if requestId !in requests then Err(ParticipationRequestNotFound)
    else if requests[requestId].requester != userId then Err(OperationConditionsFailure)
    else Ok(requests[requestId].(status := RequestStatus.CANCELED))
  }

  /** Cancelling never raises a confirmed count, so it keeps every event within its limit. */
  lemma CancelKeepsCapacity(events: map<int, Event>, requests: Requests, userId: int, requestId: int)
    requires WithinCapacity(events, requests)
    requires CancelOutcome(requests, userId, requestId).Ok?
    ensures WithinCapacity(events, requests[requestId := CancelOutcome(requests, userId, requestId).value])
  {
    var x := CancelOutcome(requests, userId, requestId).value;
    forall e | e in events && events[e].participantLimit > 0
      ensures CountConfirmed(requests[requestId := x], e) <= events[e].participantLimit
    {
      var old_ids := IdsByStatusAndEventId(requests, RequestStatus.CONFIRMED, e);
      var new_ids := IdsByStatusAndEventId(requests[requestId := x], RequestStatus.CONFIRMED, e);
      assert new_ids == old_ids - {requestId};
    }
  }

  /** The duplicate check counts cancelled requests too: after cancelling, the same user can
      never request the same event again. */
  lemma CancelledRequestStillBlocks(
    users: map<int, User>, events: map<int, Event>, requests: Requests, userId: int, requestId: int)
    requires CancelOutcome(requests, userId, requestId).Ok?
    ensures var x := CancelOutcome(requests, userId, requestId).value;
      AdmissionDecision(users, events, requests[requestId := x], userId, x.event) == Err(ParticipationRequestAlreadyExists)
  {
    var x := CancelOutcome(requests, userId, requestId).value;
    assert requests[requestId := x][requestId] == x;
  }

  /** The status loops of `updateParticipationRequests`, in place on the loaded list. */
  method ApplyStatus(requests: array<ParticipationRequest>, target: RequestStatus, vacant: int) returns (r: Result<()>)
    modifies requests
    ensures var m := Moderated(old(requests[..]), target, vacant);
      && (m.Ok? ==> r.Ok? && requests[..] == m.value)
      && (m.Err? ==> r == Err(m.error) && requests[..] == old(requests[..]))
  {
    var size := requests.Length;
    if target == RequestStatus.REJECTED {
      for i := 0 to size
        invariant forall k :: 0 <= k < i ==> requests[k] == old(requests[k]).(status := RequestStatus.REJECTED)
        invariant forall k :: i <= k < size ==> requests[k] == old(requests[k])
      {
        requests[i] := requests[i].(status := RequestStatus.REJECTED);
      }
      return Ok(());
    } else if target == RequestStatus.CONFIRMED {
      var i := 0;
      while i < vacant && i < size
        invariant 0 <= i <= size && (i == 0 || i <= vacant)
        invariant forall k :: 0 <= k < i ==> requests[k] == old(requests[k]).(status := RequestStatus.CONFIRMED)
        invariant forall k :: i <= k < size ==> requests[k] == old(requests[k])
      {
        requests[i] := requests[i].(status := RequestStatus.CONFIRMED);
        i := i + 1;
      }
      if size > vacant {
        var j := vacant;
        while j < size
          invariant vacant <= j <= size
          invariant vacant < 0 ==> j == vacant
          invariant forall k :: 0 <= k < size && k < vacant ==> requests[k] == old(requests[k]).(status := RequestStatus.CONFIRMED)
          invariant forall k :: 0 <= k < j && vacant <= k ==> requests[k] == old(requests[k]).(status := RequestStatus.REJECTED)
          invariant forall k :: 0 <= k < size && j <= k && vacant <= k ==> requests[k] == old(requests[k])
        {
          if j < 0 {
            return Err(IndexOutOfBounds);
          }
          requests[j] := requests[j].(status := RequestStatus.REJECTED);
          j := j + 1;
        }
      }
      return Ok(());
    } else {
      return Err(OperationConditionsFailure);
    }
  }

  /** The result lists of `updateParticipationRequests`: the processed requests split into confirmed and the rest, in list order. */
  method Partition(processed: seq<ParticipationRequest>) returns (confirmed: seq<ParticipationRequest>, rejected: seq<ParticipationRequest>)
    ensures confirmed == Confirmed(processed) && rejected == Rejected(processed)
  {
    confirmed, rejected := [], [];
    for i := 0 to |processed|
      invariant confirmed == Confirmed(processed[..i]) && rejected == Rejected(processed[..i])
    {
      assert processed[..i + 1][..i] == processed[..i];
      if processed[i].status == RequestStatus.CONFIRMED {
        confirmed := confirmed + [processed[i]];
      } else {
        rejected := rejected + [processed[i]];
      }
    }
    assert processed[..|processed|] == processed;
  }

  class ParticipationRequestService {
    const db: Database

    constructor (db: Database)
      ensures this.db == db
    {
      this.db := db;
    }

    /** `updateParticipationRequests`. `loaded` is what the repository query returns for the batch. */
    method UpdateParticipationRequests(
      initiatorId: int, eventId: int, update: StatusUpdateRequest, loaded: seq<ParticipationRequest>
    ) returns (r: Result<StatusUpdateResult>)
      requires db.Valid()
      requires IsPendingBatch(db.requests, update.requestIds, eventId, loaded)
      modifies db`requests
      ensures db.Valid()
      ensures match ModerationOutcome(db.users, db.events, old(db.requests), initiatorId, eventId, update.status, loaded)
        case Ok(out) =>
          r == Ok(StatusUpdateResult(Confirmed(out), Rejected(out))) && db.requests == SaveAll(old(db.requests), out)
        case Err(e) =>
          r == Err(e) && db.requests == old(db.requests)
    {
      if initiatorId !in db.users {
        return Err(UserNotFound);
      }
      if eventId !in db.events {
        return Err(EventNotFound);
      }
      var event := db.events[eventId];
      if event.initiator.id != initiatorId || !event.requestModeration {
        return Err(OperationConditionsFailure);
      }
      var limit := event.participantLimit;
      var vacant := limit - CountByStatusAndEventId(db.requests, RequestStatus.CONFIRMED, eventId);
      if limit > 0 && vacant == 0 {
        return Err(OperationConditionsFailure);
      }
      assert forall i :: 0 <= i < |loaded| ==> loaded[i].id in db.requests;
      assert ModerationOutcome(db.users, db.events, db.requests, initiatorId, eventId, update.status, loaded)
        == Moderated(loaded, update.status, vacant);
      r := ProcessBatch(loaded, update.status, vacant);
    }

    /** The batch part of `updateParticipationRequests`: the status loop on the loaded list, `saveAll`, and the two result lists. */
    method ProcessBatch(loaded: seq<ParticipationRequest>, target: RequestStatus, vacant: int)
      returns (r: Result<StatusUpdateResult>)
      requires db.Valid()
      requires forall i :: 0 <= i < |loaded| ==> loaded[i].id in db.requests
      modifies db`requests
      ensures db.Valid()
      ensures match Moderated(loaded, target, vacant)
        case Ok(out) =>
          r == Ok(StatusUpdateResult(Confirmed(out), Rejected(out))) && db.requests == SaveAll(old(db.requests), out)
        case Err(e) =>
          r == Err(e) && db.requests == old(db.requests)
    {
      var requests := new ParticipationRequest[|loaded|](i requires 0 <= i < |loaded| => loaded[i]);
      assert requests[..] == loaded;
      var applied := ApplyStatus(requests, target, vacant);
      if applied.Err? {
        return Err(applied.error);
      }
      var processed := requests[..];
      SaveAllRequests(processed);
      var confirmed, rejected := Partition(processed);
      return Ok(StatusUpdateResult(confirmed, rejected));
    }

    /** `requestStorage.saveAll`: stores each processed request under its id, in list order. */
    method SaveAllRequests(processed: seq<ParticipationRequest>)
      requires db.Valid()
      requires forall i :: 0 <= i < |processed| ==> processed[i].id in db.requests
      modifies db`requests
      ensures db.Valid()
      ensures db.requests == SaveAll(old(db.requests), processed)
    {
      ghost var stored := db.requests;
      for i := 0 to |processed|
        invariant db.requests == SaveAll(stored, processed[..i])
      {
        assert processed[..i + 1][..i] == processed[..i];
        db.requests := db.requests[processed[i].id := processed[i]];
      }
      assert processed[..|processed|] == processed;
      SaveAllKeepsKeys(stored, processed);
    }

    /** `addParticipationRequest`: the new request gets the next identity and `created = now`. */
    method AddParticipationRequest(requesterId: int, eventId: int, now: Time) returns (r: Result<ParticipationRequest>)
      requires db.Valid()
      modifies db`requests, db`nextRequestId
      ensures db.Valid()
      ensures match AdmissionDecision(db.users, db.events, old(db.requests), requesterId, eventId)
        case Ok(status) =>
          && r == Ok(ParticipationRequest(old(db.nextRequestId), now, eventId, requesterId, status))
          && old(db.nextRequestId) !in old(db.requests)
          && db.requests == old(db.requests)[old(db.nextRequestId) := r.value]
          && db.nextRequestId == old(db.nextRequestId) + 1
        case Err(e) =>
          r == Err(e) && db.requests == old(db.requests) && db.nextRequestId == old(db.nextRequestId)
    {
      if ExistsByRequesterIdAndEventId(db.requests, requesterId, eventId) {
        return Err(ParticipationRequestAlreadyExists);
      }
      if eventId !in db.events {
        return Err(EventNotFound);
      }
      var event := db.events[eventId];
      if requesterId !in db.users {
        return Err(UserNotFound);
      }
      if event.initiator.id == requesterId || event.state != EventState.PUBLISHED {
        return Err(OperationConditionsFailure);
      }
      var limit := event.participantLimit;
      var hasReachedLimit := limit > 0 && CountByStatusAndEventId(db.requests, RequestStatus.CONFIRMED, eventId) == limit;
      if hasReachedLimit {
        return Err(OperationConditionsFailure);
      }
      var status := if event.requestModeration && limit > 0 then RequestStatus.PENDING else RequestStatus.CONFIRMED;
      var request := ParticipationRequest(db.nextRequestId, now, eventId, requesterId, status);
      db.requests := db.requests[request.id := request];
      db.nextRequestId := db.nextRequestId + 1;
      return Ok(request);
    }

    /** `cancelParticipationRequest`: any prior status becomes CANCELED. */
    method CancelParticipationRequest(userId: int, requestId: int) returns (r: Result<ParticipationRequest>)
      requires db.Valid()
      modifies db`requests
      ensures db.Valid()
      ensures r == CancelOutcome(old(db.requests), userId, requestId)
      ensures db.requests == if r.Ok? then old(db.requests)[requestId := r.value] else old(db.requests)
    {
      if requestId !in db.requests {
        return Err(ParticipationRequestNotFound);
      }
      var request := db.requests[requestId];
      if request.requester != userId {
        return Err(OperationConditionsFailure);
      }
      request := request.(status := RequestStatus.CANCELED);
      db.requests := db.requests[requestId := request];
      return Ok(request);
    }
  }
}
