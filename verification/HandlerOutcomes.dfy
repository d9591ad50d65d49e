/** How one confirmation handled alone leaves the stores and what the client is told, written out field by field. */
module HandlerOutcomes {
  import opened SagaTypes
  import opened SagaState
  import opened SagaProtocol
  import opened SoloHandlers
  import R = SagaRedelivery
  import C = CoordinatorModel

  // ---- A confirmation that is not the last ----

  /** The confirmation is in its document: its own id and step, and nothing else. */
  predicate SavedIn(docs: Docs, docs': Docs, service: Service, id: string, reservationId: string) {
    && docs' - {id} == docs - {id} && (id in docs' <==> id in docs)
    && (id in docs ==>
          match service
          case Flight => docs'[id] == docs[id].(flightReservationId := Some(reservationId),
                                                completedSteps := docs'[id].completedSteps)
                         && AddsStep(docs[id].completedSteps, docs'[id].completedSteps, "FLIGHT_CONFIRMED")
          case Hotel => docs'[id] == docs[id].(hotelReservationId := Some(reservationId),
                                               completedSteps := docs'[id].completedSteps)
                        && AddsStep(docs[id].completedSteps, docs'[id].completedSteps, "HOTEL_CONFIRMED")
          case Car => docs'[id] == docs[id].(carRentalReservationId := Some(reservationId),
                                             completedSteps := docs'[id].completedSteps)
                      && AddsStep(docs[id].completedSteps, docs'[id].completedSteps, "CAR_CONFIRMED"))
  }

  /** Each step once, in the order of its first confirmation. */
  predicate AddsStep(steps: seq<string>, steps': seq<string>, step: string) {
    if step in steps then steps' == steps else steps' == steps + [step]
  }

  lemma SaveWrites(s: Store, h: Handler, env: HandlerEnv)
    requires h.pc == Save
    ensures var s' := NextHandlerStore(s, h, At(env, Save));
            && s'.coord == s.coord && s'.published == s.published && s'.notes == s.notes
            && if env.replies(Save) == Lost then s'.docs == s.docs
               else SavedIn(s.docs, s'.docs, h.service, h.requestId, h.reservationId)
  {
    var docs' := NextHandlerStore(s, h, At(env, Save)).docs;
    assert docs' - {h.requestId} == s.docs - {h.requestId};
  }

  /** A confirmation whose save is not acknowledged: the client is told that the booking failed, and the document, which
      may have the confirmation, goes unmarked. */
  lemma UnsavedConfirmation(s: Store, service: Service, requestId: string, reservationId: string, env: HandlerEnv)
    requires env.replies(Save) != Ok
    ensures var s' := HandleAlone(s, NewHandler(service, requestId, reservationId), env).0;
            && s'.coord == s.coord && s'.published == s.published
            && s'.notes == s.notes + [BookingFailed(requestId, DriverError)]
            && if env.replies(Save) == Lost then s'.docs == s.docs
               else SavedIn(s.docs, s'.docs, service, requestId, reservationId)
  {
    var h := NewHandler(service, requestId, reservationId);
    SaveWrites(s, h, env);
    OneMore(s, h, s, h, env);
    OneMore(s, h, NextHandlerStore(s, h, At(env, Save)), h.(pc := Fail, error := DriverError), env);
  }

  /** What was counted before, and one more on this step; the counters live on for two hours. */
  predicate CountedOnce(c: C.Coord, c': C.Coord, id: string, step: string) {
    && id in c'.steps && c' == c.(steps := c'.steps) && c'.steps - {id} == c.steps - {id}
    && var was := if id in c.steps then c.steps[id].value else map[];
       c'.steps[id] == C.Timed(was[step := (if step in was then was[step] else 0) + 1], Some(c.now + 7_200_000))
  }

  lemma CountsOnce(c: C.Coord, id: string, step: string)
    ensures CountedOnce(c, C.ExpireSteps(C.CountStep(c, id, step), id), id, step)
  {
    var c' := C.ExpireSteps(C.CountStep(c, id, step), id);
    assert c'.steps - {id} == c.steps - {id};
  }

  /** A confirmation that is saved and does not complete what its service waits for: it is in its document, its step is
      counted, and nobody is told anything. */
  lemma WaitingConfirmation(s: Store, service: Service, requestId: string, reservationId: string, env: HandlerEnv)
    requires env.replies(Save) == Ok
    requires !Joins(env.hotelJoin, service,
                    Steps(SaveConfirmed(s.docs, service, requestId, reservationId), requestId))
    ensures var s' := HandleAlone(s, NewHandler(service, requestId, reservationId), env).0;
            && SavedIn(s.docs, s'.docs, service, requestId, reservationId)
            && s'.published == s.published && s'.notes == s.notes
            && CountedOnce(s.coord, s'.coord, requestId,
                           match service
                           case Flight => "FLIGHT_CONFIRMED"
                           case Hotel => "HOTEL_CONFIRMED"
                           case Car => "CAR_CONFIRMED")
  {
    var h := NewHandler(service, requestId, reservationId);
    SaveWrites(s, h, env);
    OneMore(s, h, s, h, env);
    var s1, h1 := NextHandlerStore(s, h, At(env, Save)), h.(pc := CountConfirm);
    OneMore(s, h, s1, h1, env);
    var s2, h2 := s1.(coord := C.CountStep(s1.coord, requestId, StepOf(service))), h.(pc := TouchConfirm);
    OneMore(s, h, s2, h2, env);
    CountsOnce(s.coord, requestId, StepOf(service));
  }

  // ---- aggregateResults ----

  /** Nothing of the request is left in Redis; everything else is as it was. */
  predicate Cleared(c: C.Coord, c': C.Coord, id: string) {
    && c'.now == c.now && c'.rate == c.rate
    && c'.locks == c.locks - {id} && c'.active == c.active - {id} && c'.steps == c.steps - {id}
    && c'.pending == c.pending - {id} && c'.metadata == c.metadata - {id}
  }

  /** The document with its number, CONFIRMED, and the four steps. */
  predicate Booked(docs: Docs, docs': Docs, id: string, number: string)
    requires id in docs
  {
    docs' == docs[id := docs[id].(bookingId := Some(number), status := CONFIRMED,
                                  completedSteps := ["FLIGHT_CONFIRMED", "HOTEL_CONFIRMED", "CAR_CONFIRMED",
                                                     "COMPLETED"])]
  }

  /** Marked FAILED with the reason, all else in the documents as it was. */
  predicate MarkedIn(docs: Docs, docs': Docs, id: string, reason: Message) {
    && docs' - {id} == docs - {id} && (id in docs' <==> id in docs)
    && (id in docs ==> docs'[id] == docs[id].(status := FAILED, errorMessage := Some(reason)))
  }

  /** The metadata name the reason, the time, and that it was the aggregation, for two hours. */
  predicate NotedIn(c: C.Coord, c': C.Coord, id: string, reason: Message) {
    && id in c'.metadata && c' == c.(metadata := c'.metadata) && c'.metadata - {id} == c.metadata - {id}
    && c'.metadata[id] ==
       C.Timed((if id in c.metadata then c.metadata[id].value else map[])
               + map[C.ErrorField := C.Why(reason), C.FailedAtField := C.At(c.now), C.StepField := C.Aggregation],
               Some(c.now + 7_200_000))
  }

  /** How a failed aggregation ends: recorded in document and metadata, the client told the reason. */
  predicate Rethrown(s: Store, s': Store, id: string, reason: Message) {
    && MarkedIn(s.docs, s'.docs, id, reason) && NotedIn(s.coord, s'.coord, id, reason)
    && s'.published == s.published && s'.notes == s.notes + [BookingFailed(id, reason)]
  }

  lemma RecordsAndRethrows(s0: Store, h0: Handler, s: Store, h: Handler, env: HandlerEnv)
    requires SameEnd(s0, h0, s, h, env) && h.pc == AggError && env.replies(AggError) == Ok
    ensures Rethrown(s, HandleAlone(s0, h0, env).0, h.requestId, h.error)
  {
    var id := h.requestId;
    OneMore(s0, h0, s, h, env);
    var s1, h1 := NextHandlerStore(s, h, At(env, AggError)), h.(pc := AggPutMeta);
    assert s1.docs - {id} == s.docs - {id};
    NotesAndTells(s0, h0, s1, h1, env);
  }

  lemma NotesAndTells(s0: Store, h0: Handler, s: Store, h: Handler, env: HandlerEnv)
    requires SameEnd(s0, h0, s, h, env) && h.pc == AggPutMeta
    ensures var s' := HandleAlone(s0, h0, env).0;
            && NotedIn(s.coord, s'.coord, h.requestId, h.error) && s'.docs == s.docs && s'.published == s.published
            && s'.notes == s.notes + [BookingFailed(h.requestId, h.error)]
  {
    var id, fields := h.requestId, AggregationFields(s.coord.now, h.error);
    RecordAndTouch(s0, h0, s, h, env);
    var s2 := s.(coord := C.ExpireMeta(C.SetMeta(s.coord, id, fields), id, 7200));
    Notes(s.coord, id, h.error);
    OneMore(s0, h0, s2, h.(pc := Fail), env);
  }

  lemma Notes(c: C.Coord, id: string, reason: Message)
    ensures NotedIn(c, C.ExpireMeta(C.SetMeta(c, id, AggregationFields(c.now, reason)), id, 7200), id, reason)
  {
    var fields := AggregationFields(c.now, reason);
    assert C.ErrorField in fields;
    var c' := C.ExpireMeta(C.SetMeta(c, id, fields), id, 7200);
    assert c'.metadata - {id} == c.metadata - {id};
  }

  /** An absent or empty reservation id. */
  predicate LacksId(d: Doc) {
    || d.flightReservationId == None || d.flightReservationId == Some("")
    || d.hotelReservationId == None || d.hotelReservationId == Some("")
    || d.carRentalReservationId == None || d.carRentalReservationId == Some("")
  }

  /** Another document carries the number. */
  predicate CarriedElsewhere(docs: Docs, id: string, number: string) {
    exists r :: r in docs && r != id && docs[r].bookingId == Some(number)
  }

  /** aggregateResults up to its end, its error record acknowledged if it comes to that. It fails with the driver's
      error if the read fails, that there is no document, that an id is missing, the driver's error if the update is
      lost, a duplicate if the number is another's; and with the driver's error again if the update is made but not
      acknowledged: then the document that is marked has its number. Otherwise the booking is made, the client is told
      the number, and Redis is cleared. */
  lemma AggregationOutcome(s: Store, h: Handler, env: HandlerEnv)
    requires h.pc == AggFind && env.replies(AggError) == Ok && multiset(env.order) == multiset(C.ALL_DELETIONS)
    ensures var (s', id, number) := (HandleAlone(s, h, env).0, h.requestId, env.bookingId);
            if env.replies(AggFind) != Ok then Rethrown(s, s', id, DriverError)
            else if id !in s.docs then Rethrown(s, s', id, NotFound(id))
            else if LacksId(s.docs[id]) then Rethrown(s, s', id, IncompleteIds(id))
            else if env.replies(AggUpdate) == Lost then Rethrown(s, s', id, DriverError)
            else if CarriedElsewhere(s.docs, id, number) then Rethrown(s, s', id, DuplicateKey)
            else if env.replies(AggUpdate) == Unacked then
              exists docs :: Booked(s.docs, docs, id, number) && Rethrown(s.(docs := docs), s', id, DriverError)
            else
              && Booked(s.docs, s'.docs, id, number) && Cleared(s.coord, s'.coord, id)
              && s'.published == s.published && s'.notes == s.notes + [BookingConfirmed(id, number)]
  {
    var id, number := h.requestId, env.bookingId;
    OneMore(s, h, s, h, env);
    var h1 := NextHandler(s, h, At(env, AggFind), env.hotelJoin);
    if h1.pc == AggError {
      RecordsAndRethrows(s, h, s, h1, env);
    } else {
      UpdateOutcome(s, h, h1, env);
    }
  }

  lemma UpdateOutcome(s: Store, h: Handler, h1: Handler, env: HandlerEnv)
    requires SameEnd(s, h, s, h1, env) && h1.pc == AggUpdate && h1.requestId == h.requestId && h.requestId in s.docs
    requires h.pc == AggFind && env.replies(AggFind) == Ok && !Incomplete(s.docs[h.requestId])
    requires env.replies(AggError) == Ok && multiset(env.order) == multiset(C.ALL_DELETIONS)
    ensures var (s', id, number) := (HandleAlone(s, h, env).0, h.requestId, env.bookingId);
            if env.replies(AggUpdate) == Lost then Rethrown(s, s', id, DriverError)
            else if CarriedElsewhere(s.docs, id, number) then Rethrown(s, s', id, DuplicateKey)
            else if env.replies(AggUpdate) == Unacked then
              exists docs :: Booked(s.docs, docs, id, number) && Rethrown(s.(docs := docs), s', id, DriverError)
            else
              && Booked(s.docs, s'.docs, id, number) && Cleared(s.coord, s'.coord, id)
              && s'.published == s.published && s'.notes == s.notes + [BookingConfirmed(id, number)]
  {
    var id, number := h.requestId, env.bookingId;
    var choice := At(env, AggUpdate);
    OneMore(s, h, s, h1, env);
    var s2, h2 := NextHandlerStore(s, h1, choice), NextHandler(s, h1, choice, env.hotelJoin);
    if env.replies(AggUpdate) == Lost || CarriedElsewhere(s.docs, id, number) {
      assert s2 == s;
      RecordsAndRethrows(s, h, s, h2, env);
    } else {
      assert s2 == s.(docs := Finalize(s.docs, id, number)) && Booked(s.docs, s2.docs, id, number);
      if env.replies(AggUpdate) == Unacked {
        RecordsAndRethrows(s, h, s2, h2, env);
      } else {
        R.CleansUp(s2, h2, env);
      }
    }
  }

  /** An error record that is not acknowledged hides the reason: the client is told of the driver's error, Redis keeps
      no note, and the document is marked only if the record arrived. */
  lemma UnrecordedFailure(s: Store, h: Handler, env: HandlerEnv)
    requires h.pc == AggError && env.replies(AggError) != Ok
    ensures var s' := HandleAlone(s, h, env).0;
            && s'.coord == s.coord && s'.published == s.published
            && s'.notes == s.notes + [BookingFailed(h.requestId, DriverError)]
            && if env.replies(AggError) == Lost then s'.docs == s.docs
               else MarkedIn(s.docs, s'.docs, h.requestId, h.error)
  {
    OneMore(s, h, s, h, env);
    var s1 := NextHandlerStore(s, h, At(env, AggError));
    assert s1.docs - {h.requestId} == s.docs - {h.requestId};
    OneMore(s, h, s1, h.(pc := Fail, error := DriverError), env);
  }
}
