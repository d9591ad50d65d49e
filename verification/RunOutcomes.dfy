/** How one call of `execute` that runs alone leaves the stores and what it answers, written out field by field. */
module RunOutcomes {
  import opened SagaTypes
  import opened SagaState
  import opened SagaProtocol
  import opened SoloRuns
  import C = CoordinatorModel

  // ---- The document and the metadata, on the way ----

  /** The request's document as it was, or else a new one; the others as they were. */
  predicate Unmarked(docs0: Docs, docs: Docs, r: Run) {
    && docs - {r.requestId} == docs0 - {r.requestId}
    && (r.requestId in docs0 || r.created ==> r.requestId in docs)
    && (r.requestId in docs ==>
          docs[r.requestId] == if r.requestId in docs0 then docs0[r.requestId]
                               else Doc(r.userId, r.totalAmount, PENDING, None, None, None, None, [], None))
  }

  /** The same, marked FAILED with the reason. */
  predicate Marked(docs0: Docs, docs: Docs, r: Run) {
    && docs - {r.requestId} == docs0 - {r.requestId}
    && (r.requestId in docs0 || r.created ==> r.requestId in docs)
    && r.error.Some?
    && (r.requestId in docs ==>
          var was := if r.requestId in docs0 then docs0[r.requestId]
                     else Doc(r.userId, r.totalAmount, PENDING, None, None, None, None, [], None);
          docs[r.requestId] == was.(status := FAILED, errorMessage := r.error))
  }

  /** The request's metadata name the reason, the time, and that there is no number yet; fields of before that this does
      not name are kept. */
  predicate Noted(c0: C.Coord, c: C.Coord, r: Run) {
    && r.error.Some? && r.requestId in c.metadata
    && var fields := c.metadata[r.requestId].value;
       && fields == (if r.requestId in c0.metadata then c0.metadata[r.requestId].value else map[])
                    + map[C.ErrorField := C.Why(r.error.value), C.FailedAtField := C.At(c0.now),
                          C.BookingIdField := C.NotGenerated]
  }

  predicate Along(s0: Store, s: Store, r: Run) {
    && s.coord.now == s0.coord.now && (r.created ==> r.requestId !in s0.docs)
    && match r.pc
       case Find => s.docs == s0.docs && s.coord.metadata == s0.coord.metadata && r.error.None? && !r.created
       && !r.threw
       case RecordError =>
         Unmarked(s0.docs, s.docs, r) && s.coord.metadata == s0.coord.metadata && r.error.Some? && !r.threw
       case PutMeta => Marked(s0.docs, s.docs, r) && s.coord.metadata == s0.coord.metadata && !r.threw
       case TouchMeta => Marked(s0.docs, s.docs, r) && Noted(s0.coord, s.coord, r) && !r.threw
       case Unlock => Ending(s0, s, r)
       case Uncache => Ending(s0, s, r)
       case Done => Ending(s0, s, r)
       case _ =>
         && s.coord.metadata == s0.coord.metadata && r.error.None? && r.requestId !in s0.docs && !r.threw
         && if Early(r.pc) then s.docs == s0.docs && !r.created else r.created && Unmarked(s0.docs, s.docs, r)
  }

  predicate Ending(s0: Store, s: Store, r: Run) {
    && (r.threw ==> r.error.Some?)
    && (r.error.None? ==> Unmarked(s0.docs, s.docs, r) && s.coord.metadata == s0.coord.metadata)
    && (r.error.Some? && !r.threw ==>
          && Marked(s0.docs, s.docs, r) && Noted(s0.coord, s.coord, r)
          && s.coord.metadata[r.requestId].expiry == Some(s0.coord.now + 3_600_000)
          && r.status == Some(FAILED) && r.message == r.error)
  }

  lemma EarlyAlong(s0: Store, s: Store, r: Run, reply: Reply)
    requires Along(s0, s, r) && Early(r.pc)
    ensures Along(s0, NextStore(s, r, reply), NextRun(s, r, reply))
  {
    match r.pc
    case Create => CreateAlong(s0, s, r, reply);
    case Find =>
    case CheckActive =>
    case Lock =>
    case RateHit =>
    case RateArm =>
  }

  lemma CreateAlong(s0: Store, s: Store, r: Run, reply: Reply)
    requires Along(s0, s, r) && r.pc == Create
    ensures Along(s0, NextStore(s, r, reply), NextRun(s, r, reply))
  {
    var docs' := NextStore(s, r, reply).docs;
    assert docs' - {r.requestId} == s0.docs - {r.requestId};
  }

  lemma PublishAlong(s0: Store, s: Store, r: Run, reply: Reply)
    requires Along(s0, s, r) && (r.pc.CacheActive? || r.pc.Enqueue? || r.pc.Emit? || r.pc.Count?)
    ensures Along(s0, NextStore(s, r, reply), NextRun(s, r, reply))
  {
  }

  lemma TouchAlong(s0: Store, s: Store, r: Run, reply: Reply)
    requires Along(s0, s, r) && r.pc.Touch?
    ensures Along(s0, NextStore(s, r, reply), NextRun(s, r, reply))
  {
    match r.pc.event case HotelRequested => case FlightRequested => case CarRequested =>
  }

  lemma RecordAlong(s0: Store, s: Store, r: Run, reply: Reply)
    requires Along(s0, s, r) && r.pc == RecordError
    ensures Along(s0, NextStore(s, r, reply), NextRun(s, r, reply))
  {
    var docs' := NextStore(s, r, reply).docs;
    assert docs' - {r.requestId} == s.docs - {r.requestId};
  }

  lemma LeaveAlong(s0: Store, s: Store, r: Run, reply: Reply)
    requires Along(s0, s, r)
    requires r.pc.PutMeta? || r.pc.TouchMeta? || r.pc.Unlock? || r.pc.Uncache?
    ensures Along(s0, NextStore(s, r, reply), NextRun(s, r, reply))
  {
    if r.pc == PutMeta {
      PutMetaAlong(s0, s, r, reply);
    } else if r.pc == TouchMeta {
      TouchMetaAlong(s0, s, r, reply);
    }
  }

  lemma PutMetaAlong(s0: Store, s: Store, r: Run, reply: Reply)
    requires Along(s0, s, r) && r.pc == PutMeta
    ensures Along(s0, NextStore(s, r, reply), NextRun(s, r, reply))
  {
    assert C.ErrorField in ErrorFields(s.coord.now, Reason(r.error));
  }

  lemma TouchMetaAlong(s0: Store, s: Store, r: Run, reply: Reply)
    requires Along(s0, s, r) && r.pc == TouchMeta
    ensures Along(s0, NextStore(s, r, reply), NextRun(s, r, reply))
  {
  }

  lemma NextAlong(s0: Store, s: Store, r: Run, reply: Reply)
    requires Along(s0, s, r) && r.pc != Done
    ensures Along(s0, NextStore(s, r, reply), NextRun(s, r, reply))
  {
    if Early(r.pc) {
      EarlyAlong(s0, s, r, reply);
    } else if r.pc.Touch? {
      TouchAlong(s0, s, r, reply);
    } else if r.pc == RecordError {
      RecordAlong(s0, s, r, reply);
    } else if r.pc.PutMeta? || r.pc.TouchMeta? || r.pc.Unlock? || r.pc.Uncache? {
      LeaveAlong(s0, s, r, reply);
    } else {
      PublishAlong(s0, s, r, reply);
    }
  }

  lemma {:induction false} AlongToTheEnd(s0: Store, s: Store, r: Run, env: Env, s': Store, r': Run)
    requires (s', r') == RunAlone(s, r, env) && Along(s0, s, r)
    ensures Along(s0, s', r') && r'.pc == Done
    ensures (r'.requestId, r'.userId, r'.totalAmount) == (r.requestId, r.userId, r.totalAmount)
    decreases Rank(r.pc)
  {
    if r.pc != Done {
      RankDrops(s, r, env(r.pc));
      NextAlong(s0, s, r, env(r.pc));
      AlongToTheEnd(s0, NextStore(s, r, env(r.pc)), NextRun(s, r, env(r.pc)), env, s', r');
    }
  }

  // ---- How a call leaves its document ----

  /** A call that was told that it created its document leaves it with its own user and amount, without number,
      reservation ids or steps: PENDING and without an error if all three events were acknowledged, and otherwise
      (unless it throws) FAILED with the reason it answers. */
  lemma CreatedDocument(s: Store, requestId: string, userId: string, totalAmount: real, env: Env)
    ensures var (s', r') := RunAlone(s, NewRun(requestId, userId, totalAmount), env);
            r'.created && !r'.threw ==>
              && requestId in s'.docs
              && var d := s'.docs[requestId];
                 && d.userId == userId && d.totalAmount == totalAmount && d.bookingId == None
                 && d.flightReservationId == None && d.hotelReservationId == None && d.carRentalReservationId == None
                 && d.completedSteps == []
                 && if AllPublished(env) then d.status == PENDING && d.errorMessage == None
                    else d.status == FAILED && d.errorMessage.Some? && d.errorMessage == r'.message
  {
    var r := NewRun(requestId, userId, totalAmount);
    var (s', r') := RunAlone(s, r, env);
    AlongToTheEnd(s, s, r, env, s', r');
    ExitPaths(s, requestId, userId, totalAmount, env);
  }

  /** A call that leaves through its catch block, with the error record acknowledged: it answers FAILED and the reason;
      the document of its request, if there is one, is FAILED with that reason, and its other fields are those it had,
      or the call's own in a new one; no other document changed; and the reason, the time and the missing number are in
      the request's metadata, for an hour. */
  lemma CaughtCallLeaves(s: Store, requestId: string, userId: string, totalAmount: real, env: Env)
    ensures var (s', r') := RunAlone(s, NewRun(requestId, userId, totalAmount), env);
            r'.error.Some? && !r'.threw ==>
              && r'.status == Some(FAILED) && r'.message == r'.error
              && s'.docs - {requestId} == s.docs - {requestId}
              && (requestId in s.docs || r'.created ==> requestId in s'.docs)
              && (requestId in s'.docs ==>
                    var d := s'.docs[requestId];
                    && d.status == FAILED && d.errorMessage == r'.message
                    && (requestId in s.docs ==> d == s.docs[requestId].(status := FAILED, errorMessage := r'.message))
                    && (requestId !in s.docs ==>
                          d == Doc(userId, totalAmount, FAILED, None, None, None, None, [], r'.message)))
              && requestId in s'.coord.metadata
              && var entry := s'.coord.metadata[requestId];
                 && entry.expiry == Some(s.coord.now + 3_600_000)
                 && entry.value == (if requestId in s.coord.metadata then s.coord.metadata[requestId].value else map[])
                                   + map[C.ErrorField := C.Why(r'.error.value), C.FailedAtField := C.At(s.coord.now),
                                         C.BookingIdField := C.NotGenerated]
  {
    var r := NewRun(requestId, userId, totalAmount);
    var (s', r') := RunAlone(s, r, env);
    AlongToTheEnd(s, s, r, env, s', r');
  }

  // ---- When the error record itself fails ----

  /** Before the record: as before. After it: thrown exactly if it was not acknowledged, and then with no note, and with
      the document marked exactly if the record arrived. */
  predicate Recording(s0: Store, s: Store, r: Run, env: Env) {
    match r.pc
    case PutMeta => env(RecordError) == Ok && !r.threw && r.error.Some?
    case TouchMeta => env(RecordError) == Ok && !r.threw && r.error.Some?
    case Unlock => Recorded(s0, s, r, env)
    case Uncache => Recorded(s0, s, r, env)
    case Done => Recorded(s0, s, r, env)
    case RecordError => r.error.Some?
    case _ => r.error.None?
  }

  predicate Recorded(s0: Store, s: Store, r: Run, env: Env) {
    && (r.threw <==> r.error.Some? && env(RecordError) != Ok)
    && (r.threw ==>
          && s.coord.metadata == s0.coord.metadata
          && if env(RecordError) == Lost then Unmarked(s0.docs, s.docs, r) else Marked(s0.docs, s.docs, r))
  }

  lemma NextRecording(s0: Store, s: Store, r: Run, env: Env)
    requires Along(s0, s, r) && Recording(s0, s, r, env) && r.pc != Done
    ensures Recording(s0, NextStore(s, r, env(r.pc)), NextRun(s, r, env(r.pc)), env)
  {
    if r.pc.Touch? {
      match r.pc.event case HotelRequested => case FlightRequested => case CarRequested =>
    } else if r.pc == RecordError {
      RecordsOrThrows(s0, s, r, env);
    } else if r.pc.PutMeta? || r.pc.TouchMeta? || r.pc.Unlock? || r.pc.Uncache? {
      LeavesRecorded(s0, s, r, env);
    }
  }

  lemma RecordsOrThrows(s0: Store, s: Store, r: Run, env: Env)
    requires Along(s0, s, r) && r.pc == RecordError
    ensures Recording(s0, NextStore(s, r, env(r.pc)), NextRun(s, r, env(r.pc)), env)
  {
    RecordAlong(s0, s, r, Ok);
  }

  lemma LeavesRecorded(s0: Store, s: Store, r: Run, env: Env)
    requires Recording(s0, s, r, env) && (r.pc.PutMeta? || r.pc.TouchMeta? || r.pc.Unlock? || r.pc.Uncache?)
    ensures Recording(s0, NextStore(s, r, env(r.pc)), NextRun(s, r, env(r.pc)), env)
  {
  }

  lemma {:induction false} RecordingToTheEnd(s0: Store, s: Store, r: Run, env: Env, s': Store, r': Run)
    requires (s', r') == RunAlone(s, r, env) && Along(s0, s, r) && Recording(s0, s, r, env)
    ensures Recorded(s0, s', r', env)
    decreases Rank(r.pc)
  {
    if r.pc != Done {
      RankDrops(s, r, env(r.pc));
      NextAlong(s0, s, r, env(r.pc));
      NextRecording(s0, s, r, env);
      RecordingToTheEnd(s0, NextStore(s, r, env(r.pc)), NextRun(s, r, env(r.pc)), env, s', r');
    }
  }

  /** A call throws exactly if it gets to its catch block and its error record is not acknowledged. Then it leaves no
      note, and its document, if there is one, FAILED with the reason if the record arrived, and otherwise as it was. */
  lemma ThrowingCallLeaves(s: Store, requestId: string, userId: string, totalAmount: real, env: Env)
    ensures var (s', r') := RunAlone(s, NewRun(requestId, userId, totalAmount), env);
            && (r'.threw <==> r'.error.Some? && env(RecordError) != Ok)
            && (r'.threw ==>
                  && s'.coord.metadata == s.coord.metadata && s'.docs - {requestId} == s.docs - {requestId}
                  && (requestId in s'.docs ==>
                        var was := if requestId in s.docs then s.docs[requestId]
                                   else Doc(userId, totalAmount, PENDING, None, None, None, None, [], None);
                        s'.docs[requestId] == if env(RecordError) == Lost then was
                                              else was.(status := FAILED, errorMessage := r'.error)))
  {
    var r := NewRun(requestId, userId, totalAmount);
    var (s', r') := RunAlone(s, r, env);
    AlongToTheEnd(s, s, r, env, s', r');
    RecordingToTheEnd(s, s, r, env, s', r');
  }

  /** And the next call with the same request id answers FAILED and that reason, and changes nothing. */
  lemma ResubmissionAnswersTheReason(s: Store, requestId: string, userId: string, totalAmount: real, env: Env,
      userId': string, totalAmount': real, env': Env)
    requires var (s', r') := RunAlone(s, NewRun(requestId, userId, totalAmount), env);
             r'.error.Some? && !r'.threw && requestId in s'.docs && env'(Find) == Ok
    ensures var (s', r') := RunAlone(s, NewRun(requestId, userId, totalAmount), env);
            var (s'', r'') := RunAlone(s', NewRun(requestId, userId', totalAmount'), env');
            s'' == s' && r''.status == Some(FAILED) && r''.message == r'.error && !r''.threw
  {
    var (s', r') := RunAlone(s, NewRun(requestId, userId, totalAmount), env);
    CaughtCallLeaves(s, requestId, userId, totalAmount, env);
    ExitPaths(s, requestId, userId, totalAmount, env);
    ResubmitOnce(s', requestId, userId', totalAmount', env');
  }

  // ---- Being turned away ----

  /** The lock is held by another call: FAILED, a message that says so, and no trace left. */
  lemma TurnedAwayByLock(s: Store, requestId: string, userId: string, totalAmount: real, env: Env)
    requires env(Find) == Ok && requestId !in s.docs && requestId !in s.coord.active && requestId in s.coord.locks
    ensures var (s', r') := RunAlone(s, NewRun(requestId, userId, totalAmount), env);
            && s' == s && !r'.threw && r'.bookingId == None
            && r'.status == Some(FAILED) && r'.message == Some(LockHeld(requestId))
  {
    var r := NewRun(requestId, userId, totalAmount);
    OneCommand(s, r, s, r, env);
    OneCommand(s, r, s, r.(pc := CheckActive), env);
    OneCommand(s, r, s, r.(pc := Lock), env);
    var r1 := r.(pc := Uncache, status := Some(FAILED), message := Some(LockHeld(requestId)));
    assert s.coord.active - {requestId} == s.coord.active;
    OneCommand(s, r, s, r1, env);
  }

  /** A call gone past its rate check keeps the error it has, if that is the rate's, and gets no such one. */
  predicate RateError(r: Run) {
    r.error.Some? && r.error.value.RateExceeded?
  }

  lemma KeepsRateError(s: Store, r: Run, reply: Reply)
    requires !r.pc.RateHit? && !r.pc.Find? && !r.pc.CheckActive? && !r.pc.Lock?
    ensures RateError(NextRun(s, r, reply)) ==> RateError(r)
    ensures Rank(r.pc) <= 6 ==> NextRun(s, r, reply).error == r.error
  {
    if r.pc.Touch? {
      match r.pc.event case HotelRequested => case FlightRequested => case CarRequested =>
    }
  }

  lemma {:induction false} NoLateRateError(s: Store, r: Run, env: Env)
    requires Rank(r.pc) < Rank(RateHit)
    ensures RateError(RunAlone(s, r, env).1) ==> RateError(r)
    ensures Rank(r.pc) <= 6 ==> RunAlone(s, r, env).1.error == r.error
    decreases Rank(r.pc)
  {
    if r.pc != Done {
      RankDrops(s, r, env(r.pc));
      KeepsRateError(s, r, env(r.pc));
      NoLateRateError(NextStore(s, r, env(r.pc)), NextRun(s, r, env(r.pc)), env);
    }
  }

  /** A call alone that gets the lock is turned away by the rate limit exactly if its user's window, still live, holds
      five hits or more. */
  lemma RateLimitedIff(s: Store, requestId: string, userId: string, totalAmount: real, env: Env)
    requires env(Find) == Ok && requestId !in s.docs && requestId !in s.coord.active && requestId !in s.coord.locks
    ensures var r' := RunAlone(s, NewRun(requestId, userId, totalAmount), env).1;
            r'.error == Some(RateExceeded(userId)) <==> userId in s.coord.rate && s.coord.rate[userId].value >= 5
  {
    var r := NewRun(requestId, userId, totalAmount);
    var s1, r1 := ToRateCheck(s, r, env);
    OneCommand(s, r, s1, r1, env);
    NoLateRateError(NextStore(s1, r1, env(RateHit)), NextRun(s1, r1, env(RateHit)), env);
  }

  lemma ToRateCheck(s: Store, r: Run, env: Env) returns (s1: Store, r1: Run)
    requires r == NewRun(r.requestId, r.userId, r.totalAmount) && env(Find) == Ok
    requires r.requestId !in s.docs && r.requestId !in s.coord.active && r.requestId !in s.coord.locks
    ensures SameRun(s, r, s1, r1, env) && r1 == r.(pc := RateHit, locked := true)
    ensures s1 == s.(coord := s.coord.(locks := s.coord.locks[r.requestId :=
                                                  C.Timed(s.coord.now, Some(s.coord.now + 300_000))]))
  {
    OneCommand(s, r, s, r, env);
    OneCommand(s, r, s, r.(pc := CheckActive), env);
    OneCommand(s, r, s, r.(pc := Lock), env);
    s1, r1 := NextStore(s, r.(pc := Lock), env(Lock)), r.(pc := RateHit, locked := true);
  }

  // ---- The launch ----

  function Hits(c: C.Coord, userId: string): int {
    if userId in c.rate then c.rate[userId].value else 0
  }

  /** One more hit; the first of a window opens it for a minute. */
  function OneHitMore(c: C.Coord, userId: string): C.Timed<int> {
    C.Timed(Hits(c, userId) + 1, if Hits(c, userId) == 0 then Some(c.now + 60_000) else c.rate[userId].expiry)
  }

  lemma PassesRateCheck(s0: Store, r0: Run, s: Store, r: Run, env: Env) returns (s1: Store)
    requires SameRun(s0, r0, s, r, env) && r.pc == RateHit && Hits(s.coord, r.userId) < 5
    ensures SameRun(s0, r0, s1, r.(pc := Create), env)
    ensures s1 == s.(coord := s.coord.(rate := s.coord.rate[r.userId := OneHitMore(s.coord, r.userId)]))
  {
    OneCommand(s0, r0, s, r, env);
    var hit := C.Hit(s.coord, r.userId);
    s1 := s.(coord := hit.0);
    if hit.1 == 1 {
      OneCommand(s0, r0, s1, r.(pc := RateArm), env);
      s1 := s.(coord := C.Arm(hit.0, r.userId));
    }
  }

  lemma CreatesAndQueues(s0: Store, r0: Run, s: Store, r: Run, env: Env) returns (s1: Store)
    requires SameRun(s0, r0, s, r, env) && r.pc == Create && env(Create) == Ok && r.requestId !in s.docs
    ensures SameRun(s0, r0, s1, r.(pc := Emit(HotelRequested), created := true, queuedAt := Some(s.coord.now)), env)
    ensures s1.docs ==
            s.docs[r.requestId := Doc(r.userId, r.totalAmount, PENDING, None, None, None, None, [], None)]
    ensures s1.published == s.published && s1.notes == s.notes
    ensures s1.coord ==
            s.coord.(active := s1.coord.active, pending := s.coord.pending[r.requestId := s.coord.now])
            && s1.coord.active - {r.requestId} == s.coord.active - {r.requestId}
  {
    OneCommand(s0, r0, s, r, env);
    var r1 := r.(pc := CacheActive, created := true);
    var s2 := NextStore(s, r, Ok);
    CacheAndEnqueue(s0, r0, s2, r1, env);
    var cached := C.SetActive(s2.coord, r.requestId, C.ActiveState(None, r.userId, PENDING, r.totalAmount), ACTIVE_TTL);
    s1 := s2.(coord := C.Enqueue(cached, r.requestId, None));
  }

  /** One more on a step. */
  function Plus(counters: C.Counters, step: string): C.Counters {
    counters[step := (if step in counters then counters[step] else 0) + 1]
  }

  function CountersOf(c: C.Coord, id: string): C.Counters {
    if id in c.steps then c.steps[id].value else map[]
  }

  /** One more on a step of the request, the counters living on for two hours. */
  function Counted(c: C.Coord, id: string, step: string): C.Coord {
    c.(steps := c.steps[id := C.Timed(Plus(CountersOf(c, id), step), Some(c.now + 7_200_000))])
  }

  lemma CountedThrice(c: C.Coord, id: string, a: string, b: string, d: string)
    ensures Counted(Counted(Counted(c, id, a), id, b), id, d) ==
            c.(steps := c.steps[id := C.Timed(Plus(Plus(Plus(CountersOf(c, id), a), b), d),
                                              Some(c.now + 7_200_000))])
  {
  }

  lemma CountAndTouch(c: C.Coord, id: string, step: string)
    ensures C.ExpireSteps(C.CountStep(c, id, step), id) == Counted(c, id, step)
  {
  }

  lemma Publishes(s0: Store, r0: Run, s: Store, r: Run, event: Event, env: Env) returns (s1: Store, r1: Run)
    requires SameRun(s0, r0, s, r, env) && r.pc == Emit(event) && env(Emit(event)) == Ok
    ensures SameRun(s0, r0, s1, r1, env) && r1 == AfterTouch(r.(pc := Touch(event), sent := r.sent + 1), event)
    ensures s1 == s.(published := s.published + [(event, r.requestId)],
                     coord := Counted(s.coord, r.requestId, RequestStep(event)))
  {
    OneCommand(s0, r0, s, r, env);
    s1, r1 := NextStore(s, r, Ok), r.(pc := Count(event), sent := r.sent + 1);
    s1, r1 := Counts(s0, r0, s1, r1, event, env);
  }

  lemma Counts(s0: Store, r0: Run, s: Store, r: Run, event: Event, env: Env) returns (s1: Store, r1: Run)
    requires SameRun(s0, r0, s, r, env) && r.pc == Count(event)
    ensures SameRun(s0, r0, s1, r1, env) && r1 == AfterTouch(r.(pc := Touch(event)), event)
    ensures s1 == s.(coord := Counted(s.coord, r.requestId, RequestStep(event)))
  {
    var step := RequestStep(event);
    OneCommand(s0, r0, s, r, env);
    s1, r1 := s.(coord := C.CountStep(s.coord, r.requestId, step)), r.(pc := Touch(event));
    OneCommand(s0, r0, s1, r1, env);
    CountAndTouch(s.coord, r.requestId, step);
    s1, r1 := s1.(coord := C.ExpireSteps(s1.coord, r.requestId)), AfterTouch(r1, event);
  }

  lemma PublishesAll(s0: Store, r0: Run, s: Store, r: Run, env: Env) returns (s1: Store, r1: Run)
    requires SameRun(s0, r0, s, r, env) && r.pc == Emit(HotelRequested) && r.sent == 0 && r.locked && AllPublished(env)
    ensures SameRun(s0, r0, s1, r1, env) && r1 == r.(pc := Unlock, sent := 3, status := Some(PENDING))
    ensures s1.docs == s.docs && s1.notes == s.notes
    ensures s1.published == s.published + [(HotelRequested, r.requestId), (FlightRequested, r.requestId),
                                           (CarRequested, r.requestId)]
    ensures s1.coord == Counted(Counted(Counted(s.coord, r.requestId, "HOTEL_REQUESTED"), r.requestId,
                                        "FLIGHT_REQUESTED"), r.requestId, "CAR_REQUESTED")
  {
    var s2, r2 := Publishes(s0, r0, s, r, HotelRequested, env);
    var s3, r3 := Publishes(s0, r0, s2, r2, FlightRequested, env);
    s1, r1 := Publishes(s0, r0, s3, r3, CarRequested, env);
  }

  /** Whether the call can go through: new to all stores, and its user has fewer than five hits. */
  predicate CanLaunch(s: Store, requestId: string, userId: string) {
    requestId !in s.docs && requestId !in s.coord.active && requestId !in s.coord.locks && Hits(s.coord, userId) < 5
  }

  /** A new PENDING document, three events in the order hotel, flight, car, one count more on each of their steps, the
      counters living on for two hours, a place in the queue, at the present time, and one hit more for the user; and
      nothing else is changed. */
  predicate OnlyLaunched(s: Store, s': Store, requestId: string, userId: string, totalAmount: real) {
    && s'.docs == s.docs[requestId := Doc(userId, totalAmount, PENDING, None, None, None, None, [], None)]
    && s'.published == s.published + [(HotelRequested, requestId), (FlightRequested, requestId),
                                      (CarRequested, requestId)]
    && s'.notes == s.notes
    && s'.coord.now == s.coord.now && s'.coord.locks == s.coord.locks && s'.coord.active == s.coord.active
    && s'.coord.metadata == s.coord.metadata
    && s'.coord.pending == s.coord.pending[requestId := s.coord.now]
    && s'.coord.rate == s.coord.rate[userId := OneHitMore(s.coord, userId)]
    && s'.coord.steps == s.coord.steps[requestId :=
         C.Timed(Plus(Plus(Plus(CountersOf(s.coord, requestId), "HOTEL_REQUESTED"), "FLIGHT_REQUESTED"),
                      "CAR_REQUESTED"), Some(s.coord.now + 7_200_000))]
  }

  /** A call that goes through, everything acknowledged, answers PENDING without number or message, and that is all it
      leaves. */
  lemma LaunchLeaves(s: Store, requestId: string, userId: string, totalAmount: real, env: Env)
    requires CanLaunch(s, requestId, userId) && env(Find) == Ok && env(Create) == Ok && AllPublished(env)
    ensures var (s', r') := RunAlone(s, NewRun(requestId, userId, totalAmount), env);
            && !r'.threw && r'.status == Some(PENDING) && r'.bookingId == None && r'.message == None
            && OnlyLaunched(s, s', requestId, userId, totalAmount)
  {
    var r := NewRun(requestId, userId, totalAmount);
    var s3, r3 := UpToPublishing(s, r, env);
    var s4, r4 := PublishesAll(s, r, s3, r3, env);
    Leaves(s, r, s4, r4, env);
    AddsUp(s, s3, s4, r);
  }

  lemma AddsUp(s: Store, s3: Store, s4: Store, r: Run)
    requires CanLaunch(s, r.requestId, r.userId) && UpTo(s, s3, r) && s4.docs == s3.docs && s4.notes == s3.notes
    requires s4.published == s3.published + [(HotelRequested, r.requestId), (FlightRequested, r.requestId),
                                             (CarRequested, r.requestId)]
    requires s4.coord == Counted(Counted(Counted(s3.coord, r.requestId, "HOTEL_REQUESTED"), r.requestId,
                                         "FLIGHT_REQUESTED"), r.requestId, "CAR_REQUESTED")
    ensures OnlyLaunched(s, s4.(coord := s4.coord.(locks := s4.coord.locks - {r.requestId},
                                                   active := s4.coord.active - {r.requestId})),
                         r.requestId, r.userId, r.totalAmount)
  {
    CountedThrice(s3.coord, r.requestId, "HOTEL_REQUESTED", "FLIGHT_REQUESTED", "CAR_REQUESTED");
    assert s.coord.active - {r.requestId} == s.coord.active;
    assert s.coord.locks - {r.requestId} == s.coord.locks;
  }

  /** The store once the request is registered: document, queue, hit, and the lock and the cache it will give back. */
  predicate UpTo(s: Store, s1: Store, r: Run) {
    && s1.docs == s.docs[r.requestId := Doc(r.userId, r.totalAmount, PENDING, None, None, None, None, [], None)]
    && s1.published == s.published && s1.notes == s.notes
    && var c, id := s.coord, r.requestId;
       && s1.coord == c.(locks := s1.coord.locks, active := s1.coord.active, pending := c.pending[id := c.now],
                         rate := c.rate[r.userId := OneHitMore(c, r.userId)])
       && s1.coord.locks - {id} == c.locks - {id} && s1.coord.active - {id} == c.active - {id}
  }

  lemma UpToPublishing(s: Store, r: Run, env: Env) returns (s1: Store, r1: Run)
    requires r == NewRun(r.requestId, r.userId, r.totalAmount) && CanLaunch(s, r.requestId, r.userId)
    requires env(Find) == Ok && env(Create) == Ok
    ensures SameRun(s, r, s1, r1, env)
    ensures r1 == r.(pc := Emit(HotelRequested), locked := true, created := true, queuedAt := Some(s.coord.now))
    ensures UpTo(s, s1, r)
  {
    var s2, r2 := ToRateCheck(s, r, env);
    var s3 := PassesRateCheck(s, r, s2, r2, env);
    s1 := CreatesAndQueues(s, r, s3, r2.(pc := Create), env);
    r1 := r2.(pc := Emit(HotelRequested), created := true, queuedAt := Some(s.coord.now));
  }

  lemma Leaves(s0: Store, r0: Run, s: Store, r: Run, env: Env)
    requires SameRun(s0, r0, s, r, env) && r.pc == Unlock
    ensures RunAlone(s0, r0, env) == (s.(coord := s.coord.(locks := s.coord.locks - {r.requestId},
                                                          active := s.coord.active - {r.requestId})),
                                      r.(pc := Done))
  {
    OneCommand(s0, r0, s, r, env);
    var s1 := NextStore(s, r, env(Unlock));
    OneCommand(s0, r0, s1, r.(pc := Uncache), env);
  }
}
