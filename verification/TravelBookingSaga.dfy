/** The saga orchestrator (travel-booking.saga.ts): `execute`, command by command over the real stores, is the
    uninterrupted run of the protocol's step machine. */
module TravelBookingSaga {
  import opened SagaTypes
  import opened SagaState
  import opened SagaProtocol
  import opened SagaCoordinator
  import opened Repository
  import opened SoloHandlers
  import opened SoloRuns
  import C = CoordinatorModel

  /** What `execute` resolves to; a call that throws resolves to nothing. */
  datatype ExecutionResult = ExecutionResult(status: Option<Status>, bookingId: Option<string>,
      message: Option<Message>)

  datatype Verdict = Admitted | Answer(result: ExecutionResult) | Thrown(error: Message)

  class Saga {
    const dbState: SagaStateRepository
    const coordinator: Coordinator
    const brokerClient: BrokerClient
    var requestId: string

    constructor (dbState: SagaStateRepository, coordinator: Coordinator, brokerClient: BrokerClient)
      ensures this.dbState == dbState && this.coordinator == coordinator && this.brokerClient == brokerClient
    {
      this.dbState, this.coordinator, this.brokerClient, this.requestId := dbState, coordinator, brokerClient, "";
    }

    /** The stores, with a given notification stream. */
    ghost function Stores(notes: seq<Note>): Store
      reads dbState, coordinator, brokerClient
    {
      Store(dbState.docs, coordinator.view, brokerClient.published, notes)
    }

    ghost function View(): Store
      reads dbState, coordinator, brokerClient
    {
      Stores([])
    }

    /** Where a run stands after its next command. */
    ghost function After(s: Store, r: Run, env: Env): Run {
      NextRun(s, r, env(r.pc))
    }

    /** The same run further on, with its lock, request, number and message unchanged and nothing thrown. */
    ghost predicate Continues(r: Run, r': Run) {
      && !r'.threw && r'.locked == r.locked && r'.bookingId == r.bookingId && r'.message == r.message
      && (r'.requestId, r'.userId, r'.totalAmount) == (r.requestId, r.userId, r.totalAmount)
    }

    /** Steps 2 to 5: existing saga, active cache, lock, rate limit. */
    method Admit(userId: string, env: Env, ghost r: Run) returns (verdict: Verdict, lockAcquired: bool, ghost r': Run)
      requires coordinator.Valid() && r == NewRun(requestId, userId, r.totalAmount)
      modifies coordinator
      ensures coordinator.Valid()
      ensures RunAlone(old(View()), r, env) == RunAlone(View(), r', env)
      ensures r'.locked == lockAcquired && !r'.threw
              && (r'.requestId, r'.userId, r'.totalAmount) == (r.requestId, r.userId, r.totalAmount)
      ensures match verdict
              case Admitted => r'.pc == Create && r'.bookingId == None && r'.message == None
              case Answer(result) => r' == Finally(r') && result == ExecutionResult(r'.status, r'.bookingId, r'.message)
              case Thrown(error) => r'.pc == RecordError && r'.error == Some(error) && r'.bookingId == None
    {
      r', lockAcquired := r, false;
      if env(Find) != Ok {
        r' := After(View(), r', env);
        return Thrown(DriverError), false, r';
      }
      var existing := dbState.FindByRequestId(requestId);
      r' := After(View(), r', env);
      if existing.Some? {
        return Answer(ExecutionResult(Some(existing.value.status), existing.value.bookingId,
                                      existing.value.errorMessage)), false, r';
      }
      var active := coordinator.GetActiveSagaState(requestId);
      r' := After(View(), r', env);
      if active.Some? {
        return Answer(ExecutionResult(Some(active.value.status), OrNull(active.value.bookingId),
                                      Some(InProgress(requestId)))), false, r';
      }
      ghost var s, q := View(), r';
      assert RunAlone(old(View()), r, env) == RunAlone(s, q, env);
      lockAcquired := coordinator.AcquireSagaLock(requestId, LOCK_TTL);
      r' := After(s, q, env);
      assert View() == NextStore(s, q, env(Lock));
      if !lockAcquired {
        return Answer(ExecutionResult(Some(FAILED), None, Some(LockHeld(requestId)))), false, r';
      }
      verdict, r' := CheckRate(userId, env, r');
    }

    /** Step 5 on its own. */
    method CheckRate(userId: string, env: Env, ghost r: Run) returns (verdict: Verdict, ghost r': Run)
      requires coordinator.Valid() && r.pc == RateHit && r.userId == userId && r.locked && !r.threw
      modifies coordinator
      ensures coordinator.Valid()
      ensures RunAlone(old(View()), r, env) == RunAlone(View(), r', env)
      ensures Continues(r, r')
      ensures match verdict
              case Admitted => r'.pc == Create
              case Answer(_) => false
              case Thrown(error) => r'.pc == RecordError && r'.error == Some(error)
    {
      ghost var s := View();
      ghost var hit := C.Hit(s.coord, userId);
      var canProceed := coordinator.CheckRateLimit(userId, MAX_PER_MINUTE);
      r' := After(s, r, env);
      if hit.1 == 1 {
        ghost var s1 := s.(coord := hit.0);
        assert RunAlone(s, r, env) == RunAlone(s1, r', env);
        r' := After(s1, r', env);
      }
      verdict := if canProceed then Admitted else Thrown(RateExceeded(userId));
    }

    /** Steps 6 to 8: document, active cache, pending queue. */
    method Register(userId: string, totalAmount: real, env: Env, ghost r: Run)
        returns (error: Option<Message>, ghost r': Run)
      requires coordinator.Valid() && r.pc == Create
               && (r.requestId, r.userId, r.totalAmount) == (requestId, userId, totalAmount)
      requires !r.threw
      modifies coordinator, dbState
      ensures coordinator.Valid()
      ensures RunAlone(old(View()), r, env) == RunAlone(View(), r', env)
      ensures Continues(r, r')
      ensures if error.None? then r'.pc == Emit(HotelRequested) else r'.pc == RecordError && r'.error == error
    {
      ghost var s := View();
      OneCommand(s, r, s, r, env);
      error := dbState.Create(requestId, userId, totalAmount, env(Create));
      r' := After(s, r, env);
      assert View() == NextStore(s, r, env(Create));
      if error.Some? { return error, r'; }
      ghost var s1, r1 := View(), r';
      CacheAndEnqueue(s, r, s1, r1, env);
      coordinator.SetActiveSagaState(requestId, C.ActiveState(None, userId, PENDING, totalAmount), ACTIVE_TTL);
      coordinator.AddToPendingQueue(requestId, None);
      r' := r1.(pc := Emit(HotelRequested), queuedAt := Some(s1.coord.now));
    }

    /** The emit of one of steps 9 to 11. */
    method EmitRequest(event: Event, env: Env, ghost r: Run) returns (published: bool, ghost r': Run)
      requires r.pc == Emit(event) && r.requestId == requestId && !r.threw
      modifies brokerClient
      ensures RunAlone(old(View()), r, env) == RunAlone(View(), r', env)
      ensures Continues(r, r')
      ensures if published then r' == r.(pc := Count(event), sent := r.sent + 1)
              else r'.pc == RecordError && r'.error == Some(DriverError)
    {
      ghost var s := View();
      published := brokerClient.Emit(event, requestId, env(Emit(event)));
      r' := After(s, r, env);
      assert View() == NextStore(s, r, env(Emit(event)));
    }

    /** The step counter of one of steps 9 to 11. */
    method CountRequest(event: Event, env: Env, ghost r: Run) returns (ghost r': Run)
      requires coordinator.Valid() && r.pc == Count(event) && r.requestId == requestId
      modifies coordinator
      ensures coordinator.Valid()
      ensures RunAlone(old(View()), r, env) == RunAlone(View(), r', env)
      ensures r' == AfterTouch(r.(pc := Touch(event)), event)
    {
      ghost var s := View();
      var _ := coordinator.IncrementStepCounter(requestId, RequestStep(event));
      ghost var s1, r1 := NextStore(s, r, env(Count(event))), r.(pc := Touch(event));
      assert RunAlone(s, r, env) == RunAlone(s1, r1, env);
      r' := AfterTouch(r1, event);
      assert View() == NextStore(s1, r1, env(Touch(event)));
    }

    /** One of steps 9 to 11. */
    method PublishRequest(event: Event, env: Env, ghost r: Run) returns (published: bool, ghost r': Run)
      requires coordinator.Valid() && r.pc == Emit(event) && r.requestId == requestId && !r.threw
      modifies coordinator, brokerClient
      ensures coordinator.Valid()
      ensures RunAlone(old(View()), r, env) == RunAlone(View(), r', env)
      ensures Continues(r, r')
      ensures if published
              then if event == CarRequested then r' == Finally(r')
                                                 && r'.status == Some(PENDING) else r'.pc == Emit(Following(event))
              else r'.pc == RecordError && r'.error == Some(DriverError)
    {
      published, r' := EmitRequest(event, env, r);
      if published {
        r' := CountRequest(event, env, r');
      }
    }

    ghost function Following(event: Event): Event {
      if event == HotelRequested then FlightRequested else CarRequested
    }

    /** Steps 9 to 11. */
    method PublishAll(env: Env, ghost r: Run) returns (error: Option<Message>, ghost r': Run)
      requires coordinator.Valid() && r.pc == Emit(HotelRequested) && r.requestId == requestId && !r.threw
      modifies coordinator, brokerClient
      ensures coordinator.Valid()
      ensures RunAlone(old(View()), r, env) == RunAlone(View(), r', env)
      ensures Continues(r, r')
      ensures if error.None? then r' == Finally(r')
                                  && r'.status == Some(PENDING) else r'.pc == RecordError && r'.error == error
    {
      var published;
      published, r' := PublishRequest(HotelRequested, env, r);
      if !published { return Some(DriverError), r'; }
      published, r' := PublishRequest(FlightRequested, env, r');
      if !published { return Some(DriverError), r'; }
      published, r' := PublishRequest(CarRequested, env, r');
      error := if published then None else Some(DriverError);
    }

    /** Steps 6 to 11. */
    method Launch(userId: string, totalAmount: real, env: Env, ghost r: Run)
        returns (error: Option<Message>, ghost r': Run)
      requires coordinator.Valid() && r.pc == Create
               && (r.requestId, r.userId, r.totalAmount) == (requestId, userId, totalAmount)
      requires !r.threw
      modifies coordinator, dbState, brokerClient
      ensures coordinator.Valid()
      ensures RunAlone(old(View()), r, env) == RunAlone(View(), r', env)
      ensures Continues(r, r')
      ensures if error.None? then r' == Finally(r')
                                  && r'.status == Some(PENDING) else r'.pc == RecordError && r'.error == error
    {
      error, r' := Register(userId, totalAmount, env, r);
      if error.None? {
        error, r' := PublishAll(env, r');
      }
    }

    /** Step 13: error metadata for debugging. */
    method RecordMetadata(error: Message, env: Env, ghost r: Run) returns (ghost r': Run)
      requires coordinator.Valid() && r.pc == PutMeta && r.error == Some(error) && r.requestId == requestId
      modifies coordinator
      ensures coordinator.Valid()
      ensures RunAlone(old(View()), r, env) == RunAlone(View(), r', env)
      ensures r' == Finally(r.(status := Some(FAILED), message := Some(error)))
    {
      PutAndTouch(View(), r, env);
      var fields: C.Fields := ErrorFields(coordinator.now, error);
      assert C.ErrorField in fields;
      coordinator.SetSagaMetadata(requestId, fields, 3600);
      r' := Finally(r.(status := Some(FAILED), message := Some(error)));
    }

    /** The catch block: steps 12 and 13. */
    method Recover(error: Message, env: Env, ghost r: Run) returns (recorded: bool, ghost r': Run)
      requires coordinator.Valid() && r.pc == RecordError && r.error == Some(error) && r.requestId == requestId
               && !r.threw
      modifies coordinator, dbState
      ensures coordinator.Valid()
      ensures RunAlone(old(View()), r, env) == RunAlone(View(), r', env)
      ensures r'.locked == r.locked && r'.requestId == r.requestId && r' == Finally(r') && r'.threw == !recorded
      ensures recorded ==> r'.status == Some(FAILED) && r'.message == Some(error) && r'.bookingId == r.bookingId
    {
      ghost var s := View();
      recorded := dbState.SetErrorState(requestId, error, env(RecordError));
      r' := After(s, r, env);
      assert View() == NextStore(s, r, env(RecordError));
      if recorded {
        r' := RecordMetadata(error, env, r');
      }
    }

    /** The finally block: steps 14 and 15. */
    method Leave(lockAcquired: bool, env: Env, ghost r: Run)
      requires coordinator.Valid() && r == Finally(r) && r.locked == lockAcquired && r.requestId == requestId
      modifies coordinator
      ensures coordinator.Valid()
      ensures RunAlone(old(View()), r, env).0 == View()
      ensures var end := RunAlone(old(View()), r, env).1;
              (end.status, end.bookingId, end.message, end.threw) == (r.status, r.bookingId, r.message, r.threw)
    {
      ghost var s, q := View(), r;
      if lockAcquired {
        OneCommand(s, r, s, q, env);
        coordinator.ReleaseSagaLock(requestId);
        assert View() == NextStore(s, q, env(Unlock));
        q := r.(pc := Uncache);
      }
      ghost var s1 := View();
      OneCommand(s, r, s1, q, env);
      coordinator.ClearActiveSagaState(requestId);
      assert View() == NextStore(s1, q, env(Uncache));
      assert RunAlone(View(), q.(pc := Done), env) == (View(), q.(pc := Done));
    }

    /** `execute` after validation. `threw` says that it rejects; otherwise it resolves to `result`. */
    method Execute(request: string, userId: string, totalAmount: real, env: Env)
        returns (result: ExecutionResult, threw: bool)
      requires coordinator.Valid()
      modifies this, coordinator, dbState, brokerClient
      ensures coordinator.Valid() && requestId == request
      ensures var (store, run) := RunAlone(old(View()), NewRun(request, userId, totalAmount), env);
              && View() == store
              && threw == run.threw
              && (!threw ==> result == ExecutionResult(run.status, run.bookingId, run.message))
    {
      requestId := request;
      ghost var r := NewRun(request, userId, totalAmount);
      var verdict, lockAcquired;
      verdict, lockAcquired, r := Admit(userId, env, r);
      threw := false;
      var error: Option<Message> := None;
      match verdict {
        case Answer(answer) =>
          result := answer;
        case Thrown(thrown) =>
          error := Some(thrown);
        case Admitted =>
          error, r := Launch(userId, totalAmount, env, r);
      }
      if error.Some? {
        var recorded;
        recorded, r := Recover(error.value, env, r);
        threw := !recorded;
      }
      if !verdict.Answer? {
        result := ExecutionResult(Some(if error.None? then PENDING else FAILED), None, error);
      }
      Leave(lockAcquired, env, r);
    }

    /** The body of `aggregateResults`: read, number, final update, Redis clean-up. */
    method Finish(id: string, env: HandlerEnv, ghost h: Handler, ghost notes: seq<Note>)
        returns (error: Option<Message>, ghost h': Handler)
      requires coordinator.Valid() && multiset(env.order) == multiset(C.ALL_DELETIONS)
      requires h.pc == AggFind && h.requestId == id
      modifies coordinator, dbState
      ensures coordinator.Valid()
      ensures SameEnd(old(Stores(notes)), h, Stores(notes), h', env)
      ensures h'.requestId == id
      ensures if error.Some? then h'.pc == AggError && h'.error == error.value
                                  && coordinator.view == old(coordinator.view)
              else h'.pc == Confirm && h'.bookingId == env.bookingId &&
                   id in old(dbState.docs) && !Incomplete(old(dbState.docs)[id]) &&
                   dbState.docs == Finalize(old(dbState.docs), id, env.bookingId)
                   && coordinator.view == C.Without(old(coordinator.view), id)
    {
      ghost var s := Stores(notes);
      var found := dbState.FindByRequestId(id);
      OneMore(s, h, s, h, env);
      ghost var h1 := NextHandler(s, h, At(env, AggFind), env.hotelJoin);
      if env.replies(AggFind) != Ok { return Some(DriverError), h1; }
      if found.None? { return Some(NotFound(id)), h1; }
      if Incomplete(found.value) { return Some(IncompleteIds(id)), h1; }
      error := dbState.FinalizeState(id, env.bookingId, env.replies(AggUpdate));
      OneMore(s, h, s, h1, env);
      h' := NextHandler(s, h1, At(env, AggUpdate), env.hotelJoin);
      assert Stores(notes) == NextHandlerStore(s, h1, At(env, AggUpdate));
      if error.None? {
        h' := CleanRedis(id, env, s, h, h', notes);
      }
    }

    method CleanRedis(id: string, env: HandlerEnv, ghost s: Store, ghost h: Handler, ghost h1: Handler,
        ghost notes: seq<Note>)
      returns (ghost h': Handler)
      requires coordinator.Valid() && multiset(env.order) == multiset(C.ALL_DELETIONS)
      requires h1.pc == AggCount && h1.requestId == id && SameEnd(s, h, Stores(notes), h1, env)
      modifies coordinator
      ensures coordinator.Valid()
      ensures SameEnd(s, h, Stores(notes), h', env)
      ensures h' == h1.(pc := Confirm)
      ensures coordinator.view == C.Without(old(coordinator.view), id)
    {
      ghost var s1 := Stores(notes);
      CountAndDequeue(s, h, s1, h1, env);
      var _ := coordinator.IncrementStepCounter(id, COMPLETED);
      coordinator.RemoveFromPendingQueue(id);
      ghost var s4, h4 := Stores(notes), h1.(pc := AggClean(C.ALL_DELETIONS));
      coordinator.Cleanup(id, env.order);
      ThenCleans(s, h, s4, h4, id, env);
      h' := h1.(pc := Confirm);
      C.WithoutForgets(s1.coord, id, COMPLETED);
    }

    static lemma ThenCleans(s: Store, h: Handler, s1: Store, h1: Handler, id: string, env: HandlerEnv)
      requires SameEnd(s, h, s1, h1, env) && h1.pc == AggClean(C.ALL_DELETIONS) && h1.requestId == id
      requires multiset(env.order) == multiset(C.ALL_DELETIONS)
      ensures SameEnd(s, h, s1.(coord := C.Without(s1.coord, id)), h1.(pc := Confirm), env)
    {
      C.NoRepeats(env.order);
      assert [] + env.order == env.order;
      CleanContinues(s1, h1, [], env.order, env);
      C.CleanupInAnyOrder(s1.coord, env.order, id);
    }

    /** `aggregateResults`: the number it issued, or the error it rethrows after recording it. */
    method AggregateResults(id: string, env: HandlerEnv, ghost h: Handler, ghost notes: seq<Note>)
      returns (error: Option<Message>, ghost h': Handler)
      requires coordinator.Valid() && multiset(env.order) == multiset(C.ALL_DELETIONS)
      requires h.pc == AggFind && h.requestId == id
      modifies coordinator, dbState
      ensures coordinator.Valid()
      ensures SameEnd(old(Stores(notes)), h, Stores(notes), h', env)
      ensures h'.requestId == id
      ensures if error.Some? then h'.pc == Fail && h'.error == error.value
              else h'.pc == Confirm && h'.bookingId == env.bookingId &&
                   id in old(dbState.docs) && !Incomplete(old(dbState.docs)[id]) &&
                   dbState.docs == Finalize(old(dbState.docs), id, env.bookingId)
                   && coordinator.view == C.Without(old(coordinator.view), id)
    {
      ghost var s := Stores(notes);
      error, h' := Finish(id, env, h, notes);
      if error.Some? {
        ghost var s1, h1 := Stores(notes), h';
        var recorded := dbState.SetErrorState(id, error.value, env.replies(AggError));
        OneMore(s, h, s1, h1, env);
        h' := NextHandler(s1, h1, At(env, AggError), env.hotelJoin);
        assert Stores(notes) == NextHandlerStore(s1, h1, At(env, AggError));
        if recorded {
          h' := RecordAggregation(id, error.value, env, s, h, h', notes);
        } else {
          error := Some(DriverError);
        }
      }
    }

    method RecordAggregation(id: string, error: Message, ghost env: HandlerEnv, ghost s: Store, ghost h: Handler,
        ghost h1: Handler,
                             ghost notes: seq<Note>)
      returns (ghost h': Handler)
      requires coordinator.Valid()
      requires h1.pc == AggPutMeta && h1.requestId == id && h1.error == error && SameEnd(s, h, Stores(notes), h1, env)
      modifies coordinator
      ensures coordinator.Valid()
      ensures SameEnd(s, h, Stores(notes), h', env)
      ensures h' == h1.(pc := Fail)
    {
      RecordAndTouch(s, h, Stores(notes), h1, env);
      var fields := AggregationFields(coordinator.now, error);
      assert C.ErrorField in fields;
      coordinator.SetSagaMetadata(id, fields, 7200);
      h' := h1.(pc := Fail);
    }
  }
}
