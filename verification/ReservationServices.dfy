/** The flight, hotel and car rental services: reservations in memory, and the confirmation handler. The three differ in
    their reservation field, their step name and the steps they wait for. */
module ReservationServices {
  import opened SagaTypes
  import opened SagaProtocol
  import opened SagaCoordinator
  import opened Repository
  import opened Notifications
  import opened TravelBookingSaga
  import opened SoloHandlers
  import C = CoordinatorModel

  datatype Reservation = Reservation(requestId: string, userId: string, amount: real)

  type Reservations = map<string, Reservation>

  /** What happened to a service's reservations, oldest first. */
  datatype ReservationEvent = Made(id: string, request: Reservation) | Cancelled(id: string)

  /** The request an id stands for after a history: the last one made under it, unless cancelled since. */
  function Standing(history: seq<ReservationEvent>, id: string): Option<Reservation> {
    if history == [] then None else
      var last := history[|history| - 1];
      if last.id != id then Standing(history[..|history| - 1], id)
      else match last case Made(_, request) => Some(request) case Cancelled(_) => None
  }

  lemma StandingAfter(history: seq<ReservationEvent>, event: ReservationEvent, id: string)
    ensures Standing(history + [event], id) ==
            if event.id != id then Standing(history, id)
            else match event case Made(_, request) => Some(request) case Cancelled(_) => None
  {
    assert (history + [event])[..|history|] == history;
  }

  class ReservationService {
    const service: Service
    var reservations: Reservations
    ghost var history: seq<ReservationEvent>

    /** The map holds exactly what the history left standing. */
    ghost predicate Consistent()
      reads this
    {
      forall id :: Standing(history, id) == if id in reservations then Some(reservations[id]) else None
    }

    constructor (service: Service)
      ensures this.service == service && reservations == map[] && history == [] && Consistent()
    {
      this.service, reservations, history := service, map[], [];
    }

    /** `fails` is the simulated API error; the id drawn is new to this service. */
    method MakeReservation(request: Reservation, newId: string, fails: bool) returns (reservationId: Option<string>)
      requires newId !in reservations
      modifies this
      ensures reservationId == if fails then None else Some(newId)
      ensures reservations == if fails then old(reservations) else old(reservations)[newId := request]
      ensures history == if fails then old(history) else old(history) + [Made(newId, request)]
      ensures old(Consistent()) ==> Consistent()
    {
      if fails { return None; }
      forall id { StandingAfter(history, Made(newId, request), id); }
      history := history + [Made(newId, request)];
      reservations := reservations[newId := request];
      reservationId := Some(newId);
    }

    /** Throws on an API error and on an unknown id. */
    method CancelReservation(reservationId: string, fails: bool) returns (cancelled: bool)
      modifies this
      ensures cancelled <==> !fails && reservationId in old(reservations)
      ensures reservations == if cancelled then old(reservations) - {reservationId} else old(reservations)
      ensures history == if cancelled then old(history) + [Cancelled(reservationId)] else old(history)
      ensures old(Consistent()) ==> Consistent()
    {
      if fails || reservationId !in reservations { return false; }
      forall id { StandingAfter(history, Cancelled(reservationId), id); }
      history := history + [Cancelled(reservationId)];
      reservations := reservations - {reservationId};
      cancelled := true;
    }

    /** The request made under this id, if it was not cancelled since. */
    method GetReservation(reservationId: string) returns (found: Option<Reservation>)
      requires Consistent()
      ensures found == Standing(history, reservationId)
    {
      found := if reservationId in reservations then Some(reservations[reservationId]) else None;
    }
  }

  /** The confirmation side of one service: it shares the saga's stores and the notification service. */
  class ConfirmationHandler {
    const service: Service
    const joinSteps: seq<string>
    const saga: Saga
    const notifications: NotificationService

    constructor (service: Service, saga: Saga, notifications: NotificationService, hotelJoin: seq<string>)
      ensures this.service == service && this.saga == saga && this.notifications == notifications
      ensures joinSteps == JoinSteps(hotelJoin, service)
    {
      this.service, this.saga, this.notifications := service, saga, notifications;
      this.joinSteps := JoinSteps(hotelJoin, service);
    }

    ghost function View(): Store
      reads saga, saga.dbState, saga.coordinator, saga.brokerClient, notifications
    {
      saga.Stores(notifications.events)
    }

    /** Save, step counter, join test. */
    method SaveAndCount(requestId: string, reservationId: string, env: HandlerEnv)
        returns (joined: bool, ghost h': Handler)
      requires saga.coordinator.Valid() && joinSteps == JoinSteps(env.hotelJoin, service)
      modifies saga.dbState, saga.coordinator
      ensures saga.coordinator.Valid()
      ensures SameEnd(old(View()), NewHandler(service, requestId, reservationId), View(), h', env)
      ensures h'.requestId == requestId
      ensures env.replies(Save) != Ok ==> h'.pc == Fail && h'.error == DriverError && !joined
      ensures env.replies(Save) == Ok ==> if joined then h'.pc == AggFind else h'.pc == Over
    {
      ghost var s, h := View(), NewHandler(service, requestId, reservationId);
      var updated := saga.dbState.SaveConfirmedReservation(service, requestId, reservationId, env.replies(Save));
      OneMore(s, h, s, h, env);
      ghost var s1, h1 := View(), NextHandler(s, h, At(env, Save), env.hotelJoin);
      assert s1 == NextHandlerStore(s, h, At(env, Save));
      if env.replies(Save) != Ok { return false, h1; }
      var _ := saga.coordinator.IncrementStepCounter(requestId, StepOf(service));
      OneMore(s, h, s1, h1, env);
      ghost var s2, h2 := NextHandlerStore(s1, h1, At(env, CountConfirm)), h1.(pc := TouchConfirm);
      OneMore(s, h, s2, h2, env);
      assert View() == NextHandlerStore(s2, h2, At(env, TouchConfirm));
      h' := NextHandler(s2, h2, At(env, TouchConfirm), env.hotelJoin);
      var completedSteps := if updated.Some? then updated.value.completedSteps else [];
      joined := AllIn(joinSteps, completedSteps);
    }

    /** `joinSteps.every(step => completedSteps.includes(step))` */
    static method AllIn(wanted: seq<string>, steps: seq<string>) returns (all: bool)
      ensures all <==> forall step :: step in wanted ==> step in steps
    {
      for i := 0 to |wanted|
        invariant forall k :: 0 <= k < i ==> wanted[k] in steps
      {
        if wanted[i] !in steps { return false; }
      }
      all := true;
    }

    /** `confirmReservation`: it leaves the stores and the notifications as the protocol's handler, run alone, does. */
    method ConfirmReservation(requestId: string, reservationId: string, env: HandlerEnv, delivered: bool)
      requires saga.coordinator.Valid() && joinSteps == JoinSteps(env.hotelJoin, service)
      requires multiset(env.order) == multiset(C.ALL_DELETIONS)
      modifies saga.dbState, saga.coordinator, notifications
      ensures saga.coordinator.Valid()
      ensures View() == HandleAlone(old(View()), NewHandler(service, requestId, reservationId), env).0
    {
      ghost var s, h := View(), NewHandler(service, requestId, reservationId);
      var joined;
      ghost var h';
      joined, h' := SaveAndCount(requestId, reservationId, env);
      var error: Option<Message> := Some(DriverError);
      if env.replies(Save) == Ok {
        if !joined { return; }
        error, h' := saga.AggregateResults(requestId, env, h', notifications.events);
      }
      Announce(requestId, error, env, delivered, s, h, h');
    }

    /** The notification that ends the handler. */
    method Announce(requestId: string, error: Option<Message>, env: HandlerEnv, delivered: bool, ghost s: Store,
        ghost h: Handler, ghost h1: Handler)
      requires SameEnd(s, h, View(), h1, env) && h1.requestId == requestId
      requires if error.Some? then h1.pc == Fail
                                   && h1.error == error.value else h1.pc == Confirm && h1.bookingId == env.bookingId
      modifies notifications
      ensures View() == HandleAlone(s, h, env).0
    {
      OneMore(s, h, View(), h1, env);
      ghost var s1 := View();
      if error.None? {
        notifications.NotifyBookingConfirmed(requestId, env.bookingId, delivered);
      } else {
        notifications.NotifyBookingFailed(requestId, error.value, delivered);
      }
      assert View() == NextHandlerStore(s1, h1, At(env, h1.pc));
    }
  }
}
