/** The booking protocol, one awaited command per step: `execute` (a Run), `confirmReservation` with
    `aggregateResults` (a Handler), and the world in which any number of both interleave. */
module SagaProtocol {
  import opened SagaTypes
  import opened SagaState
  import C = CoordinatorModel

  /** What a client sees on the notification stream. */
  datatype Note = BookingConfirmed(requestId: string, bookingId: string) | BookingFailed(requestId: string,
      error: Message)

  /** MongoDB documents, Redis, the broker's log of request events and the notification stream. */
  datatype Store = Store(docs: Docs, coord: C.Coord, published: seq<(Event, string)>, notes: seq<Note>)

  const MAX_PER_MINUTE := 5
  const LOCK_TTL := 300
  const ACTIVE_TTL := 3600

  // ---- execute ----

  /** The command a run issues next. */
  datatype Pc =
    | Find | CheckActive | Lock | RateHit | RateArm
    | Create | CacheActive | Enqueue
    | Emit(event: Event) | Count(event: Event) | Touch(event: Event)
    | RecordError | PutMeta | TouchMeta
    | Unlock | Uncache | Done

  /** One call of `execute`, after validation. `created`, `sent` and `queuedAt` are history: whether this run's
      create was acknowledged, how many of its events the broker holds, and when it entered the pending queue. */
  datatype Run = Run(
    requestId: string, userId: string, totalAmount: real,
    pc: Pc, locked: bool, error: Option<Message>,
    status: Option<Status>, bookingId: Option<string>, message: Option<Message>, threw: bool,
    created: bool, sent: nat, queuedAt: Option<nat>)

  function NewRun(requestId: string, userId: string, totalAmount: real): Run {
    Run(requestId, userId, totalAmount, Find, false, None, None, None, None, false, false, 0, None)
  }

  /** Entering `finally`: the lock is released only if this run took it. */
  function Finally(r: Run): Run {
    r.(pc := if r.locked then Unlock else Uncache)
  }

  function Throw(r: Run, error: Message): Run {
    r.(pc := RecordError, error := Some(error))
  }

  /** Why the run is in its catch block. */
  function Reason(error: Option<Message>): Message {
    match error case Some(message) => message case None => DriverError
  }

  /** An event's place in the order of publication. */
  function Index(event: Event): nat {
    match event case HotelRequested => 0 case FlightRequested => 1 case CarRequested => 2
  }

  function ErrorFields(now: nat, error: Message): C.Fields {
    map[C.ErrorField := C.Why(error), C.FailedAtField := C.At(now), C.BookingIdField := C.NotGenerated]
  }

  function AfterTouch(r: Run, event: Event): Run {
    match event
    case HotelRequested => r.(pc := Emit(FlightRequested))
    case FlightRequested => r.(pc := Emit(CarRequested))
    case CarRequested => Finally(r.(status := Some(PENDING)))
  }

  /** What a run's next command does to the stores. The reply matters only to MongoDB and broker commands. */
  function NextStore(s: Store, r: Run, reply: Reply): Store {
    var id := r.requestId;
    match r.pc
    case Find => s
    case CheckActive => s
    case Lock => s.(coord := C.Acquire(s.coord, id, LOCK_TTL).0)
    case RateHit => s.(coord := C.Hit(s.coord, r.userId).0)
    case RateArm => s.(coord := C.Arm(s.coord, r.userId))
    case Create =>
      if reply == Lost || id in s.docs then s else s.(docs := s.docs[id := NewDoc(r.userId, r.totalAmount)])
    case CacheActive =>
      s.(coord := C.SetActive(s.coord, id, C.ActiveState(None, r.userId, PENDING, r.totalAmount), ACTIVE_TTL))
    case Enqueue => s.(coord := C.Enqueue(s.coord, id, None))
    case Emit(event) => if reply == Lost then s else s.(published := s.published + [(event, id)])
    case Count(event) => s.(coord := C.CountStep(s.coord, id, RequestStep(event)))
    case Touch(event) => s.(coord := C.ExpireSteps(s.coord, id))
    case RecordError => if reply == Lost then s else s.(docs := SetError(s.docs, id, Reason(r.error)))
    case PutMeta => s.(coord := C.SetMeta(s.coord, id, ErrorFields(s.coord.now, Reason(r.error))))
    case TouchMeta => s.(coord := C.ExpireMeta(s.coord, id, 3600))
    case Unlock => s.(coord := C.Release(s.coord, id))
    case Uncache => s.(coord := C.ClearActive(s.coord, id))
    case Done => s
  }

  /** Where the run goes, given what the command saw. */
  function NextRun(s: Store, r: Run, reply: Reply): (next: Run)
    ensures (next.requestId, next.userId, next.totalAmount) == (r.requestId, r.userId, r.totalAmount)
  {
    var id := r.requestId;
    match r.pc
    case Find =>
      if reply != Ok then Throw(r, DriverError)
      else if id in s.docs then
        var d := s.docs[id];
        Finally(r.(status := Some(d.status), bookingId := d.bookingId, message := d.errorMessage))
      else r.(pc := CheckActive)
    case CheckActive =>
      if id in s.coord.active then
        var a := s.coord.active[id].value;
        Finally(r.(status := Some(a.status), bookingId := OrNull(a.bookingId), message := Some(InProgress(id))))
      else r.(pc := Lock)
    case Lock =>
      if C.Acquire(s.coord, id, LOCK_TTL).1 then r.(pc := RateHit, locked := true)
      else Finally(r.(status := Some(FAILED), message := Some(LockHeld(id))))
    case RateHit =>
      var count := C.Hit(s.coord, r.userId).1;
      if count == 1 then r.(pc := RateArm)
      else if count <= MAX_PER_MINUTE then r.(pc := Create)
      else Throw(r, RateExceeded(r.userId))
    case RateArm => r.(pc := Create)
    case Create =>
      if reply == Lost then Throw(r, DriverError)
      else if id in s.docs then Throw(r, DuplicateKey)
      else if reply == Ok then r.(pc := CacheActive, created := true)
      else Throw(r, DriverError)
    case CacheActive => r.(pc := Enqueue)
    case Enqueue => r.(pc := Emit(HotelRequested), queuedAt := Some(s.coord.now))
    case Emit(event) =>
      if reply == Lost then Throw(r, DriverError)
      else if reply == Ok then r.(pc := Count(event), sent := r.sent + 1)
      else Throw(r.(sent := r.sent + 1), DriverError)
    case Count(event) => r.(pc := Touch(event))
    case Touch(event) => AfterTouch(r, event)
    case RecordError => if reply == Ok then r.(pc := PutMeta) else Finally(r.(threw := true))
    case PutMeta => r.(pc := TouchMeta)
    case TouchMeta => Finally(r.(status := Some(FAILED), message := Some(Reason(r.error))))
    case Unlock => r.(pc := Uncache)
    case Uncache => r.(pc := Done)
    case Done => r
  }

  /** One command of `execute`. */
  function RunStep(s: Store, r: Run, reply: Reply): (Store, Run) {
    (NextStore(s, r, reply), NextRun(s, r, reply))
  }

  // ---- confirmReservation and aggregateResults ----

  datatype HandlerPc =
    | Save | CountConfirm | TouchConfirm
    | AggFind | AggUpdate | AggCount | AggTouch | AggDequeue | AggClean(todo: set<C.Deletion>)
    | AggError | AggPutMeta | AggTouchMeta
    | Confirm | Fail | Over

  /** One call of `confirmReservation`. `joined`: the document its save returned held the service's whole constant.
      `called` is history: it went on to call aggregateResults. */
  datatype Handler = Handler(
    service: Service, requestId: string, reservationId: string,
    pc: HandlerPc, joined: bool, called: bool, error: Message, bookingId: string, incomplete: bool)

  function NewHandler(service: Service, requestId: string, reservationId: string): Handler {
    Handler(service, requestId, reservationId, Save, false, false, DriverError, "", false)
  }

  const SHARED_JOIN: seq<string> := [FLIGHT_CONFIRMED, HOTEL_CONFIRMED, CAR_CONFIRMED]

  /** The hotel service's constant as the source has it. */
  const HOTEL_JOIN: seq<string> := ["flight_confirmed", "hotel_confirmed", "hotel_confirmed"]

  /** The steps a service waits for; the hotel's constant is a parameter so that both versions can be studied. */
  function JoinSteps(hotelJoin: seq<string>, service: Service): seq<string> {
    if service == Hotel then hotelJoin else SHARED_JOIN
  }

  function Steps(docs: Docs, requestId: string): seq<string> {
    if requestId in docs then docs[requestId].completedSteps else []
  }

  predicate Joins(hotelJoin: seq<string>, service: Service, steps: seq<string>) {
    forall step :: step in JoinSteps(hotelJoin, service) ==> step in steps
  }

  /** The truthiness test on a reservation id: absent and empty both fail it. */
  predicate Falsy(id: Option<string>) {
    id.None? || id.value == ""
  }

  predicate Incomplete(d: Doc) {
    Falsy(d.flightReservationId) || Falsy(d.hotelReservationId) || Falsy(d.carRentalReservationId)
  }

  function AggregationFields(now: nat, error: Message): C.Fields {
    map[C.ErrorField := C.Why(error), C.FailedAtField := C.At(now), C.StepField := C.Aggregation]
  }

  /** What the environment decides at a handler's step: the reply, the booking number generated, and which of
      cleanup's outstanding deletions lands next. */
  datatype Choice = Choice(reply: Reply, bookingId: string, next: C.Deletion)

  function NextHandlerStore(s: Store, h: Handler, choice: Choice): Store {
    var id := h.requestId;
    match h.pc
    case Save =>
      if choice.reply == Lost then s else s.(docs := SaveConfirmed(s.docs, h.service, id, h.reservationId))
    case CountConfirm => s.(coord := C.CountStep(s.coord, id, StepOf(h.service)))
    case TouchConfirm => s.(coord := C.ExpireSteps(s.coord, id))
    case AggFind => s
    case AggUpdate =>
      if choice.reply == Lost || BookingIdTaken(s.docs, id, choice.bookingId) then s
      else s.(docs := Finalize(s.docs, id, choice.bookingId))
    case AggCount => s.(coord := C.CountStep(s.coord, id, COMPLETED))
    case AggTouch => s.(coord := C.ExpireSteps(s.coord, id))
    case AggDequeue => s.(coord := C.Dequeue(s.coord, id))
    case AggClean(todo) => if choice.next in todo then s.(coord := C.Delete(s.coord, choice.next, id)) else s
    case AggError => if choice.reply == Lost then s else s.(docs := SetError(s.docs, id, h.error))
    case AggPutMeta => s.(coord := C.SetMeta(s.coord, id, AggregationFields(s.coord.now, h.error)))
    case AggTouchMeta => s.(coord := C.ExpireMeta(s.coord, id, 7200))
    case Confirm => s.(notes := s.notes + [BookingConfirmed(id, h.bookingId)])
    case Fail => s.(notes := s.notes + [BookingFailed(id, h.error)])
    case Over => s
  }

  function NextHandler(s: Store, h: Handler, choice: Choice, hotelJoin: seq<string>): (next: Handler)
    ensures (next.service, next.requestId, next.reservationId) == (h.service, h.requestId, h.reservationId)
  {
    var id := h.requestId;
    match h.pc
    case Save =>
      if choice.reply == Ok then
        var docs := SaveConfirmed(s.docs, h.service, id, h.reservationId);
        h.(pc := CountConfirm, joined := Joins(hotelJoin, h.service, Steps(docs, id)))
      else h.(pc := Fail, error := DriverError)
    case CountConfirm => h.(pc := TouchConfirm)
    case TouchConfirm => if h.joined then h.(pc := AggFind, called := true) else h.(pc := Over)
    case AggFind =>
      if choice.reply != Ok then h.(pc := AggError, error := DriverError)
      else if id !in s.docs then h.(pc := AggError, error := NotFound(id))
      else if Incomplete(s.docs[id]) then h.(pc := AggError, error := IncompleteIds(id), incomplete := true)
      else h.(pc := AggUpdate)
    case AggUpdate =>
      if choice.reply == Lost then h.(pc := AggError, error := DriverError)
      else if BookingIdTaken(s.docs, id, choice.bookingId) then h.(pc := AggError, error := DuplicateKey)
      else if choice.reply == Ok then h.(pc := AggCount, bookingId := choice.bookingId)
      else h.(pc := AggError, error := DriverError)
    case AggCount => h.(pc := AggTouch)
    case AggTouch => h.(pc := AggDequeue)
    case AggDequeue => h.(pc := AggClean(C.ALL_DELETIONS))
    case AggClean(todo) =>
      if todo == {} then h.(pc := Confirm)
      else if choice.next in todo then h.(pc := AggClean(todo - {choice.next}))
      else h
    case AggError => if choice.reply == Ok then h.(pc := AggPutMeta) else h.(pc := Fail, error := DriverError)
    case AggPutMeta => h.(pc := AggTouchMeta)
    case AggTouchMeta => h.(pc := Fail)
    case Confirm => h.(pc := Over)
    case Fail => h.(pc := Over)
    case Over => h
  }

  /** One command of `confirmReservation`. */
  function HandlerStep(s: Store, h: Handler, choice: Choice, hotelJoin: seq<string>): (Store, Handler) {
    (NextHandlerStore(s, h, choice), NextHandler(s, h, choice, hotelJoin))
  }

  // ---- Any number of both ----

  /** One save of a confirmation that reached a document, and the handler that issued it. */
  datatype Saved = Saved(handler: nat, service: Service, requestId: string, acked: bool, joined: bool)

  /** `saves` and `issued` are history: the confirmations saved, in order, and every booking number a document
      carried. */
  datatype World = World(
    store: Store, runs: map<nat, Run>, handlers: map<nat, Handler>,
    saves: seq<Saved>, issued: set<(string, string)>)

  /** What can happen next. A process that crashed is one that no later action names. */
  datatype Action =
    | Start(run: nat, requestId: string, userId: string, totalAmount: real)
    | Advance(run: nat, reply: Reply)
    | Deliver(handler: nat, service: Service, requestId: string, reservationId: string)
    | Proceed(handler: nat, choice: Choice)
    | Elapse(millis: nat)

  function Issued(docs: Docs, requestId: string): set<(string, string)> {
    if requestId in docs && docs[requestId].bookingId.Some? then {(requestId, docs[requestId].bookingId.value)} else {}
  }

  function NewSaves(s: Store, i: nat, h: Handler, h': Handler, reply: Reply): seq<Saved> {
    if h.pc == Save && reply != Lost && h.requestId in s.docs
    then [Saved(i, h.service, h.requestId, reply == Ok, h'.joined)] else []
  }

  function StepWorld(w: World, action: Action, hotelJoin: seq<string>): World {
    match action
    case Start(i, requestId, userId, totalAmount) =>
      if i in w.runs then w else w.(runs := w.runs[i := NewRun(requestId, userId, totalAmount)])
    case Advance(i, reply) =>
      if i !in w.runs then w else
        var (s, r) := RunStep(w.store, w.runs[i], reply);
        w.(store := s, runs := w.runs[i := r])
    case Deliver(i, service, requestId, reservationId) =>
      if i in w.handlers then w else w.(handlers := w.handlers[i := NewHandler(service, requestId, reservationId)])
    case Proceed(i, choice) =>
      if i !in w.handlers then w else
        var h := w.handlers[i];
        var (s, h') := HandlerStep(w.store, h, choice, hotelJoin);
        World(s, w.runs, w.handlers[i := h'], w.saves + NewSaves(w.store, i, h, h', choice.reply),
              w.issued + Issued(s.docs, h.requestId))
    case Elapse(millis) => w.(store := w.store.(coord := C.Tick(w.store.coord, millis)))
  }

  function Initial(now: nat): World {
    World(Store(map[], C.Empty(now), [], []), map[], map[], [], {})
  }

  /** The world after any trace; every interleaving of runs, messages, time and crashes is one. */
  function Exec(now: nat, trace: seq<Action>, hotelJoin: seq<string>): World {
    if trace == [] then Initial(now)
    else StepWorld(Exec(now, trace[..|trace| - 1], hotelJoin), trace[|trace| - 1], hotelJoin)
  }
}
