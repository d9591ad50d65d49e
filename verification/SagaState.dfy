/** The durable saga documents and the atomic commands of their repository (travel-booking-saga-state.repository.ts). */
module SagaState {
  import opened SagaTypes

  datatype Doc = Doc(
    userId: string,
    totalAmount: real,
    status: Status,
    bookingId: Option<string>,
    flightReservationId: Option<string>,
    hotelReservationId: Option<string>,
    carRentalReservationId: Option<string>,
    completedSteps: seq<string>,
    errorMessage: Option<Message>)

  /** Documents by requestId; the map stands for the unique index on that field. */
  type Docs = map<string, Doc>

  function NewDoc(userId: string, totalAmount: real): Doc {
    Doc(userId, totalAmount, PENDING, None, None, None, None, [], None)
  }

  function ReservationId(d: Doc, service: Service): Option<string> {
    match service
    case Flight => d.flightReservationId
    case Hotel => d.hotelReservationId
    case Car => d.carRentalReservationId
  }

  function SetReservationId(d: Doc, service: Service, reservationId: string): Doc {
    match service
    case Flight => d.(flightReservationId := Some(reservationId))
    case Hotel => d.(hotelReservationId := Some(reservationId))
    case Car => d.(carRentalReservationId := Some(reservationId))
  }

  function AddToSet(steps: seq<string>, step: string): seq<string> {
    if step in steps then steps else steps + [step]
  }

  function Confirmed(d: Doc, service: Service, reservationId: string): Doc {
    SetReservationId(d, service, reservationId).(completedSteps := AddToSet(d.completedSteps, StepOf(service)))
  }

  /** findOneAndUpdate with $set and $addToSet: one atomic command, without effect if there is no document. */
  function SaveConfirmed(docs: Docs, service: Service, requestId: string, reservationId: string): Docs {
    if requestId in docs then docs[requestId := Confirmed(docs[requestId], service, reservationId)] else docs
  }

  const FINAL_STEPS: seq<string> := [FLIGHT_CONFIRMED, HOTEL_CONFIRMED, CAR_CONFIRMED, COMPLETED]

  function Finalized(d: Doc, bookingId: string): Doc {
    d.(bookingId := Some(bookingId), status := CONFIRMED, completedSteps := FINAL_STEPS)
  }

  /** The sparse unique index on bookingId refuses a number that another document carries. */
  predicate BookingIdTaken(docs: Docs, requestId: string, bookingId: string) {
    exists r :: r in docs && r != requestId && docs[r].bookingId == Some(bookingId)
  }

  /** What the index keeps true: no two documents carry the same number. */
  ghost predicate UniqueBookings(docs: Docs) {
    forall r, r' :: r in docs && r' in docs && docs[r].bookingId.Some? && docs[r].bookingId == docs[r'].bookingId ==>
      r == r'
  }

  function Finalize(docs: Docs, requestId: string, bookingId: string): Docs {
    if requestId in docs then docs[requestId := Finalized(docs[requestId], bookingId)] else docs
  }

  function SetError(docs: Docs, requestId: string, message: Message): Docs {
    if requestId in docs then docs[requestId := docs[requestId].(status := FAILED, errorMessage := Some(message))]
    else docs
  }

  // ---- Confirmations are confluent and idempotent ----

  datatype Confirmation = Confirmation(service: Service, requestId: string, reservationId: string)

  function SaveAll(docs: Docs, messages: seq<Confirmation>): Docs {
    if messages == [] then docs else
      var m := messages[|messages| - 1];
      SaveConfirmed(SaveAll(docs, messages[..|messages| - 1]), m.service, m.requestId, m.reservationId)
  }

  /** Each service names one reservation per request. */
  ghost predicate OneIdEach(messages: seq<Confirmation>) {
    forall m, m' :: m in messages && m' in messages && m.service == m'.service && m.requestId == m'.requestId ==>
      m == m'
  }

  /** What is left of a document when the order of its steps is forgotten. */
  function Unordered(d: Doc): (Doc, set<string>) {
    (d.(completedSteps := []), set s | s in d.completedSteps)
  }

  /** The document after some messages, described without their order: a service's id and step are there when one of
      its messages for this request is. */
  ghost predicate Explains(d: Doc, messages: seq<Confirmation>, requestId: string, d': Doc) {
    && d'.(completedSteps := [], flightReservationId := None, hotelReservationId := None,
           carRentalReservationId := None)
       == d.(completedSteps := [], flightReservationId := None, hotelReservationId := None,
             carRentalReservationId := None)
    && (forall m :: m in messages && m.requestId == requestId ==> ReservationId(d', m.service) == Some(m.reservationId))
    && (forall service :: (forall m :: m in messages && m.requestId == requestId ==> m.service != service) ==>
          ReservationId(d', service) == ReservationId(d, service))
    && (forall s :: s in d'.completedSteps <==>
          s in d.completedSteps || exists m :: m in messages && m.requestId == requestId && StepOf(m.service) == s)
  }

  lemma {:induction false} SaveAllExplained(docs: Docs, messages: seq<Confirmation>, requestId: string)
    requires OneIdEach(messages) && requestId in docs
    ensures SaveAll(docs, messages).Keys == docs.Keys
    ensures Explains(docs[requestId], messages, requestId, SaveAll(docs, messages)[requestId])
  {
    if messages != [] {
      var m := messages[|messages| - 1];
      var rest := messages[..|messages| - 1];
      assert messages == rest + [m];
      SaveAllExplained(docs, rest, requestId);
      var before, after := SaveAll(docs, rest)[requestId], SaveAll(docs, messages)[requestId];
      forall m' | m' in messages && m'.requestId == requestId
        ensures ReservationId(after, m'.service) == Some(m'.reservationId)
      {
        assert m' in rest || m' == m;
      }
      forall service | forall m' :: m' in messages && m'.requestId == requestId ==> m'.service != service
        ensures ReservationId(after, service) == ReservationId(docs[requestId], service)
      {
        assert forall m' :: m' in rest ==> m' in messages;
        assert m in messages;
      }
    }
  }

  lemma SameIds(d: Doc, a: seq<Confirmation>, b: seq<Confirmation>, requestId: string, x: Doc, y: Doc, service: Service)
    requires forall m :: m in a <==> m in b
    requires Explains(d, a, requestId, x) && Explains(d, b, requestId, y)
    ensures ReservationId(x, service) == ReservationId(y, service)
  {
    if m :| m in a && m.requestId == requestId && m.service == service {
      assert m in b;
    }
  }

  lemma SameSteps(d: Doc, a: seq<Confirmation>, b: seq<Confirmation>, requestId: string, x: Doc, y: Doc, s: string)
    requires forall m :: m in a ==> m in b
    requires Explains(d, a, requestId, x) && Explains(d, b, requestId, y)
    ensures s in x.completedSteps ==> s in y.completedSteps
  {
    if s in x.completedSteps && s !in d.completedSteps {
      var m :| m in a && m.requestId == requestId && StepOf(m.service) == s;
      assert m in b;
    }
  }

  /** Any two sequences of the same confirmations, reordered and repeated at will, leave the same ids and step sets. */
  lemma ConfirmationsConfluent(docs: Docs, a: seq<Confirmation>, b: seq<Confirmation>, requestId: string)
    requires OneIdEach(a) && (forall m :: m in a <==> m in b)
    requires requestId in docs
    ensures requestId in SaveAll(docs, a) && requestId in SaveAll(docs, b)
    ensures Unordered(SaveAll(docs, a)[requestId]) == Unordered(SaveAll(docs, b)[requestId])
  {
    SaveAllExplained(docs, a, requestId);
    SaveAllExplained(docs, b, requestId);
    var d, x, y := docs[requestId], SaveAll(docs, a)[requestId], SaveAll(docs, b)[requestId];
    SameIds(d, a, b, requestId, x, y, Flight);
    SameIds(d, a, b, requestId, x, y, Hotel);
    SameIds(d, a, b, requestId, x, y, Car);
    forall s ensures s in x.completedSteps <==> s in y.completedSteps {
      SameSteps(d, a, b, requestId, x, y, s);
      SameSteps(d, b, a, requestId, y, x, s);
    }
    assert (set s | s in x.completedSteps) == (set s | s in y.completedSteps);
  }

  // ---- Growth ----

  const KNOWN_STEPS: set<string> := {FLIGHT_CONFIRMED, HOTEL_CONFIRMED, CAR_CONFIRMED, COMPLETED}

  predicate AllConfirmed(d: Doc) {
    FLIGHT_CONFIRMED in d.completedSteps && HOTEL_CONFIRMED in d.completedSteps && CAR_CONFIRMED in d.completedSteps
  }

  /** What every command keeps true of a document: a confirmation step is there exactly when its reservation id is,
      and a booking number or the status CONFIRMED comes only after all three. */
  ghost predicate Sound(d: Doc) {
    && (forall s :: s in d.completedSteps ==> s in KNOWN_STEPS)
    && (forall service :: StepOf(service) in d.completedSteps <==> ReservationId(d, service).Some?)
    && (d.bookingId.Some? || d.status == CONFIRMED || COMPLETED in d.completedSteps ==> AllConfirmed(d))
    && (d.status == CONFIRMED ==> d.bookingId.Some?)
  }

  ghost predicate AllSound(docs: Docs) {
    forall r :: r in docs ==> Sound(docs[r])
  }

  /** No step, id or booking number is ever taken back, and PENDING is never re-entered. */
  ghost predicate Grows(d: Doc, d': Doc) {
    && (forall s :: s in d.completedSteps ==> s in d'.completedSteps)
    && (forall service :: ReservationId(d, service).Some? ==> ReservationId(d', service).Some?)
    && (d.bookingId.Some? ==> d'.bookingId.Some?)
    && (d.status != PENDING ==> d'.status != PENDING)
  }

  ghost predicate DocsGrow(docs: Docs, docs': Docs) {
    forall r :: r in docs ==> r in docs' && Grows(docs[r], docs'[r])
  }

  lemma ConfirmedIsSound(d: Doc, service: Service, reservationId: string)
    requires Sound(d)
    ensures Sound(Confirmed(d, service, reservationId)) && Grows(d, Confirmed(d, service, reservationId))
  {
    var d' := Confirmed(d, service, reservationId);
    assert forall s :: s in d'.completedSteps <==> s in d.completedSteps || s == StepOf(service);
    StepsDistinct(service, service);
    forall other ensures StepOf(other) in d'.completedSteps <==> ReservationId(d', other).Some? {
      StepsDistinct(other, service);
      assert other != service ==> ReservationId(d', other) == ReservationId(d, other);
    }
  }

  lemma {:induction false} SaveKeepsSound(docs: Docs, service: Service, requestId: string, reservationId: string)
    requires AllSound(docs)
    ensures AllSound(SaveConfirmed(docs, service, requestId, reservationId))
    ensures DocsGrow(docs, SaveConfirmed(docs, service, requestId, reservationId))
  {
    if requestId in docs {
      ConfirmedIsSound(docs[requestId], service, reservationId);
    }
  }

  lemma StepsDistinct(a: Service, b: Service)
    ensures StepOf(a) == StepOf(b) <==> a == b
    ensures StepOf(a) != COMPLETED && StepOf(a) in KNOWN_STEPS
  {
    assert FLIGHT_CONFIRMED[0] == 'F' && HOTEL_CONFIRMED[0] == 'H' && CAR_CONFIRMED[1] == 'A' && COMPLETED[1] == 'O';
    assert CAR_CONFIRMED[0] == 'C' && COMPLETED[0] == 'C';
  }

  lemma FinalizeKeepsSound(docs: Docs, requestId: string, bookingId: string)
    requires AllSound(docs)
    requires requestId in docs ==> AllConfirmed(docs[requestId])
    ensures AllSound(Finalize(docs, requestId, bookingId))
    ensures DocsGrow(docs, Finalize(docs, requestId, bookingId))
  {
    if requestId in docs {
      var d, d' := docs[requestId], Finalized(docs[requestId], bookingId);
      assert Sound(d);
      assert d'.completedSteps == FINAL_STEPS;
      assert FINAL_STEPS[0] == FLIGHT_CONFIRMED && FINAL_STEPS[1] == HOTEL_CONFIRMED && FINAL_STEPS[2] == CAR_CONFIRMED
             && FINAL_STEPS[3] == COMPLETED;
      forall service ensures ReservationId(d', service).Some? {
        assert ReservationId(d', service) == ReservationId(d, service);
        assert StepOf(service) in d.completedSteps;
      }
    }
  }

  lemma SetErrorKeepsSound(docs: Docs, requestId: string, message: Message)
    requires AllSound(docs)
    ensures AllSound(SetError(docs, requestId, message))
    ensures DocsGrow(docs, SetError(docs, requestId, message))
  {
    if requestId in docs {
      assert Sound(docs[requestId]);
      var d' := SetError(docs, requestId, message)[requestId];
      assert forall service :: ReservationId(d', service) == ReservationId(docs[requestId], service);
    }
  }
}
