/** The repository over its documents, and the broker client over its log. Each command is told what its reply will be
    and answers whether the call returned rather than threw. */
module Repository {
  import opened SagaTypes
  import opened SagaState

  class SagaStateRepository {
    var docs: Docs

    constructor ()
      ensures docs == map[]
    {
      docs := map[];
    }

    /** Inserts a new PENDING document; the unique index on requestId refuses a second one. */
    method Create(requestId: string, userId: string, totalAmount: real, reply: Reply) returns (error: Option<Message>)
      modifies this
      ensures docs == if reply == Lost || requestId in old(docs) then old(docs)
                      else old(docs)[requestId := NewDoc(userId, totalAmount)]
      ensures error == if reply == Lost then Some(DriverError) else if requestId in old(docs) then Some(DuplicateKey)
                       else if reply == Unacked then Some(DriverError) else None
    {
      if reply == Lost { return Some(DriverError); }
      if requestId in docs { return Some(DuplicateKey); }
      docs := docs[requestId := NewDoc(userId, totalAmount)];
      error := if reply == Ok then None else Some(DriverError);
    }

    method FindByRequestId(requestId: string) returns (doc: Option<Doc>)
      ensures doc == if requestId in docs then Some(docs[requestId]) else None
    {
      doc := if requestId in docs then Some(docs[requestId]) else None;
    }

    /** The request whose document carries the number: some such request if there is one, and the only one as long as
        the index has kept the numbers distinct. */
    method FindByBookingId(bookingId: string) returns (found: Option<string>)
      ensures found.Some? ==> found.value in docs && docs[found.value].bookingId == Some(bookingId)
      ensures found.None? ==> forall r :: r in docs ==> docs[r].bookingId != Some(bookingId)
      ensures UniqueBookings(docs) ==> forall r :: r in docs && docs[r].bookingId == Some(bookingId) ==>
                found == Some(r)
    {
      if r :| r in docs && docs[r].bookingId == Some(bookingId) {
        found := Some(r);
      } else {
        found := None;
      }
    }

    method SaveConfirmedReservation(service: Service, requestId: string, reservationId: string, reply: Reply)
        returns (updated: Option<Doc>)
      modifies this
      ensures docs == if reply == Lost then old(docs) else SaveConfirmed(old(docs), service, requestId, reservationId)
      ensures updated == if requestId in docs then Some(docs[requestId]) else None
    {
      if reply != Lost && requestId in docs {
        var d := docs[requestId];
        match service {
          case Flight => d := d.(flightReservationId := Some(reservationId));
          case Hotel => d := d.(hotelReservationId := Some(reservationId));
          case Car => d := d.(carRentalReservationId := Some(reservationId));
        }
        if StepOf(service) !in d.completedSteps {
          d := d.(completedSteps := d.completedSteps + [StepOf(service)]);
        }
        docs := docs[requestId := d];
      }
      updated := if requestId in docs then Some(docs[requestId]) else None;
    }

    /** The final update: number, status and the four steps at once. */
    method FinalizeState(requestId: string, bookingId: string, reply: Reply) returns (error: Option<Message>)
      modifies this
      ensures docs == if reply == Lost || BookingIdTaken(old(docs), requestId, bookingId) then old(docs)
                      else Finalize(old(docs), requestId, bookingId)
      ensures error == if reply == Lost then Some(DriverError) else if BookingIdTaken(old(docs), requestId, bookingId)
                                                                    then Some(DuplicateKey)
                       else if reply == Unacked then Some(DriverError) else None
    {
      if reply == Lost { return Some(DriverError); }
      if BookingIdTaken(docs, requestId, bookingId) { return Some(DuplicateKey); }
      docs := Finalize(docs, requestId, bookingId);
      error := if reply == Ok then None else Some(DriverError);
    }

    method SetErrorState(requestId: string, message: Message, reply: Reply) returns (ok: bool)
      modifies this
      ensures docs == if reply == Lost then old(docs) else SetError(old(docs), requestId, message)
      ensures ok <==> reply == Ok
    {
      if reply != Lost {
        docs := SetError(docs, requestId, message);
      }
      ok := reply == Ok;
    }
  }

  class BrokerClient {
    var published: seq<(Event, string)>

    constructor ()
      ensures published == []
    {
      published := [];
    }

    method Emit(event: Event, requestId: string, reply: Reply) returns (ok: bool)
      modifies this
      ensures published == if reply == Lost then old(published) else old(published) + [(event, requestId)]
      ensures ok <==> reply == Ok
    {
      if reply != Lost {
        published := published + [(event, requestId)];
      }
      ok := reply == Ok;
    }
  }
}
