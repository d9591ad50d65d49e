/** The synchronous saga with compensation (`execute_old`, `compensate`). */
module Compensation {
  import opened SagaTypes
  import opened ReservationServices

  /** CompensationFailedEvent: a reservation that could not be cancelled. */
  datatype DeadLetter = DeadLetter(bookingId: string, service: Service, reservationId: string)

  datatype OldStatus = Confirmed | Compensating

  /** One thing for each of the three services. */
  datatype Each<T> = Each(flight: T, hotel: T, car: T) {
    function Of(service: Service): T {
      match service case Flight => flight case Hotel => hotel case Car => car
    }

    function With(service: Service, t: T): Each<T> {
      match service case Flight => this.(flight := t) case Hotel => this.(hotel := t) case Car => this.(car := t)
    }
  }

  /** Which calls fail: the three reservations, the payment, and the three cancellations. */
  datatype Faults = Faults(reserve: Each<bool>, payment: bool, cancel: Each<bool>)

  /** Flight, hotel and car are reserved in this order, each only if the one before succeeded. */
  predicate Made(f: Faults, service: Service) {
    match service
    case Flight => !f.reserve.flight
    case Hotel => !f.reserve.flight && !f.reserve.hotel
    case Car => !f.reserve.flight && !f.reserve.hotel && !f.reserve.car
  }

  predicate Succeeds(f: Faults) {
    Made(f, Car) && !f.payment
  }

  /** The shares of the total that the three services are asked for. */
  function Share(service: Service): real {
    match service case Flight => 0.4 case Hotel => 0.35 case Car => 0.25
  }

  datatype Order = Order(requestId: string, userId: string, totalAmount: real) {
    function For(service: Service): Reservation {
      Reservation(requestId, userId, totalAmount * Share(service))
    }
  }

  /** The three maps, the dead letters, and (as history) the cancellations attempted. */
  datatype Books = Books(maps: Each<Reservations>, letters: seq<DeadLetter>, attempts: seq<Service>)

  function Reserved(b: Books, service: Service, id: string, r: Reservation): Books {
    b.(maps := b.maps.With(service, b.maps.Of(service)[id := r]))
  }

  /** One cancellation: it removes the reservation, or, failing, leaves it and sends a dead letter. */
  function Undone(b: Books, bookingId: string, service: Service, id: string, fails: bool): Books {
    var tried := b.(attempts := b.attempts + [service]);
    if fails || id !in b.maps.Of(service) then tried.(letters := b.letters + [DeadLetter(bookingId, service, id)])
    else tried.(maps := b.maps.With(service, b.maps.Of(service) - {id}))
  }

  function UndoneIf(b: Books, bookingId: string, service: Service, id: Option<string>, fails: bool): Books {
    if id.Some? then Undone(b, bookingId, service, id.value, fails) else b
  }

  /** Compensation: car, hotel, flight, of what was reserved. */
  function Compensated(b: Books, bookingId: string, made: Each<Option<string>>, fails: Each<bool>): Books {
    UndoneIf(UndoneIf(UndoneIf(b, bookingId, Car, made.car, fails.car), bookingId, Hotel, made.hotel, fails.hotel),
             bookingId, Flight, made.flight, fails.flight)
  }

  function ReservedIf(b: Books, service: Service, made: bool, id: string, r: Reservation): Books {
    if made then Reserved(b, service, id, r) else b
  }

  function AllReserved(b: Books, order: Order, ids: Each<string>, f: Faults): Books {
    ReservedIf(ReservedIf(ReservedIf(b, Flight, Made(f, Flight), ids.flight, order.For(Flight)),
                          Hotel, Made(f, Hotel), ids.hotel, order.For(Hotel)),
               Car, Made(f, Car), ids.car, order.For(Car))
  }

  function MadeId(f: Faults, ids: Each<string>, service: Service): Option<string> {
    if Made(f, service) then Some(ids.Of(service)) else None
  }

  function MadeIds(f: Faults, ids: Each<string>): Each<Option<string>> {
    Each(MadeId(f, ids, Flight), MadeId(f, ids, Hotel), MadeId(f, ids, Car))
  }

  /** A whole run of `execute_old`. */
  function OldRun(b: Books, bookingId: string, order: Order, ids: Each<string>, f: Faults): Books {
    var reserved := AllReserved(b, order, ids, f);
    if Succeeds(f) then reserved else Compensated(reserved, bookingId, MadeIds(f, ids), f.cancel)
  }

  // ---- The list of compensations and the loop that runs it ----

  datatype Compensation = Cancel(service: Service, reservationId: string)

  function Item(service: Service, id: Option<string>): seq<Compensation> {
    if id.Some? then [Cancel(service, id.value)] else []
  }

  function UndoneAll(b: Books, bookingId: string, plan: seq<Compensation>, fails: Each<bool>): Books
    decreases plan
  {
    if plan == [] then b else
      UndoneAll(Undone(b, bookingId, plan[0].service, plan[0].reservationId, fails.Of(plan[0].service)), bookingId,
                plan[1..], fails)
  }

  lemma FirstItem(b: Books, bookingId: string, service: Service, id: Option<string>, rest: seq<Compensation>,
      fails: Each<bool>)
    ensures UndoneAll(b, bookingId, Item(service, id) + rest, fails) ==
            UndoneAll(UndoneIf(b, bookingId, service, id, fails.Of(service)), bookingId, rest, fails)
  {
    if id.Some? {
      assert ([Cancel(service, id.value)] + rest)[1..] == rest;
    } else {
      assert [] + rest == rest;
    }
  }

  /** Running the list is compensating car, then hotel, then flight. */
  lemma ListOutcome(b: Books, bookingId: string, made: Each<Option<string>>, fails: Each<bool>)
    ensures UndoneAll(b, bookingId, Item(Car, made.car) + Item(Hotel, made.hotel) + Item(Flight, made.flight), fails) ==
            Compensated(b, bookingId, made, fails)
  {
    var c, h, g := Item(Car, made.car), Item(Hotel, made.hotel), Item(Flight, made.flight);
    var b1 := UndoneIf(b, bookingId, Car, made.car, fails.car);
    var b2 := UndoneIf(b1, bookingId, Hotel, made.hotel, fails.hotel);
    assert c + h + g == c + (h + g);
    FirstItem(b, bookingId, Car, made.car, h + g, fails);
    FirstItem(b1, bookingId, Hotel, made.hotel, g, fails);
    assert g + [] == g;
    FirstItem(b2, bookingId, Flight, made.flight, [], fails);
  }

  class OldSaga {
    const flightService: ReservationService
    const hotelService: ReservationService
    const carRentalService: ReservationService
    var requestId: string
    var deadLetters: seq<DeadLetter>
    /** History: the cancellations attempted, in order. */
    ghost var attempts: seq<Service>

    ghost predicate Valid() {
      flightService != hotelService && flightService != carRentalService && hotelService != carRentalService
    }

    constructor (flight: ReservationService, hotel: ReservationService, car: ReservationService, requestId: string)
      requires flight != hotel && flight != car && hotel != car
      ensures Valid() && deadLetters == [] && attempts == [] && this.requestId == requestId
      ensures flightService == flight && hotelService == hotel && carRentalService == car
    {
      flightService, hotelService, carRentalService, this.requestId := flight, hotel, car, requestId;
      deadLetters, attempts := [], [];
    }

    function ServiceOf(service: Service): ReservationService {
      match service case Flight => flightService case Hotel => hotelService case Car => carRentalService
    }

    ghost function View(): Books
      reads this, flightService, hotelService, carRentalService
    {
      Books(Each(flightService.reservations, hotelService.reservations, carRentalService.reservations), deadLetters,
            attempts)
    }

    /** One closure of the compensation list: a failed cancellation goes to the dead letters and is swallowed. */
    method Undo(bookingId: string, c: Compensation, fails: bool)
      requires Valid()
      modifies flightService, hotelService, carRentalService, `deadLetters, `attempts
      ensures View() == Undone(old(View()), bookingId, c.service, c.reservationId, fails)
    {
      attempts := attempts + [c.service];
      var cancelled := ServiceOf(c.service).CancelReservation(c.reservationId, fails);
      if !cancelled {
        deadLetters := deadLetters + [DeadLetter(bookingId, c.service, c.reservationId)];
      }
    }

    /** Runs the list to its end, whatever fails on the way. */
    method RunCompensations(bookingId: string, compensations: seq<Compensation>, fails: Each<bool>)
      requires Valid()
      modifies flightService, hotelService, carRentalService, `deadLetters, `attempts
      ensures View() == UndoneAll(old(View()), bookingId, compensations, fails)
    {
      for i := 0 to |compensations|
        invariant UndoneAll(View(), bookingId, compensations[i..], fails) ==
                  UndoneAll(old(View()), bookingId, compensations, fails)
      {
        assert compensations[i..][1..] == compensations[i + 1..];
        Undo(bookingId, compensations[i], fails.Of(compensations[i].service));
      }
    }

    /** Builds the list of what was reserved, last reserved first, then runs it. */
    method Compensate(bookingId: string, made: Each<Option<string>>, fails: Each<bool>)
      requires Valid()
      modifies flightService, hotelService, carRentalService, `deadLetters, `attempts
      ensures View() == Compensated(old(View()), bookingId, made, fails)
    {
      var compensations: seq<Compensation> := [];
      if made.car.Some? { compensations := compensations + [Cancel(Car, made.car.value)]; }
      if made.hotel.Some? { compensations := compensations + [Cancel(Hotel, made.hotel.value)]; }
      if made.flight.Some? { compensations := compensations + [Cancel(Flight, made.flight.value)]; }
      assert compensations == Item(Car, made.car) + Item(Hotel, made.hotel) + Item(Flight, made.flight);
      ListOutcome(View(), bookingId, made, fails);
      RunCompensations(bookingId, compensations, fails);
    }

    /** The three reservations; each that throws leaves the later ones unasked. */
    method ReserveAll(order: Order, ids: Each<string>, f: Faults) returns (made: Each<Option<string>>)
      requires Valid()
      requires ids.flight !in flightService.reservations && ids.hotel !in hotelService.reservations
               && ids.car !in carRentalService.reservations
      modifies flightService, hotelService, carRentalService
      ensures made == MadeIds(f, ids)
      ensures View() == AllReserved(old(View()), order, ids, f)
      ensures forall service :: made.Of(service).Some? ==>
                && ids.Of(service) in View().maps.Of(service)
                && StandsFor(View().maps.Of(service)[ids.Of(service)], service, order.requestId, order.userId,
                             order.totalAmount)
    {
      forall service { MadeStands(View(), order, ids, f, service); }
      var hotel, car: Option<string> := None, None;
      var flight := flightService.MakeReservation(order.For(Flight), ids.flight, f.reserve.flight);
      if flight.Some? {
        hotel := hotelService.MakeReservation(order.For(Hotel), ids.hotel, f.reserve.hotel);
      }
      if hotel.Some? {
        car := carRentalService.MakeReservation(order.For(Car), ids.car, f.reserve.car);
      }
      made := Each(flight, hotel, car);
    }

    /** `execute_old`. */
    method ExecuteOld(bookingId: string, userId: string, totalAmount: real, ids: Each<string>, f: Faults)
      returns (status: OldStatus, made: Each<Option<string>>)
      requires Valid()
      requires ids.flight !in flightService.reservations && ids.hotel !in hotelService.reservations
               && ids.car !in carRentalService.reservations
      modifies flightService, hotelService, carRentalService, `deadLetters, `attempts
      ensures status == if Succeeds(f) then Confirmed else Compensating
      ensures made == MadeIds(f, ids)
      ensures status == Confirmed <==> !f.reserve.flight && !f.reserve.hotel && !f.reserve.car && !f.payment
      ensures made.flight == if f.reserve.flight then None else Some(ids.flight)
      ensures made.hotel == if f.reserve.flight || f.reserve.hotel then None else Some(ids.hotel)
      ensures made.car == if f.reserve.flight || f.reserve.hotel || f.reserve.car then None else Some(ids.car)
      ensures View() == OldRun(old(View()), bookingId, Order(requestId, userId, totalAmount), ids, f)
      ensures forall service :: ids.Of(service) in View().maps.Of(service) ==>
                StandsFor(View().maps.Of(service)[ids.Of(service)], service, requestId, userId, totalAmount)
    {
      forall service { WhatStands(View(), bookingId, Order(requestId, userId, totalAmount), ids, f, service); }
      made := ReserveAll(Order(requestId, userId, totalAmount), ids, f);
      if made.car.Some? && !f.payment {
        return Confirmed, made;
      }
      Compensate(bookingId, made, f.cancel);
      status := Compensating;
    }
  }

  // ---- What a run does, service by service ----

  function Letter(f: Faults, bookingId: string, ids: Each<string>, service: Service): seq<DeadLetter> {
    if Made(f, service) && f.cancel.Of(service) then [DeadLetter(bookingId, service, ids.Of(service))] else []
  }

  function Attempt(f: Faults, service: Service): seq<Service> {
    if Made(f, service) then [service] else []
  }

  predicate Fresh(b: Books, ids: Each<string>) {
    ids.flight !in b.maps.flight && ids.hotel !in b.maps.hotel && ids.car !in b.maps.car
  }

  lemma ReservedMaps(b: Books, order: Order, ids: Each<string>, f: Faults, service: Service)
    ensures var r := AllReserved(b, order, ids, f);
            && r.letters == b.letters && r.attempts == b.attempts
            && r.maps.Of(service) == if Made(f, service) then b.maps.Of(service)[ids.Of(service) := order.For(service)]
                                     else b.maps.Of(service)
  {
    match service case Flight => case Hotel => case Car =>
  }

  /** What compensating one service does to a map, to the letters and to the attempts, if its reservation is in its
      map. */
  lemma UndoneMaps(b: Books, bookingId: string, service: Service, id: Option<string>, fails: bool, other: Service)
    requires id.Some? ==> id.value in b.maps.Of(service)
    ensures var u := UndoneIf(b, bookingId, service, id, fails);
            && u.maps.Of(other) == (if other == service && id.Some? && !fails then b.maps.Of(other) - {id.value}
                                    else b.maps.Of(other))
            && u.letters == b.letters + (if id.Some? && fails then [DeadLetter(bookingId, service, id.value)] else [])
            && u.attempts == b.attempts + (if id.Some? then [service] else [])
  {
    match service case Flight => case Hotel => case Car =>
  }

  lemma CompensatedMaps(b: Books, bookingId: string, made: Each<Option<string>>, fails: Each<bool>, service: Service)
    requires made.flight.Some? ==> made.flight.value in b.maps.flight
    requires made.hotel.Some? ==> made.hotel.value in b.maps.hotel
    requires made.car.Some? ==> made.car.value in b.maps.car
    ensures var u := Compensated(b, bookingId, made, fails);
            u.maps.Of(service) == if made.Of(service).Some? && !fails.Of(service)
                                  then b.maps.Of(service) - {made.Of(service).value} else b.maps.Of(service)
  {
    var b1 := UndoneIf(b, bookingId, Car, made.car, fails.car);
    var b2 := UndoneIf(b1, bookingId, Hotel, made.hotel, fails.hotel);
    UndoneMaps(b, bookingId, Car, made.car, fails.car, Flight);
    UndoneMaps(b, bookingId, Car, made.car, fails.car, Hotel);
    UndoneMaps(b, bookingId, Car, made.car, fails.car, Car);
    UndoneMaps(b1, bookingId, Hotel, made.hotel, fails.hotel, Flight);
    UndoneMaps(b1, bookingId, Hotel, made.hotel, fails.hotel, service);
    UndoneMaps(b2, bookingId, Flight, made.flight, fails.flight, service);
  }

  lemma CompensatedLetters(b: Books, bookingId: string, made: Each<Option<string>>, fails: Each<bool>)
    requires made.flight.Some? ==> made.flight.value in b.maps.flight
    requires made.hotel.Some? ==> made.hotel.value in b.maps.hotel
    requires made.car.Some? ==> made.car.value in b.maps.car
    ensures var u := Compensated(b, bookingId, made, fails);
            && u.letters == b.letters + (if made.car.Some? && fails.car
                                         then [DeadLetter(bookingId, Car, made.car.value)] else [])
                                      + (if made.hotel.Some? && fails.hotel
                                         then [DeadLetter(bookingId, Hotel, made.hotel.value)] else [])
                                      + (if made.flight.Some? && fails.flight
                                         then [DeadLetter(bookingId, Flight, made.flight.value)] else [])
            && u.attempts == b.attempts + (if made.car.Some? then [Car] else [])
                             + (if made.hotel.Some? then [Hotel] else [])
                                        + (if made.flight.Some? then [Flight] else [])
  {
    var b1 := UndoneIf(b, bookingId, Car, made.car, fails.car);
    var b2 := UndoneIf(b1, bookingId, Hotel, made.hotel, fails.hotel);
    UndoneMaps(b, bookingId, Car, made.car, fails.car, Hotel);
    UndoneMaps(b, bookingId, Car, made.car, fails.car, Flight);
    UndoneMaps(b1, bookingId, Hotel, made.hotel, fails.hotel, Flight);
    UndoneMaps(b2, bookingId, Flight, made.flight, fails.flight, Flight);
  }

  /** A service's map after a run: the run's reservation stays if the run succeeds or its cancellation fails, and
      otherwise the map is what it was. Whatever fails, in whatever combination. */
  lemma {:induction false} MapAfterRun(b: Books, bookingId: string, order: Order, ids: Each<string>, f: Faults,
      service: Service)
    requires Fresh(b, ids)
    ensures OldRun(b, bookingId, order, ids, f).maps.Of(service) ==
            if Made(f, service) && (Succeeds(f) || f.cancel.Of(service))
            then b.maps.Of(service)[ids.Of(service) := order.For(service)]
            else b.maps.Of(service)
  {
    ReservedMaps(b, order, ids, f, Flight);
    ReservedMaps(b, order, ids, f, Hotel);
    ReservedMaps(b, order, ids, f, Car);
    if !Succeeds(f) {
      CompensatedMaps(AllReserved(b, order, ids, f), bookingId, MadeIds(f, ids), f.cancel, service);
      PutThenDrop(b.maps.Of(service), ids.Of(service), order.For(service));
    }
  }

  lemma PutThenDrop(m: Reservations, id: string, r: Reservation)
    requires id !in m
    ensures m[id := r] - {id} == m
  {
  }

  /** A run that does not succeed tries every cancellation it owes, car, hotel, flight, and writes one dead letter for
      each that fails; a run that succeeds tries none. */
  lemma LettersAfterRun(b: Books, bookingId: string, order: Order, ids: Each<string>, f: Faults)
    requires Fresh(b, ids)
    ensures var end := OldRun(b, bookingId, order, ids, f);
            && end.letters == (if Succeeds(f) then b.letters else
                 b.letters + Letter(f, bookingId, ids, Car) + Letter(f, bookingId, ids, Hotel)
                 + Letter(f, bookingId, ids, Flight))
            && end.attempts == (if Succeeds(f) then b.attempts else
                 b.attempts + Attempt(f, Car) + Attempt(f, Hotel) + Attempt(f, Flight))
  {
    ReservedMaps(b, order, ids, f, Flight);
    ReservedMaps(b, order, ids, f, Hotel);
    ReservedMaps(b, order, ids, f, Car);
    if !Succeeds(f) {
      CompensatedLetters(AllReserved(b, order, ids, f), bookingId, MadeIds(f, ids), f.cancel);
    }
  }

  // ---- What that means ----

  /** A reservation of the request, for the part of the total that is this service's. */
  predicate StandsFor(r: Reservation, service: Service, requestId: string, userId: string, totalAmount: real) {
    && r.requestId == requestId && r.userId == userId
    && match service
       case Flight => r.amount == totalAmount * 0.4
       case Hotel => r.amount == totalAmount * 0.35
       case Car => r.amount == totalAmount * 0.25
  }

  lemma MadeStands(b: Books, order: Order, ids: Each<string>, f: Faults, service: Service)
    ensures var map' := AllReserved(b, order, ids, f).maps.Of(service);
            Made(f, service) ==>
              ids.Of(service) in map'
              && StandsFor(map'[ids.Of(service)], service, order.requestId, order.userId, order.totalAmount)
    ensures MadeIds(f, ids).Of(service).Some? <==> Made(f, service)
  {
    ReservedMaps(b, order, ids, f, service);
    match service case Flight => case Hotel => case Car =>
  }

  /** A reservation of the run that is there after it, confirmed or left by a failed cancellation, is the request's, for
      40, 35 or 25 percent of its total. */
  lemma WhatStands(b: Books, bookingId: string, order: Order, ids: Each<string>, f: Faults, service: Service)
    requires Fresh(b, ids)
    ensures var map' := OldRun(b, bookingId, order, ids, f).maps.Of(service);
            && (ids.Of(service) in map' <==> Made(f, service) && (Succeeds(f) || f.cancel.Of(service)))
            && (ids.Of(service) in map' ==>
                  StandsFor(map'[ids.Of(service)], service, order.requestId, order.userId, order.totalAmount))
  {
    MapAfterRun(b, bookingId, order, ids, f, service);
    assert ids.Of(service) !in b.maps.Of(service) by { match service case Flight => case Hotel => case Car => }
  }

  function Count(letters: seq<DeadLetter>, letter: DeadLetter): nat {
    multiset(letters)[letter]
  }

  lemma CountLetter(f: Faults, bookingId: string, ids: Each<string>, from: Service, service: Service)
    ensures Count(Letter(f, bookingId, ids, from), DeadLetter(bookingId, service, ids.Of(service))) ==
            if from == service && Made(f, service) && f.cancel.Of(service) then 1 else 0
  {
  }

  lemma CountSum(a: seq<DeadLetter>, b: seq<DeadLetter>, c: seq<DeadLetter>, d: seq<DeadLetter>, letter: DeadLetter)
    ensures Count(a + b + c + d, letter) == Count(a, letter) + Count(b, letter) + Count(c, letter) + Count(d, letter)
  {
    assert multiset(a + b + c + d) == multiset(a) + multiset(b) + multiset(c) + multiset(d);
  }

  lemma LettersAddUp(b: Books, bookingId: string, order: Order, ids: Each<string>, f: Faults, service: Service)
    requires Fresh(b, ids) && !Succeeds(f)
    ensures var letter := DeadLetter(bookingId, service, ids.Of(service));
            Count(OldRun(b, bookingId, order, ids, f).letters, letter) ==
            Count(b.letters, letter) + if Made(f, service) && f.cancel.Of(service) then 1 else 0
  {
    LettersAfterRun(b, bookingId, order, ids, f);
    CountSum(b.letters, Letter(f, bookingId, ids, Car), Letter(f, bookingId, ids, Hotel),
             Letter(f, bookingId, ids, Flight),
             DeadLetter(bookingId, service, ids.Of(service)));
    CountLetter(f, bookingId, ids, Car, service);
    CountLetter(f, bookingId, ids, Hotel, service);
    CountLetter(f, bookingId, ids, Flight, service);
  }

  /** All or nothing up to dead letters: of a run that does not succeed, each reservation is out of its service's map,
      or is still there and the run added exactly one dead letter for it; no other entry of the map changed. */
  lemma {:induction false} AllOrNothing(b: Books, bookingId: string, order: Order, ids: Each<string>, f: Faults,
      service: Service)
    requires Fresh(b, ids) && !Succeeds(f)
    ensures var end := OldRun(b, bookingId, order, ids, f);
            var letter := DeadLetter(bookingId, service, ids.Of(service));
            && end.maps.Of(service) - {ids.Of(service)} == b.maps.Of(service)
            && Count(end.letters, letter) ==
               Count(b.letters, letter) + (if ids.Of(service) in end.maps.Of(service) then 1 else 0)
  {
    MapAfterRun(b, bookingId, order, ids, f, service);
    LettersAddUp(b, bookingId, order, ids, f, service);
    PutThenDrop(b.maps.Of(service), ids.Of(service), order.For(service));
    assert ids.Of(service) !in b.maps.Of(service);
  }

  /** A confirmed run leaves its three reservations, whose amounts add up to the total, and no dead letter. */
  lemma ConfirmedAddsUp(b: Books, bookingId: string, order: Order, ids: Each<string>, f: Faults)
    requires Fresh(b, ids) && Succeeds(f)
    ensures var end := OldRun(b, bookingId, order, ids, f);
            && ids.flight in end.maps.flight && ids.hotel in end.maps.hotel && ids.car in end.maps.car
            && end.maps.flight[ids.flight].amount + end.maps.hotel[ids.hotel].amount + end.maps.car[ids.car].amount ==
               order.totalAmount
            && end.letters == b.letters
  {
    ReservedMaps(b, order, ids, f, Flight);
    ReservedMaps(b, order, ids, f, Hotel);
    ReservedMaps(b, order, ids, f, Car);
    Shares(order.totalAmount);
  }

  lemma Shares(totalAmount: real)
    ensures totalAmount * Share(Flight) + totalAmount * Share(Hotel) + totalAmount * Share(Car) == totalAmount
  {
    assert totalAmount * 0.4 + totalAmount * 0.35 + totalAmount * 0.25 == totalAmount * (0.4 + 0.35 + 0.25);
  }
}
