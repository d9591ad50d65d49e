/** Names shared by the saga, its stores and the three reservation services. */
module SagaTypes {

  datatype Option<+T> = None | Some(value: T)

  /** The statuses the saga flow writes; the source's enum lists further ones that nothing here assigns. */
  datatype Status = PENDING | CONFIRMED | FAILED

  datatype Service = Flight | Hotel | Car

  /** Request events, in the order `execute` publishes them. */
  datatype Event = HotelRequested | FlightRequested | CarRequested

  const PUBLISH_ORDER: seq<Event> := [HotelRequested, FlightRequested, CarRequested]

  /** What the caller of a MongoDB or broker command observes.
      Ok: applied and acknowledged.  Lost: not applied, the call throws.
      Unacked: applied, but the acknowledgement is lost and the call throws. */
  datatype Reply = Ok | Lost | Unacked

  const FLIGHT_CONFIRMED := "FLIGHT_CONFIRMED"
  const HOTEL_CONFIRMED := "HOTEL_CONFIRMED"
  const CAR_CONFIRMED := "CAR_CONFIRMED"
  const COMPLETED := "COMPLETED"

  function StepOf(service: Service): string {
    match service
    case Flight => FLIGHT_CONFIRMED
    case Hotel => HOTEL_CONFIRMED
    case Car => CAR_CONFIRMED
  }

  function RequestStep(event: Event): string {
    match event
    case HotelRequested => "HOTEL_REQUESTED"
    case FlightRequested => "FLIGHT_REQUESTED"
    case CarRequested => "CAR_REQUESTED"
  }

  /** The error and status messages of the flow. Their texts are fixed and non-empty. */
  datatype Message =
    | DriverError
    | DuplicateKey
    | RateExceeded(userId: string)
    | LockHeld(requestId: string)
    | InProgress(requestId: string)
    | NotFound(requestId: string)
    | IncompleteIds(requestId: string)

  /** JavaScript's `x || null` on a string: the empty string counts as absent. */
  function OrNull(x: Option<string>): Option<string> {
    if x == Some("") then None else x
  }
}
