/** The data the frontend receives and keeps (trip-eld-frontend/src/lib/types.ts).
    Coordinates are JSON arrays of numbers; timestamps are UTC seconds. */
module TripTypes {
  import opened Wrappers

  /** The four stop categories of a `DStops` entry. */
  datatype StopType = Break | Rest | Service | Fuel

  /** The wire name of a stop category. */
  function StopTypeName(t: StopType): string {
    match t
    case Break => "break"
    case Rest => "rest"
    case Service => "service"
    case Fuel => "fuel"
  }

  /** A GeoJSON `Position` or a Leaflet `LatLngTuple`: an array of numbers. */
  type Position = seq<real>

  datatype DStop = DStop(
    stopType: StopType,
    durationSeconds: int,
    reason: string,
    location: Position,
    timeFromStartSeconds: int,
    address: Option<string>)

  /** `ELDEvent`: the type is an open string ('drive', 'off_duty', 'on_duty' or other). */
  datatype EldEvent = EldEvent(
    eventType: string,
    remark: Option<string>,
    timeFromStartSeconds: int,
    durationSeconds: int)

  datatype EldLog = EldLog(
    startTime: int,
    logEvents: seq<EldEvent>,
    totalDriving: int,
    totalOffDuty: int,
    totalOnDuty: int)

  datatype HosEventView = HosEventView(eventType: string, durationSeconds: int, timeFromStartSeconds: int)

  datatype HosSummary = HosSummary(
    originalTravelSeconds: int,
    addedStopSeconds: int,
    totalItinerarySeconds: int,
    totalDistance: real,
    cyclesUsedEnd: int,
    cyclesRemaining: int,
    notes: string)

  datatype Directions = Directions(
    bbox: seq<real>,
    stops: seq<DStop>,
    hosEvents: seq<HosEventView>,
    itineraryTotalSeconds: int,
    hosSummary: HosSummary,
    eld: seq<EldLog>)

  /** The planning response: three start coordinates, the route and its encoded path. */
  datatype Data = Data(
    currentCoords: Position,
    pickupCoords: Position,
    dropoffCoords: Position,
    directions: Directions,
    coordinates: string,
    currentCycleUsed: int)

  /** The form state: three optional locations and the cycle hours already used. */
  datatype Inputs = Inputs(
    currentLocation: Option<Position>,
    pickupLocation: Option<Position>,
    dropoffLocation: Option<Position>,
    cycleUsedHours: int)
}
