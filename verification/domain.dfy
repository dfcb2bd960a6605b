/** The records, choice lists and fixed constants of the ELD trip tracker.
    Instants are `real` hours since a fixed epoch on the local wall clock;
    dates are `int` day numbers on the same clock, so day `d` starts at
    instant `24 * d`. */
module Domain {

  datatype Option<+T> = None | Some(value: T)

  /** The stop kinds a trip may record (eld_backend/trips/models.py:41-50). */
  datatype StopType = Fuel | Rest | Pretrip | Posttrip | Pickup | Dropoff | Loading | Offloading

  /** The duty statuses of a duty event (eld_backend/trips/models.py:86-91). */
  datatype DutyStatus = OffDuty | SleeperBerth | Driving | OnDuty

  /** The stored key of a duty status, the string the front end receives. */
  function StatusKey(s: DutyStatus): (key: string)
    ensures |key| > 0
  {
    match s
    case OffDuty => "off_duty"
    case SleeperBerth => "sleeper_berth"
    case Driving => "driving"
    case OnDuty => "on_duty"
  }

  lemma StatusKeyInjective(s: DutyStatus, t: DutyStatus)
    ensures StatusKey(s) == StatusKey(t) <==> s == t
  {
    if s != t {
      // the keys already differ in their first or second character
      assert StatusKey(s)[0] != StatusKey(t)[0] || StatusKey(s)[1] != StatusKey(t)[1];
    }
  }

  /** The ELD settings the code reads (eld_backend/eld_backend/settings.py:126-135). */
  const MaxDrivingHoursPerDay: real := 11.0
  const MaxOnDutyHoursPerDay: real := 14.0
  const RequiredRestPeriodHours: real := 10.0
  const MaxCycleHours70: real := 70.0
  const MandatoryBreakDuration: real := 0.5

  /** A trip as the planner sees it: its three locations, its driver and
      the driver's number. */
  datatype Trip = Trip(
    currentLocation: string,
    pickupLocation: string,
    dropoffLocation: string,
    driver: int,
    driverNumber: string)

  /** A stop record: arrival and departure are instants, duration is in hours. */
  datatype Stop = Stop(
    location: string,
    stopType: StopType,
    arrival: real,
    departure: real,
    duration: real)

  /** A daily log record; the four totals are in hours. */
  datatype DailyLog = DailyLog(
    driver: int,
    date: int,
    totalOffDuty: real,
    totalSleeperBerth: real,
    totalDriving: real,
    totalOnDuty: real,
    totalDrivingMiles: real,
    vehicleNumber: string)

  /** A duty event record; the end instant may be missing. */
  datatype DutyEvent = DutyEvent(
    status: DutyStatus,
    date: int,
    start: real,
    end: Option<real>,
    location: string,
    remarks: string,
    truckMoved: bool)

  /** The instant at which day `date` begins. */
  function Midnight(date: int): real
  {
    24.0 * date as real
  }
}
