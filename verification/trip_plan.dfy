/** Trip planning done when a trip is created: the stop list, the daily logs
    and each day's duty events (eld_backend/trips/views.py:82-233).
    Every `objects.create` call is an append to a returned sequence. */
module TripPlan {
  import opened Domain
  import Text

  // ---------------------------------------------------------------------------
  // Stops
  // ---------------------------------------------------------------------------

  /** One fuel stop is planned per full 1000 miles of route. */
  const FuelStopIntervalMiles: real := 1000.0

  /** max(1, distance // 1000): at least one fuel stop, otherwise one per
      full 1000 miles. */
  function FuelStopCount(distanceMiles: real): (n: nat)
    ensures n >= 1
    ensures distanceMiles < 2000.0 ==> n == 1
    ensures distanceMiles >= 1000.0 ==> n as real * 1000.0 <= distanceMiles < (n + 1) as real * 1000.0
  {
    var q := (distanceMiles / FuelStopIntervalMiles).Floor;
    if q < 1 then 1 else q
  }

  /** How long a planned stop of each kind lasts, in hours. */
  function PlannedStopDuration(t: StopType): real
  {
    if t == Pickup || t == Dropoff then 1.0 else 0.5
  }

  /** The i-th fuel stop (0-based) of a trip starting at `now`. */
  function FuelStop(now: real, i: nat): Stop
  {
    var fuelTime := now + 4.0 * (i + 1) as real;
    Stop("Fuel Stop " + Text.NatToString(i + 1), Fuel, fuelTime, fuelTime + 0.5, 0.5)
  }

  /** The first `n` fuel stops, in the order they are appended. */
  function FuelStops(now: real, n: nat): seq<Stop>
  {
    if n == 0 then [] else FuelStops(now, n - 1) + [FuelStop(now, n - 1)]
  }

  function PretripStop(trip: Trip, now: real): Stop
  {
    Stop(trip.currentLocation, Pretrip, now, now + 0.5, 0.5)
  }

  /** The stop list of a trip starting at `now`, in the order it is appended:
      pre-trip inspection, fuel stops, pickup, dropoff, post-trip inspection. */
  function PlannedStops(trip: Trip, distanceMiles: real, durationHours: real, now: real): seq<Stop>
  {
    var pickupTime := now + 2.0;
    var dropoffTime := now + (durationHours - 1.0);
    [PretripStop(trip, now)]
    + FuelStops(now, FuelStopCount(distanceMiles))
    + [Stop(trip.pickupLocation, Pickup, pickupTime, pickupTime + 1.0, 1.0),
       Stop(trip.dropoffLocation, Dropoff, dropoffTime, dropoffTime + 1.0, 1.0),
       Stop(trip.dropoffLocation, Posttrip, dropoffTime + 1.0, dropoffTime + 1.5, 0.5)]
  }

  /** create_trip_stops: builds the stop list, appending the fuel stops in a loop. */
  method CreateTripStops(trip: Trip, distanceMiles: real, durationHours: real, now: real)
    returns (stops: seq<Stop>)
    ensures stops == PlannedStops(trip, distanceMiles, durationHours, now)
  {
    stops := [];
    stops := stops + [Stop(trip.currentLocation, Pretrip, now, now + 0.5, 0.5)];
    var fuelStops := FuelStopCount(distanceMiles);
    for i := 0 to fuelStops
      invariant stops == [PretripStop(trip, now)] + FuelStops(now, i)
    {
      var fuelTime := now + 4.0 * (i + 1) as real;
      stops := stops + [Stop("Fuel Stop " + Text.NatToString(i + 1), Fuel, fuelTime, fuelTime + 0.5, 0.5)];
    }
    var pickupTime := now + 2.0;
    stops := stops + [Stop(trip.pickupLocation, Pickup, pickupTime, pickupTime + 1.0, 1.0)];
    var dropoffTime := now + (durationHours - 1.0);
    stops := stops + [Stop(trip.dropoffLocation, Dropoff, dropoffTime, dropoffTime + 1.0, 1.0)];
    stops := stops + [Stop(trip.dropoffLocation, Posttrip, dropoffTime + 1.0, dropoffTime + 1.5, 0.5)];
  }

  lemma {:induction false} FuelStopsAt(now: real, n: nat, i: nat)
    requires i < n
    ensures |FuelStops(now, n)| == n
    ensures FuelStops(now, n)[i] == FuelStop(now, i)
  {
    if i < n - 1 {
      FuelStopsAt(now, n - 1, i);
    } else if n > 1 {
      FuelStopsAt(now, n - 1, 0);
    }
  }

  lemma FuelStopsLength(now: real, n: nat)
    ensures |FuelStops(now, n)| == n
  {
    if n > 0 { FuelStopsAt(now, n, 0); }
  }

  /** The list has 4 + max(1, distance // 1000) entries: the pre-trip
      inspection first, then only fuel stops, then pickup, dropoff and post-trip. */
  lemma StopPlanLayout(trip: Trip, distanceMiles: real, durationHours: real, now: real)
    ensures var stops := PlannedStops(trip, distanceMiles, durationHours, now);
            var n := FuelStopCount(distanceMiles);
            |stops| == 4 + n
            && stops[0].stopType == Pretrip
            && (forall i :: 1 <= i <= n ==> stops[i].stopType == Fuel)
            && stops[n + 1].stopType == Pickup
            && stops[n + 2].stopType == Dropoff
            && stops[n + 3].stopType == Posttrip
  {
    var n := FuelStopCount(distanceMiles);
    var stops := PlannedStops(trip, distanceMiles, durationHours, now);
    FuelStopsLength(now, n);
    forall i | 1 <= i <= n
      ensures stops[i].stopType == Fuel
    {
      FuelStopsAt(now, n, i - 1);
    }
  }

  /** Fuel stop i (0-based) is named "Fuel Stop i+1", arrives 4(i+1) hours
      after the start and leaves half an hour later; no two share a name. */
  lemma FuelStopSchedule(trip: Trip, distanceMiles: real, durationHours: real, now: real, i: nat, j: nat)
    requires i < FuelStopCount(distanceMiles) && j < FuelStopCount(distanceMiles)
    ensures var stops := PlannedStops(trip, distanceMiles, durationHours, now);
            |stops| == 4 + FuelStopCount(distanceMiles)
            && stops[1 + i].location == "Fuel Stop " + Text.NatToString(i + 1)
            && stops[1 + i].arrival == now + 4.0 * (i + 1) as real
            && stops[1 + i].departure == stops[1 + i].arrival + 0.5
            && (stops[1 + i].location == stops[1 + j].location <==> i == j)
  {
    var n := FuelStopCount(distanceMiles);
    FuelStopsAt(now, n, i);
    FuelStopsAt(now, n, j);
    Text.NatToStringInjective(i + 1, j + 1);
    var a, b := Text.NatToString(i + 1), Text.NatToString(j + 1);
    if "Fuel Stop " + a == "Fuel Stop " + b {
      assert a == ("Fuel Stop " + a)[10..];
    }
  }

  /** Every stop leaves exactly its duration after it arrives: half an hour
      for inspections and fuel, one hour for pickup and dropoff. */
  lemma StopDurations(trip: Trip, distanceMiles: real, durationHours: real, now: real)
    ensures var stops := PlannedStops(trip, distanceMiles, durationHours, now);
            forall i :: 0 <= i < |stops| ==>
              stops[i].duration == PlannedStopDuration(stops[i].stopType)
              && stops[i].departure == stops[i].arrival + stops[i].duration
  {
    var n := FuelStopCount(distanceMiles);
    var stops := PlannedStops(trip, distanceMiles, durationHours, now);
    FuelStopsLength(now, n);
    forall i | 1 <= i <= n
      ensures stops[i] == FuelStop(now, i - 1)
    {
      FuelStopsAt(now, n, i - 1);
    }
  }

  /** The fixed anchors of the plan: pre-trip at the current location at the
      start, pickup two hours in, dropoff one hour before the route duration
      ends, and the post-trip inspection at the dropoff location as soon as
      the dropoff is done. */
  lemma StopAnchors(trip: Trip, distanceMiles: real, durationHours: real, now: real)
    ensures var stops := PlannedStops(trip, distanceMiles, durationHours, now);
            var n := FuelStopCount(distanceMiles);
            |stops| == n + 4
            && stops[0].location == trip.currentLocation && stops[0].arrival == now
            && stops[n + 1].location == trip.pickupLocation && stops[n + 1].arrival == now + 2.0
            && stops[n + 2].location == trip.dropoffLocation
            && stops[n + 2].arrival == now + durationHours - 1.0
            && stops[n + 3].location == stops[n + 2].location
            && stops[n + 3].arrival == stops[n + 2].departure
  {
    FuelStopsLength(now, FuelStopCount(distanceMiles));
  }

  /** The append order is not chronological: the first fuel stop, four hours
      in, is listed before the pickup, which is two hours in. */
  lemma StopsNotChronological(trip: Trip, distanceMiles: real, durationHours: real, now: real)
    ensures var stops := PlannedStops(trip, distanceMiles, durationHours, now);
            var n := FuelStopCount(distanceMiles);
            |stops| == n + 4 && stops[1].arrival > stops[n + 1].arrival
  {
    var n := FuelStopCount(distanceMiles);
    FuelStopsAt(now, n, 0);
  }

  // ---------------------------------------------------------------------------
  // Daily logs
  // ---------------------------------------------------------------------------

  /** On-duty hours recorded on every generated log (inspections, fueling). */
  const DefaultOnDuty: real := 2.0

  /** min(MAX_DRIVING_HOURS, remaining). */
  function DailyDriving(remainingHours: real): real
  {
    if MaxDrivingHoursPerDay <= remainingHours then MaxDrivingHoursPerDay else remainingHours
  }

  /** A bound on the passes left while `remainingHours` hours remain. */
  function LoopMeasure(remainingHours: real): nat
  {
    if remainingHours > 0.0 then remainingHours.Floor + 1 else 0
  }

  lemma MeasureDecreases(remainingHours: real)
    requires remainingHours > 0.0
    ensures LoopMeasure(remainingHours - DailyDriving(remainingHours)) < LoopMeasure(remainingHours)
  {
    if remainingHours > MaxDrivingHoursPerDay {
      assert (remainingHours - 11.0).Floor == remainingHours.Floor - 11;
    }
  }

  /** The log written on pass `day`, with `remainingHours` hours and
      `remainingMiles` miles still to plan. */
  function DayLog(trip: Trip, firstDate: int, day: nat, remainingHours: real, remainingMiles: real): DailyLog
    requires remainingHours > 0.0
  {
    var driving := DailyDriving(remainingHours);
    DailyLog(trip.driver, firstDate + day, MandatoryBreakDuration, RequiredRestPeriodHours,
             driving, DefaultOnDuty, (remainingMiles / remainingHours) * driving,
             "T" + trip.driverNumber)
  }

  /** The logs still to be written from pass `day` on. */
  function PlannedLogs(trip: Trip, firstDate: int, day: nat, remainingHours: real, remainingMiles: real)
    : seq<DailyLog>
    decreases LoopMeasure(remainingHours)
  {
    if remainingHours <= 0.0 then []
    else
      var log := DayLog(trip, firstDate, day, remainingHours, remainingMiles);
      MeasureDecreases(remainingHours);
      [log] + PlannedLogs(trip, firstDate, day + 1,
                          remainingHours - log.totalDriving, remainingMiles - log.totalDrivingMiles)
  }

  /** The duty events of a list of logs, day by day, in creation order. */
  function EventsOf(logs: seq<DailyLog>): seq<DutyEvent>
  {
    if logs == [] then []
    else
      var last := logs[|logs| - 1];
      EventsOf(logs[..|logs| - 1]) + DayEvents(last.date, last.totalDriving)
  }

  /** generate_daily_logs: one log per pass while driving hours remain,
      each followed by that day's duty events. */
  method GenerateDailyLogs(trip: Trip, totalHours: real, totalMiles: real, today: int)
    returns (logs: seq<DailyLog>, events: seq<DutyEvent>)
    ensures logs == PlannedLogs(trip, today, 0, totalHours, totalMiles)
    ensures events == EventsOf(logs)
  {
    var remainingHours := totalHours;
    var remainingMiles := totalMiles;
    var dayCount: nat := 0;
    logs, events := [], [];
    while remainingHours > 0.0
      invariant logs + PlannedLogs(trip, today, dayCount, remainingHours, remainingMiles)
                == PlannedLogs(trip, today, 0, totalHours, totalMiles)
      invariant events == EventsOf(logs)
      decreases LoopMeasure(remainingHours)
    {
      var dailyDrivingHours := if MaxDrivingHoursPerDay <= remainingHours then MaxDrivingHoursPerDay
                               else remainingHours;
      var dailyMiles := (remainingMiles / remainingHours) * dailyDrivingHours;
      var dailyLog := DailyLog(trip.driver, today + dayCount, MandatoryBreakDuration,
                               RequiredRestPeriodHours, dailyDrivingHours, DefaultOnDuty,
                               dailyMiles, "T" + trip.driverNumber);
      assert dailyLog == DayLog(trip, today, dayCount, remainingHours, remainingMiles);
      ghost var before := logs;
      logs := logs + [dailyLog];
      assert logs[..|logs| - 1] == before;
      events := GenerateDutyEvents(events, dailyLog.date, dailyDrivingHours);
      MeasureDecreases(remainingHours);
      remainingHours := remainingHours - dailyDrivingHours;
      remainingMiles := remainingMiles - dailyMiles;
      dayCount := dayCount + 1;
    }
  }

  /** ceil(h / 11) logs are written for h driving hours, none when h <= 0. */
  lemma {:induction false} PlannedLogCount(trip: Trip, firstDate: int, day: nat, h: real, m: real)
    ensures var n := |PlannedLogs(trip, firstDate, day, h, m)|;
            (h <= 0.0 ==> n == 0)
            && (h > 0.0 ==> 11.0 * (n - 1) as real < h <= 11.0 * n as real)
    decreases LoopMeasure(h)
  {
    if h > 0.0 {
      var log := DayLog(trip, firstDate, day, h, m);
      MeasureDecreases(h);
      PlannedLogCount(trip, firstDate, day + 1, h - log.totalDriving, m - log.totalDrivingMiles);
    }
  }

  /** With `m` miles over `h` hours at rate `r`, the per-hour share is `r`,
      and taking `d` hours with their proportional miles leaves the rest at
      rate `r` too. */
  lemma RateKept(h: real, m: real, r: real, d: real)
    requires h > 0.0 && m == r * h
    ensures m / h == r
    ensures m - (m / h) * d == r * (h - d)
  {
  }

  /** Log k of a plan: dated k days after the first, the fixed on-duty,
      off-duty and sleeper totals, and min(11, h - 11k) driving hours. */
  lemma {:induction false} PlannedLogAt(trip: Trip, firstDate: int, day: nat, h: real, m: real, k: nat)
    requires k < |PlannedLogs(trip, firstDate, day, h, m)|
    ensures h > 0.0
    ensures var log := PlannedLogs(trip, firstDate, day, h, m)[k];
            log.date == firstDate + day + k
            && log.driver == trip.driver
            && log.vehicleNumber == "T" + trip.driverNumber
            && log.totalOnDuty == 2.0 && log.totalOffDuty == 0.5 && log.totalSleeperBerth == 10.0
            && log.totalDriving == DailyDriving(h - 11.0 * k as real)
            && 0.0 < log.totalDriving <= MaxDrivingHoursPerDay
    decreases LoopMeasure(h)
  {
    if k > 0 {
      var log := DayLog(trip, firstDate, day, h, m);
      var h', m' := h - log.totalDriving, m - log.totalDrivingMiles;
      assert PlannedLogs(trip, firstDate, day, h, m)[k] == PlannedLogs(trip, firstDate, day + 1, h', m')[k - 1];
      MeasureDecreases(h);
      PlannedLogAt(trip, firstDate, day + 1, h', m', k - 1);
      assert h' == h - 11.0;
    }
  }

  /** Every log of a plan whose miles are `r` per hour carries `r` miles
      per driving hour. */
  lemma {:induction false} PlannedLogRateAt(trip: Trip, firstDate: int, day: nat, h: real, m: real, r: real, k: nat)
    requires m == r * h
    requires k < |PlannedLogs(trip, firstDate, day, h, m)|
    ensures var log := PlannedLogs(trip, firstDate, day, h, m)[k];
            log.totalDrivingMiles == log.totalDriving * r
    decreases LoopMeasure(h)
  {
    var d := DailyDriving(h);
    RateKept(h, m, r, d);
    if k > 0 {
      var log := DayLog(trip, firstDate, day, h, m);
      var h', m' := h - d, m - log.totalDrivingMiles;
      assert PlannedLogs(trip, firstDate, day, h, m)[k] == PlannedLogs(trip, firstDate, day + 1, h', m')[k - 1];
      MeasureDecreases(h);
      PlannedLogRateAt(trip, firstDate, day + 1, h', m', r, k - 1);
    }
  }

  /** Every log carries the trip's miles-per-hour share of miles: the ratio
      of miles to driving hours is the same on every day. */
  lemma PlannedLogRate(trip: Trip, firstDate: int, day: nat, h: real, m: real, k: nat)
    requires k < |PlannedLogs(trip, firstDate, day, h, m)|
    ensures h > 0.0
    ensures var log := PlannedLogs(trip, firstDate, day, h, m)[k];
            log.totalDrivingMiles == log.totalDriving * (m / h)
  {
    assert h > 0.0;
    assert m == (m / h) * h;
    PlannedLogRateAt(trip, firstDate, day, h, m, m / h, k);
  }

  /** Every log but the last has exactly 11 driving hours. */
  lemma FullDaysBeforeLast(trip: Trip, firstDate: int, day: nat, h: real, m: real, k: nat)
    requires k + 1 < |PlannedLogs(trip, firstDate, day, h, m)|
    ensures PlannedLogs(trip, firstDate, day, h, m)[k].totalDriving == MaxDrivingHoursPerDay
  {
    var n := |PlannedLogs(trip, firstDate, day, h, m)|;
    PlannedLogCount(trip, firstDate, day, h, m);
    PlannedLogAt(trip, firstDate, day, h, m, k);
    assert h - 11.0 * k as real >= 11.0 * (n - 1 - k) as real;
  }

  function SumDriving(logs: seq<DailyLog>): real
  {
    if logs == [] then 0.0 else logs[0].totalDriving + SumDriving(logs[1..])
  }

  function SumMiles(logs: seq<DailyLog>): real
  {
    if logs == [] then 0.0 else logs[0].totalDrivingMiles + SumMiles(logs[1..])
  }

  /** The daily driving hours add up to the trip's duration and the daily
      miles to its distance. */
  lemma {:induction false} PlannedLogTotals(trip: Trip, firstDate: int, day: nat, h: real, m: real)
    requires h > 0.0
    ensures SumDriving(PlannedLogs(trip, firstDate, day, h, m)) == h
    ensures SumMiles(PlannedLogs(trip, firstDate, day, h, m)) == m
    decreases LoopMeasure(h)
  {
    var log := DayLog(trip, firstDate, day, h, m);
    var logs := PlannedLogs(trip, firstDate, day, h, m);
    var rest := PlannedLogs(trip, firstDate, day + 1, h - log.totalDriving, m - log.totalDrivingMiles);
    assert logs[1..] == rest;
    if h - log.totalDriving > 0.0 {
      MeasureDecreases(h);
      PlannedLogTotals(trip, firstDate, day + 1, h - log.totalDriving, m - log.totalDrivingMiles);
    } else {
      assert log.totalDriving == h;
      assert log.totalDrivingMiles == m;
    }
  }

  // ---------------------------------------------------------------------------
  // Duty events
  // ---------------------------------------------------------------------------

  /** The four duty events written for a log dated `date` with `drivingHours`
      of driving, relative to 06:00 on that date. */
  function DayEvents(date: int, drivingHours: real): (evs: seq<DutyEvent>)
    ensures |evs| == 4
    ensures evs[0].status == OnDuty && evs[1].status == Driving
    ensures evs[2].status == OffDuty && evs[3].status == SleeperBerth
    ensures forall i :: 0 <= i < 4 ==> evs[i].date == date && evs[i].end.Some?
    ensures forall i :: 0 <= i < 4 ==> (evs[i].truckMoved <==> evs[i].status == Driving)
    // the day starts at 06:00 with half an hour of inspection, then driving
    ensures evs[0].start == Midnight(date) + 6.0 && evs[0].end == Some(evs[1].start)
    ensures evs[0].end.value - evs[0].start == 0.5
    ensures evs[1].end.value - evs[1].start == drivingHours
    // the break is a fixed 10:00-10:30 slot, whatever the driving
    ensures evs[2].start == Midnight(date) + 10.0 && evs[2].end.value - evs[2].start == 0.5
    // the sleeper period begins 1.5 hours after driving ends and lasts
    // until 06:00 the next day
    ensures evs[3].start == evs[1].end.value + 1.5
    ensures evs[3].end.value == Midnight(date + 1) + 6.0
  {
    var startTime := Midnight(date) + 6.0;
    [DutyEvent(OnDuty, date, startTime, Some(startTime + 0.5),
               "Terminal", "Pre-trip inspection", false),
     DutyEvent(Driving, date, startTime + 0.5, Some(startTime + (drivingHours + 0.5)),
               "On Route", "Driving", true),
     DutyEvent(OffDuty, date, startTime + 4.0, Some(startTime + 4.5),
               "Rest Area", "30-minute break", false),
     DutyEvent(SleeperBerth, date, startTime + (drivingHours + 2.0), Some(startTime + 24.0),
               "Truck Stop", "10-hour rest period", false)]
  }

  /** generate_duty_events: appends a day's four events to those created so far. */
  method GenerateDutyEvents(created: seq<DutyEvent>, date: int, drivingHours: real)
    returns (events: seq<DutyEvent>)
    ensures events == created + DayEvents(date, drivingHours)
  {
    var template := DayEvents(date, drivingHours);
    events := created;
    for i := 0 to |template|
      invariant events == created + template[..i]
    {
      events := events + [template[i]];
    }
  }

  /** The fixed 10:00 break overlaps the driving interval exactly when more
      than 3.5 hours are driven. */
  lemma BreakOverlapsDriving(date: int, drivingHours: real)
    requires drivingHours >= 0.0
    ensures var evs := DayEvents(date, drivingHours);
            (evs[2].start < evs[1].end.value && evs[1].start < evs[2].end.value)
            <==> drivingHours > 3.5
  {
  }

  /** The events of consecutive days chain: each sleeper period ends at the
      instant the next day's pre-trip inspection starts. */
  lemma SleeperMeetsNextDay(date: int, drivingHours: real, nextDrivingHours: real)
    ensures DayEvents(date, drivingHours)[3].end == Some(DayEvents(date + 1, nextDrivingHours)[0].start)
  {
  }

  /** A plan's event list has four events per log, those of log k at
      positions 4k to 4k+3. */
  lemma {:induction false} EventsOfAt(logs: seq<DailyLog>, k: nat, j: nat)
    requires k < |logs| && j < 4
    ensures |EventsOf(logs)| == 4 * |logs|
    ensures EventsOf(logs)[4 * k + j] == DayEvents(logs[k].date, logs[k].totalDriving)[j]
  {
    var init := logs[..|logs| - 1];
    if k < |logs| - 1 {
      EventsOfAt(init, k, j);
    } else if |logs| > 1 {
      EventsOfAt(init, 0, 0);
    }
  }
}
