/** The cycle-hours figures of the driver statistics endpoint
    (eld_backend/trips/views.py:318-338): hours used in the 70-hour cycle,
    hours still available, and the cycle verdict. */
module DriverStats {
  import opened Domain
  import TripPlan

  /** The window reaches back this many days from today, inclusive. */
  const CycleWindowDays: int := 8

  /** A log counts toward the cycle when it is the driver's and is dated on
      or after today - 8 days. */
  predicate InCycle(log: DailyLog, driver: int, today: int)
  {
    log.driver == driver && log.date >= today - CycleWindowDays
  }

  /** What a counted log adds to the cycle: its driving plus on-duty hours. */
  function CycleContribution(log: DailyLog, driver: int, today: int): real
  {
    if InCycle(log, driver, today) then log.totalDriving + log.totalOnDuty else 0.0
  }

  /** Hours used in the current cycle: the sum over the counted logs. */
  function CycleHours(logs: seq<DailyLog>, driver: int, today: int): real
  {
    if logs == [] then 0.0
    else CycleContribution(logs[0], driver, today) + CycleHours(logs[1..], driver, today)
  }

  datatype CycleStatus = CycleCompliant | CycleViolation

  /** The statistics the endpoint reports about the cycle. */
  datatype Stats = Stats(currentCycleHours: real, availableHours: real, complianceStatus: CycleStatus)

  /** Available hours are 70 minus the cycle hours, floored at zero; the
      driver is compliant only while some hours remain, so exactly 70 used
      hours is a violation. */
  function DriverStatistics(logs: seq<DailyLog>, driver: int, today: int): (s: Stats)
    ensures s.currentCycleHours == CycleHours(logs, driver, today)
    ensures s.availableHours >= 0.0
    ensures s.availableHours > 0.0 ==> s.currentCycleHours + s.availableHours == MaxCycleHours70
    ensures s.availableHours == 0.0 ==> s.currentCycleHours >= MaxCycleHours70
    ensures s.complianceStatus == CycleCompliant <==> s.currentCycleHours < MaxCycleHours70
    ensures s.complianceStatus == CycleCompliant <==> s.availableHours > 0.0
  {
    var totalCycleHours := CycleHours(logs, driver, today);
    var availableHours := 70.0 - totalCycleHours;
    Stats(totalCycleHours,
          if 0.0 >= availableHours then 0.0 else availableHours,
          if availableHours > 0.0 then CycleCompliant else CycleViolation)
  }

  /** The cycle sum over two batches of logs is the sum of their sums. */
  lemma {:induction false} CycleHoursAppend(a: seq<DailyLog>, b: seq<DailyLog>, driver: int, today: int)
    ensures CycleHours(a + b, driver, today) == CycleHours(a, driver, today) + CycleHours(b, driver, today)
  {
    if a != [] {
      assert (a + b)[1..] == a[1..] + b;
      CycleHoursAppend(a[1..], b, driver, today);
    } else {
      assert a + b == b;
    }
  }

  /** Logs of other drivers, and logs dated before today - 8, add nothing. */
  lemma {:induction false} CycleHoursIgnoresUncounted(logs: seq<DailyLog>, driver: int, today: int)
    requires forall i :: 0 <= i < |logs| ==> !InCycle(logs[i], driver, today)
    ensures CycleHours(logs, driver, today) == 0.0
  {
    if logs != [] {
      assert forall i :: 0 <= i < |logs| - 1 ==> logs[1..][i] == logs[i + 1];
      CycleHoursIgnoresUncounted(logs[1..], driver, today);
    }
  }

  /** With no negative totals, the cycle hours are never negative. */
  lemma {:induction false} CycleHoursNonNegative(logs: seq<DailyLog>, driver: int, today: int)
    requires forall i :: 0 <= i < |logs| ==> logs[i].totalDriving >= 0.0 && logs[i].totalOnDuty >= 0.0
    ensures CycleHours(logs, driver, today) >= 0.0
  {
    if logs != [] {
      assert forall i :: 0 <= i < |logs| - 1 ==> logs[1..][i] == logs[i + 1];
      CycleHoursNonNegative(logs[1..], driver, today);
    }
  }

  /** The logs planned for a trip starting no earlier than today - 8 all
      count: they add the trip's driving hours plus 2 on-duty hours per log. */
  lemma {:induction false} PlannedLogsCycleHours(trip: Trip, firstDate: int, day: nat, h: real, m: real, today: int)
    requires firstDate + day >= today - CycleWindowDays
    ensures var logs := TripPlan.PlannedLogs(trip, firstDate, day, h, m);
            CycleHours(logs, trip.driver, today) == (if h > 0.0 then h else 0.0) + 2.0 * |logs| as real
    decreases TripPlan.LoopMeasure(h)
  {
    if h > 0.0 {
      var logs := TripPlan.PlannedLogs(trip, firstDate, day, h, m);
      var log := TripPlan.DayLog(trip, firstDate, day, h, m);
      var h', m' := h - log.totalDriving, m - log.totalDrivingMiles;
      assert logs[1..] == TripPlan.PlannedLogs(trip, firstDate, day + 1, h', m');
      TripPlan.MeasureDecreases(h);
      PlannedLogsCycleHours(trip, firstDate, day + 1, h', m', today);
    }
  }

  /** Creating a trip today raises the driver's cycle hours by the trip's
      duration plus 2 hours for each of its ceil(duration / 11) logs. */
  lemma PlanAddsToCycle(existing: seq<DailyLog>, trip: Trip, today: int, totalHours: real, totalMiles: real)
    requires totalHours > 0.0
    ensures var plan := TripPlan.PlannedLogs(trip, today, 0, totalHours, totalMiles);
            CycleHours(existing + plan, trip.driver, today)
            == CycleHours(existing, trip.driver, today) + totalHours + 2.0 * |plan| as real
  {
    var plan := TripPlan.PlannedLogs(trip, today, 0, totalHours, totalMiles);
    CycleHoursAppend(existing, plan, trip.driver, today);
    PlannedLogsCycleHours(trip, today, 0, totalHours, totalMiles, today);
  }
}
