/** The computed columns of the admin screens (eld_backend/trips/admin.py):
    a daily log's compliance verdict and a duty event's duration. */
module Admin {
  import opened Domain
  import TripPlan

  /** The three verdicts the compliance column can show. */
  datatype Verdict = DrivingViolation | OnDutyViolation | Compliant

  /** compliance_status: more than 11 driving hours is a driving violation;
      otherwise more than 14 driving plus on-duty hours is an on-duty
      violation; otherwise the log is compliant. Both tests are strict. */
  function ComplianceStatus(log: DailyLog): (v: Verdict)
    ensures v == DrivingViolation <==> log.totalDriving > MaxDrivingHoursPerDay
    ensures v == OnDutyViolation <==>
              log.totalDriving <= MaxDrivingHoursPerDay
              && log.totalDriving + log.totalOnDuty > MaxOnDutyHoursPerDay
    ensures v == Compliant <==>
              log.totalDriving <= MaxDrivingHoursPerDay
              && log.totalDriving + log.totalOnDuty <= MaxOnDutyHoursPerDay
  {
    if log.totalDriving > 11.0 then DrivingViolation
    else if log.totalDriving + log.totalOnDuty > 14.0 then OnDutyViolation
    else Compliant
  }

  function StatusColor(v: Verdict): string
  {
    if v == Compliant then "green" else "red"
  }

  function StatusLabel(v: Verdict): string
  {
    match v
    case DrivingViolation => "\U{26A0} Driving Violation"
    case OnDutyViolation => "\U{26A0} On-Duty Violation"
    case Compliant => "\U{2713} Compliant"
  }

  /** The markup the column shows for a verdict. */
  function StatusHtml(v: Verdict): string
  {
    "<span style=\"color: " + StatusColor(v) + ";\">" + StatusLabel(v) + "</span>"
  }

  /** Different verdicts are shown as different markup, green only for a
      compliant log. */
  lemma StatusHtmlDistinct(v: Verdict, w: Verdict)
    ensures StatusHtml(v) == StatusHtml(w) <==> v == w
    ensures StatusColor(v) == "green" <==> v == Compliant
  {
    var prefix := "<span style=\"color: ";
    if v != w {
      var sv, sw := StatusHtml(v), StatusHtml(w);
      if StatusColor(v) == StatusColor(w) {
        // both red: the labels differ in their third character
        var k := |prefix| + |StatusColor(v)| + 3 + 2;
        assert sv[k] != sw[k];
      } else {
        var k := |prefix|;
        assert sv[k] == StatusColor(v)[0] && sw[k] == StatusColor(w)[0];
        assert sv[k] != sw[k];
      }
    }
  }

  /** compliance_status_display shows the markup of the verdict
      compliance_status computes. */
  function ComplianceStatusDisplay(log: DailyLog): (html: string)
    ensures html == StatusHtml(ComplianceStatus(log))
  {
    StatusHtml(ComplianceStatus(log))
  }

  /** Verdicts ordered from compliant to a driving violation. */
  function Severity(v: Verdict): nat
  {
    match v
    case Compliant => 0
    case OnDutyViolation => 1
    case DrivingViolation => 2
  }

  /** Lowering a log's driving and on-duty totals never makes its verdict
      more severe. */
  lemma ComplianceMonotone(log: DailyLog, lighter: DailyLog)
    requires lighter.totalDriving <= log.totalDriving
    requires lighter.totalOnDuty <= log.totalOnDuty
    ensures Severity(ComplianceStatus(lighter)) <= Severity(ComplianceStatus(log))
  {
  }

  /** Every log the trip planner writes is compliant: at most 11 driving
      hours plus 2 on-duty hours stay within 13. */
  lemma GeneratedLogsCompliant(trip: Trip, today: int, totalHours: real, totalMiles: real, k: nat)
    requires k < |TripPlan.PlannedLogs(trip, today, 0, totalHours, totalMiles)|
    ensures ComplianceStatus(TripPlan.PlannedLogs(trip, today, 0, totalHours, totalMiles)[k]) == Compliant
  {
    TripPlan.PlannedLogAt(trip, today, 0, totalHours, totalMiles, k);
  }

  /** How the duration column reads: a number of hours, or "Ongoing". */
  datatype DurationText = Hours(hours: real) | Ongoing

  /** duration: end minus start in hours when the event has ended. */
  function EventDuration(e: DutyEvent): (d: DurationText)
    ensures d == Ongoing <==> e.end.None?
    ensures e.end.Some? ==> d.Hours? && e.start + d.hours == e.end.value
  {
    match e.end
    case Some(end) => Hours(end - e.start)
    case None => Ongoing
  }

  /** The durations of a planned day's events against its log: the driving
      event lasts the log's driving hours and the break its off-duty hours,
      while the inspection lasts only 0.5 of the 2.0 on-duty hours and the
      sleeper period 22 - driving hours, more than the 10 hours recorded. */
  lemma GeneratedEventDurations(trip: Trip, today: int, totalHours: real, totalMiles: real, k: nat)
    requires k < |TripPlan.PlannedLogs(trip, today, 0, totalHours, totalMiles)|
    ensures var logs := TripPlan.PlannedLogs(trip, today, 0, totalHours, totalMiles);
            var events := TripPlan.EventsOf(logs);
            var log := logs[k];
            |events| == 4 * |logs|
            && EventDuration(events[4 * k]) == Hours(0.5)
            && EventDuration(events[4 * k + 1]) == Hours(log.totalDriving)
            && EventDuration(events[4 * k + 2]) == Hours(log.totalOffDuty)
            && EventDuration(events[4 * k + 3]) == Hours(22.0 - log.totalDriving)
            && 22.0 - log.totalDriving > log.totalSleeperBerth
  {
    var logs := TripPlan.PlannedLogs(trip, today, 0, totalHours, totalMiles);
    TripPlan.PlannedLogAt(trip, today, 0, totalHours, totalMiles, k);
    TripPlan.EventsOfAt(logs, k, 0);
    TripPlan.EventsOfAt(logs, k, 1);
    TripPlan.EventsOfAt(logs, k, 2);
    TripPlan.EventsOfAt(logs, k, 3);
  }
}
