# ELD trucking system: trip planning, compliance and duty grid

A Dafny model of the deterministic arithmetic in the ELD (electronic logging
device) trip tracker. When a trip is created, the backend plans a stop list, a
sequence of daily logs, and four duty events for each day. The admin screens
classify a daily log as compliant or in violation, and show each duty event's
duration. The driver statistics endpoint sums the hours used in the 70-hour
cycle. The front end shows one status's events on a 24-slot hour grid.

The modules:

- `domain.dfy` (`Domain`): the stop types, the duty statuses and their stored
  keys, the records (trip, stop, daily log, duty event), and the ELD settings
  constants (11 driving hours, 14 on-duty hours, 10-hour rest, 70-hour cycle,
  0.5-hour break).
- `text.dfy` (`Text`): decimal rendering of the fuel stop number.
- `trip_plan.dfy` (`TripPlan`): `create_trip_stops`, `generate_daily_logs` and
  `generate_duty_events`. Each is a method that appends records to a returned
  sequence, standing in for the ORM's `objects.create`. Each is proved equal to
  a specification function (`PlannedStops`, `PlannedLogs`, `DayEvents`,
  `EventsOf`), and lemmas state what those functions promise.
- `admin.dfy` (`Admin`): the compliance verdict, its markup, and event
  duration.
- `driver_stats.dfy` (`DriverStats`): cycle hours, available hours and the
  cycle verdict.
- `duty_time_grid.dfy` (`DutyTimeGridView`): the grid component as a class
  holding its 24-slot array. The effect that fills it and `toggleTimeSlot`
  each install a fresh array, as the component replaces its state.
  `getSlotClass` is a function.

Units: instants are `real` hours since an epoch on the local wall clock. Dates
are `int` day numbers, and day `d` starts at instant `24 * d`. The route's
distance and duration, the current instant and today's date are inputs. All
arithmetic is exact.

Two consequences of the code are proved as lemmas:

- The daily log records 10 sleeper hours, but its sleeper event lasts
  22 − driving hours (`Admin.GeneratedEventDurations`).
- On the hour grid, a planned day shows only its driving hours. The half-hour
  inspection and break begin and end in the same hour. The sleeper period ends
  at 06:00, an earlier hour than it starts. So none of the three marks a slot
  (`DutyTimeGridView.PlannedDayOnGrid`).

The HOS planner class in `eld_backend/trips/hos_calculator.py` (and
`eld_backend/trips/services.py`) is commented out in the code, so it is not
part of this model. The model follows the code that runs.

## Model

| member | source | states |
|---|---|---|
| `Domain.StatusKeyInjective` | eld_backend/trips/models.py:86-91 | the four duty statuses have four distinct stored keys |
| `Text.NatToStringRoundTrip` | eld_backend/trips/views.py:103 | the decimal number in a fuel stop's name reads back as the number |
| `Text.NatToStringInjective` | eld_backend/trips/views.py:103 | distinct numbers render to distinct strings |
| `TripPlan.FuelStopCount` | eld_backend/trips/views.py:99 | max(1, distance // 1000): at least one fuel stop; exactly one below 2000 miles; from 1000 miles on, the n with 1000n ≤ distance < 1000(n+1) |
| `TripPlan.CreateTripStops` | eld_backend/trips/views.py:82-141 | the appended stop list is the planned list |
| `TripPlan.FuelStopsAt` | eld_backend/trips/views.py:100-108 | after the loop, the i-th fuel stop appended is fuel stop i |
| `TripPlan.StopPlanLayout` | eld_backend/trips/views.py:87-137 | 4 + max(1, distance // 1000) stops, in the order pre-trip, fuel stops, pickup, dropoff, post-trip |
| `TripPlan.FuelStopSchedule` | eld_backend/trips/views.py:99-108 | fuel stop i is named "Fuel Stop i+1", arrives 4(i+1) h after the start, leaves 30 min later; no two fuel stops share a name |
| `TripPlan.StopDurations` | eld_backend/trips/views.py:90-137 | every stop departs its duration after arriving: 0.5 h for inspections and fuel, 1.0 h for pickup and dropoff |
| `TripPlan.StopAnchors` | eld_backend/trips/views.py:90-137 | pre-trip at the current location at the start; pickup at start + 2 h; dropoff at start + duration − 1 h; post-trip at the dropoff location when the dropoff departs |
| `TripPlan.StopsNotChronological` | eld_backend/trips/views.py:99-118 | the first fuel stop (4 h in) is listed before the pickup (2 h in), so the list is not in arrival order |
| `TripPlan.MeasureDecreases` | eld_backend/trips/views.py:160-183 | each pass of the log loop reduces a natural-number measure of the remaining hours, so the loop ends |
| `TripPlan.GenerateDailyLogs` | eld_backend/trips/views.py:143-185 | the logs written are the planned logs; the events written are each log's four day events, in order |
| `TripPlan.PlannedLogCount` | eld_backend/trips/views.py:160-185 | no logs when hours ≤ 0; otherwise n logs with 11(n−1) < hours ≤ 11n, i.e. n = ceil(hours / 11) |
| `TripPlan.PlannedLogAt` | eld_backend/trips/views.py:154-178 | log k is dated start + k days, has on-duty 2.0, off-duty 0.5, sleeper 10, vehicle "T" + driver number, and min(11, hours − 11k) driving hours, in (0, 11] |
| `TripPlan.FullDaysBeforeLast` | eld_backend/trips/views.py:160-162 | every log but the last has exactly 11 driving hours |
| `TripPlan.RateKept` | eld_backend/trips/views.py:165-184 | with miles at rate r per hour, the per-hour share is r, and removing a day's hours with their proportional miles leaves the rest at rate r |
| `TripPlan.PlannedLogRateAt` | eld_backend/trips/views.py:160-185 | while the remaining miles are r per remaining hour, every log written carries r miles per driving hour |
| `TripPlan.PlannedLogRate` | eld_backend/trips/views.py:165 | every log's miles are its driving hours times the trip's miles per hour |
| `TripPlan.PlannedLogTotals` | eld_backend/trips/views.py:160-185 | the daily driving hours sum to the trip duration and the daily miles to the trip distance |
| `TripPlan.DayEvents` | eld_backend/trips/views.py:189-230 | four events: on-duty 06:00–06:30, then driving for the day's driving hours, a fixed off-duty 10:00–10:30, and sleeper berth from 1.5 h after driving ends to 06:00 next day; only the driving event has the truck moving |
| `TripPlan.GenerateDutyEvents` | eld_backend/trips/views.py:187-233 | appends exactly the day's four events to those already created |
| `TripPlan.BreakOverlapsDriving` | eld_backend/trips/views.py:204-220 | the fixed break overlaps the driving interval iff more than 3.5 hours are driven |
| `TripPlan.SleeperMeetsNextDay` | eld_backend/trips/views.py:189-228 | a day's sleeper period ends exactly when the next day's pre-trip inspection starts |
| `TripPlan.EventsOfAt` | eld_backend/trips/views.py:180-181 | four events per log, those of log k at positions 4k..4k+3 |
| `Admin.ComplianceStatus` | eld_backend/trips/admin.py:52-59 | driving > 11 is a driving violation whatever the on-duty time; otherwise driving + on-duty > 14 is an on-duty violation; otherwise compliant (exactly 11 or exactly 14 is compliant) |
| `Admin.StatusHtmlDistinct` | eld_backend/trips/admin.py:54-59 | the three verdicts render as three different markups, green only when compliant |
| `Admin.ComplianceStatusDisplay` | eld_backend/trips/admin.py:63-64 | the display column shows the markup of the same verdict |
| `Admin.ComplianceMonotone` | eld_backend/trips/admin.py:54-59 | lowering driving and on-duty totals never makes the verdict more severe |
| `Admin.GeneratedLogsCompliant` | eld_backend/trips/admin.py:54-59 | every log the trip planner writes is classified compliant |
| `Admin.EventDuration` | eld_backend/trips/admin.py:75-81 | "Ongoing" iff the event has no end; otherwise end − start hours |
| `Admin.GeneratedEventDurations` | eld_backend/trips/views.py:168-230 | in a planned day, the driving event lasts the log's driving hours and the break its off-duty hours; the inspection lasts 0.5 h; the sleeper event lasts 22 − driving h, more than the log's 10 |
| `DriverStats.DriverStatistics` | eld_backend/trips/views.py:318-338 | available = max(0, 70 − cycle); compliant iff cycle < 70 iff available > 0, so exactly 70 hours is a violation |
| `DriverStats.CycleHoursAppend` | eld_backend/trips/views.py:324-327 | the cycle sum over two batches of logs is the sum of their sums |
| `DriverStats.CycleHoursIgnoresUncounted` | eld_backend/trips/views.py:318-322 | logs of other drivers and logs dated before today − 8 add nothing |
| `DriverStats.CycleHoursNonNegative` | eld_backend/trips/views.py:324-327 | with non-negative totals the cycle hours are non-negative |
| `DriverStats.PlannedLogsCycleHours` | eld_backend/trips/views.py:324-327 | a planned trip's logs add its driving hours plus 2 h per log to the cycle |
| `DriverStats.PlanAddsToCycle` | eld_backend/trips/views.py:318-327 | creating a trip today raises the driver's cycle hours by duration + 2·ceil(duration / 11) |
| `DutyTimeGridView.DutyTimeGrid.constructor` | eld_frontend/src/assets/components/DutyTimeGrid.jsx:4 | the grid starts with 24 inactive slots |
| `DutyTimeGridView.DutyTimeGrid.ShowEvents` | eld_frontend/src/assets/components/DutyTimeGrid.jsx:6-18 | the effect installs a fresh 24-slot grid whose slot h is active iff some event of the grid's status marks h |
| `DutyTimeGridView.MarkedSnoc` | eld_frontend/src/assets/components/DutyTimeGrid.jsx:8-16 | processing one more event only adds that event's hours; slots are only ever set to true |
| `DutyTimeGridView.MarkedIgnoresOrder` | eld_frontend/src/assets/components/DutyTimeGrid.jsx:7-16 | any rearrangement of the events marks the same slots |
| `DutyTimeGridView.SingleEventSlots` | eld_frontend/src/assets/components/DutyTimeGrid.jsx:9-13 | an event of another status marks nothing; with an end it marks exactly start hour ≤ h < end hour (nothing when the end hour is not later); without an end it marks only its start hour |
| `DutyTimeGridView.NoMatchMarksNothing` | eld_frontend/src/assets/components/DutyTimeGrid.jsx:7-16 | with no event of the grid's status, every slot is inactive |
| `DutyTimeGridView.DutyTimeGrid.ToggleTimeSlot` | eld_frontend/src/assets/components/DutyTimeGrid.jsx:20-24 | installs a fresh copy of the grid with slot `index` flipped |
| `DutyTimeGridView.Toggled` | eld_frontend/src/assets/components/DutyTimeGrid.jsx:21-22 | the flipped slot is negated and the other 23 are unchanged |
| `DutyTimeGridView.ToggleTwiceRestores` | eld_frontend/src/assets/components/DutyTimeGrid.jsx:20-24 | toggling the same slot twice restores the grid |
| `DutyTimeGridView.DutyTimeGrid.SlotClass` | eld_frontend/src/assets/components/DutyTimeGrid.jsx:26-37 | always starts "time-slot"; is exactly "time-slot" for an inactive slot or an unknown status; otherwise "time-slot " plus the status's class |
| `DutyTimeGridView.StatusClassOfKeys` | eld_frontend/src/assets/components/DutyTimeGrid.jsx:30-36 | exactly the four duty status keys have a class |
| `DutyTimeGridView.StatusClassHyphenates` | eld_frontend/src/assets/components/DutyTimeGrid.jsx:31-34 | each status's class is its key with "_" replaced by "-" |
| `DutyTimeGridView.EventOnOwnGrid` | eld_frontend/src/assets/components/DutyTimeGrid.jsx:8-9 | an event marks slots only on the grid whose duty type is its own status's key, since the four stored keys are distinct |
| `DutyTimeGridView.PlannedDayOnGrid` | eld_frontend/src/assets/components/DutyTimeGrid.jsx:9-13 | for a planned day, only the driving grid shows anything: hours 6 up to the hour driving ends |

## Left out

- Route lookup (`get_route_data`, `route_data_view`, eld_backend/trips/views.py:45-80, 260-309) calls OpenRouteService over the network. The route's distance and duration are inputs; the metres-to-miles and seconds-to-hours divisions and `round(..., 2)` are not modelled.
- Persistence: records are appended to returned sequences. Foreign keys, ids, `created_at`, and the log fields the planner leaves at defaults (trailer number, shipper, commodity, load number) are left out.
- The crash paths: each stop dict uses the key `departure_time` while the model field is `depature_time`, so `Stop.objects.create` raises. Also, from 2000 miles on, `max` returns the float `distance_miles // 1000`, which `range` rejects (below 2000 miles it returns the int `1`). The blanket `except` swallows both, and in the code the daily logs are then never generated. The model computes what the code evidently intends: an integer fuel-stop count, and stops and logs both produced.
- Floating point: the model uses exact reals, so there is no residue in `remaining_hours` and no float `//`.
- Admin.EventDuration: returns the exact number of hours rather than the text formatted with one decimal followed by " hours".
- Clocks and time zones: `timezone.now()`, `make_aware` and the browser's local `getHours` are replaced by inputs. `HourOf` reads the hour of an instant on the same clock, so a browser in another time zone is not modelled.
- `driver_stats_view` also reports the driver's name, driver number and the count of their trips. These are ORM lookups and are not modelled; the model keeps the cycle figures (eld_backend/trips/views.py:318-338).
- `eld_backend/trips/hos_calculator.py` and `eld_backend/trips/services.py` are entirely commented out. Their planner would also loop forever at 60 or more cycle hours.
- Serializers, URL routing, the other admin screens, and the front-end components other than the duty grid are framework, rendering or HTTP code. The grid's `totalMinutes` property is unused by the component.
- DutyTimeGridView.DutyTimeGrid.ToggleTimeSlot: requires the index to be a slot of the grid (0 to 23). The only caller passes the index of a rendered slot; an out-of-range index, which would lengthen the JavaScript array, is not modelled.
