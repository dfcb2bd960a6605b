/** The 24-hour duty grid of the front end
    (eld_frontend/src/assets/components/DutyTimeGrid.jsx): one boolean slot
    per hour of the day, filled from the events of one duty status. */
module DutyTimeGridView {
  import opened Domain
  import TripPlan

  const SlotCount: nat := 24

  /** An hour of the day on the local clock, as `getHours` returns it. */
  type Hour = h: int | 0 <= h < 24

  /** An event as the grid reads it: its status key, the hour its start
      falls in and, when it has an end, the hour its end falls in. */
  datatype GridEvent = GridEvent(status: string, startHour: Hour, endHour: Option<Hour>)

  /** The hour before which marking stops: the end's hour, or the hour after
      the start when the event has no end. */
  function EndHour(e: GridEvent): int
  {
    if e.endHour.Some? then e.endHour.value else e.startHour + 1
  }

  /** Event `e` marks slot `h` of the grid for `dutyType`. */
  predicate Marks(dutyType: string, e: GridEvent, h: int)
  {
    e.status == dutyType && e.startHour <= h < EndHour(e) && h < SlotCount
  }

  /** Some event of `events` marks slot `h`. */
  predicate Marked(dutyType: string, events: seq<GridEvent>, h: int)
  {
    exists k :: 0 <= k < |events| && Marks(dutyType, events[k], h)
  }

  lemma MarkedSnoc(dutyType: string, events: seq<GridEvent>, e: GridEvent, h: int)
    ensures Marked(dutyType, events + [e], h) <==> Marked(dutyType, events, h) || Marks(dutyType, e, h)
  {
    var all := events + [e];
    if Marked(dutyType, events, h) {
      var k :| 0 <= k < |events| && Marks(dutyType, events[k], h);
      assert all[k] == events[k];
    }
    if Marks(dutyType, e, h) {
      assert all[|events|] == e;
    }
    if Marked(dutyType, all, h) {
      var k :| 0 <= k < |all| && Marks(dutyType, all[k], h);
      if k < |events| {
        assert all[k] == events[k];
      }
    }
  }

  /** The slots the grid shows for `dutyType` do not depend on the order of
      the events: any rearrangement marks the same hours. */
  lemma MarkedIgnoresOrder(dutyType: string, events: seq<GridEvent>, shuffled: seq<GridEvent>, h: int)
    requires multiset(events) == multiset(shuffled)
    ensures Marked(dutyType, events, h) <==> Marked(dutyType, shuffled, h)
  {
    forall a: seq<GridEvent>, b: seq<GridEvent> | multiset(a) == multiset(b) && Marked(dutyType, a, h)
      ensures Marked(dutyType, b, h)
    {
      var k :| 0 <= k < |a| && Marks(dutyType, a[k], h);
      assert a[k] in multiset(a);
      assert a[k] in multiset(b);
      var k' :| 0 <= k' < |b| && b[k'] == a[k];
    }
  }

  /** What a single event does to the grid: an event of another status marks
      nothing; one with an end marks the hours from its start hour up to but
      not including its end hour (and so nothing when it ends in an earlier
      hour, as one crossing midnight does); one without an end marks only its
      start hour. */
  lemma SingleEventSlots(dutyType: string, e: GridEvent, h: Hour)
    ensures e.status != dutyType ==> !Marked(dutyType, [e], h)
    ensures e.status == dutyType && e.endHour.Some? ==>
              (Marked(dutyType, [e], h) <==> e.startHour <= h < e.endHour.value)
    ensures e.status == dutyType && e.endHour.None? ==>
              (Marked(dutyType, [e], h) <==> h == e.startHour)
  {
    assert [e][0] == e;
  }

  /** With no event of the grid's status, every slot stays inactive. */
  lemma NoMatchMarksNothing(dutyType: string, events: seq<GridEvent>, h: int)
    requires forall k :: 0 <= k < |events| ==> events[k].status != dutyType
    ensures !Marked(dutyType, events, h)
  {
  }

  /** The grid after flipping slot `index`. */
  function Toggled(slots: seq<bool>, index: nat): (r: seq<bool>)
    requires index < |slots|
    ensures |r| == |slots| && r[index] == !slots[index]
    ensures forall h :: 0 <= h < |slots| && h != index ==> r[h] == slots[h]
  {
    slots[index := !slots[index]]
  }

  /** Toggling the same slot twice restores the grid. */
  lemma ToggleTwiceRestores(slots: seq<bool>, index: nat)
    requires index < |slots|
    ensures Toggled(Toggled(slots, index), index) == slots
  {
  }

  /** A status key with every underscore turned into a hyphen, as the CSS
      class names spell it. */
  function Hyphenated(key: string): string
  {
    seq(|key|, i requires 0 <= i < |key| => if key[i] == '_' then '-' else key[i])
  }

  class DutyTimeGrid {
    /** The duty status key this grid shows. */
    const dutyType: string
    var timeSlots: array<bool>

    ghost predicate Valid()
      reads this
    {
      timeSlots.Length == SlotCount
    }

    /** The component starts with 24 inactive slots. */
    constructor (dutyType: string)
      ensures Valid() && this.dutyType == dutyType
      ensures forall h :: 0 <= h < SlotCount ==> !timeSlots[h]
    {
      this.dutyType := dutyType;
      timeSlots := new bool[24](_ => false);
    }

    /** The effect run when the events change: a fresh all-false grid in
        which every event of this grid's status marks its hours. */
    method ShowEvents(events: seq<GridEvent>)
      modifies this
      ensures Valid() && fresh(timeSlots)
      ensures forall h :: 0 <= h < SlotCount ==> timeSlots[h] == Marked(dutyType, events, h)
    {
      var slots := new bool[24](_ => false);
      for j := 0 to |events|
        invariant forall h :: 0 <= h < 24 ==> slots[h] == Marked(dutyType, events[..j], h)
      {
        var event := events[j];
        if event.status == dutyType {
          var startHour := event.startHour;
          var endHour := if event.endHour.Some? then event.endHour.value else startHour + 1;
          var i := startHour;
          while i < endHour && i < 24
            invariant startHour <= i <= 24
            invariant i == startHour || i <= endHour
            invariant forall h :: 0 <= h < 24 ==>
                        slots[h] == (Marked(dutyType, events[..j], h) || startHour <= h < i)
          {
            slots[i] := true;
            i := i + 1;
          }
        }
        assert events[..j + 1] == events[..j] + [event];
        forall h | 0 <= h < 24
          ensures slots[h] == Marked(dutyType, events[..j + 1], h)
        {
          MarkedSnoc(dutyType, events[..j], event, h);
        }
      }
      assert events[..|events|] == events;
      timeSlots := slots;
    }

    /** toggleTimeSlot: a copy of the grid with one slot flipped replaces it. */
    method ToggleTimeSlot(index: Hour)
      requires Valid()
      modifies this
      ensures Valid() && fresh(timeSlots)
      ensures timeSlots[..] == Toggled(old(timeSlots[..]), index)
    {
      var current := timeSlots[..];
      var newSlots := new bool[24](i requires 0 <= i < 24 => current[i]);
      newSlots[index] := !newSlots[index];
      timeSlots := newSlots;
    }

    /** getSlotClass: "time-slot" for an inactive slot or an unknown status;
        for an active slot of a known status, "time-slot " followed by the
        status's class name. */
    function SlotClass(active: bool): (cls: string)
      ensures |cls| >= 9 && cls[..9] == "time-slot"
      ensures cls == "time-slot" <==> !active || StatusClass(dutyType).None?
      ensures active && StatusClass(dutyType).Some? ==>
                cls == "time-slot " + StatusClass(dutyType).value
    {
      var baseClass := "time-slot";
      if !active then baseClass
      else match StatusClass(dutyType)
        case Some(name) => baseClass + " " + name
        case None => baseClass
    }
  }

  /** The class name the grid adds for an active slot of each status key,
      none for an unknown key. */
  function StatusClass(dutyType: string): Option<string>
  {
    if dutyType == "off_duty" then Some("off-duty")
    else if dutyType == "sleeper_berth" then Some("sleeper-berth")
    else if dutyType == "driving" then Some("driving")
    else if dutyType == "on_duty" then Some("on-duty")
    else None
  }

  /** Exactly the four duty status keys have a class name. */
  lemma StatusClassOfKeys(dutyType: string)
    ensures StatusClass(dutyType).Some? <==> exists s: DutyStatus :: StatusKey(s) == dutyType
  {
    if dutyType == "off_duty" {
      assert StatusKey(OffDuty) == dutyType;
    } else if dutyType == "sleeper_berth" {
      assert StatusKey(SleeperBerth) == dutyType;
    } else if dutyType == "driving" {
      assert StatusKey(Driving) == dutyType;
    } else if dutyType == "on_duty" {
      assert StatusKey(OnDuty) == dutyType;
    }
  }

  /** Each status's class name is its key with the underscore turned into a
      hyphen. */
  lemma StatusClassHyphenates(s: DutyStatus)
    ensures StatusClass(StatusKey(s)) == Some(Hyphenated(StatusKey(s)))
  {
    match s
    case OffDuty => assert Hyphenated("off_duty") == "off-duty";
    case SleeperBerth => assert Hyphenated("sleeper_berth") == "sleeper-berth";
    case Driving => assert Hyphenated("driving") == "driving";
    case OnDuty => assert Hyphenated("on_duty") == "on-duty";
  }

  /** The hour of the day an instant falls in. */
  function HourOf(t: real): Hour
  {
    t.Floor % 24
  }

  /** A stored duty event as the grid receives it. */
  function ToGridEvent(e: DutyEvent): GridEvent
  {
    GridEvent(StatusKey(e.status), HourOf(e.start),
              if e.end.Some? then Some(HourOf(e.end.value)) else None)
  }

  function ToGridEvents(events: seq<DutyEvent>): (r: seq<GridEvent>)
    ensures |r| == |events|
    ensures forall i :: 0 <= i < |events| ==> r[i] == ToGridEvent(events[i])
  {
    if events == [] then [] else [ToGridEvent(events[0])] + ToGridEvents(events[1..])
  }

  /** Of the four grids, one per duty status, a stored event can only mark
      slots on the grid of its own status. */
  lemma EventOnOwnGrid(e: DutyEvent, t: DutyStatus, h: int)
    ensures Marked(StatusKey(t), [ToGridEvent(e)], h) ==> t == e.status
  {
    StatusKeyInjective(t, e.status);
    assert [ToGridEvent(e)][0] == ToGridEvent(e);
  }

  lemma HourOfDay(date: int, x: real)
    requires 0.0 <= x < 24.0
    ensures HourOf(Midnight(date) + x) == x.Floor
  {
    assert (Midnight(date) + x).Floor == 24 * date + x.Floor;
  }

  /** A planned day seen on the grids: only the driving grid shows anything,
      the hours from 06:00 up to the hour driving ends. The half-hour
      inspection and break start and end within one hour, and the sleeper
      period ends at 06:00, an earlier hour than it starts, so none of them
      marks a slot. */
  lemma PlannedDayOnGrid(date: int, drivingHours: real, h: Hour)
    requires 0.0 < drivingHours <= MaxDrivingHoursPerDay
    ensures var grid := ToGridEvents(TripPlan.DayEvents(date, drivingHours));
            !Marked("on_duty", grid, h) && !Marked("off_duty", grid, h)
            && !Marked("sleeper_berth", grid, h)
            && (Marked("driving", grid, h) <==> 6 <= h < (6.5 + drivingHours).Floor)
  {
    var evs := TripPlan.DayEvents(date, drivingHours);
    var grid := ToGridEvents(evs);
    HourOfDay(date, 6.0);
    HourOfDay(date, 6.5);
    HourOfDay(date, 10.0);
    HourOfDay(date, 10.5);
    HourOfDay(date, 6.5 + drivingHours);
    HourOfDay(date, 8.0 + drivingHours);
    HourOfDay(date + 1, 6.0);
    assert grid[0] == GridEvent("on_duty", 6, Some(6));
    assert grid[1] == GridEvent("driving", 6, Some((6.5 + drivingHours).Floor));
    assert grid[2] == GridEvent("off_duty", 10, Some(10));
    assert grid[3].status == "sleeper_berth" && grid[3].startHour >= 8 && grid[3].endHour == Some(6);
  }
}
