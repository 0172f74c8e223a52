/**
 * The weekly resource calendar: day names to day offsets, the offset back to this week's
 * Monday, session start and end as minutes from that Monday, the resource columns (one per
 * room or per trainer) and one event per session.
 */
module FullCalendarView {
  import opened Wrappers
  import opened Seqs
  import opened Strings
  import opened Sessions
  import opened InsertionMaps

  /** `dayIndex[dow.toLowerCase()]`: Monday 0 … Sunday 6, `None` (undefined) for anything else. */
  function DayIndex(dow: string): (r: Option<nat>)
    ensures r.Some? <==> LowerAscii(dow) in DaysOrder
    ensures r.Some? ==> r.value < 7 && DaysOrder[r.value] == LowerAscii(dow)
  {
    WeekdayNumber(LowerAscii(dow))
  }

  /** The seven day names are already lower case, so they map to 0 … 6 in order. */
  lemma DayIndexOfDays(i: nat)
    requires i < 7
    ensures DayIndex(DaysOrder[i]) == Some(i)
  {
    DaysDistinct();
    var d := DaysOrder[i];
    assert LowerAscii(d) == d by {
      forall k | 0 <= k < |d| ensures LowerChar(d[k]) == d[k] {
        assert 'a' <= d[k] <= 'z';
      }
    }
  }

  /**
   * `mondayThisWeek`'s day shift for a weekday `day` (Sunday 0 … Saturday 6): back six days
   * on a Sunday, otherwise back to day 1.
   */
  function MondayOffset(day: int): (off: int)
    requires 0 <= day < 7
    ensures -6 <= off <= 0
    ensures (day + off) % 7 == 1
  {
    if day == 0 then -6 else 1 - day
  }

  /** The shift is the only one within the past week that lands on a Monday. */
  lemma MondayOffsetUnique(day: int, off: int)
    requires 0 <= day < 7
    requires -6 <= off <= 0 && (day + off) % 7 == 1
    ensures off == MondayOffset(day)
  {
  }

  /**
   * `toDate` as minutes after 00:00 of the base Monday: the day's offset in whole days plus
   * the clock reading; `None` (an invalid date) for an unknown day or an unreadable time.
   */
  function ToDate(dow: string, time: string): Option<int> {
    match (DayIndex(dow), ClockMinutes(time))
    case (Some(idx), Some(c)) => Some(idx * 1440 + c)
    case _ => None
  }

  lemma DayAndMinute(idx: int, c: int)
    requires 0 <= c < 1440
    ensures (idx * 1440 + c) / 1440 == idx && (idx * 1440 + c) % 1440 == c
  {
  }

  /**
   * A reading within the day on a known day lands on that day, at that clock minute (for
   * zero-padded `HH:mm` readings the clock minute is `h * 60 + m`, by `ClockMinutesOf`).
   */
  lemma ToDateDayAndClock(dow: string, time: string)
    requires DayIndex(dow).Some? && ClockMinutes(time).Some? && ClockMinutes(time).value < 1440
    ensures ToDate(dow, time).Some?
    ensures ToDate(dow, time).value / 1440 == DayIndex(dow).value
    ensures ToDate(dow, time).value % 1440 == ClockMinutes(time).value
  {
    DayAndMinute(DayIndex(dow).value, ClockMinutes(time).value);
  }

  /**
   * A session's start and end are placed on the same day: their distance is the distance of
   * the two clock readings, whatever the day.
   */
  lemma StartEndSameDay(dow: string, start: string, end: string)
    requires ToDate(dow, start).Some? && ToDate(dow, end).Some?
    ensures ToDate(dow, end).value - ToDate(dow, start).value == ClockMinutes(end).value - ClockMinutes(start).value
    ensures ToDate(dow, start).value - ClockMinutes(start).value == DayIndex(dow).value * 1440
  {
  }

  datatype GroupBy = ByRoom | ByTrainer

  /** A resource column. */
  datatype Resource = Resource(id: string, title: string)

  /** The session's room or trainer is present, as the page's record type declares. */
  predicate Grouped(t: Training, g: GroupBy) {
    if g == ByRoom then t.room.Some? else t.trainer.Some?
  }

  /** The room id or trainer id a session is grouped under. */
  function GroupId(t: Training, g: GroupBy): string
    requires Grouped(t, g)
  {
    if g == ByRoom then t.room.value.id else t.trainer.value.id
  }

  /** The column title: the room's name or the trainer's full name. */
  function GroupTitle(t: Training, g: GroupBy): string
    requires Grouped(t, g)
  {
    if g == ByRoom then t.room.value.name else FullName(t.trainer.value)
  }

  /** The `map.set` call made for one session. */
  function ResourcePair(t: Training, g: GroupBy): (string, Resource)
    requires Grouped(t, g)
  {
    (GroupId(t, g), Resource(GroupId(t, g), GroupTitle(t, g)))
  }

  /** The `map.set` calls made for the sessions, in order. */
  function ResourcePairs(ts: seq<Training>, g: GroupBy): (ps: seq<(string, Resource)>)
    requires forall i :: 0 <= i < |ts| ==> Grouped(ts[i], g)
    ensures |ps| == |ts| && forall i :: 0 <= i < |ts| ==> ps[i] == ResourcePair(ts[i], g)
  {
    seq(|ts|, i requires 0 <= i < |ts| => ResourcePair(ts[i], g))
  }

  /**
   * `resources`: one `map.set(id, resource)` per session, in order, then the map's values; the
   * loop of `set` calls is `FromPairs`.
   */
  method Resources(ts: seq<Training>, g: GroupBy) returns (rs: seq<Resource>)
    requires forall i :: 0 <= i < |ts| ==> Grouped(ts[i], g)
    ensures rs == ValuesOf(ResourcePairs(ts, g))
  {
    rs := FromPairs(ResourcePairs(ts, g));
  }

  /** The resource columns name each distinct group id once, in order of first appearance. */
  lemma ResourceIds(ts: seq<Training>, g: GroupBy)
    requires forall k :: 0 <= k < |ts| ==> Grouped(ts[k], g)
    ensures Distinct(Order(ResourcePairs(ts, g)))
    ensures forall id :: id in Order(ResourcePairs(ts, g)) <==> exists k :: 0 <= k < |ts| && GroupId(ts[k], g) == id
  {
    var ps := ResourcePairs(ts, g);
    forall id ensures id in Keys(ps) <==> exists k :: 0 <= k < |ts| && GroupId(ts[k], g) == id {
      if id in Keys(ps) {
        var k :| 0 <= k < |ps| && Keys(ps)[k] == id;
        assert GroupId(ts[k], g) == id;
      }
      if exists k :: 0 <= k < |ts| && GroupId(ts[k], g) == id {
        var k :| 0 <= k < |ts| && GroupId(ts[k], g) == id;
        assert Keys(ps)[k] == id;
      }
    }
  }

  /**
   * Each resource column carries its id and the title given by the last session `j` with that id.
   */
  lemma ResourceTitles(ts: seq<Training>, g: GroupBy, i: nat) returns (j: nat)
    requires forall k :: 0 <= k < |ts| ==> Grouped(ts[k], g)
    requires i < |Order(ResourcePairs(ts, g))|
    ensures j < |ts| && GroupId(ts[j], g) == Order(ResourcePairs(ts, g))[i]
    ensures forall l :: j < l < |ts| ==> GroupId(ts[l], g) != GroupId(ts[j], g)
    ensures ValuesOf(ResourcePairs(ts, g))[i] == ResourcePair(ts[j], g).1
    ensures ValuesOf(ResourcePairs(ts, g))[i].id == GroupId(ts[j], g)
  {
    var ps := ResourcePairs(ts, g);
    var order := Order(ps);
    j := LastWrite(ps, order[i]);
    ValuesOfLastWrite(ps, i, j);
    forall l | j < l < |ts| ensures GroupId(ts[l], g) != GroupId(ts[j], g) {
      assert ps[l].0 != ps[j].0;
    }
  }

  /** A calendar event; `start` and `end` in minutes from the base Monday, `None` when invalid. */
  datatype CalEvent = CalEvent(id: string, title: string, start: Option<int>, end: Option<int>, resourceId: string)

  /** `${name} (${first_name} ${last_name})`. */
  function EventTitle(t: Training): string
    requires t.trainer.Some?
  {
    Part(t.name) + " (" + FullName(t.trainer.value) + ")"
  }

  /**
   * What the event of a session reads: the trainer (for the title) and the room or trainer it
   * is grouped under. With grouping by trainer the room is never read.
   */
  predicate Complete(t: Training, g: GroupBy) {
    t.trainer.Some? && Grouped(t, g)
  }

  /** The event of one session. */
  function EventOf(t: Training, g: GroupBy): CalEvent
    requires Complete(t, g)
  {
    CalEvent(t.id, EventTitle(t), ToDate(t.day, t.start), ToDate(t.day, t.end), GroupId(t, g))
  }

  /** `events`: one event per session, in order. */
  function Events(ts: seq<Training>, g: GroupBy): (es: seq<CalEvent>)
    requires forall i :: 0 <= i < |ts| ==> Complete(ts[i], g)
    ensures |es| == |ts|
  {
    seq(|ts|, i requires 0 <= i < |ts| && Complete(ts[i], g) => EventOf(ts[i], g))
  }

  /**
   * Every session gives exactly one event, with the session's id, the room or trainer id as its
   * column, and a start and end on the session's own day.
   */
  lemma EventsSpec(ts: seq<Training>, g: GroupBy, i: nat)
    requires forall k :: 0 <= k < |ts| ==> Complete(ts[k], g)
    requires i < |ts|
    ensures var e := Events(ts, g)[i];
            && e.id == ts[i].id
            && e.resourceId == GroupId(ts[i], g)
            && (e.start.Some? && e.end.Some? ==>
                  e.end.value - e.start.value == ClockMinutes(ts[i].end).value - ClockMinutes(ts[i].start).value)
    ensures var e := Events(ts, g)[i];
            var day := DayIndex(ts[i].day);
            && (e.start.Some? <==> day.Some? && ClockMinutes(ts[i].start).Some?)
            && (e.end.Some? <==> day.Some? && ClockMinutes(ts[i].end).Some?)
            && (e.start.Some? ==> e.start.value == day.value * 1440 + ClockMinutes(ts[i].start).value)
            && (e.end.Some? ==> e.end.value == day.value * 1440 + ClockMinutes(ts[i].end).value)
  {
    var e := Events(ts, g)[i];
    if e.start.Some? && e.end.Some? {
      StartEndSameDay(ts[i].day, ts[i].start, ts[i].end);
    }
  }
}
