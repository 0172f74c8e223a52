/**
 * The client's weekly calendar: `addMinutesToTimeStr` (clock arithmetic on `HH:mm:ss`
 * strings, wrapping at midnight), the day-to-calendar-index table and the event list
 * built from the client's bookings.
 */
module ClientCalendar {
  import opened Wrappers
  import opened Seqs
  import opened Strings
  import opened Sessions

  /** JavaScript `a % b` for a positive `b`: the remainder takes the sign of `a`. */
  function JsRem(a: int, b: int): (r: int)
    requires b > 0
    ensures a >= 0 ==> 0 <= r < b && r == a % b
    ensures a < 0 ==> -b < r <= 0
  {
    if a >= 0 then a % b else -((-a) % b)
  }

  /** `pad`: `n.toString().padStart(2, '0')`, where NaN prints as `NaN`. */
  function Pad(n: Option<int>): string {
    match n
    case Some(v) => PadStart2(IntToString(v))
    case None => "NaN"
  }

  function ToInt(n: Option<nat>): Option<int> {
    match n
    case Some(v) => Some(v)
    case None => None
  }

  /** A `parseInt`-read field of a split clock string; NaN when the field is absent. */
  function FieldAt(parts: seq<string>, i: nat): Option<int> {
    if i < |parts| then ToInt(ParseInt(parts[i])) else None
  }

  /** The seconds field: kept (re-padded) when present, `00` when absent. */
  function SecondsField(parts: seq<string>): string {
    if |parts| >= 3 then Pad(FieldAt(parts, 2)) else "00"
  }

  /**
   * The clock arithmetic of `addMinutesToTimeStr`: the end hour is `floor((total % 1440) / 60)`
   * and the end minute `total % 60`, with JavaScript's truncating `%`; NaN propagates.
   */
  function ShiftClock(h: Option<int>, m: Option<int>, minutes: int): (Option<int>, Option<int>) {
    if h.Some? && m.Some? then
      var total := h.value * 60 + m.value + minutes;
      (Some(JsRem(total, 24 * 60) / 60), Some(JsRem(total, 60)))
    else (None, None)
  }

  /** `addMinutesToTimeStr`. */
  function AddMinutesToTimeStr(time: string, minutes: int): string {
    var parts := Split(time, ':');
    var clock := ShiftClock(FieldAt(parts, 0), FieldAt(parts, 1), minutes);
    Pad(clock.0) + ":" + Pad(clock.1) + ":" + SecondsField(parts)
  }

  lemma DivModUnique(x: int, q: int, r: int)
    requires x == 60 * q + r && 0 <= r < 60
    ensures x / 60 == q && x % 60 == r
  {
  }

  lemma ModDay(x: nat)
    ensures (x % 1440) % 60 == x % 60
    ensures (x % 1440) / 60 < 24
  {
    var q := x / 1440;
    var r := x % 1440;
    assert x == 1440 * q + r;
    DivModUnique(r, r / 60, r % 60);
    DivModUnique(x, 24 * q + r / 60, r % 60);
  }

  /** For a non-negative total the arithmetic is the clock reading `total mod 1440`. */
  lemma ShiftClockOfNat(h: nat, m: nat, k: nat)
    ensures var t := (h * 60 + m + k) % 1440;
            && t / 60 < 24 && t % 60 < 60
            && ShiftClock(Some(h), Some(m), k) == (Some(t / 60), Some(t % 60))
  {
    ModDay(h * 60 + m + k);
  }

  lemma PadTwoDigit(n: nat)
    ensures Pad(Some(n)) == TwoDigit(n)
  {
  }

  lemma FieldsOfClock(h: nat, m: nat, s: nat)
    requires h < 100 && m < 100 && s < 100
    ensures var parts := Split(HourMinuteSecond(h, m, s), ':');
            FieldAt(parts, 0) == Some(h) && FieldAt(parts, 1) == Some(m) && SecondsField(parts) == TwoDigit(s)
  {
    SplitHourMinuteSecond(h, m, s);
    TwoDigitValue(h);
    TwoDigitValue(m);
    TwoDigitValue(s);
  }

  /** The zero-padded `HH:mm:ss` reading `x` minutes after midnight (mod one day), seconds `s`. */
  function ClockString(x: nat, s: nat): string {
    var t := x % 1440;
    HourMinuteSecond(t / 60, t % 60, s)
  }

  /**
   * On a zero-padded `HH:mm:ss` with a valid clock reading and a non-negative shift, the result
   * is the reading `h*60 + m + k` minutes after midnight, wrapped to one day, with the seconds kept.
   */
  lemma AddMinutesClock(h: nat, m: nat, s: nat, k: nat)
    requires h < 24 && m < 60 && s < 100
    ensures AddMinutesToTimeStr(HourMinuteSecond(h, m, s), k) == ClockString(h * 60 + m + k, s)
  {
    var t := (h * 60 + m + k) % 1440;
    FieldsOfClock(h, m, s);
    ShiftClockOfNat(h, m, k);
    PadTwoDigit(t / 60);
    PadTwoDigit(t % 60);
  }

  /** Without a seconds field the result carries `00` seconds. */
  lemma AddMinutesNoSeconds(h: nat, m: nat, k: nat)
    requires h < 24 && m < 60
    ensures AddMinutesToTimeStr(HourMinute(h, m), k) == ClockString(h * 60 + m + k, 0)
  {
    var t := (h * 60 + m + k) % 1440;
    var parts := Split(HourMinute(h, m), ':');
    SplitHourMinute(h, m);
    TwoDigitValue(h);
    TwoDigitValue(m);
    assert FieldAt(parts, 0) == Some(h) && FieldAt(parts, 1) == Some(m) && SecondsField(parts) == "00";
    ShiftClockOfNat(h, m, k);
    PadTwoDigit(t / 60);
    PadTwoDigit(t % 60);
    TwoDigitZero();
  }

  lemma ClockOfReading(h: nat, m: nat)
    requires h < 24 && m < 60
    ensures (h * 60 + m) % 1440 == h * 60 + m
    ensures (h * 60 + m) / 60 == h && (h * 60 + m) % 60 == m
  {
    DivModUnique(h * 60 + m, h, m);
  }

  /** A valid reading is the clock string of its own minute count. */
  lemma ClockStringOfReading(h: nat, m: nat, s: nat)
    requires h < 24 && m < 60
    ensures ClockString(h * 60 + m, s) == HourMinuteSecond(h, m, s)
  {
    ClockOfReading(h, m);
  }

  lemma ModShift(y: nat, k: nat)
    requires k % 1440 == 0
    ensures (y + k) % 1440 == y % 1440
  {
    var q := k / 1440;
    assert k == 1440 * q;
    var r := y % 1440;
    assert y == 1440 * (y / 1440) + r;
    assert y + k == 1440 * (y / 1440 + q) + r;
  }

  /** Clock strings depend only on the minute count modulo one day. */
  lemma ClockStringMod(y: nat, z: nat, s: nat)
    requires y % 1440 == z % 1440
    ensures ClockString(y, s) == ClockString(z, s)
  {
  }

  /**
   * Adding a whole number of days (in particular no minutes at all) to a valid zero-padded
   * reading gives the same string.
   */
  lemma AddWholeDays(h: nat, m: nat, s: nat, k: nat)
    requires h < 24 && m < 60 && s < 100 && k % 1440 == 0
    ensures AddMinutesToTimeStr(HourMinuteSecond(h, m, s), k) == HourMinuteSecond(h, m, s)
  {
    var x := ClockString(h * 60 + m + k, s);
    assert AddMinutesToTimeStr(HourMinuteSecond(h, m, s), k) == x by {
      AddMinutesClock(h, m, s, k);
    }
    assert x == HourMinuteSecond(h, m, s) by {
      ModShift(h * 60 + m, k);
      ClockStringMod(h * 60 + m + k, h * 60 + m, s);
      ClockStringOfReading(h, m, s);
    }
  }

  lemma WrapCompose(x: nat, b: nat, y: nat)
    requires y == x % 1440 / 60 * 60 + x % 1440 % 60 + b
    ensures y % 1440 == (x + b) % 1440
  {
    var t := x % 1440;
    var q := x / 1440;
    assert t / 60 * 60 + t % 60 == t;
    assert x + b == 1440 * q + (t + b);
    var q' := (t + b) / 1440;
    assert t + b == 1440 * q' + (t + b) % 1440;
    assert x + b == 1440 * (q + q') + (t + b) % 1440;
  }

  /** Shifting a clock string by `b` minutes moves it `b` minutes on, wrapping at midnight. */
  lemma AddMinutesToClockString(x: nat, s: nat, b: nat)
    requires s < 100
    ensures AddMinutesToTimeStr(ClockString(x, s), b) == ClockString(x + b, s)
  {
    var hh := x % 1440 / 60;
    var mm := x % 1440 % 60;
    assert hh < 24 && mm < 60 by {
      ModDay(x);
    }
    assert ClockString(x, s) == HourMinuteSecond(hh, mm, s);
    var y := hh * 60 + mm + b;
    assert AddMinutesToTimeStr(HourMinuteSecond(hh, mm, s), b) == ClockString(y, s) by {
      AddMinutesClock(hh, mm, s, b);
    }
    assert y % 1440 == (x + b) % 1440 by {
      WrapCompose(x, b, y);
    }
    ClockStringMod(y, x + b, s);
  }

  // ---------------------------------------------------------------- events

  /** `dayToFcIndex`: Monday 1 … Sunday 7; other values have no entry. */
  function FcDayIndex(day: string): (r: Option<nat>)
    ensures r.Some? <==> day in DaysOrder
    ensures r.Some? ==> 1 <= r.value <= 7 && DaysOrder[r.value - 1] == day
  {
    match WeekdayNumber(day)
    case Some(i) => Some(i + 1)
    case None => None
  }

  /** Distinct days get distinct calendar indices. */
  lemma FcDayIndexInjective(d1: string, d2: string)
    requires FcDayIndex(d1).Some? && FcDayIndex(d1) == FcDayIndex(d2)
    ensures d1 == d2
  {
  }

  /** A weekly recurring event; `daysOfWeek` is a one-element list of calendar indices. */
  datatype CalendarEvent =
    CalendarEvent(id: string, title: string, daysOfWeek: seq<Option<nat>>, startTime: string, endTime: string)

  /** `duration ?? 60`. */
  function DurationOf(t: Training): int {
    t.duration.GetOr(60)
  }

  /**
   * The title reads the trainer's names and the room's name: a booking whose training lacks
   * either makes the page throw while it renders, so the event list is only built without them.
   */
  predicate Titled(b: BookingRow) {
    b.training.Some? ==> b.training.value.trainer.Some? && b.training.value.room.Some?
  }

  /** `${name} • ${first_name} ${last_name} • ${room.name}`. */
  function EventTitle(t: Training): string
    requires t.trainer.Some? && t.room.Some?
  {
    Part(t.name) + " \U{2022} " + FullName(t.trainer.value) + " \U{2022} " + t.room.value.name
  }

  function EventOf(b: BookingRow): CalendarEvent
    requires b.training.Some? && Titled(b)
  {
    var t := b.training.value;
    CalendarEvent(b.id, EventTitle(t), [FcDayIndex(t.day)], t.start, AddMinutesToTimeStr(t.start, DurationOf(t)))
  }

  predicate HasTraining(b: BookingRow) {
    b.training.Some?
  }

  /** `events`: bookings without a training are skipped, every other one becomes one event. */
  function Events(bookings: seq<BookingRow>): (es: seq<CalendarEvent>)
    requires forall i :: 0 <= i < |bookings| ==> Titled(bookings[i])
  {
    var kept := Filter(bookings, HasTraining);
    assert forall b :: b in kept ==> b.training.Some? && b in bookings;
    seq(|kept|, i requires 0 <= i < |kept| => assert kept[i] in kept; EventOf(kept[i]))
  }

  /** The `i`-th event is the event of the `i`-th booking that has a training. */
  lemma EventAt(bookings: seq<BookingRow>, i: nat)
    requires forall k :: 0 <= k < |bookings| ==> Titled(bookings[k])
    requires i < |Filter(bookings, HasTraining)|
    ensures var kept := Filter(bookings, HasTraining);
            && kept[i].training.Some? && Titled(kept[i])
            && i < |Events(bookings)| && Events(bookings)[i] == EventOf(kept[i])
  {
    var kept := Filter(bookings, HasTraining);
    assert kept[i] in kept;
  }

  /**
   * There is exactly one event per booking that has a training, carrying that booking's id,
   * in booking order; the event ends the training's duration (60 minutes when unknown) after it starts.
   */
  lemma EventsOfBookings(bookings: seq<BookingRow>)
    requires forall i :: 0 <= i < |bookings| ==> Titled(bookings[i])
    ensures var kept := Filter(bookings, HasTraining);
            && IsSubseq(kept, bookings)
            && (forall b :: b in bookings && b.training.Some? ==> b in kept)
            && |Events(bookings)| == |kept|
            && forall i :: 0 <= i < |kept| ==>
                 && kept[i].training.Some? && Titled(kept[i])
                 && Events(bookings)[i].id == kept[i].id
                 && Events(bookings)[i].title == EventTitle(kept[i].training.value)
                 && Events(bookings)[i].daysOfWeek == [FcDayIndex(kept[i].training.value.day)]
                 && Events(bookings)[i].startTime == kept[i].training.value.start
                 && Events(bookings)[i].endTime
                    == AddMinutesToTimeStr(kept[i].training.value.start, kept[i].training.value.duration.GetOr(60))
  {
    var kept := Filter(bookings, HasTraining);
    FilterIsSubseq(bookings, HasTraining);
    forall b | b in bookings && b.training.Some? ensures b in kept {
      FilterCount(bookings, HasTraining, b);
      assert multiset(bookings)[b] > 0;
    }
    var es := Events(bookings);
    forall i | 0 <= i < |kept|
      ensures && kept[i].training.Some? && Titled(kept[i])
              && es[i].id == kept[i].id
              && es[i].title == EventTitle(kept[i].training.value)
              && es[i].daysOfWeek == [FcDayIndex(kept[i].training.value.day)]
              && es[i].startTime == kept[i].training.value.start
              && es[i].endTime
                 == AddMinutesToTimeStr(kept[i].training.value.start, kept[i].training.value.duration.GetOr(60))
    {
      EventAt(bookings, i);
    }
  }

  /** A training without a stored duration shows as a one-hour event. */
  lemma MissingDurationIsOneHour(b: BookingRow, h: nat, m: nat, s: nat)
    requires b.training.Some? && Titled(b) && b.training.value.duration.None?
    requires h < 24 && m < 60 && s < 100 && b.training.value.start == HourMinuteSecond(h, m, s)
    ensures EventOf(b).endTime == ClockString(h * 60 + m + 60, s)
  {
    var t := b.training.value;
    var k := DurationOf(t);
    assert k == 60;
    assert EventOf(b).endTime == AddMinutesToTimeStr(HourMinuteSecond(h, m, s), k);
    assert AddMinutesToTimeStr(HourMinuteSecond(h, m, s), k) == ClockString(h * 60 + m + k, s) by {
      AddMinutesClock(h, m, s, k);
    }
  }
}
