/**
 * The records the pages receive from the trainings and bookings endpoints, with every
 * field that some page treats as optional made an `Option`, and the week's day names.
 */
module Sessions {
  import opened Wrappers
  import opened Seqs

  /** A trainer profile as embedded in a training. */
  datatype Person = Person(id: string, firstName: Option<string>, lastName: Option<string>)

  /**
   * A name part as a template literal renders it. `None` stands for a field absent from the
   * record, which prints as `undefined`; a field present as JSON `null` is not distinguished.
   */
  function Part(o: Option<string>): string {
    o.GetOr("undefined")
  }

  /** `${first_name} ${last_name}`. */
  function FullName(p: Person): string {
    Part(p.firstName) + " " + Part(p.lastName)
  }

  datatype Room = Room(id: string, name: string, capacity: int)

  /**
   * A weekly training session: `day` is `day_of_week`, `start` is `time_of_day`, `end` is
   * `end_time`; `trainerId` is the flat `trainer_id` column, `bookedCount` the server-side
   * `booked_count`, `bookingsLen` the length of an embedded `bookings` array, `duration`
   * the stored length in minutes.
   */
  datatype Training = Training(
    id: string,
    name: Option<string>,
    day: string,
    start: string,
    end: string,
    trainer: Option<Person>,
    trainerId: Option<string>,
    room: Option<Room>,
    bookedCount: Option<int>,
    bookingsLen: Option<nat>,
    duration: Option<int>)

  /** A booking as the client pages receive it: an embedded training and/or a `training_id`. */
  datatype BookingRow = BookingRow(id: string, training: Option<Training>, trainingId: Option<string>)

  /** The seven values of `day_of_week`, Monday first. */
  const DaysOrder: seq<string> :=
    ["monday", "tuesday", "wednesday", "thursday", "friday", "saturday", "sunday"]

  lemma DaysDistinct()
    ensures |DaysOrder| == 7 && Distinct(DaysOrder)
  {
    assert |DaysOrder| == 7;
    var code := (s: string) requires |s| >= 2 => s[0] as int * 256 + s[1] as int;
    var codes := seq(7, k requires 0 <= k < 7 => code(DaysOrder[k]));
    assert codes[0] == 'm' as int * 256 + 'o' as int;
    assert codes[1] == 't' as int * 256 + 'u' as int;
    assert codes[2] == 'w' as int * 256 + 'e' as int;
    assert codes[3] == 't' as int * 256 + 'h' as int;
    assert codes[4] == 'f' as int * 256 + 'r' as int;
    assert codes[5] == 's' as int * 256 + 'a' as int;
    assert codes[6] == 's' as int * 256 + 'u' as int;
    forall i, j | 0 <= i < j < 7 ensures DaysOrder[i] != DaysOrder[j] {
      assert codes[i] != codes[j];
    }
  }

  /** Position of a day in the week (Monday 0 … Sunday 6), `None` for anything else. */
  function WeekdayNumber(day: string): (r: Option<nat>)
    ensures r.Some? <==> day in DaysOrder
    ensures r.Some? ==> r.value < 7 && DaysOrder[r.value] == day
  {
    var i := IndexOf(DaysOrder, day);
    if i == -1 then None else Some(i)
  }
}
