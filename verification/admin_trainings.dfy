/**
 * The administrator's session list: the fetched sessions sorted by day of the week and start
 * time, the day / trainer / room filter chain, and the list update after a delete.
 */
module AdminTrainings {
  import opened Wrappers
  import opened Seqs
  import opened Strings
  import opened Sessions
  import opened Sorting

  /** The comparator's key: the day's index in Monday … Sunday (-1 when unknown), then the start time. */
  function DayTimeKey(t: Training): SortKey {
    SortKey(IndexOf(DaysOrder, t.day), t.start)
  }

  /**
   * The sorted list is non-decreasing by day index, and by start time within a day; a session
   * with an unknown day sorts before every session with a known day.
   */
  lemma DayTimeOrder(s: seq<Training>, i: int, j: int)
    requires SortedBy(s, DayTimeKey) && 0 <= i < j < |s|
    ensures IndexOf(DaysOrder, s[i].day) <= IndexOf(DaysOrder, s[j].day)
    ensures s[i].day == s[j].day ==> !StrLess(s[j].start, s[i].start)
    ensures s[j].day !in DaysOrder ==> s[i].day !in DaysOrder
  {
    assert KeyLe(DayTimeKey(s[i]), DayTimeKey(s[j]));
  }

  /** `t.trainer.id === filterTrainer`; a session without a trainer matches no chosen trainer. */
  predicate TrainerIs(t: Training, id: string) {
    t.trainer.Some? && t.trainer.value.id == id
  }

  /** `t.room.id === filterRoom`; a session without a room matches no chosen room. */
  predicate RoomIs(t: Training, id: string) {
    t.room.Some? && t.room.value.id == id
  }

  /** A session passes every non-empty filter. */
  predicate Passes(t: Training, filterDay: string, filterTrainer: string, filterRoom: string) {
    (filterDay == "" || t.day == filterDay)
    && (filterTrainer == "" || TrainerIs(t, filterTrainer))
    && (filterRoom == "" || RoomIs(t, filterRoom))
  }

  function PassTest(filterDay: string, filterTrainer: string, filterRoom: string): Training -> bool {
    (t: Training) => Passes(t, filterDay, filterTrainer, filterRoom)
  }

  /** The specification of the filter chain: the sessions passing every non-empty filter, in order. */
  function FilterChain(ts: seq<Training>, filterDay: string, filterTrainer: string, filterRoom: string): seq<Training> {
    Filter(ts, PassTest(filterDay, filterTrainer, filterRoom))
  }

  /**
   * The filtered list is an order-preserving subsequence of the sessions, every kept session
   * passes every non-empty filter, and every passing session is kept as often as it occurs.
   */
  lemma FilterChainSpec(ts: seq<Training>, filterDay: string, filterTrainer: string, filterRoom: string, t: Training)
    ensures IsSubseq(FilterChain(ts, filterDay, filterTrainer, filterRoom), ts)
    ensures t in FilterChain(ts, filterDay, filterTrainer, filterRoom) ==> Passes(t, filterDay, filterTrainer, filterRoom)
    ensures multiset(FilterChain(ts, filterDay, filterTrainer, filterRoom))[t]
         == if Passes(t, filterDay, filterTrainer, filterRoom) then multiset(ts)[t] else 0
  {
    FilterIsSubseq(ts, PassTest(filterDay, filterTrainer, filterRoom));
    FilterCount(ts, PassTest(filterDay, filterTrainer, filterRoom), t);
  }

  /** With all three filters empty, the filtered list is the whole list. */
  lemma NoFilterKeepsAll(ts: seq<Training>)
    ensures FilterChain(ts, "", "", "") == ts
  {
    FilterAll(ts, PassTest("", "", ""));
  }

  function DayIs(d: string): Training -> bool {
    (t: Training) => t.day == d
  }

  function TrainerIsTest(id: string): Training -> bool {
    (t: Training) => TrainerIs(t, id)
  }

  function RoomIsTest(id: string): Training -> bool {
    (t: Training) => RoomIs(t, id)
  }

  /** `if (on) list = list.filter(p)`. */
  function When(s: seq<Training>, on: bool, p: Training -> bool): seq<Training> {
    if on then Filter(s, p) else s
  }

  /** The three guarded filter steps, in the page's order, give the filter chain. */
  lemma ChainSteps(ts: seq<Training>, fd: string, ft: string, fr: string)
    ensures When(When(When(ts, fd != "", DayIs(fd)), ft != "", TrainerIsTest(ft)), fr != "", RoomIsTest(fr))
         == FilterChain(ts, fd, ft, fr)
  {
    var dayTest := (t: Training) => fd == "" || t.day == fd;
    var trainerTest := (t: Training) => ft == "" || TrainerIs(t, ft);
    var roomTest := (t: Training) => fr == "" || RoomIs(t, fr);
    var dayTrainer := (t: Training) => dayTest(t) && trainerTest(t);
    var f1 := When(ts, fd != "", DayIs(fd));
    var f2 := When(f1, ft != "", TrainerIsTest(ft));
    assert f1 == Filter(ts, dayTest) by {
      FilterWhen(ts, fd != "", DayIs(fd), dayTest);
    }
    assert f2 == Filter(ts, dayTrainer) by {
      FilterWhen(f1, ft != "", TrainerIsTest(ft), trainerTest);
      FilterFilter(ts, dayTest, trainerTest, dayTrainer);
    }
    assert When(f2, fr != "", RoomIsTest(fr)) == Filter(f2, roomTest) by {
      FilterWhen(f2, fr != "", RoomIsTest(fr), roomTest);
    }
    FilterFilter(ts, dayTrainer, roomTest, PassTest(fd, ft, fr));
  }

  /** `prev.filter(t => t.id !== id)`. */
  function RemoveId(ts: seq<Training>, id: string): seq<Training> {
    Filter(ts, (t: Training) => t.id != id)
  }

  /** Removing an id drops every session with that id and keeps every other one, in order. */
  lemma RemoveIdSpec(ts: seq<Training>, id: string, t: Training)
    ensures IsSubseq(RemoveId(ts, id), ts)
    ensures t in RemoveId(ts, id) ==> t.id != id
    ensures multiset(RemoveId(ts, id))[t] == if t.id == id then 0 else multiset(ts)[t]
  {
    FilterIsSubseq(ts, (t: Training) => t.id != id);
    FilterCount(ts, (t: Training) => t.id != id, t);
  }

  /** The comparator of the fetch effect, applied in place to the fetched array. */
  method SortByDayTime(a: array<Training>) returns (sorted: seq<Training>)
    modifies a
    ensures sorted == a[..] && sorted == SortBy(old(a[..]), DayTimeKey)
    ensures SortedBy(sorted, DayTimeKey) && multiset(sorted) == multiset(old(a[..]))
  {
    SortInPlace(a, DayTimeKey);
    sorted := a[..];
  }

  /** What the delete request came back with. */
  datatype DeleteResponse = Deleted | Refused(error: Option<string>) | Unreachable

  const LoadError: string := "B\U{142}\U{105}d pobierania danych."
  const DeletedMessage: string := "Trening usuni\U{119}ty"
  const DeleteError: string := "B\U{142}\U{105}d usuwania treningu"
  const DeleteServerError: string := "B\U{142}\U{105}d serwera przy usuwaniu"

  /** The page's state. */
  class AdminTrainingsPage {
    var trainings: seq<Training>
    var filtered: seq<Training>
    var message: string
    var filterDay: string
    var filterTrainer: string
    var filterRoom: string

    constructor()
      ensures trainings == [] && filtered == [] && message == ""
      ensures filterDay == "" && filterTrainer == "" && filterRoom == ""
    {
      trainings := [];
      filtered := [];
      message := "";
      filterDay := "";
      filterTrainer := "";
      filterRoom := "";
    }

    /**
     * The fetch effect: nothing without a token; on a failed fetch only the message changes;
     * otherwise the fetched array is sorted in place and becomes both lists.
     */
    method Load(hasToken: bool, fetchOk: bool, fetched: array<Training>)
      modifies this, fetched
      ensures !hasToken ==> unchanged(this) && fetched[..] == old(fetched[..])
      ensures hasToken && !fetchOk ==>
                message == LoadError && trainings == old(trainings) && filtered == old(filtered)
                && fetched[..] == old(fetched[..])
      ensures hasToken && fetchOk ==>
                fetched[..] == SortBy(old(fetched[..]), DayTimeKey)
                && trainings == fetched[..] && filtered == fetched[..] && message == old(message)
      ensures hasToken && fetchOk ==> SortedBy(trainings, DayTimeKey) && multiset(trainings) == multiset(old(fetched[..]))
      ensures filterDay == old(filterDay) && filterTrainer == old(filterTrainer) && filterRoom == old(filterRoom)
    {
      if !hasToken {
        return;
      }
      if !fetchOk {
        message := LoadError;
        return;
      }
      var sorted := SortByDayTime(fetched);
      trainings := sorted;
      filtered := sorted;
    }

    /** The filter effect: start from all sessions and apply each non-empty filter in turn. */
    method ApplyFilters()
      modifies this
      ensures filtered == FilterChain(trainings, filterDay, filterTrainer, filterRoom)
      ensures trainings == old(trainings) && message == old(message)
      ensures filterDay == old(filterDay) && filterTrainer == old(filterTrainer) && filterRoom == old(filterRoom)
    {
      var fd, ft, fr := filterDay, filterTrainer, filterRoom;
      var f := trainings;
      if fd != "" {
        f := Filter(f, DayIs(fd));
      }
      if ft != "" {
        f := Filter(f, TrainerIsTest(ft));
      }
      if fr != "" {
        f := Filter(f, RoomIsTest(fr));
      }
      ChainSteps(trainings, fd, ft, fr);
      filtered := f;
    }

    /**
     * `handleDelete`: without a token or a confirmation nothing changes; a successful request
     * removes every session with that id, a refused or failed one only sets the message.
     */
    method HandleDelete(id: string, hasToken: bool, confirmed: bool, response: DeleteResponse)
      modifies this
      ensures !hasToken || !confirmed ==> unchanged(this)
      ensures hasToken && confirmed && response == Deleted ==>
                trainings == RemoveId(old(trainings), id) && message == DeletedMessage
      ensures hasToken && confirmed && response.Refused? ==>
                trainings == old(trainings)
                && message == (if Truthy(response.error) then response.error.value else DeleteError)
      ensures hasToken && confirmed && response == Unreachable ==>
                trainings == old(trainings) && message == DeleteServerError
      ensures filtered == old(filtered)
      ensures filterDay == old(filterDay) && filterTrainer == old(filterTrainer) && filterRoom == old(filterRoom)
    {
      if !hasToken || !confirmed {
        return;
      }
      match response {
        case Deleted =>
          message := DeletedMessage;
          trainings := RemoveId(trainings, id);
        case Refused(error) =>
          message := if Truthy(error) then error.value else DeleteError;
        case Unreachable =>
          message := DeleteServerError;
      }
    }

    /** `resetFilters`: all three filters back to empty. */
    method ResetFilters()
      modifies this
      ensures filterDay == "" && filterTrainer == "" && filterRoom == ""
      ensures trainings == old(trainings) && filtered == old(filtered) && message == old(message)
    {
      filterDay := "";
      filterTrainer := "";
      filterRoom := "";
    }
  }

  /** After a reset, the filter effect shows every session again. */
  method ResetShowsAll(page: AdminTrainingsPage)
    modifies page
    ensures page.filtered == page.trainings && page.trainings == old(page.trainings)
  {
    page.ResetFilters();
    page.ApplyFilters();
    NoFilterKeepsAll(page.trainings);
  }
}
