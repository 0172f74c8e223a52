/**
 * The public class schedule: stripping diacritics for the search, the three filters, the
 * per-day grouping sorted by start time, free seats and the tile's action, the set of the
 * caller's booked sessions, the trainer list of the trainer filter and the checks made
 * before a booking request is sent.
 */
module ClassesPage {
  import opened Wrappers
  import opened Seqs
  import opened Strings
  import opened Sessions
  import opened Sorting
  import opened InsertionMaps

  // ---------------------------------------------------------------- search normalisation

  /** A combining diacritical mark: code unit 0x0300 … 0x036F. */
  predicate IsCombiningMark(c: char) {
    0x0300 <= c as int <= 0x036F
  }

  predicate IsBase(c: char) {
    !IsCombiningMark(c)
  }

  /** The specification of `stripDiacritics` on an already decomposed string. */
  function Stripped(d: string): string {
    Filter(d, IsBase)
  }

  /** `stripDiacritics` after the decomposition step: copies every code unit that is not a mark. */
  method StripDiacritics(d: string) returns (out: string)
    ensures out == Stripped(d)
  {
    out := "";
    var i := 0;
    while i < |d|
      invariant 0 <= i <= |d|
      invariant out == Stripped(d[..i])
    {
      FilterAppend(d[..i], [d[i]], IsBase);
      assert d[..i + 1] == d[..i] + [d[i]];
      if IsCombiningMark(d[i]) {
        i := i + 1;
        continue;
      }
      out := out + [d[i]];
      i := i + 1;
    }
    assert d[..i] == d;
  }

  /**
   * Stripping keeps every code unit outside the mark range, in order, with its number of
   * occurrences, and drops every mark; it never lengthens the string and is idempotent.
   */
  lemma StrippedSpec(d: string)
    ensures IsSubseq(Stripped(d), d)
    ensures forall c :: multiset(Stripped(d))[c] == if IsCombiningMark(c) then 0 else multiset(d)[c]
    ensures |Stripped(d)| <= |d|
    ensures Stripped(Stripped(d)) == Stripped(d)
  {
    FilterIsSubseq(d, IsBase);
    forall c ensures multiset(Stripped(d))[c] == if IsCombiningMark(c) then 0 else multiset(d)[c] {
      FilterCount(d, IsBase, c);
    }
    FilterIdempotent(d, IsBase);
  }

  /** `normalizeNoRegex`: strip the marks, then lower-case. */
  function NormalizeNoRegex(s: string): string {
    LowerAscii(Stripped(s))
  }

  // ---------------------------------------------------------------- filters

  predicate DayOk(t: Training, filterDay: string) {
    filterDay == "" || t.day == filterDay
  }

  /** `t.trainer?.id === filterTrainer`: a session without a trainer never matches a chosen trainer. */
  predicate TrainerOk(t: Training, filterTrainer: string) {
    filterTrainer == "" || (t.trainer.Some? && t.trainer.value.id == filterTrainer)
  }

  /** The normalised name contains the normalised term; a session without a name never matches a term. */
  predicate TermOk(t: Training, term: string) {
    term == "" || (t.name.Some? && Contains(NormalizeNoRegex(t.name.value), term))
  }

  /** The search term as the filter uses it: trimmed, then normalised. */
  function SearchTerm(searchTerm: string): string {
    NormalizeNoRegex(Trim(searchTerm))
  }

  predicate Matches(t: Training, filterDay: string, filterTrainer: string, term: string) {
    DayOk(t, filterDay) && TrainerOk(t, filterTrainer) && TermOk(t, term)
  }

  function DayTest(filterDay: string): Training -> bool {
    (t: Training) => DayOk(t, filterDay)
  }

  function TrainerTest(filterTrainer: string): Training -> bool {
    (t: Training) => TrainerOk(t, filterTrainer)
  }

  function TermTest(term: string): Training -> bool {
    (t: Training) => TermOk(t, term)
  }

  function MatchTest(filterDay: string, filterTrainer: string, term: string): Training -> bool {
    (t: Training) => Matches(t, filterDay, filterTrainer, term)
  }

  /** `filtered`: the day filter, then the trainer filter, then the search. */
  function Filtered(ts: seq<Training>, filterDay: string, filterTrainer: string, searchTerm: string): seq<Training> {
    Filter(Filter(Filter(ts, DayTest(filterDay)), TrainerTest(filterTrainer)), TermTest(SearchTerm(searchTerm)))
  }

  /** The three filters in a row are one filter by all three tests. */
  lemma FilteredIsOneFilter(ts: seq<Training>, filterDay: string, filterTrainer: string, term: string)
    ensures Filter(Filter(Filter(ts, DayTest(filterDay)), TrainerTest(filterTrainer)), TermTest(term))
         == Filter(ts, MatchTest(filterDay, filterTrainer, term))
  {
    var p12 := (t: Training) => DayOk(t, filterDay) && TrainerOk(t, filterTrainer);
    FilterFilter(ts, DayTest(filterDay), TrainerTest(filterTrainer), p12);
    FilterFilter(ts, p12, TermTest(term), MatchTest(filterDay, filterTrainer, term));
  }

  /** The filtered list is an order-preserving subsequence of the sessions. */
  lemma FilteredSubseq(ts: seq<Training>, filterDay: string, filterTrainer: string, searchTerm: string)
    ensures IsSubseq(Filtered(ts, filterDay, filterTrainer, searchTerm), ts)
  {
    var term := SearchTerm(searchTerm);
    FilteredIsOneFilter(ts, filterDay, filterTrainer, term);
    FilterIsSubseq(ts, MatchTest(filterDay, filterTrainer, term));
  }

  /**
   * A session passing all three filters is kept as often as it occurs, and any other session
   * is dropped.
   */
  lemma FilteredCount(ts: seq<Training>, filterDay: string, filterTrainer: string, searchTerm: string, t: Training)
    ensures multiset(Filtered(ts, filterDay, filterTrainer, searchTerm))[t]
         == if Matches(t, filterDay, filterTrainer, SearchTerm(searchTerm)) then multiset(ts)[t] else 0
  {
    var term := SearchTerm(searchTerm);
    FilteredIsOneFilter(ts, filterDay, filterTrainer, term);
    FilterCount(ts, MatchTest(filterDay, filterTrainer, term), t);
  }

  /** With no day, no trainer and a blank search, the whole list is shown. */
  lemma FilteredNoFilter(ts: seq<Training>, searchTerm: string)
    requires SearchTerm(searchTerm) == ""
    ensures Filtered(ts, "", "", searchTerm) == ts
  {
    var term := SearchTerm(searchTerm);
    var all := MatchTest("", "", term);
    FilteredIsOneFilter(ts, "", "", term);
    forall i | 0 <= i < |ts| ensures all(ts[i]) {
      assert DayOk(ts[i], "") && TrainerOk(ts[i], "") && TermOk(ts[i], term);
    }
    FilterAll(ts, all);
  }

  /** A blank search (only white space) imposes no restriction. */
  lemma BlankSearchTerm(searchTerm: string)
    requires forall i :: 0 <= i < |searchTerm| ==> IsBlank(searchTerm[i])
    ensures SearchTerm(searchTerm) == ""
  {
    assert TrimStart(searchTerm) == [] by {
      BlankTrimStart(searchTerm);
    }
  }

  lemma {:induction false} BlankTrimStart(s: string)
    requires forall i :: 0 <= i < |s| ==> IsBlank(s[i])
    ensures TrimStart(s) == []
  {
    if s != [] {
      BlankTrimStart(s[1..]);
    }
  }

  // ---------------------------------------------------------------- grouping by day

  function OnDay(d: string): Training -> bool {
    (t: Training) => t.day == d
  }

  /** The sessions of one day, in list order. */
  function DayGroup(ts: seq<Training>, d: string): seq<Training> {
    Filter(ts, OnDay(d))
  }

  /** The sort key of the per-day sort: `time_of_day` only. */
  function StartKey(t: Training): SortKey {
    SortKey(0, t.start)
  }

  /** Pushing one more session extends its own day's list and no other. */
  lemma DayGroupPush(ts: seq<Training>, t: Training, d: string)
    ensures DayGroup(ts + [t], d) == DayGroup(ts, d) + (if t.day == d then [t] else [])
  {
    FilterAppend(ts, [t], OnDay(d));
  }

  /** The push loop: seven lists, each holding its day's sessions in list order. */
  method PushByDay(filtered: seq<Training>) returns (groups: map<string, seq<Training>>)
    ensures forall d :: d in groups <==> d in DaysOrder
    ensures forall d :: d in groups ==> groups[d] == DayGroup(filtered, d)
  {
    groups := map d | d in DaysOrder :: [];
    var i := 0;
    while i < |filtered|
      invariant 0 <= i <= |filtered|
      invariant forall d :: d in groups <==> d in DaysOrder
      invariant forall d :: d in groups ==> groups[d] == DayGroup(filtered[..i], d)
    {
      var t := filtered[i];
      assert filtered[..i + 1] == filtered[..i] + [t];
      forall d | d in groups
        ensures DayGroup(filtered[..i + 1], d) == DayGroup(filtered[..i], d) + (if t.day == d then [t] else [])
      {
        DayGroupPush(filtered[..i], t, d);
      }
      if t.day in groups {
        groups := groups[t.day := groups[t.day] + [t]];
      }
      i := i + 1;
    }
    assert filtered[..i] == filtered;
  }

  /** The sort loop: every listed day's sessions sorted by start time. */
  method SortEachDay(pushed: map<string, seq<Training>>, days: seq<string>) returns (groups: map<string, seq<Training>>)
    requires Distinct(days)
    requires forall d :: d in pushed <==> d in days
    ensures forall d :: d in groups <==> d in days
    ensures forall d :: d in groups ==> groups[d] == SortBy(pushed[d], StartKey)
  {
    groups := pushed;
    var k := 0;
    while k < |days|
      invariant 0 <= k <= |days|
      invariant forall d :: d in groups <==> d in days
      invariant forall j :: 0 <= j < k ==> groups[days[j]] == SortBy(pushed[days[j]], StartKey)
      invariant forall j :: k <= j < |days| ==> groups[days[j]] == pushed[days[j]]
    {
      var d := days[k];
      var sorted := SortSeq(groups[d], StartKey);
      ghost var before := groups;
      groups := groups[d := sorted];
      forall j | 0 <= j < |days| && j != k ensures groups[days[j]] == before[days[j]] {
        assert days[j] != d;
      }
      k := k + 1;
    }
    forall d | d in groups ensures groups[d] == SortBy(pushed[d], StartKey) {
      var j := IndexOf(days, d);
      assert groups[days[j]] == SortBy(pushed[days[j]], StartKey);
    }
  }

  /**
   * `groupedByDay`: seven empty lists, one push per session whose day is one of the seven,
   * then every list sorted by start time.
   */
  method GroupedByDay(filtered: seq<Training>) returns (groups: map<string, seq<Training>>)
    ensures forall d :: d in groups <==> d in DaysOrder
    ensures forall d :: d in groups ==> groups[d] == SortBy(DayGroup(filtered, d), StartKey)
  {
    var pushed := PushByDay(filtered);
    DaysDistinct();
    groups := SortEachDay(pushed, DaysOrder);
  }

  /**
   * Each day's list holds exactly the filtered sessions of that day, ordered by start time;
   * a session whose day is not one of the seven is in no list.
   */
  lemma GroupSpec(filtered: seq<Training>, d: string)
    ensures var g := SortBy(DayGroup(filtered, d), StartKey);
            && SortedBy(g, StartKey)
            && (forall t :: multiset(g)[t] == if t.day == d then multiset(filtered)[t] else 0)
            && (forall t :: t in g ==> t.day == d)
  {
    var g := SortBy(DayGroup(filtered, d), StartKey);
    SortBySorted(DayGroup(filtered, d), StartKey);
    forall t: Training ensures multiset(g)[t] == if t.day == d then multiset(filtered)[t] else 0 {
      FilterCount(filtered, OnDay(d), t);
    }
    forall t: Training | t in g ensures t.day == d {
      assert multiset(g)[t] > 0;
    }
  }

  // ---------------------------------------------------------------- seats and tile

  /** `t.room?.capacity ?? 0`. */
  function Capacity(t: Training): int {
    if t.room.Some? then t.room.value.capacity else 0
  }

  /** `t.booked_count ?? 0`. */
  function Booked(t: Training): int {
    t.bookedCount.GetOr(0)
  }

  /** `Math.max(capacity - booked, 0)`. */
  function FreeSeats(t: Training): (free: int)
    ensures free >= 0 && free >= Capacity(t) - Booked(t)
    ensures free == 0 || free == Capacity(t) - Booked(t)
    ensures Booked(t) >= 0 && Capacity(t) >= 0 ==> free <= Capacity(t)
  {
    if Capacity(t) - Booked(t) > 0 then Capacity(t) - Booked(t) else 0
  }

  datatype TileAction = AlreadyBooked | BookButton | NoSeats

  /** The tile shows the booked notice, the booking button, or "no seats". */
  function Tile(t: Training, bookedIds: set<string>): (a: TileAction)
    ensures a == AlreadyBooked <==> t.id in bookedIds
    ensures a == BookButton <==> t.id !in bookedIds && FreeSeats(t) > 0
    ensures a == NoSeats <==> t.id !in bookedIds && FreeSeats(t) == 0
  {
    if t.id in bookedIds then AlreadyBooked
    else if FreeSeats(t) > 0 then BookButton
    else NoSeats
  }

  // ---------------------------------------------------------------- my bookings

  /** `b.training?.id || b.training_id`, kept only when it is a non-empty string. */
  function BookedTrainingId(b: BookingRow): (r: Option<string>)
    ensures r.Some? ==> r.value != ""
    ensures b.training.Some? && b.training.value.id != "" ==> r == Some(b.training.value.id)
    ensures !(b.training.Some? && b.training.value.id != "") ==> (r.Some? <==> Truthy(b.trainingId))
    ensures !(b.training.Some? && b.training.value.id != "") && r.Some? ==> b.trainingId == r
  {
    if b.training.Some? && b.training.value.id != "" then Some(b.training.value.id)
    else if Truthy(b.trainingId) then b.trainingId
    else None
  }

  /**
   * The set of the caller's booked session ids: empty without a token, otherwise the id of
   * every booking that names one.
   */
  method MyBookedIds(token: Option<string>, bookings: seq<BookingRow>) returns (ids: set<string>)
    ensures forall id :: id in ids <==>
              Truthy(token) && exists i :: 0 <= i < |bookings| && BookedTrainingId(bookings[i]) == Some(id)
  {
    ids := {};
    if !Truthy(token) {
      return;
    }
    var i := 0;
    while i < |bookings|
      invariant 0 <= i <= |bookings|
      invariant forall id :: id in ids <==> exists j :: 0 <= j < i && BookedTrainingId(bookings[j]) == Some(id)
    {
      var id := BookedTrainingId(bookings[i]);
      if id.Some? {
        ids := ids + {id.value};
      }
      i := i + 1;
    }
  }

  // ---------------------------------------------------------------- trainer options

  predicate HasTrainerId(t: Training) {
    t.trainer.Some? && t.trainer.value.id != ""
  }

  /** A session's trainer as the pair `(id, profile)` handed to `map.set`. */
  function TrainerPair(t: Training): (string, Person)
    requires t.trainer.Some?
  {
    (t.trainer.value.id, t.trainer.value)
  }

  /** The `map.set(t.trainer.id, t.trainer)` calls made for the sessions, in order. */
  function TrainerPairs(ts: seq<Training>): (ps: seq<(string, Person)>)
    ensures |ps| <= |ts|
  {
    var f := Filter(ts, HasTrainerId);
    seq(|f|, i requires 0 <= i < |f| => assert f[i] in f; TrainerPair(f[i]))
  }

  lemma TrainerPairsStep(ts: seq<Training>, i: nat)
    requires i < |ts|
    ensures HasTrainerId(ts[i]) ==> TrainerPairs(ts[..i + 1]) == TrainerPairs(ts[..i]) + [TrainerPair(ts[i])]
    ensures !HasTrainerId(ts[i]) ==> TrainerPairs(ts[..i + 1]) == TrainerPairs(ts[..i])
  {
    assert ts[..i + 1] == ts[..i] + [ts[i]];
    FilterAppend(ts[..i], [ts[i]], HasTrainerId);
    assert Filter([ts[i]], HasTrainerId) == if HasTrainerId(ts[i]) then [ts[i]] else [];
  }

  /** `trainerOptions`: one entry per trainer id, in order of first appearance, last profile seen. */
  method TrainerOptions(ts: seq<Training>) returns (opts: seq<Person>)
    ensures opts == ValuesOf(TrainerPairs(ts))
  {
    var m := new InsertionMap<string, Person>();
    var i := 0;
    while i < |ts|
      invariant 0 <= i <= |ts|
      invariant m.Valid()
      invariant m.order == Order(TrainerPairs(ts[..i])) && m.entries == Table(TrainerPairs(ts[..i]))
    {
      var t := ts[i];
      TrainerPairsStep(ts, i);
      if HasTrainerId(t) {
        PairsStep(TrainerPairs(ts[..i]), TrainerPair(t).0, TrainerPair(t).1);
        m.Set(t.trainer.value.id, t.trainer.value);
      }
      i := i + 1;
    }
    assert ts[..i] == ts;
    opts := m.Values();
  }

  predicate HasTrainer(ts: seq<Training>, k: string) {
    exists t :: t in ts && HasTrainerId(t) && t.trainer.value.id == k
  }

  /** The pairs name exactly the trainer ids of the sessions, each under its profile's own id. */
  lemma TrainerPairsKeys(ts: seq<Training>)
    ensures forall k :: k in Keys(TrainerPairs(ts)) <==> HasTrainer(ts, k)
    ensures forall j :: 0 <= j < |TrainerPairs(ts)| ==> TrainerPairs(ts)[j].1.id == TrainerPairs(ts)[j].0
  {
    var f := Filter(ts, HasTrainerId);
    var ps := TrainerPairs(ts);
    forall k ensures k in Keys(ps) <==> HasTrainer(ts, k) {
      if HasTrainer(ts, k) {
        var t :| t in ts && HasTrainerId(t) && t.trainer.value.id == k;
        FilterCount(ts, HasTrainerId, t);
        assert multiset(ts)[t] > 0;
        assert t in f;
        var j :| 0 <= j < |f| && f[j] == t;
        assert Keys(ps)[j] == k;
      }
      if k in Keys(ps) {
        var j :| 0 <= j < |ps| && Keys(ps)[j] == k;
        assert f[j] in f;
      }
    }
  }

  /**
   * The trainer list has exactly one entry per distinct non-empty trainer id among the
   * sessions, in order of first appearance, and each entry is a profile with that id;
   * sessions without a trainer contribute nothing.
   */
  lemma TrainerOptionsSpec(ts: seq<Training>)
    ensures var order := Order(TrainerPairs(ts));
            var opts := ValuesOf(TrainerPairs(ts));
            && Distinct(order)
            && (forall k :: k in order <==> HasTrainer(ts, k))
            && |opts| == |order|
            && (forall i :: 0 <= i < |opts| ==> opts[i].id == order[i])
  {
    var ps := TrainerPairs(ts);
    var order := Order(ps);
    TrainerPairsKeys(ts);
    forall i | 0 <= i < |order| ensures ValuesOf(ps)[i].id == order[i] {
      var j := LastWrite(ps, order[i]);
      ValuesOfLastWrite(ps, i, j);
    }
  }

  // ---------------------------------------------------------------- booking request

  datatype BookAction = GoToLogin | RoleAlert | Cancelled | SendBooking(trainingId: string)

  /**
   * The checks `handleBook` makes before sending the request: no token sends to the login page,
   * a role other than `client` raises an alert, an unconfirmed dialog stops.
   */
  function HandleBook(token: Option<string>, role: Option<string>, confirmed: bool, trainingId: string): (a: BookAction)
    ensures a.SendBooking? <==> Truthy(token) && role == Some("client") && confirmed
    ensures a.SendBooking? ==> a.trainingId == trainingId
    ensures a == GoToLogin <==> !Truthy(token)
    ensures a == RoleAlert <==> Truthy(token) && role != Some("client")
  {
    if !Truthy(token) then GoToLogin
    else if role != Some("client") then RoleAlert
    else if !confirmed then Cancelled
    else SendBooking(trainingId)
  }
}
