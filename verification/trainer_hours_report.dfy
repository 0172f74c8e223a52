/**
 * The trainer's hours report: clock normalisation (`toHM`), session length in minutes
 * (`diffHours`, kept in whole minutes), the trainer's own sessions and the report rows and total.
 */
module TrainerHoursReport {
  import opened Wrappers
  import opened Seqs
  import opened Strings
  import opened Sessions

  // ---------------------------------------------------------------- toHM

  /**
   * `toHM`: the empty string reads as midnight; otherwise the first two `:`-fields,
   * each left-padded with zeros to two characters (a missing minute field reads `00`).
   */
  function ToHM(s: string): (r: string)
    ensures s == "" ==> r == "00:00"
  {
    if s == "" then "00:00"
    else
      var parts := Split(s, ':');
      PadStart2(parts[0]) + ":" + PadStart2(if |parts| >= 2 then parts[1] else "00")
  }

  lemma PadKeepsColonFree(p: string)
    requires ':' !in p
    ensures ':' !in PadStart2(p)
  {
    var r := PadStart2(p);
    PadStart2Shape(p);
    forall i | 0 <= i < |r| ensures r[i] != ':' {
      if i >= |r| - |p| {
        assert r[i] == r[|r| - |p|..][i - (|r| - |p|)];
      }
    }
  }

  lemma ToHMOfFields(s: string)
    requires s != "" && |Split(s, ':')| >= 2
    ensures ToHM(s) == PadStart2(Split(s, ':')[0]) + ":" + PadStart2(Split(s, ':')[1])
  {
  }

  /** `toHM` keeps the first two fields, padded, and drops any further fields (such as seconds). */
  lemma ToHMFields(h: string, m: string, rest: seq<string>)
    requires ':' !in h && ':' !in m
    requires forall i :: 0 <= i < |rest| ==> ':' !in rest[i]
    ensures ToHM(Join([h, m] + rest, ':')) == PadStart2(h) + ":" + PadStart2(m)
  {
    var parts := [h, m] + rest;
    forall i | 0 <= i < |parts| ensures ':' !in parts[i] {
      if i >= 2 {
        assert parts[i] == rest[i - 2];
      }
    }
    SplitJoin(parts, ':');
    var s := Join(parts, ':');
    assert parts[0] == h && parts[1] == m;
    assert s == h + [':'] + Join(parts[1..], ':');
    assert |s| > 0;
    ToHMOfFields(s);
  }

  /** A reading without `:` is an hour alone: the minutes read `00` (`toHM("9")` is `"09:00"`). */
  lemma ToHMOneField(h: string)
    requires h != "" && ':' !in h
    ensures ToHM(h) == PadStart2(h) + ":00"
  {
    SplitOfPlain(h, ':');
    assert PadStart2("00") == "00";
  }

  /** `toHM("9")` is `"09:00"` and `toHM("10")` is `"10:00"`. */
  lemma ToHMHourOnly()
    ensures ToHM("9") == "09:00" && ToHM("10") == "10:00"
  {
    ToHMOneField("9");
    ToHMOneField("10");
  }

  /** `toHM("9:5")` is `"09:05"`. */
  lemma ToHMPadsFields()
    ensures ToHM("9:5") == "09:05"
  {
    var parts: seq<string> := ["9", "5"];
    assert Join(parts[1..], ':') == "5";
    assert Join(parts, ':') == "9:5";
    ToHMFields("9", "5", []);
    assert parts + [] == parts;
  }

  /** `toHM("10:30:00")` is `"10:30"`: seconds are dropped. */
  lemma ToHMDropsSeconds()
    ensures ToHM("10:30:00") == "10:30"
  {
    var parts: seq<string> := ["10", "30", "00"];
    assert Join(parts[2..], ':') == "00";
    assert Join(parts[1..], ':') == "30" + ":" + "00";
    assert Join(parts, ':') == "10" + ":" + ("30" + ":" + "00");
    assert "10" + ":" + ("30" + ":" + "00") == "10:30:00";
    ToHMFields("10", "30", ["00"]);
    assert ["10", "30"] + ["00"] == parts;
    assert PadStart2("10") == "10" && PadStart2("30") == "30";
  }

  /** Normalising an already normalised reading changes nothing. */
  lemma ToHMIdempotent(s: string)
    ensures ToHM(ToHM(s)) == ToHM(s)
  {
    var parts := Split(s, ':');
    var a := if s == "" then "00" else PadStart2(parts[0]);
    var b := if s == "" || |parts| < 2 then "00" else PadStart2(parts[1]);
    if s != "" {
      SplitPiecesFree(s, ':');
      PadKeepsColonFree(parts[0]);
      if |parts| >= 2 {
        PadKeepsColonFree(parts[1]);
      }
    }
    assert ToHM(s) == Join([a, b], ':');
    ToHMFields(a, b, []);
    assert [a, b] + [] == [a, b];
  }

  // ---------------------------------------------------------------- diffHours

  /** `diffHours` in whole minutes: end minus start, clamped at zero; NaN propagates as `None`. */
  function DiffMinutes(startHM: string, endHM: string): (d: Option<nat>)
    ensures d.Some? <==> ClockMinutes(startHM).Some? && ClockMinutes(endHM).Some?
    ensures d.Some? ==> d.value >= ClockMinutes(endHM).value - ClockMinutes(startHM).value
    ensures d.Some? && d.value > 0 ==> d.value == ClockMinutes(endHM).value - ClockMinutes(startHM).value
  {
    match (ClockMinutes(startHM), ClockMinutes(endHM))
    case (Some(s), Some(e)) =>
      var d: nat := if e > s then e - s else 0;
      Some(d)
    case _ => None
  }

  /** On zero-padded readings the duration is `(eh*60+em) - (sh*60+sm)`, clamped at zero. */
  lemma DiffMinutesOfClocks(sh: nat, sm: nat, eh: nat, em: nat)
    requires sh < 100 && sm < 100 && eh < 100 && em < 100
    ensures var d := (eh * 60 + em) - (sh * 60 + sm);
            DiffMinutes(HourMinute(sh, sm), HourMinute(eh, em)) == Some(if d > 0 then d else 0)
  {
    ClockMinutesOf(sh, sm);
    ClockMinutesOf(eh, em);
  }

  /** A session whose end is not after its start counts as zero minutes. */
  lemma DiffMinutesNotAfter(sh: nat, sm: nat, eh: nat, em: nat)
    requires sh < 100 && sm < 100 && eh < 100 && em < 100
    requires eh * 60 + em <= sh * 60 + sm
    ensures DiffMinutes(HourMinute(sh, sm), HourMinute(eh, em)) == Some(0)
  {
    DiffMinutesOfClocks(sh, sm, eh, em);
  }

  // ---------------------------------------------------------------- report

  /** The trainer's own sessions: a truthy `trainer.id` or `trainer_id` equal to the user id. */
  predicate IsOwn(t: Training, userId: Option<string>) {
    (t.trainer.Some? && t.trainer.value.id != "" && Some(t.trainer.value.id) == userId)
    || (Truthy(t.trainerId) && t.trainerId == userId)
  }

  function OwnTrainings(ts: seq<Training>, userId: Option<string>): seq<Training> {
    Filter(ts, t => IsOwn(t, userId))
  }

  /** `dayMap[d] ?? d`: the Polish day name, or the raw value for anything else. */
  function DayLabel(day: string): string {
    if day == "monday" then "Poniedzia\U{142}ek"
    else if day == "tuesday" then "Wtorek"
    else if day == "wednesday" then "\U{15A}roda"
    else if day == "thursday" then "Czwartek"
    else if day == "friday" then "Pi\U{105}tek"
    else if day == "saturday" then "Sobota"
    else if day == "sunday" then "Niedziela"
    else day
  }

  datatype Row = Row(name: Option<string>, day: string, start: string, end: string, minutes: Option<nat>)

  function RowOf(t: Training): Row {
    var start := ToHM(t.start);
    var end := ToHM(t.end);
    Row(t.name, DayLabel(t.day), start, end, DiffMinutes(start, end))
  }

  /** The sum of the rows' minutes (`reduce` from 0); a NaN row makes the total NaN. */
  function Total(rows: seq<Row>): Option<nat> {
    if rows == [] then Some(0)
    else
      match (Total(rows[..|rows| - 1]), rows[|rows| - 1].minutes)
      case (Some(a), Some(b)) => Some(a + b)
      case _ => None
  }

  datatype Report = Report(rows: seq<Row>, total: Option<nat>)

  /** `generateReport`: no report when the user has no sessions, else one row per own session and the total. */
  function GenerateReport(ts: seq<Training>, userId: Option<string>): (r: Option<Report>)
  {
    var own := OwnTrainings(ts, userId);
    if own == [] then None
    else
      var rows := seq(|own|, i requires 0 <= i < |own| => RowOf(own[i]));
      Some(Report(rows, Total(rows)))
  }

  function AddOpt(a: Option<nat>, b: Option<nat>): Option<nat> {
    if a.Some? && b.Some? then Some(a.value + b.value) else None
  }

  /** The total splits over a concatenation of row lists. */
  lemma {:induction false} TotalAppend(a: seq<Row>, b: seq<Row>)
    ensures Total(a + b) == AddOpt(Total(a), Total(b))
    decreases |b|
  {
    if b == [] {
      assert a + b == a;
    } else {
      var b' := b[..|b| - 1];
      TotalAppend(a, b');
      assert (a + b)[..|a + b| - 1] == a + b';
      assert (a + b)[|a + b| - 1] == b[|b| - 1];
    }
  }

  /** The total is defined exactly when every row's duration is, and is then at least each of them. */
  lemma {:induction false} TotalBounds(rows: seq<Row>)
    ensures Total(rows).Some? <==> forall i :: 0 <= i < |rows| ==> rows[i].minutes.Some?
    ensures Total(rows).Some? ==> forall i :: 0 <= i < |rows| ==> rows[i].minutes.value <= Total(rows).value
  {
    if rows != [] {
      TotalBounds(rows[..|rows| - 1]);
    }
  }

  /** The user's own sessions are exactly the sessions that are the user's, in fetched order. */
  lemma OwnTrainingsSpec(ts: seq<Training>, userId: Option<string>)
    ensures IsSubseq(OwnTrainings(ts, userId), ts)
    ensures forall t :: t in OwnTrainings(ts, userId) <==> t in ts && IsOwn(t, userId)
  {
    var p := (t: Training) => IsOwn(t, userId);
    var own := OwnTrainings(ts, userId);
    FilterIsSubseq(ts, p);
    forall t | t in ts && IsOwn(t, userId) ensures t in own {
      FilterCount(ts, p, t);
      assert multiset(own)[t] > 0;
    }
  }

  /** No report is produced exactly when none of the sessions is the user's own. */
  lemma ReportAbsent(ts: seq<Training>, userId: Option<string>)
    ensures GenerateReport(ts, userId).None? <==> forall t :: t in ts ==> !IsOwn(t, userId)
  {
    var own := OwnTrainings(ts, userId);
    OwnTrainingsSpec(ts, userId);
    if own != [] {
      assert own[0] in own;
    }
  }

  /**
   * The page reads `userId` from the authentication context, which provides no such field:
   * the value is always undefined, modelled here as `None`.
   */
  const ContextUserId: Option<string> := None

  /** The report as the page computes it, with the context's (absent) user id. */
  function GenerateReportAsWritten(ts: seq<Training>): Option<Report> {
    GenerateReport(ts, ContextUserId)
  }

  /** As written, no session is ever the user's own, so no report is ever produced. */
  lemma AsWrittenNeverReports(ts: seq<Training>)
    ensures GenerateReportAsWritten(ts) == None
  {
    ReportAbsent(ts, ContextUserId);
  }

  /** With the signed-in trainer's id, a trainer who leads any session gets a report. */
  lemma ReportForOwner(ts: seq<Training>, uid: string, t: Training)
    requires uid != "" && t in ts
    requires t.trainerId == Some(uid) || (t.trainer.Some? && t.trainer.value.id == uid)
    ensures GenerateReport(ts, Some(uid)).Some?
  {
    assert IsOwn(t, Some(uid));
    ReportAbsent(ts, Some(uid));
  }
}
