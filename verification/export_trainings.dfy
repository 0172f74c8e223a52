/**
 * The administrator's trainings export: one spreadsheet row per fetched session with its name,
 * its trainer's full name and its number of bookings, and the rule that enables the button.
 */
module ExportTrainings {
  import opened Wrappers
  import opened Strings
  import opened Sessions
  import opened AuthContext

  /** One data row of the sheet. */
  datatype ExportRow = ExportRow(name: string, trainer: string, booked: int)

  /** `trim(first + " " + last)` with missing parts as empty; empty without a trainer. */
  function TrainerName(t: Training): string {
    match t.trainer
    case None => ""
    case Some(p) => Trim(p.firstName.GetOr("") + " " + p.lastName.GetOr(""))
  }

  /** `booked_count` when it is a number, else the length of `bookings`, else 0. */
  function Booked(t: Training): int {
    match t.bookedCount
    case Some(n) => n
    case None => t.bookingsLen.GetOr(0)
  }

  function RowOf(t: Training): ExportRow {
    ExportRow(t.name.GetOr(""), TrainerName(t), Booked(t))
  }

  /** With both parts present and no blank at the outer ends, the name is the two parts joined by a space. */
  lemma TrainerNameJoins(t: Training, first: string, last: string)
    requires t.trainer.Some? && t.trainer.value.firstName == Some(first) && t.trainer.value.lastName == Some(last)
    requires first != "" && !IsBlank(first[0]) && last != "" && !IsBlank(last[|last| - 1])
    ensures TrainerName(t) == first + " " + last
  {
    var s := first + " " + last;
    assert s[0] == first[0] && s[|s| - 1] == last[|last| - 1];
  }

  /** A missing first name leaves just the last name: the space in front is trimmed. */
  lemma TrainerNameLastOnly(t: Training, last: string)
    requires t.trainer.Some? && t.trainer.value.firstName == None && t.trainer.value.lastName == Some(last)
    requires last != "" && !IsBlank(last[0]) && !IsBlank(last[|last| - 1])
    ensures TrainerName(t) == last
  {
    var s := "" + " " + last;
    assert s[1..] == last && IsBlank(s[0]);
    assert TrimStart(s) == TrimStart(last) == last;
    assert TrimEnd(last) == last;
  }

  /** `disabled`: while an export runs, or for anyone who is not an administrator. */
  predicate Disabled(loading: bool, role: Option<string>) {
    loading || role != Some("admin")
  }

  /** After a login as an administrator the button is enabled when idle; after any other login it is not. */
  lemma EnabledOnlyForAdmin(s: Session, ops: seq<AuthOp>, t: string, r: Role)
    ensures var after := Replay(s, ops + [LoginOp(t, r)]);
            !Disabled(false, after.role) <==> r == Admin
  {
    LastCallWins(s, ops + [LoginOp(t, r)]);
  }

  /** The button's state. */
  class ExportButton {
    var loading: bool

    constructor()
      ensures !loading
    {
      loading := false;
    }

    /**
     * `exportXlsx`: nothing without a token; a failed fetch produces no sheet; otherwise the
     * sheet has one row per fetched session, in fetched order. Loading ends on every path.
     */
    method ExportXlsx(token: Option<string>, fetched: Option<seq<Training>>) returns (sheet: Option<seq<ExportRow>>)
      modifies this
      ensures !Truthy(token) ==> sheet.None? && unchanged(this)
      ensures Truthy(token) ==> !loading
      ensures fetched.None? ==> sheet.None?
      ensures Truthy(token) && fetched.Some? ==>
                sheet.Some? && |sheet.value| == |fetched.value|
                && forall i :: 0 <= i < |fetched.value| ==> sheet.value[i] == RowOf(fetched.value[i])
    {
      if !Truthy(token) {
        return None;
      }
      loading := true;
      if fetched.None? {
        loading := false;
        return None;
      }
      var data := fetched.value;
      var rows: seq<ExportRow> := [];
      var i := 0;
      while i < |data|
        invariant 0 <= i <= |data|
        invariant |rows| == i
        invariant forall k :: 0 <= k < i ==> rows[k] == RowOf(data[k])
      {
        rows := rows + [RowOf(data[i])];
        i := i + 1;
      }
      sheet := Some(rows);
      loading := false;
    }
  }
}
