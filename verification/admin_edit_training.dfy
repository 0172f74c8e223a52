/**
 * The administrator's edit form for one session: loading the session, the trainer and room
 * availability requests (which leave the edited session itself out), clearing a trainer who
 * became busy, the rule that disables the submit button, and saving.
 */
module AdminEditTraining {
  import opened Wrappers
  import opened Strings
  import opened Sessions

  const LoadError: string := "B\U{142}\U{105}d pobierania danych."
  const TrainerCheckError: string := "B\U{142}\U{105}d sprawdzania dost\U{119}pno\U{15B}ci trenera"
  const TrainerBusyMessage: string := "Wybrany trener jest w tym czasie zaj\U{119}ty. Wybierz innego."
  const TimesOrderMessage: string := "Godzina zako\U{144}czenia musi by\U{107} p\U{F3}\U{17A}niejsza ni\U{17C} rozpocz\U{119}cia."
  const SaveError: string := "B\U{142}\U{105}d podczas zapisu."
  const ServerError: string := "B\U{142}\U{105}d po\U{142}\U{105}czenia z serwerem."

  /** The body of both availability requests. */
  datatype AvailabilityQuery = AvailabilityQuery(day: string, start: string, end: string, ignoreTrainingId: string)

  /**
   * Whether an availability request is made, and with what body: only with a token, a session
   * id, a day, a start and an end, and only when the start is before the end.
   */
  function AvailabilityQueryOf(token: Option<string>, trainingId: Option<string>,
                               day: string, start: string, end: string): (q: Option<AvailabilityQuery>)
    ensures q.Some? <==> Truthy(token) && Truthy(trainingId) && day != "" && start != "" && end != ""
                         && StrLess(start, end)
    ensures q.Some? ==> q.value.ignoreTrainingId == trainingId.value && q.value.ignoreTrainingId != ""
    ensures q.Some? ==> q.value.day == day && q.value.start == start && q.value.end == end
  {
    if !Truthy(token) || day == "" || start == "" || end == "" || !Truthy(trainingId) then None
    else if !StrLess(start, end) then None
    else Some(AvailabilityQuery(day, start, end, trainingId.value))
  }

  /** On zero-padded `HH:mm` readings, a request is made only for a start strictly before the end. */
  lemma QueryTimesOrdered(token: Option<string>, trainingId: Option<string>, day: string,
                          sh: nat, sm: nat, eh: nat, em: nat)
    requires sh < 100 && sm < 60 && eh < 100 && em < 60
    ensures AvailabilityQueryOf(token, trainingId, day, HourMinute(sh, sm), HourMinute(eh, em)).Some?
            <==> Truthy(token) && Truthy(trainingId) && day != "" && sh * 60 + sm < eh * 60 + em
  {
    HourMinuteLess(sh, sm, eh, em);
    TwoDigitShape(sh);
    TwoDigitShape(eh);
  }

  /** What `handleSave` does before the request. */
  datatype SaveStep = NoSession | TimesOutOfOrder | SendUpdate

  /**
   * Without a token or a session id nothing happens; a start that is not before the end is
   * refused; otherwise the update is sent.
   */
  function SaveStepOf(token: Option<string>, trainingId: Option<string>, start: string, end: string): (r: SaveStep)
    ensures r == SendUpdate <==> Truthy(token) && Truthy(trainingId) && StrLess(start, end)
    ensures r == NoSession <==> !Truthy(token) || !Truthy(trainingId)
  {
    if !Truthy(token) || !Truthy(trainingId) then NoSession
    else if !StrLess(start, end) then TimesOutOfOrder
    else SendUpdate
  }

  /** On zero-padded `HH:mm` readings, an end not after the start is never sent. */
  lemma SaveRefusesReversedTimes(token: Option<string>, trainingId: Option<string>,
                                 sh: nat, sm: nat, eh: nat, em: nat)
    requires sh < 100 && sm < 60 && eh < 100 && em < 60
    requires Truthy(token) && Truthy(trainingId)
    ensures SaveStepOf(token, trainingId, HourMinute(sh, sm), HourMinute(eh, em)) == TimesOutOfOrder
            <==> eh * 60 + em <= sh * 60 + sm
  {
    HourMinuteLess(sh, sm, eh, em);
  }

  /** The fetched session (`TrainingDto`). */
  datatype SessionDto = SessionDto(name: string, dayOfWeek: string, timeOfDay: string, endTime: string,
                                   trainerId: string, roomId: string)

  /** The outcome of the three loading requests. */
  datatype LoadResponse = Loaded(session: SessionDto, trainers: seq<Person>, rooms: seq<Room>) | LoadFailed

  /** The outcome of an availability request: the listed ids (possibly absent) or a failure. */
  datatype AvailabilityResponse = Busy(ids: Option<seq<string>>) | CheckFailed

  /** The outcome of the update request. */
  datatype SaveResponse = Saved | SaveRefused(error: Option<string>) | SaveUnreachable

  /** The body of the update request. */
  datatype SessionUpdate = SessionUpdate(name: string, trainerId: string, day: string, start: string, end: string,
                                         roomId: string)

  /** The form's state. */
  class EditTrainingForm {
    const token: Option<string>
    const trainingId: Option<string>
    var name: string
    var trainerId: string
    var dayOfWeek: string
    var timeOfDay: string
    var endTime: string
    var roomId: string
    var message: string
    var trainers: seq<Person>
    var rooms: seq<Room>
    var busyTrainers: seq<string>
    var busyRooms: seq<string>

    constructor(token: Option<string>, trainingId: Option<string>)
      ensures this.token == token && this.trainingId == trainingId
      ensures name == "" && trainerId == "" && dayOfWeek == "" && timeOfDay == "" && endTime == ""
      ensures roomId == "" && message == "" && trainers == [] && rooms == []
      ensures busyTrainers == [] && busyRooms == []
    {
      this.token := token;
      this.trainingId := trainingId;
      name, trainerId, dayOfWeek, timeOfDay, endTime, roomId, message := "", "", "", "", "", "", "";
      trainers, rooms, busyTrainers, busyRooms := [], [], [], [];
    }

    /** The request the availability effects make now, if any. */
    function Query(): Option<AvailabilityQuery>
      reads this
    {
      AvailabilityQueryOf(token, trainingId, dayOfWeek, timeOfDay, endTime)
    }

    /** `isSelectedTrainerBusy`. */
    predicate SelectedTrainerBusy()
      reads this
    {
      trainerId != "" && trainerId in busyTrainers
    }

    /** `isSelectedRoomBusy`: shown as a warning only. */
    predicate SelectedRoomBusy()
      reads this
    {
      roomId != "" && roomId in busyRooms
    }

    /** The submit button is disabled exactly when the selected trainer is busy. */
    predicate SubmitDisabled()
      reads this
    {
      SelectedTrainerBusy()
    }

    /**
     * The loading effect: nothing without a token or a session id; on failure only the message
     * changes; otherwise the lists and the form fields take the fetched values.
     */
    method Load(response: LoadResponse)
      modifies this
      ensures !Truthy(token) || !Truthy(trainingId) ==> unchanged(this)
      ensures Truthy(token) && Truthy(trainingId) && response == LoadFailed ==>
                message == LoadError && name == old(name) && trainerId == old(trainerId)
                && dayOfWeek == old(dayOfWeek) && timeOfDay == old(timeOfDay) && endTime == old(endTime)
                && roomId == old(roomId) && trainers == old(trainers) && rooms == old(rooms)
      ensures Truthy(token) && Truthy(trainingId) && response.Loaded? ==>
                var s := response.session;
                name == s.name && trainerId == s.trainerId && dayOfWeek == s.dayOfWeek
                && timeOfDay == s.timeOfDay && endTime == s.endTime && roomId == s.roomId
                && trainers == response.trainers && rooms == response.rooms && message == old(message)
      ensures busyTrainers == old(busyTrainers) && busyRooms == old(busyRooms)
    {
      if !Truthy(token) || !Truthy(trainingId) {
        return;
      }
      match response {
        case LoadFailed =>
          message := LoadError;
        case Loaded(s, ts, rs) =>
          trainers, rooms := ts, rs;
          name, trainerId, dayOfWeek := s.name, s.trainerId, s.dayOfWeek;
          timeOfDay, endTime, roomId := s.timeOfDay, s.endTime, s.roomId;
      }
    }

    /**
     * The trainer availability effect: with no request nothing changes; the answer's ids (or
     * none) become the busy trainers; a failure only sets the message.
     */
    method CheckTrainers(response: AvailabilityResponse) returns (sent: Option<AvailabilityQuery>)
      modifies this
      ensures sent == old(Query())
      ensures sent.None? ==> unchanged(this)
      ensures sent.Some? && response.Busy? ==>
                busyTrainers == response.ids.GetOr([]) && message == old(message)
      ensures sent.Some? && response == CheckFailed ==> busyTrainers == old(busyTrainers) && message == TrainerCheckError
      ensures trainerId == old(trainerId) && roomId == old(roomId) && busyRooms == old(busyRooms)
      ensures name == old(name) && dayOfWeek == old(dayOfWeek) && timeOfDay == old(timeOfDay) && endTime == old(endTime)
      ensures trainers == old(trainers) && rooms == old(rooms)
    {
      sent := Query();
      if sent.None? {
        return;
      }
      match response {
        case Busy(ids) =>
          busyTrainers := ids.GetOr([]);
        case CheckFailed =>
          message := TrainerCheckError;
      }
    }

    /**
     * The room availability effect: the same request; the answer's ids become the busy rooms
     * and a failure is ignored. The submit rule does not change.
     */
    method CheckRooms(response: AvailabilityResponse) returns (sent: Option<AvailabilityQuery>)
      modifies this
      ensures sent == old(Query())
      ensures sent.Some? && response.Busy? ==> busyRooms == response.ids.GetOr([])
      ensures sent.None? || response == CheckFailed ==> unchanged(this)
      ensures SubmitDisabled() == old(SubmitDisabled())
      ensures trainerId == old(trainerId) && busyTrainers == old(busyTrainers) && message == old(message)
      ensures roomId == old(roomId) && name == old(name) && dayOfWeek == old(dayOfWeek)
      ensures timeOfDay == old(timeOfDay) && endTime == old(endTime)
      ensures trainers == old(trainers) && rooms == old(rooms)
    {
      sent := Query();
      if sent.Some? && response.Busy? {
        busyRooms := response.ids.GetOr([]);
      }
    }

    /**
     * The clearing effect: a selected trainer who is busy is deselected with a message, after
     * which submitting is enabled again.
     */
    method ClearBusyTrainer()
      modifies this
      ensures old(SelectedTrainerBusy()) ==> trainerId == "" && message == TrainerBusyMessage
      ensures !old(SelectedTrainerBusy()) ==> unchanged(this)
      ensures !SelectedTrainerBusy() && !SubmitDisabled()
      ensures busyTrainers == old(busyTrainers) && busyRooms == old(busyRooms) && roomId == old(roomId)
      ensures name == old(name) && dayOfWeek == old(dayOfWeek) && timeOfDay == old(timeOfDay) && endTime == old(endTime)
      ensures trainers == old(trainers) && rooms == old(rooms)
    {
      if trainerId != "" && trainerId in busyTrainers {
        message := TrainerBusyMessage;
        trainerId := "";
      }
    }

    /**
     * A new trainer availability answer followed by the clearing effect: whatever the answer,
     * the form never keeps a busy trainer selected.
     */
    method RefreshTrainers(response: AvailabilityResponse) returns (sent: Option<AvailabilityQuery>)
      modifies this
      ensures sent == old(Query())
      ensures !SelectedTrainerBusy() && !SubmitDisabled()
      ensures sent.Some? && response.Busy? ==> busyTrainers == response.ids.GetOr([])
      ensures sent.None? || response == CheckFailed ==> busyTrainers == old(busyTrainers)
      ensures trainerId != old(trainerId) ==> trainerId == "" && message == TrainerBusyMessage
      ensures trainerId == old(trainerId) ==>
                message == (if sent.Some? && response == CheckFailed then TrainerCheckError else old(message))
      ensures busyRooms == old(busyRooms) && roomId == old(roomId) && name == old(name)
      ensures dayOfWeek == old(dayOfWeek) && timeOfDay == old(timeOfDay) && endTime == old(endTime)
      ensures trainers == old(trainers) && rooms == old(rooms)
    {
      sent := CheckTrainers(response);
      ClearBusyTrainer();
    }

    /**
     * `handleSave`: the message is cleared; without a token or session id nothing is sent;
     * an end not after the start sets the message and sends nothing; otherwise the form is
     * sent, and the answer either navigates back to the list or sets the message.
     */
    method HandleSave(response: SaveResponse) returns (sent: Option<SessionUpdate>, navigate: bool)
      modifies this
      ensures var step := SaveStepOf(token, trainingId, old(timeOfDay), old(endTime));
              (step == NoSession ==> sent.None? && !navigate && message == "")
              && (step == TimesOutOfOrder ==> sent.None? && !navigate && message == TimesOrderMessage)
              && (step == SendUpdate ==> sent.Some?)
      ensures sent.Some? ==>
                sent.value == SessionUpdate(name, trainerId, dayOfWeek, timeOfDay, endTime, roomId)
      ensures sent.Some? && response == Saved ==> navigate && message == ""
      ensures sent.Some? && response.SaveRefused? ==>
                !navigate && message == (if Truthy(response.error) then response.error.value else SaveError)
      ensures sent.Some? && response == SaveUnreachable ==> !navigate && message == ServerError
      ensures name == old(name) && trainerId == old(trainerId) && dayOfWeek == old(dayOfWeek)
      ensures timeOfDay == old(timeOfDay) && endTime == old(endTime) && roomId == old(roomId)
      ensures busyTrainers == old(busyTrainers) && busyRooms == old(busyRooms)
      ensures trainers == old(trainers) && rooms == old(rooms)
    {
      message := "";
      sent, navigate := None, false;
      var step := SaveStepOf(token, trainingId, timeOfDay, endTime);
      if step == NoSession {
        return;
      }
      if step == TimesOutOfOrder {
        message := TimesOrderMessage;
        return;
      }
      sent := Some(SessionUpdate(name, trainerId, dayOfWeek, timeOfDay, endTime, roomId));
      match response {
        case Saved =>
          navigate := true;
        case SaveRefused(error) =>
          message := if Truthy(error) then error.value else SaveError;
        case SaveUnreachable =>
          message := ServerError;
      }
    }
  }
}
