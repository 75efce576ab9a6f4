/** The mark-attendance form: its state, the record it submits, and the
    status message it shows once the save returns. */
module MarkAttendance {
  import opened Types
  import opened AttendanceService

  /** The hours slider's bounds and its starting value. */
  const MinHours := 1
  const MaxHours := 24
  const InitialHours := 8

  const SuccessText := "Success! Synced to Sheet."
  const FallbackErrorText := "Sync failed, saved locally."

  datatype MessageKind = SuccessMessage | ErrorMessage
  datatype StatusMessage = StatusMessage(kind: MessageKind, text: string)

  /** The record sent to the store: the visit fields are blanked unless the
      status is Working; the hours are always sent. */
  function SubmittedDraft(date: string, status: Status, place: string, purpose: string, hours: int): (d: Draft)
    ensures d.date == date && d.status == status && d.hoursWorked == Some(hours)
    ensures status == Working ==> d.placeVisit == Some(place) && d.purposeVisit == Some(purpose)
    ensures status != Working ==> d.placeVisit == Some("") && d.purposeVisit == Some("")
  {
    var working := status == Working;
    Draft(date, status,
          Some(if working then place else ""),
          Some(if working then purpose else ""),
          Some(hours))
  }

  /** The browser's gate in front of the submit handler: while the status is
      Working the place and purpose inputs are shown and marked `required`, so
      the form is not submitted while either is empty. */
  predicate RequiredFilled(status: Status, place: string, purpose: string)
  {
    status == Working ==> place != "" && purpose != ""
  }

  /** A record that passes the gate carries a non-empty place and purpose
      exactly when it is a working day; otherwise both are blank. */
  lemma GatedDraftVisit(date: string, status: Status, place: string, purpose: string, hours: int)
    requires RequiredFilled(status, place, purpose)
    ensures var d := SubmittedDraft(date, status, place, purpose, hours);
            (d.placeVisit != Some("") && d.purposeVisit != Some("")) <==> status == Working
  {
  }

  /** The message for a save result: the success text on success, otherwise
      the reported error, or the fallback text when there is none. */
  function MessageFor(result: SyncResult): (m: StatusMessage)
    ensures m.kind == SuccessMessage <==> result.success
    ensures result.success ==> m.text == SuccessText
    ensures !result.success && result.error.Some? && result.error.value != "" ==> m.text == result.error.value
    ensures !result.success && (result.error.None? || result.error.value == "") ==> m.text == FallbackErrorText
  {
    if result.success then StatusMessage(SuccessMessage, SuccessText)
    else
      match result.error
      case Some(err) => StatusMessage(ErrorMessage, if err != "" then err else FallbackErrorText)
      case None => StatusMessage(ErrorMessage, FallbackErrorText)
  }

  /** The store's results never need the fallback: a failed save always
      carries the connection-error text. */
  lemma SaveMessages(configured: bool, send: SendOutcome)
    ensures var m := MessageFor(SyncOutcome(configured, send));
            && (m.kind == SuccessMessage <==> !(configured && send == Threw))
            && m.text == (if configured && send == Threw then ConnectionErrorText else SuccessText)
  {
  }

  class MarkAttendanceForm {
    var selectedDate: Option<string>
    var isSubmitting: bool
    var statusMessage: Option<StatusMessage>
    var status: Status
    var place: string
    var purpose: string
    var hours: int

    /** The hours come from a slider bounded by 1..24; a selected day is a
        yyyy-MM-dd key. */
    ghost predicate Valid()
      reads this
    {
      && MinHours <= hours <= MaxHours
      && (selectedDate.Some? ==> IsIsoDate(selectedDate.value))
    }

    constructor ()
      ensures Valid()
      ensures selectedDate == None && !isSubmitting && statusMessage == None
      ensures status == Working && place == "" && purpose == "" && hours == InitialHours
    {
      selectedDate := None;
      isSubmitting := false;
      statusMessage := None;
      status := Working;
      place := "";
      purpose := "";
      hours := InitialHours;
    }

    /** Clicking a calendar day. */
    method SelectDate(day: string)
      requires Valid() && IsIsoDate(day)
      modifies this
      ensures Valid() && selectedDate == Some(day)
      ensures isSubmitting == old(isSubmitting) && statusMessage == old(statusMessage)
      ensures status == old(status) && place == old(place) && purpose == old(purpose) && hours == old(hours)
    {
      selectedDate := Some(day);
    }

    /** Moving the hours slider. */
    method SetHours(h: int)
      requires Valid() && MinHours <= h <= MaxHours
      modifies this
      ensures Valid() && hours == h
      ensures selectedDate == old(selectedDate) && isSubmitting == old(isSubmitting)
      ensures statusMessage == old(statusMessage)
      ensures status == old(status) && place == old(place) && purpose == old(purpose)
    {
      hours := h;
    }

    /** Picking Work, Leave or Holiday. */
    method SetStatus(s: Status)
      requires Valid()
      modifies this
      ensures Valid() && status == s
      ensures selectedDate == old(selectedDate) && isSubmitting == old(isSubmitting)
      ensures statusMessage == old(statusMessage)
      ensures place == old(place) && purpose == old(purpose) && hours == old(hours)
    {
      status := s;
    }

    /** Typing into the place and purpose inputs. */
    method SetVisit(newPlace: string, newPurpose: string)
      requires Valid()
      modifies this
      ensures Valid() && place == newPlace && purpose == newPurpose
      ensures selectedDate == old(selectedDate) && isSubmitting == old(isSubmitting)
      ensures statusMessage == old(statusMessage)
      ensures status == old(status) && hours == old(hours)
    {
      place := newPlace;
      purpose := newPurpose;
    }

    /** The part of the submit handler before the save is awaited. With no
        day selected nothing happens; otherwise the form is marked as
        submitting, the message is cleared and the record to save is built. */
    method BeginSubmit() returns (draft: Option<Draft>)
      requires Valid()
      modifies this
      ensures Valid()
      ensures old(selectedDate).None? ==> draft.None? && isSubmitting == old(isSubmitting) && statusMessage == old(statusMessage)
      ensures old(selectedDate).Some? ==>
        && draft == Some(SubmittedDraft(old(selectedDate).value, status, place, purpose, hours))
        && isSubmitting && statusMessage.None?
      ensures draft.Some? ==> IsIsoDate(draft.value.date)
                              && MinHours <= HoursOrZero(draft.value.hoursWorked) <= MaxHours
      ensures selectedDate == old(selectedDate)
      ensures status == old(status) && place == old(place) && purpose == old(purpose) && hours == old(hours)
    {
      match selectedDate
      case None =>
        draft := None;
      case Some(day) =>
        isSubmitting := true;
        statusMessage := None;
        draft := Some(SubmittedDraft(day, status, place, purpose, hours));
    }

    /** The part of the submit handler after the save returns. */
    method FinishSubmit(result: SyncResult)
      requires Valid()
      modifies this
      ensures Valid() && !isSubmitting && statusMessage == Some(MessageFor(result))
      ensures selectedDate == old(selectedDate)
      ensures status == old(status) && place == old(place) && purpose == old(purpose) && hours == old(hours)
    {
      isSubmitting := false;
      statusMessage := Some(MessageFor(result));
    }

    /** The submit handler: with no day selected it neither saves nor changes
        anything; otherwise it saves the built record and shows the message
        for the result. `freshId` and `send` stand for the store's random id
        and the outcome of its post. */
    method HandleSubmit(store: AttendanceStore, freshId: string, send: SendOutcome) returns (result: Option<SyncResult>)
      requires Valid()
      modifies this, store
      ensures Valid()
      ensures old(selectedDate).None? ==>
        && result.None?
        && isSubmitting == old(isSubmitting) && statusMessage == old(statusMessage)
        && store.slot == old(store.slot) && store.effects == old(store.effects)
      ensures old(selectedDate).Some? ==>
        var draft := SubmittedDraft(old(selectedDate).value, status, place, purpose, hours);
        && result == Some(SyncOutcome(store.webAppUrl != "", send))
        && store.slot == Some(Upsert(old(store.GetAttendance()), WithId(draft, freshId)))
        && store.effects == old(store.effects) + [StorageWrite(StorageKey, store.slot.value)]
             + (if store.webAppUrl != "" then [RemotePost(store.webAppUrl, WithId(draft, freshId))] else [])
        && !isSubmitting && statusMessage == Some(MessageFor(result.value))
      ensures selectedDate == old(selectedDate)
      ensures status == old(status) && place == old(place) && purpose == old(purpose) && hours == old(hours)
    {
      var draft := BeginSubmit();
      if draft.None? {
        return None;
      }
      var r := store.SaveAttendance(draft.value, freshId, send);
      FinishSubmit(r);
      result := Some(r);
    }
  }
}
