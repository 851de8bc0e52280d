/** The public-holiday editor (src/components/calendar/PublicHolidayDialog.jsx):
    a create/edit form whose fields are set from the clicked day or the
    holiday being edited, and whose submit and delete handlers validate,
    send one request and report the result. */
module HolidayDialog {
  import opened Wrappers
  import opened Text
  import opened LocalTime
  import opened Schedule
  import opened Feedback

  /** The body of a create or update request; `date` is the day key the
      form's `yyyy-MM-dd` date denotes. */
  datatype HolidayPayload = HolidayPayload(name: string, date: int, description: Option<string>, isActive: bool)

  datatype HolidayRequest =
    | Create(payload: HolidayPayload)
    | Update(id: string, payload: HolidayPayload)
    | Remove(id: string)

  /** What one run of a handler did: the request sent, the toast raised and
      whether the dialog was closed (`onClose`). */
  datatype Outcome = Outcome(request: Option<HolidayRequest>, toast: Option<Toast>, closes: bool)

  const NameRequired: string := "Holiday name is required"
  const DateRequired: string := "Date is required"
  const Updated: string := "Public holiday updated successfully"
  const Created: string := "Public holiday created successfully"
  const SaveFailed: string := "Failed to save public holiday"
  const Deleted: string := "Public holiday deleted successfully"
  const DeleteFailed: string := "Failed to delete public holiday"

  /** The body the form sends: the name trimmed, the description trimmed or
      `null` when blank. */
  function PayloadOf(name: string, date: int, description: string, isActive: bool): (p: HolidayPayload)
    ensures p.name == Trim(name) && Trim(p.name) == p.name
    ensures p.name != [] <==> !IsBlank(name)
    ensures p.description.None? <==> IsBlank(description)
    ensures p.description.Some? ==> p.description.value == Trim(description)
    ensures p.date == date && p.isActive == isActive
  {
    var trimmedName := Trim(name);
    TrimOfTrimmed(trimmedName);
    var trimmedDescription := Trim(description);
    HolidayPayload(trimmedName, date, if trimmedDescription == [] then None else Some(trimmedDescription), isActive)
  }

  class HolidayEditor {
    /** The holiday being edited, or `None` in create mode. */
    const holiday: Option<Holiday>
    var name: string
    /** The date field: a day key, or `None` while the field is empty. */
    var selectedDate: Option<int>
    var description: string
    var isActive: bool

    /** In edit mode the date field always shows the holiday's own day. */
    ghost predicate Valid()
      reads this
    {
      holiday.Some? ==> selectedDate == Some(HolidayDay(holiday.value))
    }

    /** The date input is disabled while editing an existing holiday. */
    predicate DateLocked() {
      holiday.Some?
    }

    /** The dialog opened for `holiday` (edit mode) or for the clicked
        `date` (create mode), after its initialisation effect has run. */
    constructor(holiday: Option<Holiday>, date: Option<Instant>)
      ensures this.holiday == holiday && Valid()
      ensures holiday.Some? ==> var h := holiday.value;
        && name == h.name
        && selectedDate == Some(HolidayDay(h))
        && description == OrElse(h.description, "")
        && isActive == (if h.isActive.Some? then h.isActive.value else true)
      ensures holiday.None? ==>
        && name == [] && description == [] && isActive
        && selectedDate == (if date.Some? then Some(DayKey(date.value)) else None)
    {
      this.holiday := holiday;
      if holiday.Some? {
        var h := holiday.value;
        name := h.name;
        selectedDate := Some(HolidayDay(h));
        description := OrElse(h.description, "");
        isActive := if h.isActive.Some? then h.isActive.value else true;
      } else {
        name := [];
        selectedDate := if date.Some? then Some(DayKey(date.value)) else None;
        description := [];
        isActive := true;
      }
    }

    method EditName(value: string)
      modifies this
      requires Valid()
      ensures Valid()
      ensures name == value
      ensures selectedDate == old(selectedDate) && description == old(description) && isActive == old(isActive)
    {
      name := value;
    }

    /** Typing in the date field; ignored while the field is disabled. */
    method EditDate(value: Option<int>)
      modifies this
      requires Valid()
      ensures Valid()
      ensures selectedDate == if DateLocked() then old(selectedDate) else value
      ensures name == old(name) && description == old(description) && isActive == old(isActive)
    {
      if !DateLocked() {
        selectedDate := value;
      }
    }

    method EditDescription(value: string)
      modifies this
      requires Valid()
      ensures Valid()
      ensures description == value
      ensures name == old(name) && selectedDate == old(selectedDate) && isActive == old(isActive)
    {
      description := value;
    }

    method SetActive(value: bool)
      modifies this
      requires Valid()
      ensures Valid()
      ensures isActive == value
      ensures name == old(name) && selectedDate == old(selectedDate) && description == old(description)
    {
      isActive := value;
    }

    /** `handleSubmit`. `failure` is the error of the create/update request,
        `None` when it succeeds. The name is checked before the date; a valid
        form sends one request whose name is trimmed and whose description is
        trimmed, or null when blank. */
    method Submit(failure: Option<ApiError>) returns (o: Outcome)
      ensures IsBlank(name) ==> o == Outcome(None, Some(Failure(NameRequired)), false)
      ensures !IsBlank(name) && selectedDate.None? ==> o == Outcome(None, Some(Failure(DateRequired)), false)
      ensures o.request.Some? <==> !IsBlank(name) && selectedDate.Some?
      ensures o.request.Some? ==> !o.request.value.Remove? && (o.request.value.Update? <==> holiday.Some?)
      ensures o.request.Some? && holiday.Some? ==> o.request.value.id == holiday.value.id
      ensures o.request.Some? ==> o.request.value.payload == PayloadOf(name, selectedDate.value, description, isActive)
      ensures Valid() && o.request.Some? && holiday.Some? ==> o.request.value.payload.date == HolidayDay(holiday.value)
      ensures o.closes <==> o.request.Some? && failure.None?
      ensures o.request.Some? && failure.None? ==> o.toast == Some(Success(if holiday.Some? then Updated else Created))
      ensures o.request.Some? && failure.Some? ==> o.toast == Some(Failure(NestedMessageOr(failure.value, SaveFailed)))
    {
      if IsBlank(name) {
        return Outcome(None, Some(Failure(NameRequired)), false);
      }
      if selectedDate.None? {
        return Outcome(None, Some(Failure(DateRequired)), false);
      }
      var payload := PayloadOf(name, selectedDate.value, description, isActive);
      var request := if holiday.Some? then Update(holiday.value.id, payload) else Create(payload);
      if failure.None? {
        o := Outcome(Some(request), Some(Success(if holiday.Some? then Updated else Created)), true);
      } else {
        o := Outcome(Some(request), Some(Failure(NestedMessageOr(failure.value, SaveFailed))), false);
      }
    }

    /** `handleDelete`: nothing at all in create mode or when the user does
        not confirm; otherwise one delete request of the edited holiday. */
    method Delete(confirmed: bool, succeeded: bool) returns (o: Outcome)
      ensures holiday.None? || !confirmed ==> o == Outcome(None, None, false)
      ensures holiday.Some? && confirmed ==>
        && o.request == Some(Remove(holiday.value.id))
        && (o.closes <==> succeeded)
        && o.toast == Some(if succeeded then Success(Deleted) else Failure(DeleteFailed))
    {
      if holiday.None? {
        return Outcome(None, None, false);
      }
      if !confirmed {
        return Outcome(None, None, false);
      }
      var request := Remove(holiday.value.id);
      if succeeded {
        o := Outcome(Some(request), Some(Success(Deleted)), true);
      } else {
        o := Outcome(Some(request), Some(Failure(DeleteFailed)), false);
      }
    }
  }
}
