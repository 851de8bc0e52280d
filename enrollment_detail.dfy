/** The Focus One enrolment detail page (src/pages/FocusOneEnrollmentDetail.jsx):
    the loaded assignment list and dates, editable and saved back, and the
    pause/resume controls of the student's Focus One record. */
module EnrollmentDetail {
  import opened Wrappers
  import opened Seqs
  import opened Text
  import opened Feedback
  import opened TeacherSubject

  /** A teacher or subject reference as the API returns it: a populated
      object (`_id` is `None` when absent) or a bare id. */
  datatype Ref = Object(objectId: Option<string>) | Raw(id: string)

  /** `(ref._id || ref).toString()`. An object without an id becomes the
      text every plain object converts to. */
  function RefId(r: Ref): (id: string)
    ensures r.Raw? ==> id == r.id
    ensures r.Object? && r.objectId.Some? && r.objectId.value != [] ==> id == r.objectId.value
    ensures r.Object? && (r.objectId.None? || r.objectId.value == []) ==> id == "[object Object]"
  {
    match r
    case Raw(id) => id
    case Object(objectId) => OrElse(objectId, "[object Object]")
  }

  datatype RawMapping = RawMapping(teacher: Ref, subject: Ref)

  /** The normalisation applied to loaded pairs: both sides become ids. */
  function Normalise(raw: seq<RawMapping>): (ms: seq<Mapping>)
    ensures |ms| == |raw|
    ensures forall i :: 0 <= i < |raw| ==> ms[i] == Mapping(RefId(raw[i].teacher), RefId(raw[i].subject))
  {
    seq(|raw|, i requires 0 <= i < |raw| => Mapping(RefId(raw[i].teacher), RefId(raw[i].subject)))
  }

  /** A populated reference and the bare id it carries normalise alike, so
      a list saved as ids and loaded back populated reads the same. */
  lemma NormaliseForgetsPopulation(ms: seq<Mapping>)
    requires forall i :: 0 <= i < |ms| ==> ms[i].teacher != [] && ms[i].subject != []
    ensures Normalise(seq(|ms|, i requires 0 <= i < |ms| => RawMapping(Object(Some(ms[i].teacher)), Object(Some(ms[i].subject))))) == ms
    ensures Normalise(seq(|ms|, i requires 0 <= i < |ms| => RawMapping(Raw(ms[i].teacher), Raw(ms[i].subject)))) == ms
  {
  }

  /** A stored date as the form shows it: the part of its ISO-8601 text
      before the first `T`, or empty when there is no date. `iso` is the
      date's `toISOString()`. */
  function DatePart(iso: Option<string>): (d: string)
    ensures iso.None? ==> d == []
    ensures iso.Some? ==> d <= iso.value && 'T' !in d
    ensures iso.Some? && d != iso.value ==> iso.value[|d|] == 'T'
  {
    if iso.None? then [] else
      var pieces := Split(iso.value, 'T');
      FirstPieceIsPrefix(iso.value, 'T');
      pieces[0]
  }

  lemma {:induction false} FirstPieceIsPrefix(s: string, sep: char)
    ensures Split(s, sep)[0] <= s
    ensures Split(s, sep)[0] != s ==> s[|Split(s, sep)[0]|] == sep
  {
    if s != [] {
      FirstPieceIsPrefix(s[1..], sep);
    }
  }

  /** For `yyyy-MM-ddTHH:mm:ss.sssZ` text the form shows `yyyy-MM-dd`. */
  lemma DatePartOfTimestamp(day: string, time: string)
    requires 'T' !in day
    ensures DatePart(Some(day + "T" + time)) == day
  {
    SplitAfterPiece(day, 'T', time);
  }

  /** What the API returns for the enrolment; `None` stands for a missing
      field. */
  datatype Enrollment = Enrollment(mappings: Option<seq<RawMapping>>, startedAt: Option<string>, endedAt: Option<string>)

  /** The student's Focus One record: its id (`""` when missing) and status
      (`None` when missing). */
  datatype FocusOne = FocusOne(id: string, status: Option<string>)

  datatype DetailField = StartedAt | EndedAt

  datatype UpdateRequest = UpdateRequest(mappings: seq<Mapping>, startedAt: Option<string>, endedAt: Option<string>)

  datatype PauseRequest = PauseRequest(focusOneId: string, reason: Option<string>, notes: Option<string>)

  /** What a save, pause or resume did: whether a request went out, the toast,
      and whether the enrolment is fetched again. */
  datatype Outcome<R> = Outcome(request: Option<R>, toast: Toast, refetches: bool)

  const NotLoaded: string := "FocusOne not loaded"
  const UpdatedText: string := "Enrollment updated successfully"
  const UpdateFailed: string := "Failed to update enrollment"
  const PausedText: string := "Focus One paused successfully"
  const PauseFailed: string := "Failed to pause Focus One"
  const ResumedText: string := "Focus One resumed successfully"
  const ResumeFailed: string := "Failed to resume Focus One"

  /** `value || undefined`: an empty field is not sent. */
  function Optional(value: string): (r: Option<string>)
    ensures r.None? <==> value == []
    ensures r.Some? ==> r.value == value
  {
    if value == [] then None else Some(value)
  }

  class Detail {
    var mappings: seq<Mapping>
    var startedAt: string
    var endedAt: string
    var pauseReason: string
    var pauseNotes: string
    var focusOne: Option<FocusOne>

    constructor()
      ensures mappings == [] && startedAt == [] && endedAt == []
      ensures pauseReason == [] && pauseNotes == [] && focusOne.None?
    {
      mappings := [];
      startedAt := [];
      endedAt := [];
      pauseReason := [];
      pauseNotes := [];
      focusOne := None;
    }

    /** `fetchEnrollment` with an enrolment present: the pairs normalised to
        ids, the dates cut to their day part (`e.startedAt`/`e.endedAt` are
        the ISO texts of the stored dates); `fetched` is the Focus One record
        when its lookup succeeded. */
    method Load(e: Enrollment, fetched: Option<FocusOne>)
      modifies this
      ensures mappings == Normalise(if e.mappings.Some? then e.mappings.value else [])
      ensures startedAt == DatePart(e.startedAt) && endedAt == DatePart(e.endedAt)
      ensures focusOne == (if fetched.Some? then fetched else old(focusOne))
      ensures pauseReason == old(pauseReason) && pauseNotes == old(pauseNotes)
    {
      mappings := Normalise(if e.mappings.Some? then e.mappings.value else []);
      startedAt := DatePart(e.startedAt);
      endedAt := DatePart(e.endedAt);
      if fetched.Some? {
        focusOne := fetched;
      }
    }

    /** `addMapping` here has no chosen-subject check: only `WithMapping`. */
    method AddMapping(subject: string, teacher: string)
      modifies this
      ensures mappings == WithMapping(old(mappings), subject, teacher)
      ensures NoDuplicates(old(mappings)) ==> NoDuplicates(mappings)
      ensures startedAt == old(startedAt) && endedAt == old(endedAt) && focusOne == old(focusOne)
      ensures pauseReason == old(pauseReason) && pauseNotes == old(pauseNotes)
    {
      if subject == [] || teacher == [] {
        return;
      }
      mappings := WithMapping(mappings, subject, teacher);
    }

    method RemoveMapping(index: int)
      modifies this
      ensures mappings == RemoveAt(old(mappings), index)
      ensures NoDuplicates(old(mappings)) ==> NoDuplicates(mappings)
      ensures startedAt == old(startedAt) && endedAt == old(endedAt) && focusOne == old(focusOne)
      ensures pauseReason == old(pauseReason) && pauseNotes == old(pauseNotes)
    {
      RemovePreservesPairs(mappings, index);
      mappings := RemoveAt(mappings, index);
    }

    method ChangeField(field: DetailField, value: string)
      modifies this
      ensures startedAt == (if field == StartedAt then value else old(startedAt))
      ensures endedAt == (if field == EndedAt then value else old(endedAt))
      ensures mappings == old(mappings) && focusOne == old(focusOne)
      ensures pauseReason == old(pauseReason) && pauseNotes == old(pauseNotes)
    {
      match field
      case StartedAt => startedAt := value;
      case EndedAt => endedAt := value;
    }

    method SetPauseText(reason: string, notes: string)
      modifies this
      ensures pauseReason == reason && pauseNotes == notes
      ensures mappings == old(mappings) && startedAt == old(startedAt) && endedAt == old(endedAt) && focusOne == old(focusOne)
    {
      pauseReason := reason;
      pauseNotes := notes;
    }

    /** `handleSubmit`: always sends the list as it stands; empty dates are
        left out. */
    method Submit(failure: Option<ApiError>) returns (o: Outcome<UpdateRequest>)
      ensures o.request == Some(UpdateRequest(mappings, Optional(startedAt), Optional(endedAt)))
      ensures o.refetches <==> failure.None?
      ensures o.toast == if failure.None? then Success(UpdatedText) else Failure(MessageOr(failure.value, UpdateFailed))
    {
      var request := UpdateRequest(mappings, Optional(startedAt), Optional(endedAt));
      if failure.None? {
        o := Outcome(Some(request), Success(UpdatedText), true);
      } else {
        o := Outcome(Some(request), Failure(MessageOr(failure.value, UpdateFailed)), false);
      }
    }

    /** Whether a Focus One record with an id is loaded. */
    predicate Loaded()
      reads this
    {
      focusOne.Some? && focusOne.value.id != []
    }

    /** `handlePause`: no request without a loaded record; a successful
        pause clears the reason and notes, a failed one keeps them. */
    method Pause(failure: Option<ApiError>) returns (o: Outcome<PauseRequest>)
      modifies this
      ensures !Loaded() ==> o == Outcome(None, Failure(NotLoaded), false)
      ensures Loaded() ==> o.request == Some(PauseRequest(focusOne.value.id, Optional(old(pauseReason)), Optional(old(pauseNotes))))
      ensures Loaded() ==> (o.refetches <==> failure.None?)
      ensures Loaded() ==> o.toast == if failure.None? then Success(PausedText) else Failure(MessageOr(failure.value, PauseFailed))
      ensures pauseReason == (if Loaded() && failure.None? then [] else old(pauseReason))
      ensures pauseNotes == (if Loaded() && failure.None? then [] else old(pauseNotes))
      ensures mappings == old(mappings) && startedAt == old(startedAt) && endedAt == old(endedAt) && focusOne == old(focusOne)
    {
      if focusOne.None? || focusOne.value.id == [] {
        return Outcome(None, Failure(NotLoaded), false);
      }
      var request := PauseRequest(focusOne.value.id, Optional(pauseReason), Optional(pauseNotes));
      if failure.None? {
        pauseReason := [];
        pauseNotes := [];
        o := Outcome(Some(request), Success(PausedText), true);
      } else {
        o := Outcome(Some(request), Failure(MessageOr(failure.value, PauseFailed)), false);
      }
    }

    /** `handleResume`: the resume request carries only the record's id. */
    method Resume(failure: Option<ApiError>) returns (o: Outcome<string>)
      ensures !Loaded() ==> o == Outcome(None, Failure(NotLoaded), false)
      ensures Loaded() ==> o.request == Some(focusOne.value.id) && (o.refetches <==> failure.None?)
      ensures Loaded() ==> o.toast == if failure.None? then Success(ResumedText) else Failure(MessageOr(failure.value, ResumeFailed))
    {
      if focusOne.None? || focusOne.value.id == [] {
        return Outcome(None, Failure(NotLoaded), false);
      }
      if failure.None? {
        o := Outcome(Some(focusOne.value.id), Success(ResumedText), true);
      } else {
        o := Outcome(Some(focusOne.value.id), Failure(MessageOr(failure.value, ResumeFailed)), false);
      }
    }

    /** `focusOne?.status || 'active'`. */
    function Status(): (s: string)
      reads this
      ensures s != []
      ensures focusOne.None? || focusOne.value.status.None? || focusOne.value.status.value == [] ==> s == "active"
      ensures focusOne.Some? && focusOne.value.status.Some? && focusOne.value.status.value != [] ==> s == focusOne.value.status.value
    {
      OrElse(if focusOne.Some? then focusOne.value.status else None, "active")
    }

    function ShowPause(): bool
      reads this
    {
      Status() == "active"
    }

    function ShowResume(): bool
      reads this
    {
      Status() == "paused"
    }

    /** At most one of Pause and Resume is offered; before the record loads
        the page offers Pause. */
    lemma ControlsExclusive()
      ensures !(ShowPause() && ShowResume())
      ensures focusOne.None? ==> ShowPause()
      ensures ShowResume() <==> focusOne.Some? && focusOne.value.status == Some("paused")
    {
    }
  }
}
