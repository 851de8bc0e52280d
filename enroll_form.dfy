/** The Focus One enrolment form (src/pages/FocusOneEnrollForm.jsx): the
    subjects a student is enrolled in and, for each, the teachers assigned
    to it; submission checks that every chosen subject has a teacher. */
module EnrollForm {
  import opened Wrappers
  import opened Seqs
  import opened Text
  import opened Feedback
  import opened TeacherSubject

  /** A subject as listed by the API; `name` is `None` when absent. */
  datatype SubjectInfo = SubjectInfo(id: string, name: Option<string>)

  datatype EnrollField = Email | StartedAt

  /** The body of the enrol request; `startedAt` is left out (`None`) when
      the field is empty. */
  datatype EnrollRequest = EnrollRequest(email: string, mappings: seq<Mapping>, startedAt: Option<string>)

  /** What one submit did: the request sent, the toast raised and whether
      the page navigated back to the Focus One list. */
  datatype EnrollOutcome = EnrollOutcome(request: Option<EnrollRequest>, toast: Toast, navigates: bool)

  const SelectSubject: string := "Please select at least one subject"
  const AssignTeacherTo: string := "Please assign at least one teacher to "
  const Enrolled: string := "Student enrolled successfully! Password setup email has been sent."
  const EnrollFailed: string := "Failed to enroll student"

  function Other(id: string): string -> bool {
    (x: string) => x != id
  }

  function SubjectIn(ids: seq<string>): Mapping -> bool {
    (m: Mapping) => m.subject in ids
  }

  /** `subjects.find(s => s._id === id)`. */
  function FindSubject(subjects: seq<SubjectInfo>, id: string): (r: Option<SubjectInfo>)
    ensures r.None? <==> forall i :: 0 <= i < |subjects| ==> subjects[i].id != id
    ensures r.Some? ==> r.value in subjects && r.value.id == id
    ensures r.Some? ==> exists i :: 0 <= i < |subjects| && subjects[i] == r.value
                          && forall j :: 0 <= j < i ==> subjects[j].id != id
  {
    if subjects == [] then None
    else if subjects[0].id == id then Some(subjects[0])
    else
      var r := FindSubject(subjects[1..], id);
      assert forall i :: 1 <= i < |subjects| ==> subjects[i] == subjects[1..][i - 1];
      r
  }

  /** `subject?.name || 'selected subject'`. */
  function SubjectLabel(subjects: seq<SubjectInfo>, id: string): (text: string)
    ensures text != []
    ensures var found := FindSubject(subjects, id);
      found.Some? && found.value.name.Some? && found.value.name.value != [] ==> text == found.value.name.value
    ensures var found := FindSubject(subjects, id);
      found.None? || found.value.name.None? || found.value.name.value == [] ==> text == "selected subject"
  {
    var found := FindSubject(subjects, id);
    OrElse(if found.Some? then found.value.name else None, "selected subject")
  }

  /** The `for` loop of `handleSubmit`: the first selected subject that no
      pair assigns a teacher to, if any. */
  method FirstUnassigned(selected: seq<string>, mappings: seq<Mapping>) returns (r: Option<string>)
    ensures r.None? <==> forall i :: 0 <= i < |selected| ==> MappingsForSubject(mappings, selected[i]) != []
    ensures r.Some? ==> exists i :: 0 <= i < |selected| && selected[i] == r.value && Unassigned(selected, mappings, i)
  {
    var i := 0;
    while i < |selected|
      invariant 0 <= i <= |selected|
      invariant forall j :: 0 <= j < i ==> MappingsForSubject(mappings, selected[j]) != []
    {
      if MappingsForSubject(mappings, selected[i]) == [] {
        assert Unassigned(selected, mappings, i);
        return Some(selected[i]);
      }
      i := i + 1;
    }
    return None;
  }

  /** `selected[i]` has no teacher and is the first selected subject without one. */
  predicate Unassigned(selected: seq<string>, mappings: seq<Mapping>, i: int)
    requires 0 <= i < |selected|
  {
    MappingsForSubject(mappings, selected[i]) == []
    && forall j :: 0 <= j < i ==> MappingsForSubject(mappings, selected[j]) != []
  }

  /** The chosen subjects after a click on `id`: it leaves the list when it
      was in it and is appended otherwise; no other subject changes. */
  function Toggled(ids: seq<string>, id: string): (r: seq<string>)
    ensures id in r <==> id !in ids
    ensures forall x :: x != id ==> (x in r <==> x in ids)
    ensures id !in ids ==> r == ids + [id]
    ensures id in ids ==> IsSubsequence(r, ids)
    ensures id in ids ==> forall x :: multiset(r)[x] == if x == id then 0 else multiset(ids)[x]
    ensures NoDuplicates(ids) ==> NoDuplicates(r)
  {
    if id in ids then
      FilterNoDuplicatesWhen(ids, Other(id));
      Filter(ids, Other(id))
    else
      var r := ids + [id];
      assert forall k :: 0 <= k < |ids| ==> r[k] == ids[k] && r[k] != id;
      r
  }

  lemma FilterNoDuplicatesWhen<T(!new)>(s: seq<T>, p: T -> bool)
    ensures NoDuplicates(s) ==> NoDuplicates(Filter(s, p))
  {
    if NoDuplicates(s) {
      FilterNoDuplicates(s, p);
    }
  }

  /** The pairs kept after a toggle: those whose subject is still chosen,
      in order. */
  function Pruned(mappings: seq<Mapping>, ids: seq<string>): (r: seq<Mapping>)
    ensures forall m :: m in r <==> m in mappings && m.subject in ids
    ensures forall m :: multiset(r)[m] == if m.subject in ids then multiset(mappings)[m] else 0
    ensures IsSubsequence(r, mappings)
    ensures NoDuplicates(mappings) ==> NoDuplicates(r)
  {
    FilterNoDuplicatesWhen(mappings, SubjectIn(ids));
    Filter(mappings, SubjectIn(ids))
  }

  /** After pruning, a subject that is not chosen has no pairs. */
  lemma PrunedLeavesNone(mappings: seq<Mapping>, ids: seq<string>, id: string)
    ensures id !in ids ==> MappingsForSubject(Pruned(mappings, ids), id) == []
  {
    if id !in ids {
      FilterNone(Pruned(mappings, ids), OfSubject(id));
    }
  }

  class Form {
    var email: string
    var selectedSubjectIds: seq<string>
    var mappings: seq<Mapping>
    var startedAt: string

    /** No subject is chosen twice, no pair is listed twice, and every pair
        belongs to a chosen subject. */
    ghost predicate Valid()
      reads this
    {
      NoDuplicates(selectedSubjectIds)
      && NoDuplicates(mappings)
      && forall m :: m in mappings ==> m.subject in selectedSubjectIds
    }

    constructor()
      ensures Valid()
      ensures email == [] && selectedSubjectIds == [] && mappings == [] && startedAt == []
    {
      email := [];
      selectedSubjectIds := [];
      mappings := [];
      startedAt := [];
    }

    /** `handleChange` on the e-mail or start-date input. */
    method ChangeField(field: EnrollField, value: string)
      modifies this
      requires Valid()
      ensures Valid()
      ensures email == (if field == Email then value else old(email))
      ensures startedAt == (if field == StartedAt then value else old(startedAt))
      ensures selectedSubjectIds == old(selectedSubjectIds) && mappings == old(mappings)
    {
      match field
      case Email => email := value;
      case StartedAt => startedAt := value;
    }

    /** `handleSubjectToggle`: deselect a chosen subject or append an
        unchosen one, then drop the pairs of subjects no longer chosen. */
    method ToggleSubject(id: string)
      modifies this
      requires Valid()
      ensures Valid()
      ensures selectedSubjectIds == Toggled(old(selectedSubjectIds), id)
      ensures mappings == Pruned(old(mappings), selectedSubjectIds)
      ensures id !in selectedSubjectIds ==> MappingsForSubject(mappings, id) == []
      ensures email == old(email) && startedAt == old(startedAt)
    {
      var newIds := Toggled(selectedSubjectIds, id);
      var kept := Pruned(mappings, newIds);
      PrunedLeavesNone(mappings, newIds, id);
      mappings := kept;
      selectedSubjectIds := newIds;
    }

    /** `addMapping(subjectId, teacherId)`: only for a chosen subject, and
        otherwise as `WithMapping`. */
    method AddMapping(subject: string, teacher: string)
      modifies this
      requires Valid()
      ensures Valid()
      ensures mappings == if subject in selectedSubjectIds then WithMapping(old(mappings), subject, teacher) else old(mappings)
      ensures email == old(email) && startedAt == old(startedAt) && selectedSubjectIds == old(selectedSubjectIds)
    {
      if subject == [] || teacher == [] {
        return;
      }
      if subject !in selectedSubjectIds {
        return;
      }
      mappings := WithMapping(mappings, subject, teacher);
    }

    /** `removeMapping(index)`: drops exactly the pair at `index`. */
    method RemoveMapping(index: int)
      modifies this
      requires Valid()
      ensures Valid()
      ensures mappings == RemoveAt(old(mappings), index)
      ensures email == old(email) && startedAt == old(startedAt) && selectedSubjectIds == old(selectedSubjectIds)
    {
      RemovePreservesPairs(mappings, index);
      mappings := RemoveAt(mappings, index);
    }

    /** `handleSubmit`. `subjects` is the loaded subject list (for the error
        text) and `failure` the error of the enrol request, `None` on
        success. A request is sent only when a subject is chosen and every
        chosen subject has a teacher; for a valid form the pairs sent then
        cover exactly the chosen subjects. */
    method Submit(subjects: seq<SubjectInfo>, failure: Option<ApiError>) returns (o: EnrollOutcome)
      ensures selectedSubjectIds == [] ==> o == EnrollOutcome(None, Failure(SelectSubject), false)
      ensures o.request.Some? <==>
        selectedSubjectIds != [] && forall i :: 0 <= i < |selectedSubjectIds| ==> MappingsForSubject(mappings, selectedSubjectIds[i]) != []
      ensures o.request.None? && selectedSubjectIds != [] ==>
        exists i :: 0 <= i < |selectedSubjectIds| && Unassigned(selectedSubjectIds, mappings, i) && o.toast == Failure(AssignTeacherTo + SubjectLabel(subjects, selectedSubjectIds[i]))
      ensures o.request.Some? ==>
        o.request.value == EnrollRequest(Trim(email), mappings, if startedAt == [] then None else Some(startedAt))
      ensures Valid() && o.request.Some? ==>
        forall s :: s in selectedSubjectIds <==> exists m :: m in o.request.value.mappings && m.subject == s
      ensures o.navigates <==> o.request.Some? && failure.None?
      ensures o.request.Some? ==> o.toast == if failure.None? then Success(Enrolled) else Failure(MessageOr(failure.value, EnrollFailed))
    {
      if |selectedSubjectIds| == 0 {
        return EnrollOutcome(None, Failure(SelectSubject), false);
      }
      var missing := FirstUnassigned(selectedSubjectIds, mappings);
      if missing.Some? {
        return EnrollOutcome(None, Failure(AssignTeacherTo + SubjectLabel(subjects, missing.value)), false);
      }
      CoversChosen(selectedSubjectIds, mappings);
      var request := EnrollRequest(Trim(email), mappings, if startedAt == [] then None else Some(startedAt));
      if failure.None? {
        o := EnrollOutcome(Some(request), Success(Enrolled), true);
      } else {
        o := EnrollOutcome(Some(request), Failure(MessageOr(failure.value, EnrollFailed)), false);
      }
    }
  }

  /** When every chosen subject has a pair and every pair has a chosen
      subject, the subjects of the pairs are exactly the chosen ones. */
  lemma CoversChosen(selected: seq<string>, mappings: seq<Mapping>)
    requires forall i :: 0 <= i < |selected| ==> MappingsForSubject(mappings, selected[i]) != []
    ensures forall s :: s in selected ==> exists m :: m in mappings && m.subject == s
  {
    forall s | s in selected ensures exists m :: m in mappings && m.subject == s {
      var i :| 0 <= i < |selected| && selected[i] == s;
      var listed := MappingsForSubject(mappings, s);
      assert listed[0] in listed;
    }
  }
}
