/** The teacher-to-subject assignment list both Focus One forms edit
    (src/pages/FocusOneEnrollForm.jsx, src/pages/FocusOneEnrollmentDetail.jsx):
    a list of (teacher, subject) id pairs with its lookups and the
    duplicate-free append both forms share. */
module TeacherSubject {
  import opened Seqs

  datatype Mapping = Mapping(teacher: string, subject: string)

  function OfSubject(subject: string): Mapping -> bool {
    (m: Mapping) => m.subject == subject
  }

  /** `getMappingsForSubject`: the pairs of one subject, in list order. */
  function MappingsForSubject(mappings: seq<Mapping>, subject: string): (r: seq<Mapping>)
    ensures forall m :: m in r <==> m in mappings && m.subject == subject
    ensures forall m :: multiset(r)[m] == if m.subject == subject then multiset(mappings)[m] else 0
    ensures IsSubsequence(r, mappings)
  {
    Filter(mappings, OfSubject(subject))
  }

  /** `isTeacherAssignedToSubject`: some pair is exactly (teacher, subject). */
  function IsAssigned(mappings: seq<Mapping>, teacher: string, subject: string): (r: bool)
    ensures r <==> exists i :: 0 <= i < |mappings| && mappings[i].teacher == teacher && mappings[i].subject == subject
  {
    var r := Mapping(teacher, subject) in mappings;
    assert r ==> exists i :: 0 <= i < |mappings| && mappings[i] == Mapping(teacher, subject);
    r
  }

  /** The lookups agree: a teacher is assigned to a subject exactly when
      the teacher appears among the subject's pairs. */
  lemma AssignedIffListed(mappings: seq<Mapping>, teacher: string, subject: string)
    ensures IsAssigned(mappings, teacher, subject) <==> Mapping(teacher, subject) in MappingsForSubject(mappings, subject)
  {
  }

  /** The part of `addMapping` both forms share: nothing happens when either
      id is empty or the pair is already there; otherwise exactly that pair
      is appended. */
  function WithMapping(mappings: seq<Mapping>, subject: string, teacher: string): (r: seq<Mapping>)
    ensures r == mappings || r == mappings + [Mapping(teacher, subject)]
    ensures r != mappings <==> subject != [] && teacher != [] && !IsAssigned(mappings, teacher, subject)
    ensures subject != [] && teacher != [] ==> IsAssigned(r, teacher, subject)
    ensures NoDuplicates(mappings) ==> NoDuplicates(r)
  {
    if subject == [] || teacher == [] then mappings
    else if IsAssigned(mappings, teacher, subject) then mappings
    else
      var r := mappings + [Mapping(teacher, subject)];
      assert r[|mappings|] == Mapping(teacher, subject);
      r
  }

  /** Adding a pair twice is the same as adding it once. */
  lemma WithMappingIdempotent(mappings: seq<Mapping>, subject: string, teacher: string)
    ensures WithMapping(WithMapping(mappings, subject, teacher), subject, teacher) == WithMapping(mappings, subject, teacher)
  {
  }

  /** `removeMapping(index)` keeps the list free of duplicates and only
      ever drops pairs. */
  lemma RemovePreservesPairs(mappings: seq<Mapping>, index: int)
    ensures NoDuplicates(mappings) ==> NoDuplicates(RemoveAt(mappings, index))
    ensures forall m :: m in RemoveAt(mappings, index) ==> m in mappings
  {
    if NoDuplicates(mappings) {
      RemoveAtNoDuplicates(mappings, index);
    }
    forall m | m in RemoveAt(mappings, index) ensures m in mappings {
      RemoveAtSubset(mappings, index, m);
    }
  }
}
