/** The question editor (src/pages/QuestionForm.jsx): the question's fields,
    a list of two to four answer options edited in place, and a submit that
    validates in a fixed order and sends only the options that have text. */
module QuestionForm {
  import opened Wrappers
  import opened Seqs
  import opened Text
  import opened Feedback

  datatype QuestionOption = QuestionOption(text: string, isCorrect: bool)

  const Blank: QuestionOption := QuestionOption([], false)
  const MinOptions: nat := 2
  const MaxOptions: nat := 4

  /** A new question starts with two blank, incorrect options. */
  function InitialOptions(): (r: seq<QuestionOption>)
    ensures |r| == MinOptions
    ensures forall i :: 0 <= i < |r| ==> r[i] == Blank
  {
    [Blank, Blank]
  }

  /** The option counts the editor's buttons allow. */
  predicate WithinBounds(options: seq<QuestionOption>) {
    MinOptions <= |options| <= MaxOptions
  }

  /** `addOption`: one blank option more, unless there are already four. */
  function WithOptionAdded(options: seq<QuestionOption>): (r: seq<QuestionOption>)
    ensures |options| < MaxOptions ==> r == options + [Blank]
    ensures |options| >= MaxOptions ==> r == options
    ensures WithinBounds(options) ==> WithinBounds(r)
  {
    if |options| < MaxOptions then options + [Blank] else options
  }

  /** `removeOption(index)`: the option at `index` goes, unless there are
      only two. */
  function WithOptionRemoved(options: seq<QuestionOption>, index: int): (r: seq<QuestionOption>)
    ensures |options| > MinOptions ==> r == RemoveAt(options, index)
    ensures |options| <= MinOptions ==> r == options
    ensures WithinBounds(options) ==> WithinBounds(r)
  {
    if |options| > MinOptions then RemoveAt(options, index) else options
  }

  /** Removing the option just added restores the list. */
  lemma RemoveUndoesAdd(options: seq<QuestionOption>)
    requires WithinBounds(options) && |options| < MaxOptions
    ensures WithOptionRemoved(WithOptionAdded(options), |options|) == options
  {
    assert (options + [Blank])[..|options|] == options;
  }

  /** The two fields of an option `handleOptionChange` writes. */
  datatype OptionEdit = SetText(text: string) | SetCorrect(isCorrect: bool)

  /** `handleOptionChange(index, field, value)`: the named field of the
      option at `index` takes the value; everything else stays. */
  function WithOptionEdited(options: seq<QuestionOption>, index: int, edit: OptionEdit): (r: seq<QuestionOption>)
    requires 0 <= index < |options|
    ensures |r| == |options|
    ensures forall j :: 0 <= j < |options| && j != index ==> r[j] == options[j]
    ensures edit.SetText? ==> r[index] == QuestionOption(edit.text, options[index].isCorrect)
    ensures edit.SetCorrect? ==> r[index] == QuestionOption(options[index].text, edit.isCorrect)
  {
    var o := options[index];
    options[index := match edit
      case SetText(text) => o.(text := text)
      case SetCorrect(isCorrect) => o.(isCorrect := isCorrect)]
  }

  /** One action of the option editor. */
  datatype Step = Add | Remove(index: int) | Edit(index: int, edit: OptionEdit)

  /** The list after a run of editor actions, `None` when an edit names a
      position the list does not have (the page never offers one). */
  function Replay(options: seq<QuestionOption>, steps: seq<Step>): Option<seq<QuestionOption>>
    decreases |steps|
  {
    if steps == [] then Some(options)
    else
      match steps[0]
      case Add => Replay(WithOptionAdded(options), steps[1..])
      case Remove(index) => Replay(WithOptionRemoved(options, index), steps[1..])
      case Edit(index, edit) =>
        if 0 <= index < |options| then Replay(WithOptionEdited(options, index, edit), steps[1..]) else None
  }

  /** However the options are added, removed and edited, a list that starts
      within two to four options stays within them. */
  lemma {:induction false} ReplayKeepsBounds(options: seq<QuestionOption>, steps: seq<Step>)
    requires WithinBounds(options)
    ensures Replay(options, steps).Some? ==> WithinBounds(Replay(options, steps).value)
    decreases |steps|
  {
    if steps != [] {
      match steps[0]
      case Add => ReplayKeepsBounds(WithOptionAdded(options), steps[1..]);
      case Remove(index) => ReplayKeepsBounds(WithOptionRemoved(options, index), steps[1..]);
      case Edit(index, edit) =>
        if 0 <= index < |options| {
          ReplayKeepsBounds(WithOptionEdited(options, index, edit), steps[1..]);
        }
    }
  }

  /** `parseInt(value) || 1` for a number input: the integer the text starts
      with, or 1 when there is none or it is zero. */
  function NumberField(value: string): (n: int)
    ensures n != 0
    ensures ParseInt(value).Some? && ParseInt(value).value != 0 ==> n == ParseInt(value).value
    ensures ParseInt(value).None? || ParseInt(value).value == 0 ==> n == 1
  {
    var parsed := ParseInt(value);
    if parsed.Some? && parsed.value != 0 then parsed.value else 1
  }

  /** A positive count typed into the marks field is stored as that count. */
  lemma NumberFieldOfCount(n: nat)
    requires n >= 1
    ensures NumberField(NatToString(n)) == n
  {
    ParseIntOfNatToString(n);
  }

  function HasText(): QuestionOption -> bool {
    (o: QuestionOption) => !IsBlank(o.text)
  }

  /** `options.filter(option => option.text.trim())`: the options with text,
      in their order. */
  function ValidOptions(options: seq<QuestionOption>): (r: seq<QuestionOption>)
    ensures forall o :: o in r <==> o in options && !IsBlank(o.text)
    ensures forall o :: multiset(r)[o] == if !IsBlank(o.text) then multiset(options)[o] else 0
    ensures IsSubsequence(r, options)
  {
    Filter(options, HasText())
  }

  /** The question's own fields (`formData`). */
  datatype QuestionFields = QuestionFields(
    questionText: string,
    explanation: string,
    chapter: string,
    difficulty: string,
    marks: int,
    isActive: bool)

  const DefaultFields: QuestionFields := QuestionFields([], [], [], "medium", 1, true)

  datatype TextField = QuestionText | Explanation | Chapter | Difficulty

  datatype QuestionData = QuestionData(fields: QuestionFields, options: seq<QuestionOption>)

  datatype QuestionRequest = CreateQuestion(data: QuestionData) | UpdateQuestion(id: string, data: QuestionData)

  /** What one submit did: the request sent, the toast raised and whether
      the page went back to the question list. */
  datatype Outcome = Outcome(request: Option<QuestionRequest>, toast: Toast, navigates: bool)

  const TextRequired: string := "Question text is required"
  const ChapterRequired: string := "Please select a chapter"
  const TooFewOptions: string := "At least 2 options are required"
  const NoCorrectOption: string := "At least one correct option is required"
  const QuestionUpdated: string := "Question updated successfully"
  const QuestionCreated: string := "Question created successfully"
  const SaveFailed: string := "Failed to save question"

  predicate HasCorrect(options: seq<QuestionOption>) {
    exists i :: 0 <= i < |options| && options[i].isCorrect
  }

  function Correct(): QuestionOption -> bool {
    (o: QuestionOption) => o.isCorrect
  }

  /** `validOptions.filter(option => option.isCorrect)` is empty exactly
      when no option is marked correct. */
  lemma CorrectFilterEmpty(options: seq<QuestionOption>)
    ensures Filter(options, Correct()) == [] <==> !HasCorrect(options)
  {
    var correct := Filter(options, Correct());
    if correct != [] {
      assert correct[0] in options;
    }
    if HasCorrect(options) {
      var i :| 0 <= i < |options| && options[i].isCorrect;
      assert options[i] in correct;
    }
  }

  /** Every option sent has text and comes from the editor's list. */
  lemma ValidOptionsFromList(options: seq<QuestionOption>)
    ensures forall k :: 0 <= k < |ValidOptions(options)| ==> !IsBlank(ValidOptions(options)[k].text) && ValidOptions(options)[k] in options
  {
    var valid := ValidOptions(options);
    forall k | 0 <= k < |valid| ensures !IsBlank(valid[k].text) && valid[k] in options {
      assert valid[k] in valid;
    }
  }

  class Question {
    var form: QuestionFields
    var options: seq<QuestionOption>

    constructor()
      ensures form == DefaultFields && options == InitialOptions()
    {
      form := DefaultFields;
      options := InitialOptions();
    }

    /** `fetchQuestion`: the fetched fields and options replace the form as
        they are; the option list is not checked against the bounds. */
    method Load(fields: QuestionFields, loaded: Option<seq<QuestionOption>>)
      modifies this
      ensures form == fields
      ensures options == if loaded.Some? then loaded.value else []
    {
      form := fields;
      options := if loaded.Some? then loaded.value else [];
    }

    /** `handleChange` on a text input or the difficulty select. */
    method ChangeText(field: TextField, value: string)
      modifies this
      ensures form == match field
        case QuestionText => old(form).(questionText := value)
        case Explanation => old(form).(explanation := value)
        case Chapter => old(form).(chapter := value)
        case Difficulty => old(form).(difficulty := value)
      ensures options == old(options)
    {
      form := match field
        case QuestionText => form.(questionText := value)
        case Explanation => form.(explanation := value)
        case Chapter => form.(chapter := value)
        case Difficulty => form.(difficulty := value);
    }

    /** `handleChange` on the marks input. */
    method ChangeMarks(value: string)
      modifies this
      ensures form == old(form).(marks := NumberField(value))
      ensures form.marks != 0
      ensures options == old(options)
    {
      form := form.(marks := NumberField(value));
    }

    /** `handleChange` on the active checkbox. */
    method ChangeActive(checked: bool)
      modifies this
      ensures form == old(form).(isActive := checked)
      ensures options == old(options)
    {
      form := form.(isActive := checked);
    }

    method AddOption()
      modifies this
      ensures options == WithOptionAdded(old(options))
      ensures old(WithinBounds(options)) ==> WithinBounds(options)
      ensures form == old(form)
    {
      if |options| < MaxOptions {
        options := options + [Blank];
      }
    }

    method RemoveOption(index: int)
      modifies this
      ensures options == WithOptionRemoved(old(options), index)
      ensures old(WithinBounds(options)) ==> WithinBounds(options)
      ensures form == old(form)
    {
      if |options| > MinOptions {
        options := RemoveAt(options, index);
      }
    }

    /** The page only offers edits of options it shows. */
    method ChangeOption(index: int, edit: OptionEdit)
      requires 0 <= index < |options|
      modifies this
      ensures options == WithOptionEdited(old(options), index, edit)
      ensures old(WithinBounds(options)) ==> WithinBounds(options)
      ensures form == old(form)
    {
      options := WithOptionEdited(options, index, edit);
    }

    /** `handleSubmit`. `id` is the edited question's id (`None` when
        creating) and `failure` the error of the save request. The checks run
        in order and the first that fails stops the submit; a request carries
        the fields and only the options with text. */
    method Submit(id: Option<string>, failure: Option<ApiError>) returns (o: Outcome)
      ensures IsBlank(form.questionText) ==> o == Outcome(None, Failure(TextRequired), false)
      ensures !IsBlank(form.questionText) && form.chapter == [] ==> o == Outcome(None, Failure(ChapterRequired), false)
      ensures !IsBlank(form.questionText) && form.chapter != [] && |ValidOptions(options)| < 2 ==>
        o == Outcome(None, Failure(TooFewOptions), false)
      ensures !IsBlank(form.questionText) && form.chapter != [] && |ValidOptions(options)| >= 2 && !HasCorrect(ValidOptions(options)) ==>
        o == Outcome(None, Failure(NoCorrectOption), false)
      ensures o.request.Some? <==>
        !IsBlank(form.questionText) && form.chapter != [] && |ValidOptions(options)| >= 2 && HasCorrect(ValidOptions(options))
      ensures o.request.Some? ==> o.request.value.data == QuestionData(form, ValidOptions(options))
      ensures o.request.Some? ==> (o.request.value.UpdateQuestion? <==> id.Some?)
      ensures o.request.Some? && id.Some? ==> o.request.value.id == id.value
      ensures o.request.Some? ==> var sent := o.request.value.data.options;
        && |sent| >= 2 && HasCorrect(sent)
        && forall k :: 0 <= k < |sent| ==> !IsBlank(sent[k].text) && sent[k] in options
      ensures o.navigates <==> o.request.Some? && failure.None?
      ensures o.request.Some? ==> o.toast == if failure.None? then Success(if id.Some? then QuestionUpdated else QuestionCreated) else Failure(MessageOr(failure.value, SaveFailed))
    {
      if IsBlank(form.questionText) {
        return Outcome(None, Failure(TextRequired), false);
      }
      if form.chapter == [] {
        return Outcome(None, Failure(ChapterRequired), false);
      }
      var valid := ValidOptions(options);
      if |valid| < 2 {
        return Outcome(None, Failure(TooFewOptions), false);
      }
      var correct := Filter(valid, Correct());
      CorrectFilterEmpty(valid);
      if |correct| == 0 {
        return Outcome(None, Failure(NoCorrectOption), false);
      }
      ValidOptionsFromList(options);
      var data := QuestionData(form, valid);
      var request := if id.Some? then UpdateQuestion(id.value, data) else CreateQuestion(data);
      if failure.None? {
        o := Outcome(Some(request), Success(if id.Some? then QuestionUpdated else QuestionCreated), true);
      } else {
        o := Outcome(Some(request), Failure(MessageOr(failure.value, SaveFailed)), false);
      }
    }
  }
}
