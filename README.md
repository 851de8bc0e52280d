# skyprep-admin: calendar, form and pagination rules in Dafny

This project models the local rules of the skyprep-admin React client and
proves properties of them. The client is an admin front end over a REST API.
Once the API's answers are taken as inputs, these rules are deterministic.

- **Calendar** (`Calendar.jsx` and the month, week and day views):
  - the visible date range for each view;
  - the test that keeps a fetched session;
  - the grouping of sessions and holidays by day;
  - the hour cells, which keep a session only in the row of its start hour;
  - the month cell's "first three, then +N more" rule;
  - the holiday shown for a day;
  - the sorting of sessions by start time;
  - the page's navigation and dialog state.
- **Day sessions dialog**: the status colours, the description line and the session cards.
- **Public holiday dialog**: a class holding the form's fields. It has create and edit modes, a validation order, the trimmed payload and a delete that needs confirmation.
- **Focus One enrolment form and enrolment detail page**: the teacher–subject pair list.
  - Operations: add without duplicates, remove by index, a subject toggle that drops orphaned pairs, and a completeness check at submit time.
  - On the detail page: pairs normalised on load, dates cut to their day, and pause/resume guarded by the loaded record.
- **Question form**: an option list kept between two and four options, the ordered validation chain, and the payload of options that have text.
- **Course form**: `generateSlug`, proved equal to the words of the lower-cased name joined by single hyphens; the comma-separated tag field, with its load-then-save round trip; plus field updates, validation order and payload.
- **Data table**: the page buttons, the ellipses, the "Showing X to Y" range, the disabled navigation buttons and the page reported upwards.

**Time** is modelled as whole minutes of local time (`LocalTime.Instant`):

- the day of an instant is `t / 1440`;
- its hour is `(t % 1440) / 60`;
- day 0, 1970-01-01, is a Thursday.

Two keys produced by the date library's `format(_, 'yyyy-MM-dd')` are equal exactly when the `DayKey`s are equal. Month boundaries come from the date library and are taken as an input `MonthSpan` (a first day and a length of 28 to 31 days). The result of `addMonths`/`subMonths` is an input too.

**React state.** A component whose state the handlers change step by step is a class:

- `CalendarPage.CalendarState`
- `HolidayDialog.HolidayEditor`
- `EnrollForm.Form`
- `EnrollmentDetail.Detail`
- `QuestionForm.Question`
- `CourseForm.Course`

Each handler is a method that changes that state. The forEach loops that fill the day maps are methods with loop invariants. Filters, lookups and string transforms are functions.

**Handler results.** A handler's side effects are returned as an outcome value: the request it sends, the toast it shows, and whether it closes the dialog, navigates or fetches again. A request's failure, the user's confirmation and the clock are parameters.

**Two behaviours that follow from the code** and are easy to get wrong when describing the pages:

- **Holiday lookup.** The month and week views fill a `Map` with `set`, so a day with two holidays shows the **last** one (`Schedule.LastHoliday`). The page's date click and the day view use `find`, which gives the first (`Schedule.FirstHoliday`). `Schedule.FirstAndLastDisagree` shows two holidays on one day that the views resolve differently. `Schedule.FirstIsLastWhenUnique` shows the views agree when a day has at most one holiday.
- **Month grid.** The grid is not a fixed six rows. It runs from the Sunday on or before the first of the month to the Saturday on or after its last day, which is 4 to 6 weeks (`MonthView.GridDays`).

## Model

| member | source | states |
|---|---|---|
| CalendarPage.DateRange | src/pages/Calendar.jsx:34-57 | the range always contains the current date; month view and any unknown view cover exactly the days of the month; week view covers exactly the seven days of the current week, starting on a Sunday and ending on a Saturday; day view covers exactly the current day |
| CalendarPage.VisibleIsOverlap | src/pages/Calendar.jsx:77-85 | the three-way keep test (starts in the range, ends in it, or spans it) is exactly "the closed intervals overlap" for a session and range that do not end before they start |
| CalendarPage.VisibleSessions | src/pages/Calendar.jsx:76-87 | the kept sessions are exactly the fetched sessions that pass the test, each as often as it was fetched, in their fetched order (an order-preserving subsequence) |
| CalendarPage.HolidayQueryCovers | src/pages/Calendar.jsx:69-72 | cutting the UTC form of the range ends to dates never drops a visible day from the holiday query, and widens it by at most one day at each end, for any zone offset under a day |
| CalendarPage.Stepped | src/pages/Calendar.jsx:101-127 | previous/next move the date by exactly one week in week view and one day in day view, keeping its minute of the day, and leave it alone for an unknown view; in month view the result is exactly the date library's shifted date |
| CalendarPage.StepBackAndForth | src/pages/Calendar.jsx:101-127 | in week and day view, previous followed by next (or next followed by previous) restores the date |
| CalendarPage.WeekStepMovesWeek | src/pages/Calendar.jsx:106-108 | in week view a step moves the visible week's Sunday by exactly seven days |
| CalendarPage.CalendarState.constructor | src/pages/Calendar.jsx:21-31 | the page starts in month view on the current time, with nothing loaded, both dialogs closed and the first fetch pending |
| CalendarPage.CalendarState.ReceiveData | src/pages/Calendar.jsx:60-95 | a failed or empty sessions or holidays response becomes an empty list and does not affect the other; only sessions visible in the fetched range are stored; loading ends; nothing else changes |
| CalendarPage.CalendarState.FetchFailed | src/pages/Calendar.jsx:89-94 | an error in the fetch ends loading and keeps all data as it was |
| CalendarPage.CalendarState.SetView | src/pages/Calendar.jsx:210-224 | a view button changes the view and nothing else |
| CalendarPage.CalendarState.Previous | src/pages/Calendar.jsx:101-113 | the date becomes the backward step of the current view; nothing else changes |
| CalendarPage.CalendarState.Next | src/pages/Calendar.jsx:115-127 | the date becomes the forward step of the current view; nothing else changes |
| CalendarPage.CalendarState.Today | src/pages/Calendar.jsx:129-131 | the date is reset to the current time; nothing else changes |
| CalendarPage.CalendarState.DateClick | src/pages/Calendar.jsx:133-146 | the clicked date is selected, the selected holiday is the first loaded holiday of that day (none if there is none), and the holiday dialog always opens |
| CalendarPage.CalendarState.HolidayDialogClose | src/pages/Calendar.jsx:148-153 | closing the holiday dialog clears the selected holiday and date and always starts a reload |
| CalendarPage.CalendarState.ViewMoreSessions | src/pages/Calendar.jsx:155-159 | the sessions dialog opens with the given day and exactly the given sessions |
| CalendarPage.CalendarState.SessionsDialogClose | src/pages/Calendar.jsx:161-165 | the sessions dialog closes and its day and sessions are cleared |
| LocalTime.DayKey | src/components/calendar/CalendarMonthView.jsx:19 | the day key is the unique day whose first and last minute enclose the instant |
| LocalTime.HourOf | src/components/calendar/CalendarWeekView.jsx:134 | the hour is between 0 and 23 and is the hour of the instant's day that contains it |
| LocalTime.WeekStartDay | src/pages/Calendar.jsx:43 | the start of the week is a Sunday at most six days before the given day |
| LocalTime.WeekEndDay | src/pages/Calendar.jsx:44 | the end of the week is a Saturday at most six days after the given day |
| LocalTime.Days | src/pages/Calendar.jsx:47-50 | the range from the start of one day to the end of another contains exactly the instants whose day lies between them |
| Schedule.SessionsOn | src/components/calendar/CalendarDayView.jsx:13-16 | the day's sessions are exactly the sessions starting on that day, each as often as it occurs in the input, in input order |
| Schedule.FirstHoliday | src/components/calendar/CalendarDayView.jsx:24-27 | the result is absent exactly when no holiday falls on the day; otherwise it is a holiday of that day with none of that day before it |
| Schedule.LastHoliday | src/components/calendar/CalendarMonthView.jsx:27-31 | the result is absent exactly when no holiday falls on the day; otherwise it is a holiday of that day with none of that day after it |
| Schedule.FirstIsLastWhenUnique | src/components/calendar/CalendarWeekView.jsx:24-28 | when a day has at most one holiday, the first-match and last-match lookups agree |
| Schedule.FirstAndLastDisagree | src/components/calendar/CalendarMonthView.jsx:27-31 | with two different holidays on one day, the views that use `set` show the second and the views that use `find` show the first |
| Schedule.SortByStart | src/components/calendar/CalendarDayView.jsx:19-21 | the sorted copy is in ascending start order and is a permutation of the input |
| Schedule.Insert | src/components/calendar/DaySessionsDialog.jsx:26-28 | inserting into a sorted list keeps it sorted and adds exactly that session |
| DayBuckets.GroupSessionsByDate | src/components/calendar/CalendarMonthView.jsx:17-24 | after the loop, a day has a bucket exactly when some session starts on it, and the bucket is that day's sessions in input order |
| DayBuckets.IndexHolidaysByDate | src/components/calendar/CalendarWeekView.jsx:24-28 | after the loop, each day maps to the last holiday of that day in input order, or to nothing |
| DayBuckets.BucketsPartition | src/components/calendar/CalendarWeekView.jsx:14-21 | the buckets partition the sessions: each session is in its start day's bucket as often as in the input, and in no other bucket |
| MonthView.GridDays | src/components/calendar/CalendarMonthView.jsx:7-12 | the grid runs from the Sunday on or before the first of the month to the Saturday on or after its last day, consecutively; the length is a multiple of 7 between 28 and 42 and covers every day of the month |
| MonthView.CellOf | src/components/calendar/CalendarMonthView.jsx:56-119 | a cell shows exactly the first three sessions of its day, or all of them when there are at most three; "+N more" appears exactly when the day has more than three, with N the count beyond three; the button receives the full day list; the cell is flagged by month and today |
| MonthView.Render | src/components/calendar/CalendarMonthView.jsx:33-58 | every grid day, also outside the month, gets its own sessions and its last holiday, looked up in the maps built by the two loops |
| MonthView.EverySessionReachable | src/components/calendar/CalendarMonthView.jsx:104-119 | every session starting in the month is in its day's cell, either shown or behind "+N more" |
| WeekView.WeekDays | src/components/calendar/CalendarWeekView.jsx:9-11 | the header has seven consecutive days, Sunday through Saturday, including the current day |
| WeekView.Render | src/components/calendar/CalendarWeekView.jsx:110-142 | the grid has 24 rows of seven cells; the cell for (hour h, day i) holds exactly the sessions starting in hour h of day i, in input order; each header shows the day's last holiday |
| WeekView.OneCellPerSession | src/components/calendar/CalendarWeekView.jsx:115-142 | a session of the week is in a cell exactly when the cell is its start day and start hour, so it appears once |
| HourSlots.TouchesIsOverlap | src/components/calendar/CalendarWeekView.jsx:40-53 | for a session of positive length, the three-way hour test is exactly "[start, end) overlaps the hour" |
| HourSlots.SessionsForHour | src/components/calendar/CalendarDayView.jsx:29-42 | the hour's sessions are exactly those passing the three-way test, each as often as it occurs in the list, in list order |
| HourSlots.StartTouches | src/components/calendar/CalendarWeekView.jsx:47-48 | a session starting in an hour always passes that hour's overlap test |
| HourSlots.HourCellIsStartHour | src/components/calendar/CalendarWeekView.jsx:116-135 | the overlap filter followed by the start-hour filter equals filtering by start day and start hour alone |
| HourSlots.HourCellMember | src/components/calendar/CalendarDayView.jsx:105-109 | a session is in an hour cell exactly when it starts on that day in that hour |
| HourSlots.Hours | src/components/calendar/CalendarWeekView.jsx:6 | the hour rows are 0 through 23 |
| HourSlots.HourCellsPartitionDay | src/components/calendar/CalendarDayView.jsx:89-116 | a session of the day is in the row of its start hour and in no other row |
| DayView.Render | src/components/calendar/CalendarDayView.jsx:9-42 | the day view shows the current day with its first holiday, and 24 hour rows |
| DayView.RowsSorted | src/components/calendar/CalendarDayView.jsx:19-42 | every hour row is in ascending start order |
| DayView.RowContents | src/components/calendar/CalendarDayView.jsx:89-116 | hour row h holds exactly the sessions starting in hour h of the day, each as often as loaded; a session starting on another day never appears |
| DaySessionsDialog.BadgeColorOf | src/components/calendar/DaySessionsDialog.jsx:5-22 | each colour is chosen exactly for its statuses: accepted and scheduled share blue, rejected and cancelled share red, and every unknown status is grey |
| DaySessionsDialog.DescriptionStatesCount | src/components/calendar/DaySessionsDialog.jsx:38-41 | for at least one session the description starts with the count, which `parseInt` reads back |
| DaySessionsDialog.DescriptionPlural | src/components/calendar/DaySessionsDialog.jsx:40 | the description says "sessions" exactly when the count is not one |
| DaySessionsDialog.LineOf | src/components/calendar/DaySessionsDialog.jsx:68-85 | a reference line is omitted exactly for an absent reference or an empty id; it shows a populated object's name or the bare id; a populated object without a name is passed as an object |
| DaySessionsDialog.CardOf | src/components/calendar/DaySessionsDialog.jsx:51-93 | the card's title falls back to "Session" and is never empty; it carries the session's times and status, the badge colour of the status, and the subject, teacher and student lines as `LineOf` renders each reference |
| DaySessionsDialog.Render | src/components/calendar/DaySessionsDialog.jsx:26-51 | a missing list counts as empty; there is one card per session; the description matches the count; the empty notice shows exactly when there are no cards |
| DaySessionsDialog.CardsInStartOrder | src/components/calendar/DaySessionsDialog.jsx:26-28 | the cards are in ascending start order, with one card for each given session as often as it was given |
| Feedback.MessageOr | src/pages/FocusOneEnrollForm.jsx:160 | the error text is the response's message when it is present and non-empty, otherwise the fallback |
| Feedback.NestedMessageOr | src/components/calendar/PublicHolidayDialog.jsx:71 | the nested error message comes first, then the message, then the fallback |
| HolidayDialog.PayloadOf | src/components/calendar/PublicHolidayDialog.jsx:50-64 | the payload name is the trimmed name and is non-empty exactly when the name is not blank; the description is trimmed, or null exactly when blank; the date and active flag are sent unchanged |
| HolidayDialog.HolidayEditor.constructor | src/components/calendar/PublicHolidayDialog.jsx:18-30 | in edit mode the fields come from the holiday, with description `''` and active `true` when missing; in create mode the name and description are blank, the dialog is active, and the date is the clicked day |
| HolidayDialog.HolidayEditor.EditName | src/components/calendar/PublicHolidayDialog.jsx:143 | typing sets the name only |
| HolidayDialog.HolidayEditor.EditDate | src/components/calendar/PublicHolidayDialog.jsx:154-160 | the date changes only in create mode, because the input is disabled when editing |
| HolidayDialog.HolidayEditor.EditDescription | src/components/calendar/PublicHolidayDialog.jsx:174 | typing sets the description only |
| HolidayDialog.HolidayEditor.SetActive | src/components/calendar/PublicHolidayDialog.jsx:185-186 | the checkbox sets the active flag only |
| HolidayDialog.HolidayEditor.Submit | src/components/calendar/PublicHolidayDialog.jsx:32-76 | a blank name fails first, then a missing date, with no request; otherwise exactly one request is sent: an update of the holiday's id in edit mode (with its own date) or a create; the dialog closes only on success; the failure toast uses the nested-message fallback chain |
| HolidayDialog.HolidayEditor.Delete | src/components/calendar/PublicHolidayDialog.jsx:78-96 | nothing happens in create mode or without confirmation; otherwise one delete of the holiday's id, and the dialog closes exactly on success |
| TeacherSubject.MappingsForSubject | src/pages/FocusOneEnrollForm.jsx:119-121 | the pairs of a subject are exactly the listed pairs with that subject, each as often as it is listed, in list order |
| TeacherSubject.IsAssigned | src/pages/FocusOneEnrollForm.jsx:124-128 | true exactly when some listed pair is that teacher and subject |
| TeacherSubject.AssignedIffListed | src/pages/FocusOneEnrollmentDetail.jsx:136-145 | the two lookups agree: a teacher is assigned exactly when the pair is among the subject's pairs |
| TeacherSubject.WithMapping | src/pages/FocusOneEnrollmentDetail.jsx:111-125 | nothing changes when an id is empty or the pair already exists; otherwise exactly that pair is appended; the list stays free of duplicates |
| TeacherSubject.WithMappingIdempotent | src/pages/FocusOneEnrollForm.jsx:98-101 | adding the same pair twice is the same as adding it once |
| TeacherSubject.RemovePreservesPairs | src/pages/FocusOneEnrollForm.jsx:111-116 | removing by index keeps the list free of duplicates and only drops pairs |
| EnrollForm.FindSubject | src/pages/FocusOneEnrollForm.jsx:144 | the result is absent exactly when no subject has the id; otherwise it is the first listed subject with that id |
| EnrollForm.SubjectLabel | src/pages/FocusOneEnrollForm.jsx:144-145 | the label is the found subject's name when the id is found and the name is non-empty; otherwise it is "selected subject" |
| EnrollForm.FirstUnassigned | src/pages/FocusOneEnrollForm.jsx:141-148 | the loop finds nothing exactly when every selected subject has a pair; otherwise it returns the first selected subject without one |
| EnrollForm.Toggled | src/pages/FocusOneEnrollForm.jsx:69-75 | an absent subject is appended at the end; a present one is removed, every other subject staying as often as it was there, in its order; no duplicates are introduced |
| EnrollForm.Pruned | src/pages/FocusOneEnrollForm.jsx:77-80 | the pairs kept are exactly those whose subject is still selected, each as often as it was listed, in list order |
| EnrollForm.PrunedLeavesNone | src/pages/FocusOneEnrollForm.jsx:77-80 | after pruning, a subject that is not selected has no pairs |
| EnrollForm.Form.constructor | src/pages/FocusOneEnrollForm.jsx:18-23 | the form starts empty |
| EnrollForm.Form.ChangeField | src/pages/FocusOneEnrollForm.jsx:60-66 | the named field takes the value and nothing else changes |
| EnrollForm.Form.ToggleSubject | src/pages/FocusOneEnrollForm.jsx:69-88 | the selection is toggled and the pairs are pruned to it; the invariant "no duplicates, every pair's subject selected" is kept |
| EnrollForm.Form.AddMapping | src/pages/FocusOneEnrollForm.jsx:91-108 | a pair is added, without duplicates, only for a selected subject; the invariant is kept |
| EnrollForm.Form.RemoveMapping | src/pages/FocusOneEnrollForm.jsx:111-116 | exactly the pair at the index is removed; the invariant is kept |
| EnrollForm.Form.Submit | src/pages/FocusOneEnrollForm.jsx:130-165 | no subject selected fails first; then the first subject without a teacher is named; a request is sent exactly when both checks pass, with the email trimmed, the pairs unchanged and the start date only when non-empty; the pairs then cover exactly the selected subjects; navigation happens only on success |
| EnrollForm.CoversChosen | src/pages/FocusOneEnrollForm.jsx:140-148 | when every selected subject has a pair, each selected subject appears in some pair |
| EnrollmentDetail.RefId | src/pages/FocusOneEnrollmentDetail.jsx:52-53 | a raw id is kept; a populated object gives its id |
| EnrollmentDetail.Normalise | src/pages/FocusOneEnrollmentDetail.jsx:49-54 | every loaded pair is turned into its two ids, keeping length and order |
| EnrollmentDetail.NormaliseForgetsPopulation | src/pages/FocusOneEnrollmentDetail.jsx:49-54 | pairs arriving populated and pairs arriving as raw ids both normalise to the same id pairs |
| EnrollmentDetail.DatePart | src/pages/FocusOneEnrollmentDetail.jsx:55-60 | an absent date shows as empty; otherwise the field is the text before the first `T` of the ISO text |
| EnrollmentDetail.DatePartOfTimestamp | src/pages/FocusOneEnrollmentDetail.jsx:56 | for an ISO timestamp the field is its `yyyy-MM-dd` part |
| EnrollmentDetail.Optional | src/pages/FocusOneEnrollmentDetail.jsx:162-163 | an empty field is not sent; any other value is sent as it is |
| EnrollmentDetail.Detail.constructor | src/pages/FocusOneEnrollmentDetail.jsx:22-33 | the page starts with empty fields and no record |
| EnrollmentDetail.Detail.Load | src/pages/FocusOneEnrollmentDetail.jsx:41-73 | the pairs are normalised, the dates cut to their day, and the record replaced only when its lookup succeeded |
| EnrollmentDetail.Detail.AddMapping | src/pages/FocusOneEnrollmentDetail.jsx:111-125 | a pair is appended as by the shared rule, with no check that the subject is selected |
| EnrollmentDetail.Detail.RemoveMapping | src/pages/FocusOneEnrollmentDetail.jsx:128-133 | exactly the pair at the index is removed |
| EnrollmentDetail.Detail.ChangeField | src/pages/FocusOneEnrollmentDetail.jsx:147-153 | the named date field takes the value and nothing else changes |
| EnrollmentDetail.Detail.SetPauseText | src/pages/FocusOneEnrollmentDetail.jsx:610-620 | the reason and notes inputs set those two fields only |
| EnrollmentDetail.Detail.Submit | src/pages/FocusOneEnrollmentDetail.jsx:155-174 | the update sends the pairs as they stand and omits empty dates; a refetch follows exactly on success |
| EnrollmentDetail.Detail.Pause | src/pages/FocusOneEnrollmentDetail.jsx:176-199 | no request without a loaded record; otherwise the pause is sent with empty reason and notes omitted, and both are cleared exactly on success |
| EnrollmentDetail.Detail.Resume | src/pages/FocusOneEnrollmentDetail.jsx:201-219 | no request without a loaded record; otherwise the resume names the record, and a refetch follows exactly on success |
| EnrollmentDetail.Detail.Status | src/pages/FocusOneEnrollmentDetail.jsx:264 | a present, non-empty status is shown as it is; a missing or empty one falls back to "active" |
| EnrollmentDetail.Detail.ControlsExclusive | src/pages/FocusOneEnrollmentDetail.jsx:374-397 | Pause and Resume are never both offered; before the record loads, Pause is offered; Resume is offered exactly for a paused record |
| QuestionForm.InitialOptions | src/pages/QuestionForm.jsx:27-30 | a new question has exactly two blank, incorrect options |
| QuestionForm.WithOptionAdded | src/pages/QuestionForm.jsx:96-100 | a blank option is appended only below four options; the bounds are kept |
| QuestionForm.WithOptionRemoved | src/pages/QuestionForm.jsx:102-107 | the option at the index is removed only above two options; the bounds are kept |
| QuestionForm.RemoveUndoesAdd | src/pages/QuestionForm.jsx:96-107 | removing the option just added restores the list |
| QuestionForm.WithOptionEdited | src/pages/QuestionForm.jsx:90-94 | only the named field of the option at the index changes |
| QuestionForm.ReplayKeepsBounds | src/pages/QuestionForm.jsx:90-107 | any sequence of add, remove and edit actions keeps a list of two to four options within two to four |
| QuestionForm.NumberField | src/pages/QuestionForm.jsx:86 | the stored number is the parsed integer, or 1 when parsing fails or gives zero; it is never zero |
| QuestionForm.NumberFieldOfCount | src/pages/QuestionForm.jsx:86 | a positive count typed in is stored as that count |
| QuestionForm.ValidOptions | src/pages/QuestionForm.jsx:122 | the options sent are exactly the options with non-blank text, each as often as it occurs, in their order |
| QuestionForm.CorrectFilterEmpty | src/pages/QuestionForm.jsx:128-129 | the correct-option filter is empty exactly when no option is marked correct |
| QuestionForm.ValidOptionsFromList | src/pages/QuestionForm.jsx:122-140 | every option sent has text and comes from the editor's list |
| QuestionForm.Question.constructor | src/pages/QuestionForm.jsx:19-30 | the defaults: medium difficulty, one mark, active, two blank options |
| QuestionForm.Question.Load | src/pages/QuestionForm.jsx:64-72 | the loaded fields and options replace the form as they are (no options when the record has none), with no check on their number |
| QuestionForm.Question.ChangeText | src/pages/QuestionForm.jsx:82-88 | the named text field takes the value; nothing else changes |
| QuestionForm.Question.ChangeMarks | src/pages/QuestionForm.jsx:86 | the marks become the parsed number, never zero |
| QuestionForm.Question.ChangeActive | src/pages/QuestionForm.jsx:86 | the checkbox sets the active flag only |
| QuestionForm.Question.AddOption | src/pages/QuestionForm.jsx:96-100 | as `WithOptionAdded`, keeping the bounds |
| QuestionForm.Question.RemoveOption | src/pages/QuestionForm.jsx:102-107 | as `WithOptionRemoved`, keeping the bounds |
| QuestionForm.Question.ChangeOption | src/pages/QuestionForm.jsx:90-94 | as `WithOptionEdited`, keeping the bounds |
| QuestionForm.Question.Submit | src/pages/QuestionForm.jsx:109-158 | the checks run in order (text, chapter, at least two options with text, one of them correct) and the first failure stops with no request; a request is sent exactly when all pass; it carries the fields and the options with text, which number at least two, include a correct one and all come from the list; an update exactly in edit mode |
| CourseForm.LowerChar | src/pages/CourseForm.jsx:22 | an ASCII upper-case letter becomes its lower case; everything else is kept |
| CourseForm.Lower | src/pages/CourseForm.jsx:22 | character by character lower case, leaving no upper-case ASCII letter |
| CourseForm.DropRun | src/pages/CourseForm.jsx:23 | drops the leading characters outside `[a-z0-9]` and only those, leaving the suffix that starts at the first `[a-z0-9]` character; the `[a-z0-9]` characters are unchanged |
| CourseForm.Collapse | src/pages/CourseForm.jsx:23 | the result uses only `[a-z0-9-]` with no two hyphens in a row, keeps exactly the input's `[a-z0-9]` characters in order, starts with a hyphen exactly when the input starts outside `[a-z0-9]`, and is empty exactly when the input is |
| CourseForm.StripEdges | src/pages/CourseForm.jsx:24 | the input is the result with one hyphen put back at the front and at the end exactly where the input has one; collapsed text gives a slug; a slug is unchanged |
| CourseForm.GenerateSlug | src/pages/CourseForm.jsx:20-25 | the slug is the words of the lower-cased name (its maximal `[a-z0-9]` runs) joined by single hyphens, and so uses only `[a-z0-9-]` with no double hyphen and none at either end |
| CourseForm.Run | src/pages/CourseForm.jsx:23 | the longest prefix made of `[a-z0-9]` characters: all its characters are in `[a-z0-9]` and the next one, if any, is not |
| CourseForm.Words | src/pages/CourseForm.jsx:23 | the words are non-empty runs of `[a-z0-9]` characters which, put together, are exactly the text's `[a-z0-9]` characters in order (the reference the slug is proved against) |
| CourseForm.CollapseOfClean | src/pages/CourseForm.jsx:23 | for text starting with a word, collapsing and then removing one trailing hyphen gives the words joined by single hyphens, so each hyphen stands for exactly one run between two words |
| CourseForm.SlugOfWords | src/pages/CourseForm.jsx:23-24 | collapsing and then stripping the edge hyphens gives the words joined by single hyphens, whatever the text starts and ends with |
| CourseForm.SlugFixedPoint | src/pages/CourseForm.jsx:20-25 | a slug is its own slug |
| CourseForm.GenerateSlugIdempotent | src/pages/CourseForm.jsx:20-25 | generating a slug twice gives the same slug as once |
| CourseForm.TrimAll | src/pages/CourseForm.jsx:148 | every piece is trimmed, keeping length and order |
| CourseForm.ParseTags | src/pages/CourseForm.jsx:148 | an empty field gives no tags; otherwise the tags are the comma-split pieces, each trimmed, with the empty ones dropped: every non-empty trimmed piece is kept as often as it occurs, in order, and every tag is non-empty, trimmed and comma-free |
| CourseForm.TrimmedPiecesAreTags | src/pages/CourseForm.jsx:148 | trimmed non-empty pieces of a comma split are tags |
| CourseForm.SplitJoined | src/pages/CourseForm.jsx:76 | splitting `", "`-joined tags on commas gives the tags back, with the space of each separator in front |
| CourseForm.ParseTagsOfJoin | src/pages/CourseForm.jsx:76 | tags joined for the form and parsed again on save give back exactly the tag list |
| CourseForm.FieldsOf | src/pages/CourseForm.jsx:66-91 | a loaded course fills the form with its defaults: empty texts, active and auto-approve true, waitlist false; a missing or zero seat limit shows empty, any other reads back as the same number |
| CourseForm.Payload | src/pages/CourseForm.jsx:143-155 | name and description trimmed; slug trimmed and lower-cased; tags parsed; an empty seat field is null, otherwise parsed; flags and type unchanged |
| CourseForm.LoadThenSaveKeeps | src/pages/CourseForm.jsx:76-79 | a course saved unedited sends its tags back unchanged, and its seat limit (or null for none) |
| CourseForm.Course.constructor | src/pages/CourseForm.jsx:32-44 | the form starts with its empty defaults |
| CourseForm.Course.Load | src/pages/CourseForm.jsx:66-91 | loading replaces the fields with the course's |
| CourseForm.Course.ChangeName | src/pages/CourseForm.jsx:106-117 | the name is set; in create mode the slug is regenerated from it and is a slug; in edit mode the slug is kept |
| CourseForm.Course.ChangeText | src/pages/CourseForm.jsx:93-109 | the named text field takes the value; nothing else changes |
| CourseForm.Course.ChangeFlag | src/pages/CourseForm.jsx:93-104 | the named checkbox takes the value; nothing else changes |
| CourseForm.Course.Submit | src/pages/CourseForm.jsx:121-173 | name, then type, then slug are checked, and the first failure stops with no request; otherwise the payload is sent as an update in edit mode or a create, with a non-empty name and slug; navigation happens only on success |
| DataTable.Pages | src/components/ui/data-table.jsx:180 | the page list is 1 to pageCount, ascending |
| DataTable.PageButtons | src/components/ui/data-table.jsx:180-189 | the buttons are exactly the pages that are the first, the last or within one of the current, ascending, at most five, always including the first and last page |
| DataTable.AtMostFive | src/components/ui/data-table.jsx:180-189 | no more than five buttons are ever shown |
| DataTable.EllipsisMarksGap | src/components/ui/data-table.jsx:190-197 | an ellipsis precedes a button exactly when an existing page between it and the previous button is hidden; never before the first button |
| DataTable.EllipsisPlaces | src/components/ui/data-table.jsx:190-197 | an ellipsis only precedes the last page or the page just before the current one |
| DataTable.ShowingTo | src/components/ui/data-table.jsx:144 | the last item shown is the smaller of the page end and the total |
| DataTable.ShowingRange | src/components/ui/data-table.jsx:140-146 | on a page that holds items, the range is non-empty, within the items and at most one page long, and consecutive pages continue each other |
| DataTable.NavigationInRange | src/components/ui/data-table.jsx:160-232 | every enabled navigation button asks for an existing page; all four are disabled exactly when there is no bar |
| DataTable.RequestedPage | src/components/ui/data-table.jsx:35-40 | the page reported is the updater's new zero-based index plus one, with a function updater applied to the current state |
| DataTable.RequestedPageShift | src/components/ui/data-table.jsx:35-40 | an updater that keeps the state reports the current page; one that moves the index by d reports the page d away |
| Text.Trim | src/components/calendar/PublicHolidayDialog.jsx:35 | the trimmed text neither starts nor ends with white space |
| Text.TrimIsInner | src/pages/CourseForm.jsx:144 | trimming removes white space from the two ends and nothing else |
| Text.TrimEmptyIffAllSpace | src/pages/QuestionForm.jsx:112 | text trims to empty exactly when it is all white space |
| Text.Split | src/pages/CourseForm.jsx:148 | the pieces contain no separator, there is at least one, and joining them with the separator gives the text back |
| Text.NatToString | src/components/calendar/DaySessionsDialog.jsx:40 | a count is written as decimal digits denoting it, with no leading zero |
| Text.ParseInt | src/pages/CourseForm.jsx:151 | `parseInt` fails exactly when no digit follows the leading white space and sign; the value is pinned by `Text.ParseIntOfPrefix` |
| Text.ParseIntOfNatToString | src/pages/QuestionForm.jsx:86 | parsing a written count gives the count back |
| Text.ParseIntOfPrefix | src/pages/CourseForm.jsx:151 | leading white space, an optional sign, a written count and then anything that is not a digit parse to the count with its sign, the rest being ignored |
| Text.OrElse | src/components/calendar/DaySessionsDialog.jsx:62 | `a || b` gives `a` when it is present and non-empty, and `b` otherwise |
| Seqs.Filter | src/pages/Calendar.jsx:77 | `filter` keeps exactly the elements that pass, each with its multiplicity, as a subsequence |
| Seqs.RemoveAt | src/pages/QuestionForm.jsx:104 | removing by index drops exactly that element, and nothing for an index out of range |

## Left out

- Date library arithmetic is not computed. This covers month lengths and the first day of a month, `addMonths`/`subMonths` (with their month-end clamping), daylight-saving shifts, and `yyyy-MM-dd` text as map keys. A month is an input `MonthSpan`, a shifted month is an input instant, and a day key is an integer.
- CalendarPage.Stepped: month view takes the date library's shifted date as given and states nothing about it.
- The holiday dialog's date field is a day key, not its `yyyy-MM-dd` text.
- Holiday name on load: a missing holiday name (`holiday.name || ''`) is modelled as the empty string already present in the record.
- Requests run one at a time:
  - the two calendar fetches under `Promise.all`;
  - the race in which a stale calendar response overwrites a newer one;
  - the `useEffect` triggers that start fetches.

  Each fetch is one atomic `ReceiveData` or `FetchFailed` step.
- The `loading`, `saving`, `pausing` and `resuming` flags of the forms, and the controls they disable, are not modelled. Each handler runs as one atomic step. Only the calendar page's `loading` flag is kept.
- Toasts, `window.confirm`, navigation and API calls are recorded in each handler's outcome value. A request's failure and the user's confirmation are parameters. Nothing is sent.
- The session query constants (`page: 1`, `limit: 1000`) are recorded as constants. Sessions beyond the first thousand are simply never given to `ReceiveData`.
- Fetching the teacher and subject lists, fetching the question's chapters and subjects, and the course's subject list are left out. Those lists only feed the select inputs; the enrolment form's error text takes the subject list as a parameter.
- Error handling on load is left out: a failed enrolment, question or course load shows a toast and navigates away.
- `getViewTitle`, the detail page's `handleCancel`, the pause history display, and all JSX and CSS are not modelled.
- EnrollmentDetail.Detail.Load: the `focusOneId` lookup and the Focus One request are collapsed into the `fetched` parameter. The case of an enrolment without `focusOneEnrollment` (the "not found" screen) is not modelled.
- EnrollmentDetail.RefId: a populated object without an id is modelled as turning into `"[object Object]"`. Other `toString` results of non-string ids are not modelled.
- QuestionForm.Question.ChangeOption requires an index within the list, because the page only offers edits of options it shows. `Replay` returns `None` for an out-of-range edit instead.
- The option text input's `maxLength` and the other HTML input constraints are not modelled.
- DataTable models the server-paged (`manualPagination`) mode only. The client-side mode uses the same formulas on the table library's own page state, which is not modelled.
- Text.Trim removes the ASCII white space, no-break space, byte-order mark and the two Unicode line separators. The other Unicode space characters that `trim` also removes are not modelled.
- CourseForm.Lower lowers ASCII letters only. Full Unicode case mapping, for example the Kelvin sign becoming `k`, is not modelled. For non-ASCII input, `GenerateSlug` may therefore differ from the page, but its `[a-z0-9-]` guarantee is the same.
- Text.ParseInt reads base ten only. `parseInt`'s `0x` hexadecimal prefix and the rounding of very large numbers are not modelled.
- Text.NatToString writes counts only. Negative and fractional numbers do not occur where it is used.
- DaySessionsDialog models `format(_, 'h:mm a')` as the raw start and end instants on the card. The time text itself is not modelled.
