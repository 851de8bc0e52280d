/** The two records the calendar shows, and the lookups every calendar view
    shares: sessions of a day, the holiday of a day, sessions by start time. */
module Schedule {
  import opened Wrappers
  import opened LocalTime
  import opened Seqs

  /** A subject, teacher or student reference on a session: either a
      populated object (of which only `name` is used, `None` when absent) or
      a bare id string. */
  datatype Party = Populated(name: Option<string>) | Id(value: string)

  /** A scheduled teaching event. `title` and the three references are
      optional in the API's JSON. */
  datatype Session = Session(
    id: string,
    title: Option<string>,
    start: Instant,
    end: Instant,
    status: string,
    subject: Option<Party>,
    teacher: Option<Party>,
    student: Option<Party>)

  /** A public holiday; `date` is the instant the API's date string denotes,
      `isActive` is `None` when the JSON leaves it out. */
  datatype Holiday = Holiday(
    id: string,
    name: string,
    date: Instant,
    description: Option<string>,
    isActive: Option<bool>)

  function StartDay(s: Session): int {
    DayKey(s.start)
  }

  function HolidayDay(h: Holiday): int {
    DayKey(h.date)
  }

  /** The test `key(s.start) === key(day)`. */
  function StartsOn(day: int): Session -> bool {
    (s: Session) => StartDay(s) == day
  }

  /** The sessions whose start falls on `day`, in input order. */
  function SessionsOn(sessions: seq<Session>, day: int): (r: seq<Session>)
    ensures forall s :: s in r <==> s in sessions && StartDay(s) == day
    ensures forall s :: multiset(r)[s] == if StartDay(s) == day then multiset(sessions)[s] else 0
    ensures IsSubsequence(r, sessions)
  {
    Filter(sessions, StartsOn(day))
  }

  /** `holidays.find(h => key(h.date) === key(day))`: the FIRST holiday of
      the day, or none. */
  function FirstHoliday(holidays: seq<Holiday>, day: int): (r: Option<Holiday>)
    ensures r.None? <==> forall i :: 0 <= i < |holidays| ==> HolidayDay(holidays[i]) != day
    ensures r.Some? ==> exists i :: 0 <= i < |holidays| && holidays[i] == r.value && HolidayDay(r.value) == day
                          && forall j :: 0 <= j < i ==> HolidayDay(holidays[j]) != day
  {
    if holidays == [] then None
    else if HolidayDay(holidays[0]) == day then Some(holidays[0])
    else
      var r := FirstHoliday(holidays[1..], day);
      assert forall i :: 1 <= i < |holidays| ==> holidays[i] == holidays[1..][i - 1];
      r
  }

  /** What a `Map` filled with `set(key(h.date), h)` over `holidays` holds for
      the day: the LAST holiday of the day, or none. */
  function LastHoliday(holidays: seq<Holiday>, day: int): (r: Option<Holiday>)
    ensures r.None? <==> forall i :: 0 <= i < |holidays| ==> HolidayDay(holidays[i]) != day
    ensures r.Some? ==> exists i :: 0 <= i < |holidays| && holidays[i] == r.value && HolidayDay(r.value) == day
                          && forall j :: i < j < |holidays| ==> HolidayDay(holidays[j]) != day
  {
    if holidays == [] then None
    else if HolidayDay(holidays[|holidays| - 1]) == day then Some(holidays[|holidays| - 1])
    else
      var r := LastHoliday(holidays[..|holidays| - 1], day);
      LastHolidayStep(holidays, day, r);
      r
  }

  lemma LastHolidayStep(holidays: seq<Holiday>, day: int, r: Option<Holiday>)
    requires holidays != [] && HolidayDay(holidays[|holidays| - 1]) != day
    requires var pre := holidays[..|holidays| - 1];
      && (r.None? <==> forall i :: 0 <= i < |pre| ==> HolidayDay(pre[i]) != day)
      && (r.Some? ==> exists i :: 0 <= i < |pre| && pre[i] == r.value && HolidayDay(r.value) == day
                                  && forall j :: i < j < |pre| ==> HolidayDay(pre[j]) != day)
    ensures r.None? <==> forall i :: 0 <= i < |holidays| ==> HolidayDay(holidays[i]) != day
    ensures r.Some? ==> exists i :: 0 <= i < |holidays| && holidays[i] == r.value && HolidayDay(r.value) == day
                          && forall j :: i < j < |holidays| ==> HolidayDay(holidays[j]) != day
  {
    var pre := holidays[..|holidays| - 1];
    assert forall i :: 0 <= i < |pre| ==> pre[i] == holidays[i];
    if r.Some? {
      var i :| 0 <= i < |pre| && pre[i] == r.value && HolidayDay(r.value) == day
               && forall j :: i < j < |pre| ==> HolidayDay(pre[j]) != day;
      assert holidays[i] == r.value;
      assert forall j :: i < j < |holidays| ==> HolidayDay(holidays[j]) != day;
    }
  }

  /** The two lookups agree whenever a day has at most one holiday. */
  lemma FirstIsLastWhenUnique(holidays: seq<Holiday>, day: int)
    requires forall i, j :: 0 <= i < j < |holidays| && HolidayDay(holidays[i]) == day ==> HolidayDay(holidays[j]) != day
    ensures FirstHoliday(holidays, day) == LastHoliday(holidays, day)
  {
    var f := FirstHoliday(holidays, day);
    var l := LastHoliday(holidays, day);
    if f.Some? {
      var i :| 0 <= i < |holidays| && holidays[i] == f.value && HolidayDay(f.value) == day
               && forall j :: 0 <= j < i ==> HolidayDay(holidays[j]) != day;
      var k :| 0 <= k < |holidays| && holidays[k] == l.value && HolidayDay(l.value) == day
               && forall j :: k < j < |holidays| ==> HolidayDay(holidays[j]) != day;
      assert i == k;
    }
  }

  /** Two holidays on one day: the first-match and last-match lookups used
      by different views pick different records. */
  lemma FirstAndLastDisagree(a: Holiday, b: Holiday)
    requires a != b && HolidayDay(a) == HolidayDay(b)
    ensures FirstHoliday([a, b], HolidayDay(a)) == Some(a)
    ensures LastHoliday([a, b], HolidayDay(a)) == Some(b)
  {
    assert [a, b][1..] == [b];
    assert [a, b][..1] == [a];
  }

  predicate SortedByStart(s: seq<Session>) {
    forall i, j :: 0 <= i < j < |s| ==> s[i].start <= s[j].start
  }

  /** `[...s].sort((a, b) => a.start - b.start)`: a sorted copy; the input
      value is untouched. */
  function SortByStart(s: seq<Session>): (r: seq<Session>)
    ensures SortedByStart(r)
    ensures multiset(r) == multiset(s)
    ensures |r| == |s|
  {
    if s == [] then []
    else
      assert s == [s[0]] + s[1..];
      Insert(s[0], SortByStart(s[1..]))
  }

  /** Places `x` before the first element that does not start earlier. */
  function Insert(x: Session, sorted: seq<Session>): (r: seq<Session>)
    requires SortedByStart(sorted)
    ensures SortedByStart(r)
    ensures multiset(r) == multiset(sorted) + multiset{x}
    ensures |r| == |sorted| + 1
  {
    if sorted == [] || x.start <= sorted[0].start then [x] + sorted
    else
      var rest := Insert(x, sorted[1..]);
      InsertStep(x, sorted, rest);
      [sorted[0]] + rest
  }

  lemma InsertStep(x: Session, sorted: seq<Session>, rest: seq<Session>)
    requires SortedByStart(sorted) && sorted != [] && sorted[0].start < x.start
    requires SortedByStart(rest) && multiset(rest) == multiset(sorted[1..]) + multiset{x}
    ensures SortedByStart([sorted[0]] + rest)
    ensures multiset([sorted[0]] + rest) == multiset(sorted) + multiset{x}
  {
    assert sorted == [sorted[0]] + sorted[1..];
    forall y | y in rest ensures sorted[0].start <= y.start {
      assert y in multiset(rest);
      if y != x {
        assert y in multiset(sorted[1..]);
      }
    }
    var r := [sorted[0]] + rest;
    forall i, j | 0 <= i < j < |r| ensures r[i].start <= r[j].start {
      assert r[j] == rest[j - 1];
      if i > 0 {
        assert r[i] == rest[i - 1];
      } else {
        assert rest[j - 1] in rest;
      }
    }
  }
}
