/** The `Map`s the month and week views build with `forEach` loops
    (CalendarMonthView.jsx and CalendarWeekView.jsx contain the same code):
    sessions grouped by the day they start on, and holidays by their day. */
module DayBuckets {
  import opened Wrappers
  import opened LocalTime
  import opened Seqs
  import opened Schedule

  /** `sessionsByDate.get(key(day)) || []`. */
  function SessionsFor(byDate: map<int, seq<Session>>, day: int): seq<Session> {
    if day in byDate then byDate[day] else []
  }

  /** `holidaysByDate.get(key(day)) || null`. */
  function HolidayFor(byDate: map<int, Holiday>, day: int): Option<Holiday> {
    if day in byDate then Some(byDate[day]) else None
  }

  /** `byDate` holds, for every day, exactly the sessions of `seen` that
      start on it, and no empty bucket. */
  ghost predicate Grouped(byDate: map<int, seq<Session>>, seen: seq<Session>) {
    && (forall d :: d in byDate ==> byDate[d] != [])
    && (forall d :: SessionsFor(byDate, d) == SessionsOn(seen, d))
  }

  /** For each session: take the day's bucket (a new empty one if missing)
      and push the session onto it. Every day's bucket is exactly the
      sessions starting on that day, in input order, and only days with
      sessions get a bucket. */
  method GroupSessionsByDate(sessions: seq<Session>) returns (byDate: map<int, seq<Session>>)
    ensures forall d :: d in byDate <==> exists s :: s in sessions && StartDay(s) == d
    ensures forall d :: SessionsFor(byDate, d) == SessionsOn(sessions, d)
  {
    byDate := map[];
    var i := 0;
    while i < |sessions|
      invariant 0 <= i <= |sessions|
      invariant Grouped(byDate, sessions[..i])
    {
      var s := sessions[i];
      var key := StartDay(s);
      var bucket := SessionsFor(byDate, key);
      GroupStep(sessions, i, byDate);
      byDate := byDate[key := bucket + [s]];
      i := i + 1;
    }
    assert sessions[..i] == sessions;
    GroupedMeaning(sessions, byDate);
  }

  /** What `Grouped` says about the input: a day has a bucket exactly when
      some session starts on it, and the bucket is that day's sessions. */
  lemma GroupedMeaning(sessions: seq<Session>, byDate: map<int, seq<Session>>)
    requires Grouped(byDate, sessions)
    ensures forall d :: d in byDate <==> exists s :: s in sessions && StartDay(s) == d
    ensures forall d :: SessionsFor(byDate, d) == SessionsOn(sessions, d)
  {
    forall d ensures d in byDate <==> exists s :: s in sessions && StartDay(s) == d {
      BucketPresent(sessions, byDate, d);
    }
  }

  /** With no empty bucket stored, a day has a bucket exactly when some
      session starts on it. */
  lemma BucketPresent(sessions: seq<Session>, byDate: map<int, seq<Session>>, d: int)
    requires forall e :: e in byDate ==> byDate[e] != []
    requires SessionsFor(byDate, d) == SessionsOn(sessions, d)
    ensures d in byDate <==> exists s :: s in sessions && StartDay(s) == d
  {
    if d in byDate {
      assert byDate[d][0] in SessionsOn(sessions, d);
    }
    if exists s :: s in sessions && StartDay(s) == d {
      var s :| s in sessions && StartDay(s) == d;
      assert s in SessionsOn(sessions, d);
    }
  }

  /** Pushing one more session onto its day's bucket keeps every bucket
      equal to the sessions of that day seen so far. */
  lemma GroupStep(sessions: seq<Session>, i: int, before: map<int, seq<Session>>)
    requires 0 <= i < |sessions| && Grouped(before, sessions[..i])
    ensures Grouped(before[StartDay(sessions[i]) := SessionsFor(before, StartDay(sessions[i])) + [sessions[i]]], sessions[..i + 1])
  {
    assert sessions[..i + 1] == sessions[..i] + [sessions[i]];
    BucketsStep(sessions[..i], sessions[i], before);
  }

  lemma BucketsStep(seen: seq<Session>, s: Session, before: map<int, seq<Session>>)
    requires forall d :: SessionsFor(before, d) == SessionsOn(seen, d)
    ensures forall d :: SessionsFor(before[StartDay(s) := SessionsFor(before, StartDay(s)) + [s]], d) == SessionsOn(seen + [s], d)
  {
    var after := before[StartDay(s) := SessionsFor(before, StartDay(s)) + [s]];
    forall d ensures SessionsFor(after, d) == SessionsOn(seen + [s], d) {
      AppendOnDay(seen, s, d);
      if d == StartDay(s) {
        assert SessionsFor(after, d) == SessionsFor(before, d) + [s];
      } else {
        assert SessionsFor(after, d) == SessionsFor(before, d);
      }
    }
  }

  /** One more session changes only its own day's list, by appending it. */
  lemma AppendOnDay(seen: seq<Session>, s: Session, d: int)
    ensures SessionsOn(seen + [s], d) == if d == StartDay(s) then SessionsOn(seen, d) + [s] else SessionsOn(seen, d)
  {
    FilterAppend(seen, [s], StartsOn(d));
    assert [s][1..] == [];
  }

  /** For each holiday in order: `set(key(h.date), h)`, so a later holiday
      of the same day replaces an earlier one. */
  method IndexHolidaysByDate(holidays: seq<Holiday>) returns (byDate: map<int, Holiday>)
    ensures forall d :: HolidayFor(byDate, d) == LastHoliday(holidays, d)
  {
    byDate := map[];
    var i := 0;
    while i < |holidays|
      invariant 0 <= i <= |holidays|
      invariant forall d :: HolidayFor(byDate, d) == LastHoliday(holidays[..i], d)
    {
      var h := holidays[i];
      byDate := byDate[HolidayDay(h) := h];
      assert holidays[..i + 1][..i] == holidays[..i];
      i := i + 1;
    }
    assert holidays[..i] == holidays;
  }

  /** Grouping is a partition of the input: a session lies in the bucket of
      its own start day with its full multiplicity, and in no other bucket. */
  lemma BucketsPartition(sessions: seq<Session>, byDate: map<int, seq<Session>>, s: Session, d: int)
    requires forall e :: SessionsFor(byDate, e) == SessionsOn(sessions, e)
    ensures multiset(SessionsFor(byDate, StartDay(s)))[s] == multiset(sessions)[s]
    ensures d != StartDay(s) ==> s !in SessionsFor(byDate, d)
  {
    assert SessionsFor(byDate, StartDay(s)) == Filter(sessions, StartsOn(StartDay(s)));
  }
}
