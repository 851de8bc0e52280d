/** The dialog listing every session of one day
    (src/components/calendar/DaySessionsDialog.jsx), opened from the month
    grid's "+N more" button. */
module DaySessionsDialog {
  import opened Wrappers
  import opened Text
  import opened Schedule

  datatype BadgeColor = Yellow | Blue | Green | Gray | Red

  /** `getStatusBadgeColor`: the colour of a status badge. */
  function BadgeColorOf(status: string): (c: BadgeColor)
    ensures c == Yellow <==> status == "requested"
    ensures c == Blue <==> status == "accepted" || status == "scheduled"
    ensures c == Green <==> status == "ongoing"
    ensures c == Red <==> status == "rejected" || status == "cancelled"
    ensures c == Gray <==> status !in {"requested", "accepted", "scheduled", "ongoing", "rejected", "cancelled"}
  {
    if status == "requested" then Yellow
    else if status == "accepted" || status == "scheduled" then Blue
    else if status == "ongoing" then Green
    else if status == "rejected" || status == "cancelled" then Red
    else Gray
  }

  const EmptyDescription: string := "No sessions scheduled for this day"

  /** The dialog's description line for `n` sessions. */
  function Description(n: nat): string {
    if n == 0 then EmptyDescription
    else NatToString(n) + " session" + (if n == 1 then "" else "s") + " scheduled"
  }

  /** The description starts with the count, written so that `parseInt`
      reads it back. */
  lemma DescriptionStatesCount(n: nat)
    requires n > 0
    ensures ParseInt(Description(n)) == Some(n)
  {
    var digits := NatToString(n);
    var rest := " session" + (if n == 1 then "" else "s") + " scheduled";
    var d := Description(n);
    assert d == digits + rest;
    assert d[0] == digits[0] && IsDigit(d[0]);
    assert TrimStart(d) == d;
    assert SignStripped(d) == d;
    DigitPrefixStops(digits, rest);
  }

  /** The description says "sessions" exactly when the count is not one. */
  lemma DescriptionPlural(n: nat)
    requires n > 0
    ensures var d := Description(n); var k := |NatToString(n)|;
      |d| > k + 8 && (d[k + 8] == 's' <==> n != 1)
  {
    var digits := NatToString(n);
    var rest := " session" + (if n == 1 then "" else "s") + " scheduled";
    assert Description(n) == digits + rest;
    assert Description(n)[|digits| + 8] == rest[8];
  }

  /** What a reference line shows: nothing when the reference is absent or
      an empty id, the name of a populated object, the id itself; a
      populated object without a name is handed to the renderer as an object,
      which it cannot display. */
  datatype Line = NoLine | Shown(text: string) | ObjectChild

  function LineOf(p: Option<Party>): (l: Line)
    ensures l == NoLine <==> p.None? || p == Some(Id(""))
    ensures l.Shown? && p.value.Id? ==> l.text == p.value.value
    ensures l.Shown? && p.value.Populated? ==> p.value.name == Some(l.text) && l.text != ""
    ensures l == ObjectChild <==> p.Some? && p.value.Populated? && (p.value.name.None? || p.value.name.value == "")
  {
    match p
    case None => NoLine
    case Some(Id(v)) => if v == "" then NoLine else Shown(v)
    case Some(Populated(name)) => if name.Some? && name.value != "" then Shown(name.value) else ObjectChild
  }

  /** One session card. */
  datatype Card = Card(
    title: string,
    start: int,
    end: int,
    subject: Line,
    teacher: Line,
    student: Line,
    status: string,
    badge: BadgeColor)

  function CardOf(s: Session): (c: Card)
    ensures c.title == OrElse(s.title, "Session") && c.title != []
    ensures c.start == s.start && c.end == s.end && c.status == s.status
    ensures c.badge == BadgeColorOf(s.status)
    ensures c.subject == LineOf(s.subject) && c.teacher == LineOf(s.teacher) && c.student == LineOf(s.student)
  {
    Card(OrElse(s.title, "Session"), s.start, s.end,
      LineOf(s.subject), LineOf(s.teacher), LineOf(s.student), s.status, BadgeColorOf(s.status))
  }

  datatype DialogView = DialogView(description: string, cards: seq<Card>, emptyNotice: bool)

  /** The dialog body for the sessions it was given (`sessions || []`):
      one card per session in order of start time, or the empty notice. */
  function Render(sessions: Option<seq<Session>>): (v: DialogView)
    ensures var given := if sessions.Some? then sessions.value else [];
      |v.cards| == |given| && v.description == Description(|given|)
    ensures v.emptyNotice <==> v.cards == []
  {
    var sorted := SortByStart(if sessions.Some? then sessions.value else []);
    DialogView(Description(|sorted|), seq(|sorted|, i requires 0 <= i < |sorted| => CardOf(sorted[i])), sorted == [])
  }

  /** The cards are in order of start time and there is one card for each
      session given, as often as it was given. */
  lemma CardsInStartOrder(sessions: seq<Session>)
    ensures var cards := Render(Some(sessions)).cards;
      (forall i, j :: 0 <= i < j < |cards| ==> cards[i].start <= cards[j].start)
      && multiset(cards) == multiset(seq(|sessions|, i requires 0 <= i < |sessions| => CardOf(sessions[i])))
  {
    var sorted := SortByStart(sessions);
    var cards := Render(Some(sessions)).cards;
    assert forall i :: 0 <= i < |cards| ==> cards[i] == CardOf(sorted[i]);
    MapPreservesMultiset(sorted, sessions);
  }

  /** Rendering every element keeps multiset equality. */
  lemma {:induction false} MapPreservesMultiset(a: seq<Session>, b: seq<Session>)
    requires multiset(a) == multiset(b)
    ensures multiset(seq(|a|, i requires 0 <= i < |a| => CardOf(a[i])))
         == multiset(seq(|b|, i requires 0 <= i < |b| => CardOf(b[i])))
  {
    CardsMultiset(a);
    CardsMultiset(b);
    CardBagOfMultiset(a, b);
  }

  /** The multiset of cards of a sequence, computed element by element. */
  function CardBag(s: seq<Session>): multiset<Card> {
    if s == [] then multiset{} else multiset{CardOf(s[0])} + CardBag(s[1..])
  }

  lemma {:induction false} CardBagOfMultiset(a: seq<Session>, b: seq<Session>)
    requires multiset(a) == multiset(b)
    ensures CardBag(a) == CardBag(b)
    decreases |a|
  {
    if a != [] {
      var x := a[0];
      assert x in multiset(b);
      var k :| 0 <= k < |b| && b[k] == x;
      var b' := b[..k] + b[k + 1..];
      SameRest(a, b, k);
      CardBagOfMultiset(a[1..], b');
      CardBagRemove(b, k);
    }
  }

  /** Taking the same element out of two equal multisets leaves equal rests. */
  lemma SameRest<T>(a: seq<T>, b: seq<T>, k: int)
    requires multiset(a) == multiset(b)
    requires a != [] && 0 <= k < |b| && b[k] == a[0]
    ensures multiset(a[1..]) == multiset(b[..k] + b[k + 1..])
  {
    var x := a[0];
    var b' := b[..k] + b[k + 1..];
    assert b == b[..k] + [x] + b[k + 1..];
    assert a == [x] + a[1..];
    assert multiset(b) == multiset(b[..k]) + multiset{x} + multiset(b[k + 1..]);
    assert multiset(b') == multiset(b[..k]) + multiset(b[k + 1..]);
    assert multiset(a) == multiset{x} + multiset(a[1..]);
    assert multiset(a[1..]) == multiset(a) - multiset{x};
    assert multiset(b') == multiset(b) - multiset{x};
  }

  lemma {:induction false} CardBagRemove(b: seq<Session>, k: int)
    requires 0 <= k < |b|
    ensures CardBag(b) == multiset{CardOf(b[k])} + CardBag(b[..k] + b[k + 1..])
    decreases |b|
  {
    if k > 0 {
      var rest := b[1..];
      CardBagRemove(rest, k - 1);
      assert b[..k] + b[k + 1..] == [b[0]] + (rest[..k - 1] + rest[k..]);
    } else {
      assert b[..k] + b[k + 1..] == b[1..];
    }
  }

  lemma {:induction false} CardsMultiset(s: seq<Session>)
    ensures multiset(seq(|s|, i requires 0 <= i < |s| => CardOf(s[i]))) == CardBag(s)
  {
    var cards := seq(|s|, i requires 0 <= i < |s| => CardOf(s[i]));
    if s != [] {
      var rest := s[1..];
      CardsMultiset(rest);
      var restCards := seq(|rest|, i requires 0 <= i < |rest| => CardOf(rest[i]));
      assert cards == [CardOf(s[0])] + restCards;
    }
  }
}
