/** The course editor (src/pages/CourseForm.jsx): the slug derived from the
    course name, the comma-separated tag field, and the form's field updates,
    validation and request body. */
module CourseForm {
  import opened Wrappers
  import opened Seqs
  import opened Text
  import opened Feedback

  predicate IsUpper(c: char) {
    'A' <= c <= 'Z'
  }

  function LowerChar(c: char): (r: char)
    ensures !IsUpper(r)
    ensures IsUpper(c) ==> r as int == c as int + 32
    ensures !IsUpper(c) ==> r == c
  {
    if IsUpper(c) then (c as int + 32) as char else c
  }

  /** `toLowerCase` on ASCII letters; every other character is kept. */
  function Lower(s: string): (r: string)
    ensures |r| == |s|
    ensures forall i :: 0 <= i < |s| ==> r[i] == LowerChar(s[i])
    ensures forall i :: 0 <= i < |r| ==> !IsUpper(r[i])
  {
    seq(|s|, i requires 0 <= i < |s| => LowerChar(s[i]))
  }

  /** Text without upper-case ASCII letters is its own lower case. */
  lemma LowerOfLower(s: string)
    requires forall i :: 0 <= i < |s| ==> !IsUpper(s[i])
    ensures Lower(s) == s
  {
  }

  /** The characters `[a-z0-9]` a slug keeps. */
  predicate IsSlugChar(c: char) {
    'a' <= c <= 'z' || '0' <= c <= '9'
  }

  /** The characters that may appear in a slug. */
  predicate SlugAlphabet(s: string) {
    forall i :: 0 <= i < |s| ==> IsSlugChar(s[i]) || s[i] == '-'
  }

  predicate NoDoubleHyphen(s: string) {
    forall i :: 0 <= i < |s| - 1 ==> s[i] != '-' || s[i + 1] != '-'
  }

  /** What `generateSlug` promises of its result: `[a-z0-9-]` only, no two
      hyphens in a row and none at either end. */
  predicate IsSlug(s: string) {
    SlugAlphabet(s) && NoDoubleHyphen(s) && (s == [] || (s[0] != '-' && s[|s| - 1] != '-'))
  }

  /** The `[a-z0-9]` characters of `s`, in order. */
  function Kept(s: string): string
    decreases |s|
  {
    if s == [] then []
    else (if IsSlugChar(s[0]) then [s[0]] else []) + Kept(s[1..])
  }

  /** Drops the characters outside `[a-z0-9]` at the front, and only those. */
  function DropRun(s: string): (r: string)
    ensures |r| <= |s| && r == s[|s| - |r|..]
    ensures forall i :: 0 <= i < |s| - |r| ==> !IsSlugChar(s[i])
    ensures r == [] || IsSlugChar(r[0])
    ensures (s == [] || IsSlugChar(s[0])) ==> r == s
    ensures Kept(r) == Kept(s)
    decreases |s|
  {
    if s != [] && !IsSlugChar(s[0]) then DropRun(s[1..]) else s
  }

  /** `replace(/[^a-z0-9]+/g, '-')`: each maximal run of characters outside
      `[a-z0-9]` becomes one hyphen; the `[a-z0-9]` characters are kept in
      order (`CollapseOfClean` states how they are grouped). */
  function Collapse(s: string): (r: string)
    ensures SlugAlphabet(r) && NoDoubleHyphen(r)
    ensures r == [] <==> s == []
    ensures s != [] && IsSlugChar(s[0]) ==> r[0] == s[0]
    ensures s != [] && !IsSlugChar(s[0]) ==> r[0] == '-'
    ensures Kept(r) == Kept(s)
    decreases |s|
  {
    if s == [] then []
    else if IsSlugChar(s[0]) then
      var rest := Collapse(s[1..]);
      assert ([s[0]] + rest)[1..] == rest;
      [s[0]] + rest
    else
      var rest := Collapse(DropRun(s[1..]));
      assert rest == [] || rest[0] != '-';
      assert ("-" + rest)[1..] == rest;
      "-" + rest
  }

  /** `replace(/^-|-$/g, '')`: the input is the result with one hyphen put
      back at each end where the input has one. */
  function StripEdges(s: string): (r: string)
    ensures var front := s != [] && s[0] == '-';
      var back := |s| >= 2 && s[|s| - 1] == '-';
      s == (if front then "-" else "") + r + (if back then "-" else "")
    ensures SlugAlphabet(s) && NoDoubleHyphen(s) ==> IsSlug(r)
    ensures IsSlug(s) ==> r == s
  {
    var a := if s != [] && s[0] == '-' then s[1..] else s;
    var r := if a != [] && a[|a| - 1] == '-' then a[..|a| - 1] else a;
    assert s == (if s != [] && s[0] == '-' then "-" else "") + a;
    assert a == r + (if a != [] && a[|a| - 1] == '-' then "-" else "");
    r
  }

  /** The longest prefix of `s` made of `[a-z0-9]` characters. */
  function Run(s: string): (w: string)
    ensures |w| <= |s| && w == s[..|w|]
    ensures forall i :: 0 <= i < |w| ==> IsSlugChar(w[i])
    ensures |w| == |s| || !IsSlugChar(s[|w|])
    ensures s != [] && IsSlugChar(s[0]) ==> |w| >= 1
  {
    if s != [] && IsSlugChar(s[0]) then [s[0]] + Run(s[1..]) else []
  }

  /** The words of `s`: its maximal runs of `[a-z0-9]` characters, in order.
      Put together they are exactly the `[a-z0-9]` characters of `s`. */
  function Words(s: string): (ws: seq<string>)
    ensures forall k :: 0 <= k < |ws| ==> ws[k] != [] && forall i :: 0 <= i < |ws[k]| ==> IsSlugChar(ws[k][i])
    ensures Concat(ws) == Kept(s)
    decreases |s|
  {
    if s == [] then []
    else if !IsSlugChar(s[0]) then Words(s[1..])
    else
      var w := Run(s);
      var rest := Words(s[|w|..]);
      assert s == w + s[|w|..];
      KeptWord(w, s[|w|..]);
      assert ([w] + rest)[1..] == rest;
      [w] + rest
  }

  /** `ws.join('')`. */
  function Concat(ws: seq<string>): string {
    if ws == [] then [] else ws[0] + Concat(ws[1..])
  }

  lemma {:induction false} KeptWord(w: string, t: string)
    requires forall i :: 0 <= i < |w| ==> IsSlugChar(w[i])
    ensures Kept(w + t) == w + Kept(t)
    decreases |w|
  {
    if w == [] {
      assert w + t == t;
    } else {
      assert (w + t)[1..] == w[1..] + t;
      KeptWord(w[1..], t);
      HeadTail(w, Kept(t));
    }
  }

  /** `generateSlug(name)`: the words of the lower-cased name joined by
      single hyphens. */
  function GenerateSlug(name: string): (slug: string)
    ensures IsSlug(slug)
    ensures slug == Join(Words(Lower(name)), "-")
  {
    SlugOfWords(Lower(name));
    StripEdges(Collapse(Lower(name)))
  }

  /** Collapsing a word in front collapses nothing of it. */
  lemma {:induction false} CollapseWord(w: string, t: string)
    requires forall i :: 0 <= i < |w| ==> IsSlugChar(w[i])
    ensures Collapse(w + t) == w + Collapse(t)
    decreases |w|
  {
    if w == [] {
      assert w + t == t;
    } else {
      HeadTail(w, t);
      CollapseCons(w[0], w[1..] + t);
      CollapseWord(w[1..], t);
      HeadTail(w, Collapse(t));
    }
  }

  lemma HeadTail<T>(w: seq<T>, x: seq<T>)
    requires w != []
    ensures w + x == [w[0]] + (w[1..] + x)
  {
  }

  lemma CollapseCons(c: char, t: string)
    requires IsSlugChar(c)
    ensures Collapse([c] + t) == [c] + Collapse(t)
  {
    assert ([c] + t)[1..] == t;
  }

  /** Characters outside `[a-z0-9]` in front are no part of any word. */
  lemma {:induction false} WordsSkipJunk(s: string)
    ensures Words(s) == Words(DropRun(s))
    decreases |s|
  {
    if s != [] && !IsSlugChar(s[0]) {
      WordsSkipJunk(s[1..]);
    }
  }

  /** `replace(/-$/, '')`. */
  function StripEnd(s: string): string {
    if s != [] && s[|s| - 1] == '-' then s[..|s| - 1] else s
  }

  /** Text that starts with a word collapses to its words joined by single
      hyphens, plus one trailing hyphen when it ends outside a word. */
  lemma {:induction false} CollapseOfClean(s: string)
    requires s == [] || IsSlugChar(s[0])
    ensures StripEnd(Collapse(s)) == Join(Words(s), "-")
    ensures s != [] ==> Words(s) != []
    decreases |s|
  {
    if s != [] {
      var w := Run(s);
      var t := s[|w|..];
      CollapseFirstWord(s);
      if t == [] {
        LastWord(w);
      } else {
        var u := DropRun(t);
        CollapseJunk(t);
        CollapseOfClean(u);
        NextWord(w, Collapse(u), Words(u));
      }
    }
  }

  /** The last word ends the slug. */
  lemma LastWord(w: string)
    requires w != [] && IsSlugChar(w[|w| - 1])
    ensures StripEnd(w + Collapse([])) == Join([w] + Words([]), "-")
  {
    assert w + Collapse([]) == w;
    assert [w] + Words([]) == [w];
  }

  /** A word, the hyphen for the run after it, then the rest. */
  lemma NextWord(w: string, rest: string, words: seq<string>)
    requires w != [] && IsSlugChar(w[|w| - 1])
    requires StripEnd(rest) == Join(words, "-") && (rest == [] <==> words == [])
    ensures StripEnd(w + ("-" + rest)) == Join([w] + words, "-")
  {
    assert w + ("-" + rest) == (w + "-") + rest;
    if rest == [] {
      assert (w + "-") + rest == w + "-";
      assert (w + "-")[..|w + "-"| - 1] == w;
    } else {
      StripEndAppend(w + "-", rest);
      JoinCons(w, words);
    }
  }

  /** A text that starts with a word: the word, then the rest. */
  lemma CollapseFirstWord(s: string)
    requires s != [] && IsSlugChar(s[0])
    ensures Collapse(s) == Run(s) + Collapse(s[|Run(s)|..])
    ensures Words(s) == [Run(s)] + Words(s[|Run(s)|..])
    ensures s[|Run(s)|..] == [] || !IsSlugChar(s[|Run(s)|..][0])
  {
    var w := Run(s);
    assert s == w + s[|w|..];
    CollapseWord(w, s[|w|..]);
  }

  /** A text that starts outside a word: one hyphen, then what follows the
      run. */
  lemma CollapseJunk(t: string)
    requires t != [] && !IsSlugChar(t[0])
    ensures Collapse(t) == "-" + Collapse(DropRun(t))
    ensures Words(t) == Words(DropRun(t))
    ensures DropRun(t) == [] || IsSlugChar(DropRun(t)[0])
    ensures |DropRun(t)| < |t|
  {
    WordsSkipJunk(t);
  }

  lemma StripEndAppend(x: string, c: string)
    requires c != []
    ensures StripEnd(x + c) == x + StripEnd(c)
  {
    if c[|c| - 1] == '-' {
      assert (x + c)[..|x + c| - 1] == x + c[..|c| - 1];
    }
  }

  lemma JoinCons(w: string, ws: seq<string>)
    requires ws != []
    ensures Join([w] + ws, "-") == w + "-" + Join(ws, "-")
  {
    assert ([w] + ws)[1..] == ws;
  }

  /** The slug pipeline after lower-casing yields the words joined by single
      hyphens, whatever the text starts with. */
  lemma SlugOfWords(s: string)
    ensures StripEdges(Collapse(s)) == Join(Words(s), "-")
  {
    if s == [] || IsSlugChar(s[0]) {
      CollapseOfClean(s);
      StripClean(Collapse(s));
    } else {
      var u := DropRun(s);
      CollapseJunk(s);
      CollapseOfClean(u);
      StripClean(Collapse(u));
      StripFront(Collapse(u));
    }
  }

  /** Without a leading hyphen only the trailing one is stripped. */
  lemma StripClean(c: string)
    requires c == [] || c[0] != '-'
    ensures StripEdges(c) == StripEnd(c)
  {
  }

  /** A leading hyphen is stripped together with the trailing one. */
  lemma StripFront(c: string)
    requires c == [] || c[0] != '-'
    ensures StripEdges("-" + c) == StripEdges(c)
  {
    assert ("-" + c)[1..] == c;
  }

  /** Collapsing changes nothing in text that is already hyphen-separated
      `[a-z0-9]` runs. */
  lemma {:induction false} CollapseOfSlugText(s: string)
    requires SlugAlphabet(s) && NoDoubleHyphen(s)
    ensures Collapse(s) == s
    decreases |s|
  {
    if s != [] {
      if IsSlugChar(s[0]) {
        CollapseOfSlugText(s[1..]);
      } else {
        assert s[1..] == [] || IsSlugChar(s[1]);
        CollapseOfSlugText(s[1..]);
        assert "-" + s[1..] == s;
      }
    }
  }

  /** A slug is its own slug. */
  lemma SlugFixedPoint(s: string)
    requires IsSlug(s)
    ensures GenerateSlug(s) == s
  {
    LowerOfLower(s);
    CollapseOfSlugText(s);
  }

  /** `generateSlug` is idempotent. */
  lemma GenerateSlugIdempotent(name: string)
    ensures GenerateSlug(GenerateSlug(name)) == GenerateSlug(name)
  {
    SlugFixedPoint(GenerateSlug(name));
  }

  function NonEmpty(): string -> bool {
    (t: string) => t != []
  }

  function TrimAll(pieces: seq<string>): (r: seq<string>)
    ensures |r| == |pieces|
    ensures forall i :: 0 <= i < |r| ==> r[i] == Trim(pieces[i])
  {
    seq(|pieces|, i requires 0 <= i < |pieces| => Trim(pieces[i]))
  }

  /** A tag as the tag field produces it: non-empty, no surrounding white
      space, no comma. */
  predicate IsTag(t: string) {
    t != [] && Trim(t) == t && ',' !in t
  }

  /** `tags ? tags.split(',').map(t => t.trim()).filter(t => t) : []`. */
  function ParseTags(tags: string): (r: seq<string>)
    ensures forall k :: 0 <= k < |r| ==> IsTag(r[k])
    ensures tags == [] ==> r == []
    ensures tags != [] ==> IsSubsequence(r, TrimAll(Split(tags, ',')))
    ensures tags != [] ==> forall t :: t in r <==> t != [] && exists p :: p in Split(tags, ',') && Trim(p) == t
    ensures tags != [] ==> forall t :: multiset(r)[t] == if t != [] then multiset(TrimAll(Split(tags, ',')))[t] else 0
  {
    if tags == [] then []
    else
      var pieces := Split(tags, ',');
      TrimmedPiecesAreTags(pieces);
      TrimAllMembers(pieces);
      Filter(TrimAll(pieces), NonEmpty())
  }

  /** A trimmed piece is in `TrimAll(pieces)` exactly when some piece trims to it. */
  lemma TrimAllMembers(pieces: seq<string>)
    ensures forall t :: t in TrimAll(pieces) <==> exists p :: p in pieces && Trim(p) == t
  {
    var trimmed := TrimAll(pieces);
    forall t | t in trimmed ensures exists p :: p in pieces && Trim(p) == t {
      var j :| 0 <= j < |trimmed| && trimmed[j] == t;
      assert pieces[j] in pieces;
    }
    forall t | exists p :: p in pieces && Trim(p) == t ensures t in trimmed {
      var p :| p in pieces && Trim(p) == t;
      var j :| 0 <= j < |pieces| && pieces[j] == p;
      assert trimmed[j] == t;
    }
  }

  lemma TrimmedPiecesAreTags(pieces: seq<string>)
    requires forall k :: 0 <= k < |pieces| ==> ',' !in pieces[k]
    ensures forall t :: t in Filter(TrimAll(pieces), NonEmpty()) ==> IsTag(t)
  {
    var trimmed := TrimAll(pieces);
    forall t | t in Filter(trimmed, NonEmpty()) ensures IsTag(t) {
      var j :| 0 <= j < |trimmed| && trimmed[j] == t;
      TrimOfTrimmed(t);
      TrimKeepsOut(pieces[j], ',');
    }
  }

  lemma TrimKeepsOut(s: string, c: char)
    requires c !in s
    ensures c !in Trim(s)
  {
    var t := TrimStart(s);
    assert t == s[|s| - |t|..];
    assert c !in t;
    assert TrimEnd(t) == t[..|TrimEnd(t)|];
  }

  /** `tags.join(', ')`, how a loaded course fills the tag field. */
  function JoinTags(tags: seq<string>): string {
    Join(tags, ", ")
  }

  function Padded(tags: seq<string>): (r: seq<string>)
    ensures |r| == |tags|
    ensures forall i :: 0 <= i < |r| ==> r[i] == " " + tags[i]
  {
    seq(|tags|, i requires 0 <= i < |tags| => " " + tags[i])
  }

  lemma {:induction false} SplitWithoutSeparator(s: string, sep: char)
    requires sep !in s
    ensures Split(s, sep) == [s]
  {
    if s != [] {
      SplitWithoutSeparator(s[1..], sep);
      assert [s[0]] + s[1..] == s;
    }
  }

  /** Splitting joined tags on commas gives the tags back, all but the first
      with the space of the `", "` in front. */
  lemma {:induction false} SplitJoined(pre: string, tags: seq<string>)
    requires |tags| >= 1 && ',' !in pre
    requires forall k :: 0 <= k < |tags| ==> ',' !in tags[k]
    ensures Split(pre + Join(tags, ", "), ',') == [pre + tags[0]] + Padded(tags[1..])
    decreases |tags|
  {
    if |tags| == 1 {
      SplitWithoutSeparator(pre + tags[0], ',');
    } else {
      var rest := Join(tags[1..], ", ");
      assert pre + Join(tags, ", ") == (pre + tags[0]) + [','] + (" " + rest);
      SplitAfterPiece(pre + tags[0], ',', " " + rest);
      SplitJoined(" ", tags[1..]);
      assert tags[1..][1..] == tags[2..];
      assert Padded(tags[1..]) == [" " + tags[1]] + Padded(tags[2..]);
    }
  }

  /** Tags loaded from a course and saved again unchanged are sent as they
      were loaded. */
  lemma ParseTagsOfJoin(tags: seq<string>)
    requires forall k :: 0 <= k < |tags| ==> IsTag(tags[k])
    ensures ParseTags(JoinTags(tags)) == tags
  {
    if tags != [] {
      assert JoinTags(tags) != [] by {
        assert IsTag(tags[0]);
        JoinStartsWithFirst(tags);
      }
      SplitJoined([], tags);
      assert [] + JoinTags(tags) == JoinTags(tags) && [] + tags[0] == tags[0];
      TrimPadded(tags);
      FilterAll(tags, NonEmpty());
    }
  }

  /** Trimming the split pieces undoes the padding. */
  lemma TrimPadded(tags: seq<string>)
    requires |tags| >= 1
    requires forall k :: 0 <= k < |tags| ==> IsTag(tags[k])
    ensures TrimAll([tags[0]] + Padded(tags[1..])) == tags
  {
    var trimmed := TrimAll([tags[0]] + Padded(tags[1..]));
    forall k | 0 <= k < |tags| ensures trimmed[k] == tags[k] {
      assert IsTag(tags[k]);
      if k > 0 {
        TrimLeadingSpace(' ', tags[k]);
      }
    }
  }

  lemma JoinStartsWithFirst(tags: seq<string>)
    requires |tags| >= 1
    ensures tags[0] <= Join(tags, ", ")
  {
  }

  /** The editable fields of the course form (`formData`). */
  datatype CourseFields = CourseFields(
    name: string,
    slug: string,
    courseType: string,
    description: string,
    tags: string,
    isActive: bool,
    maxSeats: string,
    allowWaitlist: bool,
    autoApproveEnrollments: bool)

  const EmptyFields: CourseFields := CourseFields([], [], [], [], [], true, [], false, true)

  /** A course as the API returns it; `None` stands for a missing field. */
  datatype CourseRecord = CourseRecord(
    name: Option<string>,
    slug: Option<string>,
    courseType: Option<string>,
    description: Option<string>,
    tags: Option<seq<string>>,
    isActive: Option<bool>,
    maxSeats: Option<nat>,
    allowWaitlist: Option<bool>,
    autoApproveEnrollments: Option<bool>)

  /** `fetchCourse`: the record's fields with their defaults; a missing or
      zero seat limit shows as an empty field. */
  function FieldsOf(c: CourseRecord): (f: CourseFields)
    ensures f.name == OrElse(c.name, "") && f.slug == OrElse(c.slug, "")
    ensures f.courseType == OrElse(c.courseType, "") && f.description == OrElse(c.description, "")
    ensures f.tags == if c.tags.Some? && |c.tags.value| > 0 then JoinTags(c.tags.value) else ""
    ensures f.isActive == (c.isActive.None? || c.isActive.value)
    ensures f.allowWaitlist == (c.allowWaitlist.Some? && c.allowWaitlist.value)
    ensures f.autoApproveEnrollments == (c.autoApproveEnrollments.None? || c.autoApproveEnrollments.value)
    ensures f.maxSeats == [] <==> c.maxSeats.None? || c.maxSeats.value == 0
    ensures c.maxSeats.Some? && c.maxSeats.value != 0 ==> ParseInt(f.maxSeats) == Some(c.maxSeats.value as int)
  {
    var seats := if c.maxSeats.Some? && c.maxSeats.value != 0 then NatToString(c.maxSeats.value) else "";
    ParseIntOfNatToString(if c.maxSeats.Some? then c.maxSeats.value else 0);
    CourseFields(
      OrElse(c.name, ""),
      OrElse(c.slug, ""),
      OrElse(c.courseType, ""),
      OrElse(c.description, ""),
      if c.tags.Some? && |c.tags.value| > 0 then JoinTags(c.tags.value) else "",
      c.isActive.None? || c.isActive.value,
      seats,
      c.allowWaitlist.Some? && c.allowWaitlist.value,
      c.autoApproveEnrollments.None? || c.autoApproveEnrollments.value)
  }

  datatype TextField = Slug | CourseType | Description | Tags | MaxSeats
  datatype FlagField = IsActive | AllowWaitlist | AutoApproveEnrollments

  /** The request body; `maxSeats` is `None` for `null`, which is also what
      an unparsable number (`NaN`) is sent as. */
  datatype CourseData = CourseData(
    name: string,
    slug: string,
    courseType: string,
    description: string,
    tags: seq<string>,
    isActive: bool,
    maxSeats: Option<int>,
    allowWaitlist: bool,
    autoApproveEnrollments: bool)

  datatype CourseRequest = CreateCourse(data: CourseData) | UpdateCourse(id: string, data: CourseData)

  datatype Outcome = Outcome(request: Option<CourseRequest>, toast: Toast, navigates: bool)

  const NameRequired: string := "Course name is required"
  const TypeRequired: string := "Course type is required"
  const SlugRequired: string := "Course slug is required"
  const CourseUpdated: string := "Course updated successfully"
  const CourseCreated: string := "Course created successfully"
  const SaveFailed: string := "Failed to save course"

  /** `submitData`: trimmed text, a trimmed lower-case slug, parsed tags and
      seat limit. */
  function Payload(f: CourseFields): (d: CourseData)
    ensures d.name == Trim(f.name) && d.description == Trim(f.description)
    ensures d.slug == Lower(Trim(f.slug))
    ensures forall i :: 0 <= i < |d.slug| ==> !IsUpper(d.slug[i])
    ensures forall k :: 0 <= k < |d.tags| ==> IsTag(d.tags[k])
    ensures d.tags == ParseTags(f.tags)
    ensures d.maxSeats == if f.maxSeats == [] then None else ParseInt(f.maxSeats)
    ensures d.courseType == f.courseType && d.isActive == f.isActive
    ensures d.allowWaitlist == f.allowWaitlist && d.autoApproveEnrollments == f.autoApproveEnrollments
  {
    CourseData(
      Trim(f.name),
      Lower(Trim(f.slug)),
      f.courseType,
      Trim(f.description),
      ParseTags(f.tags),
      f.isActive,
      if f.maxSeats == [] then None else ParseInt(f.maxSeats),
      f.allowWaitlist,
      f.autoApproveEnrollments)
  }

  /** A course loaded and saved without edits keeps its tags, and its seat
      limit when it had one. */
  lemma LoadThenSaveKeeps(c: CourseRecord)
    requires c.tags.Some? ==> forall k :: 0 <= k < |c.tags.value| ==> IsTag(c.tags.value[k])
    ensures c.tags.Some? ==> Payload(FieldsOf(c)).tags == c.tags.value
    ensures c.maxSeats.Some? && c.maxSeats.value != 0 ==> Payload(FieldsOf(c)).maxSeats == Some(c.maxSeats.value as int)
    ensures c.maxSeats.None? || c.maxSeats.value == 0 ==> Payload(FieldsOf(c)).maxSeats.None?
  {
    if c.tags.Some? {
      ParseTagsOfJoin(c.tags.value);
    }
  }

  class Course {
    /** Whether an existing course is edited (an id is in the route). */
    const isEdit: bool
    var fields: CourseFields

    constructor(isEdit: bool)
      ensures this.isEdit == isEdit && fields == EmptyFields
    {
      this.isEdit := isEdit;
      fields := EmptyFields;
    }

    method Load(c: CourseRecord)
      modifies this
      ensures fields == FieldsOf(c)
    {
      fields := FieldsOf(c);
    }

    /** `handleChange` on the name input: in create mode the slug follows
        the name on every change; in edit mode it is left alone. */
    method ChangeName(value: string)
      modifies this
      ensures fields.name == value
      ensures fields.slug == if isEdit then old(fields.slug) else GenerateSlug(value)
      ensures !isEdit ==> IsSlug(fields.slug)
      ensures fields == old(fields).(name := value, slug := fields.slug)
    {
      fields := fields.(name := value);
      if !isEdit {
        fields := fields.(slug := GenerateSlug(value));
      }
    }

    /** `handleChange` on any other text input or select. */
    method ChangeText(field: TextField, value: string)
      modifies this
      ensures fields == match field
        case Slug => old(fields).(slug := value)
        case CourseType => old(fields).(courseType := value)
        case Description => old(fields).(description := value)
        case Tags => old(fields).(tags := value)
        case MaxSeats => old(fields).(maxSeats := value)
    {
      fields := match field
        case Slug => fields.(slug := value)
        case CourseType => fields.(courseType := value)
        case Description => fields.(description := value)
        case Tags => fields.(tags := value)
        case MaxSeats => fields.(maxSeats := value);
    }

    /** `handleChange` on a checkbox. */
    method ChangeFlag(field: FlagField, checked: bool)
      modifies this
      ensures fields == match field
        case IsActive => old(fields).(isActive := checked)
        case AllowWaitlist => old(fields).(allowWaitlist := checked)
        case AutoApproveEnrollments => old(fields).(autoApproveEnrollments := checked)
    {
      fields := match field
        case IsActive => fields.(isActive := checked)
        case AllowWaitlist => fields.(allowWaitlist := checked)
        case AutoApproveEnrollments => fields.(autoApproveEnrollments := checked);
    }

    /** `handleSubmit`: name, then type, then slug are checked, the first
        missing one stops the submit; otherwise `Payload` is sent. */
    method Submit(id: string, failure: Option<ApiError>) returns (o: Outcome)
      ensures IsBlank(fields.name) ==> o == Outcome(None, Failure(NameRequired), false)
      ensures !IsBlank(fields.name) && fields.courseType == [] ==> o == Outcome(None, Failure(TypeRequired), false)
      ensures !IsBlank(fields.name) && fields.courseType != [] && IsBlank(fields.slug) ==> o == Outcome(None, Failure(SlugRequired), false)
      ensures o.request.Some? <==> !IsBlank(fields.name) && fields.courseType != [] && !IsBlank(fields.slug)
      ensures o.request.Some? ==> o.request.value == if isEdit then UpdateCourse(id, Payload(fields)) else CreateCourse(Payload(fields))
      ensures o.request.Some? ==> o.request.value.data.name != [] && o.request.value.data.slug != []
      ensures o.navigates <==> o.request.Some? && failure.None?
      ensures o.request.Some? ==> o.toast == if failure.None? then Success(if isEdit then CourseUpdated else CourseCreated) else Failure(MessageOr(failure.value, SaveFailed))
    {
      if IsBlank(fields.name) {
        return Outcome(None, Failure(NameRequired), false);
      }
      if fields.courseType == [] {
        return Outcome(None, Failure(TypeRequired), false);
      }
      if IsBlank(fields.slug) {
        return Outcome(None, Failure(SlugRequired), false);
      }
      var data := Payload(fields);
      var request := if isEdit then UpdateCourse(id, data) else CreateCourse(data);
      if failure.None? {
        o := Outcome(Some(request), Success(if isEdit then CourseUpdated else CourseCreated), true);
      } else {
        o := Outcome(Some(request), Failure(MessageOr(failure.value, SaveFailed)), false);
      }
    }
  }
}
