/**
  The pure transform library of the relationship journal: the colour and the
  label of a satisfaction score, the chronological sort, the construction of
  an event record on the create and edit paths, the export file name and the
  shape check for imported JSON.
 */
module EventUtils {
  import opened Wrappers
  import opened Strings

  /** A logged relationship event, as the journal stores it. */
  datatype Event = Event(
    id: int,
    description: string,
    score: int,
    date: string,
    monthOnly: bool,
    displayDate: string)

  /** The form fields the user authors: what an event is built from. */
  datatype Draft = Draft(description: string, score: int, date: string, monthOnly: bool)

  /** The form fields of a stored event. */
  function DraftOf(e: Event): Draft
  {
    Draft(e.description, e.score, e.date, e.monthOnly)
  }

  const MinScore: int := -8
  const MaxScore: int := 8

  predicate InScoreRange(score: int)
  {
    MinScore <= score <= MaxScore
  }

  // ---------------------------------------------------------------------
  // Score colour

  const StrongPositive: string := "#10b981"
  const MildPositive: string := "#84cc16"
  const Neutral: string := "#6b7280"
  const MildNegative: string := "#f59e0b"
  const StrongNegative: string := "#ef4444"

  /** The five colours, from the most negative band to the most positive. */
  const Palette: seq<string> := [StrongNegative, MildNegative, Neutral, MildPositive, StrongPositive]

  /** `getScoreColor`: the colour of the band a score falls in. */
  function ScoreColor(score: int): (r: string)
    ensures r in Palette
    ensures r == StrongPositive <==> score > 4
    ensures r == MildPositive <==> 1 <= score <= 4
    ensures r == Neutral <==> score == 0
    ensures r == MildNegative <==> -3 <= score <= -1
    ensures r == StrongNegative <==> score <= -4
  {
    if score > 4 then StrongPositive
    else if score > 0 then MildPositive
    else if score == 0 then Neutral
    else if score > -4 then MildNegative
    else StrongNegative
  }

  /** Position of a colour in the palette (0 for the most negative band). */
  function ColorRank(color: string): (k: nat)
    requires color in Palette
    ensures k < |Palette| && Palette[k] == color
  {
    if color == StrongNegative then 0
    else if color == MildNegative then 1
    else if color == Neutral then 2
    else if color == MildPositive then 3
    else 4
  }

  /** The bands are ordered: a larger score never falls in a lower band. */
  lemma ScoreColorMonotone(a: int, b: int)
    requires a <= b
    ensures ColorRank(ScoreColor(a)) <= ColorRank(ScoreColor(b))
  {
  }

  // ---------------------------------------------------------------------
  // Score label

  /** `formatScore`: positive scores carry an explicit `+`, the others their natural form. */
  function FormatScore(score: int): (r: string)
    ensures r != []
    ensures r[0] == '+' <==> score > 0
    ensures r[0] == '-' <==> score < 0
    ensures score == 0 ==> r == "0"
    ensures score != 0 ==> |r| >= 2 && r[1] != '0'
  {
    if score > 0 then "+" + IntToString(score) else IntToString(score)
  }

  /** The label reads back as the score it was made from. */
  lemma FormatScoreRoundTrip(score: int)
    ensures ParseSigned(FormatScore(score)) == Some(score)
  {
    var r := FormatScore(score);
    IntToStringRoundTrip(score);
    if score > 0 {
      NatDigitsRoundTrip(score);
      assert r[1..] == NatDigits(score);
    }
  }

  // ---------------------------------------------------------------------
  // Dates

  /**
    A string of the shape `YYYY-MM-DD`: four, two and two digits joined by
    dashes. The month and day fields are not range-checked here.
   */
  predicate DigitShapedDate(s: string)
  {
    && |s| == 10 && s[4] == '-' && s[7] == '-'
    && AllDigits(s[..4]) && AllDigits(s[5..7]) && AllDigits(s[8..])
  }

  /** A string of the shape `YYYY-MM`. */
  predicate DigitShapedMonth(s: string)
  {
    |s| == 7 && s[4] == '-' && AllDigits(s[..4]) && AllDigits(s[5..])
  }

  /** Leap years of the proleptic Gregorian calendar, which `Date` uses. */
  predicate LeapYear(year: nat)
  {
    year % 4 == 0 && (year % 100 != 0 || year % 400 == 0)
  }

  function DaysInMonth(year: nat, month: nat): (n: nat)
    requires 1 <= month <= 12
    ensures 28 <= n <= 31
    ensures n == 29 <==> month == 2 && LeapYear(year)
  {
    if month == 2 then (if LeapYear(year) then 29 else 28)
    else if month == 4 || month == 6 || month == 9 || month == 11 then 30
    else 31
  }

  /** A month a month input can report: `YYYY-MM` with the month in 1..12. */
  predicate CalendarMonth(s: string)
  {
    DigitShapedMonth(s) && 1 <= DigitsValue(s[5..]) <= 12
  }

  /** A day that exists in the calendar, written `YYYY-MM-DD`: the dates `new Date` reads as valid. */
  predicate CalendarDate(s: string)
  {
    && DigitShapedDate(s)
    && 1 <= DigitsValue(s[5..7]) <= 12
    && 1 <= DigitsValue(s[8..]) <= DaysInMonth(DigitsValue(s[..4]), DigitsValue(s[5..7]))
  }

  /** Year, month and day of a digit-shaped date as one number that orders dates chronologically. */
  function DateKey(s: string): nat
    requires DigitShapedDate(s)
  {
    DigitsValue(s[..4]) * 10000 + DigitsValue(s[5..7]) * 100 + DigitsValue(s[8..])
  }

  lemma TwoDigitsBelowHundred(s: string)
    requires |s| == 2 && AllDigits(s)
    ensures DigitsValue(s) < 100
  {
    var p := s[..1];
    assert p[..0] == [] && p[0] == s[0];
    assert DigitsValue(p) == DigitValue(s[0]);
    assert s[..|s| - 1] == p;
  }

  /**
    Two equal-length digit strings compare lexicographically as their
    values compare, and are equal exactly when their values are.
   */
  lemma DigitFieldOrder(s: string, t: string)
    requires AllDigits(s) && AllDigits(t) && |s| == |t|
    ensures LexLe(s, t) <==> DigitsValue(s) <= DigitsValue(t)
    ensures s == t <==> DigitsValue(s) == DigitsValue(t)
  {
    LexLeDigits(s, t);
    if DigitsValue(s) == DigitsValue(t) {
      DigitsValueInjective(s, t);
    }
  }

  /**
    The model compares dates as strings; on digit-shaped dates, and so on
    every calendar date, that is (year, month, day) order, the order in
    which `new Date` places the days.
   */
  lemma {:induction false} ChronologicalOrder(a: string, b: string)
    requires DigitShapedDate(a) && DigitShapedDate(b)
    ensures LexLe(a, b) <==> DateKey(a) <= DateKey(b)
  {
    var ya, ma, da := a[..4], a[5..7], a[8..];
    var yb, mb, db := b[..4], b[5..7], b[8..];
    assert a == ya + ([a[4]] + (ma + ([a[7]] + da)));
    assert b == yb + ([b[4]] + (mb + ([b[7]] + db)));
    LexLeAppend(ya, [a[4]] + (ma + ([a[7]] + da)), yb, [b[4]] + (mb + ([b[7]] + db)));
    LexLeAppend([a[4]], ma + ([a[7]] + da), [b[4]], mb + ([b[7]] + db));
    LexLeAppend(ma, [a[7]] + da, mb, [b[7]] + db);
    LexLeAppend([a[7]], da, [b[7]], db);
    DigitFieldOrder(ya, yb);
    DigitFieldOrder(ma, mb);
    DigitFieldOrder(da, db);
    TwoDigitsBelowHundred(ma);
    TwoDigitsBelowHundred(mb);
    TwoDigitsBelowHundred(da);
    TwoDigitsBelowHundred(db);
  }

  // ---------------------------------------------------------------------
  // Chronological sort

  /** Non-decreasing order of dates. */
  predicate SortedByDate(s: seq<Event>)
  {
    forall i, j :: 0 <= i < j < |s| ==> LexLe(s[i].date, s[j].date)
  }

  /** Every event of `s` is dated on or after `d`. */
  predicate AllOnOrAfter(d: string, s: seq<Event>)
  {
    forall i :: 0 <= i < |s| ==> LexLe(d, s[i].date)
  }

  /** Puts `e` in front of the first event it is dated on or before. */
  function InsertByDate(e: Event, s: seq<Event>): (r: seq<Event>)
    ensures |r| == |s| + 1
    ensures e in r
  {
    if s == [] || LexLe(e.date, s[0].date) then [e] + s
    else [s[0]] + InsertByDate(e, s[1..])
  }

  /**
    `sortEventsByDate`: a new sequence in chronological order. Events of one
    date keep their input order, as a stable sort leaves them.
   */
  function SortByDate(s: seq<Event>): (r: seq<Event>)
    ensures |r| == |s|
  {
    if s == [] then [] else InsertByDate(s[0], SortByDate(s[1..]))
  }

  lemma {:induction false} InsertByDatePermutes(e: Event, s: seq<Event>)
    ensures multiset(InsertByDate(e, s)) == multiset(s) + multiset{e}
  {
    if s != [] && !LexLe(e.date, s[0].date) {
      InsertByDatePermutes(e, s[1..]);
      assert s == [s[0]] + s[1..];
    }
  }

  lemma {:induction false} InsertByDateKeepsLowerBound(d: string, e: Event, s: seq<Event>)
    requires AllOnOrAfter(d, s) && LexLe(d, e.date)
    ensures AllOnOrAfter(d, InsertByDate(e, s))
  {
    if s != [] && !LexLe(e.date, s[0].date) {
      InsertByDateKeepsLowerBound(d, e, s[1..]);
    }
  }

  lemma {:induction false} InsertByDateSorted(e: Event, s: seq<Event>)
    requires SortedByDate(s)
    ensures SortedByDate(InsertByDate(e, s))
  {
    if s == [] {
    } else if LexLe(e.date, s[0].date) {
      forall j | 0 <= j < |s|
        ensures LexLe(e.date, s[j].date)
      {
        if j > 0 {
          LexLeTransitive(e.date, s[0].date, s[j].date);
        }
      }
    } else {
      var rest := InsertByDate(e, s[1..]);
      InsertByDateSorted(e, s[1..]);
      LexLeTotal(e.date, s[0].date);
      InsertByDateKeepsLowerBound(s[0].date, e, s[1..]);
      assert InsertByDate(e, s) == [s[0]] + rest;
    }
  }

  /** The sort returns a rearrangement of its input: same events, same multiplicities. */
  lemma {:induction false} SortByDatePermutes(s: seq<Event>)
    ensures multiset(SortByDate(s)) == multiset(s)
  {
    if s != [] {
      SortByDatePermutes(s[1..]);
      InsertByDatePermutes(s[0], SortByDate(s[1..]));
      assert s == [s[0]] + s[1..];
    }
  }

  /** The sort returns its events in chronological order. */
  lemma {:induction false} SortByDateSorted(s: seq<Event>)
    ensures SortedByDate(SortByDate(s))
  {
    if s != [] {
      SortByDateSorted(s[1..]);
      InsertByDateSorted(s[0], SortByDate(s[1..]));
    }
  }

  /** An already chronological sequence comes back unchanged. */
  lemma {:induction false} SortByDateFixesSorted(s: seq<Event>)
    requires SortedByDate(s)
    ensures SortByDate(s) == s
  {
    if s != [] {
      assert SortedByDate(s[1..]);
      SortByDateFixesSorted(s[1..]);
      assert s == [s[0]] + s[1..];
    }
  }

  /** Sorting twice is sorting once. */
  lemma SortByDateIdempotent(s: seq<Event>)
    ensures SortByDate(SortByDate(s)) == SortByDate(s)
  {
    SortByDateSorted(s);
    SortByDateFixesSorted(SortByDate(s));
  }

  /** The events of `s` dated `d`, in their order in `s`. */
  function DatedOn(s: seq<Event>, d: string): seq<Event>
  {
    if s == [] then [] else (if s[0].date == d then [s[0]] else []) + DatedOn(s[1..], d)
  }

  lemma DatedOnCons(x: Event, t: seq<Event>, d: string)
    ensures DatedOn([x] + t, d) == (if x.date == d then [x] else []) + DatedOn(t, d)
  {
    assert ([x] + t)[1..] == t;
  }

  /** Putting `x` in front of both sides keeps the equation when `x` and `e` are not both dated `d`. */
  lemma DatedOnPrepend(x: Event, e: Event, t: seq<Event>, u: seq<Event>, d: string)
    requires !(x.date == d && e.date == d)
    requires DatedOn(u, d) == (if e.date == d then [e] else []) + DatedOn(t, d)
    ensures DatedOn([x] + u, d) == (if e.date == d then [e] else []) + DatedOn([x] + t, d)
  {
    DatedOnCons(x, u, d);
    DatedOnCons(x, t, d);
  }

  lemma {:induction false} InsertByDateDatedOn(e: Event, s: seq<Event>, d: string)
    ensures DatedOn(InsertByDate(e, s), d) == (if e.date == d then [e] else []) + DatedOn(s, d)
  {
    if s == [] || LexLe(e.date, s[0].date) {
      DatedOnCons(e, s, d);
    } else {
      var rest := InsertByDate(e, s[1..]);
      InsertByDateDatedOn(e, s[1..], d);
      LexLeReflexive(e.date);
      DatedOnPrepend(s[0], e, s[1..], rest, d);
      assert s == [s[0]] + s[1..];
    }
  }

  /** Events of one date come out in the order they went in: the sort is stable. */
  lemma {:induction false} SortByDateStable(s: seq<Event>, d: string)
    ensures DatedOn(SortByDate(s), d) == DatedOn(s, d)
  {
    if s != [] {
      SortByDateStable(s[1..], d);
      InsertByDateDatedOn(s[0], SortByDate(s[1..]), d);
    }
  }

  /** Removing events keeps the rest in chronological order. */
  lemma SortedByDateSubsequence(s: seq<Event>, i: nat)
    requires SortedByDate(s) && i < |s|
    ensures SortedByDate(s[..i] + s[i + 1..])
  {
    var r := s[..i] + s[i + 1..];
    forall a, b | 0 <= a < b < |r|
      ensures LexLe(r[a].date, r[b].date)
    {
      var a', b' := if a < i then a else a + 1, if b < i then b else b + 1;
      assert r[a] == s[a'] && r[b] == s[b'];
    }
  }

  // ---------------------------------------------------------------------
  // Event construction

  /** `date.substring(0, 7)` when the event is month-only, else the date itself. */
  function DisplayDate(date: string, monthOnly: bool): (r: string)
    ensures r <= date
    ensures monthOnly ==> |r| == if |date| < 7 then |date| else 7
    ensures !monthOnly ==> r == date
  {
    if monthOnly && |date| >= 7 then date[..7] else date
  }

  /** The display date of a month-only, digit-shaped day is its month. */
  lemma DisplayDateOfDay(date: string)
    requires DigitShapedDate(date)
    ensures DigitShapedMonth(DisplayDate(date, true))
    ensures DisplayDate(date, true) + date[7..] == date
    ensures CalendarDate(date) ==> CalendarMonth(DisplayDate(date, true))
  {
    var m := DisplayDate(date, true);
    assert m[..4] == date[..4] && m[5..] == date[5..7];
  }

  /**
    `createEventObject`: the draft's fields, the id of the event being edited
    (or the fresh clock value `now` when adding) and the derived display date.
   */
  function CreateEventObject(current: Draft, editingIndex: Option<nat>, existing: seq<Event>, now: int): (r: Event)
    requires editingIndex.Some? ==> editingIndex.value < |existing|
    ensures DraftOf(r) == current
    ensures r.id == if editingIndex.Some? then existing[editingIndex.value].id else now
    ensures r.displayDate == DisplayDate(current.date, current.monthOnly)
  {
    Event(
      if editingIndex.Some? then existing[editingIndex.value].id else now,
      current.description,
      current.score,
      current.date,
      current.monthOnly,
      DisplayDate(current.date, current.monthOnly))
  }

  /** An event whose display date is consistent is rebuilt unchanged from its own draft. */
  lemma CreateEventObjectRebuilds(existing: seq<Event>, i: nat, now: int)
    requires i < |existing|
    requires existing[i].displayDate == DisplayDate(existing[i].date, existing[i].monthOnly)
    ensures CreateEventObject(DraftOf(existing[i]), Some(i), existing, now) == existing[i]
  {
  }

  // ---------------------------------------------------------------------
  // Export file name

  /** `iso.split('T')[0]`: the day part of a `toISOString()` timestamp. */
  function TodayFromIso(iso: string): (r: string)
    ensures r <= iso && 'T' !in r
    ensures |r| < |iso| ==> iso[|r|] == 'T'
  {
    BeforeFirst(iso, 'T')
  }

  const ExportPrefix: string := "relationship-timeline-"
  const ExportSuffix: string := ".json"

  /** The suggested name of the exported file, for the timestamp `iso` of the export. */
  function ExportFileName(iso: string): (r: string)
    ensures ExportPrefix <= r
    ensures |r| == |ExportPrefix| + |TodayFromIso(iso)| + |ExportSuffix|
    ensures r[|r| - |ExportSuffix|..] == ExportSuffix
    ensures r[|ExportPrefix|..|r| - |ExportSuffix|] == TodayFromIso(iso)
  {
    ExportPrefix + TodayFromIso(iso) + ExportSuffix
  }

  /** For a `YYYY-MM-DDTHH:MM:SS.sssZ` timestamp the file name carries exactly its date. */
  lemma ExportFileNameOfTimestamp(iso: string)
    requires |iso| > 10 && DigitShapedDate(iso[..10]) && iso[10] == 'T'
    ensures ExportFileName(iso) == ExportPrefix + iso[..10] + ExportSuffix
  {
    var r := TodayFromIso(iso);
    var day := iso[..10];
    forall k | 0 <= k < 10
      ensures day[k] != 'T'
    {
      if k < 4 {
        assert day[..4][k] == day[k];
      } else if 4 < k < 7 {
        assert day[5..7][k - 5] == day[k];
      } else if k > 7 {
        assert day[8..][k - 8] == day[k];
      }
    }
    assert forall k :: 0 <= k < 10 ==> iso[k] == day[k];
    assert r[..] == iso[..|r|];
    assert |r| == 10;
  }

  // ---------------------------------------------------------------------
  // Import validation

  /** A value `JSON.parse` can produce. Numbers are the reals a JSON number denotes. */
  datatype Json =
    | JNull
    | JBool(b: bool)
    | JNumber(n: real)
    | JString(s: string)
    | JArray(items: seq<Json>)
    | JObject(fields: map<string, Json>)

  /** How a JavaScript predicate call ends: with a boolean, or by throwing a `TypeError`. */
  datatype Outcome = Returned(value: bool) | ThrewTypeError

  /**
    `x.hasOwnProperty(...)` throws: on `null`, and on an object whose own
    `hasOwnProperty` property (a parsed value, never a function) shadows the method.
   */
  predicate OwnPropertyCallThrows(x: Json)
  {
    x.JNull? || (x.JObject? && "hasOwnProperty" in x.fields)
  }

  /** An element the import check accepts: the four keys, and a number in [-8, 8] as score. */
  predicate IsImportableEvent(x: Json)
  {
    && x.JObject?
    && "hasOwnProperty" !in x.fields
    && "id" in x.fields && "description" in x.fields && "score" in x.fields && "date" in x.fields
    && x.fields["score"].JNumber?
    && MinScore as real <= x.fields["score"].n <= MaxScore as real
  }

  /** The callback of `validateImportedData` on one element, evaluated left to right with short-circuiting. */
  function CheckImportedEvent(x: Json): (r: Outcome)
    ensures r == ThrewTypeError <==> OwnPropertyCallThrows(x)
    ensures r == Returned(true) <==> IsImportableEvent(x)
  {
    match x
    case JNull => ThrewTypeError
    case JObject(fields) =>
      if "hasOwnProperty" in fields then ThrewTypeError
      else Returned(
        && "id" in fields && "description" in fields && "score" in fields && "date" in fields
        && fields["score"].JNumber?
        && fields["score"].n >= MinScore as real
        && fields["score"].n <= MaxScore as real)
    case _ => Returned(false)
  }

  /** `Array.prototype.every` with that callback: stops at the first element that does not pass. */
  function EveryImportable(items: seq<Json>): (r: Outcome)
    ensures r == Returned(true) <==> forall i :: 0 <= i < |items| ==> IsImportableEvent(items[i])
    ensures r == ThrewTypeError <==>
      exists k :: 0 <= k < |items| && OwnPropertyCallThrows(items[k]) &&
        forall i :: 0 <= i < k ==> IsImportableEvent(items[i])
  {
    if items == [] then Returned(true)
    else
      match CheckImportedEvent(items[0])
      case Returned(true) => EveryImportable(items[1..])
      case other => other
  }

  /** `validateImportedData`: an array every element of which is an importable event. */
  function ValidateImportedData(data: Json): (r: Outcome)
    ensures !data.JArray? ==> r == Returned(false)
    ensures r == Returned(true) <==>
      data.JArray? && forall i :: 0 <= i < |data.items| ==> IsImportableEvent(data.items[i])
    ensures r == ThrewTypeError <==>
      data.JArray? &&
      exists k :: 0 <= k < |data.items| && OwnPropertyCallThrows(data.items[k]) &&
        forall i :: 0 <= i < k ==> IsImportableEvent(data.items[i])
  {
    if data.JArray? then EveryImportable(data.items) else Returned(false)
  }

  /** An event as `JSON.stringify` writes it, read back by `JSON.parse`. */
  function EventToJson(e: Event): Json
  {
    JObject(map[
      "description" := JString(e.description),
      "score" := JNumber(e.score as real),
      "date" := JString(e.date),
      "monthOnly" := JBool(e.monthOnly),
      "id" := JNumber(e.id as real),
      "displayDate" := JString(e.displayDate)])
  }

  function EventsToJson(events: seq<Event>): (j: Json)
    ensures j.JArray? && |j.items| == |events|
    ensures forall i :: 0 <= i < |events| ==> j.items[i] == EventToJson(events[i])
  {
    JArray(seq(|events|, i requires 0 <= i < |events| => EventToJson(events[i])))
  }

  /**
    An exported collection passes the import check exactly when every score
    lies in [-8, 8]; it never makes the check throw.
   */
  lemma ExportedEventsValidate(events: seq<Event>)
    ensures ValidateImportedData(EventsToJson(events)) ==
      Returned(forall i :: 0 <= i < |events| ==> InScoreRange(events[i].score))
  {
    var j := EventsToJson(events);
    forall i | 0 <= i < |events|
      ensures !OwnPropertyCallThrows(j.items[i])
      ensures IsImportableEvent(j.items[i]) <==> InScoreRange(events[i].score)
    {
      ExportedEventChecks(events[i]);
    }
    var allInRange := forall i :: 0 <= i < |events| ==> InScoreRange(events[i].score);
    var r := ValidateImportedData(j);
    assert r != ThrewTypeError;
    assert r == Returned(true) <==> allInRange;
  }

  /** One exported event never makes the check throw, and passes it exactly when its score is in range. */
  lemma ExportedEventChecks(e: Event)
    ensures !OwnPropertyCallThrows(EventToJson(e))
    ensures IsImportableEvent(EventToJson(e)) <==> InScoreRange(e.score)
  {
    var fields := EventToJson(e).fields;
    assert "hasOwnProperty" !in fields;
    assert fields["score"] == JNumber(e.score as real);
  }
}
