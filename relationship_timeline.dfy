/**
  The journal's main component as a state machine: the event collection, the
  draft in the form and the index of the event being edited, with the
  handlers that change them. Clock readings, the confirmation dialog and the
  parsed import file are parameters of the handlers.
 */
module Timeline {
  import opened Wrappers
  import opened Strings
  import opened EventUtils

  /** The message the import handler shows. */
  datatype Alert = ImportSuccess | ImportError

  /**
    What reading and parsing the chosen file produced. The elements of a
    parsed array are taken as event records, whatever their scores.
   */
  datatype ImportFile =
    | NoFile
    | Unparseable
    | NotAnArray
    | EventArray(items: seq<Event>)

  /** The empty form: no description, score 0, today's day, day granularity. */
  function BlankDraft(nowIso: string): (r: Draft)
    ensures r.description == "" && r.score == 0 && !r.monthOnly
    ensures r.date <= nowIso && 'T' !in r.date
    ensures |r.date| < |nowIso| ==> nowIso[|r.date|] == 'T'
  {
    Draft("", 0, TodayFromIso(nowIso), false)
  }

  /** `s.filter((_, i) => i !== index)`: every event except the one at `index`. */
  function FilterOutIndex(s: seq<Event>, index: nat): (r: seq<Event>)
    ensures index < |s| ==> r == s[..index] + s[index + 1..]
    ensures index >= |s| ==> r == s
  {
    if s == [] then []
    else
      var n := |s| - 1;
      FilterOutIndex(s[..n], index) + (if n == index then [] else [s[n]])
  }

  /** Every score of the collection lies in [-8, 8]. */
  predicate AllScoresInRange(s: seq<Event>)
  {
    forall i :: 0 <= i < |s| ==> InScoreRange(s[i].score)
  }

  lemma {:induction false} AllScoresInRangePermutation(a: seq<Event>, b: seq<Event>)
    requires multiset(a) == multiset(b) && AllScoresInRange(a)
    ensures AllScoresInRange(b)
  {
    forall i | 0 <= i < |b|
      ensures InScoreRange(b[i].score)
    {
      assert b[i] in multiset(b);
      assert b[i] in a;
    }
  }

  /** Writing slot `i` swaps one occurrence of the old event for the new one. */
  lemma {:induction false} UpdateSlotMultiset(s: seq<Event>, i: nat, x: Event)
    requires i < |s|
    ensures multiset(s[i := x]) == multiset(s) - multiset{s[i]} + multiset{x}
  {
    assert s == s[..i] + [s[i]] + s[i + 1..];
    assert s[i := x] == s[..i] + [x] + s[i + 1..];
  }

  // ---------------------------------------------------------------------
  // Pure derivations inside the component

  /** The value the date input shows: the month when month-only, else the day. */
  function DateInputValue(d: Draft): (r: string)
    ensures r <= d.date
    ensures !d.monthOnly ==> r == d.date
    ensures d.monthOnly ==> |r| == if |d.date| < 7 then |d.date| else 7
  {
    DisplayDate(d.date, d.monthOnly)
  }

  /** The draft after the date input reports `value`: a month is stored as its first day. */
  function DraftWithDateInput(d: Draft, value: string): (r: Draft)
    ensures r.description == d.description && r.score == d.score && r.monthOnly == d.monthOnly
    ensures d.monthOnly ==> value <= r.date && r.date[|value|..] == "-01"
    ensures !d.monthOnly ==> r.date == value
  {
    d.(date := if d.monthOnly then value + "-01" else value)
  }

  /** What the user picks in the date input is what the input then shows. */
  lemma DateInputRoundTrip(d: Draft, value: string)
    requires d.monthOnly ==> |value| == 7
    ensures DateInputValue(DraftWithDateInput(d, value)) == value
  {
    if d.monthOnly {
      assert (value + "-01")[..7] == value;
    }
  }

  /**
    A month picked in month-only mode is stored as the first day of that
    month, and an event built from the draft displays that month.
   */
  lemma MonthInputPinsFirstDay(d: Draft, month: string, events: seq<Event>, now: int)
    requires d.monthOnly && CalendarMonth(month)
    ensures CalendarDate(DraftWithDateInput(d, month).date)
    ensures DraftWithDateInput(d, month).date == month + "-01"
    ensures CreateEventObject(DraftWithDateInput(d, month), None, events, now).displayDate == month
  {
    var date := month + "-01";
    assert date[..4] == month[..4] && date[5..7] == month[5..];
    assert date[8..] == "01";
    assert date[..7] == month;
    var first := date[8..];
    assert first[..1] == "0" && first[..|first| - 1] == "0" && first[|first| - 1] == '1';
  }

  /** The score shown in the event list: `+` before positive scores, then the number. */
  function ScoreLabel(score: int): (r: string)
    ensures r != []
    ensures r[0] == '+' <==> score > 0
    ensures r[0] == '-' <==> score < 0
  {
    (if score > 0 then "+" else "") + IntToString(score)
  }

  /** The list label and `formatScore` agree on every score. */
  lemma ScoreLabelIsFormatScore(score: int)
    ensures ScoreLabel(score) == FormatScore(score)
  {
    if score <= 0 {
      assert "" + IntToString(score) == IntToString(score);
    }
  }

  /** The component's own copy of the colour bands. */
  function InlineScoreColor(score: int): (r: string)
    ensures r in Palette
  {
    if score > 4 then "#10b981"
    else if score > 0 then "#84cc16"
    else if score == 0 then "#6b7280"
    else if score > -4 then "#f59e0b"
    else "#ef4444"
  }

  /** The component's copy of the colour bands is the library's. */
  lemma InlineScoreColorAgrees(score: int)
    ensures InlineScoreColor(score) == ScoreColor(score)
  {
  }

  // ---------------------------------------------------------------------
  // Stale edit index

  /**
    Deleting the event being edited when it is the last one leaves the edit
    index one past the end of the collection.
   */
  lemma DeleteLastStrandsEditIndex(s: seq<Event>, index: nat)
    requires index == |s| - 1
    ensures |FilterOutIndex(s, index)| == index
  {
  }

  /**
    Deleting an event before the one being edited shifts the collection: the
    unchanged edit index then designates the event after the one being edited.
   */
  lemma DeleteBeforeEditShiftsTarget(s: seq<Event>, deleted: nat, editing: nat)
    requires deleted < editing < |s|
    ensures FilterOutIndex(s, deleted)[editing - 1] == s[editing]
    ensures editing + 1 < |s| ==> FilterOutIndex(s, deleted)[editing] == s[editing + 1]
  {
  }

  // ---------------------------------------------------------------------
  // The component state

  class RelationshipTimeline {
    var events: seq<Event>
    var currentEvent: Draft
    var editingIndex: Option<nat>

    /** The first render: no events, an empty form dated today, nothing being edited. */
    constructor (nowIso: string)
      ensures events == [] && currentEvent == BlankDraft(nowIso) && editingIndex == None
    {
      events := [];
      currentEvent := BlankDraft(nowIso);
      editingIndex := None;
    }

    /** The event being edited, if any, is still in the collection. */
    predicate EditTargetInRange()
      reads this
    {
      editingIndex.Some? ==> editingIndex.value < |events|
    }

    /**
      `handleSubmit`: build the event from the draft (a fresh id `now` when
      adding, the edited event's id when editing), add it or write it over
      the edited slot, re-sort, and clear the form and the edit index.
     */
    method HandleSubmit(now: int, nowIso: string)
      requires EditTargetInRange()
      modifies this
      ensures var newEvent := CreateEventObject(old(currentEvent), old(editingIndex), old(events), now);
        && (old(editingIndex).None? ==>
              && newEvent.id == now
              && events == SortByDate(old(events) + [newEvent])
              && |events| == |old(events)| + 1
              && multiset(events) == multiset(old(events)) + multiset{newEvent})
        && (old(editingIndex).Some? ==>
              && newEvent.id == old(events)[old(editingIndex).value].id
              && events == SortByDate(old(events)[old(editingIndex).value := newEvent])
              && |events| == |old(events)|
              && multiset(events) ==
                   multiset(old(events)) - multiset{old(events)[old(editingIndex).value]} + multiset{newEvent})
      ensures SortedByDate(events)
      ensures AllScoresInRange(old(events)) && InScoreRange(old(currentEvent).score) ==> AllScoresInRange(events)
      ensures currentEvent == BlankDraft(nowIso) && editingIndex == None
    {
      var newEvent := CreateEventObject(currentEvent, editingIndex, events, now);
      var updated: seq<Event>;
      if editingIndex.Some? {
        updated := events[editingIndex.value := newEvent];
        UpdateSlotMultiset(events, editingIndex.value, newEvent);
        editingIndex := None;
      } else {
        updated := events + [newEvent];
      }
      assert AllScoresInRange(events) && InScoreRange(newEvent.score) ==> AllScoresInRange(updated);
      SortByDatePermutes(updated);
      SortByDateSorted(updated);
      if AllScoresInRange(updated) {
        AllScoresInRangePermutation(updated, SortByDate(updated));
      }
      events := SortByDate(updated);
      currentEvent := BlankDraft(nowIso);
    }

    /** `handleEdit`: load event `index` into the form and remember its index. */
    method HandleEdit(index: nat)
      requires index < |events|
      modifies this
      ensures events == old(events)
      ensures currentEvent == DraftOf(events[index]) && editingIndex == Some(index)
    {
      currentEvent := DraftOf(events[index]);
      editingIndex := Some(index);
    }

    /** `handleCancel`: clear the form and leave edit mode; the events stay as they are. */
    method HandleCancel(nowIso: string)
      modifies this
      ensures currentEvent == BlankDraft(nowIso) && editingIndex == None
      ensures events == old(events)
    {
      currentEvent := BlankDraft(nowIso);
      editingIndex := None;
    }

    /**
      `handleDelete`: when the user confirms, drop the event at `index`,
      keeping the others in their order. The edit index is left as it was.
     */
    method HandleDelete(index: nat, confirmed: bool)
      modifies this
      ensures events == if confirmed then FilterOutIndex(old(events), index) else old(events)
      ensures confirmed && index < |old(events)| ==> |events| == |old(events)| - 1
      ensures SortedByDate(old(events)) ==> SortedByDate(events)
      ensures currentEvent == old(currentEvent) && editingIndex == old(editingIndex)
    {
      if confirmed {
        if index < |events| && SortedByDate(events) {
          SortedByDateSubsequence(events, index);
        }
        events := FilterOutIndex(events, index);
      }
    }

    /** The `onChange` of the date input. */
    method HandleDateInput(value: string)
      modifies this
      ensures currentEvent == DraftWithDateInput(old(currentEvent), value)
      ensures events == old(events) && editingIndex == old(editingIndex)
    {
      currentEvent := DraftWithDateInput(currentEvent, value);
    }

    /**
      The `onload` step of `importData`: a parsed array replaces the events,
      sorted by date and without any check of its elements; a file that does
      not parse, or whose root is not an array, leaves them alone and reports
      an error. Neither the form nor the edit index is touched.
     */
    method ImportData(file: ImportFile) returns (alert: Option<Alert>)
      modifies this
      ensures file.EventArray? ==>
        && events == SortByDate(file.items)
        && SortedByDate(events)
        && multiset(events) == multiset(file.items)
        && alert == Some(ImportSuccess)
      ensures !file.EventArray? ==> events == old(events)
      ensures (file.Unparseable? || file.NotAnArray?) ==> alert == Some(ImportError)
      ensures file.NoFile? ==> alert == None
      ensures currentEvent == old(currentEvent) && editingIndex == old(editingIndex)
    {
      match file
      case NoFile =>
        alert := None;
      case Unparseable =>
        alert := Some(ImportError);
      case NotAnArray =>
        alert := Some(ImportError);
      case EventArray(items) =>
        SortByDateSorted(items);
        SortByDatePermutes(items);
        events := SortByDate(items);
        alert := Some(ImportSuccess);
    }
  }

  // ---------------------------------------------------------------------
  // Scenarios

  /** Editing the only event and then deleting it leaves an edit index no submit can use. */
  method EditThenDeleteLastEvent(a: Event, nowIso: string) returns (t: RelationshipTimeline)
    ensures t.events == [] && t.editingIndex == Some(0)
    ensures !t.EditTargetInRange()
  {
    t := new RelationshipTimeline(nowIso);
    var alert := t.ImportData(EventArray([a]));
    assert t.events == [a];
    t.HandleEdit(0);
    t.HandleDelete(0, true);
    assert t.events == [] && t.editingIndex == Some(0);
    assert !t.EditTargetInRange();
  }

  /** An imported event with score 9 is accepted, though the import check rejects it. */
  method ImportOutOfRangeScore(a: Event, nowIso: string) returns (t: RelationshipTimeline, alert: Option<Alert>)
    requires a.score == 9
    ensures alert == Some(ImportSuccess) && t.events == [a]
    ensures ValidateImportedData(EventsToJson(t.events)) == Returned(false)
  {
    t := new RelationshipTimeline(nowIso);
    alert := t.ImportData(EventArray([a]));
    assert alert == Some(ImportSuccess) && t.events == [a];
    ExportedEventsValidate([a]);
    assert !InScoreRange([a][0].score);
    assert ValidateImportedData(EventsToJson([a])) == Returned(false);
  }
}
