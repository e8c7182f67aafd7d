# Relationship timeline: a Dafny model of the event collection

The relationship journal records events in a couple's relationship. Each event has a description, a satisfaction score from -8 to +8 and a date. The date is either a specific day or a whole month ("month only"). This project models the journal's event-collection logic in Dafny and proves properties of it.

- `wrappers.dfy` (module `Wrappers`): the `Option` type, used where the JavaScript code has `null`.
- `strings.dfy` (module `Strings`): string operations the model is built from:
  - comparing strings by character code (`LexLe`). The source never compares strings: it compares `Date` objects built from the date strings. `LexLe` is the model's stand-in for that comparison (see below);
  - `Number.prototype.toString` on an integer below 10^21 in magnitude (`IntToString`), with a parser that reads it back;
  - `s.split(sep)[0]` (`BeforeFirst`).
- `event_utils.dfy` (module `EventUtils`): the pure transform library `src/utils/eventUtils.js`:
  - the score colour and the score label;
  - the chronological sort (a stable insertion sort);
  - building an event record on the add and edit paths;
  - the export file name;
  - the shape check of an imported JSON value. JSON is a datatype, and the check's result is `Returned(bool)` or `ThrewTypeError`.
- `relationship_timeline.dfy` (module `Timeline`): the state of the `RelationshipTimeline` component as the class `RelationshipTimeline`.
  - Its fields are `events`, `currentEvent` (the form draft) and `editingIndex`.
  - Its methods are the handlers: submit, edit, cancel, delete, the date input and the `onload` step of import.
  - The module also holds the pure derivations inside the component: the month input transform, the inline colour function and the list label.
- `event_utils_examples.dfy` (module `EventUtilsExamples`): the expected values of the library's unit tests, stated as lemmas about the model.

Modelling choices:
- Clock readings and the user's answer to the confirmation dialog are method parameters:
  - `Date.now()` is `now: int`;
  - `new Date().toISOString()` is `nowIso: string`;
  - `window.confirm` is `confirmed: bool`.
- Dates are strings, as in the source. The sort comparator `new Date(a.date) - new Date(b.date)` is modelled as character-code order on the date strings.
  - `EventUtils.ChronologicalOrder` proves that on digit-shaped `YYYY-MM-DD` strings (`DigitShapedDate`) this order is (year, month, day) order.
  - Calendar dates (`CalendarDate`: month 1..12, day within the month, Gregorian leap years) are read by `new Date` as valid days. They are digit-shaped, so on them the model's order is the order of the days the `Date` objects denote.
  - Other digit-shaped strings (`"2024-13-01"`, `"2024-02-30"`) are read as NaN or rolled over to a nearby day, depending on the engine. The model still orders them by their digits; see "## Left out".
  - `Array.prototype.sort` is stable (ECMAScript 2019 and later), so the model's sort is stable too. `EventUtils.SortByDateStable` proves this.
- The source sorts fresh copies in place (`[...events].sort`, `updatedEvents.sort`, `importedEvents.sort`). Nothing else sees those arrays, so the model sorts values (`SortByDate`).
- `handleSubmit` builds the event inline (lines 127-133 of the component). The construction is the same as `createEventObject`, and `HandleSubmit` uses `CreateEventObject`.
- `handleEdit` loads the whole stored event into the draft, including `id` and `displayDate`. Submit overwrites both fields, so the model's draft (`Draft`) holds only the four form fields.

Behaviour of the source that the model keeps as written:
- `importData` does not call `validateImportedData`. Any parsed JSON array becomes the event list, whatever its scores.
  - The model's `ImportData` takes the parsed array as a sequence of events and only sorts it.
  - `Timeline.ImportOutOfRangeScore` shows an event with score 9 accepted by the import and rejected by the import check.
- `validateImportedData` calls `hasOwnProperty` on each element. A `null` element, or an object with its own `hasOwnProperty` key, makes it throw a `TypeError` instead of returning false.
- `typeof score === 'number'` accepts any number. JSON numbers are reals in the model, so a score of 3.5 passes the check.
- `handleDelete` and `importData` leave `editingIndex` as it was.
  - After deleting the edited event (or any event before it), the index is out of range or names another event.
  - `handleSubmit` then reads `events[editingIndex]` with a stale index.
  - `HandleSubmit` requires `EditTargetInRange()`.
  - `Timeline.EditThenDeleteLastEvent` shows a reachable state that breaks that requirement.
  - `Timeline.DeleteLastStrandsEditIndex` and `Timeline.DeleteBeforeEditShiftsTarget` state the two ways the index goes stale.

## Model

| member | source | states |
|---|---|---|
| Strings.LexLe | src/utils/eventUtils.js:14 | the stand-in for the `Date` comparison of the sort: a prefix sorts before the longer string, and a string that sorts first never starts with a larger character |
| Strings.LexLeTotal | src/utils/eventUtils.js:14 | any two date strings are comparable, so the sort comparator is total |
| Strings.LexLeTransitive | src/utils/eventUtils.js:14 | the date comparison is transitive |
| Strings.LexLeAntisymmetric | src/utils/eventUtils.js:14 | two dates that each sort before or equal to the other are the same date |
| Strings.IntToString | src/utils/eventUtils.js:10 | the decimal rendering of a score is non-empty; it starts with `-` exactly for negative scores and is otherwise the digits without leading zeros |
| Strings.IntToStringRoundTrip | src/utils/eventUtils.js:10 | reading back the rendering of any integer gives that integer |
| Strings.BeforeFirst | src/utils/eventUtils.js:30 | `split(sep)[0]` is a prefix free of `sep`, and it ends where the string ends or at the first `sep` |
| EventUtils.ScoreColor | src/utils/eventUtils.js:1-7 | every score gets one of the five palette colours: green above 4, lime for 1..4, grey for 0, amber for -3..-1, red at or below -4 (each band stated as an if-and-only-if) |
| EventUtils.ScoreColorMonotone | src/utils/eventUtils.js:2-6 | the bands are ordered: a larger score never gets a colour of a lower band |
| EventUtils.FormatScore | src/utils/eventUtils.js:9-11 | the label is non-empty; it starts with `+` iff the score is positive and with `-` iff it is negative; 0 gives `"0"`, and no other score gets a leading zero after its sign |
| EventUtils.FormatScoreRoundTrip | src/utils/eventUtils.js:9-11 | the label reads back as the score it was made from, so different scores get different labels |
| EventUtils.ChronologicalOrder | src/utils/eventUtils.js:14 | for digit-shaped `YYYY-MM-DD` strings, and so for every calendar date, the string order used by the sort is (year, month, day) order |
| EventUtils.InsertByDate | src/utils/eventUtils.js:14 | one insertion step of the stable sort: the result is one longer and contains the inserted event |
| EventUtils.InsertByDatePermutes | src/utils/eventUtils.js:14 | the insertion step keeps every old event and adds exactly the inserted one (multiset) |
| EventUtils.SortByDate | src/utils/eventUtils.js:13-15 | `sortEventsByDate` returns a new list of the same length as its input |
| EventUtils.SortByDatePermutes | src/utils/eventUtils.js:13-15 | the sorted list has the same multiset of events as the input, so it is a permutation of it |
| EventUtils.SortByDateSorted | src/utils/eventUtils.js:13-15 | the sorted list is in non-decreasing date order |
| EventUtils.SortByDateFixesSorted | src/utils/eventUtils.js:13-15 | a list already in date order comes back unchanged |
| EventUtils.SortByDateIdempotent | src/utils/eventUtils.js:14 | sorting the sorted output again gives the same list |
| EventUtils.SortByDateStable | src/utils/eventUtils.js:14 | events sharing a date keep their relative order (the sort is stable) |
| EventUtils.SortedByDateSubsequence | src/components/RelationshipTimeline.jsx:159 | removing one event from a date-ordered list leaves it date-ordered |
| EventUtils.DisplayDate | src/utils/eventUtils.js:21-23 | the display date is a prefix of the date: the first 7 characters when month-only, the whole date otherwise |
| EventUtils.DisplayDateOfDay | src/utils/eventUtils.js:21-23 | a month-only day `YYYY-MM-DD` displays as its month `YYYY-MM`, and a calendar date as a calendar month |
| EventUtils.CreateEventObject | src/utils/eventUtils.js:17-25 | the record copies the four draft fields; its id is the edited event's id when editing and the fresh clock value otherwise; its display date is derived from date and month-only; the edited index must lie in the list |
| EventUtils.CreateEventObjectRebuilds | src/utils/eventUtils.js:17-25 | rebuilding a stored event from its own fields on the edit path gives back that event |
| EventUtils.TodayFromIso | src/utils/eventUtils.js:30 | today's date is the part of the timestamp before its first `T` (the whole string if it has none) |
| EventUtils.ExportFileName | src/utils/eventUtils.js:30 | the file name is `relationship-timeline-`, then the day part of the export timestamp, then `.json` |
| EventUtils.ExportFileNameOfTimestamp | src/utils/eventUtils.js:30 | for an ISO timestamp the export file name is `relationship-timeline-YYYY-MM-DD.json` with the timestamp's date |
| EventUtils.CheckImportedEvent | src/utils/eventUtils.js:43-51 | the per-element check throws exactly on `null` or on an object shadowing `hasOwnProperty`; it returns true exactly for an object with the keys id, description, score and date whose score is a number in [-8, 8] |
| EventUtils.EveryImportable | src/utils/eventUtils.js:43-51 | `every` returns true iff every element passes; it throws iff some element throws and all elements before it pass |
| EventUtils.ValidateImportedData | src/utils/eventUtils.js:38-52 | a non-array is rejected; an array is accepted iff every element is an importable event (so the empty array is accepted); it throws iff an element throws before any element fails |
| EventUtils.ExportedEventsValidate | src/utils/eventUtils.js:38-52 | an exported event list passes the import check exactly when all its scores lie in [-8, 8], and it never throws |
| EventUtilsExamples.ScoreColorExamples | src/utils/eventUtils.test.js:12-36 | the colour of each tested score |
| EventUtilsExamples.FormatScoreExamples | src/utils/eventUtils.test.js:38-52 | `+1`, `+8`, `0`, `-1`, `-8` |
| EventUtilsExamples.SortThree | src/utils/eventUtils.test.js:55-67 | three events with increasing dates, listed last-first-second, come out in date order |
| EventUtilsExamples.SortByDateExample | src/utils/eventUtils.test.js:55-67 | March, January, February sort to January, February, March |
| EventUtilsExamples.CreateEventObjectExamples | src/utils/eventUtils.test.js:93-150 | the fresh id, the preserved id and both display-date forms of the tests |
| EventUtilsExamples.ValidateImportedDataAccepts | src/utils/eventUtils.test.js:186-267 | the tested element with all six exported keys, four-key elements at the score boundaries 8 and -8 and the empty array are accepted, and so is a score of 3.5 |
| EventUtilsExamples.ValidateImportedDataRejectsScores | src/utils/eventUtils.test.js:220-248 | scores 9 and -9 and the string score `"5"` are rejected |
| EventUtilsExamples.ValidateImportedDataRejectsShapes | src/utils/eventUtils.test.js:202-218 | a missing `id`, `description`, `score` or `date`, an object root, a string root and `null` are rejected; a `null` element makes the check throw |
| Timeline.FilterOutIndex | src/components/RelationshipTimeline.jsx:159 | filtering out index i removes exactly element i, keeping the others in order; an index past the end removes nothing |
| Timeline.BlankDraft | src/components/RelationshipTimeline.jsx:92-97 | the empty form: no description, score 0, day granularity, dated with the part of the clock's ISO timestamp before its `T` |
| Timeline.DateInputValue | src/components/RelationshipTimeline.jsx:289 | the date input shows a prefix of the stored date: the date itself for a day, its first 7 characters in month-only mode (the whole date when it is shorter) |
| Timeline.DraftWithDateInput | src/components/RelationshipTimeline.jsx:290-296 | a picked value becomes the draft's date, followed by `-01` in month-only mode; the other fields stay |
| Timeline.DateInputRoundTrip | src/components/RelationshipTimeline.jsx:289-294 | the value picked in the date input (a 7-character month in month-only mode) is the value the input then shows |
| Timeline.MonthInputPinsFirstDay | src/components/RelationshipTimeline.jsx:289-294 | a picked calendar month `m` is stored as the calendar date `m-01`, and an event built from that draft displays `m` |
| Timeline.ScoreLabel | src/components/RelationshipTimeline.jsx:460 | the list label is non-empty and starts with `+` iff the score is positive, with `-` iff it is negative |
| Timeline.ScoreLabelIsFormatScore | src/components/RelationshipTimeline.jsx:460 | the list label equals `formatScore` on every score |
| Timeline.InlineScoreColor | src/components/RelationshipTimeline.jsx:217-223 | the component's own colour function always gives a palette colour |
| Timeline.InlineScoreColorAgrees | src/components/RelationshipTimeline.jsx:217-223 | the component's own colour function equals `getScoreColor` on every score |
| Timeline.DeleteLastStrandsEditIndex | src/components/RelationshipTimeline.jsx:157-161 | deleting the last event, while it is being edited, leaves an edit index equal to the new length |
| Timeline.DeleteBeforeEditShiftsTarget | src/components/RelationshipTimeline.jsx:157-161 | deleting an event before the edited one makes the unchanged edit index name the following event |
| Timeline.EditThenDeleteLastEvent | src/components/RelationshipTimeline.jsx:152-161 | importing one event, editing it and deleting it leaves no events and edit index 0, a state in which the edit target is out of range |
| Timeline.ImportOutOfRangeScore | src/components/RelationshipTimeline.jsx:190-192 | an event with score 9 is imported with a success alert, although the import check rejects the same list |
| Timeline.RelationshipTimeline.constructor | src/components/RelationshipTimeline.jsx:91-98 | initial state: no events, an empty draft dated today with score 0, not month-only, no edit index |
| Timeline.RelationshipTimeline.HandleSubmit | src/components/RelationshipTimeline.jsx:125-150 | add: the events become the sorted list plus the new event with a fresh id, one longer. Edit: the edited slot is replaced by the draft keeping its id, then sorted, same length. Always: date order, scores stay in range, blank draft, no edit index |
| Timeline.RelationshipTimeline.HandleEdit | src/components/RelationshipTimeline.jsx:152-155 | the draft becomes the chosen event's fields and the edit index its index; the events are unchanged |
| Timeline.RelationshipTimeline.HandleCancel | src/components/RelationshipTimeline.jsx:163-171 | blank draft dated today, no edit index, events unchanged |
| Timeline.RelationshipTimeline.HandleDelete | src/components/RelationshipTimeline.jsx:157-161 | confirmed: exactly the event at the index is removed (one fewer when in range) and date order is kept; not confirmed: nothing changes; draft and edit index untouched |
| Timeline.RelationshipTimeline.HandleDateInput | src/components/RelationshipTimeline.jsx:290-296 | the draft's date becomes the picked value, with `-01` appended in month-only mode; nothing else changes |
| Timeline.RelationshipTimeline.ImportData | src/components/RelationshipTimeline.jsx:184-199 | a parsed array replaces the events with its date-sorted permutation and reports success, without checking scores; an unparseable file or a non-array root leaves the events and reports an error; no file does nothing; draft and edit index untouched |

## Left out

- Rendering: the JSX markup, the chart configuration (`chartData`, line type), icons, styling and the English/Hungarian string table. These are presentation only.
- The `localStorage` effects that load and save events and language. This is persistence I/O. Loaded events are not re-sorted in the source, so date order holds only from the first submit or import onward.
- `JSON.stringify`, `JSON.parse`, `encodeURIComponent` and the data URI of the export. These are library calls. The model starts from an already-parsed JSON value (`Json`) and models only the export file name.
- `FileReader`, `alert`, `window.confirm`, `navigator.clipboard`, `setTimeout`, `window.print` and the download link. These are browser I/O. The file's parse result, the confirm answer and the clock values are parameters; the alert is the returned `Alert`.
- The millisecond arithmetic of `new Date(a.date) - new Date(b.date)`. It is floating point. The model compares date strings, which agrees with it on calendar dates (`ChronologicalOrder`).
- Date strings that are not calendar dates: digit-shaped strings outside the calendar (`"2024-13-01"`, `"2024-02-30"`) and strings of other shapes. Depending on the engine, `new Date` reads them as NaN or rolls them over to a nearby day. With NaN, the comparator returns NaN and the order `sort` produces depends on the engine. With a rolled-over day, the source may tie two strings that the model orders strictly. The model orders all of them by character code.
- The text, range and month-only checkbox setters of the form (lines 252, 267 and the checkbox). They replace one draft field and are not modelled. The browser's `required`/`min`/`max` checks on the inputs are also not modelled.
- Timeline.RelationshipTimeline.ImportData: an element of the parsed array is taken to be an event record. Arrays holding non-objects, missing keys or extra keys are not modelled, and neither is how the comparator treats them.
- Timeline.RelationshipTimeline.HandleSubmit: it requires the edit index to lie in the list. The source instead reads past the end of the list when the index has gone stale; see `EditThenDeleteLastEvent`.
- EventUtils.CreateEventObject: it requires the edit index to lie in the list, as the source's callers must ensure. A fresh id is whatever `now` is passed, so ids from two additions in the same millisecond are not known to differ.
- Strings.IntToString: it renders integers only, in plain digits. JavaScript's `toString` differs in three cases that the model does not capture:
  - non-integral scores (`3.5`);
  - integral Numbers of magnitude 10^21 or more, which it writes in exponent form (`formatScore(1e21)` is `"+1e+21"`, where the model gives 22 digits);
  - integers beyond 2^53, which a Number cannot hold exactly.
  Scores from the form are integers in [-8, 8] (`parseInt` of the range input). Imported scores are not checked, so any of these can reach the label.
