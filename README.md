# Meeting alert for a tmux status bar — event selection model

`scripts/cal.py` reads an iCalendar file and prints one status-bar line: a
"free" glyph, or a meeting glyph with the start time, summary and minutes until
the start of the meeting to announce, followed by a detail block (title, start,
end, attendee count) in a short band of seconds before it starts. This project
models the decision procedure behind that line, with the calendar reduced to
the sequence of components the library's walk yields:

- `Events` (`events.dfy`): the component, kept-triple and formatted-tuple
  records; floor division of seconds into minutes; `format_event`, including
  the attendee count (list length, 1 for a non-empty single value, 0 when
  absent) and the `str()` of a missing summary, which is the text `None`.
- `StableSort` (`stable_sort.dfy`): `events.sort(key=lambda x: x[0])` as a
  stable insertion sort on start times, proved sorted, a permutation and
  order-preserving among equal starts, plus the lemma that any sort with those
  properties returns the same list.
- `Upcoming` (`upcoming.dfy`): the window test, the walk (a loop appending
  `(start, end, event)` triples), and `get_upcoming_events` as a method whose
  result is the stable sort of the walk's output.
- `Alert` (`alert.dfy`): the `for ... break / else` loop of `main` as a method
  proved equal to a first-match selection function, a whole run (`Run`), and
  the properties of the selected event and of the popup band.

Time is whole POSIX seconds (`int`). `now`, the end of today and the two
configuration constants (`ALERT_IF_IN_NEXT_MINUTES = 10`,
`ALERT_POPUP_BEFORE_SECONDS = 20`, held in `Alert.Defaults`) are parameters.
Dafny's `/` by 60 is floor division for every integer, as Python's `//` is.

Three behaviours of the code that a reader might expect otherwise, and which
the model keeps as the code has them:
- An event kept by the look-ahead filter may start after the end of the day.
  The look-ahead branch (the one `main` uses) never looks at the end of the
  day; `Upcoming.LookAheadIgnoresEndOfDay` and
  `Upcoming.LookAheadPastEndOfDay` state this.
- A missing summary is not replaced by empty text: the code prints
  `str(None)`, the text `None` (`Events.SummaryText`).
- A VEVENT without a start is not skipped: the code reads `.dt` of the
  missing property and fails; see "Left out".

## Model

| member | source | states |
|---|---|---|
| Events.FloorMinutes | scripts/cal.py:93-94 | the minute count `m` satisfies `60*m <= seconds < 60*m + 60`, i.e. floor division, rounding towards negative infinity |
| Events.FloorMinutesMonotone | scripts/cal.py:94 | floored minutes never decrease as the seconds grow |
| Events.FloorMinutesExamples | scripts/cal.py:60 | 119 s gives 1 minute, 59 s gives 0, -30 s and -60 s give -1, -61 s gives -2 |
| Events.AttendeeCount | scripts/cal.py:74-77 | the count is the number of attendee addresses the property names: list length, 1 for a non-empty single value, 0 when absent; at most 1 unless the property is a list |
| Events.SummaryText | scripts/cal.py:73 | the summary text is the property's text, or `None` when the property is missing |
| Events.FormatEvent | scripts/cal.py:71-78 | start and end are returned unchanged, with the summary text and the attendee count |
| StableSort.Insert | scripts/cal.py:67 | inserting one entry adds exactly it to the multiset and keeps a start-sorted list sorted |
| StableSort.InsertOfStart | scripts/cal.py:67 | the inserted entry comes first among entries with its start; no other start's entries change order |
| StableSort.SortByStart | scripts/cal.py:67 | the result is sorted ascending by start, is a permutation of the input, and keeps entries with equal starts in input order |
| StableSort.SameMembers | scripts/cal.py:67 | sorting neither adds nor drops any entry |
| StableSort.StableSortUnique | scripts/cal.py:67 | two start-sorted lists with the same entries per start, in the same order, are equal |
| StableSort.AnyStableSortAgrees | scripts/cal.py:67 | any stable sort keyed on start (Python's list sort) returns exactly SortByStart |
| Upcoming.EntryOf | scripts/cal.py:51-58 | the appended triple carries the component's start and end seconds and the component itself |
| Upcoming.InWindow | scripts/cal.py:56-65 | without a look-ahead: `now <= start <= todayEnd`; with a look-ahead of `m` minutes: the start is 0 to `60*m + 59` seconds ahead, or `start <= now <= end` |
| Upcoming.Admits | scripts/cal.py:36-49 | a component other than a VEVENT, or one with a date-only start, is never kept; a timed VEVENT is kept iff it is inside the window |
| Upcoming.Kept | scripts/cal.py:34-65 | the walk's output holds the triple of every admitted timed VEVENT and nothing else, and is no longer than the calendar |
| Upcoming.KeptMultiplicity | scripts/cal.py:34-65 | each triple occurs as often as its component occurs in the calendar: a duplicated VEVENT gives two triples |
| Upcoming.GetUpcomingEvents | scripts/cal.py:28-68 | the loop's list, once sorted, is the stable sort of the kept triples |
| Upcoming.UpcomingEventsContents | scripts/cal.py:34-68 | the returned list is sorted by start, holds exactly the admitted timed VEVENTs with unchanged start and end, each as often as it occurs in the calendar, and keeps walk order among equal starts |
| Upcoming.OnlyTimedEvents | scripts/cal.py:35-49 | every returned triple is a VEVENT with a full date-time start; all-day entries and other component kinds never appear |
| Upcoming.LaterTodayWindow | scripts/cal.py:56-58 | without a look-ahead a timed VEVENT is returned iff `now <= start <= todayEnd` |
| Upcoming.LaterTodayBoundary | scripts/cal.py:57 | both bounds are inclusive: an event with `start == now == todayEnd` is returned |
| Upcoming.LookAheadInSeconds | scripts/cal.py:60-62 | `0 <= floor((start-now)/60) <= m` iff the start is 0 to `60*m + 59` seconds ahead |
| Upcoming.LookAheadWindow | scripts/cal.py:59-65 | with a look-ahead a timed VEVENT is returned iff it starts 0 to `60*m + 59` seconds ahead or `start <= now <= end`, however long ago it started |
| Upcoming.LookAheadIgnoresEndOfDay | scripts/cal.py:59-65 | with a look-ahead the kept list does not depend on the end of the day |
| Upcoming.LookAheadPastEndOfDay | scripts/cal.py:59-65 | an event two minutes ahead is kept even when the end of the day is `now` |
| Alert.Select | scripts/cal.py:90-115 | Free iff no event is due; otherwise the first due event's index, its formatted tuple, its floored minutes, and the popup flag iff `lead < seconds < lead + 10` |
| Alert.Announce | scripts/cal.py:90-115 | the break/else loop returns exactly Select's announcement |
| Alert.Run | scripts/cal.py:86-115 | a run filters with the alert look-ahead, sorts, and announces Select of the sorted list |
| Alert.Due | scripts/cal.py:94-96 | an event is due iff it starts fewer than `60*threshold` seconds from now; exactly `threshold` minutes away is not due |
| Alert.InPopupBand | scripts/cal.py:102-106 | the detail block's band holds for the whole seconds `lead + 1` to `lead + 9`, both ends of `lead < s < lead + 10` excluded |
| Alert.SortedHeadDecides | scripts/cal.py:90-96 | on a start-sorted list, if the head is not due, no later event is |
| Alert.SelectOnSorted | scripts/cal.py:90-113 | on a start-sorted list only the head can be announced, and the result is Free iff the list is empty or the head is not due |
| Alert.RunFreeIff | scripts/cal.py:86-115 | a run is Free iff no admitted timed VEVENT starts fewer than `alertMinutes` minutes from now |
| Alert.RunAnnouncesEarliest | scripts/cal.py:86-113 | the announced event is at index 0 and no admitted event starts before it |
| Alert.InProgressNeverFree | scripts/cal.py:59-96 | with a positive threshold, an in-progress timed VEVENT makes the run announce a meeting |
| Alert.DefaultPopupBand | scripts/cal.py:102-106 | with the defaults the detail block shows iff the start is 21 to 29 seconds away |
| Alert.SingleAdmitted | scripts/cal.py:34-68 | a calendar of one admitted event returns exactly that event |
| Alert.ScenarioEmptyCalendar | scripts/cal.py:114-115 | an empty calendar gives Free |
| Alert.ScenarioFiveMinutes | scripts/cal.py:93-99 | 300 s ahead is announced with 5 minutes, 299 s ahead with 4, without the detail block |
| Alert.ScenarioInProgress | scripts/cal.py:59-99 | an event that started 120 s ago and ends in 28 minutes is announced with -2 minutes |
| Alert.ScenarioPopup | scripts/cal.py:102-106 | 25 s ahead shows the detail block; 35 s ahead is announced with 0 minutes and no block |
| Alert.ScenarioExactThreshold | scripts/cal.py:60-96 | an event 600 s ahead is kept by the filter but not announced: the run is Free |

## Left out

- Reading the file and parsing it (`load_calendar`, `Calendar.from_ical`, `cal.walk()`, `event.get`): library and filesystem code; the walk's output is an input sequence of components.
- The host clock and time zone (`datetime.now`, `now.replace(hour=23, ...)`): `now` and the end of today are parameters.
- Fractional seconds: timestamps are whole seconds, so the filter's floor of the difference (line 60) and the selection's `int()` truncation (line 93) agree. With fractional timestamps (the clock carries microseconds) they differ for every non-whole negative difference: 60.5 s after the start the script prints `int(-60.5) // 60 == -1` minutes, where flooring the real difference gives -2. The minutes shown for an in-progress event can therefore be one more than the model's.
- A VEVENT without DTSTART or DTEND, and a date-only DTEND with a date-time DTSTART: the code fails with an exception there; the component record always carries a start value and an end in seconds.
- Naive (zone-less) date-times, which Python interprets in local time: every start and end is already in POSIX seconds. Nothing in the code enforces zone-aware starts (the comment at line 41 notwithstanding): when both a naive and a zone-aware start pass the filter, the sort at line 67 raises TypeError (offset-naive and offset-aware date-times cannot be compared), whereas the model returns a sorted list.
- Output text: `strftime`, the f-strings, `print` and the glyphs; the announcement records what would be printed (index, formatted tuple, minutes, detail block or not).
- The sort algorithm: Python's Timsort is modelled by an insertion sort; AnyStableSortAgrees shows every stable sort on start returns the same list, so only the algorithm, not the result, differs.
