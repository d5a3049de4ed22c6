/**
 * The records the selection logic works on: the calendar components produced by
 * walking a parsed iCalendar file, the `(dtstart, dtend, event)` triples kept by
 * the window filter, and the `(dtstart, dtend, summary, count)` tuples that
 * `format_event` turns them into. Time is whole POSIX seconds.
 */
module Events {
  import opened Wrappers

  /** The value of a component's DTSTART property: a full date-time or a bare date (an all-day entry). */
  datatype StartValue = DateTime(seconds: int) | DateOnly(day: int)

  /**
   * The ATTENDEE property as the calendar library hands it back: absent, one
   * address (a string value), or a list of addresses when there are several.
   */
  datatype Attendees = Absent | Scalar(address: string) | Many(addresses: seq<string>)

  /** One component of the walked calendar (VCALENDAR, VEVENT, VTIMEZONE, VALARM, ...). */
  datatype Component = Component(
    name: string,
    start: StartValue,
    end: int,
    summary: Option<string>,
    attendees: Attendees)

  /** A kept event: its start and end in seconds, and the component itself. */
  datatype Entry = Entry(start: int, end: int, event: Component)

  /** What `format_event` returns: start, end, summary text and attendee count. */
  datatype Formatted = Formatted(start: int, end: int, summary: string, attendeeCount: nat)

  /**
   * Python's `seconds // 60`: whole minutes, rounded towards negative infinity.
   * (Dafny's `/` is Euclidean, which coincides with floor division for a positive divisor.)
   */
  function FloorMinutes(seconds: int): (m: int)
    ensures 60 * m <= seconds < 60 * m + 60
  {
    seconds / 60
  }

  /** Floor division by 60 never decreases as the number of seconds grows. */
  lemma FloorMinutesMonotone(s1: int, s2: int)
    requires s1 <= s2
    ensures FloorMinutes(s1) <= FloorMinutes(s2)
  {
    var m1, m2 := FloorMinutes(s1), FloorMinutes(s2);
    assert 60 * m1 < 60 * m2 + 60;
  }

  /** Rounding is towards negative infinity, not towards zero. */
  lemma FloorMinutesExamples()
    ensures FloorMinutes(119) == 1
    ensures FloorMinutes(60) == 1 && FloorMinutes(59) == 0
    ensures FloorMinutes(-30) == -1 && FloorMinutes(-60) == -1 && FloorMinutes(-61) == -2
  {
  }

  /**
   * The attendee addresses the property actually names: an empty scalar names
   * nobody (an empty string is falsy in Python), a list names each of its items.
   */
  function AttendeeAddresses(a: Attendees): seq<string>
  {
    match a
    case Absent => []
    case Scalar(x) => if x == "" then [] else [x]
    case Many(xs) => xs
  }

  /** The attendee count of `format_event`: list length, 1 for a non-empty scalar, 0 when absent. */
  function AttendeeCount(a: Attendees): (n: nat)
    ensures n == |AttendeeAddresses(a)|
    ensures !a.Many? ==> n <= 1
    ensures a.Absent? ==> n == 0
  {
    if a.Many? then |a.addresses|
    else if a.Scalar? && a.address != "" then 1
    else 0
  }

  /** `str(comp.get("summary"))`: the summary text, or the text "None" when the property is missing. */
  function SummaryText(s: Option<string>): (t: string)
    ensures s.Some? ==> t == s.value
    ensures s.None? ==> t == "None"
  {
    match s
    case Some(v) => v
    case None => "None"
  }

  /** `format_event`: start and end unchanged, the summary text and the attendee count. */
  function FormatEvent(e: Entry): (f: Formatted)
    ensures f.start == e.start && f.end == e.end
    ensures f.summary == SummaryText(e.event.summary)
    ensures f.attendeeCount == |AttendeeAddresses(e.event.attendees)|
  {
    Formatted(e.start, e.end, SummaryText(e.event.summary), AttendeeCount(e.event.attendees))
  }
}
