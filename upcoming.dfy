/**
 * `get_upcoming_events`: walk the calendar's components, keep the timed VEVENTs
 * that fall in the time window, and sort them by start.
 */
module Upcoming {
  import opened Wrappers
  import opened Events
  import opened StableSort

  /**
   * The window test. Without a look-ahead: "later today", `now <= start <= todayEnd`.
   * With a look-ahead of `m` minutes: starts within `m` whole (floored) minutes, or
   * is in progress, `start <= now <= end`; `todayEnd` plays no part then.
   */
  predicate InWindow(start: int, end: int, now: int, todayEnd: int, minutes: Option<int>)
    ensures minutes.None? ==> (InWindow(start, end, now, todayEnd, minutes) <==> now <= start <= todayEnd)
    ensures minutes.Some? ==>
      (InWindow(start, end, now, todayEnd, minutes) <==>
         (0 <= start - now < 60 * (minutes.value + 1)) || (start <= now <= end))
  {
    match minutes
    case None => now <= start <= todayEnd
    case Some(m) => (0 <= FloorMinutes(start - now) <= m) || (start <= now <= end)
  }

  /** A component that the filter keeps: a VEVENT with a full date-time start inside the window. */
  predicate Admits(c: Component, now: int, todayEnd: int, minutes: Option<int>)
    ensures c.name != "VEVENT" ==> !Admits(c, now, todayEnd, minutes)
    ensures c.start.DateOnly? ==> !Admits(c, now, todayEnd, minutes)
    ensures c.name == "VEVENT" && c.start.DateTime? ==>
      (Admits(c, now, todayEnd, minutes) <==> InWindow(c.start.seconds, c.end, now, todayEnd, minutes))
  {
    && c.name == "VEVENT"
    && c.start.DateTime?
    && InWindow(c.start.seconds, c.end, now, todayEnd, minutes)
  }

  /** The `(dtstart, dtend, event)` triple that is appended for a timed component. */
  function EntryOf(c: Component): (e: Entry)
    requires c.start.DateTime?
    ensures e.event == c && e.start == c.start.seconds && e.end == c.end
  {
    Entry(c.start.seconds, c.end, c)
  }

  /** The triples appended by the walk, in walk order (before sorting). */
  function Kept(cal: seq<Component>, now: int, todayEnd: int, minutes: Option<int>): (r: seq<Entry>)
    ensures |r| <= |cal|
    ensures forall e | e in r :: e.event in cal && Admits(e.event, now, todayEnd, minutes) && e == EntryOf(e.event)
    ensures forall c | c in cal && Admits(c, now, todayEnd, minutes) :: EntryOf(c) in r
  {
    if cal == [] then []
    else
      var c := cal[|cal| - 1];
      assert cal == cal[..|cal| - 1] + [c];
      Kept(cal[..|cal| - 1], now, todayEnd, minutes) + (if Admits(c, now, todayEnd, minutes) then [EntryOf(c)] else [])
  }

  /**
   * The walk appends one triple per admitted component: a component listed
   * twice in the calendar yields its triple twice, and no triple more often.
   */
  lemma {:induction false} KeptMultiplicity(cal: seq<Component>, now: int, todayEnd: int, minutes: Option<int>)
    ensures var r := Kept(cal, now, todayEnd, minutes);
      forall e | e in r :: multiset(r)[e] == multiset(cal)[e.event]
  {
    if cal != [] {
      var init, c := cal[..|cal| - 1], cal[|cal| - 1];
      KeptMultiplicity(init, now, todayEnd, minutes);
      assert cal == init + [c];
      var r, ri := Kept(cal, now, todayEnd, minutes), Kept(init, now, todayEnd, minutes);
      assert r == ri + (if Admits(c, now, todayEnd, minutes) then [EntryOf(c)] else []);
      forall e | e in r ensures multiset(r)[e] == multiset(cal)[e.event] {
        if e !in ri {
          assert e == EntryOf(c);
          assert c !in init;
        }
      }
    }
  }

  /**
   * `get_upcoming_events`: the kept triples in walk order, then sorted by start
   * (stably, as Python's `list.sort`).
   */
  method GetUpcomingEvents(cal: seq<Component>, now: int, todayEnd: int, minutes: Option<int>)
    returns (events: seq<Entry>)
    ensures events == SortByStart(Kept(cal, now, todayEnd, minutes))
  {
    events := [];
    for i := 0 to |cal|
      invariant events == Kept(cal[..i], now, todayEnd, minutes)
    {
      assert cal[..i + 1][..i] == cal[..i];
      var component := cal[i];
      if component.name == "VEVENT" {
        match component.start {
          case DateOnly(_) =>
            // a date-only start is skipped (so cal.py's second all-day test, lines 46-49, can never fire)
          case DateTime(start) =>
            var keep: bool;
            match minutes {
              case None =>
                keep := now <= start <= todayEnd;
              case Some(m) =>
                var diffMins := (start - now) / 60;
                keep := (0 <= diffMins <= m) || (start <= now <= component.end);
            }
            if keep {
              events := events + [Entry(start, component.end, component)];
            }
        }
      }
    }
    assert cal[..|cal|] == cal;
    events := SortByStart(events);
  }

  /**
   * What the returned list holds: exactly the admitted timed VEVENTs, each with
   * its unchanged start and end, sorted by start, with equal starts in walk order.
   */
  lemma UpcomingEventsContents(cal: seq<Component>, now: int, todayEnd: int, minutes: Option<int>)
    ensures var events := SortByStart(Kept(cal, now, todayEnd, minutes));
      && SortedByStart(events)
      && (forall e | e in events :: e.event in cal && Admits(e.event, now, todayEnd, minutes) && e == EntryOf(e.event))
      && (forall c | c in cal && Admits(c, now, todayEnd, minutes) :: EntryOf(c) in events)
      && (forall e | e in events :: multiset(events)[e] == multiset(cal)[e.event])
      && (forall k :: OfStart(events, k) == OfStart(Kept(cal, now, todayEnd, minutes), k))
  {
    SameMembers(Kept(cal, now, todayEnd, minutes));
    KeptMultiplicity(cal, now, todayEnd, minutes);
  }

  /** Only VEVENTs with a date-time start come out; an all-day entry never does. */
  lemma OnlyTimedEvents(cal: seq<Component>, now: int, todayEnd: int, minutes: Option<int>)
    ensures forall e | e in SortByStart(Kept(cal, now, todayEnd, minutes)) ::
      && e.event.name == "VEVENT" && e.event.start.DateTime?
      && e.start == e.event.start.seconds && e.end == e.event.end
  {
    SameMembers(Kept(cal, now, todayEnd, minutes));
  }

  /** Without a look-ahead, a timed VEVENT is kept iff `now <= start <= todayEnd`, both bounds inclusive. */
  lemma LaterTodayWindow(cal: seq<Component>, now: int, todayEnd: int, c: Component)
    requires c in cal && c.name == "VEVENT" && c.start.DateTime?
    ensures EntryOf(c) in SortByStart(Kept(cal, now, todayEnd, None)) <==> now <= c.start.seconds <= todayEnd
  {
    SameMembers(Kept(cal, now, todayEnd, None));
  }

  /** The inclusive boundary: an event starting at `now == todayEnd` is kept. */
  lemma LaterTodayBoundary(c: Component, t: int)
    requires c.name == "VEVENT" && c.start == DateTime(t)
    ensures SortByStart(Kept([c], t, t, None)) == [EntryOf(c)]
  {
    assert [c][..0] == [];
  }

  /**
   * "Within m whole minutes" in seconds: the floored minute difference lies in
   * [0, m] exactly when the start is 0 to 60*m + 59 seconds ahead.
   */
  lemma LookAheadInSeconds(delta: int, m: int)
    ensures (0 <= FloorMinutes(delta) <= m) <==> (0 <= delta < 60 * (m + 1))
  {
  }

  /**
   * With a look-ahead, a timed VEVENT is kept iff it starts 0 to 60*m + 59 seconds
   * ahead or is in progress; however long ago an in-progress event started, it is kept.
   */
  lemma LookAheadWindow(cal: seq<Component>, now: int, todayEnd: int, m: int, c: Component)
    requires c in cal && c.name == "VEVENT" && c.start.DateTime?
    ensures EntryOf(c) in SortByStart(Kept(cal, now, todayEnd, Some(m)))
      <==> (0 <= c.start.seconds - now < 60 * (m + 1)) || (c.start.seconds <= now <= c.end)
  {
    SameMembers(Kept(cal, now, todayEnd, Some(m)));
    LookAheadInSeconds(c.start.seconds - now, m);
  }

  /** With a look-ahead, the end of the day plays no part. */
  lemma {:induction false} LookAheadIgnoresEndOfDay(cal: seq<Component>, now: int, t1: int, t2: int, m: int)
    ensures Kept(cal, now, t1, Some(m)) == Kept(cal, now, t2, Some(m))
  {
    if cal != [] {
      LookAheadIgnoresEndOfDay(cal[..|cal| - 1], now, t1, t2, m);
    }
  }

  /** An event kept by the look-ahead branch may start after the end of the day. */
  lemma LookAheadPastEndOfDay(c: Component, now: int)
    requires c.name == "VEVENT" && c.start == DateTime(now + 120)
    ensures SortByStart(Kept([c], now, now, Some(10))) == [EntryOf(c)]
  {
    assert [c][..0] == [];
  }
}
