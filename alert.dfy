/**
 * The selection in `main`: walk the sorted events, announce the first one that
 * starts in fewer than the alert threshold's minutes (or already started), and
 * add the detail block when it is a few seconds past the popup lead; otherwise
 * report that the user is free.
 */
module Alert {
  import opened Wrappers
  import opened Events
  import opened StableSort
  import opened Upcoming

  /** ALERT_IF_IN_NEXT_MINUTES and ALERT_POPUP_BEFORE_SECONDS. */
  datatype Config = Config(alertMinutes: int, popupLeadSeconds: int)

  const Defaults: Config := Config(10, 20)

  /**
   * The outcome of one run: the free glyph, or the meeting line for the event at
   * `index` of the sorted list, with the detail block when `popup` holds.
   */
  datatype Announcement =
    | Free
    | Meeting(index: nat, details: Formatted, minutesUntil: int, popup: bool)

  /** The event is announced: its floored minutes until start are strictly below the threshold. */
  predicate Due(e: Entry, now: int, threshold: int)
    ensures Due(e, now, threshold) <==> e.start - now < 60 * threshold
  {
    FloorMinutes(e.start - now) < threshold
  }

  /** The detail block's trigger band, strict on both ends. */
  predicate InPopupBand(secondsUntil: int, popupLead: int)
    ensures InPopupBand(secondsUntil, popupLead) <==> popupLead + 1 <= secondsUntil <= popupLead + 9
  {
    popupLead < secondsUntil < popupLead + 10
  }

  /** The announcement for the first due event of `events`, or Free when none is due. */
  function Select(events: seq<Entry>, now: int, threshold: int, popupLead: int): (a: Announcement)
    ensures a.Free? <==> forall i | 0 <= i < |events| :: !Due(events[i], now, threshold)
    ensures a.Meeting? ==>
      && a.index < |events|
      && Due(events[a.index], now, threshold)
      && (forall j | 0 <= j < a.index :: !Due(events[j], now, threshold))
      && a.details == FormatEvent(events[a.index])
      && a.minutesUntil == FloorMinutes(events[a.index].start - now)
      && a.popup == InPopupBand(events[a.index].start - now, popupLead)
  {
    if events == [] then Free
    else if Due(events[0], now, threshold) then
      Meeting(0, FormatEvent(events[0]), FloorMinutes(events[0].start - now),
              InPopupBand(events[0].start - now, popupLead))
    else
      match Select(events[1..], now, threshold, popupLead)
      case Free => Free
      case Meeting(i, f, m, p) => Meeting(i + 1, f, m, p)
  }

  /** The `for ... break / else` loop of `main`. */
  method Announce(events: seq<Entry>, now: int, threshold: int, popupLead: int) returns (a: Announcement)
    ensures a == Select(events, now, threshold, popupLead)
  {
    for i := 0 to |events|
      invariant forall j | 0 <= j < i :: !Due(events[j], now, threshold)
    {
      var details := FormatEvent(events[i]);
      var secondsUntil := details.start - now;
      var minutesUntil := secondsUntil / 60;
      if minutesUntil < threshold {
        var popup := popupLead < secondsUntil < popupLead + 10;
        a := Meeting(i, details, minutesUntil, popup);
        assert Due(events[i], now, threshold);
        return;
      }
    }
    a := Free;
  }

  /** One run of the script at time `now`: filter with the alert look-ahead, sort, select. */
  method Run(cal: seq<Component>, now: int, todayEnd: int, cfg: Config) returns (a: Announcement)
    ensures a == Select(SortByStart(Kept(cal, now, todayEnd, Some(cfg.alertMinutes))),
                        now, cfg.alertMinutes, cfg.popupLeadSeconds)
  {
    var events := GetUpcomingEvents(cal, now, todayEnd, Some(cfg.alertMinutes));
    a := Announce(events, now, cfg.alertMinutes, cfg.popupLeadSeconds);
  }

  /** On a list sorted by start, if the head is not due then no event is. */
  lemma SortedHeadDecides(events: seq<Entry>, now: int, threshold: int)
    requires SortedByStart(events) && events != []
    requires !Due(events[0], now, threshold)
    ensures forall i | 0 <= i < |events| :: !Due(events[i], now, threshold)
  {
    forall i | 0 <= i < |events| ensures !Due(events[i], now, threshold) {
      FloorMinutesMonotone(events[0].start - now, events[i].start - now);
    }
  }

  /** On a sorted list at most the head is ever announced. */
  lemma SelectOnSorted(events: seq<Entry>, now: int, threshold: int, popupLead: int)
    requires SortedByStart(events)
    ensures var a := Select(events, now, threshold, popupLead);
      a.Free? || a.index == 0
    ensures var a := Select(events, now, threshold, popupLead);
      a.Free? <==> events == [] || !Due(events[0], now, threshold)
  {
    if events != [] && !Due(events[0], now, threshold) {
      SortedHeadDecides(events, now, threshold);
    }
  }

  /**
   * A run reports Free iff no admitted timed VEVENT starts fewer than
   * `alertMinutes` minutes from now (in-progress events included).
   */
  lemma RunFreeIff(cal: seq<Component>, now: int, todayEnd: int, cfg: Config)
    ensures var a := Select(SortByStart(Kept(cal, now, todayEnd, Some(cfg.alertMinutes))),
                            now, cfg.alertMinutes, cfg.popupLeadSeconds);
      a.Free? <==> forall c | c in cal && Admits(c, now, todayEnd, Some(cfg.alertMinutes)) ::
                     c.start.seconds - now >= 60 * cfg.alertMinutes
  {
    var kept := Kept(cal, now, todayEnd, Some(cfg.alertMinutes));
    var events := SortByStart(kept);
    SameMembers(kept);
    forall c | c in cal && Admits(c, now, todayEnd, Some(cfg.alertMinutes))
      ensures EntryOf(c) in events
    {
    }
  }

  /** The announced event is the head of the sorted list: no admitted event starts before it. */
  lemma RunAnnouncesEarliest(cal: seq<Component>, now: int, todayEnd: int, cfg: Config)
    ensures var a := Select(SortByStart(Kept(cal, now, todayEnd, Some(cfg.alertMinutes))),
                            now, cfg.alertMinutes, cfg.popupLeadSeconds);
      a.Meeting? ==>
        && a.index == 0
        && forall c | c in cal && Admits(c, now, todayEnd, Some(cfg.alertMinutes)) ::
             a.details.start <= c.start.seconds
  {
    var kept := Kept(cal, now, todayEnd, Some(cfg.alertMinutes));
    var events := SortByStart(kept);
    SelectOnSorted(events, now, cfg.alertMinutes, cfg.popupLeadSeconds);
    SameMembers(kept);
    forall c | c in cal && Admits(c, now, todayEnd, Some(cfg.alertMinutes))
      ensures events != [] && events[0].start <= c.start.seconds
    {
      assert EntryOf(c) in events;
      SortedHeadIsLeast(events, EntryOf(c));
    }
  }

  /** With a positive threshold, an event in progress is always announced: the run is never Free. */
  lemma InProgressNeverFree(cal: seq<Component>, now: int, todayEnd: int, cfg: Config, c: Component)
    requires cfg.alertMinutes > 0
    requires c in cal && c.name == "VEVENT" && c.start.DateTime?
    requires c.start.seconds <= now <= c.end
    ensures Select(SortByStart(Kept(cal, now, todayEnd, Some(cfg.alertMinutes))),
                   now, cfg.alertMinutes, cfg.popupLeadSeconds).Meeting?
  {
    RunFreeIff(cal, now, todayEnd, cfg);
  }

  /** With the default settings the detail block shows exactly 21 to 29 seconds before the start. */
  lemma DefaultPopupBand(events: seq<Entry>, now: int)
    ensures var a := Select(events, now, Defaults.alertMinutes, Defaults.popupLeadSeconds);
      a.Meeting? ==> (a.popup <==> 21 <= events[a.index].start - now <= 29)
  {
  }

  /** A single admitted event is the whole sorted list. */
  lemma SingleAdmitted(c: Component, now: int, todayEnd: int, m: int)
    requires Admits(c, now, todayEnd, Some(m))
    ensures SortByStart(Kept([c], now, todayEnd, Some(m))) == [EntryOf(c)]
  {
    assert [c][..0] == [];
  }

  /** No events at all: the free glyph. */
  lemma ScenarioEmptyCalendar(now: int, todayEnd: int, cfg: Config)
    ensures Select(SortByStart(Kept([], now, todayEnd, Some(cfg.alertMinutes))),
                   now, cfg.alertMinutes, cfg.popupLeadSeconds) == Free
  {
  }

  /** One event five minutes ahead: announced with 5 minutes; one second less gives 4. */
  lemma ScenarioFiveMinutes(c: Component, d: Component, now: int, todayEnd: int)
    requires c.name == "VEVENT" && c.start == DateTime(now + 300)
    requires d.name == "VEVENT" && d.start == DateTime(now + 299)
    ensures Select(SortByStart(Kept([c], now, todayEnd, Some(10))), now, 10, 20)
         == Meeting(0, FormatEvent(EntryOf(c)), 5, false)
    ensures Select(SortByStart(Kept([d], now, todayEnd, Some(10))), now, 10, 20)
         == Meeting(0, FormatEvent(EntryOf(d)), 4, false)
  {
    SingleAdmitted(c, now, todayEnd, 10);
    SingleAdmitted(d, now, todayEnd, 10);
  }

  /** An event that started two minutes ago and ends in 28 is announced with -2 minutes. */
  lemma ScenarioInProgress(c: Component, now: int, todayEnd: int)
    requires c.name == "VEVENT" && c.start == DateTime(now - 120) && c.end == now + 1680
    ensures Select(SortByStart(Kept([c], now, todayEnd, Some(10))), now, 10, 20)
         == Meeting(0, FormatEvent(EntryOf(c)), -2, false)
  {
    SingleAdmitted(c, now, todayEnd, 10);
  }

  /** 25 seconds ahead shows the detail block; 35 seconds ahead does not. */
  lemma ScenarioPopup(c: Component, d: Component, now: int, todayEnd: int)
    requires c.name == "VEVENT" && c.start == DateTime(now + 25)
    requires d.name == "VEVENT" && d.start == DateTime(now + 35)
    ensures Select(SortByStart(Kept([c], now, todayEnd, Some(10))), now, 10, 20).popup
    ensures Select(SortByStart(Kept([d], now, todayEnd, Some(10))), now, 10, 20)
         == Meeting(0, FormatEvent(EntryOf(d)), 0, false)
  {
    SingleAdmitted(c, now, todayEnd, 10);
    SingleAdmitted(d, now, todayEnd, 10);
  }

  /** An event exactly `threshold` minutes away is kept by the filter but not announced. */
  lemma ScenarioExactThreshold(c: Component, now: int, todayEnd: int)
    requires c.name == "VEVENT" && c.start == DateTime(now + 600)
    ensures SortByStart(Kept([c], now, todayEnd, Some(10))) == [EntryOf(c)]
    ensures Select(SortByStart(Kept([c], now, todayEnd, Some(10))), now, 10, 20) == Free
  {
    SingleAdmitted(c, now, todayEnd, 10);
  }
}
