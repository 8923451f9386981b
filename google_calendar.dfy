/** The client of the Apps Script calendar endpoint: the series name it
    sends, the window filter over the events it returns, and the search for
    the previous meeting of a series with its word-overlap fallback. Each
    HTTP request is replaced by its decoded JSON response, `None` standing
    for a request that raised; "now" and the ISO parser are parameters. */
module GoogleCalendar {
  import opened Text
  import opened Patterns

  /** An event record of the endpoint; `None` is an absent key. The last
      two fields are the ones the window filter adds. */
  datatype AppsEvent = AppsEvent(
    id: Option<string>,
    title: Option<string>,
    startTime: Option<string>,
    endTime: Option<string>,
    attendees: Option<seq<string>>,
    description: Option<string>,
    location: Option<string>,
    meetingUrl: Option<string>,
    hangoutLink: Option<string>,
    isRecurring: Option<bool>,
    seriesId: Option<string>,
    minutesUntilStart: Option<int>,
    secondsUntilStart: Option<int>)

  /** The record with every key absent: the empty object `{}`. */
  const EmptyRecord: AppsEvent :=
    AppsEvent(None, None, None, None, None, None, None, None, None, None, None, None, None)

  /** Python's truth value of a decoded record: `None` and `{}` are false,
      every other record is true. */
  predicate Truthy(m: Option<AppsEvent>) {
    m.Some? && m.value != EmptyRecord
  }

  /** The answer to an events request (`hours=N`). */
  datatype EventsResponse = EventsResponse(success: Option<bool>, events: Option<seq<AppsEvent>>)

  /** `data.get('success', True)`: only an explicit false fails. */
  predicate Succeeded(success: Option<bool>) {
    success != Some(false)
  }

  function EventsOf(r: EventsResponse): seq<AppsEvent> {
    if r.events.Some? then r.events.value else []
  }

  /** The text handed to `fromisoformat`: a trailing `Z` becomes `+00:00`;
      a text without a zone is read as UTC by `parseIso`. */
  function AppsIsoInput(s: string): string {
    if |s| > 0 && s[|s| - 1] == 'Z' then ReplaceAll(s, "Z", "+00:00") else s
  }

  /** The start instant of an event; `None` when `startTime` is absent, empty
      or does not parse. */
  function StartInstant(e: AppsEvent, parseIso: string -> Option<int>): Option<int> {
    if e.startTime.None? || e.startTime.value == "" then None
    else parseIso(AppsIsoInput(e.startTime.value))
  }

  /** One step of the window filter: the event annotated with the whole
      minutes and seconds until its start when it starts strictly after
      `now` and at most `minutesAhead` minutes later, `None` otherwise. */
  function Annotated(e: AppsEvent, now: int, minutesAhead: int, parseIso: string -> Option<int>)
    : (r: Option<AppsEvent>)
    ensures r.Some? <==> StartInstant(e, parseIso).Some?
                         && now < StartInstant(e, parseIso).value <= now + 60 * minutesAhead
    ensures r.Some? ==>
              var secs := StartInstant(e, parseIso).value - now;
              && r.value == e.(minutesUntilStart := r.value.minutesUntilStart,
                               secondsUntilStart := r.value.secondsUntilStart)
              && r.value.secondsUntilStart == Some(secs)
              && r.value.minutesUntilStart.Some?
              && 60 * r.value.minutesUntilStart.value <= secs < 60 * r.value.minutesUntilStart.value + 60
  {
    var start := StartInstant(e, parseIso);
    if start.None? then None
    else
      var secs := start.value - now;
      if 0 < secs <= 60 * minutesAhead then
        Some(e.(minutesUntilStart := Some(secs / 60), secondsUntilStart := Some(secs)))
      else None
  }

  /** The window filter as the step of the loop shared by
      `get_meetings_starting_soon` and `get_upcoming_events`
      (`Text.CollectSome`). */
  function InWindow(now: int, minutesAhead: int, parseIso: string -> Option<int>): AppsEvent -> Option<AppsEvent> {
    e => Annotated(e, now, minutesAhead, parseIso)
  }

  /** Every kept event is an annotated input event inside the window, and
      every input event inside the window is kept. */
  lemma WindowMembers(events: seq<AppsEvent>, now: int, minutesAhead: int, parseIso: string -> Option<int>)
    ensures forall y <- Somes(events, InWindow(now, minutesAhead, parseIso)) ::
              exists e <- events :: Annotated(e, now, minutesAhead, parseIso) == Some(y)
    ensures forall i :: 0 <= i < |events| && Annotated(events[i], now, minutesAhead, parseIso).Some? ==>
              Annotated(events[i], now, minutesAhead, parseIso).value in Somes(events, InWindow(now, minutesAhead, parseIso))
  {
    forall i | 0 <= i < |events| && Annotated(events[i], now, minutesAhead, parseIso).Some?
      ensures Annotated(events[i], now, minutesAhead, parseIso).value in Somes(events, InWindow(now, minutesAhead, parseIso))
    {
      SomesMembers(events, InWindow(now, minutesAhead, parseIso), i);
    }
  }

  /** An event with a missing, empty or unparseable start is skipped
      without changing what happens to the others. */
  lemma MalformedSkipped(before: seq<AppsEvent>, bad: AppsEvent, after: seq<AppsEvent>, now: int,
                         minutesAhead: int, parseIso: string -> Option<int>)
    requires StartInstant(bad, parseIso).None?
    ensures Somes(before + [bad] + after, InWindow(now, minutesAhead, parseIso))
         == Somes(before + after, InWindow(now, minutesAhead, parseIso))
  {
    SomesSkip(before, bad, after, InWindow(now, minutesAhead, parseIso));
  }

  /** The events of a response after the filter: none when the request
      raised or the endpoint reported a failure. */
  function WindowResult(response: Option<EventsResponse>, now: int, minutesAhead: int,
                        parseIso: string -> Option<int>): seq<AppsEvent>
  {
    if response.None? || !Succeeded(response.value.success) then []
    else Somes(EventsOf(response.value), InWindow(now, minutesAhead, parseIso))
  }

  /** `get_meetings_starting_soon`: always asks for the next 2 hours. */
  method GetMeetingsStartingSoon(now: int, minutesAhead: int, response: Option<EventsResponse>,
                                 parseIso: string -> Option<int>)
    returns (hours: int, soon: seq<AppsEvent>)
    ensures hours == 2
    ensures soon == WindowResult(response, now, minutesAhead, parseIso)
  {
    hours := 2;
    if response.None? || !Succeeded(response.value.success) {
      return hours, [];
    }
    soon := CollectSome(EventsOf(response.value), InWindow(now, minutesAhead, parseIso));
  }

  /** `max(2, int(minutes_ahead / 60))`: the whole hours in the window, at
      least 2 (`int` truncates, so a negative window also asks for 2). */
  function RequestHours(minutesAhead: int): (h: int)
    ensures h >= 2
    ensures minutesAhead < 120 ==> h == 2
    ensures minutesAhead >= 120 ==> 60 * h <= minutesAhead < 60 * h + 60
  {
    if minutesAhead >= 120 then minutesAhead / 60 else 2
  }

  /** `get_upcoming_events`: asks for `RequestHours(minutesAhead)` hours. */
  method GetUpcomingEvents(now: int, minutesAhead: int, response: Option<EventsResponse>,
                           parseIso: string -> Option<int>)
    returns (hours: int, upcoming: seq<AppsEvent>)
    ensures hours == RequestHours(minutesAhead)
    ensures upcoming == WindowResult(response, now, minutesAhead, parseIso)
  {
    hours := RequestHours(minutesAhead);
    if response.None? || !Succeeded(response.value.success) {
      return hours, [];
    }
    upcoming := CollectSome(EventsOf(response.value), InWindow(now, minutesAhead, parseIso));
  }

  // ---------------------------------------------------------------------
  // Series name

  /** The title with dates, `#n`, `№n` and standalone numbers removed and
      whitespace runs collapsed. */
  function Cleaned(title: string): string {
    CollapseWs(DeleteEach(title, CalendarNumberPatterns))
  }

  /** The first (at most) four words of the cleaned title. */
  function SeriesWords(title: string): seq<string> {
    Take(SplitWs(Strip(Cleaned(title))), 4)
  }

  /** `_extract_series_name`: the first four words of the cleaned title;
      when that is shorter than 3 characters, the first three words of the
      title itself. */
  function CalendarSeriesName(title: string): string {
    var name := Strip(Join(" ", SeriesWords(title)));
    if |name| < 3 then Join(" ", Take(SplitWs(title), 3)) else name
  }

  lemma TakeWords(ws: seq<string>, n: nat)
    requires forall w <- ws :: w != [] && forall c <- w :: !IsSpace(c)
    ensures forall w <- Take(ws, n) :: IsWord(w)
  {
    forall w <- Take(ws, n) ensures IsWord(w) {
      assert w in ws;
    }
  }

  /** The series name splits back into exactly the words it was built from:
      the first (at most) four cleaned words, or, for a cleaned name shorter
      than 3 characters, the first (at most) three words of the title. */
  lemma SeriesNameWords(title: string)
    ensures var kept := SeriesWords(title);
      && (|Join(" ", kept)| >= 3 ==>
            CalendarSeriesName(title) == Join(" ", kept) && SplitWs(CalendarSeriesName(title)) == kept)
      && (|Join(" ", kept)| < 3 ==> SplitWs(CalendarSeriesName(title)) == Take(SplitWs(title), 3))
      && |SplitWs(CalendarSeriesName(title))| <= 4
      && NoEdgeSpace(CalendarSeriesName(title))
  {
    var kept := SeriesWords(title);
    TakeWords(SplitWs(Strip(Cleaned(title))), 4);
    JoinNoEdge(kept);
    StripNoEdge(Join(" ", kept));
    SplitJoin(kept);
    var first := Take(SplitWs(title), 3);
    TakeWords(SplitWs(title), 3);
    JoinNoEdge(first);
    SplitJoin(first);
  }

  // ---------------------------------------------------------------------
  // Previous meeting

  /** One entry of the `series` object of the `recurring` answer. */
  datatype SeriesEntry = SeriesEntry(name: string, meetings: seq<AppsEvent>)

  datatype RecurringResponse = RecurringResponse(series: Option<seq<SeriesEntry>>)

  /** The answer to `action=series`; `lastMeeting` is `None` when it is
      absent or null, and `EmptyRecord` when it is an empty object. */
  datatype SeriesResponse = SeriesResponse(success: Option<bool>, lastMeeting: Option<AppsEvent>)

  function SeriesOf(r: RecurringResponse): seq<SeriesEntry> {
    if r.series.Some? then r.series.value else []
  }

  /** `set(s.lower().split())`. */
  function WordSet(s: string): set<string> {
    SetOf(SplitWs(Lower(s)))
  }

  /** The elements of a sequence, as Python's `set(...)`. */
  function SetOf<T>(xs: seq<T>): (r: set<T>)
  {
    if xs == [] then {} else {xs[0]} + SetOf(xs[1..])
  }

  lemma {:induction false} SetOfMembers<T>(xs: seq<T>)
    ensures forall x :: x in SetOf(xs) <==> x in xs
  {
    if xs != [] {
      SetOfMembers(xs[1..]);
      assert forall x :: x in xs <==> x == xs[0] || x in xs[1..];
    }
  }

  /** A series the fallback accepts: it shares at least one word with the
      title and has at least one meeting. */
  predicate Candidate(title: string, entry: SeriesEntry) {
    WordSet(title) * WordSet(entry.name) != {} && entry.meetings != []
  }

  /** `r` is the last meeting of the first candidate series, or `None` when
      there is none. */
  predicate IsFallbackResult(title: string, series: seq<SeriesEntry>, r: Option<AppsEvent>) {
    && (r.None? <==> forall i :: 0 <= i < |series| ==> !Candidate(title, series[i]))
    && (r.Some? ==> exists i :: 0 <= i < |series| && PickedAt(title, series, r.value, i))
  }

  /** `m` is the last meeting of the `i`-th series, the first candidate. */
  predicate PickedAt(title: string, series: seq<SeriesEntry>, m: AppsEvent, i: nat)
    requires i < |series|
  {
    && Candidate(title, series[i])
    && m == series[i].meetings[|series[i].meetings| - 1]
    && forall j :: 0 <= j < i ==> !Candidate(title, series[j])
  }

  /** The position of the series a fallback result was taken from. */
  lemma FallbackIndex(title: string, series: seq<SeriesEntry>, r: Option<AppsEvent>) returns (i: nat)
    requires r.Some? && IsFallbackResult(title, series, r)
    ensures i < |series| && Candidate(title, series[i])
    ensures r.value == series[i].meetings[|series[i].meetings| - 1]
    ensures forall j :: 0 <= j < i ==> !Candidate(title, series[j])
  {
    i :| 0 <= i < |series| && PickedAt(title, series, r.value, i);
  }

  /** The fallback's choice is determined by the series entries: any two
      results it may give are equal. */
  lemma FallbackUnique(title: string, series: seq<SeriesEntry>, p: Option<AppsEvent>, q: Option<AppsEvent>)
    requires IsFallbackResult(title, series, p) && IsFallbackResult(title, series, q)
    ensures p == q
  {
    if p.Some? && q.Some? {
      var i := FallbackIndex(title, series, p);
      var k := FallbackIndex(title, series, q);
      assert i <= k && k <= i;
    }
  }

  /** A series named like the title whose only meeting is `{}`: the
      fallback picks that empty record, which is false. */
  lemma EmptyMeetingPicked(title: string, series: seq<SeriesEntry>)
    requires WordSet(title) != {} && series == [SeriesEntry(title, [EmptyRecord])]
    ensures IsFallbackResult(title, series, Some(EmptyRecord)) && !Truthy(Some(EmptyRecord))
  {
    assert Candidate(title, series[0]);
    assert PickedAt(title, series, EmptyRecord, 0);
  }

  /** `_fallback_search`. */
  method FallbackSearch(title: string, response: Option<RecurringResponse>) returns (r: Option<AppsEvent>)
    ensures response.None? ==> r.None?
    ensures response.Some? ==> IsFallbackResult(title, SeriesOf(response.value), r)
  {
    if response.None? {
      return None;
    }
    r := FirstCandidate(title, SeriesOf(response.value));
  }

  /** The loop of `_fallback_search` over the series entries, in order. */
  method FirstCandidate(title: string, series: seq<SeriesEntry>) returns (r: Option<AppsEvent>)
    ensures IsFallbackResult(title, series, r)
  {
    for i := 0 to |series|
      invariant forall j :: 0 <= j < i ==> !Candidate(title, series[j])
    {
      if Candidate(title, series[i]) {
        r := Some(series[i].meetings[|series[i].meetings| - 1]);
        assert PickedAt(title, series, r.value, i);
        return;
      }
    }
    return None;
  }

  /** `get_previous_meeting_in_series`: asks for the series of
      `CalendarSeriesName(title)`; returns its last meeting when the answer
      succeeded and has one, runs the fallback search otherwise, and gives
      `None` when the first request raised. */
  method GetPreviousMeetingInSeries(title: string, response: Option<SeriesResponse>,
                                    fallback: Option<RecurringResponse>)
    returns (seriesName: string, r: Option<AppsEvent>)
    ensures seriesName == CalendarSeriesName(title)
    ensures response.None? ==> r.None?
    ensures response.Some? && Succeeded(response.value.success) && Truthy(response.value.lastMeeting) ==>
              r == response.value.lastMeeting
    ensures response.Some? && !(Succeeded(response.value.success) && Truthy(response.value.lastMeeting)) ==>
              (fallback.None? ==> r.None?)
              && (fallback.Some? ==> IsFallbackResult(title, SeriesOf(fallback.value), r))
  {
    seriesName := CalendarSeriesName(title);
    if response.None? {
      return seriesName, None;
    }
    if Succeeded(response.value.success) && Truthy(response.value.lastMeeting) {
      return seriesName, response.value.lastMeeting;
    }
    r := FallbackSearch(title, fallback);
  }
}
