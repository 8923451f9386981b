/** The calendar manager that merges several sources: the Apps Script
    endpoint first, the Google Calendar API when that gives nothing, and two
    demonstration events when both give nothing; then duplicates (same
    title and start) are dropped and the events are sorted by start. The
    sources' answers are parameters; "now", the ISO parser and Python's
    string hash are parameters too. */
module EnhancedCalendar {
  import opened Text
  import Calendar
  import GoogleCalendar

  datatype Source = AppsScript | GoogleApi | Mock

  /** `EnhancedCalendarEvent`: a calendar event with the source it came from. */
  datatype EnhancedEvent = EnhancedEvent(
    id: string,
    title: string,
    start: int,
    end: int,
    attendees: seq<string>,
    description: Option<string>,
    location: Option<string>,
    meetingUrl: Option<string>,
    isRecurring: bool,
    seriesId: Option<string>,
    source: Source,
    minutesUntilStart: Option<int>)

  function EventStart(e: EnhancedEvent): int {
    e.start
  }

  const UntitledMeeting: string := "Untitled Meeting"
  const HashIdPrefix: string := "apps_script_"

  /** `d.get(key, default)`. */
  function OrElse<T>(o: Option<T>, default: T): T {
    if o.Some? then o.value else default
  }

  /** The end instant the converter uses: the parsed `endTime` when it is a
      non-empty text, one hour after the start otherwise. */
  function AppsEnd(e: GoogleCalendar.AppsEvent, start: int, parseIso: string -> Option<int>): Option<int> {
    if e.endTime.Some? && e.endTime.value != "" then parseIso(GoogleCalendar.AppsIsoInput(e.endTime.value))
    else Some(start + Calendar.HourSeconds)
  }

  /** The fields of an Apps Script event other than its times and its
      minutes-to-start, with the converter's defaults. */
  predicate AppsFields(e: GoogleCalendar.AppsEvent, r: EnhancedEvent, hashText: string -> string) {
    && r.id == (if e.id.Some? then e.id.value else HashIdPrefix + hashText(OrElse(e.title, "")))
    && r.title == OrElse(e.title, UntitledMeeting)
    && r.attendees == OrElse(e.attendees, [])
    && r.description == Some(OrElse(e.description, ""))
    && r.location == Some(OrElse(e.location, ""))
    && r.meetingUrl == Some(if e.meetingUrl.Some? then e.meetingUrl.value else OrElse(e.hangoutLink, ""))
    && r.isRecurring == OrElse(e.isRecurring, false)
    && r.seriesId == e.seriesId
    && r.source == AppsScript
  }

  function AppsRecord(e: GoogleCalendar.AppsEvent, start: int, end: int, minutes: Option<int>,
                      hashText: string -> string): (r: EnhancedEvent)
    ensures AppsFields(e, r, hashText)
    ensures r.start == start && r.end == end && r.minutesUntilStart == minutes
  {
    EnhancedEvent(
      if e.id.Some? then e.id.value else HashIdPrefix + hashText(OrElse(e.title, "")),
      OrElse(e.title, UntitledMeeting),
      start, end,
      OrElse(e.attendees, []),
      Some(OrElse(e.description, "")),
      Some(OrElse(e.location, "")),
      Some(if e.meetingUrl.Some? then e.meetingUrl.value else OrElse(e.hangoutLink, "")),
      OrElse(e.isRecurring, false),
      e.seriesId,
      AppsScript,
      minutes)
  }

  /** `_convert_apps_script_event`, which carries over the minutes the
      window filter computed: no event for a missing, empty or unparseable
      start, or an unparseable non-empty end. */
  function ConvertAppsEvent(e: GoogleCalendar.AppsEvent, parseIso: string -> Option<int>,
                            hashText: string -> string): (r: Option<EnhancedEvent>)
    ensures r.None? <==> GoogleCalendar.StartInstant(e, parseIso).None?
                         || AppsEnd(e, GoogleCalendar.StartInstant(e, parseIso).value, parseIso).None?
    ensures r.Some? ==>
              && r.value.start == GoogleCalendar.StartInstant(e, parseIso).value
              && Some(r.value.end) == AppsEnd(e, r.value.start, parseIso)
              && AppsFields(e, r.value, hashText)
              && r.value.minutesUntilStart == e.minutesUntilStart
  {
    var start := GoogleCalendar.StartInstant(e, parseIso);
    if start.None? then None
    else
      var end := AppsEnd(e, start.value, parseIso);
      if end.None? then None
      else Some(AppsRecord(e, start.value, end.value, e.minutesUntilStart, hashText))
  }

  /** An event the window filter kept converts unless its end does not
      parse, and keeps the whole minutes to its start the filter computed. */
  lemma ConvertFiltered(e: GoogleCalendar.AppsEvent, now: int, minutesAhead: int,
                        parseIso: string -> Option<int>, hashText: string -> string)
    requires GoogleCalendar.Annotated(e, now, minutesAhead, parseIso).Some?
    ensures var a := GoogleCalendar.Annotated(e, now, minutesAhead, parseIso).value;
      var r := ConvertAppsEvent(a, parseIso, hashText);
      && (r.None? <==> AppsEnd(e, GoogleCalendar.StartInstant(e, parseIso).value, parseIso).None?)
      && (r.Some? ==>
            && now < r.value.start <= now + 60 * minutesAhead
            && r.value.minutesUntilStart.Some?
            && 60 * r.value.minutesUntilStart.value <= r.value.start - now < 60 * r.value.minutesUntilStart.value + 60)
  {
    var a := GoogleCalendar.Annotated(e, now, minutesAhead, parseIso).value;
    assert GoogleCalendar.StartInstant(a, parseIso) == GoogleCalendar.StartInstant(e, parseIso);
    assert AppsEnd(a, GoogleCalendar.StartInstant(e, parseIso).value, parseIso)
        == AppsEnd(e, GoogleCalendar.StartInstant(e, parseIso).value, parseIso);
  }

  function AppsConverter(parseIso: string -> Option<int>, hashText: string -> string)
    : GoogleCalendar.AppsEvent -> Option<EnhancedEvent>
  {
    e => ConvertAppsEvent(e, parseIso, hashText)
  }

  /** `_convert_google_api_event`: only events starting strictly after `now`
      and at most `minutesAhead` minutes later, with the whole minutes until
      the start. */
  function ConvertGoogleEvent(e: Calendar.CalendarEvent, now: int, minutesAhead: int): (r: Option<EnhancedEvent>)
    ensures r.Some? <==> now < e.start <= now + 60 * minutesAhead
    ensures r.Some? ==>
              && r.value.id == e.id && r.value.title == e.title
              && r.value.start == e.start && r.value.end == e.end
              && r.value.attendees == e.attendees && r.value.description == e.description
              && r.value.location == e.location && r.value.meetingUrl == e.meetingUrl
              && r.value.isRecurring == e.isRecurring && r.value.seriesId == e.seriesId
              && r.value.source == GoogleApi
              && r.value.minutesUntilStart.Some?
              && 60 * r.value.minutesUntilStart.value <= e.start - now < 60 * r.value.minutesUntilStart.value + 60
  {
    var secs := e.start - now;
    if 0 < secs <= 60 * minutesAhead then
      Some(EnhancedEvent(e.id, e.title, e.start, e.end, e.attendees, e.description, e.location,
                         e.meetingUrl, e.isRecurring, e.seriesId, GoogleApi, Some(secs / 60)))
    else None
  }

  function GoogleConverter(now: int, minutesAhead: int): Calendar.CalendarEvent -> Option<EnhancedEvent> {
    e => ConvertGoogleEvent(e, now, minutesAhead)
  }

  /** `_create_mock_events`: a stand-up 25 minutes ahead when the window
      reaches it, then a product review 20 minutes ahead when the window
      reaches that. */
  function MockEvents(now: int, minutesAhead: int): (r: seq<EnhancedEvent>)
    ensures |r| == (if minutesAhead >= 25 then 1 else 0) + (if minutesAhead >= 20 then 1 else 0)
    ensures forall x <- r :: x.source == Mock && x.isRecurring
                             && now < x.start <= now + 60 * minutesAhead
                             && x.minutesUntilStart == Some((x.start - now) / 60)
                             && x.start < x.end
  {
    var standup := EnhancedEvent(
      "mock_daily_standup", "Daily Standup", now + 25 * 60, now + 25 * 60 + 30 * 60,
      ["alice@example.com", "bob@example.com"], Some("Daily team standup meeting"), Some("Zoom"),
      Some("https://zoom.us/j/123456789"), true, Some("daily_standup_series"), Mock, Some(25));
    var review := EnhancedEvent(
      "mock_product_review", "Product Review Meeting", now + 20 * 60, now + 20 * 60 + Calendar.HourSeconds,
      ["pm@example.com", "dev@example.com"], Some("Weekly product review"), Some("Conference Room A"),
      Some("https://meet.google.com/abc-def-ghi"), true, Some("product_review_series"), Mock, Some(20));
    (if minutesAhead >= 25 then [standup] else []) + (if minutesAhead >= 20 then [review] else [])
  }

  // ---------------------------------------------------------------------
  // Duplicates

  /** `(title.lower().strip(), start_time.isoformat())`, with the ISO text
      of an instant written by `formatIso`. */
  function DedupKey(formatIso: int -> string): EnhancedEvent -> (string, string) {
    (e: EnhancedEvent) => (Strip(Lower(e.title)), formatIso(e.start))
  }

  ghost predicate HasKey<T, K>(xs: seq<T>, key: T -> K, k: K) {
    exists y <- xs :: key(y) == k
  }

  /** The elements whose key has not been seen among the earlier ones: the
      first element of each key, in order. */
  ghost function FirstByKey<T, K>(xs: seq<T>, key: T -> K): seq<T>
    decreases |xs|
  {
    if xs == [] then []
    else
      var prev := FirstByKey(xs[..|xs| - 1], key);
      if HasKey(prev, key, key(xs[|xs| - 1])) then prev else prev + [xs[|xs| - 1]]
  }

  /** The result has no two elements with the same key, holds only input
      elements, and loses no key of the input. */
  lemma {:induction false} FirstByKeyFacts<T, K>(xs: seq<T>, key: T -> K)
    ensures var r := FirstByKey(xs, key);
      && (forall i, j :: 0 <= i < j < |r| ==> key(r[i]) != key(r[j]))
      && (forall y <- r :: y in xs)
      && (forall x <- xs :: HasKey(r, key, key(x)))
    decreases |xs|
  {
    if xs != [] {
      var init, x := xs[..|xs| - 1], xs[|xs| - 1];
      assert xs == init + [x];
      FirstByKeyFacts(init, key);
      var prev := FirstByKey(init, key);
      if !HasKey(prev, key, key(x)) {
        var r := prev + [x];
        forall i, j | 0 <= i < j < |r| ensures key(r[i]) != key(r[j]) {
          if j == |prev| {
            assert r[i] in prev;
          } else {
            assert r[i] == prev[i] && r[j] == prev[j];
          }
        }
        forall y <- xs ensures HasKey(r, key, key(y)) {
          if y != x {
            assert y in init;
            var z :| z in prev && key(z) == key(y);
            assert z in r;
          } else {
            assert r[|prev|] == x;
          }
        }
      } else {
        forall y <- xs ensures HasKey(prev, key, key(y)) {
          if y != x {
            assert y in init;
          }
        }
      }
    }
  }

  /** The first element of each key is kept. */
  lemma {:induction false} FirstOccurrenceKept<T, K>(xs: seq<T>, key: T -> K, i: nat)
    requires i < |xs| && forall j :: 0 <= j < i ==> key(xs[j]) != key(xs[i])
    ensures xs[i] in FirstByKey(xs, key)
    decreases |xs|
  {
    var init, x := xs[..|xs| - 1], xs[|xs| - 1];
    var prev := FirstByKey(init, key);
    if i < |xs| - 1 {
      assert init[i] == xs[i];
      FirstOccurrenceKept(init, key, i);
    } else {
      FirstByKeyFacts(init, key);
      forall z | z in prev ensures key(z) != key(x) {
        assert z in init;
        var j :| 0 <= j < |init| && init[j] == z;
        assert xs[j] == z;
      }
      assert FirstByKey(xs, key) == prev + [x];
    }
  }

  lemma HasKeySnoc<T, K>(xs: seq<T>, x: T, key: T -> K, k: K)
    ensures HasKey(xs + [x], key, k) <==> HasKey(xs, key, k) || key(x) == k
  {
    if HasKey(xs, key, k) {
      var y :| y in xs && key(y) == k;
      assert y in xs + [x];
    }
    if key(x) == k {
      assert x in xs + [x];
    }
  }

  /** `_remove_duplicates`: one pass with the set of keys seen so far. */
  method RemoveDuplicatesBy<T, K(==)>(xs: seq<T>, key: T -> K) returns (unique: seq<T>)
    ensures unique == FirstByKey(xs, key)
  {
    var seen: set<K> := {};
    unique := [];
    for i := 0 to |xs|
      invariant unique == FirstByKey(xs[..i], key)
      invariant forall k :: k in seen <==> HasKey(unique, key, k)
    {
      assert xs[..i + 1][..i] == xs[..i] && xs[..i + 1][i] == xs[i];
      var k := key(xs[i]);
      assert FirstByKey(xs[..i + 1], key) == if HasKey(unique, key, k) then unique else unique + [xs[i]];
      if k !in seen {
        forall k' ensures HasKey(unique + [xs[i]], key, k') <==> HasKey(unique, key, k') || k == k' {
          HasKeySnoc(unique, xs[i], key, k');
        }
        seen := seen + {k};
        unique := unique + [xs[i]];
      }
    }
    assert xs[..|xs|] == xs;
  }

  // ---------------------------------------------------------------------
  // Merging the sources

  /** The events the sources contribute before duplicates are dropped:
      the Apps Script ones; when there are none, the Google API ones inside
      the window; when there are still none, the demonstration ones. */
  function Chosen(now: int, minutesAhead: int, fromApps: seq<EnhancedEvent>,
                  apiEvents: seq<Calendar.CalendarEvent>): seq<EnhancedEvent>
  {
    var fromApi := if fromApps == [] then Somes(apiEvents, GoogleConverter(now, minutesAhead)) else fromApps;
    if fromApi == [] then MockEvents(now, minutesAhead) else fromApi
  }

  /** The Apps Script events after conversion; none when the client is
      not available. */
  function FromApps(appsAvailable: bool, soon: seq<GoogleCalendar.AppsEvent>,
                    parseIso: string -> Option<int>, hashText: string -> string): seq<EnhancedEvent>
  {
    if appsAvailable then Somes(soon, AppsConverter(parseIso, hashText)) else []
  }

  ghost function Merged(events: seq<EnhancedEvent>, formatIso: int -> string): seq<EnhancedEvent> {
    SortBy(FirstByKey(events, DedupKey(formatIso)), EventStart)
  }

  /** `get_upcoming_events_multiple_sources`. The Apps Script answer goes
      through the client's window filter; the Google API is asked, from
      `now` to `minutesAhead + 10` minutes later, only when the Apps Script
      gave no event, and `window` records that request. */
  method GetUpcomingEventsMultipleSources(
    now: int, minutesAhead: int, appsAvailable: bool,
    appsResponse: Option<GoogleCalendar.EventsResponse>,
    apiResults: seq<Option<seq<Calendar.CalendarEvent>>>,
    parseIso: string -> Option<int>, formatIso: int -> string, hashText: string -> string)
    returns (window: Option<(int, int)>, events: seq<EnhancedEvent>)
    ensures var fromApps := FromApps(appsAvailable, GoogleCalendar.WindowResult(appsResponse, now, minutesAhead, parseIso),
                                     parseIso, hashText);
      && window == (if fromApps == [] then Some((now, now + (minutesAhead + 10) * 60)) else None)
      && events == Merged(Chosen(now, minutesAhead, fromApps,
                                 SortBy(Calendar.Gathered(apiResults), Calendar.StartOf)), formatIso)
  {
    var all: seq<EnhancedEvent> := [];
    if appsAvailable {
      var hours, soon := GoogleCalendar.GetMeetingsStartingSoon(now, minutesAhead, appsResponse, parseIso);
      all := CollectSome(soon, AppsConverter(parseIso, hashText));
    }
    window := None;
    if |all| == 0 {
      window := Some((now, now + (minutesAhead + 10) * 60));
      var apiEvents := Calendar.GetAllUpcomingEvents(apiResults);
      all := CollectSome(apiEvents, GoogleConverter(now, minutesAhead));
    }
    if |all| == 0 {
      all := MockEvents(now, minutesAhead);
    }
    var unique := RemoveDuplicatesBy(all, DedupKey(formatIso));
    events := SortBy(unique, EventStart);
  }

  /** The merged events are sorted by start, no two share a title and
      start, each comes from the chosen source, and every chosen
      (title, start) survives. */
  lemma MergedFacts(events: seq<EnhancedEvent>, formatIso: int -> string)
    ensures var m, key := Merged(events, formatIso), DedupKey(formatIso);
      && SortedBy(m, EventStart)
      && (forall i, j :: 0 <= i < j < |m| ==> key(m[i]) != key(m[j]))
      && (forall y <- m :: y in events)
      && (forall x <- events :: HasKey(m, key, key(x)))
  {
    var key := DedupKey(formatIso);
    var u := FirstByKey(events, key);
    FirstByKeyFacts(events, key);
    SortByFacts(u, EventStart);
    var m := SortBy(u, EventStart);
    forall y <- m ensures y in u {
      assert y in multiset(m);
    }
    forall x <- events ensures HasKey(m, key, key(x)) {
      var z :| z in u && key(z) == key(x);
      assert z in multiset(u);
    }
    forall i, j | 0 <= i < j < |m| ensures key(m[i]) != key(m[j]) {
      assert multiset(m) == multiset(u);
      MultisetTwoApart(m, u, i, j);
    }
  }

  /** Two positions of a reordering of a sequence come from two different
      positions of the original. */
  lemma MultisetTwoApart<T>(m: seq<T>, u: seq<T>, i: nat, j: nat)
    requires multiset(m) == multiset(u) && i < j < |m|
    ensures exists a, b :: 0 <= a < |u| && 0 <= b < |u| && a != b && u[a] == m[i] && u[b] == m[j]
  {
    assert m[i] in multiset(u);
    var a :| 0 <= a < |u| && u[a] == m[i];
    var b;
    if m[i] == m[j] {
      b := SecondOccurrence(m, u, i, j, a);
    } else {
      assert m[j] in multiset(u);
      b :| 0 <= b < |u| && u[b] == m[j];
    }
    assert 0 <= a < |u| && 0 <= b < |u| && a != b && u[a] == m[i] && u[b] == m[j];
  }

  /** A value at two positions of `m` occurs twice in `m`. */
  lemma TwiceCounted<T>(m: seq<T>, i: nat, j: nat)
    requires i < j < |m| && m[i] == m[j]
    ensures multiset(m)[m[i]] >= 2
  {
    assert m == m[..i] + [m[i]] + m[i + 1..j] + [m[j]] + m[j + 1..];
  }

  /** A value at two positions of `m`, found at `a` in a permutation `u`,
      is also found at another position of `u`. */
  lemma SecondOccurrence<T>(m: seq<T>, u: seq<T>, i: nat, j: nat, a: nat) returns (b: nat)
    requires multiset(m) == multiset(u) && i < j < |m| && m[i] == m[j]
    requires a < |u| && u[a] == m[i]
    ensures b < |u| && b != a && u[b] == m[j]
  {
    TwiceCounted(m, i, j);
    var rest := u[..a] + u[a + 1..];
    assert u == u[..a] + [u[a]] + u[a + 1..];
    assert multiset(rest)[m[j]] >= 1;
    assert m[j] in rest;
    var c :| 0 <= c < |rest| && rest[c] == m[j];
    b := if c < a then c else c + 1;
  }

  /** Every merged event comes from one source: the Apps Script when it
      gave any event, else the Google API when it gave any, else the
      demonstration events, and those exist whenever the window is at least
      20 minutes. */
  lemma ChosenSource(now: int, minutesAhead: int, fromApps: seq<EnhancedEvent>,
                     apiEvents: seq<Calendar.CalendarEvent>)
    requires forall x <- fromApps :: x.source == AppsScript
    ensures var c := Chosen(now, minutesAhead, fromApps, apiEvents);
      && (fromApps != [] ==> c == fromApps)
      && (fromApps == [] && Somes(apiEvents, GoogleConverter(now, minutesAhead)) != [] ==>
            forall x <- c :: x.source == GoogleApi)
      && (fromApps == [] && Somes(apiEvents, GoogleConverter(now, minutesAhead)) == [] ==>
            c == MockEvents(now, minutesAhead))
      && (minutesAhead >= 20 ==> c != [])
      && (forall x <- c :: x.source == AppsScript <==> fromApps != [])
  {
  }

  /** A non-empty choice survives the merge as a non-empty list. */
  lemma MergedNonEmpty(events: seq<EnhancedEvent>, formatIso: int -> string)
    requires events != []
    ensures Merged(events, formatIso) != []
  {
    MergedFacts(events, formatIso);
    assert events[0] in events;
  }

  /** Every converted Apps Script event is tagged with its source. */
  lemma FromAppsSource(appsAvailable: bool, soon: seq<GoogleCalendar.AppsEvent>,
                       parseIso: string -> Option<int>, hashText: string -> string)
    ensures forall x <- FromApps(appsAvailable, soon, parseIso, hashText) :: x.source == AppsScript
  {
  }

  /** `find_previous_meeting_in_series`: the Apps Script client's answer
      when the client is available and the answer is true (neither `None`
      nor `{}`); otherwise nothing. */
  method FindPreviousMeetingInSeries(title: string, appsAvailable: bool,
                                     response: Option<GoogleCalendar.SeriesResponse>,
                                     fallback: Option<GoogleCalendar.RecurringResponse>)
    returns (r: Option<GoogleCalendar.AppsEvent>)
    ensures r.None? || GoogleCalendar.Truthy(r)
    ensures !appsAvailable || response.None? ==> r.None?
    ensures (appsAvailable && response.Some? && GoogleCalendar.Succeeded(response.value.success)
             && GoogleCalendar.Truthy(response.value.lastMeeting)) ==> r == response.value.lastMeeting
    ensures appsAvailable && response.Some?
            && !(GoogleCalendar.Succeeded(response.value.success) && GoogleCalendar.Truthy(response.value.lastMeeting)) ==>
              (fallback.None? ==> r.None?)
              && (fallback.Some? ==> var series := GoogleCalendar.SeriesOf(fallback.value);
                    && (r.Some? ==> GoogleCalendar.IsFallbackResult(title, series, r))
                    && (r.None? ==> forall p :: GoogleCalendar.IsFallbackResult(title, series, p) ==> !GoogleCalendar.Truthy(p)))
  {
    r := None;
    if appsAvailable {
      var seriesName, previous := GoogleCalendar.GetPreviousMeetingInSeries(title, response, fallback);
      if GoogleCalendar.Truthy(previous) {
        return previous;
      }
      if response.Some? && fallback.Some? {
        forall p | GoogleCalendar.IsFallbackResult(title, GoogleCalendar.SeriesOf(fallback.value), p)
          ensures !GoogleCalendar.Truthy(p)
        {
          if !(GoogleCalendar.Succeeded(response.value.success) && GoogleCalendar.Truthy(response.value.lastMeeting)) {
            GoogleCalendar.FallbackUnique(title, GoogleCalendar.SeriesOf(fallback.value), p, previous);
          }
        }
      }
    }
    return None;
  }
}
